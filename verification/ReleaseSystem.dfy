/** The release script as a program over the transaction, with everything that can
    happen around it: failures and crashes between any two of its steps, other people
    committing and fast-forwarding remote main, and a user moving HEAD and editing the
    worktree at any time (scripts/release.js). */
module ReleaseSystem {
  import opened ReleaseModel
  import opened Options

  /** The step the script takes next. */
  datatype Pc =
    | Idle
    | Fetching | Checking | Certifying | Beginning
    | Consuming | Bumping | Marking | Preparing | Testing
    | Committing1 | Recording1 | Tagging | AdvancingTag
    | Committing2 | Recording2 | Pushing | Verifying | Releasing
  {
    predicate InTransaction() {
      !Idle? && !Fetching? && !Checking? && !Certifying? && !Beginning?
    }
  }

  datatype System = System(
    world: World,
    pc: Pc, target: Version, token: Option<Token>,   // the running script
    sealed: Option<Payload>,                         // the payload last certified
    ours: set<Sha>, pushed: bool)                    // commits made and push done since then

  datatype Action =
    // the script
    | Start(target: Version)
    | FetchAll
    | Recover
    | RecoverInterrupted
    | CheckTag
    | CertifyNow(allowMajor: bool, evidence: string, paths: seq<string>)
    | GatherOnly(allowMajor: bool, evidence: string, paths: seq<string>)
    | BeginNow(token: Token)
    | Consume
    | Bump(version: Version, inputHash: nat, unexpected: bool)
    | Mark
    | Prepare
    | Test(passed: bool)
    | Commit(sha: Sha)
    | RecordNow
    | Tag
    | NoteTag
    | Push
    | Verify
    | Finish
    // interruptions
    | Throws
    | Crash
    // everybody else
    | OthersCommit(sha: Sha, of: seq<Sha>)
    | OthersPush(main: Sha)
    | UserMoves(head: Sha, clean: bool, version: Version, inputHash: nat, unexpected: bool)
  {
    /** The script calls an operation of the transaction. */
    predicate IsOperation() { Consume? || Mark? || Prepare? || Test? || RecordNow? || NoteTag? || Finish? }

    /** Something other than a step of the script. */
    predicate IsInterruption() { Throws? || Crash? || OthersCommit? || OthersPush? || UserMoves? }
  }

  predicate HasActive(w: World) { w.record.Some? && w.record.value.state.Active() }

  predicate Closed(parents: map<Sha, seq<Sha>>) {
    forall c, p | c in parents && p in parents[c] :: p in parents
  }

  /** The script's catch block: record the failure and exit. */
  function Catch(s: System, w: World): System {
    s.(world := if s.token.Some? then FailRelease(w, s.token.value) else w, pc := Idle, token := None)
  }

  function Continue(s: System, o: Outcome, next: Pc): System {
    if o.ok then s.(world := o.world, pc := next) else Catch(s, o.world)
  }

  /** When the action can be taken at all. */
  ghost predicate Enabled(s: System, a: Action) {
    var w, g := s.world, s.world.git;
    match a
    case Start(_) => s.pc.Idle?
    case FetchAll => s.pc.Fetching?
    case Recover | RecoverInterrupted => s.pc.Checking? && HasActive(w)
    case CheckTag => s.pc.Checking? && !HasActive(w)
    case CertifyNow(_, _, _) | GatherOnly(_, _, _) => s.pc.Certifying?
    case BeginNow(_) => s.pc.Beginning?
    case Consume => s.pc.Consuming?
    case Bump(_, _, _) => s.pc.Bumping?
    case Mark => s.pc.Marking?
    case Prepare => s.pc.Preparing?
    case Test(_) => s.pc.Testing?
    case Commit(sha) => (s.pc.Committing1? || s.pc.Committing2?) && sha !in g.parents
    case RecordNow => s.pc.Recording1? || s.pc.Recording2?
    case Tag => s.pc.Tagging?
    case NoteTag => s.pc.AdvancingTag?
    case Push => s.pc.Pushing?
    case Verify => s.pc.Verifying?
    case Finish => s.pc.Releasing?
    case Throws | Crash => !s.pc.Idle?
    case OthersCommit(sha, of) => sha !in g.parents && forall p | p in of :: p in g.parents
    case OthersPush(main) =>
      // a fast-forward that does not publish the script's own commits for it
      && main in g.parents && IsAncestor(g.parents, g.remoteMain, main)
      && (s.pushed || forall c | c in s.ours :: !IsAncestor(g.parents, c, main))
    case UserMoves(head, _, _, _, _) => head in g.parents
  }

  /** The operation called at each step of the script. */
  function Operation(w: World, pc: Pc, target: Version, token: Token): Outcome {
    match pc
    case Consuming => ConsumeVersionBump(w, target, token)
    case Marking => MarkVersionBumped(w, target, token)
    case Preparing => Advance(w, target, token, VersionBumped, ArtifactsReady)
    case Testing => Advance(w, target, token, ArtifactsReady, ChecksPassed)
    case Recording1 => RecordCommit(w, target, token, ChecksPassed, ReleaseCommitted)
    case AdvancingTag => Advance(w, target, token, ReleaseCommitted, Tagged)
    case Recording2 => RecordCommit(w, target, token, Tagged, NextCycleCommitted)
    case Releasing => Advance(w, target, token, NextCycleCommitted, Released)
    case _ => Throw(w)
  }

  /** Where the script goes on after it. */
  function NextPc(pc: Pc): Pc {
    match pc
    case Consuming => Bumping
    case Marking => Preparing
    case Preparing => Testing
    case Testing => Committing1
    case Recording1 => Tagging
    case AdvancingTag => Committing2
    case Recording2 => Pushing
    case _ => Idle
  }

  function Operate(s: System, a: Action): System {
    if s.token.None? || a == Test(false) then Catch(s, s.world)
    else
      var s' := Continue(s, Operation(s.world, s.pc, s.target, s.token.value), NextPc(s.pc));
      if a.Finish? then s'.(token := None) else s'
  }

  /** The other steps of the script. */
  ghost function Proceed(s: System, a: Action): System
    requires Enabled(s, a) && !a.IsOperation() && !a.IsInterruption()
  {
    var w, g := s.world, s.world.git;
    match a
    case Start(target) => s.(pc := Fetching, target := target, token := None)
    case FetchAll =>
      s.(world := w.(git := Fetch(g).(localTags := g.remoteTags + g.localTags)), pc := Checking)
    case Recover =>
      var o := Reconcile(w);
      if o.ok && o.world.record.value.state.Aborted? then s.(world := o.world)
      else s.(world := o.world, pc := Idle)
    case RecoverInterrupted =>
      // killed after deleting the tag, before writing the record
      var o := Reconcile(w);
      s.(world := w.(git := o.world.git), pc := Idle)
    case CheckTag =>
      if g.clean && s.target !in g.localTags then s.(pc := Certifying) else Catch(s, w)
    case CertifyNow(allowMajor, evidence, paths) =>
      var o := Certify(w, s.target, allowMajor, evidence, paths);
      if o.ok then s.(world := o.world, pc := Beginning, sealed := Some(o.world.record.value.payload), ours := {}, pushed := false)
      else Catch(s, o.world)
    case GatherOnly(allowMajor, evidence, paths) =>
      var o := GatherEvidence(w, s.target, allowMajor, evidence, paths);
      s.(world := o.world, pc := Idle)
    case BeginNow(token) =>
      var o := Begin(w, s.target, token);
      if o.ok then s.(world := o.world, pc := Consuming, token := Some(token)) else Catch(s, o.world)
    case Bump(version, inputHash, unexpected) =>
      s.(world := w.(git := g.(clean := false, version := version, inputHash := inputHash, unexpectedChanges := unexpected)),
         pc := Marking)
    case Commit(sha) =>
      s.(world := w.(git := g.(parents := g.parents[sha := [g.head]], objects := g.objects + {sha}, head := sha, clean := true)),
         ours := s.ours + {sha}, pc := if s.pc.Committing1? then Recording1 else Recording2)
    case Tag =>
      if s.target in g.localTags then Catch(s, w)
      else s.(world := w.(git := g.(localTags := g.localTags[s.target := g.head])), pc := AdvancingTag)
    case Push =>
      // one atomic update of both refs, refused unless main fast-forwards and the tag is new
      if s.target in g.localTags && s.target !in g.remoteTags && IsAncestor(g.parents, g.remoteMain, g.head)
      then s.(world := w.(git := g.(remoteMain := g.head, originMain := g.head,
                                    remoteTags := g.remoteTags[s.target := g.localTags[s.target]])),
              pushed := true, pc := Verifying)
      else Catch(s, w)
    case Verify =>
      if s.target in g.localTags && s.target in g.remoteTags && g.remoteMain == g.head
         && g.remoteTags[s.target] == g.localTags[s.target]
      then s.(pc := Releasing) else Catch(s, w)
  }

  /** Failures, crashes, and what others do. */
  function Interrupt(s: System, a: Action): System
    requires a.IsInterruption()
  {
    var w, g := s.world, s.world.git;
    match a
    case Throws => Catch(s, w)
    case Crash => s.(pc := Idle, token := None)
    case OthersCommit(sha, of) => s.(world := w.(git := g.(parents := g.parents[sha := of])))
    case OthersPush(main) => s.(world := w.(git := g.(remoteMain := main)))
    case UserMoves(head, clean, version, inputHash, unexpected) =>
      s.(world := w.(git := g.(head := head, objects := g.objects + {head}, clean := clean, version := version,
                               inputHash := inputHash, unexpectedChanges := unexpected)))
  }

  ghost function Do(s: System, a: Action): System
    requires Enabled(s, a)
  {
    if a.IsOperation() then Operate(s, a) else if a.IsInterruption() then Interrupt(s, a) else Proceed(s, a)
  }

  /** A repository in which no release was ever started. */
  ghost predicate Initial(s: System) {
    var g := s.world.git;
    && s.world.record.None? && s.pc.Idle? && s.token.None? && s.sealed.None? && s.ours == {} && !s.pushed
    && Closed(g.parents) && g.head in g.parents && g.remoteMain in g.parents
  }

  ghost predicate IsRun(run: seq<System>, actions: seq<Action>) {
    && |run| == |actions| + 1
    && Initial(run[0])
    && forall i | 0 <= i < |actions| :: Enabled(run[i], actions[i]) && run[i + 1] == Do(run[i], actions[i])
  }
}
