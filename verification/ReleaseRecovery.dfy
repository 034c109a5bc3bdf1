/** Recovery after a crash: what it can rely on in every run in which nobody leads the script
    astray, by moving HEAD just before it is recorded, tagged or pushed, and how it can fail in
    every state in which somebody has. */
module ReleaseRecovery {
  import opened Options
  import opened ReleaseModel
  import opened ReleaseSystem
  import opened ReleaseSafety

  // ---- ancestry in a growing commit graph

  lemma AncestorRefl(parents: map<Sha, seq<Sha>>, c: Sha)
    ensures IsAncestor(parents, c, c)
  {
    assert IsPath(parents, [c], c, c);
  }

  lemma AncestorTrans(parents: map<Sha, seq<Sha>>, a: Sha, b: Sha, c: Sha)
    requires IsAncestor(parents, a, b) && IsAncestor(parents, b, c)
    ensures IsAncestor(parents, a, c)
  {
    var p :| IsPath(parents, p, c, b);
    var q :| IsPath(parents, q, b, a);
    var r := p + q[1..];
    forall i | 0 <= i < |r| - 1 ensures r[i] in parents && r[i + 1] in parents[r[i]] {
      if i < |p| - 1 {
        assert r[i] == p[i] && r[i + 1] == p[i + 1];
      } else {
        assert r[i] == q[i - (|p| - 1)] && r[i + 1] == q[i - (|p| - 1) + 1];
      }
    }
    assert IsPath(parents, r, c, a);
  }

  /** A new commit has no effect on the ancestry of the old ones. */
  lemma GraphGrows(parents: map<Sha, seq<Sha>>, sha: Sha, of: seq<Sha>, a: Sha, d: Sha)
    requires Closed(parents) && sha !in parents && d in parents
    ensures IsAncestor(parents[sha := of], a, d) <==> IsAncestor(parents, a, d)
    ensures IsAncestor(parents, a, d) ==> a in parents
  {
    var grown := parents[sha := of];
    if IsAncestor(grown, a, d) {
      var p :| IsPath(grown, p, d, a);
      StaysInside(parents, sha, of, p, |p|);
      assert IsPath(parents, p, d, a);
    }
    if IsAncestor(parents, a, d) {
      var p :| IsPath(parents, p, d, a);
      assert IsPath(grown, p, d, a);
      StaysInside(parents, sha, of, p, |p|);
    }
  }

  lemma {:induction false} StaysInside(parents: map<Sha, seq<Sha>>, sha: Sha, of: seq<Sha>, p: seq<Sha>, n: nat)
    requires Closed(parents) && sha !in parents && |p| > 0 && p[0] in parents && n <= |p|
    requires forall i | 0 <= i < |p| - 1 :: p[i] in parents[sha := of] && p[i + 1] in parents[sha := of][p[i]]
    ensures forall i | 0 <= i < n :: p[i] in parents
  {
    if n > 1 {
      StaysInside(parents, sha, of, p, n - 1);
      assert p[n - 2] in parents && p[n - 2 + 1] in parents[sha := of][p[n - 2]];
    }
  }

  // ---- the invariant

  /** HEAD is about to be recorded as the release commit though the script has not made it,
      tagged though it is not the release commit, or pushed without the next-cycle commit. */
  ghost predicate Astray(s: System) {
    var w, g := s.world, s.world.git;
    match s.pc
    case Recording1 =>
      s.token.Some? && g.head !in s.ours && RecordCommit(w, s.target, s.token.value, ChecksPassed, ReleaseCommitted).ok
    case Tagging => w.record.Some? && w.record.value.expectedHead != Some(g.head)
    case Pushing =>
      && w.record.Some? && w.record.value.nextCycleCommit.Some? && IsAncestor(g.parents, g.remoteMain, g.head)
      && !IsAncestor(g.parents, w.record.value.nextCycleCommit.value, g.head)
    case _ => false
  }

  function AfterMove(s: System, a: Action): System
    requires a.UserMoves?
  {
    var g := s.world.git;
    s.(world := s.world.(git := g.(head := a.head, objects := g.objects + {a.head}, clean := a.clean, version := a.version,
                                   inputHash := a.inputHash, unexpectedChanges := a.unexpected)))
  }

  /** The action does not lead the script astray. */
  ghost predicate Calm(s: System, a: Action) { a.UserMoves? ==> !Astray(AfterMove(s, a)) }

  ghost predicate IsCalmRun(run: seq<System>, actions: seq<Action>) {
    IsRun(run, actions) && forall i | 0 <= i < |actions| :: Calm(run[i], actions[i])
  }

  predicate GraphOk(s: System) {
    var g := s.world.git;
    Closed(g.parents) && g.head in g.parents && g.remoteMain in g.parents && forall c | c in s.ours :: c in g.parents
  }

  /** Tags and remote at each step of the script. */
  predicate HeadOk(s: System) {
    var w, g := s.world, s.world.git;
    if s.pc.InTransaction() then
      && w.record.Some?
      && (if s.pc.AdvancingTag? || s.pc.Committing2? || s.pc.Recording2? || s.pc.Pushing? || s.pc.Verifying? || s.pc.Releasing?
          then s.target in g.localTags && w.record.value.releaseCommit == Some(g.localTags[s.target])
          else s.target !in g.localTags)
      && s.pushed == (s.pc.Verifying? || s.pc.Releasing?)
    else
      && (s.pc.Checking? ==> g.remoteTags.Keys <= g.localTags.Keys)
      && (s.pc.Certifying? || s.pc.Beginning? ==> s.target !in g.localTags && s.target !in g.remoteTags)
      && (s.pc.Beginning? ==> !s.pushed)
  }

  /** Until the release commit is recorded, the base does not contain what the script has made. */
  ghost predicate BaseOk(s: System) {
    var w, g := s.world, s.world.git;
    && (s.pc.Beginning? || (s.pc.InTransaction() && PhaseAt(s.pc) in EARLY) ==>
          w.record.Some? && w.record.value.payload.baseSha in g.parents
          && (if s.pc.Recording1? then forall c | c in s.ours :: !IsAncestor(g.parents, c, w.record.value.payload.baseSha)
              else s.ours == {}))
  }

  const EARLY := {ReleaseInProgress, VersionBumpInProgress, VersionBumped, ArtifactsReady, ChecksPassed}

  ghost predicate RemoteOk(s: System, r: Record) {
    var g, v := s.world.git, r.payload.targetVersion;
    && (r.releaseCommit.Some? ==> r.releaseCommit.value in s.ours)
    && (s.pushed ==>
          && v in g.remoteTags && r.releaseCommit == Some(g.remoteTags[v]) && r.nextCycleCommit.Some?
          && IsAncestor(g.parents, r.nextCycleCommit.value, g.remoteMain))
    && (!s.pushed ==>
          && v !in g.remoteTags
          && (v in g.localTags ==> r.releaseCommit == Some(g.localTags[v]))
          && forall c | c in s.ours :: !IsAncestor(g.parents, c, g.remoteMain))
    && (r.state.Released? ==> s.pushed)
    && (r.state.Aborted? ==> !s.pushed && v !in g.localTags)
  }

  ghost predicate Traced(s: System) {
    && GraphOk(s) && HeadOk(s) && BaseOk(s)
    && (s.world.record.Some? && InTransaction(s.world.record.value.state) ==> RemoteOk(s, s.world.record.value))
  }

  ghost predicate Inv(s: System) { Safe(s) && Traced(s) && !Astray(s) }

  // ---- recovery

  /** Recovery from any such state with an open transaction does not throw. It ends
      as released if the push took effect and otherwise as aborted, without the local tag. */
  lemma RecoverySucceeds(s: System)
    requires Inv(s) && HasActive(s.world)
    ensures var o := Reconcile(s.world);
            && o.ok && o.world.record.Some?
            && o.world.record.value == s.world.record.value.(state := if s.pushed then Released else Aborted)
            && (!s.pushed ==> s.world.record.value.payload.targetVersion !in o.world.git.localTags
                              && o.world.git == WithoutTag(s.world.git, s.world.record.value.payload.targetVersion))
            && (s.pushed ==> o.world.git == Fetch(s.world.git))
  {
    hide IsAncestor, Safe, Astray, BaseOk;
  }

  // ---- every step keeps the invariant

  lemma CatchTraced(s: System)
    requires Inv(s) && !s.pc.Idle?
    ensures Traced(Catch(s, s.world)) && !Astray(Catch(s, s.world))
  {
    hide IsAncestor, IsPath, RecordOk;
  }

  lemma StopTraced(s: System, a: Action)
    requires Inv(s) && Enabled(s, a) && (a.Throws? || a.Crash?)
    ensures Traced(Do(s, a))
  {
    hide IsAncestor, IsPath, Catch, Safe, Operate, Proceed;
    CatchTraced(s);
  }

  lemma StartTraced(s: System, a: Action)
    requires Inv(s) && Enabled(s, a) && (a.Start? || a.FetchAll? || a.CheckTag?)
    ensures Traced(Do(s, a))
  {
    hide IsAncestor, IsPath, Catch, RecordOk, TokenMatches, Operate, Interrupt, Reconcile, Certify, GatherEvidence, Begin;
    if !s.pc.Idle? {
      CatchTraced(s);
    }
  }

  lemma CertifyTraced(s: System, a: Action)
    requires Inv(s) && Enabled(s, a) && a.CertifyNow?
    ensures Traced(Do(s, a))
  {
    hide IsAncestor, IsPath, Catch, Safe, Operate, Interrupt, Reconcile, Begin, GatherEvidence;
    CatchTraced(s);
  }

  lemma GatherTraced(s: System, a: Action)
    requires Inv(s) && Enabled(s, a) && a.GatherOnly?
    ensures Traced(Do(s, a))
  {
    hide IsAncestor, IsPath, Catch, RecordOk, Operate, Interrupt, Reconcile, Begin, Certify;
  }

  lemma BeginTraced(s: System, a: Action)
    requires Inv(s) && Enabled(s, a) && a.BeginNow?
    ensures Traced(Do(s, a))
  {
    hide IsAncestor, IsPath, RecordOk, Authority, Operate, Interrupt, Reconcile, Certify, GatherEvidence;
    assert forall c | c in s.ours :: !IsAncestor(s.world.git.parents, c, s.world.git.remoteMain);
  }

  lemma RecoverTraced(s: System, a: Action)
    requires Inv(s) && Enabled(s, a) && (a.Recover? || a.RecoverInterrupted?)
    ensures Traced(Do(s, a))
  {
    hide IsAncestor, IsPath, Reconcile, RecordOk, Operate, Interrupt, Certify, GatherEvidence, Begin, Catch;
    RecoverySucceeds(s);
  }

  /** The operations leave the repository alone; a release commit is recorded only if the script
      has made it. */
  lemma OperationTraced(s: System, a: Action)
    requires Inv(s) && Enabled(s, a) && a.IsOperation()
    ensures Traced(Do(s, a)) && !Astray(Do(s, a))
  {
    hide Enabled, Do, Catch, Operation, Written, Safe, Traced, Astray, NextPc, DirectChild, AtExpected;
    OperationPc(s, a);
    NotYetRecorded(s);
    CatchTraced(s);
    CatchIsSafe(s);
    OperationWrites(s.world, s.pc, s.target, s.token.value);
    if Operation(s.world, s.pc, s.target, s.token.value).ok {
      if s.pc.Releasing? {
        FinishTraced(s);
      } else if s.pc.Recording1? || s.pc.Recording2? {
        LinkTraced(s);
      } else {
        PhaseTraced(s);
      }
    }
  }

  lemma PhaseTraced(s: System)
    requires Inv(s) && s.pc.InTransaction() && s.world.record.Some? && !s.pc.Recording1? && !s.pc.Recording2? && !NextPc(s.pc).Idle?
    ensures var s' := s.(world := s.world.(record := Some(Written(s.world, s.pc))), pc := NextPc(s.pc)); Traced(s') && !Astray(s')
  {
    hide IsAncestor, IsPath, RecordOk, TokenMatches, RecordCommit;
  }

  lemma FinishTraced(s: System)
    requires Inv(s) && s.pc.Releasing? && s.world.record.Some?
    ensures var s' := s.(world := s.world.(record := Some(Written(s.world, s.pc))), pc := Idle, token := None); Traced(s') && !Astray(s')
    ensures NextPc(s.pc).Idle?
  {
    hide IsAncestor, IsPath, RecordOk, TokenMatches, RecordCommit;
  }

  lemma LinkTraced(s: System)
    requires Inv(s) && (s.pc.Recording1? || s.pc.Recording2?) && s.token.Some? && s.world.record.Some?
    requires Operation(s.world, s.pc, s.target, s.token.value).ok
    ensures var s' := s.(world := s.world.(record := Some(Written(s.world, s.pc))), pc := NextPc(s.pc)); Traced(s') && !Astray(s')
  {
    hide IsAncestor, IsPath, TokenMatches, ChainOk, RecordCommit;
    AncestorRefl(s.world.git.parents, s.world.git.head);
  }

  lemma InvParts(s: System)
    requires Inv(s)
    ensures Safe(s) && Traced(s) && ScriptOk(s) && GraphOk(s) && HeadOk(s)
  {
  }

  lemma BumpTraced(s: System, a: Action)
    requires Inv(s) && Enabled(s, a) && a.Bump?
    ensures Traced(Do(s, a))
  {
    hide IsAncestor, IsPath, RecordOk, TokenMatches, Operate, Interrupt, Reconcile, Certify, GatherEvidence, Begin, Catch;
  }

  /** Whatever the user does, only HEAD and the worktree are touched. */
  lemma MoveTraced(s: System, a: Action)
    requires Safe(s) && Traced(s) && Enabled(s, a) && a.UserMoves?
    ensures Traced(Do(s, a)) && Do(s, a) == AfterMove(s, a)
  {
    hide IsAncestor, IsPath, Safe, Operate, Proceed;
  }

  lemma VerifyTraced(s: System, a: Action)
    requires Inv(s) && Enabled(s, a) && a.Verify?
    ensures Traced(Do(s, a))
  {
    hide IsAncestor, IsPath, Catch, RecordOk, TokenMatches, Operate, Interrupt, Reconcile, Certify, GatherEvidence, Begin;
    CatchTraced(s);
  }

  lemma TagTraced(s: System, a: Action)
    requires Inv(s) && Enabled(s, a) && a.Tag?
    ensures Traced(Do(s, a))
  {
    hide IsAncestor, IsPath, Catch, Traced, Operate, Interrupt;
    CatchTraced(s);
    MakeTagTraced(s);
  }

  lemma MakeTagTraced(s: System)
    requires Inv(s) && s.pc.Tagging?
    ensures var g := s.world.git;
            Traced(s.(world := s.world.(git := g.(localTags := g.localTags[s.target := g.head])), pc := AdvancingTag))
  {
    hide IsAncestor, IsPath;
  }

  lemma NewCommit(s: System, sha: Sha, of: seq<Sha>, d: Sha)
    requires GraphOk(s) && sha !in s.world.git.parents && d in s.world.git.parents
    ensures var g := s.world.git; forall c :: IsAncestor(g.parents[sha := of], c, d) <==> IsAncestor(g.parents, c, d)
    ensures !IsAncestor(s.world.git.parents[sha := of], sha, d)
  {
    hide IsAncestor, IsPath;
    var g := s.world.git;
    forall c ensures IsAncestor(g.parents[sha := of], c, d) <==> IsAncestor(g.parents, c, d) {
      GraphGrows(g.parents, sha, of, c, d);
    }
    GraphGrows(g.parents, sha, of, sha, d);
  }

  lemma CommitTraced(s: System, a: Action)
    requires Inv(s) && Enabled(s, a) && a.Commit?
    ensures Traced(Do(s, a)) && !Astray(Do(s, a))
  {
    hide IsAncestor, IsPath, Safe, Do, Enabled, Reconcile, RecordCommit, Inv;
    InvParts(s);
    Committed(s, a);
    NewCommit(s, a.sha, [s.world.git.head], s.world.git.remoteMain);
    if s.pc.Committing1? {
      NewCommit(s, a.sha, [s.world.git.head], s.world.record.value.payload.baseSha);
    }
  }

  lemma Committed(s: System, a: Action)
    requires Enabled(s, a) && a.Commit?
    ensures a.sha !in s.world.git.parents && (s.pc.Committing1? || s.pc.Committing2?)
    ensures var g := s.world.git;
            Do(s, a) == s.(world := s.world.(git := g.(parents := g.parents[a.sha := [g.head]], objects := g.objects + {a.sha},
                                                       head := a.sha, clean := true)),
                           ours := s.ours + {a.sha}, pc := if s.pc.Committing1? then Recording1 else Recording2)
  {
    hide IsAncestor, Operate, Interrupt, Reconcile, Certify, GatherEvidence, Begin, Catch;
  }

  lemma OthersCommitTraced(s: System, a: Action)
    requires Inv(s) && Enabled(s, a) && a.OthersCommit?
    ensures Traced(Do(s, a)) && !Astray(Do(s, a))
  {
    hide IsAncestor, IsPath, RecordOk, TokenMatches, RecordCommit, Operate, Proceed;
    NewCommit(s, a.sha, a.of, s.world.git.remoteMain);
    NewCommit(s, a.sha, a.of, s.world.git.head);
    if s.pc.Recording1? {
      NewCommit(s, a.sha, a.of, s.world.record.value.payload.baseSha);
      if s.token.Some? {
        SameRecording(s.world, Do(s, a).world, s.target, s.token.value);
      }
    }
  }

  /** Recording does not look at the remote or at other commits. */
  lemma SameRecording(w: World, w': World, target: Version, token: Token)
    requires w'.record == w.record && w.git.head in w.git.parents && w.git.head in w'.git.parents
    requires w'.git == w.git.(parents := w'.git.parents, remoteMain := w'.git.remoteMain)
    requires w'.git.parents[w.git.head] == w.git.parents[w.git.head]
    ensures RecordCommit(w', target, token, ChecksPassed, ReleaseCommitted).ok == RecordCommit(w, target, token, ChecksPassed, ReleaseCommitted).ok
  {
  }

  lemma PushTraced(s: System, a: Action)
    requires Inv(s) && Enabled(s, a) && a.Push?
    ensures Traced(Do(s, a))
  {
    hide IsAncestor, IsPath, FailRelease, Catch, Inv, Traced;
    CatchTraced(s);
    if IsAncestor(s.world.git.parents, s.world.git.remoteMain, s.world.git.head) {
      PublishTraced(s);
    }
  }

  lemma PublishTraced(s: System)
    requires Inv(s) && s.pc.Pushing? && IsAncestor(s.world.git.parents, s.world.git.remoteMain, s.world.git.head)
    ensures s.target in s.world.git.localTags
    ensures var g := s.world.git;
            Traced(s.(world := s.world.(git := g.(remoteMain := g.head, originMain := g.head,
                                                  remoteTags := g.remoteTags[s.target := g.localTags[s.target]])),
                      pushed := true, pc := Verifying))
  {
    hide IsAncestor, IsPath, ChainOk;
  }

  lemma Published(s: System, a: Action)
    requires Enabled(s, a) && a.OthersPush?
    ensures var g := s.world.git;
            && Do(s, a) == s.(world := s.world.(git := g.(remoteMain := a.main)))
            && a.main in g.parents && IsAncestor(g.parents, g.remoteMain, a.main)
            && (s.pushed || forall c | c in s.ours :: !IsAncestor(g.parents, c, a.main))
  {
    hide IsAncestor, Operate, Proceed;
  }

  lemma OthersPushTraced(s: System, a: Action)
    requires Inv(s) && Enabled(s, a) && a.OthersPush?
    ensures Traced(Do(s, a))
  {
    hide IsAncestor, IsPath, Safe, Do, Enabled, Astray;
    Published(s, a);
    var g := s.world.git;
    forall c | IsAncestor(g.parents, c, g.remoteMain) ensures IsAncestor(g.parents, c, a.main) {
      AncestorTrans(g.parents, c, g.remoteMain, a.main);
    }
  }

  /** Main only moves forward: what was no fast-forward does not become one. */
  lemma OthersPushOnTrack(s: System, a: Action)
    requires Inv(s) && Enabled(s, a) && a.OthersPush?
    ensures !Astray(Do(s, a))
  {
    hide IsAncestor, IsPath, Safe, Do, Enabled, RecordCommit, HeadOk, RemoteOk, BaseOk;
    Published(s, a);
    var g := s.world.git;
    if IsAncestor(g.parents, a.main, g.head) {
      AncestorTrans(g.parents, g.remoteMain, a.main, g.head);
    }
    if s.pc.Recording1? && s.token.Some? {
      SameRecording(s.world, Do(s, a).world, s.target, s.token.value);
    }
  }

  /** No step of the script leads itself astray. */
  lemma StaysOnTrack(s: System, a: Action)
    requires Inv(s) && Enabled(s, a) && Calm(s, a)
    requires !a.IsOperation() && !a.Commit? && !a.OthersCommit? && !a.OthersPush?
    ensures !Astray(Do(s, a))
  {
    hide IsAncestor, IsPath, Safe, Traced, RecordCommit, RequireState, Reconcile, Operate;
  }

  lemma StepTraced(s: System, a: Action)
    requires Inv(s) && Enabled(s, a) && !a.IsOperation()
    ensures Traced(Do(s, a))
  {
    hide *;
    InvParts(s);
    match a {
      case Start(_) | FetchAll | CheckTag => StartTraced(s, a);
      case Throws | Crash => StopTraced(s, a);
      case CertifyNow(_, _, _) => CertifyTraced(s, a);
      case GatherOnly(_, _, _) => GatherTraced(s, a);
      case BeginNow(_) => BeginTraced(s, a);
      case Recover | RecoverInterrupted => RecoverTraced(s, a);
      case Bump(_, _, _) => BumpTraced(s, a);
      case UserMoves(_, _, _, _, _) => MoveTraced(s, a);
      case Verify => VerifyTraced(s, a);
      case Tag => TagTraced(s, a);
      case Commit(_) => CommitTraced(s, a);
      case OthersCommit(_, _) => OthersCommitTraced(s, a);
      case Push => PushTraced(s, a);
      case OthersPush(_) => OthersPushTraced(s, a);
      case _ => WhichAction(a);
    }
  }

  lemma StepKeeps(s: System, a: Action)
    requires Inv(s) && Enabled(s, a) && Calm(s, a)
    ensures Inv(Do(s, a))
  {
    hide Do, Enabled, Safe, Traced, Calm, Astray;
    StepIsSafe(s, a);
    if a.IsOperation() {
      OperationTraced(s, a);
    } else {
      StepTraced(s, a);
      match a {
        case Commit(_) => CommitTraced(s, a);
        case OthersCommit(_, _) => OthersCommitTraced(s, a);
        case OthersPush(_) => OthersPushOnTrack(s, a);
        case _ => StaysOnTrack(s, a);
      }
    }
  }

  // ---- whole runs

  lemma {:induction false} RunKeeps(run: seq<System>, actions: seq<Action>, i: nat)
    requires IsCalmRun(run, actions) && i < |run|
    ensures Inv(run[i])
  {
    if i > 0 {
      RunKeeps(run, actions, i - 1);
      StepKeeps(run[i - 1], actions[i - 1]);
    }
  }

  /** Crash recovery, from wherever a run has left an open transaction. */
  lemma CrashRecovery(run: seq<System>, actions: seq<Action>, i: nat)
    requires IsCalmRun(run, actions) && i < |run| && HasActive(run[i].world)
    ensures var w, o := run[i].world, Reconcile(run[i].world);
            var v := w.record.value.payload.targetVersion;
            && o.ok
            && o.world.record == Some(w.record.value.(state := if run[i].pushed then Released else Aborted))
            && (run[i].pushed <==> v in w.git.remoteTags)
            && (!run[i].pushed ==> v !in o.world.git.localTags)
  {
    hide *;
    RunKeeps(run, actions, i);
    RecoverySucceeds(run[i]);
    TagTellsPush(run[i]);
  }

  lemma TagTellsPush(s: System)
    requires Inv(s) && HasActive(s.world)
    ensures s.world.record.Some? && (s.pushed <==> s.world.record.value.payload.targetVersion in s.world.git.remoteTags)
  {
    hide IsAncestor, Safe, Astray, BaseOk;
  }

  /** A settled transaction tells the truth about the remote: released means that the tag is
      on the release commit and main contains the next-cycle commit, aborted that there is no
      tag anywhere. */
  lemma SettledTellsTruth(run: seq<System>, actions: seq<Action>, i: nat)
    requires IsCalmRun(run, actions) && i < |run| && run[i].world.record.Some?
    ensures var r, g := run[i].world.record.value, run[i].world.git;
            && (r.state.Released? ==> r.payload.targetVersion in g.remoteTags
                                      && Some(g.remoteTags[r.payload.targetVersion]) == r.releaseCommit && r.nextCycleCommit.Some?
                                      && IsAncestor(g.parents, r.nextCycleCommit.value, g.remoteMain))
            && (r.state.Aborted? ==> r.payload.targetVersion !in g.remoteTags && r.payload.targetVersion !in g.localTags)
  {
    hide IsAncestor, Safe, Astray, BaseOk;
    RunKeeps(run, actions, i);
  }

  // ---- how recovery fails once the script is astray

  /** States that follow each other from `s`, nobody moving HEAD any more. */
  ghost predicate Follows(s: System, states: seq<System>, actions: seq<Action>) {
    && |states| == |actions| + 1 && states[0] == s
    && forall i | 0 <= i < |actions| ::
         Enabled(states[i], actions[i]) && states[i + 1] == Do(states[i], actions[i]) && !actions[i].UserMoves?
  }

  ghost predicate RecoveryThrows(s: System) { HasActive(s.world) && !Reconcile(s.world).ok }

  lemma TagsHead(s: System)
    requires Safe(s) && s.pc.Tagging? && s.target !in s.world.git.localTags
    ensures Enabled(s, Tag)
    ensures var g := s.world.git;
            Do(s, Tag) == s.(world := s.world.(git := g.(localTags := g.localTags[s.target := g.head])), pc := AdvancingTag)
    ensures Safe(Do(s, Tag))
  {
    hide RecordOk;
    StepIsSafe(s, Tag);
  }

  /** At another HEAD the step after tagging fails, and the failure is recorded. */
  lemma FailedInside(s: System)
    requires Safe(s) && s.pc.AdvancingTag? && s.world.record.value.expectedHead != Some(s.world.git.head)
    ensures Enabled(s, NoteTag)
    ensures Do(s, NoteTag).world == s.world.(record := Some(s.world.record.value.(state := Failed, failedFrom := Some(ReleaseCommitted))))
  {
    hide Authority;
  }

  /** A tag on another HEAD: the next step notices, and recovery gives up on the wrong tag. */
  lemma TaggedAstray(s: System)
    requires Safe(s) && Traced(s) && s.pc.Tagging? && Astray(s)
    ensures Enabled(s, Tag) && Enabled(Do(s, Tag), NoteTag) && RecoveryThrows(Do(Do(s, Tag), NoteTag))
  {
    hide IsAncestor, IsPath, Do, Enabled, Reconcile, RemoteOk;
    TagsHead(s);
    FailedInside(Do(s, Tag));
    WrongTagStops(s, Do(Do(s, Tag), NoteTag).world);
  }

  lemma WrongTagStops(s: System, w: World)
    requires Safe(s) && Traced(s) && s.pc.Tagging? && Astray(s)
    requires w.record.Some? && w.record.value.state.Failed?
    requires w.record.value.payload == s.world.record.value.payload && w.record.value.releaseCommit == s.world.record.value.releaseCommit
    requires w.git == s.world.git.(localTags := s.world.git.localTags[s.target := s.world.git.head])
    ensures !Reconcile(w).ok
  {
    hide IsAncestor, IsPath, BaseOk;
  }

  /** A push of another HEAD publishes a main without the next-cycle commit. */
  lemma PushedAstray(s: System)
    requires Safe(s) && Traced(s) && s.pc.Pushing? && Astray(s)
    ensures Enabled(s, Push) && RecoveryThrows(Do(s, Push))
  {
    hide IsPath, IsAncestor, Reconcile, BaseOk;
    WrongMainStops(Do(s, Push).world);
  }

  lemma WrongMainStops(w: World)
    requires HasActive(w) && w.record.value.payload.targetVersion in w.git.remoteTags
    requires w.record.value.nextCycleCommit.Some? && !IsAncestor(w.git.parents, w.record.value.nextCycleCommit.value, w.git.remoteMain)
    ensures !Reconcile(w).ok
  {
    hide IsPath, IsAncestor;
    AncestorRefl(w.git.parents, w.git.remoteMain);
  }

  // a commit of others that is recorded as the release commit

  lemma FirstStep(parents: map<Sha, seq<Sha>>, a: Sha, d: Sha) returns (p: Sha)
    requires IsAncestor(parents, a, d) && a != d
    ensures d in parents && p in parents[d] && IsAncestor(parents, a, p)
  {
    var path :| IsPath(parents, path, d, a);
    assert |path| > 1 && path[0] in parents && path[0 + 1] in parents[path[0]];
    p := path[1];
    var rest := path[1..];
    forall i | 0 <= i < |rest| - 1 ensures rest[i] in parents && rest[i + 1] in parents[rest[i]] {
      assert path[i + 1] in parents && path[i + 1 + 1] in parents[path[i + 1]];
    }
    assert IsPath(parents, rest, p, a);
  }

  lemma ParentIsAncestor(parents: map<Sha, seq<Sha>>, p: Sha, d: Sha)
    requires d in parents && p in parents[d]
    ensures IsAncestor(parents, p, d)
  {
    assert IsPath(parents, [d, p], d, p);
  }

  lemma {:induction false} FreshSha(used: set<Sha>) returns (sha: Sha)
    ensures forall c | c in used :: c < sha
  {
    if used == {} {
      sha := 0;
    } else {
      var c :| c in used;
      var least := FreshSha(used - {c});
      sha := if least > c then least else c + 1;
      forall d | d in used ensures d < sha {
        assert d == c || d in used - {c};
      }
    }
  }

  /** Others merge the recorded commit into main: nothing of the script's own is published. */
  lemma MergeAllowed(s: System, m: Sha, head: Sha, base: Sha)
    requires GraphOk(s) && m !in s.world.git.parents && head in s.world.git.parents && s.world.git.parents[head] == [base]
    requires head !in s.ours
    requires forall c | c in s.ours :: !IsAncestor(s.world.git.parents, c, s.world.git.remoteMain)
    requires forall c | c in s.ours :: !IsAncestor(s.world.git.parents, c, base)
    ensures var parents := s.world.git.parents[m := [s.world.git.remoteMain, head]];
            && IsAncestor(parents, s.world.git.remoteMain, m) && IsAncestor(parents, head, m)
            && forall c | c in s.ours :: !IsAncestor(parents, c, m)
  {
    hide IsAncestor, IsPath;
    var g := s.world.git;
    var parents := g.parents[m := [g.remoteMain, head]];
    ParentIsAncestor(parents, g.remoteMain, m);
    ParentIsAncestor(parents, head, m);
    NewCommit(s, m, [g.remoteMain, head], g.remoteMain);
    NewCommit(s, m, [g.remoteMain, head], head);
    forall c | c in s.ours ensures !IsAncestor(parents, c, m) {
      if IsAncestor(parents, c, m) {
        var p := FirstStep(parents, c, m);
        if p == head {
          var q := FirstStep(g.parents, c, head);
        }
      }
    }
  }

  /** The steps after which others have published what was recorded and it is known locally. */
  lemma RecordedAstray(s: System) returns (states: seq<System>, actions: seq<Action>)
    requires Safe(s) && Traced(s) && s.pc.Recording1? && Astray(s)
    ensures Follows(s, states, actions) && RecoveryThrows(states[|states| - 1])
  {
    hide IsAncestor, IsPath, Do, Enabled, Reconcile, Safe, Written, RecordCommit;
    var head := s.world.git.head;
    RecordsHead(s);
    var s1 := Do(s, RecordNow);
    RecordedHead(s.world);
    var m := FreshSha(s.world.git.parents.Keys);
    AstrayBase(s);
    MergeAllowed(s, m, head, s.world.record.value.payload.baseSha);
    OthersMerge(s1, m, head);
    var s2 := Do(s1, OthersCommit(m, [s1.world.git.remoteMain, head]));
    var s3 := Do(s2, OthersPush(m));
    LooksAgain(s3);
    var s4 := Do(s3, Crash);
    var s5 := Do(s4, Start(""));
    var s6 := Do(s5, FetchAll);
    PartialReleaseStops(s6.world, head);
    states := [s, s1, s2, s3, s4, s5, s6];
    actions := [RecordNow, OthersCommit(m, [s1.world.git.remoteMain, head]), OthersPush(m), Crash, Start(""), FetchAll];
  }

  lemma AstrayBase(s: System)
    requires Safe(s) && Traced(s) && s.pc.Recording1? && Astray(s)
    ensures GraphOk(s) && s.world.record.Some? && s.world.git.head !in s.ours
    ensures var g, base := s.world.git, s.world.record.value.payload.baseSha;
            && g.parents[g.head] == [base] && s.world.record.value.payload.targetVersion !in g.remoteTags
            && (forall c | c in s.ours :: !IsAncestor(g.parents, c, g.remoteMain))
            && (forall c | c in s.ours :: !IsAncestor(g.parents, c, base))
  {
    hide IsAncestor, IsPath, Authority, TokenMatches;
  }

  lemma RecordsHead(s: System)
    requires Safe(s) && s.pc.Recording1? && Astray(s)
    ensures Enabled(s, RecordNow) && s.world.record.Some?
    ensures Do(s, RecordNow) == s.(world := s.world.(record := Some(Written(s.world, Recording1))), pc := Tagging)
  {
    hide RecordCommit, RecordOk, Written, IsAncestor;
    OperationWrites(s.world, s.pc, s.target, s.token.value);
  }

  lemma RecordedHead(w: World)
    requires w.record.Some?
    ensures var r := Written(w, Recording1);
            r.state.ReleaseCommitted? && r.payload == w.record.value.payload && r.releaseCommit == Some(w.git.head)
  {
  }

  lemma OthersMerge(s: System, m: Sha, head: Sha)
    requires m !in s.world.git.parents && s.world.git.remoteMain in s.world.git.parents && head in s.world.git.parents
    requires var parents := s.world.git.parents[m := [s.world.git.remoteMain, head]];
             IsAncestor(parents, s.world.git.remoteMain, m) && forall c | c in s.ours :: !IsAncestor(parents, c, m)
    ensures var merge := OthersCommit(m, [s.world.git.remoteMain, head]);
            && Enabled(s, merge) && Enabled(Do(s, merge), OthersPush(m))
            && Do(Do(s, merge), OthersPush(m))
               == s.(world := s.world.(git := s.world.git.(parents := s.world.git.parents[m := [s.world.git.remoteMain, head]], remoteMain := m)))
  {
    hide IsPath, IsAncestor;
  }

  /** After a crash the next run fetches main before it looks at the record. */
  lemma LooksAgain(s: System)
    requires !s.pc.Idle?
    ensures Enabled(s, Crash) && Enabled(Do(s, Crash), Start("")) && Enabled(Do(Do(s, Crash), Start("")), FetchAll)
    ensures var g := s.world.git;
            Do(Do(Do(s, Crash), Start("")), FetchAll).world == s.world.(git := Fetch(g).(localTags := g.remoteTags + g.localTags))
  {
  }

  lemma PartialReleaseStops(w: World, head: Sha)
    requires HasActive(w) && w.record.value.payload.targetVersion !in w.git.remoteTags
    requires w.record.value.releaseCommit == Some(head) && w.git.remoteMain in w.git.objects
    requires IsAncestor(w.git.parents, head, w.git.remoteMain)
    ensures !Reconcile(w).ok
  {
    hide IsAncestor;
  }

  /** Once the script is astray, recovery fails in some continuation in which nobody moves HEAD
      any more. With `StepKeeps` this makes being astray exactly what recovery cannot bear. */
  lemma AstrayCanFail(s: System) returns (states: seq<System>, actions: seq<Action>)
    requires Safe(s) && Traced(s) && Astray(s)
    ensures Follows(s, states, actions) && RecoveryThrows(states[|states| - 1])
  {
    hide Safe, Traced, Do, Enabled, RecoveryThrows, IsAncestor, RecordCommit;
    if s.pc.Recording1? {
      states, actions := RecordedAstray(s);
    } else if s.pc.Tagging? {
      TaggedAstray(s);
      states, actions := [s, Do(s, Tag), Do(Do(s, Tag), NoteTag)], [Tag, NoteTag];
    } else {
      PushedAstray(s);
      states, actions := [s, Do(s, Push)], [Push];
    }
  }

  /** A move is harmless exactly when it does not lead the script astray. */
  lemma MoveBreaksUnlessCalm(s: System, a: Action)
    requires Inv(s) && a.UserMoves? && Enabled(s, a)
    ensures if Calm(s, a) then Inv(Do(s, a))
            else exists states, actions :: Follows(Do(s, a), states, actions) && RecoveryThrows(states[|states| - 1])
  {
    hide Safe, Traced, Astray, RecoveryThrows, IsAncestor;
    if Calm(s, a) {
      StepKeeps(s, a);
    } else {
      StepIsSafe(s, a);
      MoveTraced(s, a);
      var states, actions := AstrayCanFail(Do(s, a));
    }
  }
}
