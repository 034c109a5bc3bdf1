/** The script finishes: from every step of a transaction, if HEAD and the repository are as the
    step requires and nobody interferes, its own steps lead to a published release. */
module ReleaseProgress {
  import opened Options
  import opened ReleaseModel
  import opened ReleaseSystem
  import opened ReleaseSafety
  import opened ReleaseRecovery
  import opened ReleaseExact
  import ReleaseGates

  /** HEAD and the worktree are as the next step requires. */
  predicate AtGate(s: System) {
    var w, g := s.world, s.world.git;
    match s.pc
    case Consuming => AtExpected(w) && CleanMain(g) && g.inputHash == w.record.value.payload.inputHash
    case Marking => AtExpected(w) && g.version == s.target && !g.unexpectedChanges
    case Recording1 | Recording2 => DirectChild(w) && g.clean
    case Verifying =>
      AtExpected(w) && g.remoteMain == g.head && s.target in g.remoteTags && s.target in g.localTags
      && g.remoteTags[s.target] == g.localTags[s.target]
    case _ => AtExpected(w)
  }

  /** Remote main is where it was when the release was certified, or an ancestor of that. */
  ghost predicate CanForward(s: System) {
    s.world.record.Some? && !s.pushed ==>
      s.world.record.value.payload.baseSha in s.world.git.parents
      && IsAncestor(s.world.git.parents, s.world.git.remoteMain, s.world.record.value.payload.baseSha)
  }

  ghost predicate IsReady(s: System) {
    && Inv(s) && s.pc.InTransaction() && s.world.record.Some? && s.token.Some?
    && IsAuthentic(s.world.git, s.world.record.value) && AtGate(s) && CanForward(s)
  }

  // ---- one step

  lemma OpenAtStep(s: System)
    requires IsReady(s)
    ensures IsOpen(s.world, PhaseAt(s.pc), s.target, s.token.value)
  {
    hide Traced, Astray, AtGate, CanForward, RecordOk;
  }

  lemma AdvanceSucceeds(s: System)
    requires IsReady(s) && (s.pc.Preparing? || s.pc.Testing? || s.pc.AdvancingTag? || s.pc.Releasing?)
    ensures Operation(s.world, s.pc, s.target, s.token.value).ok
  {
    hide Inv, CanForward, IsAuthentic, IsOpen, ConsumeVersionBump, MarkVersionBumped, Advance, RecordCommit;
    OpenAtStep(s);
    var to := if s.pc.Preparing? then ArtifactsReady else if s.pc.Testing? then ChecksPassed else if s.pc.AdvancingTag? then Tagged else Released;
    AdvanceExactly(s.world, s.target, s.token.value, PhaseAt(s.pc), to);
  }

  lemma RecordSucceeds(s: System)
    requires IsReady(s) && (s.pc.Recording1? || s.pc.Recording2?)
    ensures Operation(s.world, s.pc, s.target, s.token.value).ok
  {
    hide Inv, CanForward, IsAuthentic, IsOpen, ConsumeVersionBump, MarkVersionBumped, Advance, RecordCommit;
    OpenAtStep(s);
    RecordExactly(s.world, s.target, s.token.value, PhaseAt(s.pc), if s.pc.Recording1? then ReleaseCommitted else NextCycleCommitted);
  }

  lemma BumpSucceeds(s: System)
    requires IsReady(s) && (s.pc.Consuming? || s.pc.Marking?)
    ensures Operation(s.world, s.pc, s.target, s.token.value).ok
  {
    hide Inv, CanForward, IsAuthentic, IsOpen, ConsumeVersionBump, MarkVersionBumped, Advance, RecordCommit;
    OpenAtStep(s);
    if s.pc.Consuming? {
      ConsumeExactly(s.world, s.target, s.token.value);
    } else {
      MarkExactly(s.world, s.target, s.token.value);
    }
  }

  lemma OperationSucceeds(s: System)
    requires IsReady(s) && (NextPc(s.pc) != Idle || s.pc.Releasing?)
    ensures s.token.Some? && Operation(s.world, s.pc, s.target, s.token.value).ok
  {
    ReadyParts(s);
    hide IsReady, Operation;
    match s.pc {
      case Consuming | Marking => BumpSucceeds(s);
      case Recording1 | Recording2 => RecordSucceeds(s);
      case _ => AdvanceSucceeds(s);
    }
  }

  /** The action that calls the operation of a step. */
  function OperationAt(pc: Pc): Action {
    match pc
    case Consuming => Consume
    case Marking => Mark
    case Preparing => Prepare
    case Testing => Test(true)
    case AdvancingTag => NoteTag
    case Releasing => Finish
    case _ => RecordNow
  }

  lemma Operated(s: System)
    requires IsReady(s) && (NextPc(s.pc) != Idle || s.pc.Releasing?)
    ensures var a := OperationAt(s.pc);
            && Enabled(s, a) && a.IsOperation() && !a.IsInterruption() && !a.UserMoves?
            && s.world.record.Some?
            && Do(s, a) == s.(world := s.world.(record := Some(Written(s.world, s.pc))), pc := NextPc(s.pc),
                              token := if s.pc.Releasing? then None else s.token)
  {
    hide IsReady, Inv, Operation, Written, IsAncestor, Proceed, Interrupt;
    ReadyParts(s);
    OperationSucceeds(s);
    OperationWrites(s.world, s.pc, s.target, s.token.value);
  }

  lemma ReadyParts(s: System)
    requires IsReady(s)
    ensures Inv(s) && AtGate(s) && s.token.Some?
  {
  }

  /** Another phase, or the next link, and the step after it may be taken. */
  lemma OperationReady(s: System)
    requires IsReady(s) && NextPc(s.pc) != Idle
    ensures Enabled(s, OperationAt(s.pc)) && IsReady(Do(s, OperationAt(s.pc))) && Do(s, OperationAt(s.pc)).pc == NextPc(s.pc)
    ensures !OperationAt(s.pc).IsInterruption()
  {
    hide Inv, Do, Enabled, Operation;
    Operated(s);
    StepKeeps(s, OperationAt(s.pc));
    WrittenParts(s.world, s.pc);
    SameEvidence(s.world, s.pc);
  }

  lemma SameEvidence(w: World, pc: Pc)
    requires w.record.Some?
    ensures Written(w, pc).evidence == w.record.value.evidence
  {
  }

  lemma BumpReady(s: System)
    requires IsReady(s) && s.pc.Bumping?
    ensures var a := Bump(s.target, 0, false); Enabled(s, a) && IsReady(Do(s, a)) && Do(s, a).pc.Marking?
  {
    hide Inv, IsAncestor, Operate, Interrupt, Reconcile, Certify, GatherEvidence, Begin, Catch;
    StepKeeps(s, Bump(s.target, 0, false));
  }

  lemma CommitReady(s: System, sha: Sha)
    requires IsReady(s) && (s.pc.Committing1? || s.pc.Committing2?) && sha !in s.world.git.parents
    ensures var a := Commit(sha);
            Enabled(s, a) && IsReady(Do(s, a)) && Do(s, a).pc == if s.pc.Committing1? then Recording1 else Recording2
  {
    hide Inv, IsAncestor, Do, Enabled;
    MayCommit(s, sha);
    Committed(s, Commit(sha));
    StepKeeps(s, Commit(sha));
    InvParts(s);
    if !s.pushed {
      NewCommit(s, sha, [s.world.git.head], s.world.record.value.payload.baseSha);
    }
  }

  lemma MayCommit(s: System, sha: Sha)
    requires (s.pc.Committing1? || s.pc.Committing2?) && sha !in s.world.git.parents
    ensures Enabled(s, Commit(sha))
  {
    hide IsAncestor;
  }

  lemma TagReady(s: System)
    requires IsReady(s) && s.pc.Tagging?
    ensures Enabled(s, Tag) && IsReady(Do(s, Tag)) && Do(s, Tag).pc.AdvancingTag?
  {
    hide Inv, IsAncestor, Do, Enabled;
    InvParts(s);
    TagsHead(s);
    StepKeeps(s, Tag);
  }

  /** The next-cycle commit is a fast-forward of the base. */
  lemma ChainForward(s: System)
    requires IsReady(s) && s.pc.Pushing?
    ensures IsAncestor(s.world.git.parents, s.world.git.remoteMain, s.world.git.head)
    ensures s.target in s.world.git.localTags && s.target !in s.world.git.remoteTags
  {
    hide IsAncestor, IsPath, Astray, BaseOk;
    var g, r := s.world.git, s.world.record.value;
    ParentIsAncestor(g.parents, r.payload.baseSha, r.releaseCommit.value);
    ParentIsAncestor(g.parents, r.releaseCommit.value, r.nextCycleCommit.value);
    AncestorTrans(g.parents, g.remoteMain, r.payload.baseSha, r.releaseCommit.value);
    AncestorTrans(g.parents, g.remoteMain, r.releaseCommit.value, r.nextCycleCommit.value);
  }

  lemma PushReady(s: System)
    requires IsReady(s) && s.pc.Pushing?
    ensures Enabled(s, Push) && IsReady(Do(s, Push)) && Do(s, Push).pc.Verifying?
  {
    hide Inv, IsAncestor, Operate, Interrupt, Reconcile, Certify, GatherEvidence, Begin, Catch;
    ChainForward(s);
    StepKeeps(s, Push);
  }

  lemma VerifyReady(s: System)
    requires IsReady(s) && s.pc.Verifying?
    ensures Enabled(s, Verify) && IsReady(Do(s, Verify)) && Do(s, Verify).pc.Releasing?
  {
    hide Inv, IsAncestor, Operate, Interrupt, Reconcile, Certify, GatherEvidence, Begin, Catch;
    StepKeeps(s, Verify);
  }

  lemma GitStepReady(s: System) returns (a: Action)
    requires IsReady(s) && (s.pc.Bumping? || s.pc.Tagging? || s.pc.Pushing? || s.pc.Verifying?)
    ensures Enabled(s, a) && !a.IsInterruption() && IsReady(Do(s, a))
    ensures ReleaseGates.Rank(Do(s, a).pc) == ReleaseGates.Rank(s.pc) + 1
  {
    hide IsReady, Do, Enabled;
    match s.pc {
      case Bumping =>
        BumpReady(s);
        a := Bump(s.target, 0, false);
      case Tagging =>
        TagReady(s);
        a := Tag;
      case Pushing =>
        PushReady(s);
        a := Push;
      case Verifying =>
        VerifyReady(s);
        a := Verify;
    }
  }

  /** One step of the script, and the next one may be taken. */
  lemma NextReady(s: System) returns (a: Action)
    requires IsReady(s) && !s.pc.Releasing?
    ensures Enabled(s, a) && !a.IsInterruption() && IsReady(Do(s, a))
    ensures ReleaseGates.Rank(Do(s, a).pc) == ReleaseGates.Rank(s.pc) + 1
  {
    hide IsReady, Do, Enabled, OperationAt;
    InTransactionNow(s);
    if s.pc.Bumping? || s.pc.Tagging? || s.pc.Pushing? || s.pc.Verifying? {
      a := GitStepReady(s);
    } else if s.pc.Committing1? || s.pc.Committing2? {
      var sha := FreshSha(s.world.git.parents.Keys);
      CommitReady(s, sha);
      a := Commit(sha);
    } else {
      OperationReady(s);
      a := OperationAt(s.pc);
    }
  }

  lemma InTransactionNow(s: System)
    requires IsReady(s)
    ensures s.pc.InTransaction() && s.world.record.Some?
  {
  }

  // ---- all the way

  /** The states that the script's own steps lead through. */
  ghost predicate IsScriptRun(s: System, states: seq<System>, actions: seq<Action>) {
    && |states| == |actions| + 1 && states[0] == s
    && forall i | 0 <= i < |actions| ::
         Enabled(states[i], actions[i]) && states[i + 1] == Do(states[i], actions[i]) && !actions[i].IsInterruption()
  }

  lemma Prepend(s: System, a: Action, states: seq<System>, actions: seq<Action>)
    requires Enabled(s, a) && !a.IsInterruption() && IsScriptRun(Do(s, a), states, actions)
    ensures IsScriptRun(s, [s] + states, [a] + actions)
  {
    hide Do, Enabled;
  }

  /** The release is out: recorded as released, the tag on the release commit, main at the
      next-cycle commit. */
  predicate IsPublished(s: System) {
    && s.pc.Idle? && s.world.record.Some?
    && var r, g := s.world.record.value, s.world.git;
       && r.state.Released? && r.nextCycleCommit == Some(g.remoteMain)
       && r.payload.targetVersion in g.remoteTags && r.releaseCommit == Some(g.remoteTags[r.payload.targetVersion])
  }

  lemma FinishPublishes(s: System)
    requires IsReady(s) && s.pc.Releasing? && s.world.git.remoteMain == s.world.git.head
    ensures Enabled(s, Finish) && IsPublished(Do(s, Finish))
  {
    hide Do, Enabled, IsAncestor, Operation, Astray, BaseOk;
    Operated(s);
  }

  /** From every step of a transaction the script's own steps lead to the release. */
  lemma {:induction false} ScriptReleases(s: System) returns (states: seq<System>, actions: seq<Action>)
    requires IsReady(s) && (s.pc.Releasing? ==> s.world.git.remoteMain == s.world.git.head)
    ensures IsScriptRun(s, states, actions) && IsPublished(states[|states| - 1])
    decreases 14 - ReleaseGates.Rank(s.pc)
  {
    hide IsReady, Do, Enabled, IsPublished;
    if s.pc.Releasing? {
      FinishPublishes(s);
      states, actions := [s, Do(s, Finish)], [Finish];
    } else {
      var a := NextReady(s);
      RanksEnd(s.pc, Do(s, a).pc);
      if s.pc.Verifying? {
        VerifiedMain(s, a);
      }
      var states', actions' := ScriptReleases(Do(s, a));
      Prepend(s, a, states', actions');
      states, actions := [s] + states', [a] + actions';
    }
  }

  lemma RanksEnd(pc: Pc, next: Pc)
    requires ReleaseGates.Rank(next) == ReleaseGates.Rank(pc) + 1
    ensures ReleaseGates.Rank(next) <= 14
    ensures next.Releasing? ==> pc.Verifying?
  {
  }

  lemma VerifiedMain(s: System, a: Action)
    requires IsReady(s) && s.pc.Verifying? && Enabled(s, a) && !a.IsInterruption()
    ensures Do(s, a).world.git.remoteMain == s.world.git.remoteMain == s.world.git.head && Do(s, a).world.git.head == s.world.git.head
  {
    hide Inv, IsAncestor, Interrupt, Reconcile, Certify, GatherEvidence, Begin;
  }

  /** A valid certificate on clean main is enough to start with. */
  lemma BeginReady(s: System, token: Token)
    requires Inv(s) && s.pc.Beginning? && CertificateValid(s.world, s.target) && s.world.git.clean
    requires IsAncestor(s.world.git.parents, s.world.git.remoteMain, s.world.git.head)
    ensures Enabled(s, BeginNow(token)) && IsReady(Do(s, BeginNow(token)))
  {
    hide IsAncestor, Traced, Operate, Interrupt, Reconcile, Certify, GatherEvidence, Catch;
    InvParts(s);
    StepKeeps(s, BeginNow(token));
  }
}
