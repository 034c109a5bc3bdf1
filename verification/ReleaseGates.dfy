/** What must have happened before a release is published: the script reaches each of its
    steps only through all the earlier ones, under one and the same certificate, whatever
    others do to the repository meanwhile. */
module ReleaseGates {
  import opened ReleaseModel
  import opened ReleaseSystem
  import opened ReleaseSafety
  import opened Options

  /** The step before a step of the transaction. */
  function Previous(pc: Pc): Pc
    requires pc.InTransaction()
  {
    match pc
    case Consuming => Beginning
    case Bumping => Consuming
    case Marking => Bumping
    case Preparing => Marking
    case Testing => Preparing
    case Committing1 => Testing
    case Recording1 => Committing1
    case Tagging => Recording1
    case AdvancingTag => Tagging
    case Committing2 => AdvancingTag
    case Recording2 => Committing2
    case Pushing => Recording2
    case Verifying => Pushing
    case Releasing => Verifying
  }

  function Rank(pc: Pc): nat {
    match pc
    case Consuming => 1
    case Bumping => 2
    case Marking => 3
    case Preparing => 4
    case Testing => 5
    case Committing1 => 6
    case Recording1 => 7
    case Tagging => 8
    case AdvancingTag => 9
    case Committing2 => 10
    case Recording2 => 11
    case Pushing => 12
    case Verifying => 13
    case Releasing => 14
    case _ => 0
  }

  /** How the repository and the action looked when the script went on to `pc`. */
  ghost predicate Gate(s: System, a: Action, pc: Pc) {
    var w, g := s.world, s.world.git;
    match pc
    case Consuming => CertificateValid(w, s.target) && CleanMain(g)
    case Bumping => AtExpected(w) && CleanMain(g) && g.inputHash == w.record.value.payload.inputHash
    case Preparing => AtExpected(w) && g.version == s.target && !g.unexpectedChanges
    case Testing => AtExpected(w)
    case Committing1 => AtExpected(w) && a == Test(true)
    case Tagging | Pushing => DirectChild(w) && g.clean
    case AdvancingTag => s.target !in g.localTags
    case Committing2 => AtExpected(w)
    case Verifying =>
      // a fast-forward of main together with a new tag
      s.target !in g.remoteTags && s.target in g.localTags && IsAncestor(g.parents, g.remoteMain, g.head)
    case Releasing =>
      && s.target in g.localTags && s.target in g.remoteTags && g.remoteMain == g.head
      && g.remoteTags[s.target] == g.localTags[s.target]
    case _ => true
  }

  predicate SameScript(s: System, s': System) { s'.target == s.target && s'.sealed == s.sealed }

  /** `s'` has stayed at its step, or come to the next through its gate, or left the transaction. */
  ghost predicate Passes(s: System, a: Action, s': System) {
    s'.pc.InTransaction() ==>
      SameScript(s, s') && (s'.pc == s.pc || (s.pc == Previous(s'.pc) && Gate(s, a, s'.pc)))
  }

  lemma BeginOrigin(s: System, a: Action)
    requires Safe(s) && Enabled(s, a) && (a.BeginNow? || a.Bump?)
    ensures Passes(s, a, Do(s, a))
  {
    hide IsAncestor, IsPath, Authority, RecordOk, FailRelease, TokenMatches, Operate, Interrupt, Reconcile, Certify, GatherEvidence;
  }

  /** What the two operations around the version bump have checked besides HEAD. */
  lemma BumpChecks(w: World, target: Version, token: Token)
    ensures ConsumeVersionBump(w, target, token).ok ==>
              w.record.Some? && CleanMain(w.git) && w.git.inputHash == w.record.value.payload.inputHash
    ensures MarkVersionBumped(w, target, token).ok ==> w.git.version == target && !w.git.unexpectedChanges
  {
    hide Authority, TokenMatches;
  }

  lemma OperationOrigin(s: System, a: Action)
    requires Safe(s) && Enabled(s, a) && a.IsOperation()
    ensures Passes(s, a, Do(s, a))
  {
    hide IsAncestor, IsPath, Safe, Operation, Written, DirectChild, AtExpected, CleanMain, Catch, Interrupt, Proceed;
    NotYetRecorded(s);
    CatchIsSafe(s);
    OperationWrites(s.world, s.pc, s.target, s.token.value);
    BumpGate(s);
  }

  lemma BumpGate(s: System)
    requires s.token.Some?
    ensures s.pc.Consuming? && Operation(s.world, s.pc, s.target, s.token.value).ok ==>
              s.world.record.Some? && CleanMain(s.world.git) && s.world.git.inputHash == s.world.record.value.payload.inputHash
    ensures s.pc.Marking? && Operation(s.world, s.pc, s.target, s.token.value).ok ==>
              s.world.git.version == s.target && !s.world.git.unexpectedChanges
  {
    hide ConsumeVersionBump, MarkVersionBumped, Advance, RecordCommit, CleanMain;
    BumpChecks(s.world, s.target, s.token.value);
  }

  lemma CommitOrigin(s: System, a: Action)
    requires Safe(s) && Enabled(s, a) && (a.Commit? || a.Tag?)
    ensures Passes(s, a, Do(s, a))
  {
    hide IsAncestor, IsPath, Safe, FailRelease, Operate, Interrupt, Reconcile, Certify, GatherEvidence, Begin;
  }

  lemma PushOrigin(s: System, a: Action)
    requires Safe(s) && Enabled(s, a) && (a.Push? || a.Verify?)
    ensures Passes(s, a, Do(s, a))
  {
    hide IsAncestor, IsPath, Safe, FailRelease, Operate, Interrupt, Reconcile, Certify, GatherEvidence, Begin;
  }

  lemma OtherOrigin(s: System, a: Action)
    requires Safe(s) && Enabled(s, a)
    requires a.Start? || a.FetchAll? || a.Recover? || a.RecoverInterrupted? || a.CheckTag? || a.CertifyNow? || a.GatherOnly?
             || a.Throws? || a.Crash? || a.OthersCommit? || a.OthersPush? || a.UserMoves?
    ensures Passes(s, a, Do(s, a))
  {
    hide IsAncestor, IsPath, Safe, Reconcile, FailRelease, Certify, GatherEvidence, Gate, Operate, Begin;
  }

  /** A step of the transaction is reached from the one before it, through its gate. */
  lemma StepOrigin(s: System, a: Action)
    requires Safe(s) && Enabled(s, a)
    ensures Passes(s, a, Do(s, a))
  {
    hide *;
    WhichAction(a);
    match a {
      case BeginNow(_) | Bump(_, _, _) => BeginOrigin(s, a);
      case Commit(_) | Tag => CommitOrigin(s, a);
      case Push | Verify => PushOrigin(s, a);
      case Consume | Mark | Prepare | Test(_) | RecordNow | NoteTag | Finish => OperationOrigin(s, a);
      case _ => OtherOrigin(s, a);
    }
  }

  /** The script itself ends a transaction as released only at its next-cycle commit. */
  lemma ReleasedAtExpected(s: System)
    requires Safe(s) && s.pc.Releasing?
    ensures var w' := Do(s, Finish).world;
            w'.record.Some? && (w'.record.value.state.Released? ==>
                                  s.world.record.Some? && s.world.record.value.nextCycleCommit == Some(s.world.git.head))
  {
    hide Authority, ChainOk, Operation, IsAncestor;
    OperationWrites(s.world, s.pc, s.target, s.token.value);
  }

  /** Nothing but a push publishes, and nothing but a certification starts over. */
  lemma PublishedBefore(s: System, a: Action)
    requires Enabled(s, a) && Do(s, a).pushed
    ensures Do(s, a).pc.Verifying? || (s.pushed && s.sealed == Do(s, a).sealed)
  {
    hide IsAncestor, IsPath, Reconcile, FailRelease, Operation, Begin;
  }

  /** Step `pc` was entered at `j` through its gate, under the certificate `sealed`. */
  ghost predicate Entered(run: seq<System>, actions: seq<Action>, j: nat, pc: Pc, sealed: Option<Payload>)
    requires pc.InTransaction()
  {
    && j + 1 < |run| && j < |actions| && run[j].pc == Previous(pc) && run[j + 1].pc == pc && Gate(run[j], actions[j], pc)
    && run[j].sealed == sealed && run[j].world.record.Some? && sealed == Some(run[j].world.record.value.payload)
  }

  lemma SealedRecord(s: System)
    requires Safe(s) && (s.pc.Beginning? || s.pc.InTransaction())
    ensures s.world.record.Some? && s.sealed == Some(s.world.record.value.payload)
  {
    hide ChainOk, PhaseOk;
  }

  /** The script reaches a step only through every step before it. */
  lemma {:induction false} ReachedThrough(run: seq<System>, actions: seq<Action>, i: nat, pc: Pc) returns (j: nat)
    requires IsRun(run, actions) && i < |run|
    requires run[i].pc.InTransaction() && pc.InTransaction() && Rank(pc) <= Rank(run[i].pc)
    ensures j < i && Entered(run, actions, j, pc, run[i].sealed)
  {
    hide Safe, Gate, Do, Enabled, Initial;
    assert i > 0 by { StartsIdle(run[0]); }
    var s, a := run[i - 1], actions[i - 1];
    assert run[i - 1 + 1] == Do(s, a) && Enabled(s, a);
    RunIsSafe(run, actions, i - 1);
    StepOrigin(s, a);
    if s.pc == run[i].pc || pc != run[i].pc {
      j := ReachedThrough(run, actions, i - 1, pc);
    } else {
      SealedRecord(s);
      j := i - 1;
    }
  }

  lemma StartsIdle(s: System)
    ensures Initial(s) ==> s.pc.Idle? && !s.pushed
  {
  }

  /** Whatever was published went through every gate, certificate, inputs, version, checks and
      both commits, under the certificate now sealed. */
  lemma {:induction false} PublishedThroughGates(run: seq<System>, actions: seq<Action>, i: nat, pc: Pc) returns (j: nat)
    requires IsRun(run, actions) && i < |run| && run[i].pushed
    requires pc.InTransaction() && !pc.Releasing?
    ensures j < i && Entered(run, actions, j, pc, run[i].sealed)
  {
    hide Safe, Gate, Do, Enabled, Initial;
    assert i > 0 by { StartsIdle(run[0]); }
    var s, a := run[i - 1], actions[i - 1];
    assert run[i - 1 + 1] == Do(s, a) && Enabled(s, a);
    RunIsSafe(run, actions, i - 1);
    PublishedBefore(s, a);
    if run[i].pc.Verifying? {
      j := ReachedThrough(run, actions, i, pc);
    } else {
      j := PublishedThroughGates(run, actions, i - 1, pc);
    }
  }
}
