/** What every run keeps, whatever others do to the repository meanwhile: the payload that
    was certified, the chain of recorded commits, and the HEAD the transaction expects. */
module ReleaseSafety {
  import opened Options
  import opened ReleaseModel
  import opened ReleaseSystem

  // ---- the invariant

  predicate InTransaction(p: Phase) { p.Active() || p.Released? || p.Aborted? }

  /** The phase a record reached by its own steps. */
  function Reached(r: Record): Phase { if r.state.Failed? && r.failedFrom.Some? then r.failedFrom.value else r.state }

  /** The last link of the chain base, release commit, next-cycle commit. */
  function LastLink(r: Record): Sha {
    if r.nextCycleCommit.Some? then r.nextCycleCommit.value
    else if r.releaseCommit.Some? then r.releaseCommit.value
    else r.payload.baseSha
  }

  predicate ChainOk(g: Git, r: Record) {
    && (r.releaseCommit.Some? ==>
          r.releaseCommit.value in g.parents && g.parents[r.releaseCommit.value] == [r.payload.baseSha])
    && (r.nextCycleCommit.Some? ==>
          r.releaseCommit.Some? && r.nextCycleCommit.value in g.parents
          && g.parents[r.nextCycleCommit.value] == [r.releaseCommit.value])
  }

  predicate PhaseOk(r: Record) {
    && (r.state.Failed? ==> r.failedFrom.Some? && r.failedFrom.value.Active() && !r.failedFrom.value.Failed?)
    && match Reached(r)
       case ReleaseInProgress | VersionBumpInProgress | VersionBumped | ArtifactsReady | ChecksPassed =>
         r.releaseCommit.None? && r.nextCycleCommit.None?
       case ReleaseCommitted | Tagged => r.releaseCommit.Some? && r.nextCycleCommit.None?
       case NextCycleCommitted | Released => r.releaseCommit.Some? && r.nextCycleCommit.Some?
       case _ => true
  }

  /** What holds of the record of every transaction that has begun. */
  predicate RecordOk(s: System, r: Record) {
    && s.sealed == Some(r.payload)
    && r.certificateId == Some(CertificateDigest(r.payload))
    && r.tokenHash.Some?
    && r.expectedHead == Some(LastLink(r))
    && ChainOk(s.world.git, r)
    && PhaseOk(r)
  }

  function PhaseAt(pc: Pc): Phase {
    match pc
    case Bumping | Marking => VersionBumpInProgress
    case Preparing => VersionBumped
    case Testing => ArtifactsReady
    case Committing1 | Recording1 => ChecksPassed
    case Tagging | AdvancingTag => ReleaseCommitted
    case Committing2 | Recording2 => Tagged
    case Pushing | Verifying | Releasing => NextCycleCommitted
    case _ => ReleaseInProgress
  }

  /** The record and the token at each step of the script. */
  predicate ScriptOk(s: System) {
    var w := s.world;
    if s.pc.InTransaction() then
      && s.token.Some? && w.record.Some?
      && w.record.value.state == PhaseAt(s.pc)
      && TokenMatches(w.record.value, s.token.value, s.target)
    else
      && s.token.None?
      && (s.pc.Certifying? ==> !HasActive(w))
      && (s.pc.Beginning? ==>
            && w.record.Some? && w.record.value.state.Certified?
            && s.sealed == Some(w.record.value.payload) && w.record.value.payload.targetVersion == s.target
            && w.record.value.releaseCommit.None? && w.record.value.nextCycleCommit.None?)
  }

  predicate Safe(s: System) {
    && ScriptOk(s)
    && (s.world.record.Some? && InTransaction(s.world.record.value.state) ==> RecordOk(s, s.world.record.value))
  }

  // ---- the operations of the transaction

  predicate DirectChild(w: World) {
    && w.record.Some? && w.record.value.expectedHead.Some? && w.git.head in w.git.parents
    && w.git.parents[w.git.head] == [w.record.value.expectedHead.value]
  }

  /** HEAD is where the transaction expects it. */
  predicate AtExpected(w: World) { w.record.Some? && w.record.value.expectedHead == Some(w.git.head) }

  /** The phase that the operation called at a step leads to. */
  function PhaseAfter(pc: Pc): Phase { if pc.Releasing? then Released else PhaseAt(NextPc(pc)) }

  /** What it writes: another phase, and for a commit HEAD as the next link. */
  function Written(w: World, pc: Pc): Record
    requires w.record.Some?
  {
    var r := w.record.value.(state := PhaseAfter(pc));
    if pc.Recording1? then r.(expectedHead := Some(w.git.head), releaseCommit := Some(w.git.head))
    else if pc.Recording2? then r.(expectedHead := Some(w.git.head), nextCycleCommit := Some(w.git.head))
    else r
  }

  lemma RecordingWrites(w: World, pc: Pc, target: Version, token: Token)
    requires pc.Recording1? || pc.Recording2?
    ensures var o := Operation(w, pc, target, token);
            if o.ok then w.record.Some? && o.world == w.(record := Some(Written(w, pc))) && DirectChild(w) && w.git.clean
            else o.world == w
  {
    hide Authority, TokenMatches, ConsumeVersionBump, MarkVersionBumped, Advance;
  }

  lemma AdvanceWrites(w: World, pc: Pc, target: Version, token: Token)
    requires pc.Preparing? || pc.Testing? || pc.AdvancingTag? || pc.Releasing?
    ensures var o := Operation(w, pc, target, token);
            if o.ok then w.record.Some? && o.world == w.(record := Some(Written(w, pc))) && AtExpected(w)
            else o.world == w
  {
    hide Authority, TokenMatches, ConsumeVersionBump, MarkVersionBumped, RecordCommit;
  }

  lemma BumpWrites(w: World, pc: Pc, target: Version, token: Token)
    requires pc.Consuming? || pc.Marking?
    ensures var o := Operation(w, pc, target, token);
            if o.ok then w.record.Some? && o.world == w.(record := Some(Written(w, pc))) && AtExpected(w)
            else o.world == w
  {
    hide Authority, TokenMatches, Advance, RecordCommit;
  }

  /** An operation throws and changes nothing, or has found HEAD at the end of the chain, or one
      commit beyond it, and writes just that. */
  lemma OperationWrites(w: World, pc: Pc, target: Version, token: Token)
    ensures var o := Operation(w, pc, target, token);
            if o.ok then
              && w.record.Some? && o.world == w.(record := Some(Written(w, pc)))
              && (if pc.Recording1? || pc.Recording2? then DirectChild(w) && w.git.clean else AtExpected(w))
            else o.world == w
  {
    hide ConsumeVersionBump, MarkVersionBumped, Advance, RecordCommit, Written, DirectChild, AtExpected;
    match pc {
      case Recording1 | Recording2 => RecordingWrites(w, pc, target, token);
      case Consuming | Marking => BumpWrites(w, pc, target, token);
      case Preparing | Testing | AdvancingTag | Releasing => AdvanceWrites(w, pc, target, token);
      case _ =>
    }
  }

  // ---- every step keeps it

  lemma CatchIsSafe(s: System)
    requires Safe(s) && !s.pc.Idle?
    ensures Safe(Catch(s, s.world)) && Catch(s, s.world).token.None? && Catch(s, s.world).pc.Idle?
  {
  }

  /** The record does not depend on anything in the repository but the recorded commits. */
  lemma RecordFrame(s: System, s': System)
    requires Safe(s) && s'.world.record == s.world.record && s'.sealed == s.sealed
    requires forall c | c in s.world.git.parents :: c in s'.world.git.parents && s'.world.git.parents[c] == s.world.git.parents[c]
    ensures ScriptOk(s') ==> Safe(s')
  {
    hide ScriptOk, PhaseOk;
  }

  lemma InterruptionIsSafe(s: System, a: Action)
    requires Safe(s) && Enabled(s, a) && a.IsInterruption()
    ensures Safe(Do(s, a))
  {
    hide IsAncestor, IsPath, Catch, TokenMatches, RecordOk, Proceed, Operate;
    if a.Throws? {
      CatchIsSafe(s);
    } else {
      RecordFrame(s, Do(s, a));
    }
  }

  /** Steps that leave the record alone. */
  lemma QuietIsSafe(s: System, a: Action)
    requires Safe(s) && Enabled(s, a) && (a.Start? || a.FetchAll? || a.CheckTag?)
    ensures Safe(Do(s, a))
  {
    hide IsAncestor, IsPath, Catch, TokenMatches, RecordOk, Interrupt, Operate;
    if !s.pc.Idle? {
      CatchIsSafe(s);
    }
    if s.pc.Idle? || Do(s, a) != Catch(s, s.world) {
      RecordFrame(s, Do(s, a));
    }
  }

  lemma WorkStepIsSafe(s: System, a: Action)
    requires Safe(s) && Enabled(s, a) && (a.Bump? || a.Commit?)
    ensures Safe(Do(s, a))
  {
    hide IsAncestor, IsPath, Catch, TokenMatches, RecordOk, Safe, Interrupt, Operate;
    SafeScript(s);
    CatchIsSafe(s);
    if Do(s, a) != Catch(s, s.world) {
      RecordFrame(s, Do(s, a));
    }
  }

  lemma TagIsSafe(s: System, a: Action)
    requires Safe(s) && Enabled(s, a) && a.Tag?
    ensures Safe(Do(s, a))
  {
    hide IsAncestor, IsPath, Catch, TokenMatches, RecordOk, Safe, Interrupt, Operate;
    SafeScript(s);
    CatchIsSafe(s);
    if Do(s, a) != Catch(s, s.world) {
      RecordFrame(s, Do(s, a));
    }
  }

  lemma PushIsSafe(s: System, a: Action)
    requires Safe(s) && Enabled(s, a) && a.Push?
    ensures Safe(Do(s, a))
  {
    hide IsAncestor, IsPath, Catch, TokenMatches, RecordOk, Safe, Interrupt, Operate;
    SafeScript(s);
    CatchIsSafe(s);
    if Do(s, a) != Catch(s, s.world) {
      RecordFrame(s, Do(s, a));
    }
  }

  lemma VerifyIsSafe(s: System, a: Action)
    requires Safe(s) && Enabled(s, a) && a.Verify?
    ensures Safe(Do(s, a))
  {
    hide IsAncestor, IsPath, Catch, TokenMatches, RecordOk, Safe, Interrupt, Operate;
    SafeScript(s);
    CatchIsSafe(s);
    if Do(s, a) != Catch(s, s.world) {
      RecordFrame(s, Do(s, a));
    }
  }

  lemma SafeScript(s: System)
    requires Safe(s)
    ensures ScriptOk(s)
  {
  }

  lemma CertifyIsSafe(s: System, a: Action)
    requires Safe(s) && Enabled(s, a) && (a.CertifyNow? || a.GatherOnly?)
    ensures Safe(Do(s, a))
  {
    hide IsAncestor, IsPath, Catch, Interrupt, Operate;
    CatchIsSafe(s);
  }

  lemma BeginIsSafe(s: System, a: Action)
    requires Safe(s) && Enabled(s, a) && a.BeginNow?
    ensures Safe(Do(s, a))
  {
    hide IsAncestor, IsPath, Interrupt, Operate;
  }

  /** All that recovery can do to an open record is to settle it; it publishes only what has
      both its commits. */
  lemma RecoveryOnlySettles(w: World)
    requires HasActive(w)
    ensures var o, r := Reconcile(w), w.record.value;
            && o.world.git.parents == w.git.parents
            && o.world.record == Some(if o.ok then r.(state := if r.payload.targetVersion in w.git.remoteTags then Released else Aborted) else r)
            && (o.ok && r.payload.targetVersion in w.git.remoteTags ==> r.releaseCommit.Some? && r.nextCycleCommit.Some?)
  {
    hide KnownAncestor, IsAncestor, IsPath;
    var r, o := w.record.value, Reconcile(w);
    if r.payload.targetVersion in w.git.remoteTags {
      assert o == Throw(w) || o.world.git == Fetch(w.git);
    } else {
      assert o == Throw(w) || o.world.git == WithoutTag(w.git, r.payload.targetVersion);
    }
  }

  lemma RecoverIsSafe(s: System, a: Action)
    requires Safe(s) && Enabled(s, a) && a.Recover?
    ensures Safe(Do(s, a))
  {
    hide Reconcile, Interrupt, Operate, IsAncestor, TokenMatches, ChainOk, Certify, GatherEvidence, Begin, Catch;
    RecoveryOnlySettles(s.world);
    SettledChain(s.world);
  }

  lemma SettledChain(w: World)
    requires HasActive(w)
    ensures forall state :: ChainOk(Reconcile(w).world.git, w.record.value.(state := state)) == ChainOk(w.git, w.record.value)
  {
    hide Reconcile;
    RecoveryOnlySettles(w);
  }

  lemma KilledRecoveryIsSafe(s: System, a: Action)
    requires Safe(s) && Enabled(s, a) && a.RecoverInterrupted?
    ensures Safe(Do(s, a))
  {
    hide Reconcile, Interrupt, Operate, IsAncestor, TokenMatches, RecordOk, Certify, GatherEvidence, Begin, Catch;
    RecoveryOnlySettles(s.world);
    RecordFrame(s, Do(s, a));
  }

  /** The written record is one link longer, or one phase further. */
  lemma WrittenIsSafe(s: System)
    requires Safe(s) && s.pc.InTransaction() && s.world.record.Some? && (NextPc(s.pc) != Idle || s.pc.Releasing?)
    requires s.pc.Recording1? || s.pc.Recording2? ==> DirectChild(s.world)
    ensures RecordOk(s, Written(s.world, s.pc)) && InTransaction(PhaseAfter(s.pc))
  {
    hide TokenMatches;
  }

  /** Where operations are called. */
  lemma OperationPc(s: System, a: Action)
    requires Enabled(s, a) && a.IsOperation()
    ensures s.pc.InTransaction() && !s.pc.Idle? && (a.Finish? <==> s.pc.Releasing?) && (NextPc(s.pc).Idle? <==> s.pc.Releasing?)
    ensures Do(s, a) == Operate(s, a)
  {
    hide IsAncestor, Interrupt, Proceed;
  }

  lemma OperationIsSafe(s: System, a: Action)
    requires Safe(s) && Enabled(s, a) && a.IsOperation()
    ensures Safe(Do(s, a))
  {
    hide Enabled, Do, Catch, RecordOk, Operation, Written, PhaseAt, NextPc, TokenMatches, PhaseAfter;
    OperationPc(s, a);
    CatchIsSafe(s);
    OperationWrites(s.world, s.pc, s.target, s.token.value);
    if Operation(s.world, s.pc, s.target, s.token.value).ok {
      WrittenIsSafe(s);
      WrittenFrame(s);
      WrittenParts(s.world, s.pc);
      NextStep(s.pc);
      SameToken(s.world.record.value, Written(s.world, s.pc), s.token.value, s.target);
    }
  }

  lemma NextStep(pc: Pc)
    ensures !NextPc(pc).Idle? ==> NextPc(pc).InTransaction() && PhaseAfter(pc) == PhaseAt(NextPc(pc))
    ensures !NextPc(pc).Certifying? && !NextPc(pc).Beginning?
  {
  }

  lemma WrittenParts(w: World, pc: Pc)
    requires w.record.Some?
    ensures var r, r' := w.record.value, Written(w, pc);
            && r'.state == PhaseAfter(pc) && r'.payload == r.payload && r'.certificateId == r.certificateId && r'.tokenHash == r.tokenHash
            && (!pc.Recording1? ==> r'.releaseCommit == r.releaseCommit) && (!pc.Recording2? ==> r'.nextCycleCommit == r.nextCycleCommit)
  {
  }

  lemma SameToken(r: Record, r': Record, token: Token, target: Version)
    requires r'.payload == r.payload && r'.certificateId == r.certificateId && r'.tokenHash == r.tokenHash
    ensures TokenMatches(r', token, target) == TokenMatches(r, token, target)
  {
  }

  lemma WrittenFrame(s: System)
    requires s.world.record.Some? && RecordOk(s, Written(s.world, s.pc))
    ensures forall pc, token :: RecordOk(s.(world := s.world.(record := Some(Written(s.world, s.pc))), pc := pc, token := token), Written(s.world, s.pc))
  {
    hide Written;
  }

  lemma StepIsSafe(s: System, a: Action)
    requires Safe(s) && Enabled(s, a)
    ensures Safe(Do(s, a))
  {
    hide *;
    match a {
      case Start(_) | FetchAll | CheckTag => QuietIsSafe(s, a);
      case Bump(_, _, _) | Commit(_) => WorkStepIsSafe(s, a);
      case Tag => TagIsSafe(s, a);
      case Push => PushIsSafe(s, a);
      case Verify => VerifyIsSafe(s, a);
      case CertifyNow(_, _, _) | GatherOnly(_, _, _) => CertifyIsSafe(s, a);
      case BeginNow(_) => BeginIsSafe(s, a);
      case Recover => RecoverIsSafe(s, a);
      case RecoverInterrupted => KilledRecoveryIsSafe(s, a);
      case Consume | Mark | Prepare | Test(_) | RecordNow | NoteTag | Finish =>
        WhichAction(a);
        OperationIsSafe(s, a);
      case Throws | Crash | OthersCommit(_, _) | OthersPush(_) | UserMoves(_, _, _, _, _) =>
        WhichAction(a);
        InterruptionIsSafe(s, a);
    }
  }

  lemma WhichAction(a: Action)
    ensures a.IsOperation() <==> a.Consume? || a.Mark? || a.Prepare? || a.Test? || a.RecordNow? || a.NoteTag? || a.Finish?
    ensures a.IsInterruption() <==> a.Throws? || a.Crash? || a.OthersCommit? || a.OthersPush? || a.UserMoves?
  {
  }

  // ---- whole runs

  lemma {:induction false} RunIsSafe(run: seq<System>, actions: seq<Action>, i: nat)
    requires IsRun(run, actions) && i < |run|
    ensures Safe(run[i])
  {
    if i > 0 {
      RunIsSafe(run, actions, i - 1);
      StepIsSafe(run[i - 1], actions[i - 1]);
    }
  }

  /** In every state of every run: a transaction that has begun carries the payload that
      was certified, its commits form a chain on the base, and HEAD is expected at the end of
      that chain. */
  lemma ReachableTransaction(run: seq<System>, actions: seq<Action>, i: nat)
    requires IsRun(run, actions) && i < |run|
    requires run[i].world.record.Some? && InTransaction(run[i].world.record.value.state)
    ensures var s, r, g := run[i], run[i].world.record.value, run[i].world.git;
            && s.sealed == Some(r.payload) && r.certificateId == Some(CertificateDigest(r.payload))
            && ChainOk(g, r) && r.expectedHead == Some(LastLink(r)) && PhaseOk(r)
  {
    RunIsSafe(run, actions, i);
  }

  /** The certified payload was the state of the repository when `certify` ran. */
  lemma {:induction false} SealedByCertificate(run: seq<System>, actions: seq<Action>, i: nat) returns (j: nat)
    requires IsRun(run, actions) && i < |run| && run[i].sealed.Some?
    ensures j < i && actions[j].CertifyNow?
    ensures var before, after := run[j].world, run[j + 1].world;
            && after.record.Some? && after.record.value.state.Certified?
            && after.record.value.payload == run[i].sealed.value
            && run[i].sealed.value.baseSha == before.git.head == before.git.originMain
            && run[i].sealed.value.inputHash == before.git.inputHash && before.git.clean
            && run[i].sealed.value.targetVersion == run[j].target
            && run[i].sealed.value.evidenceHash == EvidenceDigest(actions[j].evidence)
            && run[i].sealed.value.allowMajor == actions[j].allowMajor
    ensures forall k | j < k < i :: run[k].sealed == run[i].sealed
  {
    hide Do, Enabled;
    if i > 0 {
      var s, a := run[i - 1], actions[i - 1];
      assert run[i - 1 + 1] == Do(s, a);
      if a.CertifyNow? && MayCertify(s.world, s.target, a.allowMajor) {
        SealMade(s, a);
        j := i - 1;
      } else {
        SealKept(s, a);
        j := SealedByCertificate(run, actions, i - 1);
      }
    }
  }

  lemma SealMade(s: System, a: Action)
    requires Enabled(s, a) && a.CertifyNow? && MayCertify(s.world, s.target, a.allowMajor)
    ensures var s', r := Do(s, a), NewRecord(s.world, s.target, a.allowMajor, a.evidence, a.paths);
            && s'.sealed == Some(r.payload)
            && s'.world.record == Some(r.(state := Certified, certificateId := Some(CertificateDigest(r.payload))))
  {
  }

  lemma SealKept(s: System, a: Action)
    requires Enabled(s, a) && !(a.CertifyNow? && MayCertify(s.world, s.target, a.allowMajor))
    ensures Do(s, a).sealed == s.sealed
  {
    hide IsAncestor, IsPath, Reconcile, Operation, Begin;
  }

  // ---- nothing replaces an open transaction

  /** The transaction of `w` goes on in `w'`: same payload, recorded commits kept. */
  predicate Continues(w: World, w': World) {
    && w.record.Some? && w'.record.Some? && InTransaction(w'.record.value.state)
    && w'.record.value.payload == w.record.value.payload
    && (w.record.value.releaseCommit.Some? ==> w'.record.value.releaseCommit == w.record.value.releaseCommit)
    && (w.record.value.nextCycleCommit.Some? ==> w'.record.value.nextCycleCommit == w.record.value.nextCycleCommit)
  }

  lemma CatchContinues(s: System)
    requires HasActive(s.world)
    ensures Continues(s.world, Catch(s, s.world).world)
  {
  }

  lemma NotYetRecorded(s: System)
    requires Safe(s)
    ensures s.pc.InTransaction() ==> s.token.Some? && s.world.record.Some?
    ensures s.pc.Recording1? ==> s.world.record.value.releaseCommit.None?
    ensures s.pc.Recording2? ==> s.world.record.value.nextCycleCommit.None?
  {
    hide TokenMatches, ChainOk;
  }

  lemma OperationContinues(s: System, a: Action)
    requires Safe(s) && HasActive(s.world) && Enabled(s, a) && a.IsOperation()
    ensures Continues(s.world, Do(s, a).world)
  {
    hide Safe, Enabled, Do, Catch, Operation, Written, NextPc, DirectChild, RecordOk, PhaseAfter;
    OperationPc(s, a);
    NotYetRecorded(s);
    CatchContinues(s);
    OperationWrites(s.world, s.pc, s.target, s.token.value);
    WrittenParts(s.world, s.pc);
    if Operation(s.world, s.pc, s.target, s.token.value).ok {
      WrittenIsSafe(s);
    }
  }

  lemma OthersContinue(s: System, a: Action)
    requires Safe(s) && HasActive(s.world) && Enabled(s, a) && !a.IsOperation()
    ensures Continues(s.world, Do(s, a).world)
  {
    hide IsAncestor, IsPath, Reconcile, Authority, Catch, RecordOk, FailRelease, Operate;
    CatchContinues(s);
    RecoveryOnlySettles(s.world);
  }

  /** While a transaction is open, failed or not, no certificate replaces it: every step
      keeps its payload, and its commits once recorded. */
  lemma OpenTransactionIsKept(s: System, a: Action)
    requires Safe(s) && HasActive(s.world) && Enabled(s, a)
    ensures Continues(s.world, Do(s, a).world)
  {
    hide *;
    if a.IsOperation() {
      OperationContinues(s, a);
    } else {
      OthersContinue(s, a);
    }
  }

  /** So in every run a transaction goes on, with what it has recorded, until it is settled. */
  lemma {:induction false} KeptUntilSettled(run: seq<System>, actions: seq<Action>, i: nat, k: nat)
    requires IsRun(run, actions) && i <= k < |run|
    requires forall j | i <= j < k :: HasActive(run[j].world)
    requires HasActive(run[i].world)
    ensures Continues(run[i].world, run[k].world)
  {
    hide Safe, Do, Enabled;
    if k > i {
      KeptUntilSettled(run, actions, i, k - 1);
      RunIsSafe(run, actions, k - 1);
      assert HasActive(run[k - 1].world) && run[k - 1 + 1] == Do(run[k - 1], actions[k - 1]);
      OpenTransactionIsKept(run[k - 1], actions[k - 1]);
    }
  }

  // ---- certificates

  predicate NotCertified(w: World) { w.record.Some? ==> !w.record.value.state.Certified? }

  lemma OperationNeverCertifies(s: System, a: Action)
    requires Enabled(s, a) && a.IsOperation() && NotCertified(s.world)
    ensures NotCertified(Do(s, a).world)
  {
    hide Enabled, Do, Operation, Written, NextPc;
    OperationPc(s, a);
    if s.token.Some? {
      OperationWrites(s.world, s.pc, s.target, s.token.value);
      if s.world.record.Some? {
        WrittenParts(s.world, s.pc);
      }
    }
  }

  lemma CatchNeverCertifies(s: System, w: World)
    requires NotCertified(w)
    ensures NotCertified(Catch(s, w).world)
  {
  }

  lemma InterruptionNeverCertifies(s: System, a: Action)
    requires Enabled(s, a) && a.IsInterruption() && NotCertified(s.world)
    ensures NotCertified(Do(s, a).world)
  {
    hide Enabled, Operate, Proceed, Catch;
    CatchNeverCertifies(s, s.world);
  }

  lemma RecoveryNeverCertifies(s: System, a: Action)
    requires Enabled(s, a) && NotCertified(s.world) && (a.Recover? || a.RecoverInterrupted?)
    ensures NotCertified(Do(s, a).world)
  {
    hide IsAncestor, IsPath, Reconcile, Begin, Operate, Catch, Certify, GatherEvidence, Interrupt;
    RecoveryOnlySettles(s.world);
  }

  lemma StartNeverCertifies(s: System, a: Action)
    requires Enabled(s, a) && NotCertified(s.world) && (a.Start? || a.FetchAll? || a.CheckTag? || a.GatherOnly?)
    ensures NotCertified(Do(s, a).world)
  {
    hide IsAncestor, IsPath, Reconcile, Begin, Operate, Catch, Certify, Interrupt;
    CatchNeverCertifies(s, s.world);
  }

  lemma BeginningNeverCertifies(s: System, a: Action)
    requires Enabled(s, a) && NotCertified(s.world) && a.BeginNow?
    ensures NotCertified(Do(s, a).world)
  {
    hide IsAncestor, IsPath, Reconcile, Begin, Operate, Catch, Certify, GatherEvidence, Interrupt;
    BeginNeverCertifies(s.world, s.target, a.token);
    CatchNeverCertifies(s, Begin(s.world, s.target, a.token).world);
  }

  lemma GitStepNeverCertifies(s: System, a: Action)
    requires Enabled(s, a) && NotCertified(s.world) && (a.Bump? || a.Commit? || a.Tag? || a.Push? || a.Verify?)
    ensures NotCertified(Do(s, a).world)
  {
    hide IsAncestor, IsPath, Reconcile, Begin, Operate, Catch, Certify, Interrupt;
    CatchNeverCertifies(s, s.world);
  }

  lemma OnlyCertifyCertifies(s: System, a: Action)
    requires Enabled(s, a) && !a.CertifyNow? && NotCertified(s.world)
    ensures NotCertified(Do(s, a).world)
  {
    hide *;
    WhichAction(a);
    if a.IsOperation() {
      OperationNeverCertifies(s, a);
    } else if a.IsInterruption() {
      InterruptionNeverCertifies(s, a);
    } else if a.Bump? || a.Commit? || a.Tag? || a.Push? || a.Verify? {
      GitStepNeverCertifies(s, a);
    } else if a.Recover? || a.RecoverInterrupted? {
      RecoveryNeverCertifies(s, a);
    } else if a.BeginNow? {
      BeginningNeverCertifies(s, a);
    } else {
      StartNeverCertifies(s, a);
    }
  }

  lemma BeginNeverCertifies(w: World, target: Version, token: Token)
    requires NotCertified(w)
    ensures NotCertified(Begin(w, target, token).world)
  {
  }

  /** A certificate found stale, or used up, is never valid again in any run: no target can
      begin before another certification. */
  lemma {:induction false} StaleForGood(run: seq<System>, actions: seq<Action>, i: nat, k: nat, target: Version)
    requires IsRun(run, actions) && i <= k < |run| && NotCertified(run[i].world)
    requires forall j | i <= j < k :: !actions[j].CertifyNow?
    ensures NotCertified(run[k].world) && !CertificateValid(run[k].world, target)
  {
    hide Do, Enabled;
    if k > i {
      StaleForGood(run, actions, i, k - 1, target);
      assert run[k - 1 + 1] == Do(run[k - 1], actions[k - 1]);
      OnlyCertifyCertifies(run[k - 1], actions[k - 1]);
    }
  }

  /** A begin that finds its certificate invalid leaves none, and one that succeeds uses it up. */
  lemma BeginUsesUp(s: System, token: Token)
    requires s.pc.Beginning?
    ensures !CertificateValid(s.world, s.target) || CleanMain(s.world.git) ==> NotCertified(Do(s, BeginNow(token)).world)
  {
  }
}
