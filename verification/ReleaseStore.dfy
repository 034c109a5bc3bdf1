/** The exported operations as the code performs them, read the persisted record, check, write
    its successor, and what any callers, in any order and with any arguments, can do with them. */
module ReleaseStore {
  import opened Options
  import opened ReleaseModel
  import opened ReleaseSystem
  import opened ReleaseSafety

  // ---- what the checks buy

  /** A certificate id stands for one payload and one piece of evidence: no record with either
      of them changed passes the authority check. */
  lemma CertificateSeals(w: World, r: Record, w': World, r': Record)
    requires Authority(w, r) && Authority(w', r') && r.certificateId == r'.certificateId
    ensures r'.payload == r.payload && r'.evidence == r.evidence
  {
  }

  /** A token hash stands for one token and one certificate: a record tampered with after begin,
      in any field of the payload or the evidence, passes no check of the transaction again,
      and no other token does. */
  lemma TamperEvident(w: World, token: Token, state: Phase, target: Version, free: bool,
                      w': World, token': Token, state': Phase, target': Version, free': bool)
    requires RequireState(w, token, state, target, free) && RequireState(w', token', state', target', free')
    requires w.record.value.tokenHash == w'.record.value.tokenHash
    ensures token' == token && target' == target
    ensures w'.record.value.payload == w.record.value.payload && w'.record.value.evidence == w.record.value.evidence
    ensures !free && !free' && w'.record.value.expectedHead == w.record.value.expectedHead ==> w'.git.head == w.git.head
  {
    CertificateSeals(w, w.record.value, w', w'.record.value);
  }

  /** A certificate is valid exactly when certifying the repository as it is now, with the same
      evidence and decision about major releases, would seal the same payload, the worktree
      being clean. */
  lemma ValidMeansCurrent(w: World, target: Version)
    requires w.record.Some? && w.record.value.state.Certified? && w.record.value.payload.targetVersion == target
    requires w.git.clean && w.git.head in w.git.versionAt && w.git.versionAt[w.git.head] == w.git.version
    ensures var r := w.record.value;
            var again := Certify(w, target, r.payload.allowMajor, r.evidence, r.payload.inputPaths);
            CertificateValid(w, target) <==>
            again.ok && again.world.record.value.payload == r.payload && again.world.record.value.certificateId == r.certificateId
  {
  }

  // ---- the operations

  /** What git answers to `merge-base --is-ancestor` for known commits. */
  ghost predicate IsMergeBase(answer: (map<Sha, seq<Sha>>, Sha, Sha) -> bool) {
    forall parents, a, d :: answer(parents, a, d) <==> IsAncestor(parents, a, d)
  }

  class Store {
    var git: Git
    var record: Option<Record>

    ghost function View(): World
      reads this
    {
      World(git, record)
    }

    /** The record goes on to another state, its payload, evidence and token being the same. */
    twostate predicate SameTransaction()
      reads this
    {
      && git == old(git) && record.Some? && old(record).Some?
      && record.value.payload == old(record).value.payload && record.value.evidence == old(record).value.evidence
      && record.value.certificateId == old(record).value.certificateId && record.value.tokenHash == old(record).value.tokenHash
    }

    constructor (git: Git)
      ensures View() == World(git, None)
    {
      this.git, record := git, None;
    }

    method CertifyReleaseAudit(target: Version, allowMajor: bool, evidence: string, paths: seq<string>) returns (ok: bool)
      modifies this
      ensures Outcome(View(), ok) == Certify(old(View()), target, allowMajor, evidence, paths)
      ensures ok ==> !HasActive(old(View())) && git == old(git)
      ensures ok && git.head in git.versionAt && git.versionAt[git.head] == git.version ==> CertificateValid(View(), target)
      ensures !ok ==> View() == old(View())
    {
      if record.Some? && record.value.state.Active() {
        return false;
      }
      if (git.version, target, allowMajor) !in git.targets {
        return false;
      }
      if git.head != git.originMain || !git.clean {
        return false;
      }
      var payload := Payload(SCHEMA_VERSION, git.head, git.originMain, target, git.inputHash, paths,
                             EvidenceDigest(evidence), allowMajor);
      record := Some(Record(EvidenceReady, payload, evidence, None, None, None, None, None, None));
      record := Some(record.value.(state := Certified, certificateId := Some(CertificateDigest(payload))));
      ok := true;
    }

    method BeginRelease(target: Version, token: Token) returns (ok: bool)
      modifies this
      ensures Outcome(View(), ok) == Begin(old(View()), target, token)
      ensures git == old(git)
      ensures ok ==> RequireState(View(), token, ReleaseInProgress, target, false) && CleanMain(git)
      ensures !ok && !old(CertificateValid(View(), target)) ==> NotCertified(View())
    {
      var valid := InspectReleaseCertificate(target);
      if !valid {
        if record.Some? && record.value.state.Certified? {
          record := Some(record.value.(state := Stale));
        }
        return false;
      }
      if git.head != git.originMain || !git.clean {
        return false;
      }
      var state := record.value;
      var tokenHash := AuthorizationDigest(token, state.certificateId.value, state.payload.targetVersion);
      record := Some(state.(state := ReleaseInProgress, tokenHash := Some(tokenHash),
                            expectedHead := Some(state.payload.baseSha)));
      ok := true;
    }

    method InspectReleaseCertificate(target: Version) returns (valid: bool)
      ensures valid == CertificateValid(View(), target)
      ensures forall token :: Begin(View(), target, token).ok <==> valid && git.clean
    {
      if record.None? || !record.value.state.Certified? {
        return false;
      }
      var state := record.value;
      if state.payload.targetVersion != target {
        return false;
      }
      var authority := AssertReleaseCertificateAuthority(state);
      if !authority {
        return false;
      }
      if git.head != state.payload.baseSha || git.originMain != state.payload.originMainSha || git.head != git.originMain {
        return false;
      }
      valid := git.inputHash == state.payload.inputHash;
    }

    method AssertReleaseCertificateAuthority(state: Record) returns (ok: bool)
      ensures ok == Authority(View(), state)
    {
      if state.payload.schemaVersion != SCHEMA_VERSION {
        return false;
      }
      if state.certificateId != Some(CertificateDigest(state.payload)) {
        return false;
      }
      if EvidenceDigest(state.evidence) != state.payload.evidenceHash {
        return false;
      }
      ok := state.payload.baseSha in git.versionAt
            && (git.versionAt[state.payload.baseSha], state.payload.targetVersion, state.payload.allowMajor) in git.targets;
    }

    method RequireStateNow(token: Token, expected: Phase, target: Version, allowHeadChange: bool) returns (ok: bool)
      ensures ok == RequireState(View(), token, expected, target, allowHeadChange)
    {
      if record.None? || record.value.state != expected {
        return false;
      }
      var state := record.value;
      var authority := AssertReleaseCertificateAuthority(state);
      if !authority {
        return false;
      }
      if state.certificateId.None?
         || state.tokenHash != Some(AuthorizationDigest(token, state.certificateId.value, state.payload.targetVersion))
         || state.payload.targetVersion != target {
        return false;
      }
      ok := allowHeadChange || state.expectedHead == Some(git.head);
    }

    method ConsumeVersionBumpAuthorization(target: Version, token: Token) returns (ok: bool)
      modifies this
      ensures Outcome(View(), ok) == ConsumeVersionBump(old(View()), target, token)
      ensures ok ==> SameTransaction() && record.value.expectedHead == Some(git.head) && CleanMain(git)
      ensures !ok ==> View() == old(View())
    {
      ok := RequireStateNow(token, ReleaseInProgress, target, false);
      if !ok || git.head != git.originMain || !git.clean || git.inputHash != record.value.payload.inputHash {
        return false;
      }
      record := Some(record.value.(state := VersionBumpInProgress));
    }

    method MarkVersionBumpedNow(target: Version, token: Token) returns (ok: bool)
      modifies this
      ensures Outcome(View(), ok) == MarkVersionBumped(old(View()), target, token)
      ensures ok ==> SameTransaction() && record.value.expectedHead == Some(git.head) && git.version == record.value.payload.targetVersion
      ensures !ok ==> View() == old(View())
    {
      ok := RequireStateNow(token, VersionBumpInProgress, target, false);
      if !ok || git.version != target || git.unexpectedChanges {
        return false;
      }
      record := Some(record.value.(state := VersionBumped));
    }

    method AdvanceReleaseState(target: Version, token: Token, from: Phase, to: Phase) returns (ok: bool)
      modifies this
      ensures Outcome(View(), ok) == Advance(old(View()), target, token, from, to)
      ensures ok ==> SameTransaction() && record.value.expectedHead == Some(git.head)
      ensures !ok ==> View() == old(View())
    {
      if !WorktreeTransition(from, to) {
        return false;
      }
      ok := RequireStateNow(token, from, target, false);
      if ok {
        record := Some(record.value.(state := to));
      }
    }

    method RecordReleaseCommit(target: Version, token: Token, from: Phase, to: Phase) returns (ok: bool)
      modifies this
      ensures Outcome(View(), ok) == RecordCommit(old(View()), target, token, from, to)
      ensures ok ==> SameTransaction() && DirectChild(old(View())) && record.value.expectedHead == Some(git.head)
      ensures !ok ==> View() == old(View())
    {
      if !CommitTransition(from, to) {
        return false;
      }
      ok := RequireStateNow(token, from, target, true);
      if !ok {
        return;
      }
      var state, currentHead := record.value, git.head;
      var parents := if currentHead in git.parents then git.parents[currentHead] else [];
      if |parents| != 1 || state.expectedHead != Some(parents[0]) || !git.clean {
        return false;
      }
      assert parents == [parents[0]];
      state := state.(state := to, expectedHead := Some(currentHead));
      if to.ReleaseCommitted? {
        state := state.(releaseCommit := Some(currentHead));
      }
      if to.NextCycleCommitted? {
        state := state.(nextCycleCommit := Some(currentHead));
      }
      record := Some(state);
    }

    method FailReleaseNow(token: Token)
      modifies this
      ensures View() == FailRelease(old(View()), token)
      ensures record != old(record) ==> SameTransaction() && record.value.state.Failed? && record.value.failedFrom == Some(old(record).value.state)
      ensures old(record).None? || !TokenMatches(old(record).value, token, old(record).value.payload.targetVersion) ==> View() == old(View())
    {
      if record.None? || !TokenMatches(record.value, token, record.value.payload.targetVersion) {
        return;
      }
      record := Some(record.value.(state := Failed, failedFrom := Some(record.value.state)));
    }

    method ReconcileReleaseState(mergeBase: (map<Sha, seq<Sha>>, Sha, Sha) -> bool) returns (ok: bool)
      requires IsMergeBase(mergeBase)
      modifies this
      ensures Outcome(View(), ok) == Reconcile(old(View()))
    {
      hide IsAncestor;
      if record.None? || record.value.state.Settled() {
        return true;
      }
      var state := record.value;
      var tag := state.payload.targetVersion;
      if tag in git.remoteTags {
        if state.releaseCommit != Some(git.remoteTags[tag]) || state.nextCycleCommit.None? {
          return false;
        }
        git := git.(originMain := git.remoteMain, objects := git.objects + {git.remoteMain});
        if git.remoteMain != state.nextCycleCommit.value
           && !mergeBase(git.parents, state.nextCycleCommit.value, git.remoteMain) {
          return false;
        }
        record := Some(state.(state := Released));
        return true;
      }
      if state.releaseCommit.Some? && git.remoteMain in git.objects
         && mergeBase(git.parents, state.releaseCommit.value, git.remoteMain) {
        return false;
      }
      if tag in git.localTags && state.releaseCommit != Some(git.localTags[tag]) {
        return false;
      }
      git := git.(localTags := git.localTags - {tag});
      record := Some(state.(state := Aborted));
      ok := true;
    }
  }

  // ---- any callers in any order

  /** One call with any arguments, or anything that happens to the repository in between. */
  datatype Call =
    | DoCertify(target: Version, allowMajor: bool, evidence: string, paths: seq<string>)
    | DoBegin(target: Version, token: Token)
    | DoConsume(target: Version, token: Token)
    | DoMark(target: Version, token: Token)
    | DoAdvance(target: Version, token: Token, from: Phase, to: Phase)
    | DoRecord(target: Version, token: Token, from: Phase, to: Phase)
    | DoFail(token: Token)
    | DoReconcile
    | Elsewhere(git: Git)

  predicate Extends(before: map<Sha, seq<Sha>>, after: map<Sha, seq<Sha>>) {
    forall c | c in before :: c in after && after[c] == before[c]
  }

  /** The recorded commits that each state of a record comes with. */
  predicate LinksOf(r: Record) {
    match r.state
    case EvidenceReady | Certified | Stale | ReleaseInProgress | VersionBumpInProgress | VersionBumped | ArtifactsReady | ChecksPassed =>
      r.releaseCommit.None? && r.nextCycleCommit.None?
    case ReleaseCommitted | Tagged => r.releaseCommit.Some? && r.nextCycleCommit.None?
    case NextCycleCommitted | Released => r.releaseCommit.Some? && r.nextCycleCommit.Some?
    case Failed | Aborted => true
  }

  /** Whatever is recorded is a chain on the base, with HEAD expected at its end. */
  predicate Kept(w: World) {
    w.record.Some? ==>
      var r := w.record.value;
      && LinksOf(r) && ChainOk(w.git, r)
      && (InTransaction(r.state) ==> r.expectedHead == Some(LastLink(r)) && r.certificateId.Some? && r.tokenHash.Some?)
      && (r.tokenHash.Some? ==> InTransaction(r.state))
  }

  ghost function Perform(w: World, call: Call): World {
    match call
    case DoCertify(target, allowMajor, evidence, paths) => Certify(w, target, allowMajor, evidence, paths).world
    case DoBegin(target, token) => Begin(w, target, token).world
    case DoConsume(target, token) => ConsumeVersionBump(w, target, token).world
    case DoMark(target, token) => MarkVersionBumped(w, target, token).world
    case DoAdvance(target, token, from, to) => Advance(w, target, token, from, to).world
    case DoRecord(target, token, from, to) => RecordCommit(w, target, token, from, to).world
    case DoFail(token) => FailRelease(w, token)
    case DoReconcile => Reconcile(w).world
    case Elsewhere(git) => if Extends(w.git.parents, git.parents) then w.(git := git) else w
  }

  lemma StateCallKeeps(w: World, call: Call)
    requires Kept(w) && (call.DoConsume? || call.DoMark? || call.DoAdvance? || call.DoFail? || call.Elsewhere?)
    ensures Kept(Perform(w, call))
  {
    hide Authority;
  }

  lemma CertificateCallKeeps(w: World, call: Call)
    requires Kept(w) && (call.DoCertify? || call.DoBegin?)
    ensures Kept(Perform(w, call))
  {
  }

  lemma RecordCallKeeps(w: World, call: Call)
    requires Kept(w) && call.DoRecord?
    ensures Kept(Perform(w, call))
  {
    hide Authority;
  }

  lemma ReconcileKeeps(w: World)
    requires Kept(w)
    ensures Kept(Perform(w, DoReconcile))
  {
    hide IsAncestor, Reconcile;
    if HasActive(w) {
      RecoveryOnlySettles(w);
    } else {
      SettledStays(w);
    }
  }

  lemma SettledStays(w: World)
    requires !HasActive(w)
    ensures Reconcile(w).world == w
  {
    hide IsAncestor;
  }

  lemma CallKeeps(w: World, call: Call)
    requires Kept(w)
    ensures Kept(Perform(w, call))
  {
    hide *;
    match call {
      case DoCertify(_, _, _, _) | DoBegin(_, _) => CertificateCallKeeps(w, call);
      case DoRecord(_, _, _, _) => RecordCallKeeps(w, call);
      case DoReconcile => ReconcileKeeps(w);
      case _ => StateCallKeeps(w, call);
    }
  }

  /** The call neither recovers nor carries the token. */
  predicate Stranger(call: Call, token: Token) {
    && !call.DoReconcile?
    && (call.DoConsume? || call.DoMark? || call.DoAdvance? || call.DoRecord? || call.DoFail? ==> call.token != token)
  }

  /** Without its token nobody moves, fails or replaces an open transaction. */
  lemma StrangersDoNothing(w: World, call: Call, token: Token)
    requires HasActive(w) && TokenMatches(w.record.value, token, w.record.value.payload.targetVersion)
    requires Stranger(call, token)
    ensures Perform(w, call).record == w.record
  {
    hide Authority;
  }

  method MakeCall(store: Store, call: Call, mergeBase: (map<Sha, seq<Sha>>, Sha, Sha) -> bool)
    requires IsMergeBase(mergeBase)
    modifies store
    ensures store.View() == Perform(old(store.View()), call)
  {
    hide Certify, Begin, ConsumeVersionBump, MarkVersionBumped, Advance, RecordCommit, FailRelease, Reconcile,
         RequireState, CertificateValid, Authority, IsMergeBase;
    match call {
      case DoCertify(target, allowMajor, evidence, paths) => var _ := store.CertifyReleaseAudit(target, allowMajor, evidence, paths);
      case DoBegin(target, token) => var _ := store.BeginRelease(target, token);
      case DoConsume(target, token) => var _ := store.ConsumeVersionBumpAuthorization(target, token);
      case DoMark(target, token) => var _ := store.MarkVersionBumpedNow(target, token);
      case DoAdvance(target, token, from, to) => var _ := store.AdvanceReleaseState(target, token, from, to);
      case DoRecord(target, token, from, to) => var _ := store.RecordReleaseCommit(target, token, from, to);
      case DoFail(token) => store.FailReleaseNow(token);
      case DoReconcile => var _ := store.ReconcileReleaseState(mergeBase);
      case Elsewhere(git) =>
        if Extends(store.git.parents, git.parents) {
          store.git := git;
        }
    }
  }

  /** From a fresh store or any later one, every sequence of calls keeps the recorded commits
      a chain on the base; and a transaction that is open under a token is not moved, failed
      or replaced by any sequence of calls without that token, short of a recovery. */
  method Exercise(store: Store, calls: seq<Call>, token: Token, mergeBase: (map<Sha, seq<Sha>>, Sha, Sha) -> bool)
    requires IsMergeBase(mergeBase) && Kept(store.View())
    modifies store
    ensures Kept(store.View())
    ensures HasActive(old(store.View()))
            && TokenMatches(old(store.record).value, token, old(store.record).value.payload.targetVersion)
            && (forall call | call in calls :: Stranger(call, token))
            ==> store.record == old(store.record)
  {
    hide Kept, Perform, TokenMatches, Stranger, IsMergeBase;
    ghost var theirs := HasActive(store.View())
                        && TokenMatches(store.record.value, token, store.record.value.payload.targetVersion)
                        && forall call | call in calls :: Stranger(call, token);
    for k := 0 to |calls|
      invariant Kept(store.View())
      invariant theirs ==> store.record == old(store.record)
    {
      CallKeeps(store.View(), calls[k]);
      if theirs {
        StrangersDoNothing(store.View(), calls[k], token);
      }
      MakeCall(store, calls[k], mergeBase);
    }
  }
}
