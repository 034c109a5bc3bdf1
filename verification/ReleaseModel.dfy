/** The certified release transaction: the persisted record, the git state it is checked
    against, and every exported operation as a step on the two
    (scripts/release-transaction.js, scripts/release-audit-certificate.js). Hashes are
    the values they digest, so they are injective. A thrown error is `ok == false`. */
module ReleaseModel {
  import opened Options

  type Sha = nat
  type Token = nat
  type Version = string

  datatype Phase =
    | EvidenceReady | Certified | Stale
    | ReleaseInProgress | VersionBumpInProgress | VersionBumped | ArtifactsReady | ChecksPassed
    | ReleaseCommitted | Tagged | NextCycleCommitted
    | Failed | Released | Aborted
  {
    /** ACTIVE_RELEASE_STATES */
    predicate Active() {
      ReleaseInProgress? || VersionBumpInProgress? || VersionBumped? || ArtifactsReady? || ChecksPassed?
      || ReleaseCommitted? || Tagged? || NextCycleCommitted? || Failed?
    }

    /** The states `reconcileReleaseState` leaves alone. */
    predicate Settled() { Certified? || EvidenceReady? || Stale? || Aborted? || Released? }
  }

  const SCHEMA_VERSION := 2

  datatype Payload = Payload(
    schemaVersion: nat, baseSha: Sha, originMainSha: Sha, targetVersion: Version,
    inputHash: nat, inputPaths: seq<string>, evidenceHash: Digest, allowMajor: bool)

  datatype Digest =
    | EvidenceDigest(evidence: string)
    | CertificateDigest(payload: Payload)
    | AuthorizationDigest(token: Token, certificateId: Digest, targetVersion: Version)

  datatype Record = Record(
    state: Phase, payload: Payload, evidence: string,
    certificateId: Option<Digest>, tokenHash: Option<Digest>, expectedHead: Option<Sha>,
    releaseCommit: Option<Sha>, nextCycleCommit: Option<Sha>, failedFrom: Option<Phase>)

  datatype Git = Git(
    parents: map<Sha, seq<Sha>>,     // every commit anywhere
    objects: set<Sha>,               // the commits known locally
    versionAt: map<Sha, Version>,    // package version of a commit
    head: Sha, originMain: Sha,      // local HEAD and refs/remotes/origin/main
    clean: bool, version: Version, inputHash: nat, unexpectedChanges: bool,  // the worktree
    localTags: map<Version, Sha>,
    remoteMain: Sha, remoteTags: map<Version, Sha>,
    targets: set<(Version, Version, bool)>)  // the version steps the target policy allows

  datatype World = World(git: Git, record: Option<Record>)

  datatype Outcome = Outcome(world: World, ok: bool)

  function Throw(w: World): Outcome { Outcome(w, false) }

  function Write(w: World, r: Record): Outcome { Outcome(w.(record := Some(r)), true) }

  // ---- ancestry

  predicate IsPath(parents: map<Sha, seq<Sha>>, p: seq<Sha>, from: Sha, to: Sha) {
    && |p| > 0 && p[0] == from && p[|p| - 1] == to
    && forall i | 0 <= i < |p| - 1 :: p[i] in parents && p[i + 1] in parents[p[i]]
  }

  ghost predicate IsAncestor(parents: map<Sha, seq<Sha>>, ancestor: Sha, descendant: Sha) {
    exists p :: IsPath(parents, p, descendant, ancestor)
  }

  /** `git merge-base --is-ancestor`: false when it fails for an unknown commit. */
  ghost predicate KnownAncestor(g: Git, ancestor: Sha, descendant: Sha) {
    descendant in g.objects && IsAncestor(g.parents, ancestor, descendant)
  }

  // ---- guards

  predicate CleanMain(g: Git) { g.head == g.originMain && g.clean }

  predicate Authority(w: World, r: Record) {
    && r.payload.schemaVersion == SCHEMA_VERSION
    && r.certificateId == Some(CertificateDigest(r.payload))
    && r.payload.evidenceHash == EvidenceDigest(r.evidence)
    && r.payload.baseSha in w.git.versionAt
    && (w.git.versionAt[r.payload.baseSha], r.payload.targetVersion, r.payload.allowMajor) in w.git.targets
  }

  predicate TokenMatches(r: Record, token: Token, target: Version) {
    && r.certificateId.Some?
    && r.tokenHash == Some(AuthorizationDigest(token, r.certificateId.value, r.payload.targetVersion))
    && r.payload.targetVersion == target
  }

  predicate RequireState(w: World, token: Token, expected: Phase, target: Version, allowHeadChange: bool) {
    && w.record.Some? && w.record.value.state == expected
    && Authority(w, w.record.value)
    && TokenMatches(w.record.value, token, target)
    && (allowHeadChange || w.record.value.expectedHead == Some(w.git.head))
  }

  // ---- operations

  function NewRecord(w: World, target: Version, allowMajor: bool, evidence: string, paths: seq<string>): Record {
    Record(EvidenceReady,
           Payload(SCHEMA_VERSION, w.git.head, w.git.originMain, target, w.git.inputHash, paths,
                   EvidenceDigest(evidence), allowMajor),
           evidence, None, None, None, None, None, None)
  }

  predicate MayCertify(w: World, target: Version, allowMajor: bool) {
    && (w.record.Some? ==> !w.record.value.state.Active())
    && (w.git.version, target, allowMajor) in w.git.targets
    && CleanMain(w.git)
  }

  /** The first of the two writes of `certifyReleaseAudit`. */
  function GatherEvidence(w: World, target: Version, allowMajor: bool, evidence: string, paths: seq<string>): Outcome {
    if MayCertify(w, target, allowMajor) then Write(w, NewRecord(w, target, allowMajor, evidence, paths)) else Throw(w)
  }

  function Certify(w: World, target: Version, allowMajor: bool, evidence: string, paths: seq<string>): Outcome {
    if MayCertify(w, target, allowMajor) then
      var r := NewRecord(w, target, allowMajor, evidence, paths);
      Write(w, r.(state := Certified, certificateId := Some(CertificateDigest(r.payload))))
    else Throw(w)
  }

  /** `inspectReleaseCertificate(...).valid` */
  predicate CertificateValid(w: World, target: Version) {
    && w.record.Some? && w.record.value.state.Certified?
    && w.record.value.payload.targetVersion == target
    && Authority(w, w.record.value)
    && w.git.head == w.record.value.payload.baseSha
    && w.git.originMain == w.record.value.payload.originMainSha
    && w.git.head == w.git.originMain
    && w.git.inputHash == w.record.value.payload.inputHash
  }

  function MarkStale(w: World): World {
    if w.record.Some? && w.record.value.state.Certified?
    then w.(record := Some(w.record.value.(state := Stale)))
    else w
  }

  function Begin(w: World, target: Version, token: Token): Outcome {
    if !CertificateValid(w, target) then Throw(MarkStale(w))
    else if !CleanMain(w.git) then Throw(w)
    else
      var r := w.record.value;
      Write(w, r.(state := ReleaseInProgress,
                  tokenHash := Some(AuthorizationDigest(token, r.certificateId.value, r.payload.targetVersion)),
                  expectedHead := Some(r.payload.baseSha)))
  }

  function ConsumeVersionBump(w: World, target: Version, token: Token): Outcome {
    if RequireState(w, token, ReleaseInProgress, target, false) && CleanMain(w.git)
       && w.git.inputHash == w.record.value.payload.inputHash
    then Write(w, w.record.value.(state := VersionBumpInProgress))
    else Throw(w)
  }

  function MarkVersionBumped(w: World, target: Version, token: Token): Outcome {
    if RequireState(w, token, VersionBumpInProgress, target, false)
       && w.git.version == target && !w.git.unexpectedChanges
    then Write(w, w.record.value.(state := VersionBumped))
    else Throw(w)
  }

  /** WORKTREE_TRANSITIONS */
  predicate WorktreeTransition(from: Phase, to: Phase) {
    || (from.VersionBumped? && to.ArtifactsReady?)
    || (from.ArtifactsReady? && to.ChecksPassed?)
    || (from.ReleaseCommitted? && to.Tagged?)
    || (from.NextCycleCommitted? && to.Released?)
  }

  function Advance(w: World, target: Version, token: Token, from: Phase, to: Phase): Outcome {
    if WorktreeTransition(from, to) && RequireState(w, token, from, target, false)
    then Write(w, w.record.value.(state := to))
    else Throw(w)
  }

  /** COMMIT_TRANSITIONS */
  predicate CommitTransition(from: Phase, to: Phase) {
    || (from.ChecksPassed? && to.ReleaseCommitted?)
    || (from.Tagged? && to.NextCycleCommitted?)
  }

  function RecordCommit(w: World, target: Version, token: Token, from: Phase, to: Phase): Outcome {
    if CommitTransition(from, to) && RequireState(w, token, from, target, true)
       && w.git.head in w.git.parents && w.record.value.expectedHead.Some?
       && w.git.parents[w.git.head] == [w.record.value.expectedHead.value]
       && w.git.clean
    then
      var r := w.record.value.(state := to, expectedHead := Some(w.git.head));
      Write(w, if to.ReleaseCommitted? then r.(releaseCommit := Some(w.git.head))
               else r.(nextCycleCommit := Some(w.git.head)))
    else Throw(w)
  }

  function FailRelease(w: World, token: Token): World {
    if w.record.Some? && TokenMatches(w.record.value, token, w.record.value.payload.targetVersion)
    then w.(record := Some(w.record.value.(state := Failed, failedFrom := Some(w.record.value.state))))
    else w
  }

  function Fetch(g: Git): Git { g.(originMain := g.remoteMain, objects := g.objects + {g.remoteMain}) }

  function WithoutTag(g: Git, v: Version): Git { g.(localTags := g.localTags - {v}) }

  /** Recovery up to its last write; the local tag is the only thing it removes. */
  ghost function Reconcile(w: World): Outcome {
    if w.record.None? || w.record.value.state.Settled() then Outcome(w, true)
    else
      var r, g := w.record.value, w.git;
      var v := r.payload.targetVersion;
      if v in g.remoteTags then
        if r.releaseCommit != Some(g.remoteTags[v]) || r.nextCycleCommit.None? then Throw(w)
        else
          var fetched := w.(git := Fetch(g));
          if g.remoteMain != r.nextCycleCommit.value
             && !KnownAncestor(fetched.git, r.nextCycleCommit.value, g.remoteMain)
          then Throw(fetched)
          else Write(fetched, r.(state := Released))
      else if r.releaseCommit.Some? && KnownAncestor(g, r.releaseCommit.value, g.remoteMain) then Throw(w)
      else if v in g.localTags && r.releaseCommit != Some(g.localTags[v]) then Throw(w)
      else Write(w.(git := WithoutTag(g, v)), r.(state := Aborted))
  }
}
