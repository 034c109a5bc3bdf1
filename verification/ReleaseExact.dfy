/** Exactly when each operation of the release transaction succeeds, over the fields of the
    record and the repository. */
module ReleaseExact {
  import opened Options
  import opened ReleaseModel

  lemma StatesSpelled(p: Phase)
    ensures p.Active() <==> p in {ReleaseInProgress, VersionBumpInProgress, VersionBumped, ArtifactsReady, ChecksPassed,
                                  ReleaseCommitted, Tagged, NextCycleCommitted, Failed}
    ensures p.Settled() <==> p in {Certified, EvidenceReady, Stale, Aborted, Released}
  {
  }

  /** The record is what was certified: every digest in it is that of what it stands for, and
      the target is a step that the policy allows from the base. */
  predicate IsAuthentic(g: Git, r: Record) {
    && r.payload.schemaVersion == 2
    && r.certificateId == Some(CertificateDigest(r.payload))
    && r.payload.evidenceHash == EvidenceDigest(r.evidence)
    && r.payload.baseSha in g.versionAt
    && (g.versionAt[r.payload.baseSha], r.payload.targetVersion, r.payload.allowMajor) in g.targets
  }

  /** The record is open in the given state for the bearer of the token. */
  predicate IsOpen(w: World, state: Phase, target: Version, token: Token) {
    && w.record.Some? && w.record.value.state == state && IsAuthentic(w.git, w.record.value)
    && w.record.value.payload.targetVersion == target
    && w.record.value.tokenHash == Some(AuthorizationDigest(token, CertificateDigest(w.record.value.payload), target))
  }

  predicate HeadExpected(w: World) { w.record.Some? && w.record.value.expectedHead == Some(w.git.head) }

  /** The record goes on to another state, everything else being the same. */
  predicate OnlyState(w: World, w': World, state: Phase) {
    w.record.Some? && w' == w.(record := Some(w.record.value.(state := state)))
  }

  lemma RequireExactly(w: World, token: Token, state: Phase, target: Version, free: bool)
    ensures RequireState(w, token, state, target, free) <==> IsOpen(w, state, target, token) && (free || HeadExpected(w))
  {
  }

  lemma CertifyExactly(w: World, target: Version, allowMajor: bool, evidence: string, paths: seq<string>)
    ensures var o := Certify(w, target, allowMajor, evidence, paths);
            && (o.ok <==>
                  && (w.record.Some? ==> w.record.value.state in {EvidenceReady, Certified, Stale, Released, Aborted})
                  && (w.git.version, target, allowMajor) in w.git.targets && w.git.head == w.git.originMain && w.git.clean)
            && (o.ok ==> o.world.git == w.git && o.world.record == Some(Sealed(w.git, target, allowMajor, evidence, paths)))
            && (!o.ok ==> o.world == w)
  {
  }

  /** A fresh certificate of the repository. */
  function Sealed(g: Git, target: Version, allowMajor: bool, evidence: string, paths: seq<string>): Record {
    var payload := Payload(2, g.head, g.head, target, g.inputHash, paths, EvidenceDigest(evidence), allowMajor);
    Record(Certified, payload, evidence, Some(CertificateDigest(payload)), None, None, None, None, None)
  }

  lemma BeginExactly(w: World, target: Version, token: Token)
    ensures var o := Begin(w, target, token);
            && (o.ok <==>
                  && w.record.Some? && w.record.value.state == Certified && IsAuthentic(w.git, w.record.value)
                  && w.record.value.payload.targetVersion == target
                  && w.git.head == w.git.originMain == w.record.value.payload.baseSha == w.record.value.payload.originMainSha
                  && w.git.inputHash == w.record.value.payload.inputHash && w.git.clean)
            && (o.ok ==> o.world == w.(record := Some(w.record.value.(state := ReleaseInProgress, expectedHead := Some(w.git.head),
                           tokenHash := Some(AuthorizationDigest(token, CertificateDigest(w.record.value.payload), target))))))
  {
  }

  lemma ConsumeExactly(w: World, target: Version, token: Token)
    ensures var o := ConsumeVersionBump(w, target, token);
            && (o.ok <==> IsOpen(w, ReleaseInProgress, target, token) && HeadExpected(w) && w.git.head == w.git.originMain
                          && w.git.clean && w.git.inputHash == w.record.value.payload.inputHash)
            && (if o.ok then OnlyState(w, o.world, VersionBumpInProgress) else o.world == w)
  {
    hide RequireState;
    RequireExactly(w, token, ReleaseInProgress, target, false);
  }

  lemma MarkExactly(w: World, target: Version, token: Token)
    ensures var o := MarkVersionBumped(w, target, token);
            && (o.ok <==> IsOpen(w, VersionBumpInProgress, target, token) && HeadExpected(w)
                          && w.git.version == target && !w.git.unexpectedChanges)
            && (if o.ok then OnlyState(w, o.world, VersionBumped) else o.world == w)
  {
    hide RequireState;
    RequireExactly(w, token, VersionBumpInProgress, target, false);
  }

  lemma AdvanceExactly(w: World, target: Version, token: Token, from: Phase, to: Phase)
    ensures var o := Advance(w, target, token, from, to);
            && (o.ok <==>
                  && (|| (from == VersionBumped && to == ArtifactsReady) || (from == ArtifactsReady && to == ChecksPassed)
                      || (from == ReleaseCommitted && to == Tagged) || (from == NextCycleCommitted && to == Released))
                  && IsOpen(w, from, target, token) && HeadExpected(w))
            && (if o.ok then OnlyState(w, o.world, to) else o.world == w)
  {
    hide RequireState;
    RequireExactly(w, token, from, target, false);
  }

  lemma RecordExactly(w: World, target: Version, token: Token, from: Phase, to: Phase)
    ensures var o := RecordCommit(w, target, token, from, to);
            && (o.ok <==>
                  && ((from == ChecksPassed && to == ReleaseCommitted) || (from == Tagged && to == NextCycleCommitted))
                  && IsOpen(w, from, target, token) && w.git.clean && w.record.value.expectedHead.Some?
                  && w.git.head in w.git.parents && w.git.parents[w.git.head] == [w.record.value.expectedHead.value])
            && (!o.ok ==> o.world == w)
            && (o.ok && to == ReleaseCommitted ==> o.world == w.(record := Some(w.record.value.(
                  state := to, expectedHead := Some(w.git.head), releaseCommit := Some(w.git.head)))))
            && (o.ok && to == NextCycleCommitted ==> o.world == w.(record := Some(w.record.value.(
                  state := to, expectedHead := Some(w.git.head), nextCycleCommit := Some(w.git.head)))))
  {
    hide RequireState;
    RequireExactly(w, token, from, target, true);
  }

  lemma FailExactly(w: World, token: Token)
    ensures var w' := FailRelease(w, token);
            if w.record.Some? && w.record.value.certificateId.Some?
               && w.record.value.tokenHash == Some(AuthorizationDigest(token, w.record.value.certificateId.value, w.record.value.payload.targetVersion))
            then w' == w.(record := Some(w.record.value.(state := Failed, failedFrom := Some(w.record.value.state))))
            else w' == w
  {
  }

  /** Exactly when recovery of an unsettled record succeeds: the remote tag is on the recorded
      release commit and main contains the next-cycle commit; or there is no remote tag, main is
      not known to contain the release commit, and a local tag is on the release commit. */
  lemma RecoverExactly(w: World)
    requires w.record.Some? && !w.record.value.state.Settled()
    ensures var o, r, g := Reconcile(w), w.record.value, w.git;
            var v := r.payload.targetVersion;
            && (v in g.remoteTags ==>
                  (o.ok <==> r.releaseCommit == Some(g.remoteTags[v]) && r.nextCycleCommit.Some?
                             && (r.nextCycleCommit.value == g.remoteMain || IsAncestor(g.parents, r.nextCycleCommit.value, g.remoteMain))))
            && (v !in g.remoteTags ==>
                  (o.ok <==>
                     && (r.releaseCommit.None? || g.remoteMain !in g.objects || !IsAncestor(g.parents, r.releaseCommit.value, g.remoteMain))
                     && (v in g.localTags ==> r.releaseCommit == Some(g.localTags[v]))))
            && (o.ok ==> o.world.record == Some(r.(state := if v in g.remoteTags then Released else Aborted)))
            && (o.ok && v in g.remoteTags ==> o.world.git == g.(originMain := g.remoteMain, objects := g.objects + {g.remoteMain}))
            && (o.ok && v !in g.remoteTags ==> o.world.git == g.(localTags := g.localTags - {v}))
            && (!o.ok ==> o.world.record == w.record && o.world.git.localTags == g.localTags)
  {
    hide IsAncestor;
  }
}
