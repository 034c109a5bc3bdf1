/** Two whole runs from a fresh repository: one that ends with the release published, and one in
    which HEAD is moved while the script is about to tag, so that recovery throws. */
module ReleaseScenario {
  import opened Options
  import opened ReleaseModel
  import opened ReleaseSystem
  import opened ReleaseSafety
  import opened ReleaseRecovery
  import opened ReleaseExact
  import opened ReleaseProgress

  const FIRST := Git(map[0 := []], {0}, map[0 := "1"], 0, 0, true, "1", 0, false, map[], 0, map[], {("1", "2", false)})

  const SEALED := Payload(SCHEMA_VERSION, 0, 0, "2", 0, [], EvidenceDigest("notes"), false)

  const CERTIFICATE := Record(Certified, SEALED, "notes", Some(CertificateDigest(SEALED)), None, None, None, None, None)

  const OPENED := CERTIFICATE.(state := ReleaseInProgress, expectedHead := Some(0),
                               tokenHash := Some(AuthorizationDigest(7, CertificateDigest(SEALED), "2")))

  const BUMPED := FIRST.(clean := false, version := "2")

  const COMMITTED := BUMPED.(parents := map[0 := [], 1 := [0]], objects := {0, 1}, head := 1, clean := true)

  function At(git: Git, record: Option<Record>, pc: Pc): System {
    System(World(git, record), pc, "2",
           if pc.InTransaction() then Some(7) else None,
           if record.Some? then Some(SEALED) else None,
           if 1 in git.parents then {1} else {}, false)
  }

  ghost predicate Goes(s: System, a: Action, s': System) { Enabled(s, a) && s' == Do(s, a) }

  lemma Extend(run: seq<System>, actions: seq<Action>, a: Action, s: System) returns (run': seq<System>, actions': seq<Action>)
    requires IsRun(run, actions) && Goes(run[|run| - 1], a, s)
    ensures IsRun(run', actions') && run'[|run'| - 1] == s
    ensures IsCalmRun(run, actions) && !a.UserMoves? ==> IsCalmRun(run', actions')
  {
    hide Do, Enabled, Initial;
    run', actions' := run + [s], actions + [a];
    forall i | 0 <= i < |actions'| ensures Enabled(run'[i], actions'[i]) && run'[i + 1] == Do(run'[i], actions'[i]) {
      if i < |actions| {
        assert run'[i] == run[i] && run'[i + 1] == run[i + 1] && actions'[i] == actions[i];
      }
    }
    if IsCalmRun(run, actions) && !a.UserMoves? {
      forall i | 0 <= i < |actions'| ensures Calm(run'[i], actions'[i]) {
        assert i < |actions| ==> Calm(run[i], actions[i]);
        assert !a.UserMoves? ==> Calm(run[|run| - 1], a);
      }
    }
  }

  function Opened(state: Phase): Option<Record> { Some(OPENED.(state := state)) }

  const TAGGING := Some(OPENED.(state := ReleaseCommitted, expectedHead := Some(1), releaseCommit := Some(1)))

  lemma Starts()
    ensures Initial(At(FIRST, None, Idle))
    ensures Goes(At(FIRST, None, Idle), Start("2"), At(FIRST, None, Fetching))
    ensures Goes(At(FIRST, None, Checking), CheckTag, At(FIRST, None, Certifying))
  {
  }

  lemma Fetches()
    ensures Goes(At(FIRST, None, Fetching), FetchAll, At(FIRST, None, Checking))
  {
    assert FIRST.remoteTags + FIRST.localTags == map[] && FIRST.objects + {0} == {0};
  }

  lemma Certifies()
    ensures Goes(At(FIRST, None, Certifying), CertifyNow(false, "notes", []), At(FIRST, Some(CERTIFICATE), Beginning))
  {
  }

  lemma Begins()
    ensures Goes(At(FIRST, Some(CERTIFICATE), Beginning), BeginNow(7), At(FIRST, Opened(ReleaseInProgress), Consuming))
  {
  }

  /** The record and its token pass every check of the transaction. */
  lemma Passes(git: Git, state: Phase)
    requires git.versionAt == FIRST.versionAt && git.targets == FIRST.targets && git.head == 0
    ensures RequireState(World(git, Opened(state)), 7, state, "2", false)
  {
  }

  lemma Consumes()
    ensures Goes(At(FIRST, Opened(ReleaseInProgress), Consuming), Consume, At(FIRST, Opened(VersionBumpInProgress), Bumping))
  {
    hide RequireState;
    Passes(FIRST, ReleaseInProgress);
  }

  lemma Bumps()
    ensures Goes(At(FIRST, Opened(VersionBumpInProgress), Bumping), Bump("2", 0, false), At(BUMPED, Opened(VersionBumpInProgress), Marking))
  {
  }

  lemma Marks()
    ensures Goes(At(BUMPED, Opened(VersionBumpInProgress), Marking), Mark, At(BUMPED, Opened(VersionBumped), Preparing))
  {
    hide RequireState;
    Passes(BUMPED, VersionBumpInProgress);
  }

  lemma Prepares()
    ensures Goes(At(BUMPED, Opened(VersionBumped), Preparing), Prepare, At(BUMPED, Opened(ArtifactsReady), Testing))
  {
    hide RequireState;
    Passes(BUMPED, VersionBumped);
  }

  lemma Tests()
    ensures Goes(At(BUMPED, Opened(ArtifactsReady), Testing), Test(true), At(BUMPED, Opened(ChecksPassed), Committing1))
  {
    hide RequireState;
    Passes(BUMPED, ArtifactsReady);
  }

  lemma Commits()
    ensures Goes(At(BUMPED, Opened(ChecksPassed), Committing1), Commit(1), At(COMMITTED, Opened(ChecksPassed), Recording1))
  {
    assert BUMPED.parents[1 := [0]] == COMMITTED.parents && BUMPED.objects + {1} == COMMITTED.objects;
    assert At(BUMPED, Opened(ChecksPassed), Committing1).ours + {1} == {1};
  }

  lemma Records()
    ensures Goes(At(COMMITTED, Opened(ChecksPassed), Recording1), RecordNow, At(COMMITTED, TAGGING, Tagging))
  {
  }

  lemma UpToBegin() returns (run: seq<System>, actions: seq<Action>)
    ensures IsCalmRun(run, actions) && run[|run| - 1] == At(FIRST, Opened(ReleaseInProgress), Consuming)
  {
    hide Goes, Initial, At, Opened, FIRST, CERTIFICATE;
    Starts();
    Fetches();
    Certifies();
    Begins();
    run, actions := [At(FIRST, None, Idle)], [];
    run, actions := Extend(run, actions, Start("2"), At(FIRST, None, Fetching));
    run, actions := Extend(run, actions, FetchAll, At(FIRST, None, Checking));
    run, actions := Extend(run, actions, CheckTag, At(FIRST, None, Certifying));
    run, actions := Extend(run, actions, CertifyNow(false, "notes", []), At(FIRST, Some(CERTIFICATE), Beginning));
    run, actions := Extend(run, actions, BeginNow(7), At(FIRST, Opened(ReleaseInProgress), Consuming));
  }

  lemma UpToTag() returns (run: seq<System>, actions: seq<Action>)
    ensures IsCalmRun(run, actions) && run[|run| - 1] == At(COMMITTED, TAGGING, Tagging)
  {
    hide Goes, At, Opened, FIRST, BUMPED, COMMITTED, TAGGING, Do, Enabled;
    Consumes();
    Bumps();
    Marks();
    Prepares();
    Tests();
    Commits();
    Records();
    run, actions := UpToBegin();
    run, actions := Extend(run, actions, Consume, At(FIRST, Opened(VersionBumpInProgress), Bumping));
    run, actions := Extend(run, actions, Bump("2", 0, false), At(BUMPED, Opened(VersionBumpInProgress), Marking));
    run, actions := Extend(run, actions, Mark, At(BUMPED, Opened(VersionBumped), Preparing));
    run, actions := Extend(run, actions, Prepare, At(BUMPED, Opened(ArtifactsReady), Testing));
    run, actions := Extend(run, actions, Test(true), At(BUMPED, Opened(ChecksPassed), Committing1));
    run, actions := Extend(run, actions, Commit(1), At(COMMITTED, Opened(ChecksPassed), Recording1));
    run, actions := Extend(run, actions, RecordNow, At(COMMITTED, TAGGING, Tagging));
  }

  /** Nobody interferes, and the release is published. */
  lemma PublishedRun() returns (run: seq<System>, actions: seq<Action>)
    ensures IsCalmRun(run, actions) && IsPublished(run[|run| - 1])
  {
    hide Do, Enabled, Initial, IsReady, IsPublished, Inv;
    run, actions := UpToBegin();
    var s := run[|run| - 1];
    RunKeeps(run, actions, |run| - 1);
    ReadyToStart();
    var states, more := ScriptReleases(s);
    JoinRuns(run, actions, states, more);
    run, actions := run + states[1..], actions + more;
  }

  lemma ReadyToStart()
    requires Inv(At(FIRST, Opened(ReleaseInProgress), Consuming))
    ensures IsReady(At(FIRST, Opened(ReleaseInProgress), Consuming))
  {
    hide Inv, IsAncestor;
    AncestorRefl(FIRST.parents, 0);
  }

  lemma JoinRuns(run: seq<System>, actions: seq<Action>, states: seq<System>, more: seq<Action>)
    requires IsCalmRun(run, actions) && IsScriptRun(run[|run| - 1], states, more)
    ensures IsCalmRun(run + states[1..], actions + more)
    ensures (run + states[1..])[|run + states[1..]| - 1] == states[|states| - 1]
  {
    hide Do, Enabled, Initial;
    var all, acts := run + states[1..], actions + more;
    forall i | 0 <= i < |acts| ensures Enabled(all[i], acts[i]) && all[i + 1] == Do(all[i], acts[i]) && Calm(all[i], acts[i]) {
      if i < |actions| {
        assert all[i] == run[i] && all[i + 1] == run[i + 1];
      } else {
        var j := i - |actions|;
        assert all[i] == states[j] && all[i + 1] == states[j + 1] && acts[i] == more[j];
      }
    }
  }

  /** The user goes back to the base while the script is about to tag. */
  lemma MovedHeadBreaksRecovery() returns (run: seq<System>, actions: seq<Action>)
    ensures IsRun(run, actions) && RecoveryThrows(run[|run| - 1])
  {
    hide Do, Enabled, RecoveryThrows, Initial, Safe, Traced;
    run, actions := UpToTag();
    var s := run[|run| - 1];
    RunKeeps(run, actions, |run| - 1);
    var move := UserMoves(0, true, "1", 0, false);
    MayMove(s, move);
    StepIsSafe(s, move);
    MoveTraced(s, move);
    var s1 := Do(s, move);
    TaggedAstray(s1);
    run, actions := Extend(run, actions, move, s1);
    run, actions := Extend(run, actions, Tag, Do(s1, Tag));
    run, actions := Extend(run, actions, NoteTag, Do(Do(s1, Tag), NoteTag));
  }

  lemma MayMove(s: System, a: Action)
    requires a.UserMoves? && a.head in s.world.git.parents
    ensures Enabled(s, a)
  {
    hide IsAncestor;
  }
}
