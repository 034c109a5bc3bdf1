/** The turn timeout controller (benchmarks/src/agents/turn-timeout.ts). The clock reading is
    an argument of every call; a timer may fire at any time, early or late, even after it was
    cleared, and the controller must not depend on which. */
module TurnTimeout {
  import opened Options

  datatype Kind = HardDeadline | Inactivity | WallClock

  datatype Mode = SemanticProgress | WallClockMode

  datatype Event = Renewed(time: int) | Fired(kind: Kind, time: int) | StoppedAt(time: int)

  function Max(a: int, b: int): int { if a >= b then a else b }

  /** The time of the last renewal in the log. */
  function LastRenewal(log: seq<Event>): Option<int> {
    if log == [] then None
    else if log[|log| - 1].Renewed? then Some(log[|log| - 1].time)
    else LastRenewal(log[..|log| - 1])
  }

  /** The nominal budget is used up and the full grace has passed since the last renewal. */
  predicate LeaseExpired(log: seq<Event>, nominal: int, grace: int, now: int) {
    now >= nominal && (LastRenewal(log).Some? ==> now >= LastRenewal(log).value + grace)
  }

  /** Every firing in the log was right when it happened, and nothing happened after the
      first firing or stop. */
  predicate Faithful(log: seq<Event>, mode: Mode, nominal: int, grace: int, hard: Option<int>) {
    forall k | 0 <= k < |log| ::
      && (k < |log| - 1 ==> log[k].Renewed?)
      && (log[k].Renewed? ==> mode.SemanticProgress?)
      && (log[k].Fired? ==>
            var e := log[k];
            match e.kind
            case HardDeadline => hard.Some? && e.time >= hard.value
            case Inactivity => mode.SemanticProgress? && LeaseExpired(log[..k], nominal, grace, e.time) && (hard.Some? ==> e.time < hard.value)
            case WallClock => mode.WallClockMode? && e.time >= nominal && (hard.Some? ==> e.time < hard.value))
  }

  lemma RenewalSnoc(log: seq<Event>, e: Event)
    ensures LastRenewal(log + [e]) == if e.Renewed? then Some(e.time) else LastRenewal(log)
  {
    assert (log + [e])[..|log|] == log;
  }

  lemma FaithfulSnoc(log: seq<Event>, e: Event, mode: Mode, nominal: int, grace: int, hard: Option<int>)
    requires Faithful(log, mode, nominal, grace, hard) && forall k | 0 <= k < |log| :: log[k].Renewed?
    requires e.Renewed? ==> mode.SemanticProgress?
    requires e.Fired? && e.kind.HardDeadline? ==> hard.Some? && e.time >= hard.value
    requires e.Fired? && e.kind.Inactivity? ==> mode.SemanticProgress? && LeaseExpired(log, nominal, grace, e.time)
    requires e.Fired? && e.kind.WallClock? ==> mode.WallClockMode? && e.time >= nominal
    requires e.Fired? && !e.kind.HardDeadline? && hard.Some? ==> e.time < hard.value
    ensures Faithful(log + [e], mode, nominal, grace, hard)
  {
    var log' := log + [e];
    assert log'[..|log|] == log;
    forall k | 0 <= k < |log| ensures log'[..k] == log[..k] {
    }
  }

  lemma OnlyLastStops(log: seq<Event>, mode: Mode, nominal: int, grace: int, hard: Option<int>, i: nat)
    requires Faithful(log, mode, nominal, grace, hard) && i < |log| && !log[i].Renewed?
    ensures i == |log| - 1
  {
  }

  /** A run reports at most one timeout, and none after a stop. */
  lemma AtMostOneTimeout(log: seq<Event>, mode: Mode, nominal: int, grace: int, hard: Option<int>, i: nat, j: nat)
    requires Faithful(log, mode, nominal, grace, hard) && i < |log| && j < |log|
    requires log[j].Fired? && (log[i].Fired? || log[i].StoppedAt?)
    ensures i == j
  {
    OnlyLastStops(log, mode, nominal, grace, hard, i);
    OnlyLastStops(log, mode, nominal, grace, hard, j);
  }

  class Controller {
    const mode: Mode
    const nominalDeadline: int
    const hardDeadline: Option<int>
    const progressGrace: int
    var activityDeadline: int
    var activityTimer: Option<int>   // when it is due
    var hardTimer: Option<int>
    var stopped: bool
    ghost var log: seq<Event>

    ghost predicate Valid()
      reads this
    {
      && Faithful(log, mode, nominalDeadline, progressGrace, hardDeadline)
      && (stopped <==> exists k | 0 <= k < |log| :: !log[k].Renewed?)
      && activityDeadline == Lease()
      // a running controller has its timers set, never to go off before the deadlines
      && (!stopped ==> activityTimer.Some? && activityTimer.value >= activityDeadline)
      && (!stopped && hardDeadline.Some? ==> hardTimer.Some? && hardTimer.value >= hardDeadline.value)
      && (stopped ==> activityTimer.None? && hardTimer.None?)
    }

    /** The rolling lease: the nominal deadline, or the grace after the last renewal. */
    ghost function Lease(): int
      reads this
    {
      if LastRenewal(log).None? then nominalDeadline
      else Max(nominalDeadline, LastRenewal(log).value + progressGrace)
    }

    /** The timeout that is due at `now`, the hard one first. */
    ghost function Due(now: int): Option<Kind>
      reads this
    {
      if hardDeadline.Some? && now >= hardDeadline.value then Some(HardDeadline)
      else if now < Lease() then None
      else Some(if mode.SemanticProgress? then Inactivity else WallClock)
    }

    constructor (startedAt: int, timeout: int, hardTimeout: Option<int>, grace: int, mode: Mode, now: int)
      ensures Valid() && !stopped && log == []
      ensures nominalDeadline == startedAt + timeout && progressGrace == grace && this.mode == mode
      ensures hardDeadline == if hardTimeout.None? then None else Some(startedAt + hardTimeout.value)
      ensures activityTimer == Some(Max(now, nominalDeadline))
      ensures hardTimer == if hardDeadline.None? then None else Some(Max(now, hardDeadline.value))
    {
      this.mode := mode;
      nominalDeadline := startedAt + timeout;
      activityDeadline := startedAt + timeout;
      hardDeadline := if hardTimeout.None? then None else Some(startedAt + hardTimeout.value);
      progressGrace := grace;
      activityTimer, hardTimer, stopped := None, None, false;
      log := [];
      new;
      ArmHardDeadline(now);
      ArmActivityDeadline(now);
    }

    method ArmActivityDeadline(now: int)
      modifies `activityTimer
      ensures activityTimer == if stopped then old(activityTimer) else Some(Max(now, activityDeadline))
    {
      if stopped {
        return;
      }
      activityTimer := Some(now + Max(0, activityDeadline - now));
    }

    method ArmHardDeadline(now: int)
      modifies `hardTimer
      ensures hardTimer == if stopped || hardDeadline.None? then old(hardTimer) else Some(Max(now, hardDeadline.value))
    {
      if stopped || hardDeadline.None? {
        return;
      }
      hardTimer := Some(now + Max(0, hardDeadline.value - now));
    }

    method RenewSemanticProgress(now: int)
      requires Valid()
      modifies `activityDeadline, `activityTimer, `log
      ensures Valid()
      ensures old(stopped) || !mode.SemanticProgress? ==> unchanged(this)
      ensures !old(stopped) && mode.SemanticProgress? ==> log == old(log) + [Renewed(now)]
      ensures !old(stopped) && mode.SemanticProgress? ==> activityDeadline == Max(nominalDeadline, now + progressGrace)
                                                          && activityTimer == Some(Max(now, activityDeadline))
    {
      if stopped || !mode.SemanticProgress? {
        return;
      }
      FaithfulSnoc(log, Renewed(now), mode, nominalDeadline, progressGrace, hardDeadline);
      RenewalSnoc(log, Renewed(now));
      log := log + [Renewed(now)];
      activityDeadline := Max(nominalDeadline, now + progressGrace);
      ArmActivityDeadline(now);
    }

    /** Stop, and what the ghost log says about why. */
    method Halt(ghost e: Event)
      requires Valid() && !stopped && !e.Renewed?
      requires Faithful(log + [e], mode, nominalDeadline, progressGrace, hardDeadline)
      modifies `stopped, `activityTimer, `hardTimer, `log
      ensures Valid() && stopped && log == old(log) + [e]
    {
      hide Faithful, LastRenewal;
      RenewalSnoc(log, e);
      stopped := true;
      activityTimer := None;
      hardTimer := None;
      log := log + [e];
      assert log[|log| - 1] == e;
    }

    method Stop(now: int)
      requires Valid()
      modifies `stopped, `activityTimer, `hardTimer, `log
      ensures Valid() && stopped
      ensures log == old(log) + if old(stopped) then [] else [StoppedAt(now)]
    {
      if stopped {
        assert log + [] == log;
        return;
      }
      FaithfulSnoc(log, StoppedAt(now), mode, nominalDeadline, progressGrace, hardDeadline);
      Halt(StoppedAt(now));
    }

    method Finish(kind: Kind, now: int) returns (reported: bool)
      requires Valid() && !stopped
      requires kind.HardDeadline? ==> hardDeadline.Some? && now >= hardDeadline.value
      requires !kind.HardDeadline? ==> now >= activityDeadline && (hardDeadline.Some? ==> now < hardDeadline.value)
      requires kind.Inactivity? ==> mode.SemanticProgress?
      requires kind.WallClock? ==> mode.WallClockMode?
      modifies `stopped, `activityTimer, `hardTimer, `log
      ensures Valid() && stopped && reported && log == old(log) + [Fired(kind, now)]
    {
      FaithfulSnoc(log, Fired(kind, now), mode, nominalDeadline, progressGrace, hardDeadline);
      Halt(Fired(kind, now));
      reported := true;
    }

    /** The activity timer fires. It reports exactly when one of the two deadlines has passed,
        the hard one first. */
    method ReachActivityDeadline(now: int) returns (reported: Option<Kind>)
      requires Valid()
      modifies `stopped, `activityTimer, `hardTimer, `log
      ensures Valid()
      ensures old(stopped) ==> unchanged(this) && reported.None?
      ensures !old(stopped) ==> reported == old(Due(now))
      ensures !old(stopped) ==>
                (reported.Some? <==> (hardDeadline.Some? && now >= hardDeadline.value) || LeaseExpired(old(log), nominalDeadline, progressGrace, now))
      ensures !old(stopped) && reported.Some? ==> stopped && log == old(log) + [Fired(reported.value, now)]
      ensures !old(stopped) && reported.None? ==> !stopped && log == old(log) && activityTimer == Some(activityDeadline)
    {
      if stopped {
        return None;
      }
      if hardDeadline.Some? && now >= hardDeadline.value {
        var _ := Finish(HardDeadline, now);
        return Some(HardDeadline);
      }
      if now < activityDeadline {
        ArmActivityDeadline(now);
        return None;
      }
      var kind := if mode.SemanticProgress? then Inactivity else WallClock;
      var _ := Finish(kind, now);
      reported := Some(kind);
    }

    /** The hard timer fires: no renewal postpones what it reports. */
    method ReachHardDeadline(now: int) returns (reported: Option<Kind>)
      requires Valid()
      modifies `stopped, `activityTimer, `hardTimer, `log
      ensures Valid()
      ensures old(stopped) || hardDeadline.None? ==> unchanged(this) && reported.None?
      ensures !old(stopped) && hardDeadline.Some? ==>
                reported == if now >= hardDeadline.value then Some(HardDeadline) else None
      ensures !old(stopped) && reported.Some? ==> stopped && log == old(log) + [Fired(HardDeadline, now)]
      ensures !old(stopped) && reported.None? ==> !stopped && log == old(log)
    {
      if stopped || hardDeadline.None? {
        return None;
      }
      if now < hardDeadline.value {
        ArmHardDeadline(now);
        return None;
      }
      var _ := Finish(HardDeadline, now);
      reported := Some(HardDeadline);
    }
  }

  function Firings(log: seq<Event>): seq<Kind> {
    if log == [] then []
    else Firings(log[..|log| - 1]) + if log[|log| - 1].Fired? then [log[|log| - 1].kind] else []
  }

  lemma FiringsSnoc(log: seq<Event>, e: Event)
    ensures Firings(log + [e]) == Firings(log) + if e.Fired? then [e.kind] else []
  {
    assert (log + [e])[..|log|] == log;
  }

  datatype Call = Renew | StopNow | ActivityTimer | HardTimer

  /** Any schedule of renewals, stops and timer firings: the reports are those of a faithful
      log, so at most one, right when made, and none after a stop. */
  method Drive(c: Controller, schedule: seq<(Call, int)>) returns (reports: seq<Kind>)
    requires c.Valid()
    modifies c
    ensures c.Valid() && old(c.log) <= c.log
    ensures |reports| <= 1
    ensures reports == Firings(c.log[|old(c.log)|..])
    ensures old(c.stopped) ==> reports == [] && c.log == old(c.log)
  {
    hide Faithful, LastRenewal;
    reports := [];
    for k := 0 to |schedule|
      invariant c.Valid() && old(c.log) <= c.log && |reports| <= 1
      invariant reports == Firings(c.log[|old(c.log)|..])
      invariant old(c.stopped) ==> c.log == old(c.log)
      invariant old(c.stopped) ==> c.stopped
      invariant reports != [] ==> c.stopped
    {
      var now, was := schedule[k].1, c.log;
      var reported: Option<Kind> := None;
      match schedule[k].0 {
        case Renew => c.RenewSemanticProgress(now);
        case StopNow => c.Stop(now);
        case ActivityTimer => reported := c.ReachActivityDeadline(now);
        case HardTimer => reported := c.ReachHardDeadline(now);
      }
      ghost var n := |old(c.log)|;
      if c.log != was {
        ghost var e := c.log[|was|];
        assert c.log[n..] == was[n..] + [e];
        FiringsSnoc(was[n..], e);
      }
      if reported.Some? {
        reports := reports + [reported.value];
      }
    }
  }
}
