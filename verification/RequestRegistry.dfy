/** The registry of cancellable embedding requests
    (packages/code-index/embedding_request_registry.py). Each method is one critical section
    or one step outside the lock; the clock is an argument that never runs backwards. */
module RequestRegistry {
  import opened Options

  type Id = string

  /** A registration: its cancelled and completed flags, and who has completed it. */
  datatype Registration = Registration(id: Id, cancelled: bool, popped: bool, completed: bool)

  datatype Event =
    | CancelledBeforeStart(id: Id, time: int)
    | Registered(id: Id, registration: nat, time: int, cancelled: bool)

  /** A cancellation before the start is still waiting for a registration of the id at `now`. */
  predicate Marked(log: seq<Event>, id: Id, lifetime: int, now: int) {
    exists k | 0 <= k < |log| :: IsMark(log, k, id, lifetime, now)
  }

  predicate IsMark(log: seq<Event>, k: nat, id: Id, lifetime: int, now: int)
    requires k < |log|
  {
    && log[k].CancelledBeforeStart? && log[k].id == id && log[k].time + lifetime > now
    && forall m | k < m < |log| :: !(log[m].Registered? && log[m].id == id)
  }

  /** The tombstones are exactly the cancellations still waiting, now and later. */
  ghost predicate TombstonesOk(log: seq<Event>, tombstones: map<Id, int>, lifetime: int, clock: int) {
    && (forall id, now | now >= clock ::
          (id in tombstones && tombstones[id] > now) <==> Marked(log, id, lifetime, now))
    && (forall k | 0 <= k < |log| && log[k].CancelledBeforeStart? :: log[k].time <= clock)
  }

  function Unexpired(tombstones: map<Id, int>, now: int): map<Id, int> {
    map id | id in tombstones && tombstones[id] > now :: tombstones[id]
  }

  lemma DiscardOk(log: seq<Event>, tombstones: map<Id, int>, lifetime: int, clock: int, now: int)
    requires TombstonesOk(log, tombstones, lifetime, clock) && clock <= now
    ensures TombstonesOk(log, Unexpired(tombstones, now), lifetime, now)
    ensures forall id :: id in Unexpired(tombstones, now) <==> Marked(log, id, lifetime, now)
  {
    hide Marked;
  }

  lemma RegisterOk(log: seq<Event>, tombstones: map<Id, int>, lifetime: int, clock: int, id: Id, r: nat, time: int, cancelled: bool)
    requires TombstonesOk(log, tombstones, lifetime, clock)
    ensures TombstonesOk(log + [Registered(id, r, time, cancelled)], tombstones - {id}, lifetime, clock)
    ensures !Marked(log + [Registered(id, r, time, cancelled)], id, lifetime, clock)
  {
    hide Marked;
    forall other, later ensures Marked(log + [Registered(id, r, time, cancelled)], other, lifetime, later)
                                <==> Marked(log, other, lifetime, later) && other != id {
      MarkedAfterRegister(log, id, r, time, cancelled, other, lifetime, later);
    }
  }

  lemma CancelOk(log: seq<Event>, tombstones: map<Id, int>, lifetime: int, clock: int, id: Id)
    requires TombstonesOk(log, tombstones, lifetime, clock)
    ensures TombstonesOk(log + [CancelledBeforeStart(id, clock)], tombstones[id := clock + lifetime], lifetime, clock)
    ensures lifetime > 0 ==> Marked(log + [CancelledBeforeStart(id, clock)], id, lifetime, clock)
  {
    hide Marked;
    forall other, later ensures Marked(log + [CancelledBeforeStart(id, clock)], other, lifetime, later)
                                <==> Marked(log, other, lifetime, later) || (other == id && clock + lifetime > later) {
      MarkedAfterCancel(log, id, clock, other, lifetime, later);
    }
    forall later | Marked(log, id, lifetime, later) ensures clock + lifetime > later {
      MarkIsOld(log, id, lifetime, later, clock);
    }
  }

  lemma MarkedAfterCancel(log: seq<Event>, id: Id, time: int, other: Id, lifetime: int, now: int)
    ensures Marked(log + [CancelledBeforeStart(id, time)], other, lifetime, now)
            <==> Marked(log, other, lifetime, now) || (other == id && time + lifetime > now)
  {
    var log' := log + [CancelledBeforeStart(id, time)];
    if Marked(log, other, lifetime, now) {
      var k :| 0 <= k < |log| && IsMark(log, k, other, lifetime, now);
      assert IsMark(log', k, other, lifetime, now);
    }
    if other == id && time + lifetime > now {
      assert IsMark(log', |log|, other, lifetime, now);
    }
    if Marked(log', other, lifetime, now) {
      var k :| 0 <= k < |log'| && IsMark(log', k, other, lifetime, now);
      if k < |log| {
        forall m | k < m < |log| ensures !(log[m].Registered? && log[m].id == other) {
          assert log'[m] == log[m];
        }
        assert IsMark(log, k, other, lifetime, now);
      }
    }
  }

  lemma MarkedAfterRegister(log: seq<Event>, id: Id, r: nat, time: int, cancelled: bool, other: Id, lifetime: int, now: int)
    ensures Marked(log + [Registered(id, r, time, cancelled)], other, lifetime, now) <==> Marked(log, other, lifetime, now) && other != id
  {
    var log' := log + [Registered(id, r, time, cancelled)];
    if Marked(log, other, lifetime, now) && other != id {
      var k :| 0 <= k < |log| && IsMark(log, k, other, lifetime, now);
      assert IsMark(log', k, other, lifetime, now);
    }
    if Marked(log', other, lifetime, now) {
      var k :| 0 <= k < |log'| && IsMark(log', k, other, lifetime, now);
      assert k < |log| && log'[|log|] == Registered(id, r, time, cancelled);
      forall m | k < m < |log| ensures !(log[m].Registered? && log[m].id == other) {
        assert log'[m] == log[m];
      }
      assert IsMark(log, k, other, lifetime, now);
    }
  }

  /** Every registration started cancelled exactly when a cancellation was waiting for it. */
  predicate Honoured(log: seq<Event>, lifetime: int) {
    forall k | 0 <= k < |log| && log[k].Registered? ::
      log[k].cancelled <==> Marked(log[..k], log[k].id, lifetime, log[k].time)
  }

  lemma HonouredSnoc(log: seq<Event>, lifetime: int, e: Event)
    requires Honoured(log, lifetime)
    requires e.Registered? ==> (e.cancelled <==> Marked(log, e.id, lifetime, e.time))
    ensures Honoured(log + [e], lifetime)
  {
    hide Marked;
    var log' := log + [e];
    forall k | 0 <= k < |log'| && log'[k].Registered?
      ensures log'[k].cancelled <==> Marked(log'[..k], log'[k].id, lifetime, log'[k].time)
    {
      assert log'[..k] == log[..k];
      assert k == |log| ==> log[..k] == log;
    }
  }

  /** `m` is the first registration of the id of `k` after it. */
  predicate IsNextStart(log: seq<Event>, k: nat, m: nat) {
    && k < m < |log| && log[m].Registered? && log[m].id == log[k].id
    && forall j | k < j < m :: !(log[j].Registered? && log[j].id == log[k].id)
  }

  /** A cancellation before the start cancels the next registration of its id within its
      lifetime, and the one after that only if the id was cancelled again in between. */
  lemma CancelsExactlyTheNext(log: seq<Event>, lifetime: int, k: nat, m: nat, n: nat)
    requires Honoured(log, lifetime) && k < |log| && log[k].CancelledBeforeStart?
    requires IsNextStart(log, k, m) && log[m].time < log[k].time + lifetime
    ensures log[m].cancelled
    ensures IsNextStart(log, m, n) && log[n].cancelled ==>
              exists j | m < j < n :: log[j].CancelledBeforeStart? && log[j].id == log[k].id
  {
    assert IsMark(log[..m], k, log[m].id, lifetime, log[m].time);
    if IsNextStart(log, m, n) && log[n].cancelled {
      var j :| 0 <= j < n && IsMark(log[..n], j, log[n].id, lifetime, log[n].time);
      assert log[..n][m] == log[m];
      assert log[..n][j] == log[j];
    }
  }

  /** The active table holds exactly the registrations not yet popped, each under its id. */
  ghost predicate ActiveOk(active: map<Id, nat>, registrations: seq<Registration>) {
    && (forall id | id in active ::
          && active[id] < |registrations| && registrations[active[id]].id == id && !registrations[active[id]].popped)
    && (forall r | 0 <= r < |registrations| && !registrations[r].popped ::
          registrations[r].id in active && active[registrations[r].id] == r)
  }

  /** Only a popped registration is completed, and somebody asked for that; a request that
      called complete has no active registration. */
  ghost predicate PoppedOk(registrations: seq<Registration>, finished: set<nat>, taken: set<nat>) {
    && (forall r | 0 <= r < |registrations| && registrations[r].completed :: registrations[r].popped)
    && (forall r | 0 <= r < |registrations| && registrations[r].popped :: r in finished || r in taken)
    && (forall r | r in finished :: r < |registrations| && registrations[r].popped)
  }

  lemma ActiveAfterRegister(active: map<Id, nat>, registrations: seq<Registration>, id: Id, cancelled: bool)
    requires ActiveOk(active, registrations) && id !in active
    ensures ActiveOk(active[id := |registrations|], registrations + [Registration(id, cancelled, false, false)])
  {
  }

  lemma ActiveAfterPop(active: map<Id, nat>, registrations: seq<Registration>, id: Id)
    requires ActiveOk(active, registrations) && id in active
    ensures active[id] < |registrations| && registrations[active[id]].id == id && !registrations[active[id]].popped
    ensures ActiveOk(active - {id}, registrations[active[id] := registrations[active[id]].(popped := true)])
  {
  }

  lemma PoppedUnlessActive(active: map<Id, nat>, registrations: seq<Registration>, r: nat)
    requires ActiveOk(active, registrations) && r < |registrations|
    ensures registrations[r].popped <==> !(registrations[r].id in active && active[registrations[r].id] == r)
  {
  }

  /** What a cancel finds: no registration, or one to wait for. */
  datatype Cancel = AcceptedAtOnce | WaitFor(registration: nat)

  class Registry {
    const tombstoneSeconds: nat
    var active: map<Id, nat>
    var cancelledBeforeStart: map<Id, int>
    var registrations: seq<Registration>
    ghost var log: seq<Event>
    ghost var clock: int
    ghost var finished: set<nat>   // registrations whose own request has called complete
    ghost var taken: set<nat>      // registrations completed in the name of another request

    ghost predicate Valid()
      reads this
    {
      && active.Keys !! cancelledBeforeStart.Keys
      && ActiveOk(active, registrations)
      && PoppedOk(registrations, finished, taken)
      && TombstonesOk(log, cancelledBeforeStart, tombstoneSeconds, clock)
      && Honoured(log, tombstoneSeconds)
    }

    constructor (tombstoneSeconds: nat, now: int)
      ensures Valid() && active == map[] && registrations == [] && log == [] && clock == now && taken == {} && finished == {}
      ensures this.tombstoneSeconds == tombstoneSeconds
    {
      this.tombstoneSeconds := tombstoneSeconds;
      active, cancelledBeforeStart, registrations := map[], map[], [];
      log, clock, finished, taken := [], now, {}, {};
    }

    /** A new registration starts cancelled exactly when a cancellation of its id is waiting,
        which it then uses up. A second registration of an active id is refused. */
    method Register(id: Id, now: int) returns (registration: Option<nat>)
      requires Valid() && clock <= now
      modifies this
      ensures Valid() && clock == now && unchanged(`finished, `taken)
      ensures registration.None? <==> id in old(active)
      ensures registration.None? ==> active == old(active) && registrations == old(registrations) && log == old(log)
      ensures registration.Some? ==>
                && registration.value == |old(registrations)| && active == old(active)[id := registration.value]
                && registrations == old(registrations) + [Registration(id, old(Marked(log, id, tombstoneSeconds, now)), false, false)]
                && log == old(log) + [Registered(id, registration.value, now, registrations[registration.value].cancelled)]
                && !Marked(log, id, tombstoneSeconds, now)
    {
      hide Marked, Honoured, TombstonesOk, ActiveOk;
      DiscardOk(log, cancelledBeforeStart, tombstoneSeconds, clock, now);
      cancelledBeforeStart := Unexpired(cancelledBeforeStart, now);
      clock := now;
      if id in active {
        return None;
      }
      var cancelled := id in cancelledBeforeStart;
      var r := |registrations|;
      ActiveAfterRegister(active, registrations, id, cancelled);
      RegisterOk(log, cancelledBeforeStart, tombstoneSeconds, clock, id, r, now, cancelled);
      HonouredSnoc(log, tombstoneSeconds, Registered(id, r, now, cancelled));
      cancelledBeforeStart := cancelledBeforeStart - {id};
      registrations := registrations + [Registration(id, cancelled, false, false)];
      active := active[id := r];
      log := log + [Registered(id, r, now, cancelled)];
      registration := Some(r);
    }

    /** The critical section of `complete`; `caller` is the registration of the request that
        calls it, if it has one. Returns the registration whose event is set next. */
    method CompletePop(id: Id, ghost caller: Option<nat>) returns (popped: Option<nat>)
      requires Valid()
      requires caller.Some? ==> caller.value < |registrations| && registrations[caller.value].id == id
      modifies this
      ensures Valid() && unchanged(`log, `clock, `cancelledBeforeStart)
      // the registration is marked complete by its own request exactly when that is the caller
      ensures popped.Some? ==> (popped.value in finished <==> caller == popped)
      // an owner calling for the first time completes itself: without foreign calls `taken` stays empty
      ensures caller.Some? && caller.value !in old(finished) + old(taken) ==> popped == caller && taken == old(taken)
      ensures popped == if id in old(active) then Some(old(active)[id]) else None
      ensures active == old(active) - {id}
      ensures popped.None? ==> registrations == old(registrations)
      ensures popped.Some? ==> registrations == old(registrations)[popped.value := old(registrations)[popped.value].(popped := true)]
      ensures finished == old(finished) + if caller.Some? then {caller.value} else {}
      ensures taken == old(taken) + if popped.Some? && caller != popped then {popped.value} else {}
    {
      hide TombstonesOk, ActiveOk, Honoured;
      if caller.Some? {
        PoppedUnlessActive(active, registrations, caller.value);
        finished := finished + {caller.value};
      }
      if id !in active {
        return None;
      }
      var r := active[id];
      ActiveAfterPop(active, registrations, id);
      if caller != Some(r) {
        taken := taken + {r};
      }
      active := active - {id};
      registrations := registrations[r := registrations[r].(popped := true)];
      popped := Some(r);
    }

    /** The last line of `complete`, outside the lock. */
    method CompleteSet(r: nat)
      requires Valid() && r < |registrations| && registrations[r].popped
      modifies `registrations
      ensures Valid() && registrations == old(registrations)[r := old(registrations)[r].(completed := true)]
    {
      registrations := registrations[r := registrations[r].(completed := true)];
    }

    /** The critical section of `cancel_and_wait`. */
    method CancelBegin(id: Id, now: int) returns (cancel: Cancel)
      requires Valid() && clock <= now
      modifies this
      ensures Valid() && clock == now && unchanged(`active, `finished, `taken)
      ensures id in active ==> cancel == WaitFor(active[id]) && log == old(log)
                               && registrations == old(registrations)[active[id] := old(registrations)[active[id]].(cancelled := true)]
      ensures id !in active ==> cancel == AcceptedAtOnce && registrations == old(registrations)
                                && log == old(log) + [CancelledBeforeStart(id, now)]
      ensures id !in active && tombstoneSeconds > 0 ==> Marked(log, id, tombstoneSeconds, now)
    {
      hide Marked, Honoured, TombstonesOk;
      DiscardOk(log, cancelledBeforeStart, tombstoneSeconds, clock, now);
      cancelledBeforeStart := Unexpired(cancelledBeforeStart, now);
      clock := now;
      if id !in active {
        HonouredSnoc(log, tombstoneSeconds, CancelledBeforeStart(id, now));
        CancelOk(log, cancelledBeforeStart, tombstoneSeconds, clock, id);
        cancelledBeforeStart := cancelledBeforeStart[id := now + tombstoneSeconds];
        log := log + [CancelledBeforeStart(id, now)];
        return AcceptedAtOnce;
      }
      var r := active[id];
      registrations := registrations[r := registrations[r].(cancelled := true)];
      cancel := WaitFor(r);
    }

    /** The wait of `cancel_and_wait` returns: true only for a registration that completed, by
        its own request unless another one completed it in its name. */
    method CancelEnd(r: nat) returns (idle: bool)
      requires Valid() && r < |registrations|
      ensures idle == registrations[r].completed
      ensures idle ==> r in finished || r in taken
      ensures idle && taken == {} ==> r in finished
    {
      idle := registrations[r].completed;
    }
  }

  lemma MarkIsOld(log: seq<Event>, id: Id, lifetime: int, later: int, clock: int)
    requires Marked(log, id, lifetime, later)
    requires forall k | 0 <= k < |log| && log[k].CancelledBeforeStart? :: log[k].time <= clock
    ensures clock + lifetime > later
  {
    var k :| 0 <= k < |log| && IsMark(log, k, id, lifetime, later);
  }

  /** One critical section, or one step outside the lock, of some thread. `Waits` is a cancel
      that looks whether the registration it flagged has completed. */
  datatype Step =
    | Registers(id: Id)
    | Completes(id: Id, caller: Option<nat>)
    | Sets(registration: nat)
    | Cancels(id: Id)
    | Waits(registration: nat)

  /** The step completes the registration `r` of `id` in the name of somebody else. */
  predicate Foreign(step: Step, id: Id, r: nat) { step.Completes? && step.id == id && step.caller != Some(r) }

  /** Every request that completes has registered, and completes once. */
  predicate OwnersOnly(schedule: seq<(Step, nat)>) {
    && (forall k | 0 <= k < |schedule| && schedule[k].0.Completes? :: schedule[k].0.caller.Some?)
    && (forall k, l | 0 <= k < l < |schedule| && schedule[k].0.Completes? && schedule[l].0.Completes? ::
          schedule[k].0.caller != schedule[l].0.caller)
  }

  /** The registration has been completed by its own request among the first `n` steps. */
  predicate Called(schedule: seq<(Step, nat)>, n: nat, r: nat)
    requires n <= |schedule|
  {
    exists k | 0 <= k < n :: schedule[k].0.Completes? && schedule[k].0.caller == Some(r)
  }

  ghost predicate SomeoneElseCalled(schedule: seq<(Step, nat)>, n: nat, id: Id, r: nat)
    requires n <= |schedule|
  {
    exists k | 0 <= k < n :: Foreign(schedule[k].0, id, r)
  }

  /** No registration changes its id, and no flag of one is ever taken back. */
  predicate Grows(before: seq<Registration>, after: seq<Registration>) {
    && |before| <= |after|
    && forall r | 0 <= r < |before| ::
         && after[r].id == before[r].id && (before[r].cancelled ==> after[r].cancelled)
         && (before[r].popped ==> after[r].popped) && (before[r].completed ==> after[r].completed)
  }

  /** One step, if it applies. */
  method Take(registry: Registry, step: Step, now: int) returns (reported: Option<nat>)
    requires registry.Valid() && registry.clock <= now
    modifies registry
    ensures registry.Valid() && registry.clock <= now && old(registry.log) <= registry.log
    ensures Grows(old(registry.registrations), registry.registrations)
    ensures reported.Some? ==> step == Waits(reported.value) && reported.value < |registry.registrations|
                               && registry.registrations[reported.value].completed
    ensures !step.Completes? ==> registry.finished == old(registry.finished) && registry.taken == old(registry.taken)
    ensures step.Completes? ==>
              forall r | r in registry.finished && r !in old(registry.finished) :: step.caller == Some(r)
    ensures step.Completes? && step.caller.Some? && step.caller.value !in old(registry.finished) + old(registry.taken) ==>
              registry.taken == old(registry.taken)
    ensures forall r | r in registry.taken && r !in old(registry.taken) ::
              r < |registry.registrations| && Foreign(step, registry.registrations[r].id, r)
  {
    hide Marked, Honoured, TombstonesOk, PoppedOk;
    reported := None;
    match step {
      case Registers(id) => var _ := registry.Register(id, now);
      case Completes(id, caller) =>
        if caller.None? || (caller.value < |registry.registrations| && registry.registrations[caller.value].id == id) {
          var _ := registry.CompletePop(id, caller);
        }
      case Sets(r) =>
        if r < |registry.registrations| && registry.registrations[r].popped {
          registry.CompleteSet(r);
        }
      case Cancels(id) => var _ := registry.CancelBegin(id, now);
      case Waits(r) =>
        if r < |registry.registrations| {
          var completed := registry.CancelEnd(r);
          reported := if completed then Some(r) else None;
        }
    }
  }

  /** Any interleaving of any threads, each step after the given number of clock ticks.
      Returned are the registrations that cancels reported idle. If only owners complete,
      each of these had finished; in general it had finished unless some other request
      completed that id. */
  method Interleave(registry: Registry, schedule: seq<(Step, nat)>, start: int) returns (idle: seq<nat>)
    requires registry.Valid() && registry.clock == start
    modifies registry
    ensures registry.Valid() && old(registry.log) <= registry.log
    ensures registry.active.Keys !! registry.cancelledBeforeStart.Keys
    ensures Honoured(registry.log, registry.tombstoneSeconds)
    ensures Grows(old(registry.registrations), registry.registrations)
    ensures forall r | r in idle :: r < |registry.registrations| && registry.registrations[r].completed
    ensures forall r | 0 <= r < |registry.registrations| && registry.registrations[r].completed ::
              r in registry.finished || r in registry.taken
    ensures old(registry.finished) == old(registry.taken) == {} && OwnersOnly(schedule) ==>
              registry.taken == {} && forall r | r in idle :: r in registry.finished
    ensures forall r | r in registry.taken && r !in old(registry.taken) ::
              r < |registry.registrations| && SomeoneElseCalled(schedule, |schedule|, registry.registrations[r].id, r)
  {
    hide Marked, Honoured, TombstonesOk, ActiveOk, PoppedOk, Called, SomeoneElseCalled;
    var now := start;
    idle := [];
    ghost var fair := registry.finished == registry.taken == {} && OwnersOnly(schedule);
    for k := 0 to |schedule|
      invariant registry.Valid() && old(registry.log) <= registry.log && registry.clock <= now
      invariant Grows(old(registry.registrations), registry.registrations)
      invariant forall r | r in idle :: r < |registry.registrations| && registry.registrations[r].completed
      invariant fair ==> registry.taken == {} && forall r | r in registry.finished :: Called(schedule, k, r)
      invariant forall r | r in registry.taken && r !in old(registry.taken) ::
                  r < |registry.registrations| && SomeoneElseCalled(schedule, k, registry.registrations[r].id, r)
    {
      now := now + schedule[k].1;
      ghost var before := registry.registrations;
      CallsGrow(schedule, k);
      if fair && schedule[k].0.Completes? {
        FirstCall(schedule, k);
      }
      var reported := Take(registry, schedule[k].0, now);
      if reported.Some? {
        idle := idle + [reported.value];
      }
      GrowsOn(old(registry.registrations), before, registry.registrations);
    }
    CompletedByWhom(registry);
  }

  lemma CompletedByWhom(registry: Registry)
    requires registry.Valid()
    ensures forall r | 0 <= r < |registry.registrations| && registry.registrations[r].completed ::
              r in registry.finished || r in registry.taken
  {
    hide Marked, Honoured, TombstonesOk, ActiveOk;
  }

  lemma CallsGrow(schedule: seq<(Step, nat)>, n: nat)
    requires n < |schedule|
    ensures forall r: nat :: Called(schedule, n, r) || (schedule[n].0.Completes? && schedule[n].0.caller == Some(r))
                             <==> Called(schedule, n + 1, r)
    ensures forall id, r: nat :: SomeoneElseCalled(schedule, n, id, r) || Foreign(schedule[n].0, id, r)
                                 <==> SomeoneElseCalled(schedule, n + 1, id, r)
  {
  }

  lemma FirstCall(schedule: seq<(Step, nat)>, n: nat)
    requires n < |schedule| && OwnersOnly(schedule) && schedule[n].0.Completes?
    ensures schedule[n].0.caller.Some? && !Called(schedule, n, schedule[n].0.caller.value)
  {
  }

  lemma GrowsOn(a: seq<Registration>, b: seq<Registration>, c: seq<Registration>)
    requires Grows(a, b) && Grows(b, c)
    ensures Grows(a, c)
  {
  }

  /** The handler completes its id even when it has not registered, because its input was
      empty, or its registration was refused as a duplicate: a cancel then reports the first
      request idle while it still runs. */
  method UnregisteredCompletesAnother(duplicate: bool) returns (registry: Registry, idle: bool)
    ensures fresh(registry) && registry.Valid()
    ensures idle && |registry.registrations| == 1 && 0 !in registry.finished
  {
    registry := new Registry(300, 0);
    var first := registry.Register("a", 0);
    if duplicate {
      var second := registry.Register("a", 1);
    }
    var cancel := registry.CancelBegin("a", 2);
    var popped := registry.CompletePop("a", None);
    registry.CompleteSet(popped.value);
    idle := registry.CancelEnd(cancel.registration);
  }
}
