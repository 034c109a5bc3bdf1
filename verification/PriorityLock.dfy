/** The priority lock of the embedding server (packages/code-index/embedding_priority_lock.py).
    A hold is one pass through the context manager; each method is what one thread does while
    it owns the condition variable, so any order of calls is an interleaving. */
module PriorityLock {

  /** Waiting holds sleep until notified; a polling one also wakes up by itself. */
  datatype Phase = Waiting(awake: bool) | Holding | Over

  datatype Hold = Hold(interactive: bool, polling: bool, phase: Phase)

  /** A background thread that sleeps without a timeout. */
  predicate Sleeps(h: Hold) { !h.interactive && !h.polling && h.phase == Waiting(false) }

  predicate SomeoneHolds(holds: seq<Hold>) { exists t | 0 <= t < |holds| :: holds[t].phase.Holding? }

  predicate SomeoneSleeps(holds: seq<Hold>) { exists t | 0 <= t < |holds| :: Sleeps(holds[t]) }

  datatype Event =
    | Starts(hold: nat, interactive: bool)
    | Acquires(hold: nat, interactive: bool)
    | Cancels(hold: nat)
    | Releases(hold: nat)

  datatype Outcome = Acquired | Blocked | Interrupted

  function Waiters(holds: seq<Hold>): nat {
    if holds == [] then 0
    else Waiters(holds[..|holds| - 1])
         + if holds[|holds| - 1].interactive && holds[|holds| - 1].phase.Waiting? then 1 else 0
  }

  function Counts(h: Hold): nat { if h.interactive && h.phase.Waiting? then 1 else 0 }

  lemma WaitersSnoc(holds: seq<Hold>, h: Hold)
    ensures Waiters(holds + [h]) == Waiters(holds) + Counts(h)
  {
    assert (holds + [h])[..|holds|] == holds;
  }

  lemma {:induction false} WaitersUpdate(holds: seq<Hold>, t: nat, h: Hold)
    requires t < |holds|
    ensures Waiters(holds[t := h]) + Counts(holds[t]) == Waiters(holds) + Counts(h)
  {
    var n := |holds| - 1;
    if t == n {
      assert holds[t := h][..n] == holds[..n];
    } else {
      WaitersUpdate(holds[..n], t, h);
      assert holds[t := h][..n] == holds[..n][t := h];
    }
  }

  lemma {:induction false} WaiterCounted(holds: seq<Hold>, t: nat)
    requires t < |holds| && holds[t].interactive && holds[t].phase.Waiting?
    ensures Waiters(holds) > 0
  {
    if t < |holds| - 1 {
      WaiterCounted(holds[..|holds| - 1], t);
    }
  }

  /** The wait of the hold that started at position `i` has ended before position `j`. */
  predicate EndedBetween(log: seq<Event>, i: nat, j: nat)
    requires i < j <= |log| && log[i].Starts?
  {
    exists k | i < k < j :: log[k] == Acquires(log[i].hold, log[i].interactive) || log[k] == Cancels(log[i].hold)
  }

  /** No background hold acquires while an interactive one that started earlier still waits. */
  predicate NoOvertaking(log: seq<Event>) {
    forall i, j | 0 <= i < j < |log| && log[i].Starts? && log[i].interactive && log[j].Acquires? && !log[j].interactive ::
      EndedBetween(log, i, j)
  }

  /** Every interactive start has ended in the log or its hold is still waiting. */
  predicate StartsTracked(log: seq<Event>, holds: seq<Hold>) {
    forall i | 0 <= i < |log| && log[i].Starts? && log[i].interactive ::
      && log[i].hold < |holds|
      && (EndedBetween(log, i, |log|) || (holds[log[i].hold].interactive && holds[log[i].hold].phase.Waiting?))
  }

  lemma EndedExtend(log: seq<Event>, e: Event, i: nat, j: nat)
    requires i < j <= |log| && log[i].Starts?
    ensures EndedBetween(log, i, j) ==> EndedBetween(log + [e], i, j) && EndedBetween(log + [e], i, |log| + 1)
    ensures EndedBetween(log + [e], i, j) ==> EndedBetween(log, i, j)
  {
    var log' := log + [e];
    if EndedBetween(log, i, j) {
      var k :| i < k < j && (log[k] == Acquires(log[i].hold, log[i].interactive) || log[k] == Cancels(log[i].hold));
      assert log'[k] == log[k];
    }
    if EndedBetween(log', i, j) {
      var k :| i < k < j && (log'[k] == Acquires(log'[i].hold, log'[i].interactive) || log'[k] == Cancels(log'[i].hold));
      assert log'[k] == log[k];
    }
  }

  /** Appending an event keeps the order property unless it is a background acquisition that
      some interactive start has not been answered for. */
  lemma LogEvent(log: seq<Event>, e: Event)
    requires NoOvertaking(log)
    requires e.Acquires? && !e.interactive ==>
               forall i | 0 <= i < |log| && log[i].Starts? && log[i].interactive :: EndedBetween(log, i, |log|)
    ensures NoOvertaking(log + [e])
  {
    var log' := log + [e];
    forall i, j | 0 <= i < j < |log'| && log'[i].Starts? && log'[i].interactive && log'[j].Acquires? && !log'[j].interactive
      ensures EndedBetween(log', i, j)
    {
      assert log'[i] == log[i];
      EndedExtend(log, e, i, j);
    }
  }

  /** A hold that no longer waits must have said so in the log. */
  lemma TrackEvent(log: seq<Event>, holds: seq<Hold>, e: Event, holds': seq<Hold>, t: nat)
    requires StartsTracked(log, holds) && |holds| <= |holds'|
    requires forall u | 0 <= u < |holds| && u != t :: holds'[u].interactive == holds[u].interactive
                                                      && holds'[u].phase.Waiting? == holds[u].phase.Waiting?
    requires || e == Starts(t, false)
             || (e == Starts(t, true) && t < |holds'| && holds'[t].interactive && holds'[t].phase.Waiting?)
             || e.Releases?
             || e == Cancels(t)
             || (t < |holds| && e == Acquires(t, holds[t].interactive))
    requires e.Starts? ==> t == |holds|
    requires e.Releases? ==> t < |holds| && !holds[t].phase.Waiting?
    ensures StartsTracked(log + [e], holds')
  {
    var log' := log + [e];
    forall i | 0 <= i < |log'| && log'[i].Starts? && log'[i].interactive
      ensures log'[i].hold < |holds'|
              && (EndedBetween(log', i, |log'|) || (holds'[log'[i].hold].interactive && holds'[log'[i].hold].phase.Waiting?))
    {
      if i < |log| {
        assert log'[i] == log[i];
        EndedExtend(log, e, i, |log|);
        if log[i].hold == t && !EndedBetween(log, i, |log|) {
          assert log'[|log|] == e;
        }
      }
    }
  }

  lemma StillTracked(log: seq<Event>, holds: seq<Hold>, t: nat, h: Hold)
    requires StartsTracked(log, holds) && t < |holds| && holds[t].phase.Waiting?
    requires h.phase.Waiting? && h.interactive == holds[t].interactive
    ensures StartsTracked(log, holds[t := h])
  {
  }

  lemma HoldersAfter(holds: seq<Hold>, t: nat, h: Hold)
    requires t < |holds| && !holds[t].phase.Holding?
    ensures SomeoneHolds(holds[t := h]) <==> h.phase.Holding? || SomeoneHolds(holds)
  {
    if SomeoneHolds(holds) {
      var u :| 0 <= u < |holds| && holds[u].phase.Holding?;
      assert holds[t := h][u] == holds[u];
    }
    if h.phase.Holding? {
      assert holds[t := h][t] == h;
    }
  }

  class Lock {
    var active: bool
    var interactiveWaiters: int
    var holds: seq<Hold>        // every thread that ever entered, with what it is doing
    ghost var log: seq<Event>

    ghost predicate Valid()
      reads this
    {
      && interactiveWaiters == Waiters(holds)
      && (active <==> SomeoneHolds(holds))
      && (forall t, u | 0 <= t < u < |holds| :: !(holds[t].phase.Holding? && holds[u].phase.Holding?))
      && NoOvertaking(log)
      && StartsTracked(log, holds)
    }

    /** Nothing keeps a sleeping background thread from the lock, but it stays asleep until
        some other thread comes and releases. */
    ghost predicate Stuck()
      reads this
    {
      !active && interactiveWaiters == 0 && SomeoneSleeps(holds)
    }

    constructor ()
      ensures Valid() && !active && interactiveWaiters == 0 && holds == [] && log == []
    {
      active, interactiveWaiters, holds, log := false, 0, [], [];
    }

    /** Entering `hold`, up to the first wait or the acquisition. */
    method Enter(interactive: bool, polling: bool, cancelled: bool) returns (t: nat, outcome: Outcome)
      requires Valid()
      requires cancelled ==> polling
      modifies this
      ensures Valid() && t == |old(holds)| && |holds| == t + 1
      ensures holds[t] == Hold(interactive, polling, PhaseAfter(outcome))
      ensures forall u | 0 <= u < t :: holds[u] == old(holds)[u]
      ensures outcome == Decide(old(active) || (!interactive && old(interactiveWaiters) > 0), cancelled)
      ensures active == (old(active) || outcome.Acquired?)
      ensures interactiveWaiters == old(interactiveWaiters) + if interactive && outcome.Blocked? then 1 else 0
      ensures log == old(log) + [Starts(t, interactive)] + Noted(t, interactive, outcome)
      ensures Stuck() ==> old(Stuck())
    {
      hide NoOvertaking, StartsTracked, Waiters, SomeoneSleeps;
      t := |holds|;
      var h := Hold(interactive, polling, Waiting(true));
      WaitersSnoc(holds, h);
      NoNewSleeper(holds, h);
      LogEvent(log, Starts(t, interactive));
      TrackEvent(log, holds, Starts(t, interactive), holds + [h], t);
      if interactive {
        interactiveWaiters := interactiveWaiters + 1;
      }
      holds, log := holds + [h], log + [Starts(t, interactive)];
      outcome := Check(t, interactive, cancelled);
    }

    /** The loop test after entering or waking up. */
    method Check(t: nat, interactive: bool, cancelled: bool) returns (outcome: Outcome)
      requires Valid() && t < |holds| && holds[t].phase.Waiting? && holds[t].interactive == interactive
      requires cancelled ==> holds[t].polling
      modifies this
      ensures Valid() && |holds| == |old(holds)|
      ensures holds == old(holds)[t := old(holds)[t].(phase := PhaseAfter(outcome))]
      ensures outcome == Decide(old(active) || (!interactive && old(interactiveWaiters) > 0), cancelled)
      ensures active == (old(active) || outcome.Acquired?)
      ensures interactiveWaiters == old(interactiveWaiters) - if interactive && !outcome.Blocked? then 1 else 0
      ensures log == old(log) + Noted(t, interactive, outcome)
      // the exact way to lose a wake-up: the last interactive waiter is cancelled while the
      // lock is free and a background thread sleeps
      ensures !old(Stuck()) ==> (Stuck() <==>
                && cancelled && interactive && !old(active) && old(interactiveWaiters) == 1
                && SomeoneSleeps(old(holds)))
    {
      hide NoOvertaking, StartsTracked, Waiters, SomeoneSleeps;
      outcome := if cancelled then Interrupted
                 else if active || (!interactive && interactiveWaiters > 0) then Blocked
                 else Acquired;
      var h := holds[t].(phase := PhaseAfter(outcome));
      WaitersUpdate(holds, t, h);
      SleepersKept(holds, t, outcome);
      if outcome.Acquired? {
        if !interactive {
          AllAnswered();
        }
        LogEvent(log, Acquires(t, interactive));
        TrackEvent(log, holds, Acquires(t, interactive), holds[t := h], t);
        log := log + [Acquires(t, interactive)];
        active := true;
      } else if outcome.Interrupted? {
        LogEvent(log, Cancels(t));
        TrackEvent(log, holds, Cancels(t), holds[t := h], t);
        log := log + [Cancels(t)];
      } else {
        assert log + [] == log;
        StillTracked(log, holds, t, h);
      }
      if interactive && !outcome.Blocked? {
        interactiveWaiters := interactiveWaiters - 1;
      }
      HoldersAfter(holds, t, h);
      holds := holds[t := h];
    }

    lemma AllAnswered()
      requires Valid() && interactiveWaiters == 0
      ensures forall i | 0 <= i < |log| && log[i].Starts? && log[i].interactive :: EndedBetween(log, i, |log|)
    {
      forall i | 0 <= i < |log| && log[i].Starts? && log[i].interactive ensures EndedBetween(log, i, |log|) {
        if holds[log[i].hold].interactive && holds[log[i].hold].phase.Waiting? {
          WaiterCounted(holds, log[i].hold);
        }
      }
    }

    /** Leaving `hold`: everybody who waits is woken. */
    method Release(t: nat)
      requires Valid() && t < |holds| && holds[t].phase.Holding?
      modifies this
      ensures Valid() && !active && !Stuck() && interactiveWaiters == old(interactiveWaiters)
      ensures holds == Woken(old(holds))[t := old(holds)[t].(phase := Over)] && log == old(log) + [Releases(t)]
    {
      LogEvent(log, Releases(t));
      var woken := Woken(holds);
      WokenWaiters(holds);
      WaitersUpdate(woken, t, holds[t].(phase := Over));
      TrackEvent(log, holds, Releases(t), woken[t := holds[t].(phase := Over)], t);
      active := false;
      log := log + [Releases(t)];
      holds := woken[t := holds[t].(phase := Over)];
    }

    /** If every thread polls, as the server's all do, no wake-up can be lost. */
    lemma PollingIsNeverStuck()
      requires forall t | 0 <= t < |holds| :: holds[t].polling
      ensures !Stuck()
    {
    }
  }

  /** What a thread does next: start a hold, test again after waking up, or leave its hold. */
  datatype Step = Start(interactive: bool, polling: bool, cancelled: bool) | Wake(t: nat, cancelled: bool) | Leave(t: nat)

  /** Any interleaving of any number of threads, the steps that apply being taken in order. */
  method Interleave(lock: Lock, schedule: seq<Step>)
    requires lock.Valid()
    modifies lock
    ensures lock.Valid() && |lock.holds| >= |old(lock.holds)|
    ensures old(lock.log) <= lock.log && NoOvertaking(lock.log)
    ensures lock.interactiveWaiters == Waiters(lock.holds)
    ensures forall t, u | 0 <= t < u < |lock.holds| :: !(lock.holds[t].phase.Holding? && lock.holds[u].phase.Holding?)
    // wake-ups are not lost if every thread polls, nor if nobody is cancelled while waiting
    ensures (forall step | step in schedule :: step.Start? ==> step.polling) && (forall h | h in old(lock.holds) :: h.polling)
            ==> !lock.Stuck()
    ensures !old(lock.Stuck()) && (forall step | step in schedule :: step.Wake? ==> !step.cancelled) ==> !lock.Stuck()
  {
    hide Waiters, NoOvertaking, StartsTracked, SomeoneSleeps;
    ghost var allPoll := (forall step | step in schedule :: step.Start? ==> step.polling) && (forall h | h in lock.holds :: h.polling);
    for k := 0 to |schedule|
      invariant lock.Valid() && old(lock.log) <= lock.log && |lock.holds| >= |old(lock.holds)|
      invariant allPoll ==> forall t | 0 <= t < |lock.holds| :: lock.holds[t].polling
      invariant !old(lock.Stuck()) && (forall step | step in schedule :: step.Wake? ==> !step.cancelled) ==> !lock.Stuck()
    {
      match schedule[k] {
        case Start(interactive, polling, cancelled) =>
          var t, outcome := lock.Enter(interactive, polling, cancelled && polling);
        case Wake(t, cancelled) =>
          if t < |lock.holds| && lock.holds[t].phase.Waiting? {
            var outcome := lock.Check(t, lock.holds[t].interactive, cancelled && lock.holds[t].polling);
          }
        case Leave(t) =>
          if t < |lock.holds| && lock.holds[t].phase.Holding? {
            lock.Release(t);
          }
      }
    }
    if allPoll {
      lock.PollingIsNeverStuck();
    }
  }

  lemma {:induction false} SomeWaiter(holds: seq<Hold>) returns (u: nat)
    requires Waiters(holds) > 0
    ensures u < |holds| && holds[u].interactive && holds[u].phase.Waiting?
  {
    u := |holds| - 1;
    if !(holds[u].interactive && holds[u].phase.Waiting?) {
      u := SomeWaiter(holds[..u]);
    }
  }

  /** The first interactive thread that waits. */
  method FindWaiter(lock: Lock) returns (u: nat)
    requires lock.Valid() && lock.interactiveWaiters > 0
    ensures u < |lock.holds| && lock.holds[u].interactive && lock.holds[u].phase.Waiting?
  {
    ghost var some := SomeWaiter(lock.holds);
    u := 0;
    while !(lock.holds[u].interactive && lock.holds[u].phase.Waiting?)
      invariant u <= some < |lock.holds| && lock.holds[some].interactive && lock.holds[some].phase.Waiting?
      decreases some - u
    {
      u := u + 1;
    }
  }

  /** Progress: from every state in which nobody holds the lock, a waiting background thread
      has it as soon as the interactive threads that wait have each had their turn, and not
      before. Nobody needs to be notified, only to test again, as polling threads do. */
  method TakeTurns(lock: Lock, t: nat) returns (turns: seq<nat>)
    requires lock.Valid() && !lock.active
    requires t < |lock.holds| && !lock.holds[t].interactive && lock.holds[t].phase.Waiting?
    modifies lock
    ensures lock.Valid() && |lock.holds| == |old(lock.holds)|
    ensures lock.active && lock.holds[t].phase.Holding?
    ensures |turns| == old(lock.interactiveWaiters) && lock.interactiveWaiters == 0
    ensures lock.log == old(lock.log) + TurnsLog(turns) + [Acquires(t, false)]
  {
    hide NoOvertaking, StartsTracked, Waiters, SomeoneHolds;
    turns := [];
    assert lock.log == lock.log + TurnsLog(turns);
    while lock.interactiveWaiters > 0
      invariant lock.Valid() && !lock.active && |lock.holds| == |old(lock.holds)|
      invariant !lock.holds[t].interactive && lock.holds[t].phase.Waiting?
      invariant lock.interactiveWaiters == old(lock.interactiveWaiters) - |turns|
      invariant lock.log == old(lock.log) + TurnsLog(turns)
      decreases lock.interactiveWaiters
    {
      var u := FindWaiter(lock);
      var _ := lock.Check(u, true, false);
      lock.Release(u);
      assert (turns + [u])[..|turns|] == turns;
      turns := turns + [u];
    }
    var _ := lock.Check(t, false, false);
  }

  function TurnsLog(turns: seq<nat>): seq<Event> {
    if turns == [] then []
    else TurnsLog(turns[..|turns| - 1]) + [Acquires(turns[|turns| - 1], true), Releases(turns[|turns| - 1])]
  }

  function PhaseAfter(o: Outcome): Phase {
    match o
    case Acquired => Holding
    case Blocked => Waiting(false)
    case Interrupted => Over
  }

  function Noted(t: nat, interactive: bool, o: Outcome): seq<Event> {
    match o
    case Acquired => [Acquires(t, interactive)]
    case Blocked => []
    case Interrupted => [Cancels(t)]
  }

  function Decide(blocked: bool, cancelled: bool): Outcome {
    if cancelled then Interrupted else if blocked then Blocked else Acquired
  }

  /** notify_all */
  function Woken(holds: seq<Hold>): (woken: seq<Hold>)
    ensures |woken| == |holds|
    ensures forall t | 0 <= t < |holds| ::
              woken[t] == if holds[t].phase.Waiting? then holds[t].(phase := Waiting(true)) else holds[t]
  {
    seq(|holds|, t requires 0 <= t < |holds| => if holds[t].phase.Waiting? then holds[t].(phase := Waiting(true)) else holds[t])
  }

  lemma {:induction false} WokenWaiters(holds: seq<Hold>)
    ensures Waiters(Woken(holds)) == Waiters(holds)
  {
    if holds != [] {
      WokenWaiters(holds[..|holds| - 1]);
      assert Woken(holds)[..|holds| - 1] == Woken(holds[..|holds| - 1]);
    }
  }

  lemma NoNewSleeper(holds: seq<Hold>, h: Hold)
    requires !Sleeps(h)
    ensures SomeoneSleeps(holds + [h]) <==> SomeoneSleeps(holds)
  {
    var more := holds + [h];
    if SomeoneSleeps(holds) {
      var u :| 0 <= u < |holds| && Sleeps(holds[u]);
      assert Sleeps(more[u]);
    }
  }

  lemma SleepersKept(holds: seq<Hold>, t: nat, outcome: Outcome)
    requires t < |holds|
    ensures var after := holds[t := holds[t].(phase := PhaseAfter(outcome))];
            && (SomeoneSleeps(after) && (holds[t].interactive || !outcome.Blocked?) ==> SomeoneSleeps(holds))
            && (SomeoneSleeps(holds) && holds[t].interactive ==> SomeoneSleeps(after))
  {
    var after := holds[t := holds[t].(phase := PhaseAfter(outcome))];
    if SomeoneSleeps(after) && (holds[t].interactive || !outcome.Blocked?) {
      var u :| 0 <= u < |after| && Sleeps(after[u]);
      assert Sleeps(holds[u]);
    }
    if SomeoneSleeps(holds) && holds[t].interactive {
      var u :| 0 <= u < |holds| && Sleeps(holds[u]);
      assert Sleeps(after[u]);
    }
  }

  /** A run that ends with the lock free, nobody ahead, and a background thread asleep until
      some later release: its wake-up was spent on an interactive waiter that then cancelled. */
  method LostWakeUp() returns (lock: Lock)
    ensures fresh(lock) && lock.Valid() && lock.Stuck()
  {
    lock := new Lock();
    var holder, waiter, sleeper: nat;
    var outcome;
    holder, outcome := lock.Enter(true, false, false);
    waiter, outcome := lock.Enter(true, true, false);
    sleeper, outcome := lock.Enter(false, false, false);
    lock.Release(holder);
    outcome := lock.Check(sleeper, false, false);
    outcome := lock.Check(waiter, true, true);
    assert Sleeps(lock.holds[sleeper]);
  }

  // ---- run

  datatype Result<+T> = Returned(output: seq<T>) | CancelledNow

  /** The operation treats every item on its own. */
  ghost predicate Pointwise<I(!new), O(!new)>(operation: seq<I> -> seq<O>, f: I -> O) {
    forall items :: |operation(items)| == |items| && forall i | 0 <= i < |items| :: operation(items)[i] == f(items[i])
  }

  /** An interactive request holds the lock once, a background one once per item; `cancelled(k)`
      says whether the k-th hold ends in a cancellation. Both return the same list. */
  method Run<I(!new), O(!new)>(items: seq<I>, operation: seq<I> -> seq<O>, ghost f: I -> O, interactive: bool, cancelled: nat -> bool)
    returns (result: Result<O>)
    requires interactive || Pointwise(operation, f)
    ensures result.CancelledNow? <==> exists k | 0 <= k < (if interactive then 1 else |items|) :: cancelled(k)
    ensures result.Returned? ==> result.output == operation(items)
  {
    if interactive {
      var output := operation(items);
      return if cancelled(0) then CancelledNow else Returned(output);
    }
    var output: seq<O> := [];
    for i := 0 to |items|
      invariant |output| == i && forall j | 0 <= j < i :: output[j] == f(items[j])
      invariant forall j | 0 <= j < i :: !cancelled(j)
    {
      assert |operation([items[i]])| == 1 && operation([items[i]])[0] == f(items[i]);
      output := output + operation([items[i]]);
      if cancelled(i) {
        return CancelledNow;
      }
    }
    assert |operation(items)| == |items|;
    result := Returned(output);
  }
}
