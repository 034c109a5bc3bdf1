/** The encode loop of the embedding server with its out-of-memory backoff
    (packages/code-index/embedding_server.py). The model is an oracle: each call succeeds
    for every text of its batch, or raises out-of-memory, or raises something else. */
module EmbeddingServer {
  import opened RuntimePlan
  import opened Options

  type Text = string
  type Vector = int

  datatype CallResult = Success | OutOfMemory | OtherError

  datatype Error = NotLoaded | Cancelled | ModelError | MemoryPressure | OutOfMemoryAtOne | MoveFailed

  datatype Reply = Ok(vectors: seq<Vector>) | Raised(error: Error)

  /** Everything one request meets: the outcome and vectors of the k-th model call, the
      cancellation checks before and after it, the memory readings, and whether moving the
      model to the CPU raises. */
  datatype Env = Env(
    result: nat -> CallResult, vector: (nat, Text) -> Vector,
    cancelledAtStart: bool, cancelledBefore: nat -> bool, cancelledAfter: nat -> bool,
    memory: Memory, cpuMemory: Memory, cpuMemoryAfterOom: Memory, moveRaises: bool)

  // ---- the history of a server

  datatype Event =
    | CeilingSet(ceiling: nat)   // a batch ran out of memory and halved the ceiling
    | Called(batch: nat)         // a model call
    | CleanRequest               // a request completed without running out of memory
    | MovedToCpu

  function CleanRequests(log: seq<Event>): nat {
    if log == [] then 0 else CleanRequests(log[..|log| - 1]) + if log[|log| - 1].CleanRequest? then 1 else 0
  }

  /** No call exceeds a ceiling until eight clean requests or a move to the CPU after it. */
  predicate CeilingsRespected(log: seq<Event>) {
    forall i, j | 0 <= i < j < |log| && log[i].CeilingSet? && log[j].Called? && log[j].batch > log[i].ceiling ::
      MovedToCpu in log[i..j] || CleanRequests(log[i..j]) >= 8
  }

  /** The ceiling in force still bounds every earlier one that has not expired. */
  predicate CeilingCovers(log: seq<Event>, ceiling: Option<nat>, clean: nat) {
    forall i | 0 <= i < |log| && log[i].CeilingSet? ::
      || MovedToCpu in log[i..] || CleanRequests(log[i..]) >= 8
      || (ceiling.Some? && ceiling.value <= log[i].ceiling && clean <= CleanRequests(log[i..]))
  }

  lemma CleanSnoc(log: seq<Event>, e: Event)
    ensures CleanRequests(log + [e]) == CleanRequests(log) + if e.CleanRequest? then 1 else 0
  {
    assert (log + [e])[..|log|] == log;
  }

  lemma SuffixSnoc(log: seq<Event>, e: Event, i: nat)
    requires i < |log|
    ensures (log + [e])[i..] == log[i..] + [e]
    ensures CleanRequests((log + [e])[i..]) == CleanRequests(log[i..]) + if e.CleanRequest? then 1 else 0
    ensures MovedToCpu in (log + [e])[i..] <==> MovedToCpu in log[i..] || e.MovedToCpu?
  {
    CleanSnoc(log[i..], e);
  }

  lemma LogCall(log: seq<Event>, ceiling: Option<nat>, clean: nat, batch: nat)
    requires CeilingsRespected(log) && CeilingCovers(log, ceiling, clean)
    requires ceiling.Some? ==> batch <= ceiling.value
    ensures CeilingsRespected(log + [Called(batch)]) && CeilingCovers(log + [Called(batch)], ceiling, clean)
  {
    var log' := log + [Called(batch)];
    forall i | 0 <= i < |log'| && log'[i].CeilingSet?
      ensures MovedToCpu in log'[i..] || CleanRequests(log'[i..]) >= 8
              || (ceiling.Some? && ceiling.value <= log'[i].ceiling && clean <= CleanRequests(log'[i..]))
    {
      SuffixSnoc(log, Called(batch), i);
    }
    forall i, j | 0 <= i < j < |log'| && log'[i].CeilingSet? && log'[j].Called? && log'[j].batch > log'[i].ceiling
      ensures MovedToCpu in log'[i..j] || CleanRequests(log'[i..j]) >= 8
    {
      assert log'[i..j] == if j < |log| then log[i..j] else log[i..];
    }
  }

  lemma LogOther(log: seq<Event>, e: Event)
    requires CeilingsRespected(log) && !e.Called?
    ensures CeilingsRespected(log + [e])
  {
    var log' := log + [e];
    forall i, j | 0 <= i < j < |log'| && log'[i].CeilingSet? && log'[j].Called? && log'[j].batch > log'[i].ceiling
      ensures MovedToCpu in log'[i..j] || CleanRequests(log'[i..j]) >= 8
    {
      assert log'[i..j] == log[i..j];
    }
  }

  lemma LogCeiling(log: seq<Event>, ceiling: Option<nat>, clean: nat, c: nat)
    requires CeilingsRespected(log) && CeilingCovers(log, ceiling, clean)
    requires ceiling.Some? ==> c <= ceiling.value
    ensures CeilingsRespected(log + [CeilingSet(c)]) && CeilingCovers(log + [CeilingSet(c)], Some(c), 0)
  {
    LogOther(log, CeilingSet(c));
    var log' := log + [CeilingSet(c)];
    forall i | 0 <= i < |log'| && log'[i].CeilingSet?
      ensures MovedToCpu in log'[i..] || CleanRequests(log'[i..]) >= 8 || c <= log'[i].ceiling
    {
      if i < |log| {
        SuffixSnoc(log, CeilingSet(c), i);
      }
    }
  }

  lemma LogMove(log: seq<Event>)
    requires CeilingsRespected(log)
    ensures CeilingsRespected(log + [MovedToCpu]) && CeilingCovers(log + [MovedToCpu], None, 0)
  {
    LogOther(log, MovedToCpu);
    var log' := log + [MovedToCpu];
    forall i | 0 <= i < |log'| && log'[i].CeilingSet? ensures MovedToCpu in log'[i..] {
      assert log'[i..][|log'| - 1 - i] == MovedToCpu;
    }
  }

  lemma LogClean(log: seq<Event>, ceiling: Option<nat>, clean: nat)
    requires CeilingsRespected(log) && CeilingCovers(log, ceiling, clean)
    ensures CeilingsRespected(log + [CleanRequest]) && CeilingCovers(log + [CleanRequest], ceiling, clean + 1)
    ensures clean + 1 >= 8 ==> CeilingCovers(log + [CleanRequest], None, 0)
  {
    LogOther(log, CleanRequest);
    var log' := log + [CleanRequest];
    forall i | 0 <= i < |log'| && log'[i].CeilingSet?
      ensures MovedToCpu in log'[i..] || CleanRequests(log'[i..]) >= 8
              || (ceiling.Some? && ceiling.value <= log'[i].ceiling && clean + 1 <= CleanRequests(log'[i..]))
    {
      SuffixSnoc(log, CleanRequest, i);
    }
  }

  // ---- bounding the backoffs

  function Log2(n: nat): nat
    requires n > 0
  {
    if n == 1 then 0 else 1 + Log2(n / 2)
  }

  lemma {:induction false} Log2Monotone(a: nat, b: nat)
    requires 0 < a <= b
    ensures Log2(a) <= Log2(b)
  {
    if a > 1 {
      Log2Monotone(a / 2, b / 2);
    }
  }

  /** How often a request can still run out of memory before it must give up. */
  function BackoffsLeft(onCpu: bool, batch: nat, cpuBatch: nat): (left: nat)
    requires batch > 0
    ensures left >= 1
  {
    Log2(batch) + 1 + if onCpu || cpuBatch == 0 then 0 else Log2(cpuBatch) + 1
  }

  // ---- what a request returns

  /** A successful model call: which one, and the texts it covered. */
  datatype Call = Call(attempt: nat, offset: nat, size: nat)

  /** The calls cover the first `n` texts once, in order, and each succeeded. */
  predicate Covers(env: Env, calls: seq<Call>, n: nat) {
    && (if calls == [] then n == 0 else calls[0].offset == 0 && calls[|calls| - 1].offset + calls[|calls| - 1].size == n)
    && (forall k | 0 <= k < |calls| :: calls[k].size > 0 && env.result(calls[k].attempt).Success?)
    && (forall k | 0 <= k < |calls| - 1 ::
          calls[k + 1].offset == calls[k].offset + calls[k].size && calls[k].attempt < calls[k + 1].attempt)
  }

  /** The output holds, for each text of the call, the vector the call gave for it. */
  predicate AnsweredBy(env: Env, texts: seq<Text>, c: Call, output: seq<Vector>) {
    && c.offset + c.size <= |texts| && c.offset + c.size <= |output|
    && forall i | c.offset <= i < c.offset + c.size :: output[i] == env.vector(c.attempt, texts[i])
  }

  predicate Answers(env: Env, texts: seq<Text>, calls: seq<Call>, output: seq<Vector>) {
    forall k | 0 <= k < |calls| :: AnsweredBy(env, texts, calls[k], output)
  }

  /** A reply holds one vector per text, each from the one successful call that covered it. */
  ghost predicate IsRight(env: Env, texts: seq<Text>, reply: Reply) {
    reply.Ok? ==> |reply.vectors| == |texts|
                  && exists calls :: Covers(env, calls, |texts|) && Answers(env, texts, calls, reply.vectors)
  }

  lemma {:induction false} CallsInRange(env: Env, calls: seq<Call>, n: nat, k: nat)
    requires Covers(env, calls, n) && k < |calls|
    ensures calls[k].offset + calls[k].size <= n
    decreases |calls| - k
  {
    if k + 1 < |calls| {
      CallsInRange(env, calls, n, k + 1);
    }
  }

  lemma {:induction false} CallsAreOrdered(env: Env, calls: seq<Call>, n: nat, k: nat, l: nat)
    requires Covers(env, calls, n) && k < l < |calls|
    ensures calls[k].offset + calls[k].size <= calls[l].offset
    decreases l - k
  {
    if k + 1 < l {
      CallsAreOrdered(env, calls, n, k + 1, l);
    }
  }

  /** Every text is covered by exactly one successful call. */
  lemma {:induction false} ExactlyOneCall(env: Env, calls: seq<Call>, n: nat, i: nat) returns (k: nat)
    requires Covers(env, calls, n) && i < n
    ensures k < |calls| && calls[k].offset <= i < calls[k].offset + calls[k].size
    ensures forall l | 0 <= l < |calls| && calls[l].offset <= i < calls[l].offset + calls[l].size :: l == k
    decreases |calls|
  {
    k := |calls| - 1;
    if i < calls[k].offset {
      var fewer := calls[..k];
      assert fewer != [] && fewer[|fewer| - 1] == calls[k - 1];
      k := ExactlyOneCall(env, fewer, calls[k].offset, i);
    }
    forall l | 0 <= l < |calls| && calls[l].offset <= i < calls[l].offset + calls[l].size ensures l == k {
      if l < k {
        CallsAreOrdered(env, calls, n, l, k);
      } else if k < l {
        CallsAreOrdered(env, calls, n, k, l);
      }
    }
  }

  /** The pointwise result of a successful call. */
  function Vectors(env: Env, attempt: nat, texts: seq<Text>): (vs: seq<Vector>)
    ensures |vs| == |texts| && forall i | 0 <= i < |texts| :: vs[i] == env.vector(attempt, texts[i])
  {
    seq(|texts|, i requires 0 <= i < |texts| => env.vector(attempt, texts[i]))
  }

  lemma OneMoreCovers(env: Env, calls: seq<Call>, n: nat, c: Call)
    requires Covers(env, calls, n) && c.offset == n && c.size > 0 && env.result(c.attempt).Success?
    requires calls != [] ==> calls[|calls| - 1].attempt < c.attempt
    ensures Covers(env, calls + [c], n + c.size)
  {
    var more := calls + [c];
    forall k | 0 <= k < |more| - 1
      ensures more[k + 1].offset == more[k].offset + more[k].size && more[k].attempt < more[k + 1].attempt
    {
      assert more[k] == calls[k];
      if k + 1 < |calls| {
        assert more[k + 1] == calls[k + 1];
      }
    }
  }

  lemma OneMoreAnswer(env: Env, texts: seq<Text>, calls: seq<Call>, output: seq<Vector>, c: Call)
    requires Covers(env, calls, |output|) && Answers(env, texts, calls, output)
    requires c.offset == |output| && c.offset + c.size <= |texts|
    ensures Answers(env, texts, calls + [c], output + Vectors(env, c.attempt, texts[c.offset..c.offset + c.size]))
  {
    var vectors := Vectors(env, c.attempt, texts[c.offset..c.offset + c.size]);
    var out, more := output + vectors, calls + [c];
    forall k | 0 <= k < |more| ensures AnsweredBy(env, texts, more[k], out) {
      if k < |calls| {
        CallsInRange(env, calls, |output|, k);
        StillAnswered(env, texts, calls[k], output, vectors);
      } else {
        NewlyAnswered(env, texts, c, output, vectors);
      }
    }
  }

  /** After some attempts, all of which the request survived, the calls so far cover and answer
      the first texts. */
  ghost predicate SoFar(env: Env, texts: seq<Text>, calls: seq<Call>, output: seq<Vector>, attempt: nat) {
    && Covers(env, calls, |output|) && Answers(env, texts, calls, output)
    && (calls != [] ==> calls[|calls| - 1].attempt < attempt)
    && forall k | 0 <= k < attempt :: Survives(env, k)
  }

  lemma OneMoreBatch(env: Env, texts: seq<Text>, calls: seq<Call>, output: seq<Vector>, c: Call)
    requires SoFar(env, texts, calls, output, c.attempt) && env.result(c.attempt).Success? && Survives(env, c.attempt)
    requires c.offset == |output| && 0 < c.size && c.offset + c.size <= |texts|
    ensures SoFar(env, texts, calls + [c], output + Vectors(env, c.attempt, texts[c.offset..c.offset + c.size]), c.attempt + 1)
  {
    hide Covers, Answers, Vectors;
    OneMoreCovers(env, calls, |output|, c);
    OneMoreAnswer(env, texts, calls, output, c);
  }

  lemma OneMoreAttempt(env: Env, texts: seq<Text>, calls: seq<Call>, output: seq<Vector>, attempt: nat)
    requires SoFar(env, texts, calls, output, attempt) && Survives(env, attempt)
    ensures SoFar(env, texts, calls, output, attempt + 1)
  {
  }

  lemma SoFarSurvived(env: Env, texts: seq<Text>, calls: seq<Call>, output: seq<Vector>, attempt: nat)
    requires SoFar(env, texts, calls, output, attempt)
    ensures forall k | 0 <= k < attempt :: Survives(env, k)
  {
  }

  lemma OneMoreFull(calls: seq<Call>, batch: nat, n: nat, c: Call)
    requires FullBatches(calls, batch, n) && c.offset <= n && c.size == Min(batch, n - c.offset)
    ensures FullBatches(calls + [c], batch, n)
  {
  }

  lemma StillAnswered(env: Env, texts: seq<Text>, c: Call, output: seq<Vector>, more: seq<Vector>)
    requires AnsweredBy(env, texts, c, output)
    ensures AnsweredBy(env, texts, c, output + more)
  {
  }

  lemma NewlyAnswered(env: Env, texts: seq<Text>, c: Call, output: seq<Vector>, vectors: seq<Vector>)
    requires c.offset == |output| && c.offset + c.size <= |texts|
    requires vectors == Vectors(env, c.attempt, texts[c.offset..c.offset + c.size])
    ensures AnsweredBy(env, texts, c, output + vectors)
  {
    var out := output + vectors;
    forall i | c.offset <= i < c.offset + c.size ensures out[i] == env.vector(c.attempt, texts[i]) {
      assert texts[i] == texts[c.offset..c.offset + c.size][i - c.offset];
    }
  }

  // ---- when a request is answered

  /** The request goes on after its k-th model call: not cancelled, and the call succeeded or ran
      out of memory. */
  predicate Survives(env: Env, k: nat) {
    !env.cancelledBefore(k) && (env.result(k).OutOfMemory? || (env.result(k).Success? && !env.cancelledAfter(k)))
  }

  /** The k-th call, or a check around it, is a reason to raise the error. */
  predicate StopsWith(env: Env, k: nat, error: Error) {
    match error
    case Cancelled => env.cancelledBefore(k) || (env.result(k).Success? && env.cancelledAfter(k))
    case ModelError => !env.cancelledBefore(k) && env.result(k).OtherError?
    case OutOfMemoryAtOne | MoveFailed => !env.cancelledBefore(k) && env.result(k).OutOfMemory?
    case _ => false
  }

  /** What one attempt leads to: a batch done, another attempt, or the end. */
  datatype Step = Done | Again | Failed(error: Error)

  /** Nothing goes wrong and nobody cancels. */
  predicate IsUntroubled(env: Env, k: nat) { env.result(k).Success? && !env.cancelledBefore(k) && !env.cancelledAfter(k) }

  /** The batches are as large as they may be. */
  predicate FullBatches(calls: seq<Call>, batch: nat, n: nat) {
    forall i | 0 <= i < |calls| :: calls[i].offset <= n && calls[i].size == Min(batch, n - calls[i].offset)
  }

  // ---- the server

  /** The requested devices that may end up on the CPU. */
  predicate MayFallBack(device: string) { device == "auto" || device == "cpu" || device == "intel-openvino-cpu" }

  /** The backend that was selected, with its memory, and whether selecting it was a fallback. */
  datatype Selection = Selection(backend: Backend, memory: Memory, fellBack: bool)

  /** What loading the model meets: does it raise, does the loader itself fall back to the CPU,
      and for the second attempt the system memory and whether that raises too. */
  datatype Loading = Loading(raises: bool, fellBack: bool, cpuMemory: Memory, cpuRaises: bool)

  /** The settings with the loaded model's own size and the tokenizer's sequence length. */
  predicate Refines(before: Settings, after: Settings) {
    && ValidSettings(after)
    && after == before.(modelParameterCount := after.modelParameterCount, sequenceScale := after.sequenceScale,
                        modelScale := after.modelScale)
  }

  lemma RefinedIsValid(before: Settings, after: Settings)
    requires Refines(before, after)
    ensures ValidSettings(after)
  {
  }

  class Server {
    var settings: Settings
    var loaded: bool
    var plan: Option<Plan>
    var failClosed: bool
    var fallbackOccurred: bool
    var oomBackoffs: nat
    var oomBatchCeiling: Option<nat>
    var successfulRequestsSinceOom: nat
    ghost var log: seq<Event>

    ghost predicate Valid()
      reads this
    {
      && ValidSettings(settings)
      && (loaded ==> plan.Some? && plan.value.usable && plan.value.batchSize >= 1 && plan.value.backend.Some?)
      && (oomBatchCeiling.Some? ==> oomBatchCeiling.value >= 1)
      && CeilingsRespected(log)
      && CeilingCovers(log, oomBatchCeiling, successfulRequestsSinceOom)
    }

    /** The backend the plan runs on. */
    ghost function Backend(): Backend
      requires Valid() && loaded
      reads this
    {
      plan.value.backend.value
    }

    constructor (settings: Settings)
      requires ValidSettings(settings)
      ensures Valid() && !loaded && plan.None? && log == []
    {
      this.settings := settings;
      loaded, plan, failClosed, fallbackOccurred := false, None, false, false;
      oomBackoffs, oomBatchCeiling, successfulRequestsSinceOom := 0, None, 0;
      log := [];
    }

    function BuildPlan(backend: Backend, memory: Memory, resident: bool): (p: Plan)
      requires ValidSettings(settings)
      reads `settings
      ensures p.usable ==> p.batchSize >= 1 && (p.backend == Some(backend) || p.backend == Some(Cpu))
      ensures p.usable && backend.FailClosed() ==> p.backend == Some(backend)
    {
      PlanShape(settings, memory, backend, resident);
      BuildRuntimePlan(settings, memory, backend, resident)
    }

    function EffectiveBatchSize(): (batch: nat)
      requires Valid()
      reads this
      ensures loaded ==> batch >= 1
      ensures plan.Some? ==> batch <= plan.value.batchSize
      ensures plan.Some? && oomBatchCeiling.Some? ==> batch <= oomBatchCeiling.value
      ensures plan.Some? ==> batch == plan.value.batchSize || oomBatchCeiling == Some(batch)
    {
      if plan.None? then 1
      else if oomBatchCeiling.None? then plan.value.batchSize
      else Min(plan.value.batchSize, oomBatchCeiling.value)
    }

    method MoveModelToCpu(cpuPlan: Plan, raises: bool) returns (ok: bool)
      requires Valid() && loaded && cpuPlan.usable && cpuPlan.batchSize >= 1 && cpuPlan.backend == Some(Cpu)
      modifies this
      ensures Valid() && loaded && unchanged(`settings, `failClosed, `oomBackoffs)
      ensures ok == !raises
      ensures ok ==> plan == Some(cpuPlan) && oomBatchCeiling.None? && fallbackOccurred && log == old(log) + [MovedToCpu]
      ensures !ok ==> unchanged(this)
    {
      if raises {
        return false;
      }
      LogMove(log);
      plan := Some(cpuPlan);
      oomBatchCeiling := None;
      successfulRequestsSinceOom := 0;
      fallbackOccurred := true;
      log := log + [MovedToCpu];
      ok := true;
    }

    /** The plan a request may start with. */
    ghost predicate IsRefreshed(before: Option<Plan>, after: Plan, env: Env)
      requires ValidSettings(settings)
      reads `settings
    {
      && before.Some? && before.value.backend.Some?
      && (|| after == before.value
          || after == BuildPlan(before.value.backend.value, env.memory, true)
          || after == BuildPlan(Cpu, env.cpuMemory, false))
    }

    /** The plan of the moment has left the accelerator. */
    ghost predicate LosesAccelerator(env: Env)
      requires Valid() && loaded
      reads this
    {
      var refreshed := BuildPlan(Backend(), env.memory, true);
      refreshed.usable && refreshed.backend == Some(Cpu) && !Backend().Cpu?
    }

    /** Why a request is refused before its first call. */
    ghost predicate RefusedWith(env: Env, error: Error)
      requires Valid() && loaded
      reads this
    {
      match error
      case MemoryPressure => !BuildPlan(Backend(), env.memory, true).usable || (LosesAccelerator(env) && failClosed)
      case MoveFailed => LosesAccelerator(env) && !failClosed && BuildPlan(Cpu, env.cpuMemory, false).usable && env.moveRaises
      case _ => false
    }

    method RefreshActivePlan(env: Env) returns (error: Option<Error>)
      requires Valid() && loaded
      modifies this
      ensures Valid() && loaded && unchanged(`settings, `failClosed, `oomBackoffs)
      ensures Backend() == old(Backend()) || (Backend().Cpu? && !old(Backend()).Cpu? && !failClosed)
      ensures log == old(log) || log == old(log) + [MovedToCpu]
      ensures error.Some? ==> unchanged(this)
      ensures error.None? ==> IsRefreshed(old(plan), plan.value, env)
      ensures failClosed ==> unchanged(`fallbackOccurred)
      ensures forall e :: error == Some(e) <==> old(RefusedWith(env, e))
      ensures error.None? ==>
                plan == if !old(LosesAccelerator(env)) then Some(old(BuildPlan(Backend(), env.memory, true)))
                        else if BuildPlan(Cpu, env.cpuMemory, false).usable then Some(BuildPlan(Cpu, env.cpuMemory, false))
                        else old(plan)
    {
      hide CeilingsRespected, CeilingCovers, BuildRuntimePlan;
      var current := plan.value.backend.value;
      var refreshed := BuildPlan(current, env.memory, true);
      if !refreshed.usable {
        return Some(MemoryPressure);
      }
      if refreshed.backend.value.Cpu? && !current.Cpu? {
        if failClosed {
          return Some(MemoryPressure);
        }
        var cpuPlan := BuildPlan(Cpu, env.cpuMemory, false);
        if cpuPlan.usable {
          var moved := MoveModelToCpu(cpuPlan, env.moveRaises);
          return if moved then None else Some(MoveFailed);
        }
        return None;
      }
      plan := Some(refreshed);
      error := None;
    }

    /** The CPU could take over after an accelerator ran out of memory. */
    ghost predicate MayMove(env: Env)
      requires Valid() && loaded
      reads this
    {
      !Backend().Cpu? && !failClosed && BuildPlan(Cpu, env.cpuMemoryAfterOom, false).usable
    }

    method MoveToCpuAfterOom(env: Env) returns (moved: bool, raised: bool)
      requires Valid() && loaded
      modifies this
      ensures Valid() && loaded && unchanged(`settings, `failClosed, `oomBackoffs)
      ensures moved ==> !failClosed && !raised && oomBatchCeiling.None? && log == old(log) + [MovedToCpu]
      ensures moved ==> plan == Some(BuildPlan(Cpu, env.cpuMemoryAfterOom, false)) && Backend().Cpu?
      ensures !moved ==> unchanged(this)
      ensures failClosed ==> !moved
      ensures moved <==> !failClosed && BuildPlan(Cpu, env.cpuMemoryAfterOom, false).usable && !env.moveRaises
      ensures raised <==> !failClosed && BuildPlan(Cpu, env.cpuMemoryAfterOom, false).usable && env.moveRaises
    {
      if failClosed {
        return false, false;
      }
      var cpuPlan := BuildPlan(Cpu, env.cpuMemoryAfterOom, false);
      if !cpuPlan.usable {
        return false, false;
      }
      moved := MoveModelToCpu(cpuPlan, env.moveRaises);
      raised := !moved;
    }

    ghost function CpuBatch(env: Env): nat
      requires ValidSettings(settings)
      reads `settings
    {
      BuildPlan(Cpu, env.cpuMemoryAfterOom, false).batchSize
    }

    /** How often the request can still run out of memory. */
    ghost function Potential(env: Env): nat
      requires Valid() && loaded
      reads this
    {
      BackoffsLeft(Backend().Cpu?, EffectiveBatchSize(), CpuBatch(env))
    }

    lemma HalvingPays(env: Env, onCpu: bool, batch: nat, effective: nat, smaller: nat)
      requires ValidSettings(settings) && 1 < batch <= effective && 1 <= smaller <= batch / 2
      ensures BackoffsLeft(onCpu, smaller, CpuBatch(env)) < BackoffsLeft(onCpu, effective, CpuBatch(env))
    {
      hide BuildRuntimePlan;
      Log2Monotone(smaller, batch / 2);
      Log2Monotone(batch / 2, effective / 2);
    }

    lemma MovingPays(env: Env, effective: nat, smaller: nat)
      requires ValidSettings(settings) && 1 <= effective && 1 <= smaller <= CpuBatch(env)
      ensures BackoffsLeft(true, smaller, CpuBatch(env)) < BackoffsLeft(false, effective, CpuBatch(env))
    {
      hide BuildRuntimePlan;
      Log2Monotone(smaller, CpuBatch(env));
    }

    /** One out-of-memory failure at `batch`: halve the ceiling, or move to the CPU, or give up. */
    method BackOff(env: Env, batch: nat) returns (error: Option<Error>)
      requires Valid() && loaded && 1 <= batch <= EffectiveBatchSize()
      modifies this
      ensures Valid() && loaded && unchanged(`settings, `failClosed)
      ensures oomBackoffs == old(oomBackoffs) + 1 && (failClosed ==> unchanged(`fallbackOccurred))
      ensures Backend() == old(Backend()) || (Backend().Cpu? && !old(Backend()).Cpu? && !failClosed)
      ensures error.None? ==> Potential(env) < old(Potential(env))
      ensures error.None? ==> Backend() == old(Backend()) ==> EffectiveBatchSize() < old(EffectiveBatchSize())
      ensures error.None? ==> if batch > 1 then plan == old(plan) && oomBatchCeiling == Some(batch / 2)
                              else plan == Some(BuildPlan(Cpu, env.cpuMemoryAfterOom, false)) && oomBatchCeiling.None?
      ensures log == old(log) + if error.Some? then [] else if batch > 1 then [CeilingSet(batch / 2)] else [MovedToCpu]
      ensures error == Some(MoveFailed) <==> batch == 1 && old(MayMove(env)) && env.moveRaises
      ensures error == Some(OutOfMemoryAtOne) <==> batch == 1 && !old(MayMove(env))
      ensures error.Some? ==> error == Some(MoveFailed) || error == Some(OutOfMemoryAtOne)
      ensures error.Some? ==> plan == old(plan)
    {
      hide CeilingsRespected, CeilingCovers, BuildRuntimePlan, BackoffsLeft;
      ghost var effective := EffectiveBatchSize();
      oomBackoffs := oomBackoffs + 1;
      if batch > 1 {
        var ceiling := Max(1, batch / 2);
        LogCeiling(log, oomBatchCeiling, successfulRequestsSinceOom, ceiling);
        oomBatchCeiling := Some(ceiling);
        successfulRequestsSinceOom := 0;
        log := log + [CeilingSet(ceiling)];
        HalvingPays(env, Backend().Cpu?, batch, effective, EffectiveBatchSize());
        return None;
      }
      if !plan.value.backend.value.Cpu? {
        var moved, raised := MoveToCpuAfterOom(env);
        if moved {
          MovingPays(env, effective, EffectiveBatchSize());
          return None;
        }
        if raised {
          return Some(MoveFailed);
        }
      }
      error := Some(OutOfMemoryAtOne);
    }

    ghost method NoteCall(batch: nat)
      requires Valid() && loaded && batch <= EffectiveBatchSize()
      modifies this`log
      ensures Valid() && log == old(log) + [Called(batch)]
    {
      hide CeilingsRespected, CeilingCovers;
      LogCall(log, oomBatchCeiling, successfulRequestsSinceOom, batch);
      log := log + [Called(batch)];
    }

    /** The end of a request: the eighth clean one since the ceiling was set lifts it. */
    method FinishRequest(requestHadOom: bool)
      requires Valid() && loaded
      modifies `oomBatchCeiling, `successfulRequestsSinceOom, `log
      ensures Valid()
      ensures requestHadOom ==> unchanged(this)
      ensures !requestHadOom ==> log == old(log) + [CleanRequest]
      ensures !requestHadOom && old(oomBatchCeiling).Some? ==>
                if old(successfulRequestsSinceOom) >= 7 then oomBatchCeiling.None? && successfulRequestsSinceOom == 0
                else oomBatchCeiling == old(oomBatchCeiling) && successfulRequestsSinceOom == old(successfulRequestsSinceOom) + 1
      ensures old(oomBatchCeiling).None? ==> oomBatchCeiling.None?
    {
      if requestHadOom {
        return;
      }
      ghost var before := log;
      LogClean(log, oomBatchCeiling, successfulRequestsSinceOom);
      log := log + [CleanRequest];
      if oomBatchCeiling.Some? {
        successfulRequestsSinceOom := successfulRequestsSinceOom + 1;
        if successfulRequestsSinceOom >= 8 {
          oomBatchCeiling := None;
          successfulRequestsSinceOom := 0;
        }
      }
    }

    /** One model call on up to `left` texts, and what comes of it. */
    method TryBatch(env: Env, attempt: nat, left: nat) returns (step: Step, batch: nat)
      requires Valid() && loaded && left > 0
      modifies this
      ensures Valid() && loaded && unchanged(`settings, `failClosed) && old(log) <= log && (failClosed ==> unchanged(`fallbackOccurred))
      ensures Backend() == old(Backend()) || (Backend().Cpu? && !old(Backend()).Cpu? && !failClosed)
      ensures batch == Min(old(EffectiveBatchSize()), left)
      ensures step.Done? ==> unchanged(`plan, `oomBackoffs, `oomBatchCeiling) && env.result(attempt).Success? && Survives(env, attempt)
      ensures step.Again? ==>
                && env.result(attempt).OutOfMemory? && Survives(env, attempt) && oomBackoffs == old(oomBackoffs) + 1
                && Potential(env) < old(Potential(env)) && (Backend() == old(Backend()) ==> EffectiveBatchSize() < old(EffectiveBatchSize()))
      ensures step.Failed? ==> StopsWith(env, attempt, step.error) && old(oomBackoffs) <= oomBackoffs <= old(oomBackoffs) + 1
      ensures step == Failed(MoveFailed) ==> MayMove(env) && env.moveRaises && Called(1) in log
      ensures step == Failed(OutOfMemoryAtOne) ==> !MayMove(env) && Called(1) in log
      ensures !step.Done? ==> !forall k: nat :: IsUntroubled(env, k)
    {
      hide CeilingsRespected, CeilingCovers, BuildRuntimePlan, BackoffsLeft, Survives, StopsWith, IsUntroubled, Server.CpuBatch;
      WhatHappens(env, attempt);
      batch := Min(EffectiveBatchSize(), left);
      if env.cancelledBefore(attempt) {
        return Failed(Cancelled), batch;
      }
      NoteCall(batch);
      var result := env.result(attempt);
      if result.OutOfMemory? {
        var error := BackOff(env, batch);
        if error.Some? {
          assert log[|log| - 1] == Called(1);
          return Failed(error.value), batch;
        }
        return Again, batch;
      }
      if result.OtherError? {
        return Failed(ModelError), batch;
      }
      step := if env.cancelledAfter(attempt) then Failed(Cancelled) else Done;
    }

    /** The loop over the batches of a request. It goes on as long as the calls survive, and
        raises exactly what the first call that does not is a reason for. */
    method EncodeBatches(texts: seq<Text>, env: Env) returns (reply: Reply, hadOom: bool, ghost calls: seq<Call>, ghost attempts: nat)
      requires Valid() && loaded
      modifies this
      ensures Valid() && loaded && unchanged(`settings, `failClosed)
      ensures Backend() == old(Backend()) || (Backend().Cpu? && !old(Backend()).Cpu? && !failClosed)
      ensures reply.Ok? ==> |reply.vectors| == |texts|
                            && Covers(env, calls, |texts|) && Answers(env, texts, calls, reply.vectors)
      ensures old(oomBackoffs) <= oomBackoffs <= old(oomBackoffs) + old(Potential(env))
      ensures reply.Ok? ==> hadOom == (oomBackoffs > old(oomBackoffs))
      ensures old(log) <= log && (failClosed ==> unchanged(`fallbackOccurred))
      ensures forall k | 0 <= k < attempts :: Survives(env, k)
      ensures reply.Raised? ==> StopsWith(env, attempts, reply.error)
      ensures reply == Raised(MoveFailed) ==> MayMove(env) && env.moveRaises && Called(1) in log
      ensures reply == Raised(OutOfMemoryAtOne) ==> !MayMove(env) && Called(1) in log
      ensures reply.Ok? ==> attempts == |calls| + oomBackoffs - old(oomBackoffs)
      ensures reply.Ok? && oomBackoffs == old(oomBackoffs) ==> FullBatches(calls, old(EffectiveBatchSize()), |texts|)
      ensures (forall k: nat :: IsUntroubled(env, k)) ==> reply.Ok?
    {
      hide CeilingsRespected, CeilingCovers, BuildRuntimePlan, BackoffsLeft, Covers, Answers, Vectors, SoFar, FullBatches, Survives,
           StopsWith, IsUntroubled, Server.CpuBatch, Server.MayMove;
      calls, hadOom := [], false;
      NothingCovered(env, texts, EffectiveBatchSize());
      var output: seq<Vector> := [];
      var offset, attempt := 0, 0;
      while offset < |texts|
        invariant Valid() && loaded && unchanged(`settings, `failClosed)
        invariant Backend() == old(Backend()) || (Backend().Cpu? && !old(Backend()).Cpu? && !failClosed)
        invariant offset == |output| <= |texts|
        invariant SoFar(env, texts, calls, output, attempt) && attempt == |calls| + oomBackoffs - old(oomBackoffs)
        invariant old(log) <= log && (failClosed ==> unchanged(`fallbackOccurred))
        invariant old(oomBackoffs) <= oomBackoffs && hadOom == (oomBackoffs > old(oomBackoffs))
        invariant oomBackoffs + Potential(env) <= old(oomBackoffs) + old(Potential(env))
        invariant !hadOom ==> EffectiveBatchSize() == old(EffectiveBatchSize()) && FullBatches(calls, old(EffectiveBatchSize()), |texts|)
        decreases |texts| - offset, !Backend().Cpu?, EffectiveBatchSize()
      {
        attempts := attempt;
        SoFarSurvived(env, texts, calls, output, attempt);
        ghost var effective := EffectiveBatchSize();
        var step, batch := TryBatch(env, attempt, |texts| - offset);
        match step {
          case Failed(error) => return Raised(error), hadOom, calls, attempts;
          case Again =>
            hadOom := true;
            OneMoreAttempt(env, texts, calls, output, attempt);
          case Done =>
            ghost var call := Call(attempt, offset, batch);
            OneMoreBatch(env, texts, calls, output, call);
            if !hadOom {
              OneMoreFull(calls, effective, |texts|, call);
            }
            output := output + Vectors(env, attempt, texts[offset..offset + batch]);
            calls := calls + [call];
            offset := offset + batch;
        }
        attempt := attempt + 1;
      }
      AllAnswered(env, texts, calls, output, attempt);
      reply, attempts := Ok(output), attempt;
    }

    /** A request returns one vector per text, in order, each from the one successful call
        that covered the text. From the plan it starts with, it runs out of memory at most
        as often as that batch size and the CPU's can be halved, plus once each at one. It is
        refused, cancelled or broken off exactly for the reasons there are. */
    method Encode(texts: seq<Text>, env: Env)
      returns (reply: Reply, ghost calls: seq<Call>, ghost first: Option<Plan>, ghost attempts: nat)
      requires Valid()
      modifies this
      ensures Valid() && loaded == old(loaded) && unchanged(`settings, `failClosed)
      ensures loaded ==> Backend() == old(Backend()) || (Backend().Cpu? && !old(Backend()).Cpu? && !failClosed)
      ensures reply.Ok? ==> loaded && |reply.vectors| == |texts|
                            && Covers(env, calls, |texts|) && Answers(env, texts, calls, reply.vectors)
      ensures first.None? ==> reply.Raised? && oomBackoffs == old(oomBackoffs)
      ensures first.Some? ==> IsRefreshed(old(plan), first.value, env) && first.value.batchSize >= 1
      ensures first.Some? ==> oomBackoffs <= old(oomBackoffs)
                                + BackoffsLeft(first.value.backend == Some(Cpu), first.value.batchSize, CpuBatch(env))
      ensures old(log) <= log && (failClosed ==> unchanged(`fallbackOccurred))
      ensures reply.Ok? && oomBackoffs == old(oomBackoffs) ==> |log| > 0 && log[|log| - 1] == CleanRequest
      // before the first call
      ensures reply == Raised(NotLoaded) <==> !old(loaded)
      ensures old(loaded) && env.cancelledAtStart ==> reply == Raised(Cancelled) && first.None? && unchanged(this)
      ensures old(loaded) && !env.cancelledAtStart ==>
                (first.None? <==> exists e :: old(RefusedWith(env, e))) && (first.None? ==> old(RefusedWith(env, reply.error)) && unchanged(this))
      // at one of the calls
      ensures first.Some? ==> forall k | 0 <= k < attempts :: Survives(env, k)
      ensures first.Some? && reply.Raised? ==> StopsWith(env, attempts, reply.error)
      ensures first.Some? && (forall k: nat :: IsUntroubled(env, k)) ==> reply.Ok?
    {
      hide CeilingsRespected, CeilingCovers, BuildRuntimePlan, BackoffsLeft, Covers, Answers, Vectors, FullBatches, Server.CpuBatch;
      calls, first, attempts := [], None, 0;
      if !loaded {
        return Raised(NotLoaded), calls, first, attempts;
      }
      if env.cancelledAtStart {
        return Raised(Cancelled), calls, first, attempts;
      }
      var pressure := RefreshActivePlan(env);
      if pressure.Some? {
        return Raised(pressure.value), calls, first, attempts;
      }
      first := plan;
      CeilingOnlyHelps(env);
      var hadOom;
      reply, hadOom, calls, attempts := EncodeBatches(texts, env);
      if reply.Ok? {
        FinishRequest(hadOom);
      }
    }

    /** The selected device can be planned for, and without the fallback it must not make. */
    ghost predicate MayLoad(device: string, selected: Selection)
      requires ValidSettings(settings)
      reads `settings
    {
      var planned := BuildPlan(selected.backend, selected.memory, false);
      planned.usable && (device in {"auto", "cpu", "intel-openvino-cpu"} || (!selected.fellBack && planned.backend == Some(selected.backend)))
    }

    /** The model can be loaded as planned, or else on the CPU where that is allowed. */
    ghost predicate Loads(device: string, planned: Plan, loading: Loading)
      requires ValidSettings(settings)
      reads `settings
    {
      !loading.raises
      || (planned.backend != Some(Cpu) && device in {"auto", "cpu", "intel-openvino-cpu"}
          && BuildPlan(Cpu, loading.cpuMemory, true).usable && !loading.cpuRaises)
    }

    /** Start-up: plan, load, plan again with what the loaded model says about itself, and
        encode the benchmark corpus twice. It gets as far as warming up exactly if the device may
        be loaded and loads. A device that must not fall back ends on the selected backend or
        not at all, and nothing but the model loader itself can have recorded a fallback; any
        other device ends on the selected backend or on the CPU. */
    method Load(device: string, selected: Selection, loading: Loading, refined: Settings, env: Env,
                corpus: seq<Text>, warmUp: Env, sample: Env) returns (ok: bool, ghost warmed: Option<bool>)
      requires Valid() && !loaded && !fallbackOccurred && Refines(settings, refined)
      modifies this
      ensures Valid()
      ensures failClosed <==> device !in {"auto", "cpu", "intel-openvino-cpu"}
      ensures warmed.Some? <==> old(MayLoad(device, selected)) && old(Loads(device, BuildPlan(selected.backend, selected.memory, false), loading))
      ensures ok <==> warmed == Some(true)
      ensures loaded <==> warmed.Some?
      ensures ok ==> settings == refined && (Backend() == selected.backend || Backend().Cpu?)
      ensures ok && failClosed ==> Backend() == selected.backend && fallbackOccurred == loading.fellBack
      ensures ok && Backend() != selected.backend ==> !failClosed
    {
      hide CeilingsRespected, CeilingCovers, BuildRuntimePlan, Server.IsRefreshed, BackoffsLeft, Covers, Answers, Refines, Server.RefusedWith;
      warmed := None;
      failClosed := !MayFallBack(device);
      fallbackOccurred := selected.fellBack;
      plan := Some(BuildPlan(selected.backend, selected.memory, false));
      if !plan.value.usable {
        return false, warmed;
      }
      if failClosed && (fallbackOccurred || plan.value.backend != Some(selected.backend)) {
        return false, warmed;
      }
      ok := LoadModel(loading);
      if !ok {
        return;
      }
      RefinedIsValid(settings, refined);
      settings := refined;
      ghost var refused, first, second;
      ok, refused, first, second := WarmUp(env, corpus, warmUp, sample);
      warmed := Some(ok);
    }

    /** Load the model as planned; if that raises, on the CPU unless the device must not fall back. */
    method LoadModel(loading: Loading) returns (ok: bool)
      requires Valid() && !loaded && plan.Some? && plan.value.usable && plan.value.batchSize >= 1 && plan.value.backend.Some?
      modifies `loaded, `plan, `fallbackOccurred
      ensures Valid() && ok == loaded
      ensures ok <==> !loading.raises || (old(plan).value.backend != Some(Cpu) && !failClosed
                                          && BuildPlan(Cpu, loading.cpuMemory, true).usable && !loading.cpuRaises)
      ensures ok ==> if loading.raises then plan == Some(BuildPlan(Cpu, loading.cpuMemory, true)) && fallbackOccurred
                     else plan == old(plan) && fallbackOccurred == (old(fallbackOccurred) || loading.fellBack)
      ensures ok && loading.raises ==> plan.value.backend == Some(Cpu)
    {
      hide CeilingsRespected, CeilingCovers, BuildRuntimePlan;
      if loading.raises {
        if plan.value.backend == Some(Cpu) || failClosed {
          return false;
        }
        fallbackOccurred := true;
        var cpuPlan := BuildPlan(Cpu, loading.cpuMemory, true);
        if !cpuPlan.usable {
          return false;
        }
        plan := Some(cpuPlan);
        if loading.cpuRaises {
          return false;
        }
      } else if loading.fellBack {
        fallbackOccurred := true;
      }
      loaded := true;
      ok := true;
    }

    /** The plan with the model resident, and the two benchmark encodes. It succeeds if the plan
        is not refused and both replies are there. */
    method WarmUp(env: Env, corpus: seq<Text>, warmUp: Env, sample: Env)
      returns (ok: bool, ghost refused: Option<Error>, ghost first: Option<Reply>, ghost second: Option<Reply>)
      requires Valid() && loaded
      modifies this
      ensures Valid() && loaded && unchanged(`settings, `failClosed)
      ensures Backend() == old(Backend()) || (Backend().Cpu? && !old(Backend()).Cpu? && !failClosed)
      ensures failClosed ==> unchanged(`fallbackOccurred)
      ensures forall e :: refused == Some(e) <==> old(RefusedWith(env, e))
      ensures first.Some? <==> refused.None?
      ensures second.Some? <==> first.Some? && first.value.Ok?
      ensures ok <==> second.Some? && second.value.Ok?
      ensures first.Some? ==> IsRight(warmUp, corpus, first.value)
      ensures second.Some? ==> IsRight(sample, corpus, second.value)
    {
      hide CeilingsRespected, CeilingCovers, BuildRuntimePlan, Server.IsRefreshed, BackoffsLeft, Covers, Answers;
      refused, first, second := None, None, None;
      var pressure := RefreshActivePlan(env);
      refused := pressure;
      if pressure.Some? {
        return false, refused, first, second;
      }
      var reply, calls, _, _ := Encode(corpus, warmUp);
      first := Some(reply);
      if reply.Raised? {
        return false, refused, first, second;
      }
      var reply', calls', _, _ := Encode(corpus, sample);
      second := Some(reply');
      ok := reply'.Ok?;
    }

    /** Any number of requests: the ceilings hold throughout (part of validity), the history
        only grows, and the backend never changes but once from an accelerator to the CPU. */
    method Serve(requests: seq<(seq<Text>, Env)>) returns (replies: seq<Reply>)
      requires Valid() && loaded
      modifies this
      ensures Valid() && loaded && CeilingsRespected(log) && old(log) <= log && unchanged(`settings, `failClosed)
      ensures Backend() == old(Backend()) || (Backend().Cpu? && !old(Backend()).Cpu? && !failClosed)
      ensures |replies| == |requests|
      ensures forall i | 0 <= i < |requests| :: IsRight(requests[i].1, requests[i].0, replies[i])
    {
      hide CeilingsRespected, CeilingCovers;
      replies := [];
      for i := 0 to |requests|
        invariant Valid() && loaded && old(log) <= log && unchanged(`settings, `failClosed)
        invariant Backend() == old(Backend()) || (Backend().Cpu? && !old(Backend()).Cpu? && !failClosed)
        invariant |replies| == i
        invariant forall j | 0 <= j < i :: IsRight(requests[j].1, requests[j].0, replies[j])
      {
        var reply, calls, _, _ := Encode(requests[i].0, requests[i].1);
        replies := replies + [reply];
      }
    }

    lemma CeilingOnlyHelps(env: Env)
      requires Valid() && loaded
      ensures 1 <= Potential(env) <= BackoffsLeft(plan.value.backend == Some(Cpu), plan.value.batchSize, CpuBatch(env))
    {
      hide CeilingsRespected, CeilingCovers, BuildRuntimePlan;
      Log2Monotone(EffectiveBatchSize(), plan.value.batchSize);
    }
  }

  /** What one attempt can mean for the request. */
  lemma WhatHappens(env: Env, k: nat)
    ensures env.cancelledBefore(k) || (env.result(k).Success? && env.cancelledAfter(k)) ==> StopsWith(env, k, Cancelled)
    ensures !env.cancelledBefore(k) && env.result(k).OtherError? ==> StopsWith(env, k, ModelError)
    ensures !env.cancelledBefore(k) && env.result(k).OutOfMemory? ==>
              Survives(env, k) && StopsWith(env, k, OutOfMemoryAtOne) && StopsWith(env, k, MoveFailed)
    ensures !env.cancelledBefore(k) && env.result(k).Success? && !env.cancelledAfter(k) ==> Survives(env, k)
    ensures env.cancelledBefore(k) || !env.result(k).Success? || env.cancelledAfter(k) ==> !forall k: nat :: IsUntroubled(env, k)
  {
    assert IsUntroubled(env, k) || env.cancelledBefore(k) || !env.result(k).Success? || env.cancelledAfter(k);
  }

  lemma NothingCovered(env: Env, texts: seq<Text>, batch: nat)
    ensures SoFar(env, texts, [], [], 0) && FullBatches([], batch, |texts|)
  {
  }

  lemma AllAnswered(env: Env, texts: seq<Text>, calls: seq<Call>, output: seq<Vector>, attempt: nat)
    requires SoFar(env, texts, calls, output, attempt) && |output| == |texts|
    ensures Covers(env, calls, |texts|) && Answers(env, texts, calls, output)
    ensures forall k | 0 <= k < attempt :: Survives(env, k)
  {
  }
}
