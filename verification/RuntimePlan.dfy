/** The memory planner of the embedding server (packages/code-index/resource_manager.py).
    Fractions of byte counts are exact floors; the two scale factors are any positive
    reals within the bounds the code puts on them. */
module RuntimePlan {
  import opened Options

  datatype Backend =
    | Cpu | Cuda | Rocm | Mps | Npu | OpenVino | CoreMl | VitisAi | AppleAne
    | NvidiaCuda | AmdRocm | AppleMps | IntelOpenVinoCpu | AmdPhoenixNpu | AmdRyzenAiNpu
  {
    /** SHARED_MEMORY_ACCELERATORS */
    predicate SharedMemory() {
      Mps? || Npu? || OpenVino? || CoreMl? || VitisAi? || AppleAne? || AmdPhoenixNpu? || AmdRyzenAiNpu?
    }

    /** FAIL_CLOSED_ACCELERATORS */
    predicate FailClosed() { Npu? || OpenVino? || VitisAi? || AppleAne? || AmdPhoenixNpu? || AmdRyzenAiNpu? }
  }

  const MIB := 1024 * 1024
  const GIB := 1024 * MIB
  const MIN_ACCELERATOR_RESERVE_BYTES := 512 * MIB
  const MIN_RUNTIME_WORKSPACE_BYTES := 512 * MIB
  const CPU_BATCH_ITEM_BYTES := 128 * MIB
  const ACCELERATOR_BATCH_ITEM_BYTES := 64 * MIB
  const CPU_THREAD_HEADROOM_BYTES := 384 * MIB
  const CPU_THREAD_WORKSPACE_BYTES := 64 * MIB

  datatype Memory = Memory(systemAvailable: nat, acceleratorTotal: Option<nat>, acceleratorFree: Option<nat>)

  datatype Settings = Settings(
    logicalCpuCount: int, modelParameterCount: int, mpsFloat32: bool, maxBatchSize: int, maxCpuThreads: Option<int>,
    minSystemReserve: nat, minAcceleratorReserve: nat, sequenceScale: real, modelScale: real)

  datatype Plan = Plan(
    usable: bool, preferred: Backend, backend: Option<Backend>, batchSize: nat, cpuThreads: nat,
    modelBytes: nat, systemReserve: nat, acceleratorReserve: nat)

  /** The arguments `build_runtime_plan` does not raise on. */
  predicate ValidSettings(c: Settings) {
    && c.logicalCpuCount > 0 && c.modelParameterCount > 0 && c.maxBatchSize > 0
    && (c.maxCpuThreads.Some? ==> c.maxCpuThreads.value > 0)
    && c.sequenceScale >= 0.25 && c.modelScale >= 0.5
  }

  function Min(a: int, b: int): int { if a <= b then a else b }

  function Max(a: int, b: int): int { if a >= b then a else b }

  // ---- powers of two

  function BitLength(n: nat): nat { if n == 0 then 0 else 1 + BitLength(n / 2) }

  function Pow2(k: nat): (p: nat)
    ensures p >= 1
  {
    if k == 0 then 1 else 2 * Pow2(k - 1)
  }

  ghost predicate IsPowerOfTwo(n: nat) { exists k: nat :: n == Pow2(k) }

  lemma {:induction false} BitLengthBounds(n: nat)
    requires n > 0
    ensures BitLength(n) > 0 && Pow2(BitLength(n) - 1) <= n < 2 * Pow2(BitLength(n) - 1)
  {
    if n > 1 {
      BitLengthBounds(n / 2);
    }
  }

  function PowerOfTwoFloor(value: int): (p: nat)
    ensures IsPowerOfTwo(p) && p <= Max(1, value) < 2 * p
  {
    BitLengthBounds(Max(1, value));
    Pow2(BitLength(Max(1, value)) - 1)
  }

  // ---- the plan

  function SystemReserve(c: Settings, m: Memory): nat { Max(c.minSystemReserve, Min(2 * GIB, m.systemAvailable / 4)) }

  function CpuModelBytes(c: Settings): int { c.modelParameterCount * 4 }

  function AcceleratorModelBytes(c: Settings, preferred: Backend): int {
    c.modelParameterCount * if preferred.CoreMl? || (preferred.Mps? && c.mpsFloat32) then 4 else 2
  }

  function CpuLoadBytes(c: Settings, resident: bool): int { if resident then 0 else CpuModelBytes(c) * 6 / 5 }

  function AcceleratorLoadBytes(c: Settings, preferred: Backend, resident: bool): int {
    if resident then 0 else AcceleratorModelBytes(c, preferred) * 6 / 5
  }

  function CpuWorkspace(c: Settings, m: Memory, resident: bool): int {
    m.systemAvailable - SystemReserve(c, m) - CpuLoadBytes(c, resident)
  }

  predicate CpuFits(c: Settings, m: Memory, resident: bool) {
    CpuWorkspace(c, m, resident) >= MIN_RUNTIME_WORKSPACE_BYTES
  }

  function OrZero(x: Option<nat>): nat { if x.Some? then x.value else 0 }

  function BaseAcceleratorReserve(c: Settings, m: Memory): nat {
    Max(c.minAcceleratorReserve, OrZero(m.acceleratorTotal) / 10)
  }

  /** System memory is lent to the accelerator: always for the shared-memory ones, and for
      ROCm when its own memory does not suffice. */
  predicate BorrowsSystemMemory(c: Settings, m: Memory, preferred: Backend, resident: bool) {
    var load := AcceleratorLoadBytes(c, preferred, resident);
    && (preferred.SharedMemory()
        || (preferred.Rocm? && m.acceleratorFree.Some? && OrZero(m.acceleratorTotal) >= 2 * GIB
            && m.acceleratorFree.value - BaseAcceleratorReserve(c, m) - load < MIN_RUNTIME_WORKSPACE_BYTES))
    && m.systemAvailable - SystemReserve(c, m) - load >= MIN_RUNTIME_WORKSPACE_BYTES
  }

  function AcceleratorFree(c: Settings, m: Memory, preferred: Backend, resident: bool): Option<int> {
    if BorrowsSystemMemory(c, m, preferred, resident)
    then Some(Max(OrZero(m.acceleratorFree), m.systemAvailable - SystemReserve(c, m)))
    else if m.acceleratorFree.Some? then Some(m.acceleratorFree.value) else None
  }

  function AcceleratorReserve(c: Settings, m: Memory, preferred: Backend, resident: bool): nat {
    if BorrowsSystemMemory(c, m, preferred, resident)
    then Min(BaseAcceleratorReserve(c, m), MIN_ACCELERATOR_RESERVE_BYTES)
    else BaseAcceleratorReserve(c, m)
  }

  predicate AcceleratorFits(c: Settings, m: Memory, preferred: Backend, resident: bool) {
    var free := AcceleratorFree(c, m, preferred, resident);
    && free.Some?
    && (OrZero(m.acceleratorTotal) > 0 || preferred.SharedMemory())
    && free.value - AcceleratorReserve(c, m, preferred, resident) - AcceleratorLoadBytes(c, preferred, resident)
       >= MIN_RUNTIME_WORKSPACE_BYTES
  }

  predicate StagingFits(c: Settings, m: Memory, preferred: Backend, resident: bool) {
    var staging := if resident then 0 else AcceleratorModelBytes(c, preferred) * 11 / 10;
    m.systemAvailable - SystemReserve(c, m) - staging >= MIN_RUNTIME_WORKSPACE_BYTES
  }

  predicate StaysOnAccelerator(c: Settings, m: Memory, preferred: Backend, resident: bool) {
    AcceleratorFits(c, m, preferred, resident) && StagingFits(c, m, preferred, resident)
  }

  function ThreadLimit(c: Settings): int
    requires ValidSettings(c)
  {
    Min(c.logicalCpuCount, if c.maxCpuThreads.None? then Min(2, Max(1, c.logicalCpuCount / 4)) else c.maxCpuThreads.value)
  }

  /** The part of system memory that threads and batches share on the CPU. */
  function CpuBudget(c: Settings, m: Memory, resident: bool): nat {
    Max(0, Min(CpuWorkspace(c, m, resident), m.systemAvailable / 2))
  }

  function CpuThreads(c: Settings, m: Memory, resident: bool): nat
    requires ValidSettings(c)
  {
    Min(ThreadLimit(c), Max(1, CpuBudget(c, m, resident) / CPU_THREAD_HEADROOM_BYTES))
  }

  function ItemBytes(c: Settings, base: nat): (bytes: nat)
    ensures bytes >= 1
  {
    Max(1, (base as real * c.sequenceScale * c.modelScale).Floor)
  }

  /** How many items the threads can work on at this scale. */
  function ThreadCap(c: Settings, threads: nat): int
    requires ValidSettings(c)
  {
    Ratio(c, threads).Floor
  }

  function Ratio(c: Settings, threads: nat): real
    requires ValidSettings(c)
  {
    (threads * 2) as real / (c.sequenceScale * c.modelScale)
  }

  function CpuPlan(c: Settings, m: Memory, preferred: Backend, reserve: nat, resident: bool): Plan
    requires ValidSettings(c)
  {
    var threads := CpuThreads(c, m, resident);
    var remaining := Max(0, CpuBudget(c, m, resident) - threads * CPU_THREAD_WORKSPACE_BYTES);
    var capacity := Max(1, remaining / ItemBytes(c, CPU_BATCH_ITEM_BYTES));
    var coreCap := Min(2, Max(1, ThreadCap(c, threads)));
    var batch := PowerOfTwoFloor(Min(Min(c.maxBatchSize, coreCap), capacity));
    Plan(true, preferred, Some(Cpu), batch, threads, CpuModelBytes(c), SystemReserve(c, m), reserve)
  }

  /** The part of accelerator memory that batches use. */
  function AcceleratorBudget(c: Settings, m: Memory, preferred: Backend, resident: bool): nat {
    var free := OrZero(m.acceleratorFree);
    Max(0, Min(free - AcceleratorReserve(c, m, preferred, resident) - AcceleratorLoadBytes(c, preferred, resident), free / 2))
  }

  function AcceleratorPlan(c: Settings, m: Memory, preferred: Backend, resident: bool): Plan
    requires ValidSettings(c)
  {
    var capacity := Max(1, AcceleratorBudget(c, m, preferred, resident) / ItemBytes(c, ACCELERATOR_BATCH_ITEM_BYTES));
    var batch := PowerOfTwoFloor(Min(c.maxBatchSize, capacity));
    Plan(true, preferred, Some(preferred), batch, Min(ThreadLimit(c), if preferred.Mps? then 4 else 8),
         AcceleratorModelBytes(c, preferred), SystemReserve(c, m), AcceleratorReserve(c, m, preferred, resident))
  }

  function Unusable(c: Settings, m: Memory, preferred: Backend, modelBytes: nat, reserve: nat): Plan {
    Plan(false, preferred, None, 0, 1, modelBytes, SystemReserve(c, m), reserve)
  }

  function BuildRuntimePlan(c: Settings, m: Memory, preferred: Backend, resident: bool): Plan
    requires ValidSettings(c)
  {
    if preferred.Cpu? then
      if CpuFits(c, m, resident) then CpuPlan(c, m, preferred, 0, resident)
      else Unusable(c, m, preferred, CpuModelBytes(c), 0)
    else
      var reserve := AcceleratorReserve(c, m, preferred, resident);
      if StaysOnAccelerator(c, m, preferred, resident) then AcceleratorPlan(c, m, preferred, resident)
      else if preferred.FailClosed() then Unusable(c, m, preferred, AcceleratorModelBytes(c, preferred), reserve)
      else if CpuFits(c, m, resident) then CpuPlan(c, m, preferred, reserve, resident)
      else Unusable(c, m, preferred, CpuModelBytes(c), reserve)
  }

  // ---- what a plan promises

  lemma CpuPlanShape(c: Settings, m: Memory, preferred: Backend, reserve: nat, resident: bool)
    requires ValidSettings(c)
    ensures var p := CpuPlan(c, m, preferred, reserve, resident);
            1 <= p.batchSize <= c.maxBatchSize && IsPowerOfTwo(p.batchSize) && 1 <= p.cpuThreads <= c.logicalCpuCount
  {
    hide PowerOfTwoFloor, ItemBytes, CpuBudget, SystemReserve, CpuModelBytes, ThreadCap;
  }

  lemma AcceleratorPlanShape(c: Settings, m: Memory, preferred: Backend, resident: bool)
    requires ValidSettings(c)
    ensures var p := AcceleratorPlan(c, m, preferred, resident);
            1 <= p.batchSize <= c.maxBatchSize && IsPowerOfTwo(p.batchSize) && 1 <= p.cpuThreads <= c.logicalCpuCount
  {
    hide PowerOfTwoFloor, ItemBytes, AcceleratorBudget, SystemReserve, AcceleratorModelBytes, AcceleratorReserve;
  }

  /** A usable plan runs on the preferred backend or the CPU, in batches of a power of two
      up to the maximum; a fail-closed backend is never replaced by the CPU. */
  lemma PlanShape(c: Settings, m: Memory, preferred: Backend, resident: bool)
    requires ValidSettings(c)
    ensures var p := BuildRuntimePlan(c, m, preferred, resident);
            && p.preferred == preferred
            && (p.usable ==>
                  && 1 <= p.batchSize <= c.maxBatchSize && IsPowerOfTwo(p.batchSize)
                  && 1 <= p.cpuThreads <= c.logicalCpuCount
                  && (p.backend == Some(preferred) || p.backend == Some(Cpu))
                  && (preferred.FailClosed() ==> p.backend == Some(preferred)))
            && (!p.usable ==> p.batchSize == 0 && p.backend.None?)
  {
    hide StaysOnAccelerator, CpuFits, SystemReserve, AcceleratorReserve, CpuModelBytes, AcceleratorModelBytes,
         PowerOfTwoFloor, CpuThreads, CpuBudget, AcceleratorBudget, ItemBytes, ThreadLimit;
    CpuPlanShape(c, m, preferred, if preferred.Cpu? then 0 else AcceleratorReserve(c, m, preferred, resident), resident);
    AcceleratorPlanShape(c, m, preferred, resident);
  }

  /** A usable plan leaves the reserve, the model and a minimal workspace their room, and a
      backend that may fall back has an unusable plan only when the CPU has no such room. */
  lemma UsableMeansRoom(c: Settings, m: Memory, preferred: Backend, resident: bool)
    requires ValidSettings(c)
    ensures var p := BuildRuntimePlan(c, m, preferred, resident);
            var cpuNeeds := p.systemReserve + CpuLoadBytes(c, resident) + MIN_RUNTIME_WORKSPACE_BYTES;
            && p.systemReserve >= c.minSystemReserve && (p.systemReserve > c.minSystemReserve ==> 4 * p.systemReserve <= m.systemAvailable)
            && (p.usable && p.backend == Some(Cpu) ==> cpuNeeds <= m.systemAvailable)
            && (p.usable && !preferred.Cpu? && p.backend == Some(preferred) ==>
                  && p.systemReserve + MIN_RUNTIME_WORKSPACE_BYTES <= m.systemAvailable
                  && p.acceleratorReserve + AcceleratorLoadBytes(c, preferred, resident) + MIN_RUNTIME_WORKSPACE_BYTES
                     <= Max(OrZero(m.acceleratorFree), m.systemAvailable - p.systemReserve))
            && (!p.usable && !preferred.FailClosed() ==> cpuNeeds > m.systemAvailable)
  {
    hide StaysOnAccelerator, CpuFits, SystemReserve, AcceleratorReserve, CpuModelBytes, AcceleratorModelBytes,
         PowerOfTwoFloor, CpuThreads, CpuBudget, AcceleratorBudget, ItemBytes, ThreadLimit, CpuLoadBytes, AcceleratorLoadBytes;
    ReserveBounds(c, m);
    CpuRoom(c, m, resident);
    if StaysOnAccelerator(c, m, preferred, resident) {
      AcceleratorRoom(c, m, preferred, resident);
    }
  }

  lemma ReserveBounds(c: Settings, m: Memory)
    ensures SystemReserve(c, m) >= c.minSystemReserve
    ensures SystemReserve(c, m) > c.minSystemReserve ==> 4 * SystemReserve(c, m) <= m.systemAvailable
  {
  }

  lemma CpuRoom(c: Settings, m: Memory, resident: bool)
    ensures CpuFits(c, m, resident)
            <==> SystemReserve(c, m) + CpuLoadBytes(c, resident) + MIN_RUNTIME_WORKSPACE_BYTES <= m.systemAvailable
  {
    hide SystemReserve, CpuLoadBytes;
  }

  lemma AcceleratorRoom(c: Settings, m: Memory, preferred: Backend, resident: bool)
    requires ValidSettings(c) && StaysOnAccelerator(c, m, preferred, resident)
    ensures SystemReserve(c, m) + MIN_RUNTIME_WORKSPACE_BYTES <= m.systemAvailable
    ensures AcceleratorReserve(c, m, preferred, resident) + AcceleratorLoadBytes(c, preferred, resident) + MIN_RUNTIME_WORKSPACE_BYTES
            <= Max(OrZero(m.acceleratorFree), m.systemAvailable - SystemReserve(c, m))
  {
    hide SystemReserve, AcceleratorReserve, AcceleratorModelBytes, BorrowsSystemMemory;
    ModelTakesSpace(c, preferred);
  }

  // ---- exactly which plan

  lemma BackendsSpelled(b: Backend)
    ensures b.SharedMemory() <==> b in {Mps, Npu, OpenVino, CoreMl, VitisAi, AppleAne, AmdPhoenixNpu, AmdRyzenAiNpu}
    ensures b.FailClosed() <==> b in {Npu, OpenVino, VitisAi, AppleAne, AmdPhoenixNpu, AmdRyzenAiNpu}
  {
  }

  /** The amounts that the plan is about: what the model takes, and what is kept in reserve. */
  datatype Amounts = Amounts(reserve: int, load: int, staging: int, own: int, workspace: int)

  function AmountsOf(c: Settings, m: Memory, preferred: Backend, resident: bool): Amounts {
    var quarter := m.systemAvailable / 4;
    var capped := if quarter <= 2147483648 then quarter else 2147483648;
    var model := c.modelParameterCount * if preferred == CoreMl || (preferred == Mps && c.mpsFloat32) then 4 else 2;
    var tenth := (if m.acceleratorTotal.Some? then m.acceleratorTotal.value else 0) / 10;
    Amounts(
      if c.minSystemReserve >= capped then c.minSystemReserve else capped,
      if resident then 0 else model * 6 / 5,
      if resident then 0 else model * 11 / 10,
      if c.minAcceleratorReserve >= tenth then c.minAcceleratorReserve else tenth,
      536870912)
  }

  /** The accelerator's own memory suffices. */
  predicate OwnMemorySuffices(m: Memory, a: Amounts) {
    m.acceleratorFree.Some? && m.acceleratorFree.value >= a.own + a.load + a.workspace
  }

  /** System memory beyond the reserve holds the model, and the larger of the two memories also
      the reserve of the accelerator, of which no more than half a gibibyte is kept then. */
  predicate SystemMemorySuffices(m: Memory, a: Amounts) {
    var spare := m.systemAvailable - a.reserve;
    var kept := if a.own <= 536870912 then a.own else 536870912;
    && spare >= a.load + a.workspace
    && (spare >= kept + a.load + a.workspace
        || (m.acceleratorFree.Some? && m.acceleratorFree.value >= kept + a.load + a.workspace))
  }

  predicate Lends(m: Memory, a: Amounts) { m.systemAvailable - a.reserve >= a.load + a.workspace }

  /** Exactly when an accelerator is used: there is room in the system to stage the model, and
      the accelerator has the memory, of its own or lent by the system. */
  predicate HasRoom(m: Memory, preferred: Backend, a: Amounts) {
    && m.systemAvailable >= a.reserve + a.staging + a.workspace
    && if preferred in {Mps, Npu, OpenVino, CoreMl, VitisAi, AppleAne, AmdPhoenixNpu, AmdRyzenAiNpu}
       then if Lends(m, a) then SystemMemorySuffices(m, a) else OwnMemorySuffices(m, a)
       else
         && m.acceleratorTotal.Some? && m.acceleratorTotal.value > 0 && m.acceleratorFree.Some?
         && (OwnMemorySuffices(m, a)
             || (preferred == Rocm && m.acceleratorTotal.value >= 2147483648 && SystemMemorySuffices(m, a)))
  }

  lemma AmountsAgree(c: Settings, m: Memory, preferred: Backend, resident: bool)
    ensures var a := AmountsOf(c, m, preferred, resident);
            && a.reserve == SystemReserve(c, m) && a.load == AcceleratorLoadBytes(c, preferred, resident)
            && a.own == BaseAcceleratorReserve(c, m) && a.workspace == MIN_RUNTIME_WORKSPACE_BYTES
            && a.staging == if resident then 0 else AcceleratorModelBytes(c, preferred) * 11 / 10
    ensures ValidSettings(c) ==> AcceleratorLoadBytes(c, preferred, resident) >= 0
  {
  }

  lemma SharedRoom(c: Settings, m: Memory, preferred: Backend, resident: bool)
    requires ValidSettings(c) && preferred.SharedMemory()
    ensures AcceleratorFits(c, m, preferred, resident) <==>
            var a := AmountsOf(c, m, preferred, resident);
            if Lends(m, a) then SystemMemorySuffices(m, a) else OwnMemorySuffices(m, a)
  {
    hide AmountsOf, SystemReserve, AcceleratorLoadBytes, BaseAcceleratorReserve, AcceleratorModelBytes;
    AmountsAgree(c, m, preferred, resident);
  }

  lemma OwnRoom(c: Settings, m: Memory, preferred: Backend, resident: bool)
    requires ValidSettings(c) && !preferred.SharedMemory() && preferred != Rocm
    ensures AcceleratorFits(c, m, preferred, resident) <==>
            OrZero(m.acceleratorTotal) > 0 && OwnMemorySuffices(m, AmountsOf(c, m, preferred, resident))
  {
    hide AmountsOf, SystemReserve, AcceleratorLoadBytes, BaseAcceleratorReserve, AcceleratorModelBytes;
    AmountsAgree(c, m, preferred, resident);
  }

  lemma RocmRoom(c: Settings, m: Memory, resident: bool)
    requires ValidSettings(c)
    ensures AcceleratorFits(c, m, Rocm, resident) <==>
            var a := AmountsOf(c, m, Rocm, resident);
            && OrZero(m.acceleratorTotal) > 0 && m.acceleratorFree.Some?
            && (OwnMemorySuffices(m, a) || (OrZero(m.acceleratorTotal) >= 2147483648 && SystemMemorySuffices(m, a)))
  {
    hide AmountsOf, SystemReserve, AcceleratorLoadBytes, BaseAcceleratorReserve, AcceleratorModelBytes;
    AmountsAgree(c, m, Rocm, resident);
  }

  lemma StagingRoom(c: Settings, m: Memory, preferred: Backend, resident: bool)
    ensures var a := AmountsOf(c, m, preferred, resident);
            StagingFits(c, m, preferred, resident) <==> m.systemAvailable >= a.reserve + a.staging + a.workspace
  {
    hide AmountsOf, SystemReserve, AcceleratorLoadBytes, BaseAcceleratorReserve, AcceleratorModelBytes;
    AmountsAgree(c, m, preferred, resident);
  }

  lemma RoomExactly(c: Settings, m: Memory, preferred: Backend, resident: bool)
    requires ValidSettings(c)
    ensures StaysOnAccelerator(c, m, preferred, resident) <==> HasRoom(m, preferred, AmountsOf(c, m, preferred, resident))
  {
    hide AmountsOf, AcceleratorFits, StagingFits, OwnMemorySuffices, SystemMemorySuffices, Lends;
    StagingRoom(c, m, preferred, resident);
    NeedsFree(m, AmountsOf(c, m, preferred, resident));
    if preferred.SharedMemory() {
      SharedRoom(c, m, preferred, resident);
    } else if preferred == Rocm {
      RocmRoom(c, m, resident);
    } else {
      OwnRoom(c, m, preferred, resident);
    }
  }

  lemma NeedsFree(m: Memory, a: Amounts)
    ensures OwnMemorySuffices(m, a) ==> m.acceleratorFree.Some?
  {
  }

  /** The preferred accelerator is used exactly when it has room; the CPU takes over exactly when
      it has none, the accelerator may be replaced, and the CPU has room. */
  lemma PlanExactly(c: Settings, m: Memory, preferred: Backend, resident: bool)
    requires ValidSettings(c) && preferred != Cpu
    ensures var p, a := BuildRuntimePlan(c, m, preferred, resident), AmountsOf(c, m, preferred, resident);
            var cpuLoad := if resident then 0 else c.modelParameterCount * 4 * 6 / 5;
            var cpuRoom := m.systemAvailable >= a.reserve + cpuLoad + a.workspace;
            && (p.usable && p.backend == Some(preferred) <==> HasRoom(m, preferred, a))
            && (p.usable && p.backend == Some(Cpu) <==>
                  !HasRoom(m, preferred, a) && cpuRoom && preferred !in {Npu, OpenVino, VitisAi, AppleAne, AmdPhoenixNpu, AmdRyzenAiNpu})
  {
    hide StaysOnAccelerator, HasRoom, CpuFits, SystemReserve, AcceleratorReserve, AcceleratorModelBytes, AmountsOf,
         PowerOfTwoFloor, CpuThreads, CpuBudget, AcceleratorBudget, ItemBytes, ThreadLimit;
    AmountsAgree(c, m, preferred, resident);
    RoomExactly(c, m, preferred, resident);
    CpuRoom(c, m, resident);
  }

  /** Of the accelerator's reserve no more than half a gibibyte is kept while memory is lent. */
  lemma ReserveExactly(c: Settings, m: Memory, preferred: Backend, resident: bool)
    requires ValidSettings(c)
    ensures var p, a := BuildRuntimePlan(c, m, preferred, resident), AmountsOf(c, m, preferred, resident);
            var shared := preferred in {Mps, Npu, OpenVino, CoreMl, VitisAi, AppleAne, AmdPhoenixNpu, AmdRyzenAiNpu};
            var short := m.acceleratorFree.Some? && m.acceleratorTotal.Some? && m.acceleratorTotal.value >= 2147483648 && !OwnMemorySuffices(m, a);
            var lent := Lends(m, a) && (shared || (preferred == Rocm && short));
            && p.systemReserve == a.reserve
            && p.acceleratorReserve == if preferred == Cpu then 0 else if lent && a.own > 536870912 then 536870912 else a.own
  {
    hide StaysOnAccelerator, CpuFits, SystemReserve, AcceleratorReserve, AcceleratorModelBytes, AmountsOf, AcceleratorLoadBytes,
         PowerOfTwoFloor, CpuThreads, CpuBudget, AcceleratorBudget, ItemBytes, ThreadLimit, OwnMemorySuffices, Lends;
    AmountsAgree(c, m, preferred, resident);
    LendingExactly(c, m, preferred, resident);
  }

  lemma LendingExactly(c: Settings, m: Memory, preferred: Backend, resident: bool)
    ensures var a := AmountsOf(c, m, preferred, resident);
            var short := m.acceleratorFree.Some? && m.acceleratorTotal.Some? && m.acceleratorTotal.value >= 2147483648 && !OwnMemorySuffices(m, a);
            var lent := Lends(m, a) && (preferred.SharedMemory() || (preferred == Rocm && short));
            AcceleratorReserve(c, m, preferred, resident) == if lent && a.own > 536870912 then 536870912 else a.own
  {
    hide SystemReserve, BaseAcceleratorReserve, AcceleratorModelBytes, AmountsOf, AcceleratorLoadBytes;
    AmountsAgree(c, m, preferred, resident);
  }

  /** The model is counted at four bytes a parameter on the CPU, and as the accelerator stores it
      where that is used or must not be replaced. */
  lemma ModelBytesExactly(c: Settings, m: Memory, preferred: Backend, resident: bool)
    requires ValidSettings(c)
    ensures var p := BuildRuntimePlan(c, m, preferred, resident);
            var own := c.modelParameterCount * if preferred == CoreMl || (preferred == Mps && c.mpsFloat32) then 4 else 2;
            p.modelBytes == if preferred != Cpu && (preferred.FailClosed() || p.backend == Some(preferred)) then own else c.modelParameterCount * 4
  {
    hide StaysOnAccelerator, CpuFits, SystemReserve, AcceleratorReserve,
         PowerOfTwoFloor, CpuThreads, CpuBudget, AcceleratorBudget, ItemBytes, ThreadLimit;
  }

  lemma CpuPlanExactly(c: Settings, m: Memory, resident: bool)
    requires ValidSettings(c)
    ensures var p := BuildRuntimePlan(c, m, Cpu, resident);
            var cpuLoad := if resident then 0 else c.modelParameterCount * 4 * 6 / 5;
            p.usable <==> m.systemAvailable >= AmountsOf(c, m, Cpu, resident).reserve + cpuLoad + 536870912
  {
    hide CpuFits, SystemReserve, PowerOfTwoFloor, CpuThreads, CpuBudget, ItemBytes, ThreadLimit, AmountsOf;
    AmountsAgree(c, m, Cpu, resident);
    CpuRoom(c, m, resident);
  }

  // ---- the largest batch

  lemma QuotientMaximal(budget: nat, item: nat, n: nat)
    requires item > 0 && n > budget / item
    ensures n * item > budget
  {
    assert n * item >= (budget / item + 1) * item;
  }

  /** The bytes of an item scale with sequence and model. */
  lemma ItemBytesExactly(c: Settings, base: nat)
    requires ValidSettings(c) && base >= 8
    ensures var exact := base as real * c.sequenceScale * c.modelScale;
            ItemBytes(c, base) as real <= exact < ItemBytes(c, base) as real + 1.0
  {
    assert base as real * c.sequenceScale >= 2.0;
    assert base as real * c.sequenceScale * c.modelScale >= 1.0;
  }

  lemma ThreadCapExactly(c: Settings, threads: nat)
    requires ValidSettings(c)
    ensures ThreadCap(c, threads) as real <= Ratio(c, threads) < ThreadCap(c, threads) as real + 1.0
    ensures Ratio(c, threads) * (c.sequenceScale * c.modelScale) == (threads * 2) as real
  {
    RatioSpelled(c, threads);
    hide Ratio;
    FloorBounds(Ratio(c, threads));
  }

  lemma RatioSpelled(c: Settings, threads: nat)
    requires ValidSettings(c)
    ensures Ratio(c, threads) * (c.sequenceScale * c.modelScale) == (threads * 2) as real
  {
    assert c.sequenceScale * c.modelScale > 0.0;
  }

  lemma FloorBounds(x: real)
    ensures x.Floor as real <= x < x.Floor as real + 1.0
  {
  }

  /** Twice the batch of an accelerator would exceed the maximum or what its memory holds. */
  lemma AcceleratorBatchMaximal(c: Settings, m: Memory, preferred: Backend, resident: bool)
    requires ValidSettings(c) && preferred != Cpu
    ensures var p := BuildRuntimePlan(c, m, preferred, resident);
            var free := if m.acceleratorFree.Some? then m.acceleratorFree.value else 0;
            var work := 2 * p.batchSize * ItemBytes(c, 67108864);
            p.usable && p.backend == Some(preferred) ==>
              || 2 * p.batchSize > c.maxBatchSize
              || p.acceleratorReserve + AmountsOf(c, m, preferred, resident).load + work > free
              || 2 * work > free
  {
    hide StaysOnAccelerator, CpuFits, SystemReserve, AcceleratorReserve, CpuModelBytes, AcceleratorModelBytes,
         PowerOfTwoFloor, CpuThreads, CpuBudget, ItemBytes, ThreadLimit, AcceleratorLoadBytes, AmountsOf;
    AmountsAgree(c, m, preferred, resident);
    var p := AcceleratorPlan(c, m, preferred, resident);
    var item, budget := ItemBytes(c, ACCELERATOR_BATCH_ITEM_BYTES), AcceleratorBudget(c, m, preferred, resident);
    if 2 * p.batchSize <= c.maxBatchSize {
      QuotientMaximal(budget, item, 2 * p.batchSize);
    }
  }

  lemma BudgetExceeded(c: Settings, m: Memory, resident: bool, work: nat)
    requires work > CpuBudget(c, m, resident)
    ensures SystemReserve(c, m) + CpuLoadBytes(c, resident) + work > m.systemAvailable || 2 * work > m.systemAvailable
  {
    hide SystemReserve, CpuLoadBytes;
  }

  /** On the CPU: the maximum, the cap by threads, or what is left beside the threads. */
  lemma CpuBatchMaximal(c: Settings, m: Memory, preferred: Backend, resident: bool)
    requires ValidSettings(c)
    ensures var p := BuildRuntimePlan(c, m, preferred, resident);
            var work := p.cpuThreads * 67108864 + 2 * p.batchSize * ItemBytes(c, 134217728);
            p.usable && p.backend == Some(Cpu) ==>
              || 2 * p.batchSize > c.maxBatchSize || 2 * p.batchSize > 2 || 2 * p.batchSize > ThreadCap(c, p.cpuThreads)
              || p.systemReserve + (if resident then 0 else c.modelParameterCount * 4 * 6 / 5) + work > m.systemAvailable
              || 2 * work > m.systemAvailable
  {
    hide StaysOnAccelerator, CpuFits, SystemReserve, AcceleratorReserve, AcceleratorModelBytes,
         PowerOfTwoFloor, CpuThreads, ItemBytes, ThreadLimit, AcceleratorBudget, ThreadCap, CpuBudget;
    var reserve := if preferred.Cpu? then 0 else AcceleratorReserve(c, m, preferred, resident);
    CpuPlanMaximal(c, m, preferred, reserve, resident);
    var p := CpuPlan(c, m, preferred, reserve, resident);
    var work := p.cpuThreads * CPU_THREAD_WORKSPACE_BYTES + 2 * p.batchSize * ItemBytes(c, CPU_BATCH_ITEM_BYTES);
    if work > CpuBudget(c, m, resident) {
      BudgetExceeded(c, m, resident, work);
    }
  }

  lemma CpuPlanMaximal(c: Settings, m: Memory, preferred: Backend, reserve: nat, resident: bool)
    requires ValidSettings(c)
    ensures var p := CpuPlan(c, m, preferred, reserve, resident);
            || 2 * p.batchSize > c.maxBatchSize || 2 * p.batchSize > 2 || 2 * p.batchSize > ThreadCap(c, p.cpuThreads)
            || p.cpuThreads * CPU_THREAD_WORKSPACE_BYTES + 2 * p.batchSize * ItemBytes(c, CPU_BATCH_ITEM_BYTES) > CpuBudget(c, m, resident)
  {
    hide PowerOfTwoFloor, ItemBytes, CpuBudget, SystemReserve, CpuModelBytes, CpuThreads, ThreadCap;
    var p := CpuPlan(c, m, preferred, reserve, resident);
    var item := ItemBytes(c, CPU_BATCH_ITEM_BYTES);
    var remaining := Max(0, CpuBudget(c, m, resident) - CpuThreads(c, m, resident) * CPU_THREAD_WORKSPACE_BYTES);
    if 2 * p.batchSize > remaining / item {
      QuotientMaximal(remaining, item, 2 * p.batchSize);
    }
  }

  lemma ThreadLimitSpelled(c: Settings)
    requires ValidSettings(c)
    ensures var quarter := c.logicalCpuCount / 4;
            var wanted := if c.maxCpuThreads.Some? then c.maxCpuThreads.value else if quarter < 1 then 1 else if quarter > 2 then 2 else quarter;
            ThreadLimit(c) == if wanted <= c.logicalCpuCount then wanted else c.logicalCpuCount
  {
  }

  /** As many threads as allowed and as the budget has headroom for, at least one. */
  lemma ThreadsExactly(c: Settings, m: Memory, preferred: Backend, resident: bool)
    requires ValidSettings(c)
    ensures var p, limit, most := BuildRuntimePlan(c, m, preferred, resident), ThreadLimit(c), if preferred == Mps then 4 else 8;
            && (p.usable && preferred != Cpu && p.backend == Some(preferred) ==> p.cpuThreads == if limit <= most then limit else most)
            && (p.usable && p.backend == Some(Cpu) ==>
                  && 1 <= p.cpuThreads <= limit
                  && (p.cpuThreads > 1 ==> p.cpuThreads * 402653184 <= CpuBudget(c, m, resident))
                  && (p.cpuThreads < limit ==> (p.cpuThreads + 1) * 402653184 > CpuBudget(c, m, resident)))
  {
    hide StaysOnAccelerator, CpuFits, SystemReserve, AcceleratorReserve, CpuModelBytes, AcceleratorModelBytes,
         PowerOfTwoFloor, CpuBudget, ItemBytes, AcceleratorBudget, CpuThreads, ThreadCap, ThreadLimit;
    CpuThreadsExactly(c, m, resident);
  }

  lemma CpuThreadsExactly(c: Settings, m: Memory, resident: bool)
    requires ValidSettings(c)
    ensures var t, budget := CpuThreads(c, m, resident), CpuBudget(c, m, resident);
            && 1 <= t <= ThreadLimit(c) && (t > 1 ==> t * 402653184 <= budget) && (t < ThreadLimit(c) ==> (t + 1) * 402653184 > budget)
  {
    hide CpuBudget;
  }

  lemma QuotientFits(budget: nat, item: nat, batch: nat)
    requires item > 0 && batch <= budget / item
    ensures batch * item <= budget
  {
    assert batch * item <= (budget / item) * item;
  }

  /** What a CPU batch of more than one item may use. */
  lemma CpuBatchWithinBudget(c: Settings, m: Memory, preferred: Backend, reserve: nat, resident: bool)
    requires ValidSettings(c)
    ensures var p := CpuPlan(c, m, preferred, reserve, resident);
            p.batchSize > 1 ==>
              p.cpuThreads * CPU_THREAD_WORKSPACE_BYTES + p.batchSize * ItemBytes(c, CPU_BATCH_ITEM_BYTES)
              <= CpuBudget(c, m, resident)
  {
    hide PowerOfTwoFloor, ItemBytes, CpuBudget, SystemReserve, CpuModelBytes, CpuThreads, ThreadCap;
    var p := CpuPlan(c, m, preferred, reserve, resident);
    var item := ItemBytes(c, CPU_BATCH_ITEM_BYTES);
    var remaining := Max(0, CpuBudget(c, m, resident) - CpuThreads(c, m, resident) * CPU_THREAD_WORKSPACE_BYTES);
    if p.batchSize > 1 {
      assert p.batchSize <= remaining / item;
      QuotientFits(remaining, item, p.batchSize);
      assert p.batchSize * item >= 1;
    }
  }

  /** The CPU budget lies within what reserve and model leave, and within half of memory. */
  lemma CpuBudgetFits(c: Settings, m: Memory, resident: bool)
    requires CpuFits(c, m, resident)
    ensures SystemReserve(c, m) + CpuLoadBytes(c, resident) + CpuBudget(c, m, resident) <= m.systemAvailable
    ensures 2 * CpuBudget(c, m, resident) <= m.systemAvailable
  {
    hide SystemReserve, CpuLoadBytes;
  }

  /** A batch of more than one item fits: on the CPU, reserve, model load, threads and batch
      together stay within the available memory, and threads and batch within half of it. */
  lemma CpuBatchFits(c: Settings, m: Memory, preferred: Backend, resident: bool)
    requires ValidSettings(c)
    ensures var p := BuildRuntimePlan(c, m, preferred, resident);
            p.usable && p.backend == Some(Cpu) && p.batchSize > 1 ==>
              var work := p.cpuThreads * CPU_THREAD_WORKSPACE_BYTES + p.batchSize * ItemBytes(c, CPU_BATCH_ITEM_BYTES);
              && p.systemReserve + CpuLoadBytes(c, resident) + work <= m.systemAvailable
              && 2 * work <= m.systemAvailable
  {
    hide StaysOnAccelerator, CpuFits, SystemReserve, AcceleratorReserve, CpuModelBytes, AcceleratorModelBytes,
         PowerOfTwoFloor, CpuThreads, CpuBudget, AcceleratorBudget, ItemBytes, ThreadLimit, CpuLoadBytes;
    var reserve := if preferred.Cpu? then 0 else AcceleratorReserve(c, m, preferred, resident);
    CpuBatchWithinBudget(c, m, preferred, reserve, resident);
    if CpuFits(c, m, resident) {
      CpuBudgetFits(c, m, resident);
    }
  }

  /** On an accelerator, reserve, model load and batch stay within its free memory, and the
      batch within half of it. */
  lemma AcceleratorBatchFits(c: Settings, m: Memory, preferred: Backend, resident: bool)
    requires ValidSettings(c) && !preferred.Cpu?
    ensures var p := BuildRuntimePlan(c, m, preferred, resident);
            p.usable && p.backend == Some(preferred) && p.batchSize > 1 ==>
              var work := p.batchSize * ItemBytes(c, ACCELERATOR_BATCH_ITEM_BYTES);
              && m.acceleratorFree.Some?
              && p.acceleratorReserve + AcceleratorLoadBytes(c, preferred, resident) + work <= m.acceleratorFree.value
              && 2 * work <= m.acceleratorFree.value
  {
    hide StaysOnAccelerator, CpuFits, SystemReserve, AcceleratorReserve, CpuModelBytes, AcceleratorModelBytes,
         PowerOfTwoFloor, CpuThreads, CpuBudget, ItemBytes, ThreadLimit, AcceleratorLoadBytes;
    var p := AcceleratorPlan(c, m, preferred, resident);
    var item := ItemBytes(c, ACCELERATOR_BATCH_ITEM_BYTES);
    var budget := AcceleratorBudget(c, m, preferred, resident);
    if p.batchSize > 1 {
      assert p.batchSize <= budget / item;
      QuotientFits(budget, item, p.batchSize);
      assert p.batchSize * item >= 1;
    }
  }

  /** If loading the model is planned on a backend, running it there once it is resident is
      planned too, at the same memory. */
  lemma ResidencyMonotone(c: Settings, m: Memory, preferred: Backend)
    requires ValidSettings(c)
    requires var p := BuildRuntimePlan(c, m, preferred, false); p.usable && p.backend == Some(preferred)
    ensures var p := BuildRuntimePlan(c, m, preferred, true); p.usable && p.backend == Some(preferred)
  {
    hide StaysOnAccelerator, CpuFits, CpuModelBytes, AcceleratorModelBytes, SystemReserve, AcceleratorReserve,
         PowerOfTwoFloor, CpuThreads, CpuBudget, AcceleratorBudget, ItemBytes, ThreadLimit;
    if preferred.Cpu? {
      ResidentCpuFits(c, m);
    } else {
      ResidentAcceleratorFits(c, m, preferred);
    }
  }

  lemma ResidentCpuFits(c: Settings, m: Memory)
    requires ValidSettings(c) && CpuFits(c, m, false)
    ensures CpuFits(c, m, true)
  {
    hide SystemReserve;
  }

  lemma ResidentAcceleratorFits(c: Settings, m: Memory, preferred: Backend)
    requires ValidSettings(c) && StaysOnAccelerator(c, m, preferred, false)
    ensures StaysOnAccelerator(c, m, preferred, true)
  {
    hide SystemReserve, AcceleratorModelBytes, BaseAcceleratorReserve;
    ModelTakesSpace(c, preferred);
  }

  lemma ModelTakesSpace(c: Settings, preferred: Backend)
    requires ValidSettings(c)
    ensures AcceleratorModelBytes(c, preferred) >= 0
  {
  }
}
