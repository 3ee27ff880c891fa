/**
 The advisor's arithmetic and its state as a value. `Advisor` holds the class that
 works in place and is proved against `Configure`, `Observe` and `Recommend` below.
 */
module AdvisorModel {
  import opened Numbers
  import opened Tiers
  import opened SampleWindow
  import OrderStats

  datatype Config = Config(
    windowSeconds: int,
    intervalSeconds: int,
    algorithm: string,
    ewmaAlpha: real,
    cpuTargetPercent: int,
    memoryTargetPercent: int,
    headroomPercent: int,
    maxReclaimPercent: int,
    minReclaimCPUMilli: int,
    minReclaimMemBytes: int,
    memoryPressureThresholdPercent: int,
    cpuPressureThresholdPercent: int,
    cpuStallThresholdPercent: int,
    growthStepPercent: int)

  const DEFAULT_CONFIG := Config(
    300, 10, "p95", 0.3, 75, 65, 10, 50, 200, 256 * MIB, 85, 92, 40, 25)

  datatype PodSample = PodSample(level: Level, cpuMilli: real, memoryBytes: nat, valid: bool)

  datatype NodeSample = NodeSample(
    timestamp: Time,
    valid: bool,
    cpuMilli: real,
    memoryBytes: nat,
    cpuSomeAvg10: real,
    memoryFullAvg10: real,
    pods: seq<PodSample>)

  datatype Pressure = Pressure(
    level: PressureLevel,
    cpuUtilizationPercent: int,
    memoryUtilizationPercent: int,
    cpuSomeStalledPercent: int,
    memoryFullStalledPercent: int)

  datatype Recommendation = Recommendation(
    cpuMilli: int,
    memoryBytes: int,
    protectedCPUMilli: int,
    protectedMemoryBytes: int,
    pressure: Pressure,
    confidence: string,
    reason: string,
    revision: int)

  const NO_VERDICT := Recommendation(0, 0, 0, 0, Pressure(Unset, 0, 0, 0, 0), "", "", 0)

  datatype State = State(
    cfg: Config,
    protectedCPU: Ring,
    protectedMemory: Ring,
    nodeCPU: Ring,
    nodeMemory: Ring,
    cpuPSI: Ring,
    memPSI: Ring,
    last: Recommendation,
    revision: int)

  // ----- configuration -----

  function RingCapacity(cfg: Config): int {
    var interval := if cfg.intervalSeconds < 1 then 1 else cfg.intervalSeconds;
    var capacity := GoDiv(cfg.windowSeconds, interval);
    if capacity < 3 then 3 else capacity
  }

  function FreshRing(cfg: Config): Ring {
    EmptyRing(RingCapacity(cfg), cfg.windowSeconds * SECOND)
  }

  function Resized(st: State): State {
    var r := FreshRing(st.cfg);
    st.(protectedCPU := r, protectedMemory := r, nodeCPU := r, nodeMemory := r, cpuPSI := r, memPSI := r)
  }

  function New(cfg: Config): State {
    var r := FreshRing(cfg);
    State(cfg, r, r, r, r, r, r, NO_VERDICT, 0)
  }

  function Configure(st: State, cfg: Config): State {
    var st' := st.(cfg := cfg);
    if cfg.windowSeconds != st.cfg.windowSeconds || cfg.intervalSeconds != st.cfg.intervalSeconds
    then Resized(st')
    else st'
  }

  // ----- observation -----

  /** CPU of the tiers kqos guarantees; a pod without a valid rate contributes none. */
  function ProtectedCPU(pods: seq<PodSample>): real {
    if pods == [] then 0.0
    else
      var p := pods[|pods| - 1];
      ProtectedCPU(pods[..|pods| - 1]) +
      if p.level == ReclaimedCores || !p.valid then 0.0 else p.cpuMilli
  }

  /** Memory of the same tiers; here validity is not consulted. */
  function ProtectedMemory(pods: seq<PodSample>): nat {
    if pods == [] then 0
    else
      var p := pods[|pods| - 1];
      ProtectedMemory(pods[..|pods| - 1]) + if p.level == ReclaimedCores then 0 else p.memoryBytes
  }

  function Observe(st: State, s: NodeSample): State {
    if !s.valid then st
    else
      st.(protectedCPU := PushObs(st.protectedCPU, Obs(ProtectedCPU(s.pods), s.timestamp)),
          protectedMemory := PushObs(st.protectedMemory, Obs(ProtectedMemory(s.pods) as real, s.timestamp)),
          nodeCPU := PushObs(st.nodeCPU, Obs(s.cpuMilli, s.timestamp)),
          nodeMemory := PushObs(st.nodeMemory, Obs(s.memoryBytes as real, s.timestamp)),
          cpuPSI := PushObs(st.cpuPSI, Obs(s.cpuSomeAvg10, s.timestamp)),
          memPSI := PushObs(st.memPSI, Obs(s.memoryFullAvg10, s.timestamp)))
  }

  // ----- the verdict -----

  /** A percentage of an amount, in Go's integer arithmetic. */
  function Share(amount: int, percent: int): int {
    GoDiv(amount * percent, 100)
  }

  function Reclaimable(cfg: Config, allocatable: int, protected: int, targetPercent: int, floor: int): (int, string) {
    if allocatable <= 0 then (0, "no-allocatable")
    else
      var value := Share(allocatable, targetPercent) - protected - Share(allocatable, cfg.headroomPercent);
      if value <= 0 then (0, "no-headroom")
      else
        var cap := Share(allocatable, cfg.maxReclaimPercent);
        var (capped, reason) := if value > cap then (cap, "max-reclaim-cap") else (value, "usage-derived");
        if capped < floor then (0, "below-floor") else (capped, reason)
  }

  /** The part of a gap that one step closes. */
  function Portion(step: int, gap: int): int {
    GoDiv(gap * step, 100)
  }

  /** Falls at once, rises by a percentage of the gap and by at least one. */
  function Damp(step: int, current: int, target: int): int {
    if target <= current || step <= 0 || step >= 100 then target
    else
      var portion := Portion(step, target - current);
      var next := current + if portion < 1 then 1 else portion;
      if next > target then target else next
  }

  function Pct(part: int, whole: int): int {
    if whole <= 0 then 0
    else
      var v := GoDiv(part * 100, whole);
      if v < 0 then 0 else if v > 100 then 100 else v
  }

  function Classify(cfg: Config, cpuUtil: int, memUtil: int, cpuStall: real, memStall: real): PressureLevel {
    if || memUtil >= cfg.memoryPressureThresholdPercent
       || cpuUtil >= cfg.cpuPressureThresholdPercent
       || cpuStall >= cfg.cpuStallThresholdPercent as real
       || memStall >= 10.0
    then Critical
    else if || memUtil >= cfg.memoryPressureThresholdPercent - 10
            || cpuUtil >= cfg.cpuPressureThresholdPercent - 10
            || cpuStall >= cfg.cpuStallThresholdPercent as real / 2.0
    then Moderate
    else NoPressure
  }

  function PressureAt(st: State, cpuAlloc: int, memAlloc: int, now: Time): Pressure {
    var cpuUtil := Pct(Trunc(OrderStats.Percentile(LiveAt(st.nodeCPU, now), 90)), cpuAlloc);
    var memUtil := Pct(Trunc(OrderStats.Max(LiveAt(st.nodeMemory, now))), memAlloc);
    var cpuStall := OrderStats.Percentile(LiveAt(st.cpuPSI, now), 90);
    var memStall := OrderStats.Percentile(LiveAt(st.memPSI, now), 90);
    Pressure(Classify(st.cfg, cpuUtil, memUtil, cpuStall, memStall), cpuUtil, memUtil, Round(cpuStall), Round(memStall))
  }

  function RelDiff(a: int, b: int): real {
    if a == b then 0.0
    else if a == 0 then 1.0
    else Numbers.Abs(b - a) as real / Numbers.Abs(a) as real
  }

  predicate MateriallyDiffers(last: Recommendation, rec: Recommendation) {
    || last.pressure.level != rec.pressure.level
    || RelDiff(last.cpuMilli, rec.cpuMilli) > 0.02
    || RelDiff(last.memoryBytes, rec.memoryBytes) > 0.02
  }

  function ProtectedCPUAt(st: State, now: Time): int {
    Trunc(AggregateOf(st.cfg.algorithm, st.cfg.ewmaAlpha, LiveAt(st.protectedCPU, now)))
  }

  /** Memory is always judged by the window maximum. */
  function ProtectedMemoryAt(st: State, now: Time): int {
    Trunc(OrderStats.Max(LiveAt(st.protectedMemory, now)))
  }

  function CPUTarget(st: State, cpuAlloc: int, now: Time): (int, string) {
    Reclaimable(st.cfg, cpuAlloc, ProtectedCPUAt(st, now), st.cfg.cpuTargetPercent, st.cfg.minReclaimCPUMilli)
  }

  function MemoryTarget(st: State, memAlloc: int, now: Time): (int, string) {
    Reclaimable(st.cfg, memAlloc, ProtectedMemoryAt(st, now), st.cfg.memoryTargetPercent, st.cfg.minReclaimMemBytes)
  }

  function ConfidenceAt(st: State, now: Time): string {
    if |st.protectedCPU.obs| != st.protectedCPU.capacity then "Low"
    else if |LiveAt(st.protectedCPU, now)| < st.protectedCPU.capacity / 2 then "Medium"
    else "High"
  }

  /** The verdict before its revision is numbered. */
  function Verdict(st: State, cpuAlloc: int, memAlloc: int, now: Time): Recommendation {
    var (cpuTarget, cpuReason) := CPUTarget(st, cpuAlloc, now);
    var (memTarget, memReason) := MemoryTarget(st, memAlloc, now);
    var pressure := PressureAt(st, cpuAlloc, memAlloc, now);
    var critical := pressure.level == Critical;
    Recommendation(
      if critical then 0 else Damp(st.cfg.growthStepPercent, st.last.cpuMilli, cpuTarget),
      if critical then 0 else Damp(st.cfg.growthStepPercent, st.last.memoryBytes, memTarget),
      ProtectedCPUAt(st, now),
      ProtectedMemoryAt(st, now),
      pressure,
      ConfidenceAt(st, now),
      if critical then "critical-pressure" else cpuReason + "/" + memReason,
      st.revision)
  }

  /** The state after a verdict; the verdict itself is its `last`. */
  function Recommend(st: State, cpuAlloc: int, memAlloc: int, now: Time): State {
    var rec := Verdict(st, cpuAlloc, memAlloc, now);
    var revision := if MateriallyDiffers(st.last, rec) then st.revision + 1 else st.revision;
    st.(last := rec.(revision := revision), revision := revision)
  }

  // ----- whole runs -----

  datatype Event =
    | SetConfig(cfg: Config)
    | Sample(sample: NodeSample)
    | Tick(cpuAlloc: int, memAlloc: int, now: Time)

  function Step(st: State, e: Event): State {
    match e
    case SetConfig(cfg) => Configure(st, cfg)
    case Sample(s) => Observe(st, s)
    case Tick(cpuAlloc, memAlloc, now) => Recommend(st, cpuAlloc, memAlloc, now)
  }

  function Run(st: State, es: seq<Event>): State {
    if es == [] then st else Step(Run(st, es[..|es| - 1]), es[|es| - 1])
  }
}
