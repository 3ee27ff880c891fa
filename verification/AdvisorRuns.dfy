/**
 What the advisor guarantees over whole runs: its offers are bounded, move against load,
 ignore what the reclaimed tier does, and converge when nothing changes.
 */
module AdvisorRuns {
  import opened Numbers
  import opened Tiers
  import opened SampleWindow
  import opened AdvisorModel
  import OrderStats

  // ----- the two resources -----

  datatype Resource = Compute | Memory

  function OfferOf(rec: Recommendation, r: Resource): int {
    if r.Compute? then rec.cpuMilli else rec.memoryBytes
  }

  function TargetOf(st: State, e: Event, r: Resource): int
    requires e.Tick?
  {
    if r.Compute? then CPUTarget(st, e.cpuAlloc, e.now).0 else MemoryTarget(st, e.memAlloc, e.now).0
  }

  // ----- the damping law -----

  /** One damped rise: strictly up, never past the target, and closing the gap by the step. */
  lemma DampLaw(step: int, current: int, target: int)
    ensures target <= current ==> Damp(step, current, target) == target
    ensures current < target ==> current < Damp(step, current, target) <= target
    ensures current < target && 0 < step < 100 ==>
              100 * (target - Damp(step, current, target)) < (100 - step) * (target - current) + 100
  {
    if current < target && 0 < step < 100 {
      var gap := target - current;
      GoDivBounds(gap * step, 100);
      assert (100 - step) * gap == 100 * gap - gap * step;
    }
  }

  lemma DampMonotone(step: int, c: int, t: int, c': int, t': int)
    requires c <= c' && t <= t'
    ensures Damp(step, c, t) <= Damp(step, c', t')
  {
    DampLaw(step, c, t);
    DampLaw(step, c', t');
    if 0 < step < 100 && c < t && c' < t' {
      PortionMonotone(step, t - c, t' - c', c' - c);
    }
  }

  /** Raising the current offer by dc, and the target by anything, moves the damped value up. */
  lemma PortionMonotone(step: int, gap: int, gap': int, dc: int)
    requires 0 < step < 100 && gap >= 0 && gap' >= 0 && dc >= 0 && gap <= gap' + dc
    ensures Portion(step, gap) <= dc + Portion(step, gap')
  {
    Widen(step, gap, gap', dc);
    DivMonotone(gap * step, 100 * dc + gap' * step, 100);
  }

  lemma Widen(step: int, gap: int, gap': int, dc: int)
    requires 0 < step < 100 && gap >= 0 && gap' >= 0 && dc >= 0 && gap <= gap' + dc
    ensures 0 <= gap * step <= 100 * dc + gap' * step && 0 <= gap' * step
  {
    assert (gap' + dc - gap) * step >= 0;
    assert dc * (100 - step) >= 0;
  }

  /** The offer after n ticks at a constant target. */
  function DampTicks(step: int, current: int, target: int, n: nat): int {
    if n == 0 then current else Damp(step, DampTicks(step, current, target, n - 1), target)
  }

  /** Under a constant target the offer climbs by at least one a tick, reaches the target
      within as many ticks as the gap is wide, and then stays there. */
  lemma {:induction false} DampConverges(step: int, current: int, target: int, n: nat)
    requires current <= target
    ensures current <= DampTicks(step, current, target, n) <= target
    ensures n > 0 ==> DampTicks(step, current, target, n - 1) <= DampTicks(step, current, target, n)
    ensures DampTicks(step, current, target, n) >= current + n || DampTicks(step, current, target, n) == target
    ensures n >= target - current ==> DampTicks(step, current, target, n) == target
  {
    if n > 0 {
      DampConverges(step, current, target, n - 1);
      DampLaw(step, DampTicks(step, current, target, n - 1), target);
    }
  }

  // ----- how fast it converges -----

  /** A recurrence gap' <= ratio * gap + 1, whose rest point is k, after n steps. */
  function Decay(ratio: real, k: real, gap: real, n: nat): real {
    Pow(ratio, n) * gap + (1.0 - Pow(ratio, n)) * k
  }

  lemma DecayStep(p: real, ratio: real, k: real, gap: real)
    requires ratio * k == k - 1.0
    ensures ratio * (p * gap + (1.0 - p) * k) + 1.0 == (ratio * p) * gap + (1.0 - ratio * p) * k
  {
    var (pg, pk) := (p * gap, p * k);
    assert ratio * (pg + k - pk) == ratio * pg + ratio * k - ratio * pk;
  }

  lemma DecayMore(ratio: real, k: real, gap: real, n: nat, before: real, after: real)
    requires 0.0 <= ratio && ratio * k == k - 1.0 && n > 0
    requires before <= Decay(ratio, k, gap, n - 1) && after <= Shrunk(ratio, before)
    ensures after <= Decay(ratio, k, gap, n)
  {
    OrderStats.ScaleMonotone(ratio, before, Decay(ratio, k, gap, n - 1));
    DecayStep(Pow(ratio, n - 1), ratio, k, gap);
  }

  function Shrunk(ratio: real, gap: real): real {
    ratio * gap + 1.0
  }

  /** The share of a gap that one step leaves. */
  function Left(step: int): real {
    (100 - step) as real / 100.0
  }

  /** The gap at which a step's share is down to one. */
  function Rest(step: int): real
    requires step > 0
  {
    100.0 / step as real
  }

  lemma RestPoint(step: int)
    requires 0 < step < 100
    ensures Left(step) * Rest(step) == Rest(step) - 1.0 && 0.0 <= Left(step)
  {
    var (s, k) := (step as real, 100.0 / step as real);
    assert s * k == 100.0;
    assert (100.0 - s) / 100.0 * k == k - s * k / 100.0;
  }

  /** One damped rise in real terms: the gap shrinks by the step's share, give or take one. */
  lemma DampShrinks(step: int, current: int, target: int)
    requires 0 < step < 100 && current <= target
    ensures (target - Damp(step, current, target)) as real <= Shrunk(Left(step), (target - current) as real)
  {
    DampLaw(step, current, target);
    RealProduct(100 - step, target - current);
    var (gap, gap') := (target - current, target - Damp(step, current, target));
    var product := (100 - step) * gap;
    assert 100 * gap' <= product + 100;
    assert 100.0 * gap' as real <= product as real + 100.0;
  }

  /** The gap to a constant target decays geometrically, down to where one step closes one unit. */
  lemma {:induction false} DampDecays(step: int, current: int, target: int, n: nat)
    requires 0 < step < 100 && current <= target
    ensures (target - DampTicks(step, current, target, n)) as real <=
            Decay(Left(step), Rest(step), (target - current) as real, n)
  {
    if n > 0 {
      DampConverges(step, current, target, n - 1);
      DampDecays(step, current, target, n - 1);
      DecaysFurther(step, target - current, DampTicks(step, current, target, n - 1), target, n);
    }
  }

  lemma DecaysFurther(step: int, gap: int, before: int, target: int, n: nat)
    requires 0 < step < 100 && n > 0 && before <= target
    requires (target - before) as real <= Decay(Left(step), Rest(step), gap as real, n - 1)
    ensures (target - Damp(step, before, target)) as real <= Decay(Left(step), Rest(step), gap as real, n)
  {
    DampShrinks(step, before, target);
    RestPoint(step);
    DecayMore(Left(step), Rest(step), gap as real, n,
              (target - before) as real, (target - Damp(step, before, target)) as real);
  }

  // ----- the floor -----

  /** An offer that must be zero or at least the floor keeps that promise on a damped rise
      exactly when the step taken from the current offer clears the floor. */
  lemma FloorKept(step: int, current: int, target: int, floor: int)
    requires 0 <= current && floor <= target
    ensures var offer := Damp(step, current, target);
            (offer == 0 || offer >= floor) <==>
            (|| target <= current || step <= 0 || step >= 100
             || floor <= current + 1
             || (target - current) * step >= 100 * (floor - current))
  {
    if current < target && 0 < step < 100 {
      var product := (target - current) * step;
      assert product > 0;
      QuotientClears(product, floor - current);
    }
  }

  lemma QuotientClears(product: int, n: int)
    requires product > 0
    ensures GoDiv(product, 100) >= n <==> product >= 100 * n
  {
    GoDivBounds(product, 100);
  }

  function FloorOf(cfg: Config, r: Resource): int {
    if r.Compute? then cfg.minReclaimCPUMilli else cfg.minReclaimMemBytes
  }

  /** A tick keeps the promise, zero or at least the floor, exactly when it is critical, has
      nothing to aim at, aims no higher than the current offer, does not damp, or takes a step
      that clears the floor. */
  lemma FloorKeptAtTick(st: State, e: Event, r: Resource)
    requires e.Tick? && NonNegative(st)
    ensures var (current, target, floor, step) :=
            (OfferOf(st.last, r), TargetOf(st, e, r), FloorOf(st.cfg, r), st.cfg.growthStepPercent);
            var (offer, level) := (OfferOf(Step(st, e).last, r), PressureAt(st, e.cpuAlloc, e.memAlloc, e.now).level);
            (offer == 0 || offer >= floor) <==>
            (|| level == Critical || target == 0 || target <= current || step <= 0 || step >= 100
             || floor <= current + 1
             || (target - current) * step >= 100 * (floor - current))
  {
    var (current, target, floor, step) :=
      (OfferOf(st.last, r), TargetOf(st, e, r), FloorOf(st.cfg, r), st.cfg.growthStepPercent);
    TargetKeepsFloor(st, e, r);
    DampLaw(step, current, target);
    if target != 0 {
      FloorKept(step, current, target, floor);
    }
  }

  lemma TargetKeepsFloor(st: State, e: Event, r: Resource)
    requires e.Tick? && st.cfg.maxReclaimPercent >= 0
    ensures TargetOf(st, e, r) >= 0 && (TargetOf(st, e, r) == 0 || TargetOf(st, e, r) >= FloorOf(st.cfg, r))
  {
    ReclaimableWithinBudget(st.cfg, e.cpuAlloc, ProtectedCPUAt(st, e.now), st.cfg.cpuTargetPercent,
      st.cfg.minReclaimCPUMilli);
    ReclaimableWithinBudget(st.cfg, e.memAlloc, ProtectedMemoryAt(st, e.now), st.cfg.memoryTargetPercent,
      st.cfg.minReclaimMemBytes);
  }

  /** The floor is not kept in general: with the default configuration a freshly started
      advisor on a one-core node offers 125m although the floor is 200m. */
  lemma OfferBelowFloor(memAlloc: int, now: Time)
    ensures var st := Run(New(DEFAULT_CONFIG), [Tick(1000, memAlloc, now)]);
            st.last.cpuMilli == 125 < DEFAULT_CONFIG.minReclaimCPUMilli
  {
    var start := New(DEFAULT_CONFIG);
    var es := [Tick(1000, memAlloc, now)];
    assert es[..0] == [];
    assert Run(start, es[..0]) == start;
    assert Run(start, es) == Recommend(start, 1000, memAlloc, now);
    assert CPUTarget(start, 1000, now).0 == 500;
    assert PressureAt(start, 1000, memAlloc, now).level == NoPressure;
  }

  // ----- bounds -----

  /** What one tick may offer of a resource, given what is allocatable and protected. */
  ghost predicate WithinBudget(cfg: Config, offer: int, alloc: int, protected: int, targetPercent: int) {
    && 0 <= offer
    && (offer > 0 ==>
          && alloc > 0
          && offer <= Share(alloc, cfg.maxReclaimPercent)
          && offer + protected + Share(alloc, cfg.headroomPercent) <= Share(alloc, targetPercent))
  }

  lemma ReclaimableWithinBudget(cfg: Config, alloc: int, protected: int, targetPercent: int, floor: int)
    requires cfg.maxReclaimPercent >= 0
    ensures WithinBudget(cfg, Reclaimable(cfg, alloc, protected, targetPercent, floor).0, alloc, protected,
            targetPercent)
  {
    if alloc > 0 {
      assert alloc * cfg.maxReclaimPercent >= 0;
    }
  }

  ghost predicate AllConfigs(es: seq<Event>) {
    forall i :: 0 <= i < |es| && es[i].SetConfig? ==> es[i].cfg.maxReclaimPercent >= 0
  }

  ghost predicate NonNegative(st: State) {
    st.cfg.maxReclaimPercent >= 0 && st.last.cpuMilli >= 0 && st.last.memoryBytes >= 0
  }

  lemma StepNonNegative(st: State, e: Event)
    requires NonNegative(st)
    requires e.SetConfig? ==> e.cfg.maxReclaimPercent >= 0
    ensures NonNegative(Step(st, e))
    ensures e.Tick? ==>
              && WithinBudget(st.cfg, Step(st, e).last.cpuMilli, e.cpuAlloc, Step(st, e).last.protectedCPUMilli,
                 st.cfg.cpuTargetPercent)
              && WithinBudget(st.cfg, Step(st, e).last.memoryBytes, e.memAlloc,
                 Step(st, e).last.protectedMemoryBytes, st.cfg.memoryTargetPercent)
  {
    if e.Tick? {
      var cpu := CPUTarget(st, e.cpuAlloc, e.now).0;
      var mem := MemoryTarget(st, e.memAlloc, e.now).0;
      ReclaimableWithinBudget(st.cfg, e.cpuAlloc, ProtectedCPUAt(st, e.now), st.cfg.cpuTargetPercent,
        st.cfg.minReclaimCPUMilli);
      ReclaimableWithinBudget(st.cfg, e.memAlloc, ProtectedMemoryAt(st, e.now), st.cfg.memoryTargetPercent,
        st.cfg.minReclaimMemBytes);
      DampLaw(st.cfg.growthStepPercent, st.last.cpuMilli, cpu);
      DampLaw(st.cfg.growthStepPercent, st.last.memoryBytes, mem);
    }
  }

  lemma {:induction false} RunNonNegative(cfg: Config, es: seq<Event>)
    requires cfg.maxReclaimPercent >= 0 && AllConfigs(es)
    ensures NonNegative(Run(New(cfg), es))
  {
    if es != [] {
      var n := |es| - 1;
      RunNonNegative(cfg, es[..n]);
      StepNonNegative(Run(New(cfg), es[..n]), es[n]);
    }
  }

  /** Overselling is bounded: after any run of samples and configuration changes, the offer
      made by a tick is between zero and the configured share of what is allocatable, and a
      positive offer fits the budget together with protected use and headroom. */
  lemma OfferBounded(cfg: Config, es: seq<Event>, cpuAlloc: int, memAlloc: int, now: Time)
    requires cfg.maxReclaimPercent >= 0 && AllConfigs(es)
    ensures var before := Run(New(cfg), es);
            var rec := Run(New(cfg), es + [Tick(cpuAlloc, memAlloc, now)]).last;
            && WithinBudget(before.cfg, rec.cpuMilli, cpuAlloc, rec.protectedCPUMilli, before.cfg.cpuTargetPercent)
            && WithinBudget(before.cfg, rec.memoryBytes, memAlloc, rec.protectedMemoryBytes,
               before.cfg.memoryTargetPercent)
            && (rec.pressure.level == Critical ==> rec.cpuMilli == 0 && rec.memoryBytes == 0)
  {
    RunNonNegative(cfg, es);
    var e := Tick(cpuAlloc, memAlloc, now);
    RunAppend(New(cfg), es, e);
    StepNonNegative(Run(New(cfg), es), e);
  }

  lemma RunAppend(st: State, es: seq<Event>, e: Event)
    ensures Run(st, es + [e]) == Step(Run(st, es), e)
  {
    assert (es + [e])[..|es|] == es;
  }

  // ----- more load never raises an offer -----

  ghost predicate PodsBelow(a: seq<PodSample>, b: seq<PodSample>) {
    && |a| == |b|
    && forall i :: 0 <= i < |a| ==>
         && a[i].level == b[i].level && a[i].valid == b[i].valid
         && a[i].cpuMilli <= b[i].cpuMilli && a[i].memoryBytes <= b[i].memoryBytes
  }

  /** Two samples that differ only in that every reading of the first is at or below the second's. */
  ghost predicate SampleBelow(a: NodeSample, b: NodeSample) {
    && a.timestamp == b.timestamp && a.valid == b.valid
    && a.cpuMilli <= b.cpuMilli && a.memoryBytes <= b.memoryBytes
    && a.cpuSomeAvg10 <= b.cpuSomeAvg10 && a.memoryFullAvg10 <= b.memoryFullAvg10
    && PodsBelow(a.pods, b.pods)
  }

  ghost predicate EventBelow(a: Event, b: Event) {
    || a == b
    || (a.Sample? && b.Sample? && SampleBelow(a.sample, b.sample))
  }

  ghost predicate RunBelow(a: seq<Event>, b: seq<Event>) {
    && |a| == |b|
    && forall i :: 0 <= i < |a| ==> EventBelow(a[i], b[i])
  }

  /** The less loaded state: same configuration, lower windows, higher offers, milder pressure. */
  ghost predicate Calmer(a: State, b: State) {
    && a.cfg == b.cfg && a.cfg.maxReclaimPercent >= 0
    && RingBelow(a.protectedCPU, b.protectedCPU) && RingBelow(a.protectedMemory, b.protectedMemory)
    && RingBelow(a.nodeCPU, b.nodeCPU) && RingBelow(a.nodeMemory, b.nodeMemory)
    && RingBelow(a.cpuPSI, b.cpuPSI) && RingBelow(a.memPSI, b.memPSI)
    && a.last.cpuMilli >= b.last.cpuMilli >= 0
    && a.last.memoryBytes >= b.last.memoryBytes >= 0
    && Severity(a.last.pressure.level) <= Severity(b.last.pressure.level)
  }

  lemma {:induction false} ProtectedBelow(a: seq<PodSample>, b: seq<PodSample>)
    requires PodsBelow(a, b)
    ensures ProtectedCPU(a) <= ProtectedCPU(b) && ProtectedMemory(a) <= ProtectedMemory(b)
  {
    if a != [] {
      var n := |a| - 1;
      assert a[n].level == b[n].level;
      ProtectedBelow(a[..n], b[..n]);
    }
  }

  lemma ReclaimableAntitone(cfg: Config, alloc: int, p: int, q: int, targetPercent: int, floor: int)
    requires cfg.maxReclaimPercent >= 0 && p <= q
    ensures Reclaimable(cfg, alloc, p, targetPercent, floor).0 >=
            Reclaimable(cfg, alloc, q, targetPercent, floor).0 >= 0
  {
    ReclaimableWithinBudget(cfg, alloc, p, targetPercent, floor);
    ReclaimableWithinBudget(cfg, alloc, q, targetPercent, floor);
  }

  lemma PctMonotone(p: int, q: int, whole: int)
    requires p <= q
    ensures Pct(p, whole) <= Pct(q, whole)
  {
    if whole > 0 {
      GoDivMonotone(p * 100, q * 100, whole);
    }
  }

  lemma RingPercentileBelow(a: Ring, b: Ring, p: int, now: Time)
    requires RingBelow(a, b)
    ensures OrderStats.Percentile(LiveAt(a, now), p) <= OrderStats.Percentile(LiveAt(b, now), p)
    ensures OrderStats.Max(LiveAt(a, now)) <= OrderStats.Max(LiveAt(b, now))
  {
    LiveBelow(a.obs, b.obs, now - a.horizon);
    OrderStats.PercentileDominated(LiveAt(a, now), LiveAt(b, now), p);
    OrderStats.MaxDominated(LiveAt(a, now), LiveAt(b, now));
  }

  lemma ClassifyMonotone(cfg: Config, c: int, m: int, cs: real, ms: real, c': int, m': int, cs': real, ms': real)
    requires c <= c' && m <= m' && cs <= cs' && ms <= ms'
    ensures Severity(Classify(cfg, c, m, cs, ms)) <= Severity(Classify(cfg, c', m', cs', ms'))
  {
  }

  lemma PressureMonotone(a: State, b: State, cpuAlloc: int, memAlloc: int, now: Time)
    requires Calmer(a, b)
    ensures Severity(PressureAt(a, cpuAlloc, memAlloc, now).level) <=
            Severity(PressureAt(b, cpuAlloc, memAlloc, now).level)
  {
    RingPercentileBelow(a.nodeCPU, b.nodeCPU, 90, now);
    RingPercentileBelow(a.nodeMemory, b.nodeMemory, 90, now);
    RingPercentileBelow(a.cpuPSI, b.cpuPSI, 90, now);
    RingPercentileBelow(a.memPSI, b.memPSI, 90, now);
    var cpu, cpu' :=
      OrderStats.Percentile(LiveAt(a.nodeCPU, now), 90), OrderStats.Percentile(LiveAt(b.nodeCPU, now), 90);
    var mem, mem' := OrderStats.Max(LiveAt(a.nodeMemory, now)), OrderStats.Max(LiveAt(b.nodeMemory, now));
    UtilMonotone(cpu, cpu', cpuAlloc);
    UtilMonotone(mem, mem', memAlloc);
    ClassifyMonotone(
      a.cfg,
      Pct(Trunc(cpu), cpuAlloc), Pct(Trunc(mem), memAlloc),
      OrderStats.Percentile(LiveAt(a.cpuPSI, now), 90), OrderStats.Percentile(LiveAt(a.memPSI, now), 90),
      Pct(Trunc(cpu'), cpuAlloc), Pct(Trunc(mem'), memAlloc),
      OrderStats.Percentile(LiveAt(b.cpuPSI, now), 90), OrderStats.Percentile(LiveAt(b.memPSI, now), 90));
  }

  lemma UtilMonotone(x: real, y: real, whole: int)
    requires x <= y
    ensures Pct(Trunc(x), whole) <= Pct(Trunc(y), whole)
  {
    TruncMonotone(x, y);
    PctMonotone(Trunc(x), Trunc(y), whole);
  }

  lemma TargetsAntitone(a: State, b: State, cpuAlloc: int, memAlloc: int, now: Time)
    requires Calmer(a, b)
    ensures CPUTarget(a, cpuAlloc, now).0 >= CPUTarget(b, cpuAlloc, now).0 >= 0
    ensures MemoryTarget(a, memAlloc, now).0 >= MemoryTarget(b, memAlloc, now).0 >= 0
  {
    var x, y := LiveAt(a.protectedCPU, now), LiveAt(b.protectedCPU, now);
    LiveBelow(a.protectedCPU.obs, b.protectedCPU.obs, now - a.protectedCPU.horizon);
    AggregateDominated(a.cfg.algorithm, a.cfg.ewmaAlpha, x, y);
    TruncMonotone(AggregateOf(a.cfg.algorithm, a.cfg.ewmaAlpha, x), AggregateOf(a.cfg.algorithm, a.cfg.ewmaAlpha, y));
    RingPercentileBelow(a.protectedMemory, b.protectedMemory, 90, now);
    TruncMonotone(OrderStats.Max(LiveAt(a.protectedMemory, now)), OrderStats.Max(LiveAt(b.protectedMemory, now)));
    ReclaimableAntitone(a.cfg, cpuAlloc, ProtectedCPUAt(a, now), ProtectedCPUAt(b, now), a.cfg.cpuTargetPercent,
      a.cfg.minReclaimCPUMilli);
    ReclaimableAntitone(a.cfg, memAlloc, ProtectedMemoryAt(a, now), ProtectedMemoryAt(b, now),
      a.cfg.memoryTargetPercent, a.cfg.minReclaimMemBytes);
  }

  lemma TickKeepsCalmer(a: State, b: State, cpuAlloc: int, memAlloc: int, now: Time)
    requires Calmer(a, b)
    ensures Calmer(Recommend(a, cpuAlloc, memAlloc, now), Recommend(b, cpuAlloc, memAlloc, now))
  {
    PressureMonotone(a, b, cpuAlloc, memAlloc, now);
    TargetsAntitone(a, b, cpuAlloc, memAlloc, now);
    var step := a.cfg.growthStepPercent;
    var x, y := CPUTarget(a, cpuAlloc, now).0, CPUTarget(b, cpuAlloc, now).0;
    var u, v := MemoryTarget(a, memAlloc, now).0, MemoryTarget(b, memAlloc, now).0;
    DampMonotone(step, b.last.cpuMilli, y, a.last.cpuMilli, x);
    DampMonotone(step, b.last.memoryBytes, v, a.last.memoryBytes, u);
    DampLaw(step, b.last.cpuMilli, y);
    DampLaw(step, b.last.memoryBytes, v);
  }

  lemma SampleKeepsCalmer(a: State, b: State, s: NodeSample, t: NodeSample)
    requires Calmer(a, b) && SampleBelow(s, t)
    ensures Calmer(Observe(a, s), Observe(b, t))
  {
    if s.valid {
      ProtectedBelow(s.pods, t.pods);
      PushBelow(a.protectedCPU, b.protectedCPU, Obs(ProtectedCPU(s.pods), s.timestamp),
        Obs(ProtectedCPU(t.pods), t.timestamp));
      PushBelow(a.protectedMemory, b.protectedMemory, Obs(ProtectedMemory(s.pods) as real, s.timestamp),
        Obs(ProtectedMemory(t.pods) as real, t.timestamp));
      PushBelow(a.nodeCPU, b.nodeCPU, Obs(s.cpuMilli, s.timestamp), Obs(t.cpuMilli, t.timestamp));
      PushBelow(a.nodeMemory, b.nodeMemory, Obs(s.memoryBytes as real, s.timestamp),
        Obs(t.memoryBytes as real, t.timestamp));
      PushBelow(a.cpuPSI, b.cpuPSI, Obs(s.cpuSomeAvg10, s.timestamp), Obs(t.cpuSomeAvg10, t.timestamp));
      PushBelow(a.memPSI, b.memPSI, Obs(s.memoryFullAvg10, s.timestamp), Obs(t.memoryFullAvg10, t.timestamp));
    }
  }

  lemma SampleBelowItself(s: NodeSample)
    ensures SampleBelow(s, s)
  {
  }

  /** The advisor is antitone over whole runs: when two advisors of one configuration see the
      same times, validity, tiers and allocatable amounts, and every reading of the first run
      is at or below the second's, then after every event the first is under no more pressure
      and offers no less CPU and no less memory, whatever the smoothing algorithm. */
  lemma {:induction false} LoadNeverRaisesOffers(cfg: Config, a: seq<Event>, b: seq<Event>)
    requires cfg.maxReclaimPercent >= 0 && AllConfigs(a)
    requires RunBelow(a, b)
    ensures Calmer(Run(New(cfg), a), Run(New(cfg), b))
  {
    if a != [] {
      var n := |a| - 1;
      assert EventBelow(a[n], b[n]);
      LoadNeverRaisesOffers(cfg, a[..n], b[..n]);
      var x, y := Run(New(cfg), a[..n]), Run(New(cfg), b[..n]);
      match a[n] {
        case SetConfig(_) =>
        case Tick(cpuAlloc, memAlloc, now) =>
          TickKeepsCalmer(x, y, cpuAlloc, memAlloc, now);
        case Sample(s) =>
          SampleBelowItself(s);
          SampleKeepsCalmer(x, y, s, b[n].sample);
      }
    }
  }

  // ----- the reclaimed tier does not interfere -----

  /** The pods whose use counts against the offer. */
  function ProtectedPods(pods: seq<PodSample>): seq<PodSample> {
    if pods == [] then []
    else
      var p := pods[|pods| - 1];
      ProtectedPods(pods[..|pods| - 1]) + if p.level == ReclaimedCores then [] else [p]
  }

  lemma {:induction false} ProtectedUseIgnoresReclaimed(pods: seq<PodSample>)
    ensures ProtectedCPU(pods) == ProtectedCPU(ProtectedPods(pods))
    ensures ProtectedMemory(pods) == ProtectedMemory(ProtectedPods(pods))
  {
    if pods != [] {
      var n := |pods| - 1;
      var front := ProtectedPods(pods[..n]);
      ProtectedUseIgnoresReclaimed(pods[..n]);
      assert (front + [pods[n]])[..|front|] == front;
      assert front + [] == front;
    }
  }

  /** Events that agree on time, validity and the protected pods; everything else may differ:
      how many reclaimed pods there are, what they use, the node totals and the stall figures. */
  ghost predicate SameProtected(a: Event, b: Event) {
    || a == b
    || (&& a.Sample? && b.Sample?
        && a.sample.valid == b.sample.valid
        && a.sample.timestamp == b.sample.timestamp
        && ProtectedPods(a.sample.pods) == ProtectedPods(b.sample.pods))
  }

  ghost predicate SameProtectedRuns(a: seq<Event>, b: seq<Event>) {
    && |a| == |b|
    && forall i :: 0 <= i < |a| ==> SameProtected(a[i], b[i])
  }

  /** Both runs are withdrawn by critical pressure at the same ticks, for instance at none. */
  ghost predicate SameWithdrawals(cfg: Config, a: seq<Event>, b: seq<Event>)
    requires |a| == |b|
  {
    forall k :: 0 < k <= |a| && a[k - 1].Tick? ==>
      (Run(New(cfg), a[..k]).last.pressure.level == Critical <==> Run(New(cfg), b[..k]).last.pressure.level == Critical)
  }

  ghost predicate SameWindows(x: State, y: State) {
    x.cfg == y.cfg && x.protectedCPU == y.protectedCPU && x.protectedMemory == y.protectedMemory
  }

  ghost predicate SameOffers(x: State, y: State) {
    && x.last.cpuMilli == y.last.cpuMilli
    && x.last.memoryBytes == y.last.memoryBytes
    && x.last.protectedCPUMilli == y.last.protectedCPUMilli
    && x.last.protectedMemoryBytes == y.last.protectedMemoryBytes
    && x.last.confidence == y.last.confidence
  }

  /** What the reclaimed tier consumes never reaches the protected windows. */
  lemma {:induction false} ReclaimedUseIsInvisible(cfg: Config, a: seq<Event>, b: seq<Event>)
    requires SameProtectedRuns(a, b)
    ensures SameWindows(Run(New(cfg), a), Run(New(cfg), b))
  {
    if a != [] {
      var n := |a| - 1;
      assert SameProtected(a[n], b[n]);
      ReclaimedUseIsInvisible(cfg, a[..n], b[..n]);
      if a[n].Sample? {
        ProtectedUseIgnoresReclaimed(a[n].sample.pods);
        ProtectedUseIgnoresReclaimed(b[n].sample.pods);
      }
    }
  }

  lemma StepSameOffers(x: State, y: State, e: Event, f: Event)
    requires SameWindows(x, y) && SameOffers(x, y) && SameProtected(e, f)
    requires e.Tick? ==> (Step(x, e).last.pressure.level == Critical <==> Step(y, f).last.pressure.level == Critical)
    ensures SameOffers(Step(x, e), Step(y, f))
  {
  }

  lemma SameWithdrawalsPrefix(cfg: Config, a: seq<Event>, b: seq<Event>)
    requires |a| == |b| > 0 && SameWithdrawals(cfg, a, b)
    ensures SameWithdrawals(cfg, a[..|a| - 1], b[..|a| - 1])
  {
    var n := |a| - 1;
    forall k | 0 < k <= n && a[..n][k - 1].Tick?
      ensures Run(New(cfg), a[..n][..k]).last.pressure.level == Critical <==>
              Run(New(cfg), b[..n][..k]).last.pressure.level == Critical
    {
      assert a[..n][..k] == a[..k] && b[..n][..k] == b[..k];
    }
  }

  /** Consuming what was sold does not change what is for sale: two runs that agree on the
      protected pods, and are withdrawn at the same ticks if at all, make identical offers. */
  lemma {:induction false} ReclaimedUseDoesNotInterfere(cfg: Config, a: seq<Event>, b: seq<Event>)
    requires SameProtectedRuns(a, b) && SameWithdrawals(cfg, a, b)
    ensures SameOffers(Run(New(cfg), a), Run(New(cfg), b))
  {
    if a != [] {
      var n := |a| - 1;
      assert SameProtected(a[n], b[n]);
      SameWithdrawalsPrefix(cfg, a, b);
      ReclaimedUseDoesNotInterfere(cfg, a[..n], b[..n]);
      ReclaimedUseIsInvisible(cfg, a[..n], b[..n]);
      assert a[..n + 1] == a && b[..n + 1] == b;
      StepSameOffers(Run(New(cfg), a[..n]), Run(New(cfg), b[..n]), a[n], b[n]);
    }
  }

  // ----- convergence of a run -----

  /** A stretch of samples and untroubled ticks that all aim at the same target. */
  ghost predicate Steady(st: State, es: seq<Event>, r: Resource, target: int) {
    es == [] ||
    var n := |es| - 1;
    && Steady(st, es[..n], r, target)
    && !es[n].SetConfig?
    && (es[n].Tick? ==>
          && TargetOf(Run(st, es[..n]), es[n], r) == target
          && Run(st, es).last.pressure.level != Critical)
  }

  function Ticks(es: seq<Event>): nat {
    if es == [] then 0 else Ticks(es[..|es| - 1]) + if es[|es| - 1].Tick? then 1 else 0
  }

  lemma TickOffer(st: State, e: Event, r: Resource)
    requires e.Tick? && Step(st, e).last.pressure.level != Critical
    ensures Step(st, e).cfg == st.cfg
    ensures OfferOf(Step(st, e).last, r) == Damp(st.cfg.growthStepPercent, OfferOf(st.last, r), TargetOf(st, e, r))
  {
  }

  lemma {:induction false} SteadyOffer(st: State, es: seq<Event>, r: Resource, target: int)
    requires Steady(st, es, r, target)
    ensures Run(st, es).cfg == st.cfg
    ensures OfferOf(Run(st, es).last, r) == DampTicks(st.cfg.growthStepPercent, OfferOf(st.last, r), target, Ticks(es))
  {
    if es != [] {
      var n := |es| - 1;
      SteadyOffer(st, es[..n], r, target);
      if es[n].Tick? {
        TickOffer(Run(st, es[..n]), es[n], r);
      }
    }
  }

  /** While nothing changes an offer climbs from where it was, never past the target, and has
      arrived after at most as many ticks as the gap is wide. After a critical tick it is zero,
      so the same law then starts from zero. */
  lemma SteadyRunConverges(st: State, es: seq<Event>, r: Resource, target: int)
    requires Steady(st, es, r, target) && OfferOf(st.last, r) <= target
    ensures var (before, after) := (OfferOf(st.last, r), OfferOf(Run(st, es).last, r));
            && before <= after <= target
            && (after >= before + Ticks(es) || after == target)
            && (Ticks(es) >= target - before ==> after == target)
  {
    SteadyOffer(st, es, r, target);
    DampConverges(st.cfg.growthStepPercent, OfferOf(st.last, r), target, Ticks(es));
  }

  /** And the gap it still has to climb decays geometrically in the number of ticks. */
  lemma SteadyRunDecays(st: State, es: seq<Event>, r: Resource, target: int)
    requires Steady(st, es, r, target) && OfferOf(st.last, r) <= target && 0 < st.cfg.growthStepPercent < 100
    ensures var step := st.cfg.growthStepPercent;
            (target - OfferOf(Run(st, es).last, r)) as real
            <= Decay(Left(step), Rest(step), (target - OfferOf(st.last, r)) as real, Ticks(es))
  {
    SteadyOffer(st, es, r, target);
    DampDecays(st.cfg.growthStepPercent, OfferOf(st.last, r), target, Ticks(es));
  }
}
