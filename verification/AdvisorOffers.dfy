/** How large an offer is: as large as the budget lets it be, and no larger. */
module AdvisorOffers {
  import opened Numbers
  import opened Tiers
  import opened SampleWindow
  import opened AdvisorModel
  import opened AdvisorRuns
  import OrderStats

  // ----- the greatest amount that fits -----

  /** An offer the formula allows: some amount, at least the floor and within the budget. */
  ghost predicate Fits(cfg: Config, o: int, alloc: int, protected: int, percent: int, floor: int) {
    o > 0 && o >= floor && WithinBudget(cfg, o, alloc, protected, percent)
  }

  /** The greatest amount that fits, or nothing when none does. */
  ghost predicate IsGreatest(cfg: Config, best: int, alloc: int, protected: int, percent: int, floor: int) {
    && (best == 0 || Fits(cfg, best, alloc, protected, percent, floor))
    && forall o :: Fits(cfg, o, alloc, protected, percent, floor) ==> o <= best
  }

  /** A percentage of an amount is rounded down to a whole unit. */
  lemma ShareLaw(amount: int, percent: int)
    requires amount >= 0 && percent >= 0
    ensures 100 * Share(amount, percent) <= amount * percent < 100 * Share(amount, percent) + 100
  {
    GoDivBounds(amount * percent, 100);
  }

  lemma ReclaimableIsGreatest(cfg: Config, alloc: int, protected: int, percent: int, floor: int)
    requires cfg.maxReclaimPercent >= 0
    ensures IsGreatest(cfg, Reclaimable(cfg, alloc, protected, percent, floor).0, alloc, protected, percent, floor)
  {
    ReclaimableWithinBudget(cfg, alloc, protected, percent, floor);
  }

  // ----- what each resource is judged by -----

  function AllocOf(e: Event, r: Resource): int
    requires e.Tick?
  {
    if r.Compute? then e.cpuAlloc else e.memAlloc
  }

  function PercentOf(cfg: Config, r: Resource): int {
    if r.Compute? then cfg.cpuTargetPercent else cfg.memoryTargetPercent
  }

  /** The protected use a verdict reports. */
  function ProtectedOf(rec: Recommendation, r: Resource): int {
    if r.Compute? then rec.protectedCPUMilli else rec.protectedMemoryBytes
  }

  ghost predicate GreatestOffer(cfg: Config, best: int, e: Event, rec: Recommendation, r: Resource)
    requires e.Tick?
  {
    IsGreatest(cfg, best, AllocOf(e, r), ProtectedOf(rec, r), PercentOf(cfg, r), FloorOf(cfg, r))
  }

  /** A tick aims at the greatest amount that fits the protected use it reports. */
  lemma TargetIsGreatest(st: State, e: Event, r: Resource)
    requires e.Tick? && st.cfg.maxReclaimPercent >= 0
    ensures GreatestOffer(st.cfg, TargetOf(st, e, r), e, Step(st, e).last, r)
  {
    ReclaimableIsGreatest(st.cfg, AllocOf(e, r), ProtectedOf(Step(st, e).last, r), PercentOf(st.cfg, r),
                          FloorOf(st.cfg, r));
  }

  lemma OnlyGreatest(cfg: Config, a: int, b: int, alloc: int, protected: int, percent: int, floor: int)
    requires IsGreatest(cfg, a, alloc, protected, percent, floor)
    requires IsGreatest(cfg, b, alloc, protected, percent, floor) && a >= 0 && b >= 0
    ensures a == b
  {
  }

  /** An untroubled tick whose rise is not damped offers exactly that much, and no tick that falls
      short of it before offers more. */
  lemma OfferIsGreatest(st: State, e: Event, r: Resource)
    requires e.Tick? && NonNegative(st) && Step(st, e).last.pressure.level != Critical
    ensures var (before, after) := (OfferOf(st.last, r), OfferOf(Step(st, e).last, r));
            && (st.cfg.growthStepPercent <= 0 || st.cfg.growthStepPercent >= 100 || after <= before ==>
                  GreatestOffer(st.cfg, after, e, Step(st, e).last, r))
            && forall best :: best >= 0 && GreatestOffer(st.cfg, best, e, Step(st, e).last, r) ==> after <= best
  {
    var (before, target) := (OfferOf(st.last, r), TargetOf(st, e, r));
    TargetIsGreatest(st, e, r);
    TargetKeepsFloor(st, e, r);
    DampLaw(st.cfg.growthStepPercent, before, target);
    forall best | best >= 0 && GreatestOffer(st.cfg, best, e, Step(st, e).last, r)
      ensures OfferOf(Step(st, e).last, r) <= best
    {
      OnlyGreatest(st.cfg, best, target, AllocOf(e, r), ProtectedOf(Step(st, e).last, r), PercentOf(st.cfg, r),
                   FloorOf(st.cfg, r));
    }
  }

  /** After enough ticks that aim alike an offer is the greatest that fits, damped or not. */
  lemma SteadyRunOffersGreatest(st: State, es: seq<Event>, e: Event, r: Resource, target: int)
    requires e.Tick? && Steady(st, es + [e], r, target) && NonNegative(st) && OfferOf(st.last, r) <= target
    requires Ticks(es) + 1 >= target - OfferOf(st.last, r)
    ensures var after := Run(st, es + [e]);
            GreatestOffer(after.cfg, OfferOf(after.last, r), e, after.last, r)
  {
    var all := es + [e];
    assert all[..|all| - 1] == es;
    SteadyRunConverges(st, all, r, target);
    SteadyKeepsConfig(st, es, r, target);
    TargetIsGreatest(Run(st, es), e, r);
  }

  lemma {:induction false} SteadyKeepsConfig(st: State, es: seq<Event>, r: Resource, target: int)
    requires Steady(st, es, r, target)
    ensures Run(st, es).cfg == st.cfg
  {
    if es != [] {
      SteadyKeepsConfig(st, es[..|es| - 1], r, target);
    }
  }

  // ----- what counts as protected use -----

  /** What each pod adds to protected use: nothing if reclaimed, nor CPU without a valid rate. */
  function CPUShares(pods: seq<PodSample>): seq<real> {
    seq(|pods|, i requires 0 <= i < |pods| =>
      if pods[i].level != ReclaimedCores && pods[i].valid then pods[i].cpuMilli else 0.0)
  }

  function MemoryShares(pods: seq<PodSample>): seq<real> {
    seq(|pods|, i requires 0 <= i < |pods| =>
      if pods[i].level != ReclaimedCores then pods[i].memoryBytes as real else 0.0)
  }

  /** Protected use is the sum over the pods that are not reclaimed, validity mattering to CPU alone. */
  lemma {:induction false} ProtectedUseIsSum(pods: seq<PodSample>)
    ensures ProtectedCPU(pods) == OrderStats.Sum(CPUShares(pods))
    ensures ProtectedMemory(pods) as real == OrderStats.Sum(MemoryShares(pods))
  {
    if pods != [] {
      var n := |pods| - 1;
      ProtectedUseIsSum(pods[..n]);
      assert CPUShares(pods)[..n] == CPUShares(pods[..n]);
      assert MemoryShares(pods)[..n] == MemoryShares(pods[..n]);
    }
  }

  // ----- a first offer -----

  /** Ten cores allocatable and a shared pod that uses four: the default configuration aims at
      2500m, three quarters less the use and a tenth of headroom, and first offers a quarter. */
  lemma FirstOffer(now: Time, memAlloc: int)
    ensures var s := NodeSample(now, true, 4000.0, 0, 0.0, 0.0, [PodSample(SharedCores, 4000.0, 0, true)]);
            var st := Run(New(DEFAULT_CONFIG), [Sample(s), Tick(10_000, memAlloc, now)]);
            st.last.cpuMilli == 625 && st.last.protectedCPUMilli == 4000
  {
    var s := NodeSample(now, true, 4000.0, 0, 0.0, 0.0, [PodSample(SharedCores, 4000.0, 0, true)]);
    var es := [Sample(s), Tick(10_000, memAlloc, now)];
    assert es[..1] == [Sample(s)] && [Sample(s)][..0] == [];
    var st := Observe(New(DEFAULT_CONFIG), s);
    assert Run(New(DEFAULT_CONFIG), es[..1]) == st;
    ProtectedUseIsSum(s.pods);
    assert ProtectedCPU(s.pods[..0]) == 0.0 && ProtectedMemory(s.pods[..0]) == 0;
    OneLive(st.protectedCPU, now, 4000.0);
    OneLive(st.nodeCPU, now, 4000.0);
    OneLive(st.nodeMemory, now, 0.0);
    OneLive(st.cpuPSI, now, 0.0);
    OneLive(st.memPSI, now, 0.0);
    OneValue(4000.0, 95);
    assert ProtectedCPUAt(st, now) == 4000;
    assert CPUTarget(st, 10_000, now).0 == 2500;
    FirstPressure(st, memAlloc, now);
  }

  lemma {:induction false} FirstPressure(st: State, memAlloc: int, now: Time)
    requires st.cfg == DEFAULT_CONFIG
    requires LiveAt(st.nodeCPU, now) == [4000.0] && LiveAt(st.nodeMemory, now) == [0.0]
    requires LiveAt(st.cpuPSI, now) == [0.0] == LiveAt(st.memPSI, now)
    ensures PressureAt(st, 10_000, memAlloc, now).level == NoPressure
  {
    OneValue(4000.0, 90);
    OneValue(0.0, 90);
    assert Pct(4000, 10_000) == 40;
    assert Pct(0, memAlloc) == 0;
  }

  /** A window of one observation, just made. */
  lemma {:induction false} OneLive(r: Ring, now: Time, v: real)
    requires r.obs == [Obs(v, now)] && r.horizon >= 0
    ensures LiveAt(r, now) == [v]
  {
    assert r.obs[..0] == [] && Live(r.obs[..0], now - r.horizon) == [];
    assert Live(r.obs, now - r.horizon) == [] + [v];
  }

  lemma {:induction false} OneValue(v: real, p: int)
    ensures OrderStats.Percentile([v], p) == v
  {
    OrderStats.PercentileWithin([v], p, v, v);
  }

  // ----- the reason a verdict gives -----

  /** What the budget leaves of a resource when protected use and headroom are taken out. */
  function LeftOf(cfg: Config, alloc: int, protected: int, percent: int): int {
    Share(alloc, percent) - protected - Share(alloc, cfg.headroomPercent)
  }

  /** The term that bound a target: nothing allocatable, nothing left, less than the floor, the cap
      on what is reclaimed, or none but what is left. */
  function BoundBy(cfg: Config, alloc: int, protected: int, percent: int, floor: int): string {
    var (left, cap) := (LeftOf(cfg, alloc, protected, percent), Share(alloc, cfg.maxReclaimPercent));
    if alloc <= 0 then "no-allocatable"
    else if left <= 0 then "no-headroom"
    else if left < floor || cap < floor then "below-floor"
    else if left > cap then "max-reclaim-cap"
    else "usage-derived"
  }

  /** A verdict names what bound each resource, or critical pressure instead of both. */
  lemma {:induction false} ReasonLaw(st: State, e: Event)
    requires e.Tick?
    ensures var rec := Step(st, e).last;
            rec.reason ==
            if rec.pressure.level == Critical then "critical-pressure"
            else
              BoundBy(st.cfg, e.cpuAlloc, rec.protectedCPUMilli, st.cfg.cpuTargetPercent, st.cfg.minReclaimCPUMilli)
              + "/"
              + BoundBy(st.cfg, e.memAlloc, rec.protectedMemoryBytes, st.cfg.memoryTargetPercent,
                        st.cfg.minReclaimMemBytes)
  {
    BoundLaw(st.cfg, e.cpuAlloc, ProtectedCPUAt(st, e.now), st.cfg.cpuTargetPercent, st.cfg.minReclaimCPUMilli);
    BoundLaw(st.cfg, e.memAlloc, ProtectedMemoryAt(st, e.now), st.cfg.memoryTargetPercent, st.cfg.minReclaimMemBytes);
  }

  lemma {:induction false} BoundLaw(cfg: Config, alloc: int, protected: int, percent: int, floor: int)
    ensures Reclaimable(cfg, alloc, protected, percent, floor).1 == BoundBy(cfg, alloc, protected, percent, floor)
  {
  }

  /** A verdict that no term but use bound aims at exactly what is left. */
  lemma {:induction false} UnboundTarget(st: State, e: Event, r: Resource)
    requires e.Tick? && st.cfg.maxReclaimPercent >= 0
    requires BoundBy(st.cfg, AllocOf(e, r), ProtectedOf(Step(st, e).last, r), PercentOf(st.cfg, r), FloorOf(st.cfg, r))
             == "usage-derived"
    ensures TargetOf(st, e, r) == LeftOf(st.cfg, AllocOf(e, r), ProtectedOf(Step(st, e).last, r), PercentOf(st.cfg, r))
  {
  }
}
