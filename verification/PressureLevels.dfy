/** Exactly when a node counts as pressed, and how hard, told by counting its recent samples. */
module PressureLevels {
  import opened Numbers
  import opened Tiers
  import opened SampleWindow
  import opened AdvisorModel
  import opened AdvisorWindows
  import opened AgentRuns
  import opened WindowStatistics
  import R = AdvisorRuns
  import O = OrderStats

  // ----- thresholds -----

  /** A part of a whole comes to at least a percentage of it. */
  predicate AtLeast(part: int, whole: int, percent: int) {
    percent <= 0 || (percent <= 100 && whole > 0 && 100 * part >= percent * whole)
  }

  lemma {:induction false} PctLaw(part: int, whole: int, percent: int)
    ensures Pct(part, whole) >= percent <==> AtLeast(part, whole, percent)
  {
    if whole > 0 {
      if part >= 0 {
        QuotientReaches(100 * part, whole, percent);
      } else {
        GoDivBounds(100 * part, whole);
        ScaleUp(if percent > 0 then 1 else percent, percent, whole);
      }
    }
  }

  lemma {:induction false} ScaleUp(x: int, y: int, d: int)
    requires d > 0 && x <= y
    ensures x * d <= y * d
  {
  }

  lemma {:induction false} QuotientReaches(a: int, d: int, n: int)
    requires d > 0 && a >= 0
    ensures GoDiv(a, d) >= n <==> a >= n * d
  {
    GoDivBounds(a, d);
    var q := GoDiv(a, d);
    if n <= q {
      ScaleUp(n, q, d);
    } else {
      ScaleUp(q + 1, n, d);
    }
  }

  /** A reading in millicores or bytes that comes to at least a percentage of what is allocatable. */
  function UseOver(alloc: int, percent: int): real -> bool {
    x => AtLeast(Trunc(x), alloc, percent)
  }

  function StallOver(bound: real): real -> bool {
    x => x >= bound
  }

  lemma {:induction false} UseRises(alloc: int, percent: int)
    ensures Rising(UseOver(alloc, percent))
  {
    forall x: real, y: real | x <= y && UseOver(alloc, percent)(x) ensures UseOver(alloc, percent)(y) {
      TruncMonotone(x, y);
    }
  }

  /** Fewer than nine tenths of the readings are below. */
  ghost predicate MostOver(vals: seq<real>, over: real -> bool) {
    10 * Count(vals, x => !over(x)) < 9 * |vals|
  }

  ghost predicate SomeOver(vals: seq<real>, over: real -> bool) {
    exists i :: 0 <= i < |vals| && over(vals[i])
  }

  lemma {:induction false} NinetiethOver(vals: seq<real>, over: real -> bool)
    requires vals != [] && Rising(over)
    ensures over(O.Percentile(vals, 90)) <==> MostOver(vals, over)
  {
    PercentileOver(vals, 90, over);
  }

  // ----- the figures a verdict reports -----

  /** Every window holds something recent. */
  ghost predicate SomethingLive(st: State, now: Time) {
    && LiveAt(st.nodeCPU, now) != [] && LiveAt(st.nodeMemory, now) != []
    && LiveAt(st.cpuPSI, now) != [] && LiveAt(st.memPSI, now) != []
  }

  lemma {:induction false} RoundReaches(x: real, n: int)
    requires n > 0
    ensures Round(x) >= n <==> x >= n as real - 0.5
  {
  }

  /** Each figure reaches a percentage exactly when so many of the recent readings do: one for
      memory in use, more than a tenth for the others. */
  lemma {:induction false} FiguresLaw(st: State, cpuAlloc: int, memAlloc: int, now: Time, percent: int)
    requires SomethingLive(st, now)
    ensures var p := PressureAt(st, cpuAlloc, memAlloc, now);
            && (p.cpuUtilizationPercent >= percent <==> MostOver(LiveAt(st.nodeCPU, now), UseOver(cpuAlloc, percent)))
            && (p.memoryUtilizationPercent >= percent <==>
                SomeOver(LiveAt(st.nodeMemory, now), UseOver(memAlloc, percent)))
            && (percent > 0 ==>
                  && (p.cpuSomeStalledPercent >= percent <==>
                      MostOver(LiveAt(st.cpuPSI, now), StallOver(percent as real - 0.5)))
                  && (p.memoryFullStalledPercent >= percent <==>
                      MostOver(LiveAt(st.memPSI, now), StallOver(percent as real - 0.5))))
  {
    UseFigures(st, cpuAlloc, memAlloc, now, percent);
    NinetiethOver(LiveAt(st.cpuPSI, now), StallOver(percent as real - 0.5));
    NinetiethOver(LiveAt(st.memPSI, now), StallOver(percent as real - 0.5));
    if percent > 0 {
      RoundReaches(O.Percentile(LiveAt(st.cpuPSI, now), 90), percent);
      RoundReaches(O.Percentile(LiveAt(st.memPSI, now), 90), percent);
    }
  }

  lemma {:induction false} UseFigures(st: State, cpuAlloc: int, memAlloc: int, now: Time, percent: int)
    requires SomethingLive(st, now)
    ensures Pct(Trunc(O.Percentile(LiveAt(st.nodeCPU, now), 90)), cpuAlloc) >= percent <==>
            MostOver(LiveAt(st.nodeCPU, now), UseOver(cpuAlloc, percent))
    ensures Pct(Trunc(O.Max(LiveAt(st.nodeMemory, now))), memAlloc) >= percent <==>
            SomeOver(LiveAt(st.nodeMemory, now), UseOver(memAlloc, percent))
  {
    UseRises(cpuAlloc, percent);
    UseRises(memAlloc, percent);
    NinetiethOver(LiveAt(st.nodeCPU, now), UseOver(cpuAlloc, percent));
    MaxOver(LiveAt(st.nodeMemory, now), UseOver(memAlloc, percent));
    PctLaw(Trunc(O.Percentile(LiveAt(st.nodeCPU, now), 90)), cpuAlloc, percent);
    PctLaw(Trunc(O.Max(LiveAt(st.nodeMemory, now))), memAlloc, percent);
  }

  // ----- the level -----

  /** Some live reading of memory, or more than a tenth of those of CPU or of its stalls, reach these. */
  ghost predicate Reaches(st: State, cpuAlloc: int, memAlloc: int, now: Time, memory: int, cpu: int, stall: real) {
    || SomeOver(LiveAt(st.nodeMemory, now), UseOver(memAlloc, memory))
    || MostOver(LiveAt(st.nodeCPU, now), UseOver(cpuAlloc, cpu))
    || MostOver(LiveAt(st.cpuPSI, now), StallOver(stall))
  }

  lemma {:induction false} ReachesLaw(st: State, cpuAlloc: int, memAlloc: int, now: Time, memory: int, cpu: int,
                                      stall: real)
    requires SomethingLive(st, now)
    ensures Reaches(st, cpuAlloc, memAlloc, now, memory, cpu, stall) <==>
            || Pct(Trunc(O.Max(LiveAt(st.nodeMemory, now))), memAlloc) >= memory
            || Pct(Trunc(O.Percentile(LiveAt(st.nodeCPU, now), 90)), cpuAlloc) >= cpu
            || O.Percentile(LiveAt(st.cpuPSI, now), 90) >= stall
  {
    UseFigures(st, cpuAlloc, memAlloc, now, memory);
    UseFigures(st, cpuAlloc, memAlloc, now, cpu);
    NinetiethOver(LiveAt(st.cpuPSI, now), StallOver(stall));
  }

  /** A threshold is reached, or memory stalls come to a tenth of the time. */
  ghost predicate Overloaded(st: State, cpuAlloc: int, memAlloc: int, now: Time) {
    || Reaches(st, cpuAlloc, memAlloc, now, st.cfg.memoryPressureThresholdPercent,
               st.cfg.cpuPressureThresholdPercent, st.cfg.cpuStallThresholdPercent as real)
    || MostOver(LiveAt(st.memPSI, now), StallOver(10.0))
  }

  /** Readings come within ten points of a use threshold, or half way to that of stalls. */
  ghost predicate Loaded(st: State, cpuAlloc: int, memAlloc: int, now: Time) {
    Reaches(st, cpuAlloc, memAlloc, now, st.cfg.memoryPressureThresholdPercent - 10,
            st.cfg.cpuPressureThresholdPercent - 10, st.cfg.cpuStallThresholdPercent as real / 2.0)
  }

  lemma {:induction false} ClassifyLaw(cfg: Config, cpuUtil: int, memUtil: int, cpuStall: real, memStall: real,
                                       critical: bool, moderate: bool)
    requires critical <==>
             || memUtil >= cfg.memoryPressureThresholdPercent || cpuUtil >= cfg.cpuPressureThresholdPercent
             || cpuStall >= cfg.cpuStallThresholdPercent as real || memStall >= 10.0
    requires moderate <==>
             || memUtil >= cfg.memoryPressureThresholdPercent - 10 || cpuUtil >= cfg.cpuPressureThresholdPercent - 10
             || cpuStall >= cfg.cpuStallThresholdPercent as real / 2.0
    ensures Classify(cfg, cpuUtil, memUtil, cpuStall, memStall) ==
            if critical then Critical else if moderate then Moderate else NoPressure
  {
  }

  lemma {:induction false} OverloadedLaw(st: State, cpuAlloc: int, memAlloc: int, now: Time)
    requires SomethingLive(st, now)
    ensures Overloaded(st, cpuAlloc, memAlloc, now) <==>
            || Pct(Trunc(O.Max(LiveAt(st.nodeMemory, now))), memAlloc) >= st.cfg.memoryPressureThresholdPercent
            || Pct(Trunc(O.Percentile(LiveAt(st.nodeCPU, now), 90)), cpuAlloc) >= st.cfg.cpuPressureThresholdPercent
            || O.Percentile(LiveAt(st.cpuPSI, now), 90) >= st.cfg.cpuStallThresholdPercent as real
            || O.Percentile(LiveAt(st.memPSI, now), 90) >= 10.0
  {
    ReachesLaw(st, cpuAlloc, memAlloc, now, st.cfg.memoryPressureThresholdPercent,
               st.cfg.cpuPressureThresholdPercent, st.cfg.cpuStallThresholdPercent as real);
    NinetiethOver(LiveAt(st.memPSI, now), StallOver(10.0));
  }

  lemma {:induction false} Figures(st: State, cpuAlloc: int, memAlloc: int, now: Time)
    returns (cpuUtil: int, memUtil: int, cpuStall: real, memStall: real)
    requires SomethingLive(st, now)
    ensures PressureAt(st, cpuAlloc, memAlloc, now).level == Classify(st.cfg, cpuUtil, memUtil, cpuStall, memStall)
    ensures Overloaded(st, cpuAlloc, memAlloc, now) <==>
            || memUtil >= st.cfg.memoryPressureThresholdPercent || cpuUtil >= st.cfg.cpuPressureThresholdPercent
            || cpuStall >= st.cfg.cpuStallThresholdPercent as real || memStall >= 10.0
    ensures Loaded(st, cpuAlloc, memAlloc, now) <==>
            || memUtil >= st.cfg.memoryPressureThresholdPercent - 10
            || cpuUtil >= st.cfg.cpuPressureThresholdPercent - 10
            || cpuStall >= st.cfg.cpuStallThresholdPercent as real / 2.0
  {
    OverloadedLaw(st, cpuAlloc, memAlloc, now);
    LoadedLaw(st, cpuAlloc, memAlloc, now);
    cpuUtil := Pct(Trunc(O.Percentile(LiveAt(st.nodeCPU, now), 90)), cpuAlloc);
    memUtil := Pct(Trunc(O.Max(LiveAt(st.nodeMemory, now))), memAlloc);
    cpuStall := O.Percentile(LiveAt(st.cpuPSI, now), 90);
    memStall := O.Percentile(LiveAt(st.memPSI, now), 90);
  }

  lemma {:induction false} LoadedLaw(st: State, cpuAlloc: int, memAlloc: int, now: Time)
    requires SomethingLive(st, now)
    ensures Loaded(st, cpuAlloc, memAlloc, now) <==>
            || Pct(Trunc(O.Max(LiveAt(st.nodeMemory, now))), memAlloc) >= st.cfg.memoryPressureThresholdPercent - 10
            || Pct(Trunc(O.Percentile(LiveAt(st.nodeCPU, now), 90)), cpuAlloc) >=
               st.cfg.cpuPressureThresholdPercent - 10
            || O.Percentile(LiveAt(st.cpuPSI, now), 90) >= st.cfg.cpuStallThresholdPercent as real / 2.0
  {
    ReachesLaw(st, cpuAlloc, memAlloc, now, st.cfg.memoryPressureThresholdPercent - 10,
               st.cfg.cpuPressureThresholdPercent - 10, st.cfg.cpuStallThresholdPercent as real / 2.0);
  }

  /** The level is critical exactly when the node is overloaded, moderate exactly when it is not but
      is loaded, and none otherwise. */
  lemma {:induction false} LevelExactly(st: State, cpuAlloc: int, memAlloc: int, now: Time)
    requires SomethingLive(st, now)
    ensures PressureAt(st, cpuAlloc, memAlloc, now).level ==
            if Overloaded(st, cpuAlloc, memAlloc, now) then Critical
            else if Loaded(st, cpuAlloc, memAlloc, now) then Moderate
            else NoPressure
  {
    var cpuUtil, memUtil, cpuStall, memStall := Figures(st, cpuAlloc, memAlloc, now);
    ClassifyLaw(st.cfg, cpuUtil, memUtil, cpuStall, memStall,
                Overloaded(st, cpuAlloc, memAlloc, now), Loaded(st, cpuAlloc, memAlloc, now));
  }

  /** A critical tick withdraws both offers; any other offers something of a resource exactly when
      it aims at something. */
  lemma {:induction false} WithdrawnExactly(st: State, e: Event, r: R.Resource)
    requires e.Tick? && R.NonNegative(st)
    ensures var level := PressureAt(st, e.cpuAlloc, e.memAlloc, e.now).level;
            R.OfferOf(Step(st, e).last, r) == 0 <==> level == Critical || R.TargetOf(st, e, r) == 0
  {
    R.TargetKeepsFloor(st, e, r);
    R.DampLaw(st.cfg.growthStepPercent, R.OfferOf(st.last, r), R.TargetOf(st, e, r));
  }
}
