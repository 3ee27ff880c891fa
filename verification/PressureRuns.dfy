/** The level of a node over a run of agent ticks, told by its recent samples. */
module PressureRuns {
  import opened Numbers
  import opened Tiers
  import opened SampleWindow
  import opened AdvisorModel
  import opened AdvisorWindows
  import opened AgentRuns
  import opened WindowStatistics
  import opened PressureLevels
  import P = Plugins
  import R = AdvisorRuns
  import O = OrderStats

  // ----- recent samples -----

  /** The samples taken at or after a time, in order. */
  function Since(samples: seq<NodeSample>, cutoff: int): seq<NodeSample> {
    if samples == [] then []
    else
      var s := samples[|samples| - 1];
      Since(samples[..|samples| - 1], cutoff) + if s.timestamp < cutoff then [] else [s]
  }

  /** The samples that count at the last one: no more than the windows have room for, none older
      than the window is long. */
  function Recent(cfg: Config, samples: seq<NodeSample>): seq<NodeSample>
    requires samples != []
  {
    Since(LastN(samples, RingCapacity(cfg)), samples[|samples| - 1].timestamp - cfg.windowSeconds * SECOND)
  }

  /** A window has room for a sample an interval, and for three at least. */
  lemma {:induction false} RoomLaw(cfg: Config)
    requires cfg.windowSeconds >= 0
    ensures var (room, interval) := (RingCapacity(cfg), if cfg.intervalSeconds < 1 then 1 else cfg.intervalSeconds);
            && room >= 3 && cfg.windowSeconds < (room + 1) * interval
            && (room > 3 ==> room * interval <= cfg.windowSeconds)
  {
    var interval := if cfg.intervalSeconds < 1 then 1 else cfg.intervalSeconds;
    GoDivBounds(cfg.windowSeconds, interval);
    var quotient := GoDiv(cfg.windowSeconds, interval);
    ScaleUp(quotient + 1, RingCapacity(cfg) + 1, interval);
  }

  function Mapped(samples: seq<NodeSample>, f: Reading): seq<real> {
    if samples == [] then [] else Mapped(samples[..|samples| - 1], f) + [f(samples[|samples| - 1])]
  }

  lemma {:induction false} LiveReadings(samples: seq<NodeSample>, f: Reading, cutoff: int)
    ensures Live(Readings(samples, f), cutoff) == Mapped(Since(samples, cutoff), f)
  {
    if samples != [] {
      var n := |samples| - 1;
      LiveReadings(samples[..n], f, cutoff);
      assert Readings(samples, f)[..n] == Readings(samples[..n], f);
      var front := Since(samples[..n], cutoff);
      assert (front + [samples[n]])[..|front|] == front;
      assert front + [] == front;
    }
  }

  /** What a window gives at its last sample are the readings of the recent samples. */
  lemma {:induction false} LiveIsRecent(r: Ring, cfg: Config, samples: seq<NodeSample>, f: Reading)
    requires Remembers(r, cfg, samples, f) && samples != []
    ensures LiveAt(r, samples[|samples| - 1].timestamp) == Mapped(Recent(cfg, samples), f)
  {
    var last := LastN(samples, r.capacity);
    assert LastN(Readings(samples, f), r.capacity) == Readings(last, f);
    LiveReadings(last, f, samples[|samples| - 1].timestamp - r.horizon);
  }

  lemma {:induction false} SinceMembers(samples: seq<NodeSample>, cutoff: int, s: NodeSample)
    ensures s in Since(samples, cutoff) <==> s in samples && s.timestamp >= cutoff
  {
    if samples != [] {
      SinceMembers(samples[..|samples| - 1], cutoff, s);
      assert samples == samples[..|samples| - 1] + [samples[|samples| - 1]];
    }
  }

  lemma {:induction false} LastIsRecent(cfg: Config, samples: seq<NodeSample>)
    requires samples != [] && cfg.windowSeconds >= 0
    ensures Recent(cfg, samples) != []
  {
    CapacityPositive(cfg);
    var s := samples[|samples| - 1];
    var last := LastN(samples, RingCapacity(cfg));
    assert last[|last| - 1] == s;
    SinceMembers(last, s.timestamp - cfg.windowSeconds * SECOND, s);
  }

  lemma {:induction false} MappedLength(samples: seq<NodeSample>, f: Reading)
    ensures |Mapped(samples, f)| == |samples|
    ensures forall i :: 0 <= i < |samples| ==> Mapped(samples, f)[i] == f(samples[i])
  {
    if samples != [] {
      MappedLength(samples[..|samples| - 1], f);
    }
  }

  // ----- counting samples -----

  function CountOf(samples: seq<NodeSample>, holds: NodeSample -> bool): nat {
    if samples == [] then 0
    else CountOf(samples[..|samples| - 1], holds) + if holds(samples[|samples| - 1]) then 1 else 0
  }

  /** Fewer than nine tenths of the samples stay below. */
  ghost predicate Most(samples: seq<NodeSample>, over: NodeSample -> bool) {
    10 * CountOf(samples, s => !over(s)) < 9 * |samples|
  }

  ghost predicate Any(samples: seq<NodeSample>, over: NodeSample -> bool) {
    exists i :: 0 <= i < |samples| && over(samples[i])
  }

  lemma {:induction false} CountMapped(samples: seq<NodeSample>, f: Reading, over: real -> bool, p: NodeSample -> bool)
    requires forall s :: p(s) <==> over(f(s))
    ensures Count(Mapped(samples, f), x => !over(x)) == CountOf(samples, s => !p(s))
  {
    if samples != [] {
      var n := |samples| - 1;
      CountMapped(samples[..n], f, over, p);
      var front := Mapped(samples[..n], f);
      assert (front + [f(samples[n])])[..|front|] == front;
    }
  }

  lemma {:induction false} MostMapped(samples: seq<NodeSample>, f: Reading, over: real -> bool, p: NodeSample -> bool)
    requires forall s :: p(s) <==> over(f(s))
    ensures MostOver(Mapped(samples, f), over) <==> Most(samples, p)
    ensures SomeOver(Mapped(samples, f), over) <==> Any(samples, p)
  {
    CountMapped(samples, f, over, p);
    MappedLength(samples, f);
    if i :| 0 <= i < |samples| && p(samples[i]) {
      assert over(Mapped(samples, f)[i]);
    }
    if i :| 0 <= i < |Mapped(samples, f)| && over(Mapped(samples, f)[i]) {
      assert p(samples[i]);
    }
  }

  // ----- what a sample can show -----

  function MemoryOver(node: Node, percent: int): NodeSample -> bool {
    (s: NodeSample) => AtLeast(s.memoryBytes, node.memAlloc, percent)
  }

  function CPUOver(node: Node, percent: int): NodeSample -> bool {
    (s: NodeSample) => AtLeast(Trunc(s.cpuMilli), node.cpuAlloc, percent)
  }

  function CPUStalled(bound: real): NodeSample -> bool {
    (s: NodeSample) => s.cpuSomeAvg10 >= bound
  }

  function MemoryStalled(bound: real): NodeSample -> bool {
    (s: NodeSample) => s.memoryFullAvg10 >= bound
  }

  /** One sample reaches a percentage of memory, or more than a tenth one of CPU, or its stalls a bound. */
  ghost predicate Reached(node: Node, samples: seq<NodeSample>, memory: int, cpu: int, stall: real) {
    || Any(samples, MemoryOver(node, memory)) || Most(samples, CPUOver(node, cpu)) || Most(samples, CPUStalled(stall))
  }

  /** A threshold is reached, or more than a tenth of the samples show memory stalled a tenth of the time. */
  ghost predicate Overload(node: Node, samples: seq<NodeSample>) {
    || Reached(node, samples, node.cfg.memoryPressureThresholdPercent, node.cfg.cpuPressureThresholdPercent,
               node.cfg.cpuStallThresholdPercent as real)
    || Most(samples, MemoryStalled(10.0))
  }

  ghost predicate Load(node: Node, samples: seq<NodeSample>) {
    Reached(node, samples, node.cfg.memoryPressureThresholdPercent - 10, node.cfg.cpuPressureThresholdPercent - 10,
            node.cfg.cpuStallThresholdPercent as real / 2.0)
  }

  lemma {:induction false} ReachesReached(node: Node, st: State, samples: seq<NodeSample>, memory: int, cpu: int,
                                          stall: real)
    requires Holds(node, st, samples) && samples != []
    ensures Reaches(st, node.cpuAlloc, node.memAlloc, samples[|samples| - 1].timestamp, memory, cpu, stall) <==>
            Reached(node, Recent(node.cfg, samples), memory, cpu, stall)
  {
    var recent := Recent(node.cfg, samples);
    LiveIsRecent(st.nodeMemory, node.cfg, samples, NodeMemoryReading);
    LiveIsRecent(st.nodeCPU, node.cfg, samples, NodeCPUReading);
    LiveIsRecent(st.cpuPSI, node.cfg, samples, CPUStallReading);
    forall s: NodeSample ensures Trunc(NodeMemoryReading(s)) == s.memoryBytes {
      TruncWhole(s.memoryBytes);
    }
    MostMapped(recent, NodeMemoryReading, UseOver(node.memAlloc, memory), MemoryOver(node, memory));
    MostMapped(recent, NodeCPUReading, UseOver(node.cpuAlloc, cpu), CPUOver(node, cpu));
    MostMapped(recent, CPUStallReading, StallOver(stall), CPUStalled(stall));
  }

  lemma {:induction false} StalledMost(node: Node, st: State, samples: seq<NodeSample>, bound: real)
    requires Holds(node, st, samples) && samples != []
    ensures MostOver(LiveAt(st.memPSI, samples[|samples| - 1].timestamp), StallOver(bound)) <==>
            Most(Recent(node.cfg, samples), MemoryStalled(bound))
  {
    LiveIsRecent(st.memPSI, node.cfg, samples, MemoryStallReading);
    MostMapped(Recent(node.cfg, samples), MemoryStallReading, StallOver(bound), MemoryStalled(bound));
  }

  lemma {:induction false} AllLive(node: Node, st: State, samples: seq<NodeSample>)
    requires Holds(node, st, samples) && samples != [] && node.cfg.windowSeconds >= 0
    ensures SomethingLive(st, samples[|samples| - 1].timestamp)
  {
    LastIsRecent(node.cfg, samples);
    LiveIsRecent(st.nodeMemory, node.cfg, samples, NodeMemoryReading);
    LiveIsRecent(st.nodeCPU, node.cfg, samples, NodeCPUReading);
    LiveIsRecent(st.cpuPSI, node.cfg, samples, CPUStallReading);
    LiveIsRecent(st.memPSI, node.cfg, samples, MemoryStallReading);
    MappedLength(Recent(node.cfg, samples), NodeMemoryReading);
    MappedLength(Recent(node.cfg, samples), NodeCPUReading);
    MappedLength(Recent(node.cfg, samples), CPUStallReading);
    MappedLength(Recent(node.cfg, samples), MemoryStallReading);
  }

  ghost predicate AllUsable(ticks: seq<AgentTick>) {
    forall i :: 0 <= i < |ticks| ==> ticks[i].sample.valid
  }

  lemma {:induction false} OverloadRecent(node: Node, st: State, samples: seq<NodeSample>)
    requires Holds(node, st, samples) && samples != []
    ensures Overloaded(st, node.cpuAlloc, node.memAlloc, samples[|samples| - 1].timestamp) <==>
            Overload(node, Recent(node.cfg, samples))
  {
    ReachesReached(node, st, samples, node.cfg.memoryPressureThresholdPercent, node.cfg.cpuPressureThresholdPercent,
                   node.cfg.cpuStallThresholdPercent as real);
    StalledMost(node, st, samples, 10.0);
  }

  lemma {:induction false} LoadRecent(node: Node, st: State, samples: seq<NodeSample>)
    requires Holds(node, st, samples) && samples != []
    ensures Loaded(st, node.cpuAlloc, node.memAlloc, samples[|samples| - 1].timestamp) <==>
            Load(node, Recent(node.cfg, samples))
  {
    var (memory, cpu) := (node.cfg.memoryPressureThresholdPercent - 10, node.cfg.cpuPressureThresholdPercent - 10);
    var stall := node.cfg.cpuStallThresholdPercent as real / 2.0;
    ReachesReached(node, st, samples, memory, cpu, stall);
    LoadedAt(node, st, samples[|samples| - 1].timestamp, memory, cpu, stall);
    LoadAt(node, Recent(node.cfg, samples), memory, cpu, stall);
  }

  lemma {:induction false} LoadedAt(node: Node, st: State, now: Time, memory: int, cpu: int, stall: real)
    requires st.cfg == node.cfg && memory == node.cfg.memoryPressureThresholdPercent - 10
    requires cpu == node.cfg.cpuPressureThresholdPercent - 10
    requires stall == node.cfg.cpuStallThresholdPercent as real / 2.0
    ensures Loaded(st, node.cpuAlloc, node.memAlloc, now) <==>
            Reaches(st, node.cpuAlloc, node.memAlloc, now, memory, cpu, stall)
  {
  }

  lemma {:induction false} LoadAt(node: Node, recent: seq<NodeSample>, memory: int, cpu: int, stall: real)
    requires memory == node.cfg.memoryPressureThresholdPercent - 10
    requires cpu == node.cfg.cpuPressureThresholdPercent - 10
    requires stall == node.cfg.cpuStallThresholdPercent as real / 2.0
    ensures Load(node, recent) <==> Reached(node, recent, memory, cpu, stall)
  {
  }

  /** The level that the recent samples call for. */
  ghost function LevelFor(node: Node, recent: seq<NodeSample>): PressureLevel {
    if Overload(node, recent) then Critical else if Load(node, recent) then Moderate else NoPressure
  }

  lemma {:induction false} StateLevel(node: Node, st: State, samples: seq<NodeSample>)
    requires Holds(node, st, samples) && samples != [] && node.cfg.windowSeconds >= 0
    ensures PressureAt(st, node.cpuAlloc, node.memAlloc, samples[|samples| - 1].timestamp).level ==
            LevelFor(node, Recent(node.cfg, samples))
  {
    AllLive(node, st, samples);
    LevelExactly(st, node.cpuAlloc, node.memAlloc, samples[|samples| - 1].timestamp);
    OverloadRecent(node, st, samples);
    LoadRecent(node, st, samples);
  }

  /** After any run of usable samples the level is what the recent samples say. */
  lemma {:induction false} RunLevel(node: Node, ticks: seq<AgentTick>)
    requires AllUsable(ticks) && ticks != [] && node.cfg.windowSeconds >= 0
    ensures PressureOf(node, ticks).level == LevelFor(node, Recent(node.cfg, Samples(ticks)))
  {
    var st := WindowsAtEnd(node, ticks);
    StateLevel(node, st, Samples(ticks));
  }

  lemma {:induction false} WindowsAtEnd(node: Node, ticks: seq<AgentTick>) returns (st: State)
    requires AllUsable(ticks) && ticks != []
    ensures Holds(node, st, Samples(ticks))
    ensures PressureOf(node, ticks) ==
            PressureAt(st, node.cpuAlloc, node.memAlloc, Samples(ticks)[|ticks| - 1].timestamp)
  {
    st := Advised(node, ticks);
    LastVerdict(node, ticks);
    WindowsOfRun(node, ticks);
  }

  // ----- one overload -----

  /** Samples in time order of which the b-th alone, if there are that many, reaches the memory
      threshold, and none reaches any other. */
  ghost predicate OneOverload(node: Node, samples: seq<NodeSample>, b: nat) {
    && (forall i, j :: 0 <= i < j < |samples| ==> samples[i].timestamp <= samples[j].timestamp)
    && forall i :: 0 <= i < |samples| ==>
         && samples[i].valid
         && (MemoryOver(node, node.cfg.memoryPressureThresholdPercent)(samples[i]) <==> i == b)
         && !CPUOver(node, node.cfg.cpuPressureThresholdPercent)(samples[i])
         && !CPUStalled(node.cfg.cpuStallThresholdPercent as real)(samples[i]) && !MemoryStalled(10.0)(samples[i])
  }

  lemma {:induction false} RecentAt(cfg: Config, samples: seq<NodeSample>, s: NodeSample) returns (j: nat)
    requires samples != [] && s in Recent(cfg, samples)
    ensures |samples| - RingCapacity(cfg) <= j < |samples| && samples[j] == s
    ensures s.timestamp >= samples[|samples| - 1].timestamp - cfg.windowSeconds * SECOND
  {
    var last := LastN(samples, RingCapacity(cfg));
    SinceMembers(last, samples[|samples| - 1].timestamp - cfg.windowSeconds * SECOND, s);
    var i :| 0 <= i < |last| && last[i] == s;
    j := i + |samples| - |last|;
  }

  lemma {:induction false} IsRecent(cfg: Config, samples: seq<NodeSample>, j: nat)
    requires |samples| - RingCapacity(cfg) <= j < |samples|
    requires samples[j].timestamp >= samples[|samples| - 1].timestamp - cfg.windowSeconds * SECOND
    ensures samples[j] in Recent(cfg, samples)
  {
    var last := LastN(samples, RingCapacity(cfg));
    assert last[j - (|samples| - |last|)] == samples[j];
    SinceMembers(last, samples[|samples| - 1].timestamp - cfg.windowSeconds * SECOND, samples[j]);
  }

  lemma {:induction false} NoneMost(samples: seq<NodeSample>, over: NodeSample -> bool)
    requires forall s :: s in samples ==> !over(s)
    ensures CountOf(samples, s => !over(s)) == |samples| && !Most(samples, over)
  {
    if samples != [] {
      var n := |samples| - 1;
      assert samples == samples[..n] + [samples[n]];
      NoneMost(samples[..n], over);
    }
  }

  /** The memory threshold is reached exactly while the windows hold that sample, and nothing else is. */
  lemma {:induction false} OverloadHeld(node: Node, samples: seq<NodeSample>, b: nat)
    requires OneOverload(node, samples, b) && samples != []
    ensures Overload(node, Recent(node.cfg, samples)) <==> InWindow(node.cfg, samples, b)
  {
    var (recent, memory) := (Recent(node.cfg, samples), MemoryOver(node, node.cfg.memoryPressureThresholdPercent));
    forall s | s in recent
      ensures !CPUOver(node, node.cfg.cpuPressureThresholdPercent)(s)
      ensures !CPUStalled(node.cfg.cpuStallThresholdPercent as real)(s) && !MemoryStalled(10.0)(s)
    {
      var j := RecentAt(node.cfg, samples, s);
    }
    NoneMost(recent, CPUOver(node, node.cfg.cpuPressureThresholdPercent));
    NoneMost(recent, CPUStalled(node.cfg.cpuStallThresholdPercent as real));
    NoneMost(recent, MemoryStalled(10.0));
    MemoryHeld(node, samples, b);
  }

  lemma {:induction false} MemoryHeld(node: Node, samples: seq<NodeSample>, b: nat)
    requires OneOverload(node, samples, b) && samples != []
    ensures Any(Recent(node.cfg, samples), MemoryOver(node, node.cfg.memoryPressureThresholdPercent)) <==>
            InWindow(node.cfg, samples, b)
  {
    var (recent, memory) := (Recent(node.cfg, samples), MemoryOver(node, node.cfg.memoryPressureThresholdPercent));
    if InWindow(node.cfg, samples, b) {
      IsRecent(node.cfg, samples, b);
      var i :| 0 <= i < |recent| && recent[i] == samples[b];
      assert memory(recent[i]);
    }
    if i :| 0 <= i < |recent| && memory(recent[i]) {
      var j := RecentAt(node.cfg, samples, recent[i]);
      assert memory(samples[j]);
    }
  }

  lemma {:induction false} UsableTicks(node: Node, ticks: seq<AgentTick>, b: nat)
    requires OneOverload(node, Samples(ticks), b)
    ensures AllUsable(ticks)
  {
    forall i | 0 <= i < |ticks| ensures ticks[i].sample.valid {
      assert Samples(ticks)[i].valid;
    }
  }

  /** One sample at or over the memory threshold makes the node critical exactly while the windows
      hold it. */
  lemma {:induction false} CriticalSpike(node: Node, ticks: seq<AgentTick>, b: nat)
    requires OneOverload(node, Samples(ticks), b) && ticks != [] && node.cfg.windowSeconds >= 0
    ensures PressureOf(node, ticks).level == Critical <==> InWindow(node.cfg, Samples(ticks), b)
  {
    UsableTicks(node, ticks, b);
    RunLevel(node, ticks);
    OverloadHeld(node, Samples(ticks), b);
  }

  // ----- what critical pressure does to offers -----

  /** The state a run's last verdict is made from, and the verdict as an event. */
  function BeforeVerdict(node: Node, ticks: seq<AgentTick>): State
    requires ticks != []
  {
    Observe(Advised(node, ticks[..|ticks| - 1]), ticks[|ticks| - 1].sample)
  }

  function VerdictEvent(node: Node, ticks: seq<AgentTick>): Event
    requires ticks != []
  {
    Tick(node.cpuAlloc, node.memAlloc, ticks[|ticks| - 1].sample.timestamp)
  }

  lemma {:induction false} AdvisedNonNegative(node: Node, ticks: seq<AgentTick>)
    requires node.cfg.maxReclaimPercent >= 0
    ensures R.NonNegative(Advised(node, ticks))
  {
    if ticks != [] {
      AdvisedNonNegative(node, ticks[..|ticks| - 1]);
      R.StepNonNegative(BeforeVerdict(node, ticks), VerdictEvent(node, ticks));
    }
  }

  /** After any run a resource is offered at nothing exactly when the recent samples overload the
      node or nothing fits the budget. */
  lemma {:induction false} RunOffers(node: Node, ticks: seq<AgentTick>, r: R.Resource)
    requires AllUsable(ticks) && ticks != [] && node.cfg.windowSeconds >= 0 && node.cfg.maxReclaimPercent >= 0
    ensures R.OfferOf(Advised(node, ticks).last, r) == 0 <==>
            || Overload(node, Recent(node.cfg, Samples(ticks)))
            || R.TargetOf(BeforeVerdict(node, ticks), VerdictEvent(node, ticks), r) == 0
  {
    RunLevel(node, ticks);
    AdvisedNonNegative(node, ticks[..|ticks| - 1]);
    WithdrawnExactly(BeforeVerdict(node, ticks), VerdictEvent(node, ticks), r);
    VerdictPressure(node, ticks);
  }

  lemma {:induction false} VerdictPressure(node: Node, ticks: seq<AgentTick>)
    requires ticks != []
    ensures PressureOf(node, ticks) ==
            PressureAt(BeforeVerdict(node, ticks), node.cpuAlloc, node.memAlloc, VerdictEvent(node, ticks).now)
    ensures Advised(node, ticks) == Step(BeforeVerdict(node, ticks), VerdictEvent(node, ticks))
  {
  }

  // ----- what it tells the CPU plugin -----

  /** The CPU plugin is triggered exactly when more than a tenth of the recent samples show CPU use
      at its threshold, or stalls that round to theirs. */
  lemma {:induction false} CPUTrigger(node: Node, ticks: seq<AgentTick>)
    requires AllUsable(ticks) && ticks != [] && node.cfg.windowSeconds >= 0
    requires node.policy.cpuSomeStalledThresholdPercent > 0
    ensures var recent := Recent(node.cfg, Samples(ticks));
            P.CPUTriggered(SignalOf(node, ticks)) <==>
            || Most(recent, CPUOver(node, node.policy.cpuPressureThresholdPercent))
            || Most(recent, CPUStalled(node.policy.cpuSomeStalledThresholdPercent as real - 0.5))
  {
    var st := WindowsAtEnd(node, ticks);
    StateTrigger(node, st, Samples(ticks), node.policy.cpuPressureThresholdPercent,
                 node.policy.cpuSomeStalledThresholdPercent);
  }

  lemma {:induction false} StateTrigger(node: Node, st: State, samples: seq<NodeSample>, cpu: int, stall: int)
    requires Holds(node, st, samples) && samples != [] && node.cfg.windowSeconds >= 0 && stall > 0
    ensures var p := PressureAt(st, node.cpuAlloc, node.memAlloc, samples[|samples| - 1].timestamp);
            var recent := Recent(node.cfg, samples);
            && (p.cpuUtilizationPercent >= cpu <==> Most(recent, CPUOver(node, cpu)))
            && (p.cpuSomeStalledPercent >= stall <==> Most(recent, CPUStalled(stall as real - 0.5)))
  {
    AllLive(node, st, samples);
    var (now, recent) := (samples[|samples| - 1].timestamp, Recent(node.cfg, samples));
    FiguresLaw(st, node.cpuAlloc, node.memAlloc, now, cpu);
    FiguresLaw(st, node.cpuAlloc, node.memAlloc, now, stall);
    LiveIsRecent(st.nodeCPU, node.cfg, samples, NodeCPUReading);
    LiveIsRecent(st.cpuPSI, node.cfg, samples, CPUStallReading);
    MostMapped(recent, NodeCPUReading, UseOver(node.cpuAlloc, cpu), CPUOver(node, cpu));
    MostMapped(recent, CPUStallReading, StallOver(stall as real - 0.5), CPUStalled(stall as real - 0.5));
  }

  // ----- a node that is full -----

  /** Ninety of a hundred gibibytes in use: the default configuration calls that critical and
      offers nothing. */
  lemma {:induction false} FullNode(node: Node, tick: AgentTick)
    requires node.cfg == DEFAULT_CONFIG && node.cpuAlloc == 10_000 && node.memAlloc == 100 * 1024 * MIB
    requires tick.sample == NodeSample(tick.sample.timestamp, true, 0.0, 90 * 1024 * MIB, 0.0, 0.0, [])
    ensures PressureOf(node, [tick]).level == Critical
    ensures Advised(node, [tick]).last.cpuMilli == 0 && Advised(node, [tick]).last.memoryBytes == 0
  {
    var s := tick.sample;
    assert Samples([tick]) == [s];
    assert MemoryOver(node, 85)(s);
    assert OneOverload(node, [s], 0);
    CapacityPositive(node.cfg);
    CriticalSpike(node, [tick], 0);
    UsableTicks(node, [tick], 0);
    OverloadHeld(node, [s], 0);
    RunOffers(node, [tick], R.Compute);
    RunOffers(node, [tick], R.Memory);
  }

  // ----- confidence -----

  /** A verdict is of low confidence exactly until the windows have filled once, and of high
      confidence exactly if after that at least half of what they have room for is recent. */
  lemma {:induction false} RunConfidence(node: Node, ticks: seq<AgentTick>)
    requires AllUsable(ticks) && ticks != []
    ensures var (confidence, room) := (Advised(node, ticks).last.confidence, RingCapacity(node.cfg));
            var recent := |Recent(node.cfg, Samples(ticks))|;
            confidence == if |ticks| < room then "Low" else if recent < room / 2 then "Medium" else "High"
  {
    var st := ConfidenceWindows(node, ticks);
    StateConfidence(node, st, Samples(ticks));
  }

  lemma {:induction false} ConfidenceWindows(node: Node, ticks: seq<AgentTick>) returns (st: State)
    requires AllUsable(ticks) && ticks != []
    ensures Holds(node, st, Samples(ticks))
    ensures Advised(node, ticks).last.confidence == ConfidenceAt(st, Samples(ticks)[|ticks| - 1].timestamp)
  {
    st := Advised(node, ticks);
    LastConfidence(node, ticks);
    WindowsOfRun(node, ticks);
  }

  lemma {:induction false} StateConfidence(node: Node, st: State, samples: seq<NodeSample>)
    requires Holds(node, st, samples) && samples != []
    ensures var room := RingCapacity(node.cfg);
            ConfidenceAt(st, samples[|samples| - 1].timestamp) ==
            if |samples| < room then "Low" else if |Recent(node.cfg, samples)| < room / 2 then "Medium" else "High"
  {
    LiveIsRecent(st.protectedCPU, node.cfg, samples, ProtectedCPUReading);
    MappedLength(Recent(node.cfg, samples), ProtectedCPUReading);
  }

  lemma {:induction false} LastConfidence(node: Node, ticks: seq<AgentTick>)
    requires ticks != []
    ensures Advised(node, ticks).last.confidence ==
            ConfidenceAt(Advised(node, ticks), Samples(ticks)[|ticks| - 1].timestamp)
  {
  }
}
