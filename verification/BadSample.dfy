/** Exactly when a single bad sample can get a pod evicted. */
module BadSample {
  import opened Numbers
  import opened Tiers
  import opened Pods
  import opened AdvisorModel
  import opened AdvisorWindows
  import opened AgentRuns
  import EM = EvictionModel
  import P = Plugins
  import EvictionRate
  import TokenBucket
  import OrderStats

  /** An eviction manager that is armed, and thresholds, the same for advisor and manager, under
      which an idle node is calm and a full one is not. */
  predicate Sensible(node: Node) {
    var (cfg, policy) := (node.cfg, node.policy);
    && policy.enabled && !policy.dryRun && policy.maxEvictionsPerMinute >= 1
    && policy.memoryPressureThresholdPercent == cfg.memoryPressureThresholdPercent
    && policy.cpuPressureThresholdPercent == cfg.cpuPressureThresholdPercent
    && policy.cpuSomeStalledThresholdPercent == cfg.cpuStallThresholdPercent
    && 10 < cfg.memoryPressureThresholdPercent <= 110 && 10 < cfg.cpuPressureThresholdPercent
    && 0 < cfg.cpuStallThresholdPercent
    && cfg.windowSeconds >= 0 && node.memAlloc > 0
  }

  // ----- two ticks -----

  function QuietSample(stamp: Time, bytes: nat): NodeSample {
    NodeSample(stamp, true, 0.0, bytes, 0.0, 0.0, [])
  }

  const READINGS := map["u" := P.Reading(900.0, 0)]

  function OverrunVerdict(): EM.Verdict {
    P.OverrunVerdict(P.PodUsage(P.OVERRUNNER, ReclaimedCores, 900.0, 0))
  }

  /** The run's last tick sees one overrunning reclaimed pod and some memory in use, and the
      plugins for CPU and memory propose nobody but by memory. */
  ghost predicate Shows(node: Node, ticks: seq<AgentTick>, stamp: Time, bytes: nat)
    requires ticks != []
  {
    var t := ticks[|ticks| - 1];
    && t.sample == QuietSample(stamp, bytes) && !t.degraded && t.pods == [P.OVERRUNNER] && t.readings == READINGS
    && t.answers == [Some([]), Some(P.MemoryVerdicts(P.MemoryVictims(SignalOf(node, ticks)))), Some([OverrunVerdict()])]
    && t.api == EvictionRate.AlwaysAccepted()
  }

  /** Memory is full, and after one window it is empty. */
  ghost predicate SpikeRun(node: Node, ticks: seq<AgentTick>)
    requires Sensible(node)
  {
    && |ticks| == 2
    && Shows(node, ticks[..1], 1, node.memAlloc) && Shows(node, ticks, 1 + node.cfg.windowSeconds * SECOND, 0)
  }

  /** A tick can always be made to show that: what the plugins see does not depend on answers. */
  lemma {:induction false} CanShow(node: Node, before: seq<AgentTick>, stamp: Time, bytes: nat) returns (t: AgentTick)
    ensures Shows(node, before + [t], stamp, bytes)
  {
    t := AgentTick(QuietSample(stamp, bytes), false, [P.OVERRUNNER], READINGS, [], EvictionRate.AlwaysAccepted());
    var sig := SignalOf(node, before + [t]);
    var answered := t.(answers :=
      [Some([]), Some(P.MemoryVerdicts(P.MemoryVictims(sig))), Some([OverrunVerdict()])]);
    SameSignal(node, before, t, answered);
    t := answered;
  }

  lemma {:induction false} SameSignal(node: Node, before: seq<AgentTick>, t: AgentTick, u: AgentTick)
    requires u == t.(answers := u.answers)
    ensures SignalOf(node, before + [t]) == SignalOf(node, before + [u])
  {
    assert (before + [t])[..|before|] == before == (before + [u])[..|before|];
  }

  lemma {:induction false} CanSpike(node: Node) returns (ticks: seq<AgentTick>)
    requires Sensible(node)
    ensures SpikeRun(node, ticks)
  {
    var a := CanShow(node, [], 1, node.memAlloc);
    var b := CanShow(node, [a], 1 + node.cfg.windowSeconds * SECOND, 0);
    assert [] + [a] == [a] && [a] + [b] == [a, b] && [a, b][..1] == [a];
    ticks := [a, b];
  }

  // ----- the advisor -----

  lemma {:induction false} NothingElse(node: Node, s: NodeSample)
    requires Sensible(node) && s.cpuMilli == 0.0 && s.cpuSomeAvg10 == 0.0 && s.memoryFullAvg10 == 0.0
    ensures CalmCPU(node, s.cpuMilli) && CalmStalls(node, s.cpuSomeAvg10, s.memoryFullAvg10)
    ensures CalmMemory(node, 0) && !CalmMemory(node, node.memAlloc)
  {
    PctEnds(node.cpuAlloc);
    PctEnds(node.memAlloc);
  }

  lemma {:induction false} PctEnds(whole: int)
    ensures Pct(0, whole) == 0 && (whole > 0 ==> Pct(whole, whole) == 100)
  {
    if whole > 0 {
      DivExact(0, whole);
      DivExact(100, whole);
    }
  }

  /** No sample shows any use of CPU. */
  ghost predicate NoCPU(samples: seq<NodeSample>) {
    forall i :: 0 <= i < |samples| ==> samples[i].cpuMilli == 0.0 && samples[i].cpuSomeAvg10 == 0.0
  }

  /** A run whose only bad sample is its first, still held, and whose samples show no CPU use. */
  ghost predicate SpikeHeld(node: Node, samples: seq<NodeSample>) {
    OneSpike(node, samples, 0) && InWindow(node.cfg, samples, 0) && NoCPU(samples)
  }

  lemma {:induction false} TwoSamples(node: Node, s: NodeSample, t: NodeSample)
    requires Sensible(node) && s == QuietSample(1, node.memAlloc)
    requires t == QuietSample(1 + node.cfg.windowSeconds * SECOND, 0)
    ensures SpikeHeld(node, [s]) && SpikeHeld(node, [s, t])
  {
    NothingElse(node, s);
    NothingElse(node, t);
    CapacityPositive(node.cfg);
  }

  lemma {:induction false} SamplesOfTwo(ticks: seq<AgentTick>)
    requires |ticks| == 2
    ensures Samples(ticks[..1]) == [ticks[0].sample] && Samples(ticks) == [ticks[0].sample, ticks[1].sample]
  {
  }

  lemma {:induction false} SpikeIsHeld(node: Node, ticks: seq<AgentTick>)
    requires Sensible(node) && SpikeRun(node, ticks)
    ensures SpikeHeld(node, Samples(ticks[..1])) && SpikeHeld(node, Samples(ticks))
  {
    SamplesOfTwo(ticks);
    TwoSamples(node, ticks[0].sample, ticks[1].sample);
  }

  lemma {:induction false} CPUFigures(node: Node, st: State, samples: seq<NodeSample>)
    requires Holds(node, st, samples) && samples != [] && node.cfg.windowSeconds >= 0 && NoCPU(samples)
    ensures NoCPUPressure(PressureAt(st, node.cpuAlloc, node.memAlloc, samples[|samples| - 1].timestamp))
  {
    var i := PercentileFrom(st.nodeCPU, node.cfg, samples, NodeCPUReading, 90);
    var j := PercentileFrom(st.cpuPSI, node.cfg, samples, CPUStallReading, 90);
    assert samples[i].cpuMilli == 0.0 && samples[j].cpuSomeAvg10 == 0.0;
  }

  predicate NoCPUPressure(p: Pressure) {
    p.cpuUtilizationPercent == 0 && p.cpuSomeStalledPercent == 0
  }

  /** Such a run ends in pressure, and with no CPU use. */
  lemma {:induction false} TickPressure(node: Node, ticks: seq<AgentTick>)
    requires Sensible(node) && ticks != [] && SpikeHeld(node, Samples(ticks))
    ensures PressureOf(node, ticks).level != NoPressure && NoCPUPressure(PressureOf(node, ticks))
  {
    SpikeLevel(node, ticks, 0);
    var st := LastWindows(node, ticks, 0);
    CPUFigures(node, st, Samples(ticks));
  }

  // ----- the plugins -----

  lemma {:induction false} OverrunnerSeen(sig: P.Signal)
    requires sig.pods == [P.OVERRUNNER] && sig.readings == READINGS
    ensures P.UsagesOf(sig, sig.pods) == [P.PodUsage(P.OVERRUNNER, ReclaimedCores, 900.0, 0)]
    ensures P.Overrunning(P.UsagesOf(sig, sig.pods)) == [OverrunVerdict()]
  {
    P.OverrunnerAsks();
    var u := P.UsageOf(sig, P.OVERRUNNER);
    assert sig.pods[..0] == [] && P.UsagesOf(sig, sig.pods) == [] + [u];
    assert [u][..0] == [] && P.Overrunning([u]) == [] + [P.OverrunVerdict(u)];
  }

  lemma {:induction false} PluginsAnswer(sig: P.Signal)
    requires sig.pressure.level != NoPressure && NoCPUPressure(sig.pressure)
    requires sig.policy.cpuSomeStalledThresholdPercent > 0 && sig.policy.cpuPressureThresholdPercent > 0
    requires sig.pods == [P.OVERRUNNER] && sig.readings == READINGS
    ensures Answers(sig, [Some([]), Some(P.MemoryVerdicts(P.MemoryVictims(sig))), Some([OverrunVerdict()])])
  {
    OverrunnerSeen(sig);
  }

  lemma {:induction false} ShownIsAnswered(node: Node, ticks: seq<AgentTick>, stamp: Time, bytes: nat)
    requires Sensible(node) && ticks != [] && Shows(node, ticks, stamp, bytes)
    requires PressureOf(node, ticks).level != NoPressure && NoCPUPressure(PressureOf(node, ticks))
    ensures LastAnswered(node, ticks)
  {
    PluginsAnswer(SignalOf(node, ticks));
  }

  lemma {:induction false} SpikeAnswered(node: Node, ticks: seq<AgentTick>)
    requires Sensible(node) && SpikeRun(node, ticks)
    ensures AllAnswered(node, ticks)
  {
    SpikeIsHeld(node, ticks);
    TickPressure(node, ticks[..1]);
    TickPressure(node, ticks);
    ShownIsAnswered(node, ticks[..1], 1, node.memAlloc);
    ShownIsAnswered(node, ticks, 1 + node.cfg.windowSeconds * SECOND, 0);
    TwoAnswered(node, ticks);
  }

  lemma {:induction false} TwoAnswered(node: Node, ticks: seq<AgentTick>)
    requires |ticks| == 2 && LastAnswered(node, ticks[..1]) && LastAnswered(node, ticks)
    ensures AllAnswered(node, ticks)
  {
    assert ticks[..1][..0] == [];
  }

  // ----- the manager -----

  /** The first pass only starts the clock. */
  lemma {:induction false} FirstPass(p: EM.Pass)
    requires EM.Active(p) && p.level != NoPressure && p.now > 0 && p.policy.stabilisationSeconds > 0
    ensures EM.After(EM.NEW_STATE, [p]) == EM.NEW_STATE.(breachedSince := p.now)
  {
    assert [p][..0] == [];
  }

  lemma {:induction false} OverrunnerIsFree(now: Time)
    ensures EM.Veto(map[], P.OVERRUNNER, now) == ""
  {
    P.OverrunnerAsks();
  }

  lemma {:induction false} TakesOne(most: int, now: Time)
    requires most >= 1 && now > 0
    ensures TokenBucket.Takes(TokenBucket.ConfigureBucket(EM.NEW_STATE.budget, most, MINUTE), now)
  {
  }

  lemma {:induction false} OneConsidered(l: EM.Loop, v: EM.Verdict, p: EM.Pass)
    requires l.budget.window > 0 && !l.stopped && l.evicted == [] && EM.Key(v.pod) !in l.seen
    requires EM.Veto(l.recent, v.pod, p.now) == "" && TokenBucket.Takes(l.budget, p.now)
    requires !p.policy.dryRun && p.api(EM.Key(v.pod)) == EM.Accepted
    ensures EM.ConsiderAll(l, [v], p).evicted == [v]
  {
    assert [v][..0] == [];
  }

  /** A later pass that proposes one free pod evicts it, once the wait is over. */
  lemma {:induction false} SecondPass(p: EM.Pass, since: Time)
    requires EM.Active(p) && p.level != NoPressure && 0 < since && p.now > 0
    requires p.now - since >= p.policy.stabilisationSeconds * SECOND
    requires !p.policy.dryRun && p.policy.maxEvictionsPerMinute >= 1 && p.api == EvictionRate.AlwaysAccepted()
    requires EM.Collect(p.answers) == [OverrunVerdict()]
    ensures EM.RunPass(EM.NEW_STATE.(breachedSince := since), p).1.evicted == [OverrunVerdict()]
  {
    OverrunnerIsFree(p.now);
    TakesOne(p.policy.maxEvictionsPerMinute, p.now);
    OneConsidered(EM.StartLoop(EM.NEW_STATE.budget, map[], p), OverrunVerdict(), p);
  }

  lemma {:induction false} OnlyThird(v: EM.Verdict)
    ensures EM.Collect([Some([]), Some([]), Some([v])]) == [v]
  {
    var answers: seq<Option<seq<EM.Verdict>>> := [Some([]), Some([]), Some([v])];
    assert answers[..2][..1][..0] == [] && answers[..2] == [Some([]), Some([])] && answers[..2][..1] == [Some([])];
    assert EM.Collect(answers[..2][..1]) == EM.Collect(answers[..2][..1][..0]) + [];
    assert EM.Collect(answers[..2]) == [];
  }

  /** With memory empty again, the memory plugin proposes nobody. */
  lemma {:induction false} NoMemoryVictims(sig: P.Signal)
    requires sig.memoryUsed == 0 && sig.policy.memoryPressureThresholdPercent > 0
    ensures P.MemoryVerdicts(P.MemoryVictims(sig)) == []
  {
  }

  /** A pass that starts the clock, and a later one that finds the wait over. */
  lemma {:induction false} TwoPasses(p: EM.Pass, q: EM.Pass)
    requires EM.Active(p) && p.level != NoPressure && p.now > 0 && p.policy.stabilisationSeconds > 0
    requires EM.Active(q) && q.level != NoPressure && q.now > 0
    requires q.now - p.now >= q.policy.stabilisationSeconds * SECOND
    requires !q.policy.dryRun && q.policy.maxEvictionsPerMinute >= 1 && q.api == EvictionRate.AlwaysAccepted()
    requires EM.Collect(q.answers) == [OverrunVerdict()]
    ensures EM.RunPass(EM.After(EM.NEW_STATE, [p]), q).1.evicted == [OverrunVerdict()]
  {
    FirstPass(p);
    SecondPass(q, p.now);
  }

  lemma {:induction false} FirstOfSpike(node: Node, ticks: seq<AgentTick>)
    requires Sensible(node) && SpikeRun(node, ticks)
    ensures var p := PassOf(node, ticks[..1]);
            EM.Active(p) && p.level != NoPressure && p.now == 1 && p.policy == node.policy
  {
    SpikeIsHeld(node, ticks);
    TickPressure(node, ticks[..1]);
  }

  lemma {:induction false} SecondOfSpike(node: Node, ticks: seq<AgentTick>)
    requires Sensible(node) && SpikeRun(node, ticks)
    ensures var p := PassOf(node, ticks);
            && EM.Active(p) && p.level != NoPressure && p.now == 1 + node.cfg.windowSeconds * SECOND
            && p.policy == node.policy && p.api == EvictionRate.AlwaysAccepted()
            && EM.Collect(p.answers) == [OverrunVerdict()]
  {
    SpikeIsHeld(node, ticks);
    TickPressure(node, ticks);
    NoMemoryVictims(SignalOf(node, ticks));
    OnlyThird(OverrunVerdict());
  }

  lemma {:induction false} PassesBefore(node: Node, ticks: seq<AgentTick>)
    requires |ticks| == 2
    ensures Passes(node, ticks[..1]) == [PassOf(node, ticks[..1])]
  {
    assert ticks[..1][..1] == ticks[..1];
  }

  /** After a wait no longer than the window, the overrunning pod is evicted one window after the
      only bad sample, although memory is empty by then. */
  lemma {:induction false} SpikeEvicts(node: Node, ticks: seq<AgentTick>)
    requires Sensible(node) && 0 < node.policy.stabilisationSeconds <= node.cfg.windowSeconds
    requires SpikeRun(node, ticks)
    ensures EvictedBy(node, ticks) == [OverrunVerdict()]
  {
    FirstOfSpike(node, ticks);
    SecondOfSpike(node, ticks);
    PassesBefore(node, ticks);
    TwoPasses(PassOf(node, ticks[..1]), PassOf(node, ticks));
  }

  // ----- the exact condition -----

  /** A run of ticks answered by the plugins, with a single bad sample, whose last tick evicts. */
  ghost predicate EvictsOverSpike(node: Node, ticks: seq<AgentTick>, b: nat) {
    && ticks != [] && b < |ticks| && OneSpike(node, Samples(ticks), b) && AllAnswered(node, ticks)
    && EvictedBy(node, ticks) != []
  }

  /** A single bad sample can get a pod evicted despite a wait exactly when the wait is no longer
      than the advisor's window. */
  lemma {:induction false} SpikeCanEvict(node: Node)
    requires Sensible(node) && node.policy.stabilisationSeconds > 0
    ensures (exists ticks, b :: EvictsOverSpike(node, ticks, b)) <==>
            node.policy.stabilisationSeconds <= node.cfg.windowSeconds
  {
    forall ticks, b | EvictsOverSpike(node, ticks, b)
      ensures node.policy.stabilisationSeconds <= node.cfg.windowSeconds
    {
      SpikeEvictsLate(node, ticks, b);
    }
    if node.policy.stabilisationSeconds <= node.cfg.windowSeconds {
      var ticks := CanSpike(node);
      SpikeIsHeld(node, ticks);
      SpikeAnswered(node, ticks);
      SpikeEvicts(node, ticks);
      assert EvictsOverSpike(node, ticks, 0);
    }
  }

  const DEFAULT_POLICY := EM.Policy(true, false, 85, 92, 40, 3, 30)

  /** The defaults wait thirty seconds and remember for three hundred. */
  lemma {:induction false} DefaultsEvictOverSpike(cpuAlloc: int, memAlloc: int)
    requires memAlloc > 0
    ensures exists ticks, b :: EvictsOverSpike(Node(DEFAULT_CONFIG, DEFAULT_POLICY, cpuAlloc, memAlloc), ticks, b)
  {
    SpikeCanEvict(Node(DEFAULT_CONFIG, DEFAULT_POLICY, cpuAlloc, memAlloc));
  }
}
