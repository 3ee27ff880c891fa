/** The agent's tick, advisor, plugins and eviction manager together: what one bad sample can do. */
module AgentRuns {
  import opened Numbers
  import opened Tiers
  import opened Pods
  import opened SampleWindow
  import opened AdvisorModel
  import opened AdvisorWindows
  import EM = EvictionModel
  import P = Plugins
  import R = AdvisorRuns
  import OrderStats

  // ----- the joint run -----

  /** What stays the same from tick to tick. */
  datatype Node = Node(cfg: Config, policy: EM.Policy, cpuAlloc: int, memAlloc: int)

  /** One tick: the sample, whether it was degraded, the pods that may be evicted with their
      readings, what each plugin answers and how the eviction API would. */
  datatype AgentTick = AgentTick(
    sample: NodeSample,
    degraded: bool,
    pods: seq<Pod>,
    readings: map<string, P.Reading>,
    answers: seq<Option<seq<EM.Verdict>>>,
    api: EM.API)

  /** At a tick the advisor observes the sample and then recommends. */
  function Ticked(node: Node, st: State, s: NodeSample): State {
    Recommend(Observe(st, s), node.cpuAlloc, node.memAlloc, s.timestamp)
  }

  /** The advisor after a run of ticks. */
  function Advised(node: Node, ticks: seq<AgentTick>): State {
    if ticks == [] then New(node.cfg)
    else Ticked(node, Advised(node, ticks[..|ticks| - 1]), ticks[|ticks| - 1].sample)
  }

  /** The pressure that the last tick of a run reports. */
  function PressureOf(node: Node, ticks: seq<AgentTick>): Pressure {
    Advised(node, ticks).last.pressure
  }

  /** The manager's pass at the last tick of a run. */
  function PassOf(node: Node, ticks: seq<AgentTick>): EM.Pass
    requires ticks != []
  {
    var t := ticks[|ticks| - 1];
    EM.Pass(t.sample.timestamp, node.policy, t.degraded, PressureOf(node, ticks).level, t.answers, t.api)
  }

  function Passes(node: Node, ticks: seq<AgentTick>): seq<EM.Pass> {
    seq(|ticks|, i requires 0 <= i < |ticks| => PassOf(node, ticks[..i + 1]))
  }

  /** What the plugins see at the last tick of a run. */
  function SignalOf(node: Node, ticks: seq<AgentTick>): P.Signal
    requires ticks != []
  {
    var t := ticks[|ticks| - 1];
    P.Signal(t.sample.memoryBytes, node.memAlloc, PressureOf(node, ticks), node.policy, t.pods, t.readings)
  }

  /** The plugins answer as they are written, in the order of their names. */
  ghost predicate Answers(sig: P.Signal, answers: seq<Option<seq<EM.Verdict>>>) {
    && |answers| == 3 && answers[0].Some? && answers[2].Some?
    && P.CPUAnswer(sig, answers[0].value)
    && answers[1] == Some(P.MemoryVerdicts(P.MemoryVictims(sig)))
    && P.OverrunAnswer(sig, answers[2].value)
  }

  ghost predicate LastAnswered(node: Node, ticks: seq<AgentTick>) {
    ticks != [] && Answers(SignalOf(node, ticks), ticks[|ticks| - 1].answers)
  }

  ghost predicate AllAnswered(node: Node, ticks: seq<AgentTick>) {
    ticks == [] || (AllAnswered(node, ticks[..|ticks| - 1]) && LastAnswered(node, ticks))
  }

  /** What the manager evicts at the last tick of a run. */
  function EvictedBy(node: Node, ticks: seq<AgentTick>): seq<EM.Verdict>
    requires ticks != []
  {
    EM.RunPass(EM.After(EM.NEW_STATE, Passes(node, ticks[..|ticks| - 1])), PassOf(node, ticks)).1.evicted
  }

  // ----- one bad sample -----

  predicate CalmMemory(node: Node, bytes: int) {
    Pct(bytes, node.memAlloc) < node.cfg.memoryPressureThresholdPercent - 10
  }

  predicate CalmCPU(node: Node, milli: real) {
    Pct(Trunc(milli), node.cpuAlloc) < node.cfg.cpuPressureThresholdPercent - 10
  }

  predicate CalmStalls(node: Node, cpu: real, memory: real) {
    && cpu < node.cfg.cpuStallThresholdPercent as real && cpu < node.cfg.cpuStallThresholdPercent as real / 2.0
    && memory < 10.0
  }

  function Samples(ticks: seq<AgentTick>): seq<NodeSample> {
    seq(|ticks|, i requires 0 <= i < |ticks| => ticks[i].sample)
  }

  /** Samples in time order, all usable, of which none but the b-th, if there are that many, shows
      too much memory in use and none shows anything else amiss. */
  ghost predicate OneSpike(node: Node, samples: seq<NodeSample>, b: nat) {
    && (forall i, j :: 0 <= i < j < |samples| ==> samples[i].timestamp <= samples[j].timestamp)
    && (forall i :: 0 <= i < |samples| ==>
          && samples[i].valid && CalmCPU(node, samples[i].cpuMilli)
          && CalmStalls(node, samples[i].cpuSomeAvg10, samples[i].memoryFullAvg10)
          && (CalmMemory(node, samples[i].memoryBytes) <==> i != b))
  }

  /** The b-th sample was taken, and so recently that the windows still hold it. */
  predicate InWindow(cfg: Config, samples: seq<NodeSample>, b: nat) {
    && b < |samples| && |samples| - b <= RingCapacity(cfg)
    && samples[|samples| - 1].timestamp - samples[b].timestamp <= cfg.windowSeconds * SECOND
  }

  // ----- what the windows hold -----

  /** The windows hold exactly the last of these samples. */
  ghost predicate Holds(node: Node, st: State, samples: seq<NodeSample>) {
    AllRemember(st, node.cfg, samples) && st.cfg == node.cfg
  }

  lemma {:induction false} TickHolds(node: Node, st: State, samples: seq<NodeSample>, s: NodeSample)
    requires Holds(node, st, samples) && s.valid
    ensures Holds(node, Ticked(node, st, s), samples + [s])
  {
    ObserveRemembers(st, node.cfg, samples, s);
  }

  lemma {:induction false} SamplesSnoc(ticks: seq<AgentTick>)
    requires ticks != []
    ensures Samples(ticks) == Samples(ticks[..|ticks| - 1]) + [ticks[|ticks| - 1].sample]
  {
  }

  lemma {:induction false} WindowsOfRun(node: Node, ticks: seq<AgentTick>)
    requires forall i :: 0 <= i < |ticks| ==> ticks[i].sample.valid
    ensures Holds(node, Advised(node, ticks), Samples(ticks))
  {
    if ticks == [] {
      FreshWindows(New(node.cfg), node.cfg);
      assert Samples(ticks) == [];
    } else {
      var n := |ticks| - 1;
      SamplesSnoc(ticks);
      WindowsOfRun(node, ticks[..n]);
      TickHolds(node, Advised(node, ticks[..n]), Samples(ticks[..n]), ticks[n].sample);
    }
  }

  /** A live value is the reading of a sample that is still held. */
  lemma {:induction false} LiveFrom(r: Ring, cfg: Config, samples: seq<NodeSample>, f: Reading, now: Time,
                                    v: real)
    returns (j: nat)
    requires Remembers(r, cfg, samples, f) && v in LiveAt(r, now)
    ensures |samples| - r.capacity <= j < |samples| && f(samples[j]) == v && samples[j].timestamp >= now - r.horizon
  {
    LiveMembers(r.obs, now - r.horizon, v);
    var i :| 0 <= i < |r.obs| && r.obs[i].value == v && r.obs[i].stamp >= now - r.horizon;
    j := i + |samples| - |r.obs|;
    assert Readings(samples, f)[j] == r.obs[i];
  }

  /** And the reading of a sample that is still held, and recent enough, is live. */
  lemma {:induction false} LiveTo(r: Ring, cfg: Config, samples: seq<NodeSample>, f: Reading, now: Time, j: nat)
    requires Remembers(r, cfg, samples, f)
    requires |samples| - r.capacity <= j < |samples| && samples[j].timestamp >= now - r.horizon
    ensures f(samples[j]) in LiveAt(r, now)
  {
    var i := j - (|samples| - |r.obs|);
    assert r.obs[i] == Readings(samples, f)[j] == Obs(f(samples[j]), samples[j].timestamp);
    LiveMembers(r.obs, now - r.horizon, f(samples[j]));
  }

  lemma {:induction false} CapacityPositive(cfg: Config)
    ensures RingCapacity(cfg) >= 3
  {
  }

  /** The last sample's own reading is live, so a percentile is some held sample's reading. */
  lemma {:induction false} PercentileFrom(r: Ring, cfg: Config, samples: seq<NodeSample>, f: Reading,
                                          p: int)
    returns (j: nat)
    requires Remembers(r, cfg, samples, f) && samples != [] && cfg.windowSeconds >= 0
    ensures j < |samples| && f(samples[j]) == OrderStats.Percentile(LiveAt(r, samples[|samples| - 1].timestamp), p)
  {
    var now := samples[|samples| - 1].timestamp;
    CapacityPositive(cfg);
    LiveTo(r, cfg, samples, f, now, |samples| - 1);
    var v := OrderStats.Percentile(LiveAt(r, now), p);
    OrderStats.PercentileCharacterised(LiveAt(r, now), p, v);
    j := LiveFrom(r, cfg, samples, f, now, v);
  }

  /** Nothing but memory ever presses. */
  lemma {:induction false} OthersCalm(node: Node, st: State, samples: seq<NodeSample>, b: nat)
    requires AllRemember(st, node.cfg, samples) && OneSpike(node, samples, b) && samples != []
    requires node.cfg.windowSeconds >= 0
    ensures var now := samples[|samples| - 1].timestamp;
            && CalmCPU(node, OrderStats.Percentile(LiveAt(st.nodeCPU, now), 90))
            && CalmStalls(node, OrderStats.Percentile(LiveAt(st.cpuPSI, now), 90),
                          OrderStats.Percentile(LiveAt(st.memPSI, now), 90))
  {
    var i := PercentileFrom(st.nodeCPU, node.cfg, samples, NodeCPUReading, 90);
    var j := PercentileFrom(st.cpuPSI, node.cfg, samples, CPUStallReading, 90);
    var k := PercentileFrom(st.memPSI, node.cfg, samples, MemoryStallReading, 90);
    assert samples[i].valid && samples[j].valid && samples[k].valid;
  }

  /** Memory presses exactly while the windows hold the spike. */
  lemma {:induction false} MemoryPresses(node: Node, st: State, samples: seq<NodeSample>, b: nat)
    requires AllRemember(st, node.cfg, samples) && OneSpike(node, samples, b) && samples != []
    requires node.cfg.windowSeconds >= 0
    ensures var now := samples[|samples| - 1].timestamp;
            CalmMemory(node, Trunc(OrderStats.Max(LiveAt(st.nodeMemory, now)))) <==> !InWindow(node.cfg, samples, b)
  {
    var (r, now) := (st.nodeMemory, samples[|samples| - 1].timestamp);
    CapacityPositive(node.cfg);
    LiveTo(r, node.cfg, samples, NodeMemoryReading, now, |samples| - 1);
    OrderStats.MaxIsGreatest(LiveAt(r, now));
    var j := LiveFrom(r, node.cfg, samples, NodeMemoryReading, now, OrderStats.Max(LiveAt(r, now)));
    TruncWhole(samples[j].memoryBytes);
    assert CalmMemory(node, samples[j].memoryBytes) <==> j != b;
    if InWindow(node.cfg, samples, b) {
      LiveTo(r, node.cfg, samples, NodeMemoryReading, now, b);
      TruncWhole(samples[b].memoryBytes);
      R.UtilMonotone(samples[b].memoryBytes as real, OrderStats.Max(LiveAt(r, now)), node.memAlloc);
    }
  }

  lemma {:induction false} TruncWhole(n: nat)
    ensures Trunc(n as real) == n
  {
  }

  /** A level other than none takes some reading that is not calm. */
  lemma {:induction false} LevelFrom(node: Node, st: State, now: Time)
    requires st.cfg == node.cfg
    ensures PressureAt(st, node.cpuAlloc, node.memAlloc, now).level == NoPressure <==>
            && CalmCPU(node, OrderStats.Percentile(LiveAt(st.nodeCPU, now), 90))
            && CalmStalls(node, OrderStats.Percentile(LiveAt(st.cpuPSI, now), 90),
                          OrderStats.Percentile(LiveAt(st.memPSI, now), 90))
            && CalmMemory(node, Trunc(OrderStats.Max(LiveAt(st.nodeMemory, now))))
  {
  }

  lemma {:induction false} WindowLevel(node: Node, st: State, samples: seq<NodeSample>, b: nat)
    requires Holds(node, st, samples) && node.cfg.windowSeconds >= 0
    requires OneSpike(node, samples, b) && samples != []
    ensures PressureAt(st, node.cpuAlloc, node.memAlloc, samples[|samples| - 1].timestamp).level != NoPressure <==>
            InWindow(node.cfg, samples, b)
  {
    OthersCalm(node, st, samples, b);
    MemoryPresses(node, st, samples, b);
    LevelFrom(node, st, samples[|samples| - 1].timestamp);
  }

  /** A tick reports the pressure of the windows it leaves. */
  lemma {:induction false} LastVerdict(node: Node, ticks: seq<AgentTick>)
    requires ticks != []
    ensures PressureOf(node, ticks) ==
            PressureAt(Advised(node, ticks), node.cpuAlloc, node.memAlloc, Samples(ticks)[|ticks| - 1].timestamp)
  {
  }

  lemma {:induction false} ValidTicks(node: Node, ticks: seq<AgentTick>, b: nat)
    requires OneSpike(node, Samples(ticks), b)
    ensures forall i :: 0 <= i < |ticks| ==> ticks[i].sample.valid
  {
    forall i | 0 <= i < |ticks| ensures ticks[i].sample.valid {
      assert Samples(ticks)[i].valid;
    }
  }

  /** The windows that the run's last verdict was made of. */
  lemma {:induction false} LastWindows(node: Node, ticks: seq<AgentTick>, b: nat) returns (st: State)
    requires OneSpike(node, Samples(ticks), b) && ticks != []
    ensures Holds(node, st, Samples(ticks))
    ensures PressureOf(node, ticks) ==
            PressureAt(st, node.cpuAlloc, node.memAlloc, Samples(ticks)[|ticks| - 1].timestamp)
  {
    st := Advised(node, ticks);
    LastVerdict(node, ticks);
    ValidTicks(node, ticks, b);
    WindowsOfRun(node, ticks);
  }

  /** After a single bad sample the node counts as pressed exactly while the windows hold it. */
  lemma {:induction false} SpikeLevel(node: Node, ticks: seq<AgentTick>, b: nat)
    requires OneSpike(node, Samples(ticks), b) && ticks != [] && node.cfg.windowSeconds >= 0
    ensures PressureOf(node, ticks).level != NoPressure <==> InWindow(node.cfg, Samples(ticks), b)
  {
    var st := LastWindows(node, ticks, b);
    WindowLevel(node, st, Samples(ticks), b);
  }

  // ----- what it can get evicted -----

  lemma {:induction false} PassesSnoc(node: Node, ticks: seq<AgentTick>)
    requires ticks != []
    ensures Passes(node, ticks) == Passes(node, ticks[..|ticks| - 1]) + [PassOf(node, ticks)]
  {
    var n := |ticks| - 1;
    assert ticks[..n + 1] == ticks;
    forall i | 0 <= i < n ensures Passes(node, ticks)[i] == Passes(node, ticks[..n])[i] {
      SamePass(node, ticks, i);
    }
    SnocOf(Passes(node, ticks), Passes(node, ticks[..n]), PassOf(node, ticks));
  }

  lemma {:induction false} SamePass(node: Node, ticks: seq<AgentTick>, i: nat)
    requires i < |ticks| - 1
    ensures Passes(node, ticks)[i] == Passes(node, ticks[..|ticks| - 1])[i]
  {
    assert ticks[..|ticks| - 1][..i + 1] == ticks[..i + 1];
  }

  lemma {:induction false} SnocOf<T>(s: seq<T>, front: seq<T>, last: T)
    requires |s| == |front| + 1 && s[|front|] == last && forall i :: 0 <= i < |front| ==> s[i] == front[i]
    ensures s == front + [last]
  {
  }

  /** So does every tick of the run before it. */
  lemma {:induction false} LevelAt(node: Node, ticks: seq<AgentTick>, b: nat, i: nat)
    requires OneSpike(node, Samples(ticks), b) && node.cfg.windowSeconds >= 0 && i < |ticks|
    ensures Passes(node, ticks)[i].now == ticks[i].sample.timestamp
    ensures Passes(node, ticks)[i].level != NoPressure <==> InWindow(node.cfg, Samples(ticks)[..i + 1], b)
  {
    assert Samples(ticks[..i + 1]) == Samples(ticks)[..i + 1];
    SpikeLevel(node, ticks[..i + 1], b);
  }

  /** Whatever the plugins answer, a manager that waits evicts nobody over a single bad sample
      until the wait is over, nor any more once the windows have let go of it. */
  lemma {:induction false} SpikeEvictsLate(node: Node, ticks: seq<AgentTick>, b: nat)
    requires OneSpike(node, Samples(ticks), b) && node.cfg.windowSeconds >= 0 && ticks != []
    requires node.policy.stabilisationSeconds > 0 && EvictedBy(node, ticks) != []
    ensures InWindow(node.cfg, Samples(ticks), b)
    ensures ticks[|ticks| - 1].sample.timestamp - ticks[b].sample.timestamp >= node.policy.stabilisationSeconds * SECOND
  {
    var (n, front, p) := (|ticks| - 1, Passes(node, ticks[..|ticks| - 1]), PassOf(node, ticks));
    EM.KeepsWindow(EM.NEW_STATE, front);
    EM.OnlyLawfulEvictions(EM.After(EM.NEW_STATE, front), p);
    EM.Stabilised(front, p);
    var since: Time :| EM.PressedSince(front + [p], since)
      && since + p.policy.stabilisationSeconds * SECOND <= p.now;
    PassesSnoc(node, ticks);
    var ps := Passes(node, ticks);
    forall i | 0 <= i < |ps|
      ensures ps[i].now == Samples(ticks)[i].timestamp
      ensures ps[i].level != NoPressure <==> InWindow(node.cfg, Samples(ticks)[..i + 1], b)
    {
      LevelAt(node, ticks, b, i);
    }
    PressedAfterSpike(node, Samples(ticks), ps, b, since);
  }

  /** Pressure seen without a break goes back to the bad sample at most. */
  lemma {:induction false} PressedAfterSpike(node: Node, samples: seq<NodeSample>, ps: seq<EM.Pass>, b: nat,
                                             since: Time)
    requires OneSpike(node, samples, b) && |ps| == |samples| > 0
    requires forall i :: 0 <= i < |ps| ==>
               && ps[i].now == samples[i].timestamp
               && (ps[i].level != NoPressure <==> InWindow(node.cfg, samples[..i + 1], b))
    requires EM.PressedSince(ps, since) && EM.Active(ps[|ps| - 1])
    ensures InWindow(node.cfg, samples, b) && samples[b].timestamp <= since
  {
    var n := |ps| - 1;
    var j :| 0 <= j < |ps| && EM.Active(ps[j]) && ps[j].now == since
      && forall k :: j <= k < |ps| && EM.Active(ps[k]) ==> ps[k].level != NoPressure;
    assert samples[..n + 1] == samples;
    assert ps[n].level != NoPressure && ps[j].level != NoPressure;
    HeldIsBefore(node, samples, b, j);
  }

  lemma {:induction false} HeldIsBefore(node: Node, samples: seq<NodeSample>, b: nat, j: nat)
    requires OneSpike(node, samples, b) && j < |samples| && InWindow(node.cfg, samples[..j + 1], b)
    ensures b <= j && samples[b].timestamp <= samples[j].timestamp
  {
  }
}
