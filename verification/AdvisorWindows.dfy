/** What the advisor's six windows remember of the samples it was shown. */
module AdvisorWindows {
  import opened Numbers
  import opened SampleWindow
  import opened AdvisorModel
  import OrderStats

  // ----- the readings a sample contributes -----

  type Reading = NodeSample -> real

  function ProtectedCPUReading(s: NodeSample): real { ProtectedCPU(s.pods) }

  function ProtectedMemoryReading(s: NodeSample): real { ProtectedMemory(s.pods) as real }

  function NodeCPUReading(s: NodeSample): real { s.cpuMilli }

  function NodeMemoryReading(s: NodeSample): real { s.memoryBytes as real }

  function CPUStallReading(s: NodeSample): real { s.cpuSomeAvg10 }

  function MemoryStallReading(s: NodeSample): real { s.memoryFullAvg10 }

  /** The samples that were usable, in order. */
  function ValidSamples(es: seq<Event>): seq<NodeSample> {
    if es == [] then []
    else
      var e := es[|es| - 1];
      ValidSamples(es[..|es| - 1]) + if e.Sample? && e.sample.valid then [e.sample] else []
  }

  function Readings(samples: seq<NodeSample>, f: Reading): seq<Obs> {
    seq(|samples|, i requires 0 <= i < |samples| => Obs(f(samples[i]), samples[i].timestamp))
  }

  /** The ring holds one reading of each of the last samples, as many as it has room for. */
  ghost predicate Remembers(r: Ring, cfg: Config, samples: seq<NodeSample>, f: Reading) {
    && r.capacity == RingCapacity(cfg) && r.horizon == cfg.windowSeconds * SECOND
    && r.obs == LastN(Readings(samples, f), r.capacity)
  }

  ghost predicate AllRemember(st: State, cfg: Config, samples: seq<NodeSample>) {
    && Remembers(st.protectedCPU, cfg, samples, ProtectedCPUReading)
    && Remembers(st.protectedMemory, cfg, samples, ProtectedMemoryReading)
    && Remembers(st.nodeCPU, cfg, samples, NodeCPUReading)
    && Remembers(st.nodeMemory, cfg, samples, NodeMemoryReading)
    && Remembers(st.cpuPSI, cfg, samples, CPUStallReading)
    && Remembers(st.memPSI, cfg, samples, MemoryStallReading)
  }

  // ----- over a run -----

  predicate SameGeometry(a: Config, b: Config) {
    a.windowSeconds == b.windowSeconds && a.intervalSeconds == b.intervalSeconds
  }

  ghost predicate KeepsGeometry(cfg: Config, es: seq<Event>) {
    forall i :: 0 <= i < |es| && es[i].SetConfig? ==> SameGeometry(es[i].cfg, cfg)
  }

  lemma RememberOne(r: Ring, cfg: Config, samples: seq<NodeSample>, f: Reading, s: NodeSample)
    requires Remembers(r, cfg, samples, f)
    ensures Remembers(PushObs(r, Obs(f(s), s.timestamp)), cfg, samples + [s], f)
  {
    assert Readings(samples + [s], f) == Readings(samples, f) + [Obs(f(s), s.timestamp)];
    LastNAgain(Readings(samples, f), Obs(f(s), s.timestamp), r.capacity);
  }

  lemma ObserveRemembers(st: State, cfg: Config, samples: seq<NodeSample>, s: NodeSample)
    requires AllRemember(st, cfg, samples) && s.valid
    ensures AllRemember(Observe(st, s), cfg, samples + [s])
  {
    RememberOne(st.protectedCPU, cfg, samples, ProtectedCPUReading, s);
    RememberOne(st.protectedMemory, cfg, samples, ProtectedMemoryReading, s);
    RememberOne(st.nodeCPU, cfg, samples, NodeCPUReading, s);
    RememberOne(st.nodeMemory, cfg, samples, NodeMemoryReading, s);
    RememberOne(st.cpuPSI, cfg, samples, CPUStallReading, s);
    RememberOne(st.memPSI, cfg, samples, MemoryStallReading, s);
  }

  /** A new advisor, and one whose geometry has just changed, remember nothing. */
  lemma FreshWindows(st: State, cfg: Config)
    ensures AllRemember(New(cfg), cfg, [])
    ensures !SameGeometry(cfg, st.cfg) ==> AllRemember(Configure(st, cfg), cfg, [])
  {
  }

  /** From then on, through any samples, ticks and configurations of the same geometry, each
      window holds its own reading of exactly the last usable samples, in order. */
  lemma {:induction false} WindowsRemember(st: State, es: seq<Event>)
    requires AllRemember(st, st.cfg, []) && KeepsGeometry(st.cfg, es)
    ensures AllRemember(Run(st, es), st.cfg, ValidSamples(es)) && SameGeometry(Run(st, es).cfg, st.cfg)
  {
    if es != [] {
      var (n, e) := (|es| - 1, es[|es| - 1]);
      WindowsRemember(st, es[..n]);
      if e.Sample? && e.sample.valid {
        ObserveRemembers(Run(st, es[..n]), st.cfg, ValidSamples(es[..n]), e.sample);
      } else {
        assert ValidSamples(es[..n]) + [] == ValidSamples(es[..n]);
      }
    }
  }

  // ----- what it means for memory -----

  /** Protected memory is judged by its peak: no usable sample still in the window, and recent
      enough, ever shows more than the advisor assumes. */
  lemma MemoryPeakRemembered(st: State, es: seq<Event>, now: Time, i: nat)
    requires AllRemember(st, st.cfg, []) && KeepsGeometry(st.cfg, es)
    requires var samples := ValidSamples(es);
             i < |samples| && i >= |samples| - RingCapacity(st.cfg)
             && samples[i].timestamp >= now - st.cfg.windowSeconds * SECOND
    ensures ProtectedMemory(ValidSamples(es)[i].pods) <= ProtectedMemoryAt(Run(st, es), now)
  {
    WindowsRemember(st, es);
    var (samples, r) := (ValidSamples(es), Run(st, es).protectedMemory);
    PeakAtLeast(r, st.cfg, samples, now, i);
  }

  lemma PeakAtLeast(r: Ring, cfg: Config, samples: seq<NodeSample>, now: Time, i: nat)
    requires Remembers(r, cfg, samples, ProtectedMemoryReading)
    requires i < |samples| && i >= |samples| - r.capacity && samples[i].timestamp >= now - r.horizon
    ensures ProtectedMemory(samples[i].pods) <= Trunc(OrderStats.Max(LiveAt(r, now)))
  {
    var v := ProtectedMemoryReading(samples[i]);
    var j := i - (|samples| - |r.obs|);
    assert r.obs[j] == Readings(samples, ProtectedMemoryReading)[i] == Obs(v, samples[i].timestamp);
    LiveMembers(r.obs, now - r.horizon, v);
    OrderStats.MaxIsGreatest(LiveAt(r, now));
    TruncMonotone(v, OrderStats.Max(LiveAt(r, now)));
  }
}
