/** The controller's bounded store of usage samples, its statistics and its garbage collection. */
module UsageStore {
  import opened Numbers
  import opened Tiers
  import opened SampleWindow
  import OrderStats

  datatype WorkloadKey = WorkloadKey(namespace: string, kind: string, name: string)

  function KeyString(k: WorkloadKey): string {
    k.namespace + "/" + k.kind + "/" + k.name
  }

  datatype PodUsage = PodUsage(
    uid: string,
    namespace: string,
    name: string,
    ownerKind: string,
    ownerName: string,
    cpuMilli: real,
    memoryBytes: nat,
    requestCPUMilli: int,
    requestMemoryBytes: int)

  datatype Report = Report(node: string, timestamp: Time, pods: seq<PodUsage>, degraded: bool)

  datatype Sample = Sample(at: Time, cpuMilli: real, memoryBytes: real, requestCPU: real, requestMem: real,
    podUID: string)

  datatype Series = Series(key: WorkloadKey, samples: seq<Sample>, pods: map<string, Time>, last: Time)

  /** Maps a pod's immediate controller to the workload a human would name, where it can. */
  type Resolver = (string, string, string) -> Option<WorkloadKey>

  datatype State = State(retention: int, maxPerKey: nat, series: map<string, Series>, nodeSeen: map<string, Time>)

  function New(retention: int): State {
    State(if retention <= 0 then 10 * MINUTE else retention, 4096, map[], map[])
  }

  // ----- ingestion -----

  function OwnerOf(p: PodUsage, resolve: Resolver): WorkloadKey {
    var resolved := if p.ownerKind != "" then resolve(p.namespace, p.ownerKind, p.ownerName) else None;
    if resolved.Some? then resolved.value
    else if p.ownerKind != "" then WorkloadKey(p.namespace, p.ownerKind, p.ownerName)
    else WorkloadKey(p.namespace, "Pod", p.name)
  }

  function SampleOf(p: PodUsage, at: Time): Sample {
    Sample(at, p.cpuMilli, p.memoryBytes as real, p.requestCPUMilli as real, p.requestMemoryBytes as real, p.uid)
  }

  function Appended(ser: Series, s: Sample, now: Time, maxPerKey: nat): Series {
    Series(ser.key, LastN(ser.samples + [s], maxPerKey), ser.pods[s.podUID := s.at], now)
  }

  function IngestPod(st: State, p: PodUsage, resolve: Resolver, at: Time, now: Time): State {
    var key := OwnerOf(p, resolve);
    var k := KeyString(key);
    var ser := if k in st.series then st.series[k] else Series(key, [], map[], 0);
    st.(series := st.series[k := Appended(ser, SampleOf(p, at), now, st.maxPerKey)])
  }

  function IngestPods(st: State, pods: seq<PodUsage>, resolve: Resolver, at: Time, now: Time): State {
    if pods == [] then st
    else IngestPod(IngestPods(st, pods[..|pods| - 1], resolve, at, now), pods[|pods| - 1], resolve, at, now)
  }

  /** The time a report's samples are stamped with. */
  function StampOf(r: Report, now: Time): Time {
    if r.timestamp == 0 then now else r.timestamp
  }

  function Ingest(st: State, r: Report, resolve: Resolver, now: Time): State {
    if r.degraded then st
    else IngestPods(st.(nodeSeen := st.nodeSeen[r.node := now]), r.pods, resolve, StampOf(r, now), now)
  }

  // ----- statistics -----

  datatype Stats = Stats(samples: nat, p50: real, p90: real, p95: real, p99: real, max: real, mean: real)

  const NO_STATS := Stats(0, 0.0, 0.0, 0.0, 0.0, 0.0, 0.0)

  function Summary(vals: seq<real>): Stats {
    var sorted := OrderStats.Sort(vals);
    OrderStats.SortSorts(vals);
    if |vals| == 0 then NO_STATS
    else
      Stats(|sorted|, OrderStats.NearestRank(sorted, 50), OrderStats.NearestRank(sorted, 90),
            OrderStats.NearestRank(sorted, 95), OrderStats.NearestRank(sorted, 99),
            sorted[|sorted| - 1], OrderStats.Sum(sorted) / |sorted| as real)
  }

  method Summarise(vals: seq<real>) returns (s: Stats)
    ensures s == Summary(vals)
  {
    if |vals| == 0 {
      return NO_STATS;
    }
    OrderStats.SortSorts(vals);
    var sorted := OrderStats.Sort(vals);
    var sum := 0.0;
    for i := 0 to |sorted|
      invariant sum == OrderStats.Sum(sorted[..i])
    {
      assert sorted[..i + 1][..i] == sorted[..i];
      sum := sum + sorted[i];
    }
    assert sorted[..|sorted|] == sorted;
    s := Stats(|sorted|, OrderStats.NearestRank(sorted, 50), OrderStats.NearestRank(sorted, 90),
               OrderStats.NearestRank(sorted, 95), OrderStats.NearestRank(sorted, 99),
               sorted[|sorted| - 1], sum / |sorted| as real);
  }

  /** Samples stamped before this are expired. */
  function Cutoff(now: Time, retention: int): int {
    now - retention
  }

  /** The samples not older than the cutoff, in order. */
  function Unexpired(samples: seq<Sample>, cutoff: int): seq<Sample> {
    if samples == [] then []
    else
      var s := samples[|samples| - 1];
      Unexpired(samples[..|samples| - 1], cutoff) + if s.at < cutoff then [] else [s]
  }

  function CPUs(samples: seq<Sample>): seq<real> {
    if samples == [] then [] else CPUs(samples[..|samples| - 1]) + [samples[|samples| - 1].cpuMilli]
  }

  function Memories(samples: seq<Sample>): seq<real> {
    if samples == [] then [] else Memories(samples[..|samples| - 1]) + [samples[|samples| - 1].memoryBytes]
  }

  function PodsOf(samples: seq<Sample>): set<string> {
    set i | 0 <= i < |samples| :: samples[i].podUID
  }

  datatype Answer = Answer(cpu: Stats, memory: Stats, pods: nat, ok: bool)

  const NO_ANSWER := Answer(NO_STATS, NO_STATS, 0, false)

  function AnswerFrom(live: seq<Sample>): Answer {
    if live == [] then NO_ANSWER else Answer(Summary(CPUs(live)), Summary(Memories(live)), |PodsOf(live)|, true)
  }

  /** What the store holds for a workload; nothing when it has no series. */
  function SamplesOf(st: State, k: string): seq<Sample> {
    if k in st.series then st.series[k].samples else []
  }

  /** The samples of one workload that are still counted. */
  function LiveSamples(st: State, k: string, cutoff: int): seq<Sample> {
    Unexpired(SamplesOf(st, k), cutoff)
  }

  function WorkloadStats(st: State, key: WorkloadKey, now: Time): Answer {
    AnswerFrom(LiveSamples(st, KeyString(key), Cutoff(now, st.retention)))
  }

  /** What the newest sample held of a workload says its pod requests, in millicores and bytes. */
  function WorkloadRequests(st: State, key: WorkloadKey): Option<(int, int)> {
    var samples := SamplesOf(st, KeyString(key));
    if samples == [] then None
    else
      var s := samples[|samples| - 1];
      Some((Trunc(s.requestCPU), Trunc(s.requestMem)))
  }

  // ----- garbage collection -----

  function Collected(ser: Series, cutoff: int): Series {
    ser.(samples := Unexpired(ser.samples, cutoff))
  }

  predicate Abandoned(ser: Series, retention: int, now: Time) {
    Unexpired(ser.samples, Cutoff(now, retention)) == [] && now - ser.last > 2 * retention
  }

  function GC(st: State, now: Time): State {
    st.(series := map k | k in st.series && !Abandoned(st.series[k], st.retention, now) ::
      Collected(st.series[k], Cutoff(now, st.retention)),
        nodeSeen := map n | n in st.nodeSeen && now - st.nodeSeen[n] <= 2 * st.retention :: st.nodeSeen[n])
  }

  /** Every series collected except those still to do. */
  function PartlyCollected(series: map<string, Series>, todo: set<string>, retention: int,
                           now: Time): map<string, Series> {
    map k | k in series && (k in todo || !Abandoned(series[k], retention, now)) ::
      if k in todo then series[k] else Collected(series[k], Cutoff(now, retention))
  }

  // ----- the store itself -----

  class Store {
    const retention: int
    const maxPerKey: nat
    var series: map<string, Series>
    var nodeSeen: map<string, Time>

    ghost function Value(): State
      reads this
    {
      State(retention, maxPerKey, series, nodeSeen)
    }

    constructor (retention: int)
      ensures Value() == New(retention)
    {
      this.retention := if retention <= 0 then 10 * MINUTE else retention;
      maxPerKey := 4096;
      series, nodeSeen := map[], map[];
    }

    /** Folds one agent report into the store. */
    method IngestReport(r: Report, resolve: Resolver, now: Time) returns (accepted: nat)
      modifies this
      ensures Value() == Ingest(old(Value()), r, resolve, now)
      ensures accepted == if r.degraded then 0 else |r.pods|
    {
      if r.degraded {
        return 0;
      }
      var at := r.timestamp;
      if at == 0 {
        at := now;
      }
      nodeSeen := nodeSeen[r.node := now];
      accepted := IngestAll(r.pods, resolve, at, now);
    }

    method IngestAll(pods: seq<PodUsage>, resolve: Resolver, at: Time, now: Time) returns (accepted: nat)
      modifies this`series
      ensures Value() == IngestPods(old(Value()), pods, resolve, at, now)
      ensures accepted == |pods|
    {
      accepted := 0;
      ghost var start := Value();
      for i := 0 to |pods|
        invariant Value() == IngestPods(start, pods[..i], resolve, at, now)
        invariant accepted == i
      {
        assert pods[..i + 1][..i] == pods[..i];
        IngestOne(pods[i], resolve, at, now);
        accepted := accepted + 1;
      }
      assert pods[..|pods|] == pods;
    }

    /** One turn of the ingestion loop: appends a sample and enforces the cap. */
    method IngestOne(p: PodUsage, resolve: Resolver, at: Time, now: Time)
      modifies this`series
      ensures Value() == IngestPod(old(Value()), p, resolve, at, now)
    {
      var key := OwnerOf(p, resolve);
      var k := KeyString(key);
      var ser := if k in series then series[k] else Series(key, [], map[], 0);
      var samples := ser.samples + [SampleOf(p, at)];
      if |samples| > maxPerKey {
        samples := samples[|samples| - maxPerKey..];
      }
      series := series[k := Series(ser.key, samples, ser.pods[p.uid := at], now)];
    }

    /** The distributions over one workload's unexpired samples. */
    method Query(key: WorkloadKey, now: Time) returns (a: Answer)
      ensures a == WorkloadStats(Value(), key, now)
    {
      var k := KeyString(key);
      if k !in series {
        return NO_ANSWER;
      }
      var cutoff := Cutoff(now, retention);
      var cpuVals, memVals, livePods := LiveOf(series[k].samples, cutoff);
      if |cpuVals| == 0 {
        return NO_ANSWER;
      }
      var cpu := Summarise(cpuVals);
      var memory := Summarise(memVals);
      a := Answer(cpu, memory, |livePods|, true);
    }

    /** The most recently reported requests of a workload's pods, expired or not. */
    method QueryRequests(key: WorkloadKey) returns (r: Option<(int, int)>)
      ensures r == WorkloadRequests(Value(), key)
    {
      var k := KeyString(key);
      if k !in series || |series[k].samples| == 0 {
        return None;
      }
      var last := series[k].samples[|series[k].samples| - 1];
      r := Some((Trunc(last.requestCPU), Trunc(last.requestMem)));
    }

    /** The loop over a series that skips what has expired. */
    static method LiveOf(samples: seq<Sample>, cutoff: int)
      returns (cpuVals: seq<real>, memVals: seq<real>, livePods: set<string>)
      ensures var live := Unexpired(samples, cutoff);
              cpuVals == CPUs(live) && memVals == Memories(live) && livePods == PodsOf(live) && |cpuVals| == |live|
    {
      cpuVals, memVals, livePods := [], [], {};
      ghost var live: seq<Sample> := [];
      for i := 0 to |samples|
        invariant live == Unexpired(samples[..i], cutoff)
        invariant cpuVals == CPUs(live) && memVals == Memories(live) && livePods == PodsOf(live)
        invariant |cpuVals| == |live|
      {
        assert samples[..i + 1][..i] == samples[..i];
        var s := samples[i];
        if s.at < cutoff {
          continue;
        }
        PodsSnoc(live, s);
        assert (live + [s])[..|live|] == live;
        cpuVals := cpuVals + [s.cpuMilli];
        memVals := memVals + [s.memoryBytes];
        livePods := livePods + {s.podUID};
        live := live + [s];
      }
      assert samples[..|samples|] == samples;
    }

    /** Drops expired samples, and workloads and nodes nobody has reported on. */
    method Collect(now: Time)
      modifies this
      ensures Value() == GC(old(Value()), now)
    {
      ghost var was := series;
      var todo := series.Keys;
      while todo != {}
        invariant todo <= was.Keys
        invariant series == PartlyCollected(was, todo, retention, now)
        invariant nodeSeen == old(nodeSeen)
        decreases |todo|
      {
        assert (exists k :: k in todo) || todo == {};
        var k :| k in todo;
        CollectOne(k, now);
        todo := todo - {k};
      }
      ForgetNodes(now);
    }

    /** One turn of the collection loop. */
    method CollectOne(k: string, now: Time)
      requires k in series
      modifies this`series
      ensures series == if Abandoned(old(series)[k], retention, now) then old(series) - {k}
                        else old(series)[k := Collected(old(series)[k], Cutoff(now, retention))]
    {
      var ser := series[k];
      var kept := Compact(ser.samples, Cutoff(now, retention));
      if |kept| == 0 && now - ser.last > 2 * retention {
        series := series - {k};
      } else {
        series := series[k := ser.(samples := kept)];
      }
    }

    method ForgetNodes(now: Time)
      modifies this`nodeSeen
      ensures nodeSeen == map n | n in old(nodeSeen) && now - old(nodeSeen)[n] <= 2 * retention :: old(nodeSeen)[n]
    {
      ghost var was := nodeSeen;
      var todo := nodeSeen.Keys;
      while todo != {}
        invariant todo <= was.Keys
        invariant nodeSeen == map n | n in was && (n in todo || now - was[n] <= 2 * retention) :: was[n]
        decreases |todo|
      {
        assert (exists n :: n in todo) || todo == {};
        var n :| n in todo;
        if now - nodeSeen[n] > 2 * retention {
          nodeSeen := nodeSeen - {n};
        }
        todo := todo - {n};
      }
    }
  }

  lemma PodsSnoc(live: seq<Sample>, s: Sample)
    ensures PodsOf(live + [s]) == PodsOf(live) + {s.podUID}
  {
    assert (live + [s])[|live|] == s;
    assert forall i :: 0 <= i < |live| ==> (live + [s])[i] == live[i];
  }

  lemma UnexpiredNext(samples: seq<Sample>, i: nat, cutoff: int)
    requires i < |samples|
    ensures Unexpired(samples[..i + 1], cutoff) ==
            Unexpired(samples[..i], cutoff) + if samples[i].at < cutoff then [] else [samples[i]]
  {
    assert samples[..i + 1][..i] == samples[..i];
  }

  /** Compacts a sample buffer over itself: exactly the unexpired samples, in order. */
  method CompactInPlace(a: array<Sample>, cutoff: int) returns (kept: nat)
    modifies a
    ensures kept <= a.Length
    ensures a[..kept] == Unexpired(old(a[..]), cutoff)
  {
    ghost var was := a[..];
    kept := 0;
    for i := 0 to a.Length
      invariant kept <= i
      invariant a[..kept] == Unexpired(was[..i], cutoff)
      invariant forall k :: i <= k < a.Length ==> a[k] == was[k]
    {
      UnexpiredNext(was, i, cutoff);
      if !(a[i].at < cutoff) {
        ghost var front := a[..kept];
        a[kept] := a[i];
        kept := kept + 1;
        assert a[..kept] == front + [was[i]];
      }
    }
    assert was[..a.Length] == was;
  }

  method Compact(samples: seq<Sample>, cutoff: int) returns (kept: seq<Sample>)
    ensures kept == Unexpired(samples, cutoff)
  {
    var a := new Sample[|samples|](i requires 0 <= i < |samples| => samples[i]);
    assert a[..] == samples;
    var n := CompactInPlace(a, cutoff);
    kept := a[..n];
  }
}
