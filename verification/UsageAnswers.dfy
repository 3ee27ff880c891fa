/** What the store's answers are in terms of the reports it was given. */
module UsageAnswers {
  import opened Numbers
  import opened Tiers
  import opened SampleWindow
  import opened UsageStore
  import opened UsageRuns
  import opened WindowStatistics
  import O = OrderStats

  // ----- what was reported -----

  /** A pod's usage as one report had it, and the time that report stands for. */
  datatype Sighting = Sighting(pod: PodUsage, at: Time)

  /** The workload a pod counts for: what its controller resolves to, else that controller, else
      the pod itself. */
  function WorkloadName(p: PodUsage, resolve: Resolver): string {
    if p.ownerKind == "" then p.namespace + "/Pod/" + p.name
    else
      match resolve(p.namespace, p.ownerKind, p.ownerName)
      case Some(key) => key.namespace + "/" + key.kind + "/" + key.name
      case None => p.namespace + "/" + p.ownerKind + "/" + p.ownerName
  }

  lemma {:induction false} OwnerLaw(p: PodUsage, resolve: Resolver)
    ensures KeyString(OwnerOf(p, resolve)) == WorkloadName(p, resolve)
  {
    if p.ownerKind == "" {
      assert p.namespace + "/" + "Pod" + "/" + p.name == p.namespace + "/Pod/" + p.name;
    }
  }

  function SightingsIn(name: string, pods: seq<PodUsage>, resolve: Resolver, at: Time): seq<Sighting> {
    if pods == [] then []
    else
      var n := |pods| - 1;
      SightingsIn(name, pods[..n], resolve, at)
        + if WorkloadName(pods[n], resolve) == name then [Sighting(pods[n], at)] else []
  }

  /** The pods of a workload in a report that is not degraded; a report without a time stands for
      when it came. */
  function NewSightings(name: string, e: Event): seq<Sighting> {
    if !e.Reported? || e.report.degraded then []
    else SightingsIn(name, e.report.pods, e.resolve, if e.report.timestamp == 0 then e.now else e.report.timestamp)
  }

  /** Those of all reports, in order of arrival. */
  function Sightings(name: string, es: seq<Event>): seq<Sighting> {
    if es == [] then [] else Sightings(name, es[..|es| - 1]) + NewSightings(name, es[|es| - 1])
  }

  /** The sightings not older than a time, in order. */
  function NotBefore(seen: seq<Sighting>, cutoff: int): seq<Sighting> {
    if seen == [] then []
    else
      NotBefore(seen[..|seen| - 1], cutoff)
        + if seen[|seen| - 1].at >= cutoff then [seen[|seen| - 1]] else []
  }

  function CPUUse(seen: seq<Sighting>): seq<real> {
    seq(|seen|, i requires 0 <= i < |seen| => seen[i].pod.cpuMilli)
  }

  function MemoryUse(seen: seq<Sighting>): seq<real> {
    seq(|seen|, i requires 0 <= i < |seen| => seen[i].pod.memoryBytes as real)
  }

  function UIDs(seen: seq<Sighting>): set<string> {
    set i | 0 <= i < |seen| :: seen[i].pod.uid
  }

  // ----- samples stand for sightings -----

  /** Each sample is a sighting's usage and requests, and its time. */
  ghost predicate StandsFor(s: Sample, g: Sighting) {
    && s.at == g.at && s.podUID == g.pod.uid
    && s.cpuMilli == g.pod.cpuMilli && s.memoryBytes == g.pod.memoryBytes as real
    && s.requestCPU == g.pod.requestCPUMilli as real && s.requestMem == g.pod.requestMemoryBytes as real
  }

  ghost predicate AllStandFor(samples: seq<Sample>, seen: seq<Sighting>) {
    |samples| == |seen| && forall i :: 0 <= i < |seen| ==> StandsFor(samples[i], seen[i])
  }

  lemma {:induction false} CarriedSightings(name: string, pods: seq<PodUsage>, resolve: Resolver, at: Time)
    ensures AllStandFor(Carried(name, pods, resolve, at), SightingsIn(name, pods, resolve, at))
  {
    if pods != [] {
      var n := |pods| - 1;
      CarriedSightings(name, pods[..n], resolve, at);
      OwnerLaw(pods[n], resolve);
    }
  }

  lemma {:induction false} ReceivedSightings(name: string, es: seq<Event>)
    ensures AllStandFor(Received(name, es), Sightings(name, es))
  {
    if es != [] {
      var (n, e) := (|es| - 1, es[|es| - 1]);
      ReceivedSightings(name, es[..n]);
      BroughtSightings(name, e);
      TogetherStandFor(Received(name, es[..n]), Brought(name, e), Sightings(name, es[..n]), NewSightings(name, e));
    }
  }

  lemma {:induction false} BroughtSightings(name: string, e: Event)
    ensures AllStandFor(Brought(name, e), NewSightings(name, e))
  {
    if e.Reported? && !e.report.degraded {
      CarriedSightings(name, e.report.pods, e.resolve, if e.report.timestamp == 0 then e.now else e.report.timestamp);
    }
  }

  lemma {:induction false} TogetherStandFor(a: seq<Sample>, b: seq<Sample>, c: seq<Sighting>, d: seq<Sighting>)
    requires AllStandFor(a, c) && AllStandFor(b, d)
    ensures AllStandFor(a + b, c + d)
  {
  }

  lemma {:induction false} LastStandFor(samples: seq<Sample>, seen: seq<Sighting>, n: nat)
    requires AllStandFor(samples, seen)
    ensures AllStandFor(LastN(samples, n), LastN(seen, n))
  {
  }

  lemma {:induction false} UnexpiredStandFor(samples: seq<Sample>, seen: seq<Sighting>, cutoff: int)
    requires AllStandFor(samples, seen)
    ensures AllStandFor(Unexpired(samples, cutoff), NotBefore(seen, cutoff))
  {
    if samples != [] {
      var n := |samples| - 1;
      assert StandsFor(samples[n], seen[n]);
      UnexpiredStandFor(samples[..n], seen[..n], cutoff);
    }
  }

  lemma {:induction false} ValuesAt(samples: seq<Sample>)
    ensures |CPUs(samples)| == |Memories(samples)| == |samples|
    ensures forall i :: 0 <= i < |samples| ==>
              CPUs(samples)[i] == samples[i].cpuMilli && Memories(samples)[i] == samples[i].memoryBytes
  {
    if samples != [] {
      ValuesAt(samples[..|samples| - 1]);
    }
  }

  lemma {:induction false} SameValues(samples: seq<Sample>, seen: seq<Sighting>)
    requires AllStandFor(samples, seen)
    ensures CPUs(samples) == CPUUse(seen) && Memories(samples) == MemoryUse(seen) && PodsOf(samples) == UIDs(seen)
  {
    ValuesAt(samples);
    forall i | 0 <= i < |seen| ensures StandsFor(samples[i], seen[i]) {}
    forall u ensures u in PodsOf(samples) <==> u in UIDs(seen) {
      if u in PodsOf(samples) {
        var i :| 0 <= i < |samples| && samples[i].podUID == u;
        assert seen[i].pod.uid == u;
      }
      if u in UIDs(seen) {
        var i :| 0 <= i < |seen| && seen[i].pod.uid == u;
        assert samples[i].podUID == u;
      }
    }
  }

  // ----- answers -----

  /** The answer that a list of sightings calls for. */
  function AnswerOver(seen: seq<Sighting>): Answer {
    if seen == [] then Answer(NO_STATS, NO_STATS, 0, false)
    else Answer(Summary(CPUUse(seen)), Summary(MemoryUse(seen)), |UIDs(seen)|, true)
  }

  /** What is counted of a workload stands for its last sightings that have not expired. */
  lemma {:induction false} CountedStandFor(st: State, es: seq<Event>, k: string, now: Time)
    requires st.series == map[] && st.maxPerKey > 0 && ClockRises(es) && AllUpTo(es, now)
    requires Harmless(es, k, st.maxPerKey, st.retention)
    ensures AllStandFor(LiveSamples(After(st, es), k, now - After(st, es).retention),
                        NotBefore(LastN(Sightings(k, es), st.maxPerKey), now - st.retention))
  {
    AnswersFromReceived(st, es, k, now);
    ReceivedSightings(k, es);
    LastStandFor(Received(k, es), Sightings(k, es), st.maxPerKey);
    UnexpiredStandFor(LastN(Received(k, es), st.maxPerKey), LastN(Sightings(k, es), st.maxPerKey), now - st.retention);
  }

  lemma {:induction false} SameAnswer(st: State, key: WorkloadKey, now: Time, seen: seq<Sighting>)
    requires AllStandFor(LiveSamples(st, KeyString(key), now - st.retention), seen)
    ensures WorkloadStats(st, key, now) == AnswerOver(seen)
  {
    SameValues(LiveSamples(st, KeyString(key), now - st.retention), seen);
  }

  /** An answer summarises what the pods of the workload used, in the order it was reported: of the
      last sightings, as many as the cap, those that have not expired. */
  lemma {:induction false} AnswersFromReports(st: State, es: seq<Event>, key: WorkloadKey, now: Time)
    requires st.series == map[] && st.maxPerKey > 0 && ClockRises(es) && AllUpTo(es, now)
    requires Harmless(es, KeyString(key), st.maxPerKey, st.retention)
    ensures WorkloadStats(After(st, es), key, now) ==
            AnswerOver(NotBefore(LastN(Sightings(KeyString(key), es), st.maxPerKey), now - st.retention))
  {
    CountedStandFor(st, es, KeyString(key), now);
    SameAnswer(After(st, es), key, now,
      NotBefore(LastN(Sightings(KeyString(key), es), st.maxPerKey), now - st.retention));
  }

  /** Below the cap that is everything ever reported of it, in whatever order, that has not expired. */
  lemma {:induction false} BelowCapAnswers(st: State, es: seq<Event>, key: WorkloadKey, now: Time)
    requires st.series == map[] && st.maxPerKey > 0 && ClockRises(es) && AllUpTo(es, now)
    requires |Sightings(KeyString(key), es)| <= st.maxPerKey
    ensures WorkloadStats(After(st, es), key, now) ==
            AnswerOver(NotBefore(Sightings(KeyString(key), es), now - st.retention))
  {
    ReceivedSightings(KeyString(key), es);
    AnswersFromReports(st, es, key, now);
  }

  /** A store as it is built keeps ten minutes unless told a positive time, and 4096 sightings. */
  lemma {:induction false} NewStore(retention: int)
    ensures var st := New(retention);
            && st.series == map[] && st.nodeSeen == map[] && st.maxPerKey == 4096
            && st.retention == if retention > 0 then retention else 600_000_000_000
  {
  }

  lemma {:induction false} HeldWithoutCollections(st: State, es: seq<Event>, k: string)
    requires st.series == map[] && st.maxPerKey > 0
    requires forall i :: 0 <= i < |es| ==> !es[i].Collection?
    ensures SamplesOf(After(st, es), k) == LastN(Received(k, es), st.maxPerKey)
  {
    RunOfSeries(st, es, k);
    NothingErased(es);
    SeriesHoldsLast(k, st.maxPerKey, st.retention, es);
  }

  lemma {:induction false} LastOfLast<T>(s: seq<T>, n: nat)
    requires s != [] && n > 0
    ensures LastN(s, n) != [] && LastN(s, n)[|LastN(s, n)| - 1] == s[|s| - 1]
  {
  }

  /** Without collections the requests reported are those of the last sighting. */
  lemma {:induction false} RequestsFromReports(st: State, es: seq<Event>, key: WorkloadKey)
    requires st.series == map[] && st.maxPerKey > 0
    requires forall i :: 0 <= i < |es| ==> !es[i].Collection?
    ensures var seen := Sightings(KeyString(key), es);
            WorkloadRequests(After(st, es), key) ==
            if seen == [] then None
            else
              var p := seen[|seen| - 1].pod;
              Some((p.requestCPUMilli, p.requestMemoryBytes))
  {
    HeldWithoutCollections(st, es, KeyString(key));
    ReceivedSightings(KeyString(key), es);
    LastRequests(After(st, es), key, Received(KeyString(key), es), Sightings(KeyString(key), es), st.maxPerKey);
  }

  lemma {:induction false} LastRequests(st: State, key: WorkloadKey, held: seq<Sample>, seen: seq<Sighting>, cap: nat)
    requires AllStandFor(held, seen) && cap > 0 && SamplesOf(st, KeyString(key)) == LastN(held, cap)
    ensures WorkloadRequests(st, key) ==
            if seen == [] then None
            else
              var p := seen[|seen| - 1].pod;
              Some((p.requestCPUMilli, p.requestMemoryBytes))
  {
    if seen != [] {
      var p := seen[|seen| - 1].pod;
      assert StandsFor(held[|held| - 1], seen[|seen| - 1]);
      LastOfLast(held, cap);
      WholeTrunc(p.requestCPUMilli);
      WholeTrunc(p.requestMemoryBytes);
    }
  }

  lemma {:induction false} WholeTrunc(n: int)
    ensures Trunc(n as real) == n
  {
  }

  lemma {:induction false} NothingErased(es: seq<Event>)
    requires forall i :: 0 <= i < |es| ==> !es[i].Collection?
    ensures Erased(es) == es
  {
    if es != [] {
      NothingErased(es[..|es| - 1]);
      assert es == es[..|es| - 1] + [es[|es| - 1]];
    }
  }

  // ----- one report -----

  const SEEN := PodUsage("u", "ns", "p", "", "", 100.0, 1 * MIB, 500, 1024 * MIB)

  /** A pod that uses 100m and a mebibyte, and asks for five times and a thousand times as much. */
  lemma {:induction false} OneSighting(retention: int, now: Time)
    requires now > 0
    ensures var es := [Reported(Report("node", now, [SEEN], false), (_, _, _) => None, now)];
            var (st, key) := (After(New(retention), es), WorkloadKey("ns", "Pod", "p"));
            var a := WorkloadStats(st, key, now);
            && a.ok && a.pods == 1 && a.cpu.samples == 1 && a.cpu.p50 == 100.0 && a.memory.p50 == (1 * MIB) as real
            && WorkloadRequests(st, key) == Some((500, 1024 * MIB))
  {
    var e := Reported(Report("node", now, [SEEN], false), (_, _, _) => None, now);
    var (es, key) := ([e], WorkloadKey("ns", "Pod", "p"));
    var k := KeyString(key);
    OneSeen(e, k, now);
    BelowCapAnswers(New(retention), es, key, now);
    RequestsFromReports(New(retention), es, key);
    OneSummary([Sighting(SEEN, now)], SEEN);
    OneNotBefore(Sighting(SEEN, now), now - New(retention).retention);
  }

  lemma {:induction false} OneSeen(e: Event, k: string, now: Time)
    requires e.Reported? && e.report == Report("node", now, [SEEN], false) && now > 0
    requires k == "ns" + "/" + "Pod" + "/" + "p"
    ensures Sightings(k, [e]) == [Sighting(SEEN, now)]
  {
    assert [SEEN][..0] == [] && [e][..0] == [];
    assert "ns" + "/" + "Pod" + "/" + "p" == "ns" + "/Pod/" + "p";
    assert SightingsIn(k, [SEEN], e.resolve, now) == [] + [Sighting(SEEN, now)];
    assert Sightings(k, [e]) == [] + NewSightings(k, e);
  }

  lemma {:induction false} OneNotBefore(g: Sighting, cutoff: int)
    requires g.at >= cutoff
    ensures NotBefore([g], cutoff) == [g]
  {
    assert [g][..0] == [] && NotBefore([g], cutoff) == [] + [g];
  }

  lemma {:induction false} OneSummary(seen: seq<Sighting>, p: PodUsage)
    requires |seen| == 1 && seen[0].pod == p
    ensures var a := AnswerOver(seen);
            && a.ok && a.pods == 1 && a.cpu.samples == 1 && a.cpu.p50 == p.cpuMilli
            && a.memory.p50 == p.memoryBytes as real
  {
    assert UIDs(seen) == {p.uid};
    assert CPUUse(seen) == [p.cpuMilli] && MemoryUse(seen) == [p.memoryBytes as real];
    SummaryAgrees(CPUUse(seen));
    SummaryAgrees(MemoryUse(seen));
    O.PercentileWithin([p.cpuMilli], 50, p.cpuMilli, p.cpuMilli);
    O.PercentileWithin([p.memoryBytes as real], 50, p.memoryBytes as real, p.memoryBytes as real);
  }

  // ----- what a collection keeps -----

  /** A series is kept exactly if some sample of it has not expired, or it was fed within twice the
      retention; and a node exactly if it reported within twice the retention. */
  lemma {:induction false} CollectKeeps(st: State, now: Time, k: string, node: string)
    ensures k in GC(st, now).series <==>
            && k in st.series
            && (|| (exists s :: s in st.series[k].samples && s.at >= now - st.retention)
                || now - st.series[k].last <= 2 * st.retention)
    ensures node in GC(st, now).nodeSeen <==>
            node in st.nodeSeen && now - st.nodeSeen[node] <= 2 * st.retention
  {
    if k in st.series {
      var (samples, cutoff) := (st.series[k].samples, Cutoff(now, st.retention));
      if s :| s in samples && s.at >= now - st.retention {
        UnexpiredMembers(samples, cutoff, s);
      }
      if Unexpired(samples, cutoff) != [] {
        var s := Unexpired(samples, cutoff)[0];
        UnexpiredMembers(samples, cutoff, s);
      }
    }
  }
}
