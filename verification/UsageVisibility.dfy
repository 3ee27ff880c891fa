/** Exactly when collecting garbage can be noticed: by some later report, at some later question. */
module UsageVisibility {
  import opened Numbers
  import opened Tiers
  import opened SampleWindow
  import opened UsageStore
  import opened UsageRuns
  import OrderStats

  // ----- what may follow a collection -----

  /** Events at or after a time, in order, up to the moment of a question. */
  ghost predicate Follows(es: seq<Event>, t: Time, now: Time) {
    ClockRises(es) && AllUpTo(es, now) && t <= now && forall i :: 0 <= i < |es| ==> t <= es[i].now
  }

  /** The collection changed the answer to this question after these events. */
  ghost predicate Tells(st: State, t: Time, key: WorkloadKey, es: seq<Event>, now: Time) {
    && Follows(es, t, now)
    && WorkloadStats(After(GC(st, t), es), key, now) != WorkloadStats(After(st, es), key, now)
  }

  /** Something that may follow shows whether the store was collected. */
  ghost predicate Visible(st: State, t: Time, key: WorkloadKey) {
    exists es, now :: Tells(st, t, key, es, now)
  }

  // ----- a tidy collection is never noticed -----

  lemma {:induction false} TrailsOn(a: seq<Sample>, b: seq<Sample>, cutoff: int, k: string, cap: nat, retention: int,
                                    es: seq<Event>)
    requires Trails(a, b, cutoff)
    requires forall i :: 0 <= i < |es| ==> cutoff <= Cutoff(es[i].now, retention)
    ensures Trails(SeriesRun(a, k, cap, retention, es), SeriesRun(b, k, cap, retention, es), cutoff)
  {
    if es != [] {
      var (n, e) := (|es| - 1, es[|es| - 1]);
      TrailsOn(a, b, cutoff, k, cap, retention, es[..n]);
      var (a', b') := (SeriesRun(a, k, cap, retention, es[..n]), SeriesRun(b, k, cap, retention, es[..n]));
      if e.Collection? {
        TrailsAgree(a', b', cutoff, Cutoff(e.now, retention));
      } else if e.Reported? && !e.report.degraded {
        FedKeepsTrailing(a', b', cutoff, k, cap, e.report.pods, e.resolve, StampOf(e.report, e.now));
      }
    }
  }

  lemma TidyTrails(samples: seq<Sample>, cutoff: int)
    requires !StaleAfterFresh(samples, cutoff)
    ensures Trails(samples, Unexpired(samples, cutoff), cutoff)
  {
    var n := UnexpiredSuffix(samples, cutoff);
  }

  /** A collection that finds no stale sample behind a fresh one is never noticed. */
  lemma TidyUnnoticed(st: State, t: Time, key: WorkloadKey, es: seq<Event>, now: Time)
    requires Follows(es, t, now) && !StaleAfterFresh(SamplesOf(st, KeyString(key)), Cutoff(t, st.retention))
    ensures WorkloadStats(After(GC(st, t), es), key, now) == WorkloadStats(After(st, es), key, now)
  {
    var (k, cutoff) := (KeyString(key), Cutoff(t, st.retention));
    CollectedSamples(st, t, k);
    RunOfSeries(st, es, k);
    RunOfSeries(GC(st, t), es, k);
    TidyTrails(SamplesOf(st, k), cutoff);
    var (a, b) := (SamplesOf(st, k), Unexpired(SamplesOf(st, k), cutoff));
    TrailsOn(a, b, cutoff, k, st.maxPerKey, st.retention, es);
    TrailsAgree(SeriesRun(a, k, st.maxPerKey, st.retention, es), SeriesRun(b, k, st.maxPerKey, st.retention, es),
                cutoff, Cutoff(now, st.retention));
    SameLive(After(st, es), After(GC(st, t), es), key, now);
  }

  // ----- an untidy one can be -----

  function Repeat(s: Sample, n: nat): seq<Sample> {
    seq(n, _ => s)
  }

  lemma RepeatFresh(s: Sample, n: nat, cutoff: int)
    ensures s.at >= cutoff ==> Unexpired(Repeat(s, n), cutoff) == Repeat(s, n)
    ensures s.at < cutoff ==> Unexpired(Repeat(s, n), cutoff) == []
  {
    UnexpiredEnds(Repeat(s, n), cutoff);
  }

  lemma SomeLive(samples: seq<Sample>, cutoff: int, i: nat)
    requires i < |samples| && samples[i].at >= cutoff
    ensures |Unexpired(samples, cutoff)| >= 1
  {
    UnexpiredMembers(samples, cutoff, samples[i]);
  }

  lemma SomeStale(samples: seq<Sample>, cutoff: int, j: nat)
    requires j < |samples| && samples[j].at < cutoff
    ensures |Unexpired(samples, cutoff)| < |samples|
  {
    var (before, after) := (samples[..j], samples[j + 1..]);
    assert samples == before + ([samples[j]] + after);
    UnexpiredAppend(before, [samples[j]] + after, cutoff);
    UnexpiredAppend([samples[j]], after, cutoff);
    UnexpiredEnds([samples[j]], cutoff);
    UnexpiredShorter(before, cutoff);
    UnexpiredShorter(after, cutoff);
  }

  /** How many fresh samples it takes to push a fresh one out of an uncollected buffer. */
  function Enough(samples: seq<Sample>, i: nat, cap: nat): (m: nat)
    requires i < |samples| <= cap
    ensures m >= 1
  {
    cap - |samples| + i + 1
  }

  /** After that many the uncollected buffer has lost a fresh sample the collected one still has. */
  lemma PushedOut(samples: seq<Sample>, cutoff: int, i: nat, j: nat, cap: nat, s: Sample)
    requires i < j < |samples| <= cap && samples[i].at >= cutoff && samples[j].at < cutoff && s.at >= cutoff
    ensures var more := Repeat(s, Enough(samples, i, cap));
            |Unexpired(LastN(samples + more, cap), cutoff)| <
            |Unexpired(LastN(Unexpired(samples, cutoff) + more, cap), cutoff)|
  {
    var more := Repeat(s, Enough(samples, i, cap));
    var (head, tail, kept) := (samples[..i + 1], samples[i + 1..], Unexpired(samples, cutoff));
    assert samples == head + tail;
    UnexpiredAppend(head, tail, cutoff);
    SomeLive(head, cutoff, i);
    SomeStale(tail, cutoff, j - i - 1);
    RepeatFresh(s, |more|, cutoff);
    UncollectedLoses(samples, more, i, cap);
    UnexpiredAppend(tail, more, cutoff);
    AllLive(samples, cutoff, more, cap);
  }

  lemma UncollectedLoses(samples: seq<Sample>, more: seq<Sample>, i: nat, cap: nat)
    requires i < |samples| <= cap && |more| == Enough(samples, i, cap)
    ensures LastN(samples + more, cap) == samples[i + 1..] + more
  {
  }

  lemma AllLive(samples: seq<Sample>, cutoff: int, more: seq<Sample>, cap: nat)
    requires Unexpired(more, cutoff) == more
    ensures var kept := Unexpired(samples, cutoff) + more;
            Unexpired(LastN(kept, cap), cutoff) == LastN(kept, cap)
  {
    UnexpiredTwice(samples, cutoff, cutoff);
    UnexpiredAppend(Unexpired(samples, cutoff), more, cutoff);
    LastLive(Unexpired(samples, cutoff) + more, cutoff, cap);
  }

  lemma LastLive(samples: seq<Sample>, cutoff: int, cap: nat)
    requires Unexpired(samples, cutoff) == samples
    ensures Unexpired(LastN(samples, cap), cutoff) == LastN(samples, cap)
  {
    UnexpiredIsAllFrom(samples, cutoff);
    UnexpiredEnds(LastN(samples, cap), cutoff);
  }

  lemma UnexpiredIsAllFrom(samples: seq<Sample>, cutoff: int)
    requires Unexpired(samples, cutoff) == samples
    ensures AllFrom(samples, cutoff)
  {
    forall i | 0 <= i < |samples| ensures samples[i].at >= cutoff {
      UnexpiredMembers(samples, cutoff, samples[i]);
    }
  }

  // ----- the report that tells -----

  /** Maps every controller to one workload. */
  function AlwaysOwner(key: WorkloadKey): Resolver {
    (_, _, _) => Some(key)
  }

  const REPLICA := PodUsage("u", "ns", "p", "ReplicaSet", "r", 1.0, 1, 1, 1)

  /** One report of n replicas of a workload, stamped with a time (or with its arrival, if zero). */
  function Replicas(key: WorkloadKey, n: nat, stamp: Time, now: Time): Event {
    Reported(Report("node", stamp, seq(n, _ => REPLICA), false), AlwaysOwner(key), now)
  }

  function ReplicaSample(at: Time): Sample {
    Sample(at, 1.0, 1.0, 1.0, 1.0, "u")
  }

  lemma {:induction false} ReplicasCarry(key: WorkloadKey, pods: seq<PodUsage>, at: Time)
    requires forall i :: 0 <= i < |pods| ==> pods[i] == REPLICA
    ensures Carried(KeyString(key), pods, AlwaysOwner(key), at) == Repeat(ReplicaSample(at), |pods|)
  {
    if pods != [] {
      var n := |pods| - 1;
      ReplicasCarry(key, pods[..n], at);
      assert OwnerOf(pods[n], AlwaysOwner(key)) == key;
      assert SampleOf(pods[n], at) == ReplicaSample(at);
      assert Repeat(ReplicaSample(at), n) + [ReplicaSample(at)] == Repeat(ReplicaSample(at), n + 1);
    }
  }

  /** Such a report appends its samples to the workload's series, under the cap. */
  lemma ReplicasAppend(st: State, key: WorkloadKey, n: nat, stamp: Time, now: Time)
    requires st.maxPerKey > 0 && |SamplesOf(st, KeyString(key))| <= st.maxPerKey
    ensures var (e, at) := (Replicas(key, n, stamp, now), if stamp == 0 then now else stamp);
            var st' := Step(st, e);
            && SamplesOf(st', KeyString(key)) ==
               LastN(SamplesOf(st, KeyString(key)) + Repeat(ReplicaSample(at), n), st.maxPerKey)
            && st'.maxPerKey == st.maxPerKey && st'.retention == st.retention
  {
    var e := Replicas(key, n, stamp, now);
    StepOfSeries(st, e, KeyString(key));
    StepAppends(SamplesOf(st, KeyString(key)), KeyString(key), st.maxPerKey, st.retention, e);
    ReplicasCarry(key, e.report.pods, StampOf(e.report, now));
  }

  lemma LiveCount(st: State, key: WorkloadKey, now: Time)
    ensures WorkloadStats(st, key, now).cpu.samples == |LiveSamples(st, KeyString(key), Cutoff(now, st.retention))|
  {
    var live := LiveSamples(st, KeyString(key), Cutoff(now, st.retention));
    CPUsLength(live);
    OrderStats.SortSorts(CPUs(live));
  }

  lemma {:induction false} CPUsLength(samples: seq<Sample>)
    ensures |CPUs(samples)| == |samples|
  {
    if samples != [] {
      CPUsLength(samples[..|samples| - 1]);
    }
  }

  lemma AfterOne(st: State, e: Event)
    ensures After(st, [e]) == Step(st, e)
  {
    assert [e][..0] == [];
  }

  /** What is counted right after a report of replicas. */
  lemma CountAfter(st: State, key: WorkloadKey, m: nat, t: Time)
    requires st.maxPerKey > 0 && |SamplesOf(st, KeyString(key))| <= st.maxPerKey
    ensures WorkloadStats(After(st, [Replicas(key, m, 0, t)]), key, t).cpu.samples ==
            |Unexpired(LastN(SamplesOf(st, KeyString(key)) + Repeat(ReplicaSample(t), m), st.maxPerKey),
                       Cutoff(t, st.retention))|
  {
    var e := Replicas(key, m, 0, t);
    ReplicasAppend(st, key, m, 0, t);
    LiveCount(Step(st, e), key, t);
    AfterOne(st, e);
  }

  /** An untidy collection is noticed after one report of enough replicas. */
  lemma UntidyNoticed(st: State, t: Time, key: WorkloadKey, i: nat, j: nat)
    requires st.maxPerKey > 0 && st.retention >= 0 && i < j < |SamplesOf(st, KeyString(key))| <= st.maxPerKey
    requires SamplesOf(st, KeyString(key))[i].at >= Cutoff(t, st.retention) > SamplesOf(st, KeyString(key))[j].at
    ensures Visible(st, t, key)
  {
    var (k, cutoff) := (KeyString(key), Cutoff(t, st.retention));
    var (samples, m) := (SamplesOf(st, k), Enough(SamplesOf(st, k), i, st.maxPerKey));
    CollectedSamples(st, t, k);
    UnexpiredShorter(samples, cutoff);
    CountAfter(st, key, m, t);
    CountAfter(GC(st, t), key, m, t);
    PushedOut(samples, cutoff, i, j, st.maxPerKey, ReplicaSample(t));
    var e := Replicas(key, m, 0, t);
    assert Tells(st, t, key, [e], t);
  }

  /** A collection can be noticed exactly when it finds an expired sample of the workload behind
      one that has not expired. */
  lemma CollectionVisible(st: State, t: Time, key: WorkloadKey)
    requires st.maxPerKey > 0 && st.retention >= 0 && |SamplesOf(st, KeyString(key))| <= st.maxPerKey
    ensures Visible(st, t, key) <==> StaleAfterFresh(SamplesOf(st, KeyString(key)), Cutoff(t, st.retention))
  {
    var (samples, cutoff) := (SamplesOf(st, KeyString(key)), Cutoff(t, st.retention));
    if StaleAfterFresh(samples, cutoff) {
      var i, j :| 0 <= i < j < |samples| && samples[i].at >= cutoff && samples[j].at < cutoff;
      UntidyNoticed(st, t, key, i, j);
    } else {
      forall es, now | Follows(es, t, now)
        ensures WorkloadStats(After(GC(st, t), es), key, now) == WorkloadStats(After(st, es), key, now)
      {
        TidyUnnoticed(st, t, key, es, now);
      }
    }
  }

  // ----- a run of the store as it is built -----

  /** A store as it is built, one fresh sample, and as many stale ones as fill the series. */
  function LateStore(retention: int, key: WorkloadKey, now: Time): State
    requires now > New(retention).retention + 1
  {
    var st := New(retention);
    Step(Step(st, Replicas(key, 1, now, now)), Replicas(key, st.maxPerKey - 1, now - st.retention - 1, now))
  }

  lemma LateSamples(retention: int, key: WorkloadKey, now: Time)
    requires now > New(retention).retention + 1
    ensures var (st, k) := (LateStore(retention, key, now), KeyString(key));
            && st.maxPerKey == 4096 && st.retention == New(retention).retention
            && SamplesOf(st, k) == [ReplicaSample(now)] + Repeat(ReplicaSample(now - st.retention - 1), 4095)
  {
    var (st, k) := (New(retention), KeyString(key));
    ReplicasAppend(st, key, 1, now, now);
    assert Repeat(ReplicaSample(now), 1) == [ReplicaSample(now)];
    ReplicasAppend(Step(st, Replicas(key, 1, now, now)), key, 4095, now - st.retention - 1, now);
  }

  /** With stale samples behind a fresh one, a collection changes what the next fresh sample does:
      it fills a freed place, where otherwise it pushes the first one out. */
  lemma LateArrivalsTell(retention: int, key: WorkloadKey, now: Time)
    requires now > New(retention).retention + 1
    ensures var (st, e) := (LateStore(retention, key, now), Replicas(key, 1, now, now));
            && WorkloadStats(Step(st, e), key, now).cpu.samples == 1
            && WorkloadStats(Step(Step(st, Collection(now)), e), key, now).cpu.samples == 2
  {
    var (st, e, k) := (LateStore(retention, key, now), Replicas(key, 1, now, now), KeyString(key));
    LateSamples(retention, key, now);
    var (young, stale) := (ReplicaSample(now), ReplicaSample(now - st.retention - 1));
    CollectedSamples(st, now, k);
    OneKept(young, stale, Cutoff(now, st.retention));
    ReplicasAppend(st, key, 1, now, now);
    ReplicasAppend(GC(st, now), key, 1, now, now);
    LiveCount(Step(st, e), key, now);
    LiveCount(Step(GC(st, now), e), key, now);
  }

  lemma OneKept(young: Sample, stale: Sample, cutoff: int)
    requires young.at >= cutoff > stale.at
    ensures var (samples, more) := ([young] + Repeat(stale, 4095), Repeat(young, 1));
            && Unexpired(samples, cutoff) == [young]
            && |Unexpired(LastN(samples + more, 4096), cutoff)| == 1
            && |Unexpired(LastN([young] + more, 4096), cutoff)| == 2
  {
    var (stales, more) := (Repeat(stale, 4095), Repeat(young, 1));
    RepeatFresh(stale, 4095, cutoff);
    RepeatFresh(young, 1, cutoff);
    UnexpiredEnds([young], cutoff);
    UnexpiredAppend([young], stales, cutoff);
    UnexpiredAppend([young], more, cutoff);
    UnexpiredAppend(stales, more, cutoff);
    DropFirst(young, stales, more);
  }

  lemma DropFirst(first: Sample, rest: seq<Sample>, more: seq<Sample>)
    ensures |more| == 1 ==> LastN([first] + rest + more, |rest| + 1) == rest + more
  {
    assert ([first] + rest + more)[1..] == rest + more;
  }
}
