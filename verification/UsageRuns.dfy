/** Garbage collection of the usage store is invisible to its statistics, and the statistics mean what they say. */
module UsageRuns {
  import opened Numbers
  import opened SampleWindow
  import opened UsageStore
  import OrderStats

  // ----- filtering by age -----

  lemma {:induction false} UnexpiredTwice(samples: seq<Sample>, early: int, late: int)
    requires early <= late
    ensures Unexpired(Unexpired(samples, early), late) == Unexpired(samples, late)
  {
    if samples != [] {
      var n := |samples| - 1;
      UnexpiredTwice(samples[..n], early, late);
      var kept := Unexpired(samples[..n], early);
      assert (kept + [samples[n]])[..|kept|] == kept;
      assert kept + [] == kept;
    }
  }

  lemma {:induction false} UnexpiredAppend(a: seq<Sample>, b: seq<Sample>, cutoff: int)
    ensures Unexpired(a + b, cutoff) == Unexpired(a, cutoff) + Unexpired(b, cutoff)
  {
    if b == [] {
      assert a + b == a;
    } else {
      var n := |b| - 1;
      UnexpiredAppend(a, b[..n], cutoff);
      assert (a + b)[..|a + b| - 1] == a + b[..n];
    }
  }

  ghost predicate AllBefore(samples: seq<Sample>, cutoff: int) {
    forall i :: 0 <= i < |samples| ==> samples[i].at < cutoff
  }

  ghost predicate AllFrom(samples: seq<Sample>, cutoff: int) {
    forall i :: 0 <= i < |samples| ==> samples[i].at >= cutoff
  }

  lemma {:induction false} UnexpiredEnds(samples: seq<Sample>, cutoff: int)
    ensures AllBefore(samples, cutoff) ==> Unexpired(samples, cutoff) == []
    ensures AllFrom(samples, cutoff) ==> Unexpired(samples, cutoff) == samples
  {
    if samples != [] {
      var n := |samples| - 1;
      UnexpiredEnds(samples[..n], cutoff);
      assert samples == samples[..n] + [samples[n]];
    }
  }

  /** The samples kept are exactly those not older than the cutoff. */
  lemma {:induction false} UnexpiredMembers(samples: seq<Sample>, cutoff: int, s: Sample)
    ensures s in Unexpired(samples, cutoff) <==> s in samples && s.at >= cutoff
  {
    if samples != [] {
      UnexpiredMembers(samples[..|samples| - 1], cutoff, s);
      assert samples == samples[..|samples| - 1] + [samples[|samples| - 1]];
    }
  }

  // ----- one collection -----

  lemma CollectedSamples(st: State, now: Time, k: string)
    ensures SamplesOf(GC(st, now), k) == Unexpired(SamplesOf(st, k), Cutoff(now, st.retention))
    ensures GC(st, now).retention == st.retention && GC(st, now).maxPerKey == st.maxPerKey
  {
    var after := GC(st, now).series;
    if k in st.series {
      assert k in after <==> !Abandoned(st.series[k], st.retention, now);
    }
  }

  lemma SameLive(a: State, b: State, key: WorkloadKey, now: Time)
    requires a.retention == b.retention
    requires LiveSamples(a, KeyString(key), Cutoff(now, a.retention)) ==
             LiveSamples(b, KeyString(key), Cutoff(now, a.retention))
    ensures WorkloadStats(a, key, now) == WorkloadStats(b, key, now)
  {
  }

  /** A collection changes no answer at its own time or later, whatever the store holds. */
  lemma GCInvisible(st: State, at: Time, key: WorkloadKey, now: Time)
    requires at <= now
    ensures WorkloadStats(GC(st, at), key, now) == WorkloadStats(st, key, now)
  {
    CollectedSamples(st, at, KeyString(key));
    UnexpiredTwice(SamplesOf(st, KeyString(key)), Cutoff(at, st.retention), Cutoff(now, st.retention));
    SameLive(st, GC(st, at), key, now);
  }

  // ----- whole runs -----

  datatype Event =
    | Reported(report: Report, resolve: Resolver, now: Time)
    | Collection(now: Time)
    | Asked(key: WorkloadKey, now: Time)

  function Step(st: State, e: Event): State {
    match e
    case Reported(r, resolve, now) => Ingest(st, r, resolve, now)
    case Collection(now) => GC(st, now)
    case Asked(_, _) => st
  }

  function After(st: State, es: seq<Event>): State {
    if es == [] then st else Step(After(st, es[..|es| - 1]), es[|es| - 1])
  }

  /** The answers a run gives, in order. */
  function Answers(st: State, es: seq<Event>): seq<Answer> {
    if es == [] then []
    else
      var n := |es| - 1;
      Answers(st, es[..n]) + if es[n].Asked? then [WorkloadStats(After(st, es[..n]), es[n].key, es[n].now)] else []
  }

  /** The same run without its collections. */
  function Erased(es: seq<Event>): seq<Event> {
    if es == [] then []
    else Erased(es[..|es| - 1]) + if es[|es| - 1].Collection? then [] else [es[|es| - 1]]
  }

  ghost predicate ClockRises(es: seq<Event>) {
    forall i, j :: 0 <= i < j < |es| ==> es[i].now <= es[j].now
  }

  // ----- how a collected store lags behind an uncollected one -----

  /** Some expired sample stands behind one that has not expired. */
  ghost predicate StaleAfterFresh(samples: seq<Sample>, cutoff: int) {
    exists i, j :: 0 <= i < j < |samples| && samples[i].at >= cutoff && samples[j].at < cutoff
  }

  /** b is what is left of a when some of its oldest samples, all from before the cutoff, are gone. */
  ghost predicate Trails(a: seq<Sample>, b: seq<Sample>, cutoff: int) {
    && |b| <= |a| && b == a[|a| - |b|..]
    && AllBefore(a[..|a| - |b|], cutoff)
  }

  lemma TrailsAgree(a: seq<Sample>, b: seq<Sample>, cutoff: int, later: int)
    requires Trails(a, b, cutoff) && cutoff <= later
    ensures Unexpired(a, later) == Unexpired(b, later)
  {
    var gone := a[..|a| - |b|];
    assert a == gone + b;
    UnexpiredAppend(gone, b, later);
    UnexpiredEnds(gone, later);
  }

  /** Unless a stale sample follows a fresh one, the expired samples are a prefix. */
  lemma UnexpiredSuffix(samples: seq<Sample>, cutoff: int) returns (n: nat)
    requires !StaleAfterFresh(samples, cutoff)
    ensures n <= |samples| && Unexpired(samples, cutoff) == samples[n..] && AllBefore(samples[..n], cutoff)
  {
    n := FirstFrom(samples, cutoff);
    assert samples == samples[..n] + samples[n..];
    UnexpiredAppend(samples[..n], samples[n..], cutoff);
    UnexpiredEnds(samples[..n], cutoff);
    UnexpiredEnds(samples[n..], cutoff);
  }

  lemma FirstFrom(samples: seq<Sample>, cutoff: int) returns (n: nat)
    requires !StaleAfterFresh(samples, cutoff)
    ensures n <= |samples| && AllBefore(samples[..n], cutoff) && AllFrom(samples[n..], cutoff)
  {
    n := 0;
    while n < |samples| && samples[n].at < cutoff
      invariant n <= |samples| && AllBefore(samples[..n], cutoff)
    {
      n := n + 1;
    }
    forall i | 0 <= i < |samples| - n ensures samples[n..][i].at >= cutoff {
      assert samples[n + i].at >= cutoff || i == 0;
    }
  }

  /** Collecting b makes it trail further behind. */
  lemma TrailsCollected(a: seq<Sample>, b: seq<Sample>, cutoff: int, later: int)
    requires Trails(a, b, cutoff) && cutoff <= later && !StaleAfterFresh(b, later)
    ensures Trails(a, Unexpired(b, later), later)
  {
    var gone := |a| - |b|;
    var n := UnexpiredSuffix(b, later);
    assert b[n..] == a[gone + n..];
    var dropped := a[..gone + n];
    assert dropped == a[..gone] + b[..n];
  }

  /** Appending to both, with the cap on each, keeps the one trailing the other. */
  lemma TrailsAppended(a: seq<Sample>, b: seq<Sample>, cutoff: int, s: Sample, cap: nat)
    requires Trails(a, b, cutoff)
    ensures Trails(LastN(a + [s], cap), LastN(b + [s], cap), cutoff)
  {
    var a', b' := LastN(a + [s], cap), LastN(b + [s], cap);
    var gone, dropped := |a'| - |b'|, |a| + 1 - |a'|;
    assert a' == (a + [s])[dropped..];
    assert b' == a'[gone..];
    forall i | 0 <= i < gone ensures a'[..gone][i].at < cutoff {
      assert a'[i] == a[..|a| - |b|][dropped + i];
    }
  }

  // ----- each series evolves on its own -----

  /** A series after the pods of one report. */
  function Fed(samples: seq<Sample>, k: string, cap: nat, pods: seq<PodUsage>, resolve: Resolver,
               at: Time): seq<Sample> {
    if pods == [] then samples
    else
      var (n, front) := (|pods| - 1, Fed(samples, k, cap, pods[..|pods| - 1], resolve, at));
      if k == KeyString(OwnerOf(pods[n], resolve)) then LastN(front + [SampleOf(pods[n], at)], cap) else front
  }

  function SeriesStep(samples: seq<Sample>, k: string, cap: nat, retention: int, e: Event): seq<Sample> {
    match e
    case Reported(r, resolve, now) =>
      if r.degraded then samples else Fed(samples, k, cap, r.pods, resolve, StampOf(r, now))
    case Collection(now) => Unexpired(samples, Cutoff(now, retention))
    case Asked(_, _) => samples
  }

  /** A series after a run of events. */
  function SeriesRun(start: seq<Sample>, k: string, cap: nat, retention: int, es: seq<Event>): seq<Sample> {
    if es == [] then start
    else SeriesStep(SeriesRun(start, k, cap, retention, es[..|es| - 1]), k, cap, retention, es[|es| - 1])
  }

  lemma IngestedSamples(st: State, p: PodUsage, resolve: Resolver, at: Time, now: Time, k: string)
    ensures SamplesOf(IngestPod(st, p, resolve, at, now), k) ==
            if k == KeyString(OwnerOf(p, resolve)) then LastN(SamplesOf(st, k) + [SampleOf(p, at)], st.maxPerKey)
              else SamplesOf(st, k)
  {
  }

  lemma {:induction false} PodsFeed(st: State, pods: seq<PodUsage>, resolve: Resolver, at: Time, now: Time, k: string)
    ensures var st' := IngestPods(st, pods, resolve, at, now);
            && SamplesOf(st', k) == Fed(SamplesOf(st, k), k, st.maxPerKey, pods, resolve, at)
            && st'.maxPerKey == st.maxPerKey && st'.retention == st.retention
  {
    if pods != [] {
      var n := |pods| - 1;
      PodsFeed(st, pods[..n], resolve, at, now, k);
      IngestedSamples(IngestPods(st, pods[..n], resolve, at, now), pods[n], resolve, at, now, k);
    }
  }

  lemma ReportFeeds(st: State, r: Report, resolve: Resolver, now: Time, k: string)
    requires !r.degraded
    ensures var st' := Ingest(st, r, resolve, now);
            && SamplesOf(st', k) == Fed(SamplesOf(st, k), k, st.maxPerKey, r.pods, resolve, StampOf(r, now))
            && st'.maxPerKey == st.maxPerKey && st'.retention == st.retention
  {
    PodsFeed(st.(nodeSeen := st.nodeSeen[r.node := now]), r.pods, resolve, StampOf(r, now), now, k);
  }

  lemma StepOfSeries(st: State, e: Event, k: string)
    ensures var st' := Step(st, e);
            && SamplesOf(st', k) == SeriesStep(SamplesOf(st, k), k, st.maxPerKey, st.retention, e)
            && st'.maxPerKey == st.maxPerKey && st'.retention == st.retention
  {
    if e.Collection? {
      CollectedSamples(st, e.now, k);
    } else if e.Reported? && !e.report.degraded {
      ReportFeeds(st, e.report, e.resolve, e.now, k);
    }
  }

  /** What happens to one series never depends on the others. */
  lemma {:induction false} RunOfSeries(st: State, es: seq<Event>, k: string)
    ensures var st' := After(st, es);
            && SamplesOf(st', k) == SeriesRun(SamplesOf(st, k), k, st.maxPerKey, st.retention, es)
            && st'.maxPerKey == st.maxPerKey && st'.retention == st.retention
  {
    if es != [] {
      RunOfSeries(st, es[..|es| - 1], k);
      StepOfSeries(After(st, es[..|es| - 1]), es[|es| - 1], k);
    }
  }

  // ----- a collected series keeps lagging -----

  lemma {:induction false} FedKeepsTrailing(a: seq<Sample>, b: seq<Sample>, cutoff: int,
                                            k: string, cap: nat, pods: seq<PodUsage>, resolve: Resolver, at: Time)
    requires Trails(a, b, cutoff)
    ensures Trails(Fed(a, k, cap, pods, resolve, at), Fed(b, k, cap, pods, resolve, at), cutoff)
  {
    if pods != [] {
      var n := |pods| - 1;
      FedKeepsTrailing(a, b, cutoff, k, cap, pods[..n], resolve, at);
      TrailsAppended(Fed(a, k, cap, pods[..n], resolve, at), Fed(b, k, cap, pods[..n], resolve, at), cutoff,
                     SampleOf(pods[n], at), cap);
    }
  }

  /** How old a sample must be to have possibly been collected. */
  function Horizon(es: seq<Event>, retention: int): int {
    if es == [] then -retention
    else if es[|es| - 1].Collection? then Cutoff(es[|es| - 1].now, retention)
    else Horizon(es[..|es| - 1], retention)
  }

  ghost predicate AllUpTo(es: seq<Event>, now: Time) {
    forall i :: 0 <= i < |es| ==> es[i].now <= now
  }

  lemma {:induction false} HorizonBound(es: seq<Event>, retention: int, now: Time)
    requires AllUpTo(es, now)
    ensures Horizon(es, retention) <= Cutoff(now, retention)
  {
    if es != [] {
      HorizonBound(es[..|es| - 1], retention, now);
    }
  }

  /** Whenever a collection runs, no stale sample of the series stands behind a fresh one. */
  ghost predicate Tidy(es: seq<Event>, k: string, cap: nat, retention: int) {
    es == [] ||
    var (front, e) := (es[..|es| - 1], es[|es| - 1]);
    && Tidy(front, k, cap, retention)
    && (e.Collection? ==> !StaleAfterFresh(SeriesRun([], k, cap, retention, front), Cutoff(e.now, retention)))
  }

  lemma PrefixRises(es: seq<Event>)
    requires es != [] && ClockRises(es)
    ensures ClockRises(es[..|es| - 1]) && AllUpTo(es[..|es| - 1], es[|es| - 1].now)
  {
  }

  lemma ErasedSnoc(k: string, cap: nat, retention: int, es: seq<Event>)
    requires es != []
    ensures var (n, e) := (|es| - 1, es[|es| - 1]);
            SeriesRun([], k, cap, retention, Erased(es)) ==
            if e.Collection? then SeriesRun([], k, cap, retention, Erased(es[..n]))
            else SeriesStep(SeriesRun([], k, cap, retention, Erased(es[..n])), k, cap, retention, e)
  {
    var front := Erased(es[..|es| - 1]);
    if es[|es| - 1].Collection? {
      assert front + [] == front;
    } else {
      assert (front + [es[|es| - 1]])[..|front|] == front;
    }
  }

  /** A tidily collected series lags behind the uncollected one. */
  lemma {:induction false} RunKeepsTrailing(k: string, cap: nat, retention: int, es: seq<Event>)
    requires ClockRises(es) && Tidy(es, k, cap, retention)
    ensures Trails(SeriesRun([], k, cap, retention, Erased(es)), SeriesRun([], k, cap, retention, es),
            Horizon(es, retention))
  {
    if es != [] {
      var (n, e) := (|es| - 1, es[|es| - 1]);
      PrefixRises(es);
      RunKeepsTrailing(k, cap, retention, es[..n]);
      ErasedSnoc(k, cap, retention, es);
      HorizonBound(es[..n], retention, e.now);
      StepKeepsTrailing(SeriesRun([], k, cap, retention, Erased(es[..n])), SeriesRun([], k, cap, retention, es[..n]),
                        Horizon(es[..n], retention), k, cap, retention, e);
    }
  }

  lemma StepKeepsTrailing(a: seq<Sample>, b: seq<Sample>, cutoff: int, k: string, cap: nat, retention: int, e: Event)
    requires Trails(a, b, cutoff) && cutoff <= Cutoff(e.now, retention)
    requires e.Collection? ==> !StaleAfterFresh(b, Cutoff(e.now, retention))
    ensures Trails(if e.Collection? then a else SeriesStep(a, k, cap, retention, e),
            SeriesStep(b, k, cap, retention, e),
                   if e.Collection? then Cutoff(e.now, retention) else cutoff)
  {
    if e.Collection? {
      TrailsCollected(a, b, cutoff, Cutoff(e.now, retention));
    } else if e.Reported? && !e.report.degraded {
      FedKeepsTrailing(a, b, cutoff, k, cap, e.report.pods, e.resolve, StampOf(e.report, e.now));
    }
  }

  // ----- what a series received -----

  /** The samples one report carries for a series, in order. */
  function Carried(k: string, pods: seq<PodUsage>, resolve: Resolver, at: Time): seq<Sample> {
    if pods == [] then []
    else
      var n := |pods| - 1;
      Carried(k, pods[..n], resolve, at)
        + if k == KeyString(OwnerOf(pods[n], resolve)) then [SampleOf(pods[n], at)] else []
  }

  function Brought(k: string, e: Event): seq<Sample> {
    if e.Reported? && !e.report.degraded then Carried(k, e.report.pods, e.resolve, StampOf(e.report, e.now)) else []
  }

  /** Every sample ever accepted for a series, in order of arrival. */
  function Received(k: string, es: seq<Event>): seq<Sample> {
    if es == [] then [] else Received(k, es[..|es| - 1]) + Brought(k, es[|es| - 1])
  }

  lemma {:induction false} FedKeepsLast(all: seq<Sample>, k: string, cap: nat, pods: seq<PodUsage>,
                                        resolve: Resolver, at: Time)
    requires cap > 0
    ensures Fed(LastN(all, cap), k, cap, pods, resolve, at) == LastN(all + Carried(k, pods, resolve, at), cap)
  {
    if pods == [] {
      assert all + [] == all;
    } else {
      var n := |pods| - 1;
      FedKeepsLast(all, k, cap, pods[..n], resolve, at);
      var before := all + Carried(k, pods[..n], resolve, at);
      if k == KeyString(OwnerOf(pods[n], resolve)) {
        LastNAgain(before, SampleOf(pods[n], at), cap);
        assert before + [SampleOf(pods[n], at)] == all + Carried(k, pods, resolve, at);
      } else {
        assert Carried(k, pods, resolve, at) == Carried(k, pods[..n], resolve, at);
      }
    }
  }

  /** One event that is not a collection appends what it brings, under the cap. */
  lemma StepAppends(samples: seq<Sample>, k: string, cap: nat, retention: int, e: Event)
    requires cap > 0 && |samples| <= cap && !e.Collection?
    ensures SeriesStep(samples, k, cap, retention, e) == LastN(samples + Brought(k, e), cap)
  {
    if e.Reported? && !e.report.degraded {
      FedKeepsLast(samples, k, cap, e.report.pods, e.resolve, StampOf(e.report, e.now));
    } else {
      assert samples + [] == samples;
    }
  }

  /** Without collections a series holds exactly the last samples it received, up to the cap. */
  lemma {:induction false} SeriesHoldsLast(k: string, cap: nat, retention: int, es: seq<Event>)
    requires cap > 0
    ensures SeriesRun([], k, cap, retention, Erased(es)) == LastN(Received(k, es), cap)
  {
    if es != [] {
      var (n, e) := (|es| - 1, es[|es| - 1]);
      SeriesHoldsLast(k, cap, retention, es[..n]);
      ErasedSnoc(k, cap, retention, es);
      if e.Collection? {
        assert Received(k, es[..n]) + [] == Received(k, es[..n]);
      } else {
        StepAppends(LastN(Received(k, es[..n]), cap), k, cap, retention, e);
        LastNMore(Received(k, es[..n]), Brought(k, e), cap);
      }
    }
  }

  lemma LastNMore<T>(s: seq<T>, more: seq<T>, n: nat)
    ensures LastN(LastN(s, n) + more, n) == LastN(s + more, n)
  {
  }

  // ----- below the cap the order of arrival does not matter -----

  /** While a series has received no more samples than the cap, what is counted of it is what is
      counted of everything it ever received, in whatever order that arrived. */
  lemma {:induction false} BelowCapCounts(k: string, cap: nat, retention: int, es: seq<Event>, later: int)
    requires cap > 0 && |Received(k, es)| <= cap && Horizons(es, retention, later)
    ensures var samples := SeriesRun([], k, cap, retention, es);
            |samples| <= |Received(k, es)| && Unexpired(samples, later) == Unexpired(Received(k, es), later)
  {
    if es != [] {
      var (n, e) := (|es| - 1, es[|es| - 1]);
      BelowCapCounts(k, cap, retention, es[..n], later);
      var (before, all) := (SeriesRun([], k, cap, retention, es[..n]), Received(k, es[..n]));
      if e.Collection? {
        assert all + [] == all;
        UnexpiredTwice(before, Cutoff(e.now, retention), later);
        UnexpiredShorter(before, Cutoff(e.now, retention));
      } else {
        StepAppends(before, k, cap, retention, e);
        UnexpiredAppend(before, Brought(k, e), later);
        UnexpiredAppend(all, Brought(k, e), later);
      }
    }
  }

  /** Every collection's cutoff lies at or before this one. */
  ghost predicate Horizons(es: seq<Event>, retention: int, later: int) {
    forall i :: 0 <= i < |es| && es[i].Collection? ==> Cutoff(es[i].now, retention) <= later
  }

  lemma {:induction false} UnexpiredShorter(samples: seq<Sample>, cutoff: int)
    ensures |Unexpired(samples, cutoff)| <= |samples|
  {
    if samples != [] {
      UnexpiredShorter(samples[..|samples| - 1], cutoff);
    }
  }

  // ----- whole runs are not changed by their collections -----

  /** The series was never untidy when collected, or never outgrew the cap. */
  ghost predicate Harmless(es: seq<Event>, k: string, cap: nat, retention: int) {
    Tidy(es, k, cap, retention) || |Received(k, es)| <= cap
  }

  lemma PrefixHarmless(es: seq<Event>, k: string, cap: nat, retention: int)
    requires es != [] && Harmless(es, k, cap, retention)
    ensures Harmless(es[..|es| - 1], k, cap, retention)
  {
  }

  lemma SameCounted(k: string, cap: nat, retention: int, es: seq<Event>, now: Time)
    requires cap > 0 && ClockRises(es) && AllUpTo(es, now) && Harmless(es, k, cap, retention)
    ensures Unexpired(SeriesRun([], k, cap, retention, es), Cutoff(now, retention))
            == Unexpired(LastN(Received(k, es), cap), Cutoff(now, retention))
  {
    SeriesHoldsLast(k, cap, retention, es);
    if Tidy(es, k, cap, retention) {
      RunKeepsTrailing(k, cap, retention, es);
      HorizonBound(es, retention, now);
      TrailsAgree(SeriesRun([], k, cap, retention, Erased(es)), SeriesRun([], k, cap, retention, es),
                  Horizon(es, retention), Cutoff(now, retention));
    } else {
      BelowCapCounts(k, cap, retention, es, Cutoff(now, retention));
    }
  }

  /** With collections anywhere in the run, the samples an answer is computed from are still
      exactly those of the last `maxPerKey` received that have not expired. */
  lemma AnswersFromReceived(st: State, es: seq<Event>, k: string, now: Time)
    requires st.series == map[] && st.maxPerKey > 0 && ClockRises(es) && AllUpTo(es, now)
    requires Harmless(es, k, st.maxPerKey, st.retention)
    ensures After(st, es).retention == st.retention
    ensures LiveSamples(After(st, es), k, Cutoff(now, st.retention))
            == Unexpired(LastN(Received(k, es), st.maxPerKey), Cutoff(now, st.retention))
  {
    RunOfSeries(st, es, k);
    SameCounted(k, st.maxPerKey, st.retention, es, now);
  }

  lemma SameSeries(st: State, es: seq<Event>, k: string, now: Time)
    requires st.series == map[] && st.maxPerKey > 0 && ClockRises(es) && AllUpTo(es, now)
    requires Harmless(es, k, st.maxPerKey, st.retention)
    ensures var (a, b) := (After(st, Erased(es)), After(st, es));
            a.retention == b.retention
            && LiveSamples(a, k, Cutoff(now, a.retention)) == LiveSamples(b, k, Cutoff(now, a.retention))
  {
    AnswersFromReceived(st, es, k, now);
    RunOfSeries(st, Erased(es), k);
    SeriesHoldsLast(k, st.maxPerKey, st.retention, es);
  }

  /** One question gets the same answer with and without the collections before it. */
  lemma SameAnswer(st: State, es: seq<Event>, key: WorkloadKey, now: Time)
    requires st.series == map[] && st.maxPerKey > 0 && ClockRises(es) && AllUpTo(es, now)
    requires Harmless(es, KeyString(key), st.maxPerKey, st.retention)
    ensures WorkloadStats(After(st, Erased(es)), key, now) == WorkloadStats(After(st, es), key, now)
  {
    SameSeries(st, es, KeyString(key), now);
    SameLive(After(st, Erased(es)), After(st, es), key, now);
  }

  /** Erasing every collection from a run changes none of its answers, when clocks rise and each
      series is tidy at every collection or has received no more samples than the cap. */
  lemma {:induction false} CollectionsInvisible(st: State, es: seq<Event>)
    requires st.series == map[] && st.maxPerKey > 0 && ClockRises(es)
    requires forall k :: Harmless(es, k, st.maxPerKey, st.retention)
    ensures Answers(st, Erased(es)) == Answers(st, es)
  {
    if es != [] {
      var n := |es| - 1;
      PrefixRises(es);
      forall k ensures Harmless(es[..n], k, st.maxPerKey, st.retention) {
        PrefixHarmless(es, k, st.maxPerKey, st.retention);
      }
      CollectionsInvisible(st, es[..n]);
      var front := Erased(es[..n]);
      if es[n].Asked? {
        SameAnswer(st, es[..n], es[n].key, es[n].now);
      }
      AnswersSnoc(st, front, es[n]);
      AnswersSnoc(st, es[..n], es[n]);
      assert es[..n] + [es[n]] == es;
      assert front + [] == front;
    }
  }

  lemma AnswersSnoc(st: State, es: seq<Event>, e: Event)
    ensures Answers(st, es + [e]) ==
            Answers(st, es) + if e.Asked? then [WorkloadStats(After(st, es), e.key, e.now)] else []
  {
    assert (es + [e])[..|es|] == es;
  }

  // ----- samples that arrive in time order are always tidy -----

  /** The series' samples arrive in nondecreasing time order. */
  ghost predicate Ascends(samples: seq<Sample>) {
    forall i, j :: 0 <= i < j < |samples| ==> samples[i].at <= samples[j].at
  }

  /** A series fed in time order is, collections or not, the end of what it received. */
  lemma {:induction false} InOrderIsSuffix(k: string, cap: nat, retention: int, es: seq<Event>)
    requires cap > 0 && Ascends(Received(k, es))
    ensures |SeriesRun([], k, cap, retention, es)| <= cap
    ensures IsSuffix(SeriesRun([], k, cap, retention, es), Received(k, es))
  {
    if es != [] {
      var (n, e) := (|es| - 1, es[|es| - 1]);
      var (before, all) := (SeriesRun([], k, cap, retention, es[..n]), Received(k, es[..n]));
      AscendsPrefix(all, Brought(k, e));
      InOrderIsSuffix(k, cap, retention, es[..n]);
      if e.Collection? {
        assert all + [] == all;
        SuffixAscends(before, all);
        var m := UnexpiredSuffix(before, Cutoff(e.now, retention));
        SuffixOfSuffix(before, all, m);
      } else {
        StepAppends(before, k, cap, retention, e);
        SuffixAppended(before, all, Brought(k, e), cap);
      }
    }
  }

  ghost predicate IsSuffix(a: seq<Sample>, b: seq<Sample>) {
    |a| <= |b| && a == b[|b| - |a|..]
  }

  lemma AscendsPrefix(a: seq<Sample>, b: seq<Sample>)
    requires Ascends(a + b)
    ensures Ascends(a)
  {
    assert forall i :: 0 <= i < |a| ==> (a + b)[i] == a[i];
  }

  lemma SuffixAscends(a: seq<Sample>, b: seq<Sample>)
    requires IsSuffix(a, b) && Ascends(b)
    ensures Ascends(a) && forall cutoff :: !StaleAfterFresh(a, cutoff)
  {
    forall i, j | 0 <= i < j < |a| ensures a[i].at <= a[j].at {
      assert a[i] == b[|b| - |a| + i] && a[j] == b[|b| - |a| + j];
    }
  }

  lemma SuffixOfSuffix(a: seq<Sample>, b: seq<Sample>, n: nat)
    requires IsSuffix(a, b) && n <= |a|
    ensures IsSuffix(a[n..], b)
  {
  }

  lemma SuffixAppended(a: seq<Sample>, b: seq<Sample>, more: seq<Sample>, cap: nat)
    requires IsSuffix(a, b)
    ensures IsSuffix(LastN(a + more, cap), b + more)
  {
    var gone := |b| - |a|;
    assert (b + more)[gone..] == a + more;
  }

  /** Samples that arrive in time order are never untidy, whatever the collections. */
  lemma {:induction false} InOrderIsTidy(k: string, cap: nat, retention: int, es: seq<Event>)
    requires cap > 0 && Ascends(Received(k, es))
    ensures Tidy(es, k, cap, retention)
  {
    if es != [] {
      var (n, e) := (|es| - 1, es[|es| - 1]);
      AscendsPrefix(Received(k, es[..n]), Brought(k, e));
      InOrderIsTidy(k, cap, retention, es[..n]);
      InOrderIsSuffix(k, cap, retention, es[..n]);
      SuffixAscends(SeriesRun([], k, cap, retention, es[..n]), Received(k, es[..n]));
    }
  }

  /** So erasing every collection changes no answer when each series' samples arrive in time
      order, the cap on samples included. */
  lemma InOrderInvisible(st: State, es: seq<Event>)
    requires st.series == map[] && st.maxPerKey > 0 && ClockRises(es)
    requires forall k :: Ascends(Received(k, es))
    ensures Answers(st, Erased(es)) == Answers(st, es)
  {
    forall k ensures Harmless(es, k, st.maxPerKey, st.retention) {
      InOrderIsTidy(k, st.maxPerKey, st.retention, es);
    }
    CollectionsInvisible(st, es);
  }

  // ----- the store is bounded -----

  lemma {:induction false} IngestBounded(st: State, pods: seq<PodUsage>, resolve: Resolver, at: Time, now: Time)
    requires forall k :: k in st.series ==> |st.series[k].samples| <= st.maxPerKey
    ensures var r := IngestPods(st, pods, resolve, at, now);
            r.maxPerKey == st.maxPerKey && forall k :: k in r.series ==> |r.series[k].samples| <= st.maxPerKey
  {
    if pods != [] {
      IngestBounded(st, pods[..|pods| - 1], resolve, at, now);
    }
  }

  /** No series ever holds more samples than the cap, whatever is reported. */
  lemma {:induction false} SamplesBounded(st: State, es: seq<Event>)
    requires st.series == map[]
    ensures var r := After(st, es);
            r.maxPerKey == st.maxPerKey && forall k :: k in r.series ==> |r.series[k].samples| <= st.maxPerKey
  {
    if es != [] {
      var n := |es| - 1;
      SamplesBounded(st, es[..n]);
      var mid := After(st, es[..n]);
      match es[n] {
        case Reported(r, resolve, now) =>
          IngestBounded(mid.(nodeSeen := mid.nodeSeen[r.node := now]), r.pods, resolve, StampOf(r, now), now);
        case Collection(now) =>
          forall k | k in mid.series
            ensures |Unexpired(mid.series[k].samples, Cutoff(now, mid.retention))| <= st.maxPerKey
          {
            UnexpiredShorter(mid.series[k].samples, Cutoff(now, mid.retention));
          }
        case Asked(_, _) =>
      }
    }
  }

  // ----- what a summary says -----

  lemma {:induction false} SumInsert(x: real, s: seq<real>)
    ensures OrderStats.Sum(OrderStats.Insert(x, s)) == x + OrderStats.Sum(s)
  {
    if s == [] || x <= s[0] {
      SumCons(x, s);
    } else {
      SumInsert(x, s[1..]);
      SumCons(s[0], OrderStats.Insert(x, s[1..]));
      SumCons(s[0], s[1..]);
      assert s == [s[0]] + s[1..];
    }
  }

  lemma {:induction false} SumCons(x: real, s: seq<real>)
    ensures OrderStats.Sum([x] + s) == x + OrderStats.Sum(s)
  {
    if s == [] {
      assert ([x] + s)[..0] == [];
    } else {
      var n := |s| - 1;
      SumCons(x, s[..n]);
      assert ([x] + s)[..n + 1] == [x] + s[..n];
    }
  }

  lemma {:induction false} SumSort(s: seq<real>)
    ensures OrderStats.Sum(OrderStats.Sort(s)) == OrderStats.Sum(s)
  {
    if s != [] {
      SumSort(s[1..]);
      SumInsert(s[0], OrderStats.Sort(s[1..]));
      SumCons(s[0], s[1..]);
      assert s == [s[0]] + s[1..];
    }
  }

  /** The summary's numbers are the advisor's statistics of the same data. */
  lemma SummaryAgrees(vals: seq<real>)
    requires vals != []
    ensures var s := Summary(vals);
            && s.samples == |vals|
            && s.p50 == OrderStats.Percentile(vals, 50) && s.p90 == OrderStats.Percentile(vals, 90)
            && s.p95 == OrderStats.Percentile(vals, 95) && s.p99 == OrderStats.Percentile(vals, 99)
            && s.max == OrderStats.Max(vals) && s.mean == OrderStats.Mean(vals)
  {
    OrderStats.SortSorts(vals);
    OrderStats.PercentileIsNearestRank(vals, 50);
    OrderStats.PercentileIsNearestRank(vals, 90);
    OrderStats.PercentileIsNearestRank(vals, 95);
    OrderStats.PercentileIsNearestRank(vals, 99);
    OrderStats.MaxIsLastOfSorted(vals);
    SumSort(vals);
  }

  /** A higher percentile is no smaller, and none exceeds the maximum. */
  lemma PercentileRises(vals: seq<real>, p: int, q: int)
    requires vals != [] && p <= q
    ensures OrderStats.Percentile(vals, p) <= OrderStats.Percentile(vals, q) <= OrderStats.Max(vals)
  {
    OrderStats.SortSorts(vals);
    OrderStats.PercentileIsNearestRank(vals, p);
    OrderStats.PercentileIsNearestRank(vals, q);
    OrderStats.RankMonotone(p, q, |vals|);
    OrderStats.MaxIsLastOfSorted(vals);
  }

  /** Each reported percentile is the observation of its rank, the percentiles are ordered up to
      the maximum, and every figure lies within any bounds on the data. */
  lemma SummaryLaw(vals: seq<real>, lo: real, hi: real)
    requires vals != []
    ensures var s := Summary(vals);
            && s.p50 <= s.p90 <= s.p95 <= s.p99 <= s.max
            && (OrderStats.Within(vals, lo, hi) ==> lo <= s.mean <= hi && lo <= s.p50 && s.max <= hi)
  {
    SummaryAgrees(vals);
    PercentileRises(vals, 50, 90);
    PercentileRises(vals, 90, 95);
    PercentileRises(vals, 95, 99);
    if OrderStats.Within(vals, lo, hi) {
      OrderStats.MeanWithin(vals, lo, hi);
      OrderStats.PercentileWithin(vals, 50, lo, hi);
      MaxWithin(vals, lo, hi);
    }
  }

  lemma MaxWithin(vals: seq<real>, lo: real, hi: real)
    requires vals != [] && OrderStats.Within(vals, lo, hi)
    ensures lo <= OrderStats.Max(vals) <= hi
  {
    OrderStats.MaxIsGreatest(vals);
  }

  /** A summary does not depend on the order of the samples. */
  lemma SummaryIgnoresOrder(a: seq<real>, b: seq<real>)
    requires multiset(a) == multiset(b)
    ensures Summary(a) == Summary(b)
  {
    OrderStats.SortSorts(a);
    OrderStats.SortSorts(b);
    OrderStats.AscendingUnique(OrderStats.Sort(a), OrderStats.Sort(b));
  }
}
