/** From the node's advisor to what the cluster advertises and reports. */
module EndToEnd {
  import opened Numbers
  import opened Tiers
  import opened Pods
  import opened AdvisorModel
  import opened AdvisorRuns
  import opened AdvisorRevisions
  import opened Overcommit
  import opened PolicyRollup

  /** The profile an agent writes for a recommendation. */
  function ProfileOf(nodeName: string, rec: Recommendation, alloc: Resources, reportedAt: Time): Profile {
    Profile(nodeName, map[CPU := rec.cpuMilli * MILLI, MEMORY := rec.memoryBytes * NANO], alloc, reportedAt,
      rec.pressure.level)
  }

  /** A node's life so far: its samples, configuration changes and ticks, and then one tick more. */
  datatype History = History(nodeName: string, cfg: Config, events: seq<Event>, alloc: Resources, now: Time)

  function LastConfig(h: History): Config {
    Run(New(h.cfg), h.events).cfg
  }

  function Verdict(h: History): Recommendation {
    Run(New(h.cfg), h.events + [Tick(MilliOf(h.alloc, CPU), UnitsOf(h.alloc, MEMORY), h.now)]).last
  }

  function ProfileFrom(h: History): Profile {
    ProfileOf(h.nodeName, Verdict(h), h.alloc, h.now)
  }

  ghost predicate Sane(h: History) {
    && h.cfg.maxReclaimPercent >= 0 && AllConfigs(h.events)
    && MilliOf(h.alloc, CPU) >= 0 && UnitsOf(h.alloc, MEMORY) >= 0
  }

  lemma MilliExact(v: int)
    requires v >= 0
    ensures MilliValue(v * MILLI) == v
  {
    RoundUpIs(v * MILLI, MILLI, v);
  }

  /** What the controller reads from a profile is what the advisor decided. */
  lemma ProfileCarries(nodeName: string, rec: Recommendation, alloc: Resources, at: Time)
    requires rec.cpuMilli >= 0 && rec.memoryBytes >= 0
    ensures var p := ProfileOf(nodeName, rec, alloc, at);
            MilliOf(p.reclaimable, CPU) == rec.cpuMilli && UnitsOf(p.reclaimable, MEMORY) == rec.memoryBytes
  {
    MilliExact(rec.cpuMilli);
    WholeValue(rec.memoryBytes);
  }

  lemma VerdictBounded(h: History)
    requires Sane(h)
    ensures var (cfg, v) := (LastConfig(h), Verdict(h));
            && WithinBudget(cfg, v.cpuMilli, MilliOf(h.alloc, CPU), v.protectedCPUMilli, cfg.cpuTargetPercent)
            && WithinBudget(cfg, v.memoryBytes, UnitsOf(h.alloc, MEMORY), v.protectedMemoryBytes,
               cfg.memoryTargetPercent)
            && (v.pressure.level == Critical ==> v.cpuMilli == 0 && v.memoryBytes == 0)
  {
    OfferBounded(h.cfg, h.events, MilliOf(h.alloc, CPU), UnitsOf(h.alloc, MEMORY), h.now);
  }

  /** The most an advertisement may differ from what is wanted by. */
  function Slack(threshold: int): (s: nat)
    ensures s == 0 || s < threshold
  {
    if threshold > 1 then threshold - 1 else 0
  }

  lemma TracksSlack(advertised: int, wanted: int, unit: int, threshold: int)
    requires Tracks(advertised, wanted, unit, threshold) && unit > 0
    ensures (advertised - wanted) * unit <= Slack(threshold) && (wanted - advertised) * unit <= Slack(threshold)
  {
  }

  /** What is advertised, if anything, is at most a share and the slack. */
  ghost predicate WithinShare(advertised: int, unit: int, share: int, threshold: int) {
    advertised > 0 ==> advertised * unit <= share + Slack(threshold)
  }

  lemma TracksWithin(advertised: int, wanted: int, unit: int, offer: int, share: int, threshold: int)
    requires unit > 0 && 0 <= wanted && wanted * unit <= offer && (offer > 0 ==> offer <= share)
    requires Tracks(advertised, wanted, unit, threshold)
    ensures WithinShare(advertised, unit, share, threshold)
  {
    TracksSlack(advertised, wanted, unit, threshold);
    if advertised > 0 {
      assert wanted * unit >= unit;
      assert advertised * unit == (advertised - wanted) * unit + wanted * unit;
    }
  }

  /** A synchronisation towards amounts inside a share advertises inside it, up to the slack. */
  lemma SyncWithin(minMilli: int, minBytes: int, n: NodeStatus, cpu: int, bytes: int, patchAccepted: bool,
                   cpuShare: int, memoryShare: int)
    requires 0 <= cpu && (cpu > 0 ==> cpu <= cpuShare)
    requires 0 <= bytes && (bytes > 0 ==> bytes <= memoryShare)
    ensures var (n', outcome) := Synced(minMilli, minBytes, n, cpu, bytes, patchAccepted);
            Succeeded(outcome) ==>
              && WithinShare(AdvertisedCPU(n'), 1, cpuShare, minMilli)
              && WithinShare(AdvertisedMemory(n'), MIB, memoryShare, minBytes)
  {
    SyncTracks(minMilli, minBytes, n, cpu, bytes, patchAccepted);
    var (n', outcome) := Synced(minMilli, minBytes, n, cpu, bytes, patchAccepted);
    if Succeeded(outcome) {
      GoDivBounds(bytes, MIB);
      TracksWithin(AdvertisedCPU(n'), cpu, 1, cpu, cpuShare, minMilli);
      TracksWithin(AdvertisedMemory(n'), GoDiv(bytes, MIB), MIB, bytes, memoryShare, minBytes);
    }
  }

  /** What the controller wants is the verdict while the profile is fresh, and nothing afterwards
      or under critical pressure. */
  lemma WantedOfVerdict(h: History, now: Time)
    requires Sane(h)
    ensures var (p, v) := (ProfileFrom(h), Verdict(h));
            Desired(p, now) == if Stale(p, now) || v.pressure.level == Critical then (0, 0)
                               else (v.cpuMilli, v.memoryBytes)
  {
    VerdictBounded(h);
    ProfileCarries(h.nodeName, Verdict(h), h.alloc, h.now);
  }

  /** A node is never advertised beyond its reclaim share by more than the write threshold, in
      either resource, and under critical pressure or a dead agent it is advertised at nothing. */
  lemma AdvertisementBounded(h: History, minMilli: int, minBytes: int, n: NodeStatus, now: Time, patchAccepted: bool)
    requires Sane(h)
    ensures var (p, v, most) := (ProfileFrom(h), Verdict(h), LastConfig(h).maxReclaimPercent);
            var (cpu, bytes) := Desired(p, now);
            var (n', outcome) := Synced(minMilli, minBytes, n, cpu, bytes, patchAccepted);
            Succeeded(outcome) ==>
              && (Stale(p, now) || v.pressure.level == Critical ==> Withdrawn(n'))
              && (!Stale(p, now) ==> Tracks(AdvertisedCPU(n'), v.cpuMilli, 1, minMilli)
                                     && Tracks(AdvertisedMemory(n'), GoDiv(v.memoryBytes, MIB), MIB, minBytes))
              && WithinShare(AdvertisedCPU(n'), 1, Share(MilliOf(h.alloc, CPU), most), minMilli)
              && WithinShare(AdvertisedMemory(n'), MIB, Share(UnitsOf(h.alloc, MEMORY), most), minBytes)
  {
    VerdictBounded(h);
    WantedOfVerdict(h, now);
    var (cpu, bytes) := Desired(ProfileFrom(h), now);
    SyncTracks(minMilli, minBytes, n, cpu, bytes, patchAccepted);
    var most := LastConfig(h).maxReclaimPercent;
    SyncWithin(minMilli, minBytes, n, cpu, bytes, patchAccepted,
      Share(MilliOf(h.alloc, CPU), most), Share(UnitsOf(h.alloc, MEMORY), most));
  }

  // ----- between two reconciles that a profile change triggers -----

  /** An amount lags another by some slack and by n changes of two percent to what it tracked. */
  ghost predicate LagsBy(advertised: int, tracked: int, current: int, slack: nat, n: nat) {
    Numbers.Abs(advertised - current) as real <= slack as real + Compounded(n) * Numbers.Abs(tracked) as real
  }

  lemma DriftAddsLag(advertised: int, tracked: int, current: int, slack: nat, n: nat)
    requires Numbers.Abs(advertised - tracked) <= slack && Drifted(tracked, current, n)
    ensures LagsBy(advertised, tracked, current, slack, n)
  {
    assert Numbers.Abs(advertised - current) <= slack + Numbers.Abs(current - tracked);
  }

  /** A profile wakes the controller by a new revision, pressure level or health. While the first
      two stay, the advertisement may lag the offer by the write threshold and by two percent
      compounded once a tick, until the next look. */
  lemma LagBetweenTriggers(st: State, es: seq<Event>, advertised: int, minMilli: int)
    requires Tracks(advertised, OfferOf(st.last, Compute), 1, minMilli) && Run(st, es).revision == st.revision
    ensures LagsBy(advertised, OfferOf(st.last, Compute), OfferOf(Run(st, es).last, Compute), Slack(minMilli),
            Ticks(es))
  {
    var (tracked, current) := (OfferOf(st.last, Compute), OfferOf(Run(st, es).last, Compute));
    TracksSlack(advertised, tracked, 1, minMilli);
    UnchangedRevisionBoundsDrift(st, es, Compute);
    DriftAddsLag(advertised, tracked, current, Slack(minMilli), Ticks(es));
  }

  lemma WholeMebibytes(advertised: int, bytes: int, minBytes: int)
    requires bytes >= 0 && Tracks(advertised, GoDiv(bytes, MIB), MIB, minBytes)
    ensures Numbers.Abs(advertised * MIB - bytes) <= Slack(minBytes) + MIB
  {
    TracksSlack(advertised, GoDiv(bytes, MIB), MIB, minBytes);
    GoDivBounds(bytes, MIB);
  }

  /** The same in bytes for memory, which is advertised in whole mebibytes. */
  lemma MemoryLagBetweenTriggers(st: State, es: seq<Event>, advertised: int, minBytes: int)
    requires OfferOf(st.last, Memory) >= 0 && Tracks(advertised, GoDiv(OfferOf(st.last, Memory), MIB), MIB, minBytes)
    requires Run(st, es).revision == st.revision
    ensures LagsBy(advertised * MIB, OfferOf(st.last, Memory), OfferOf(Run(st, es).last, Memory),
            Slack(minBytes) + MIB, Ticks(es))
  {
    var (tracked, current) := (OfferOf(st.last, Memory), OfferOf(Run(st, es).last, Memory));
    WholeMebibytes(advertised, tracked, minBytes);
    UnchangedRevisionBoundsDrift(st, es, Memory);
    DriftAddsLag(advertised * MIB, tracked, current, Slack(minBytes) + MIB, Ticks(es));
  }

  // ----- until the next look that needs no trigger -----

  /** A reconcile that succeeded comes again after this time by itself. */
  const REQUEUE_AFTER := STALE_AFTER / 2

  /** The ticks of a run fall within a span and keep a distance from each other. */
  ghost predicate TicksApart(es: seq<Event>, from: Time, span: nat, gap: nat) {
    && (forall i :: 0 <= i < |es| && es[i].Tick? ==> from <= es[i].now <= from + span)
    && (forall i, j :: 0 <= i < j < |es| && es[i].Tick? && es[j].Tick? ==> es[j].now - es[i].now >= gap)
  }

  /** However many ticks there are, the last is that many gaps less one after the start. */
  lemma {:induction false} LastTick(es: seq<Event>, from: Time, span: nat, gap: nat) returns (i: nat)
    requires TicksApart(es, from, span, gap) && Ticks(es) > 0
    ensures i < |es| && es[i].Tick? && from + (Ticks(es) - 1) * gap <= es[i].now
  {
    i := |es| - 1;
    var front := es[..i];
    if !es[i].Tick? {
      i := LastTick(front, from, span, gap);
    } else if Ticks(front) > 0 {
      var before := LastTick(front, from, span, gap);
      assert es[before] == front[before] && es[i].now - es[before].now >= gap;
      OneGapMore(Ticks(es) - 1, gap);
    }
  }

  lemma OneGapMore(n: nat, gap: nat)
    requires n > 0
    ensures n * gap == (n - 1) * gap + gap
  {
  }

  lemma TicksWithin(es: seq<Event>, from: Time, span: nat, gap: nat)
    requires TicksApart(es, from, span, gap) && gap > 0
    ensures Ticks(es) <= span / gap + 1
  {
    if Ticks(es) > 0 {
      var i := LastTick(es, from, span, gap);
      AtMostQuotient(Ticks(es) - 1, gap, span);
    }
  }

  lemma AtMostQuotient(n: nat, gap: nat, span: nat)
    requires gap > 0 && n * gap <= span
    ensures n <= span / gap
  {
    DivBounds(span, gap);
    var (q, d) := (span / gap, n - (span / gap + 1));
    assert n * gap == (q + 1) * gap + d * gap;
    assert d >= 0 ==> d * gap >= 0;
  }

  lemma {:induction false} CompoundedMonotone(m: nat, n: nat)
    requires m <= n
    ensures 0.0 <= Compounded(m) <= Compounded(n)
  {
    if n > 0 {
      CompoundedMonotone(if m == n then m - 1 else m, n - 1);
    }
  }

  /** Untriggered, a reconcile that succeeded is followed by another before its advertisement
      lags the offer by more than the write threshold and the drift of the ticks that fit in
      between. */
  lemma LagUntilRequeue(st: State, es: seq<Event>, advertised: int, minMilli: int, from: Time, gap: nat)
    requires Tracks(advertised, OfferOf(st.last, Compute), 1, minMilli) && Run(st, es).revision == st.revision
    requires gap > 0 && TicksApart(es, from, REQUEUE_AFTER, gap)
    ensures LagsBy(advertised, OfferOf(st.last, Compute), OfferOf(Run(st, es).last, Compute), Slack(minMilli),
            REQUEUE_AFTER / gap + 1)
  {
    LagBetweenTriggers(st, es, advertised, minMilli);
    TicksWithin(es, from, REQUEUE_AFTER, gap);
    LagsLonger(advertised, OfferOf(st.last, Compute), OfferOf(Run(st, es).last, Compute), Slack(minMilli),
               Ticks(es), REQUEUE_AFTER / gap + 1);
  }

  /** The same in bytes for memory. */
  lemma MemoryLagUntilRequeue(st: State, es: seq<Event>, advertised: int, minBytes: int, from: Time, gap: nat)
    requires OfferOf(st.last, Memory) >= 0 && Tracks(advertised, GoDiv(OfferOf(st.last, Memory), MIB), MIB, minBytes)
    requires Run(st, es).revision == st.revision
    requires gap > 0 && TicksApart(es, from, REQUEUE_AFTER, gap)
    ensures LagsBy(advertised * MIB, OfferOf(st.last, Memory), OfferOf(Run(st, es).last, Memory),
            Slack(minBytes) + MIB, REQUEUE_AFTER / gap + 1)
  {
    MemoryLagBetweenTriggers(st, es, advertised, minBytes);
    TicksWithin(es, from, REQUEUE_AFTER, gap);
    LagsLonger(advertised * MIB, OfferOf(st.last, Memory), OfferOf(Run(st, es).last, Memory), Slack(minBytes) + MIB,
               Ticks(es), REQUEUE_AFTER / gap + 1);
  }

  lemma LagsLonger(advertised: int, tracked: int, current: int, slack: nat, m: nat, n: nat)
    requires LagsBy(advertised, tracked, current, slack, m) && m <= n
    ensures LagsBy(advertised, tracked, current, slack, n)
  {
    CompoundedMonotone(m, n);
    ScaleBy(Compounded(m), Compounded(n), Numbers.Abs(tracked) as real);
  }

  lemma ScaleBy(x: real, y: real, f: real)
    requires x <= y && 0.0 <= f
    ensures x * f <= y * f
  {
  }

  /** Revisions compare within one life of an advisor only: two new ones number their first
      verdicts alike, at the same level, however far apart these are. */
  lemma RestartHidesChange(now: Time)
    ensures var a := Run(New(DEFAULT_CONFIG), [Tick(1000, 0, now)]);
            var b := Run(New(DEFAULT_CONFIG), [Tick(100_000, 0, now)]);
            && a.revision == b.revision && a.last.pressure.level == b.last.pressure.level
            && a.last.cpuMilli == 125 && b.last.cpuMilli == 12_500
  {
    FirstVerdict(1000, now);
    FirstVerdict(100_000, now);
  }

  lemma FirstVerdict(cpuAlloc: int, now: Time)
    requires cpuAlloc > 400
    ensures var st := Run(New(DEFAULT_CONFIG), [Tick(cpuAlloc, 0, now)]);
            && st.revision == 1 && st.last.pressure.level == NoPressure
            && st.last.cpuMilli == Damp(25, 0, cpuAlloc * 50 / 100)
  {
    var es := [Tick(cpuAlloc, 0, now)];
    assert es[..0] == [];
    IdleTick(New(DEFAULT_CONFIG), cpuAlloc, now);
    TickRevision(New(DEFAULT_CONFIG), es[0]);
  }

  lemma BudgetShare(cfg: Config, offer: int, alloc: int, protected: int, targetPercent: int, percent: int)
    requires WithinBudget(cfg, offer, alloc, protected, targetPercent) && alloc >= 0 && percent >= 0
    requires cfg.maxReclaimPercent <= percent
    ensures 0 <= offer && offer * 100 <= alloc * percent
  {
    ShareBound(alloc, cfg.maxReclaimPercent, percent);
  }

  lemma ShareBound(alloc: int, most: int, percent: int)
    requires alloc >= 0 && percent >= 0 && most <= percent
    ensures Share(alloc, most) * 100 <= alloc * percent && 0 <= alloc * percent
  {
    var product := alloc * most;
    assert product <= alloc * percent;
    GoDivBounds(product, 100);
  }

  lemma ProfileOffers(h: History, percent: int)
    requires Sane(h) && LastConfig(h).maxReclaimPercent <= percent && percent >= 0
    ensures OffersAtMost(ProfileFrom(h), percent)
  {
    var v := Verdict(h);
    VerdictBounded(h);
    ProfileCarries(h.nodeName, v, h.alloc, h.now);
    BudgetShare(LastConfig(h), v.cpuMilli, MilliOf(h.alloc, CPU), v.protectedCPUMilli,
      LastConfig(h).cpuTargetPercent, percent);
  }

  function ListedFrom(hs: seq<History>, matching: seq<bool>): seq<Listed>
    requires |hs| == |matching|
  {
    seq(|hs|, i requires 0 <= i < |hs| => Listed(ProfileFrom(hs[i]), matching[i]))
  }

  /** The rollup never reports more overcommit than the highest reclaim share configured on any
      node, whatever each node has been through. */
  lemma ClusterBounded(hs: seq<History>, matching: seq<bool>, hasSelector: bool, percent: int)
    requires percent >= 0 && |hs| == |matching|
    requires forall i :: 0 <= i < |hs| ==> Sane(hs[i]) && LastConfig(hs[i]).maxReclaimPercent <= percent
    ensures 0 <= OvercommitPercent(Selected(ListedFrom(hs, matching), hasSelector)) <= percent
  {
    var items := ListedFrom(hs, matching);
    forall i | 0 <= i < |items| ensures OffersAtMost(items[i].profile, percent) {
      ProfileOffers(hs[i], percent);
    }
    SelectedBounded(items, hasSelector, percent);
    RollupBounded(Selected(items, hasSelector), percent);
  }
}
