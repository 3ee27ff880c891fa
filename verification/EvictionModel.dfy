/**
 One pass of the eviction manager as a function of its state, and what holds over whole
 runs of passes. `EvictionManager` holds the class that is proved against it.
 */
module EvictionModel {
  import opened Numbers
  import opened Tiers
  import opened Pods
  import opened TokenBucket

  datatype Verdict = Verdict(
    pod: Pod,
    plugin: string,
    reason: string,
    score: real,
    releasesCPUMilli: int,
    releasesMemoryBytes: int)

  datatype Policy = Policy(
    enabled: bool,
    dryRun: bool,
    memoryPressureThresholdPercent: int,
    cpuPressureThresholdPercent: int,
    cpuSomeStalledThresholdPercent: int,
    maxEvictionsPerMinute: int,
    stabilisationSeconds: int)

  /** What the eviction API answers. */
  datatype Outcome = Accepted | TooManyRequests | Failed

  /** The API's answer for each pod key; a key is asked about at most once a pass. */
  type API = string -> Outcome

  /** One pass: the clock, the policy, the sample's quality, the advisor's pressure level,
      what each plugin answered (`None` is an error) and how the API would answer. */
  datatype Pass = Pass(
    now: Time,
    policy: Policy,
    degraded: bool,
    level: PressureLevel,
    answers: seq<Option<seq<Verdict>>>,
    api: API)

  datatype Report = Report(proposed: nat, evicted: seq<Verdict>, suppressed: map<string, nat>)

  datatype State = State(budget: Bucket, breachedSince: Time, recent: map<string, Time>)

  const NEW_STATE := State(NewBucket(3, MINUTE), 0, map[])

  function Key(pod: Pod): string {
    pod.namespace + "/" + pod.name
  }

  function Bump(m: map<string, nat>, k: string): map<string, nat> {
    m[k := (if k in m then m[k] else 0) + 1]
  }

  function TrackBreach(since: Time, level: PressureLevel, now: Time): Time {
    if level == NoPressure then 0 else if since == 0 then now else since
  }

  /** All verdicts, in plugin order; a plugin that failed contributes none. */
  function Collect(answers: seq<Option<seq<Verdict>>>): seq<Verdict> {
    if answers == [] then []
    else
      var a := answers[|answers| - 1];
      Collect(answers[..|answers| - 1]) + if a.Some? then a.value else []
  }

  predicate RecentlyEvicted(recent: map<string, Time>, key: string, now: Time) {
    key in recent && now - recent[key] < 2 * MINUTE
  }

  /** The rule that blocks an eviction, or "". */
  function Veto(recent: map<string, Time>, pod: Pod, now: Time): string {
    if !Evictable(LevelOf(pod)) then "system-tier"
    else if IsMirrorPod(pod) then "mirror-pod"
    else if pod.terminating then "already-terminating"
    else if IsTerminal(pod) then "already-terminal"
    else if pod.priority.Some? && pod.priority.value >= 2_000_000_000 then "system-critical-priority"
    else if RecentlyEvicted(recent, Key(pod), now) then "recently-evicted"
    else ""
  }

  // ----- the loop over verdicts -----

  datatype Loop = Loop(
    budget: Bucket,
    recent: map<string, Time>,
    seen: set<string>,
    evicted: seq<Verdict>,
    suppressed: map<string, nat>,
    stopped: bool)

  function Consider(l: Loop, v: Verdict, p: Pass): Loop
    requires l.budget.window > 0
  {
    var key := Key(v.pod);
    if l.stopped || key in l.seen then l
    else
      var l1 := l.(seen := l.seen + {key});
      var cause := Veto(l.recent, v.pod, p.now);
      if cause != "" then l1.(suppressed := Bump(l.suppressed, cause))
      else
        var l2 := l1.(budget := TakeBucket(l.budget, p.now));
        if !Takes(l.budget, p.now) then l2.(suppressed := Bump(l.suppressed, "rate-limited"), stopped := true)
        else if p.policy.dryRun then l2.(suppressed := Bump(l.suppressed, "dry-run"))
        else
          match p.api(key)
          case Accepted => l2.(recent := l.recent[key := p.now], evicted := l.evicted + [v])
          case TooManyRequests => l2.(suppressed := Bump(l.suppressed, "disruption-budget"))
          case Failed => l2.(suppressed := Bump(l.suppressed, "api-error"))
  }

  function ConsiderAll(l: Loop, vs: seq<Verdict>, p: Pass): (r: Loop)
    requires l.budget.window > 0
    ensures r.budget.window == l.budget.window
  {
    if vs == [] then l else Consider(ConsiderAll(l, vs[..|vs| - 1], p), vs[|vs| - 1], p)
  }

  /** Entries older than ten minutes are dropped. */
  function Trim(recent: map<string, Time>, now: Time): map<string, Time> {
    map k | k in recent && now - recent[k] <= 10 * MINUTE :: recent[k]
  }

  // ----- one pass -----

  /** The pass got past the enabled and degraded checks. */
  predicate Active(p: Pass) {
    p.policy.enabled && !p.degraded
  }

  predicate Stabilising(since: Time, p: Pass) {
    var wait := p.policy.stabilisationSeconds * SECOND;
    wait > 0 && (since == 0 || p.now - since < wait)
  }

  function StartLoop(budget: Bucket, recent: map<string, Time>, p: Pass): Loop {
    Loop(ConfigureBucket(budget, p.policy.maxEvictionsPerMinute, MINUTE), recent, {}, [], map[], false)
  }

  function RunPass(st: State, p: Pass): (State, Report) {
    if !p.policy.enabled then (st, Report(0, [], map[]))
    else if p.degraded then (st, Report(0, [], map["degraded-sample" := 1]))
    else
      var since := TrackBreach(st.breachedSince, p.level, p.now);
      var st1 := st.(breachedSince := since);
      var vs := Collect(p.answers);
      if vs == [] then (st1, Report(0, [], map[]))
      else if Stabilising(since, p) then (st1, Report(|vs|, [], map["stabilising" := |vs|]))
      else
        var l := ConsiderAll(StartLoop(st.budget, st.recent, p), vs, p);
        (State(l.budget, since, Trim(l.recent, p.now)), Report(|vs|, l.evicted, l.suppressed))
  }

  function After(st: State, ps: seq<Pass>): State {
    if ps == [] then st else RunPass(After(st, ps[..|ps| - 1]), ps[|ps| - 1]).0
  }

  /** What the i-th pass of a run evicts. */
  function EvictedAt(st: State, ps: seq<Pass>, i: nat): seq<Verdict>
    requires i < |ps|
  {
    RunPass(After(st, ps[..i]), ps[i]).1.evicted
  }

  // ----- nothing protected is ever evicted -----

  ghost predicate Disposable(pod: Pod) {
    && LevelOf(pod) != SystemCores && !IsMirrorPod(pod) && !pod.terminating && !IsTerminal(pod)
    && (pod.priority.Some? ==> pod.priority.value < 2_000_000_000)
  }

  function Keys(vs: seq<Verdict>): set<string> {
    if vs == [] then {} else Keys(vs[..|vs| - 1]) + {Key(vs[|vs| - 1].pod)}
  }

  ghost predicate DistinctKeys(vs: seq<Verdict>) {
    forall i, j :: 0 <= i < j < |vs| ==> Key(vs[i].pod) != Key(vs[j].pod)
  }

  function Stamped(recent: map<string, Time>, keys: set<string>, now: Time): map<string, Time> {
    recent + map k | k in keys :: now
  }

  /** An eviction that respects every rule, given what had been evicted before the pass. */
  ghost predicate Lawful(v: Verdict, before: map<string, Time>, p: Pass) {
    && Disposable(v.pod)
    && !RecentlyEvicted(before, Key(v.pod), p.now)
    && !p.policy.dryRun && p.api(Key(v.pod)) == Accepted
  }

  ghost predicate LoopSafe(l: Loop, before: map<string, Time>, p: Pass) {
    && (forall i :: 0 <= i < |l.evicted| ==> Lawful(l.evicted[i], before, p))
    && DistinctKeys(l.evicted)
    && Keys(l.evicted) <= l.seen
    && l.recent == Stamped(before, Keys(l.evicted), p.now)
  }

  lemma {:induction false} KeysMembers(vs: seq<Verdict>)
    ensures forall i :: 0 <= i < |vs| ==> Key(vs[i].pod) in Keys(vs)
    ensures forall k :: k in Keys(vs) ==> exists i :: 0 <= i < |vs| && Key(vs[i].pod) == k
  {
    if vs != [] {
      var n := |vs| - 1;
      KeysMembers(vs[..n]);
      forall k | k in Keys(vs) ensures exists i :: 0 <= i < |vs| && Key(vs[i].pod) == k {
        if k in Keys(vs[..n]) {
          var i :| 0 <= i < n && Key(vs[..n][i].pod) == k;
          assert Key(vs[i].pod) == k;
        } else {
          assert Key(vs[n].pod) == k;
        }
      }
    }
  }

  lemma AcceptSafe(l: Loop, before: map<string, Time>, v: Verdict, p: Pass, r: Loop)
    requires LoopSafe(l, before, p) && Key(v.pod) !in l.seen && Veto(l.recent, v.pod, p.now) == ""
    requires !p.policy.dryRun && p.api(Key(v.pod)) == Accepted
    requires r.evicted == l.evicted + [v] && r.seen == l.seen + {Key(v.pod)}
             && r.recent == l.recent[Key(v.pod) := p.now]
    ensures LoopSafe(r, before, p)
  {
    var key := Key(v.pod);
    DistinctSnoc(l.evicted, v);
    StampMore(before, Keys(l.evicted), key, p.now);
    VetoSaysLawful(l, before, v, p);
    assert r.evicted[..|l.evicted|] == l.evicted;
  }

  lemma DistinctSnoc(vs: seq<Verdict>, v: Verdict)
    requires DistinctKeys(vs) && Key(v.pod) !in Keys(vs)
    ensures DistinctKeys(vs + [v])
  {
    KeysMembers(vs);
  }

  lemma StampMore(before: map<string, Time>, keys: set<string>, key: string, now: Time)
    ensures Stamped(before, keys, now)[key := now] == Stamped(before, keys + {key}, now)
  {
  }

  lemma VetoSaysLawful(l: Loop, before: map<string, Time>, v: Verdict, p: Pass)
    requires LoopSafe(l, before, p) && Key(v.pod) !in l.seen && Veto(l.recent, v.pod, p.now) == ""
    requires !p.policy.dryRun && p.api(Key(v.pod)) == Accepted
    ensures Lawful(v, before, p)
  {
    var key := Key(v.pod);
    assert key !in Keys(l.evicted);
    assert key in l.recent <==> key in before;
  }

  lemma ConsiderSafe(l: Loop, before: map<string, Time>, v: Verdict, p: Pass)
    requires l.budget.window > 0 && LoopSafe(l, before, p)
    ensures LoopSafe(Consider(l, v, p), before, p)
    ensures Consider(l, v, p).evicted == l.evicted || Consider(l, v, p).evicted == l.evicted + [v]
  {
    var r := Consider(l, v, p);
    if r.evicted != l.evicted {
      AcceptSafe(l, before, v, p, r);
    }
  }

  lemma {:induction false} ConsiderAllSafe(l: Loop, vs: seq<Verdict>, p: Pass)
    requires l.budget.window > 0 && l.evicted == []
    ensures var r := ConsiderAll(l, vs, p);
            LoopSafe(r, l.recent, p) && forall i :: 0 <= i < |r.evicted| ==> r.evicted[i] in vs
  {
    if vs == [] {
      assert Stamped(l.recent, {}, p.now) == l.recent;
    } else {
      var n := |vs| - 1;
      ConsiderAllSafe(l, vs[..n], p);
      ConsiderSafe(ConsiderAll(l, vs[..n], p), l.recent, vs[n], p);
      assert vs == vs[..n] + [vs[n]];
    }
  }

  /** Whatever the plugins propose, a pass evicts only what they proposed, each pod once, never a
      system pod, mirror pod, terminating or finished pod or one of system-critical priority,
      never in a dry run, on a degraded sample or when disabled, and never against the API. */
  lemma OnlyLawfulEvictions(st: State, p: Pass)
    requires st.budget.window > 0
    ensures var evicted := RunPass(st, p).1.evicted;
            && DistinctKeys(evicted)
            && (forall i :: 0 <= i < |evicted| ==> Lawful(evicted[i], st.recent, p) && evicted[i] in Collect(p.answers))
            && (evicted != [] ==> Active(p) && !Stabilising(TrackBreach(st.breachedSince, p.level, p.now), p))
            && (evicted != [] ==> RunPass(st, p).0.recent == Trim(Stamped(st.recent, Keys(evicted), p.now), p.now))
  {
    if Active(p) {
      ConsiderAllSafe(StartLoop(st.budget, st.recent, p), Collect(p.answers), p);
    }
  }

  /** Proposals are counted, evicted or not, exactly by a pass that is enabled and has a sample
      that is not degraded; a dry run is such a pass, and evicts nothing. */
  lemma ProposalsReported(st: State, p: Pass)
    requires st.budget.window > 0
    ensures var report := RunPass(st, p).1;
            && report.proposed == (if Active(p) then |Collect(p.answers)| else 0)
            && (p.policy.dryRun ==> report.evicted == [])
  {
    OnlyLawfulEvictions(st, p);
  }

  /** One proposal: a disabled manager reports none, a dry run reports it. */
  lemma DisabledReportsNothing(v: Verdict, now: Time, api: API)
    ensures var disabled := Pass(now, Policy(false, false, 85, 92, 40, 3, 0), false, Critical, [Some([v])], api);
            var dry := disabled.(policy := disabled.policy.(enabled := true, dryRun := true));
            && RunPass(NEW_STATE, disabled) == (NEW_STATE, Report(0, [], map[]))
            && RunPass(NEW_STATE, dry).1.proposed == 1 && RunPass(NEW_STATE, dry).1.evicted == []
  {
    var dry := Pass(now, Policy(true, true, 85, 92, 40, 3, 0), false, Critical, [Some([v])], api);
    assert dry.answers[..0] == [] && Collect(dry.answers) == [] + [v];
    ProposalsReported(NEW_STATE, dry);
  }

  // ----- the rate limit over whole runs -----

  /** The bucket operations one verdict causes. */
  function OpsOf(l: Loop, v: Verdict, p: Pass): seq<Op>
    requires l.budget.window > 0
  {
    if l.stopped || Key(v.pod) in l.seen || Veto(l.recent, v.pod, p.now) != "" then [] else [Attempt(p.now)]
  }

  function OpsOfAll(l: Loop, vs: seq<Verdict>, p: Pass): seq<Op>
    requires l.budget.window > 0
  {
    if vs == [] then []
    else
      var n := |vs| - 1;
      OpsOfAll(l, vs[..n], p) + OpsOf(ConsiderAll(l, vs[..n], p), vs[n], p)
  }

  /** The bucket operations of one pass. */
  function PassOps(st: State, p: Pass): seq<Op>
    requires st.budget.window > 0
  {
    if !Active(p) || Collect(p.answers) == [] || Stabilising(TrackBreach(st.breachedSince, p.level, p.now), p) then []
    else
      [Reconfigure(p.policy.maxEvictionsPerMinute)]
      + OpsOfAll(StartLoop(st.budget, st.recent, p), Collect(p.answers), p)
  }

  lemma ConsiderCounts(l: Loop, v: Verdict, p: Pass)
    requires l.budget.window > 0
    ensures Consider(l, v, p).budget == AfterOps(l.budget, OpsOf(l, v, p))
    ensures |Consider(l, v, p).evicted| <= |l.evicted| + Taken(l.budget, OpsOf(l, v, p))
  {
    Snoc(l.budget, [], Attempt(p.now));
    assert [] + [Attempt(p.now)] == [Attempt(p.now)];
  }

  lemma {:induction false} LoopCounts(l: Loop, vs: seq<Verdict>, p: Pass)
    requires l.budget.window > 0 && l.evicted == []
    ensures var r := ConsiderAll(l, vs, p);
            && r.budget == AfterOps(l.budget, OpsOfAll(l, vs, p))
            && |r.evicted| <= Taken(l.budget, OpsOfAll(l, vs, p))
    ensures forall i :: 0 <= i < |OpsOfAll(l, vs, p)| ==> OpsOfAll(l, vs, p)[i] == Attempt(p.now)
  {
    if vs != [] {
      var n := |vs| - 1;
      var mid := ConsiderAll(l, vs[..n], p);
      LoopCounts(l, vs[..n], p);
      ConsiderCounts(mid, vs[n], p);
      AfterConcat(l.budget, OpsOfAll(l, vs[..n], p), OpsOf(mid, vs[n], p));
    }
  }

  lemma PassCounts(st: State, p: Pass)
    requires st.budget.window == MINUTE
    ensures RunPass(st, p).0.budget == AfterOps(st.budget, PassOps(st, p))
    ensures |RunPass(st, p).1.evicted| <= Taken(st.budget, PassOps(st, p))
    ensures forall i :: 0 <= i < |PassOps(st, p)| ==>
              PassOps(st, p)[i] in {Attempt(p.now), Reconfigure(p.policy.maxEvictionsPerMinute)}
  {
    var ops := PassOps(st, p);
    if ops != [] {
      var l := StartLoop(st.budget, st.recent, p);
      var vs := Collect(p.answers);
      var first := [Reconfigure(p.policy.maxEvictionsPerMinute)];
      LoopCounts(l, vs, p);
      Snoc(st.budget, [], first[0]);
      assert [] + first == first;
      AfterConcat(st.budget, first, OpsOfAll(l, vs, p));
    }
  }

  function RunOps(st: State, ps: seq<Pass>): seq<Op>
    requires st.budget.window == MINUTE
  {
    if ps == [] then []
    else
      var n := |ps| - 1;
      KeepsWindow(st, ps[..n]);
      RunOps(st, ps[..n]) + PassOps(After(st, ps[..n]), ps[n])
  }

  lemma {:induction false} KeepsWindow(st: State, ps: seq<Pass>)
    requires st.budget.window == MINUTE
    ensures After(st, ps).budget.window == MINUTE
  {
    if ps != [] {
      KeepsWindow(st, ps[..|ps| - 1]);
    }
  }

  /** How many evictions a run makes. */
  function Evictions(st: State, ps: seq<Pass>): nat {
    if ps == [] then 0 else Evictions(st, ps[..|ps| - 1]) + |EvictedAt(st, ps, |ps| - 1)|
  }

  lemma {:induction false} RunCounts(st: State, ps: seq<Pass>)
    requires st.budget.window == MINUTE
    ensures After(st, ps).budget == AfterOps(st.budget, RunOps(st, ps))
    ensures Evictions(st, ps) <= Taken(st.budget, RunOps(st, ps))
    ensures forall o :: o in RunOps(st, ps) ==>
              exists i :: 0 <= i < |ps| && o in {Attempt(ps[i].now), Reconfigure(ps[i].policy.maxEvictionsPerMinute)}
  {
    if ps != [] {
      var n := |ps| - 1;
      KeepsWindow(st, ps[..n]);
      var mid := After(st, ps[..n]);
      RunCounts(st, ps[..n]);
      PassCounts(mid, ps[n]);
      AfterConcat(st.budget, RunOps(st, ps[..n]), PassOps(mid, ps[n]));
      forall o | o in RunOps(st, ps)
        ensures exists i :: 0 <= i < |ps| && o in {Attempt(ps[i].now), Reconfigure(ps[i].policy.maxEvictionsPerMinute)}
      {
        if o in RunOps(st, ps[..n]) {
          var i :| 0 <= i < n && o in {Attempt(ps[..n][i].now), Reconfigure(ps[..n][i].policy.maxEvictionsPerMinute)};
          assert ps[i] == ps[..n][i];
        } else {
          assert o in PassOps(mid, ps[n]);
          assert o in {Attempt(ps[n].now), Reconfigure(ps[n].policy.maxEvictionsPerMinute)};
        }
      }
    }
  }

  /** A pass that may evict first gives the bucket the capacity of its policy. */
  ghost predicate StartsConfigured(ops: seq<Op>) {
    ops != [] ==> ops[0].Reconfigure?
  }

  lemma {:induction false} RunStartsConfigured(st: State, ps: seq<Pass>)
    requires st.budget.window == MINUTE
    ensures StartsConfigured(RunOps(st, ps))
  {
    if ps != [] {
      var n := |ps| - 1;
      KeepsWindow(st, ps[..n]);
      RunStartsConfigured(st, ps[..n]);
    }
  }

  /** The first operation fixes the capacity, so the envelope does not depend on the one before. */
  lemma ConfiguredEnvelope(b: Bucket, ops: seq<Op>, most: nat, from: Time, span: nat)
    requires Sound(b) && StartsConfigured(ops) && AttemptsWithin(ops, from, span)
    requires forall i :: 0 <= i < |ops| ==> ops[i].Reconfigure? ==> ops[i].capacity <= most
    ensures Taken(b, ops) as real <= most as real + Earned(most, span, b.window)
    ensures span <= b.window ==> Taken(b, ops) <= 2 * most
  {
    if ops == [] {
      EarnedMonotone(0, most, span, b.window);
    } else {
      var (first, rest) := (ops[..1], ops[1..]);
      assert first == [ops[0]] && [] + first == first && ops == first + rest;
      Snoc(b, [], ops[0]);
      AfterConcat(b, first, rest);
      StaysSound(b, first);
      SpanEnvelope(AfterOps(b, first), rest, most, from, span);
    }
  }

  /** The rate limit over runs, whatever capacity the bucket had before: in passes whose clocks
      lie within a span, under policies that never allow more than `most` a minute, at most `most`
      pods plus what `most` a minute amounts to over the span are evicted, and within one minute
      at most twice `most`. */
  lemma EvictionsBounded(st: State, ps: seq<Pass>, most: nat, from: Time, span: nat)
    requires st.budget.window == MINUTE && Sound(st.budget)
    requires forall i :: 0 <= i < |ps| ==>
             ps[i].policy.maxEvictionsPerMinute <= most && from <= ps[i].now <= from + span
    ensures Evictions(st, ps) as real <= most as real + Earned(most, span, MINUTE)
    ensures span <= MINUTE ==> Evictions(st, ps) <= 2 * most
  {
    RunCounts(st, ps);
    var ops := RunOps(st, ps);
    forall i | 0 <= i < |ops|
      ensures ops[i].Attempt? ==> from <= ops[i].now <= from + span
      ensures ops[i].Reconfigure? ==> ops[i].capacity <= most
    {
      assert ops[i] in ops;
    }
    RunStartsConfigured(st, ps);
    ConfiguredEnvelope(st.budget, ops, most, from, span);
  }

  /** A manager's bucket is sound from the start and stays so. */
  lemma BudgetStaysSound(ps: seq<Pass>)
    ensures var b := After(NEW_STATE, ps).budget;
            b.window == MINUTE && Sound(b)
  {
    KeepsWindow(NEW_STATE, ps);
    RunCounts(NEW_STATE, ps);
    StaysSound(NEW_STATE.budget, RunOps(NEW_STATE, ps));
  }

  // ----- stabilisation over whole runs -----

  /** Some pass saw pressure at the given time, and no pass that looked has seen none since. */
  ghost predicate PressedSince(ps: seq<Pass>, since: Time) {
    exists i :: 0 <= i < |ps| && Active(ps[i]) && ps[i].now == since &&
      forall k :: i <= k < |ps| && Active(ps[k]) ==> ps[k].level != NoPressure
  }

  lemma PressedOn(ps: seq<Pass>, p: Pass, since: Time)
    requires PressedSince(ps, since) && (Active(p) ==> p.level != NoPressure)
    ensures PressedSince(ps + [p], since)
  {
    var i :| 0 <= i < |ps| && Active(ps[i]) && ps[i].now == since
      && forall k :: i <= k < |ps| && Active(ps[k]) ==> ps[k].level != NoPressure;
    assert (ps + [p])[i] == ps[i];
  }

  lemma BreachStep(st: State, ps: seq<Pass>, p: Pass)
    requires st.breachedSince != 0 ==> PressedSince(ps, st.breachedSince)
    ensures var since := TrackBreach(st.breachedSince, p.level, p.now);
            Active(p) && since != 0 ==> PressedSince(ps + [p], since)
    ensures var after := RunPass(st, p).0.breachedSince;
            after != 0 ==> PressedSince(ps + [p], after)
  {
    if Active(p) {
      if p.level != NoPressure {
        if st.breachedSince != 0 {
          PressedOn(ps, p, st.breachedSince);
        } else {
          assert (ps + [p])[|ps|] == p;
        }
      }
    } else if st.breachedSince != 0 {
      PressedOn(ps, p, st.breachedSince);
    }
  }

  lemma {:induction false} BreachIsPressed(ps: seq<Pass>)
    ensures After(NEW_STATE, ps).breachedSince != 0 ==> PressedSince(ps, After(NEW_STATE, ps).breachedSince)
  {
    if ps != [] {
      var n := |ps| - 1;
      BreachIsPressed(ps[..n]);
      BreachStep(After(NEW_STATE, ps[..n]), ps[..n], ps[n]);
      assert ps == ps[..n] + [ps[n]];
    }
  }

  /** Stabilisation over runs: if a pass evicts anything while the policy waits, then some
      earlier pass at least that long ago already saw pressure, and no pass in between that got
      past the enabled and degraded checks saw none. */
  lemma Stabilised(ps: seq<Pass>, p: Pass)
    requires RunPass(After(NEW_STATE, ps), p).1.evicted != [] && p.policy.stabilisationSeconds > 0
    ensures exists since: Time ::
              PressedSince(ps + [p], since) && since + p.policy.stabilisationSeconds * SECOND <= p.now
  {
    KeepsWindow(NEW_STATE, ps);
    OnlyLawfulEvictions(After(NEW_STATE, ps), p);
    BreachIsPressed(ps);
    BreachStep(After(NEW_STATE, ps), ps, p);
    var since := TrackBreach(After(NEW_STATE, ps).breachedSince, p.level, p.now);
    assert PressedSince(ps + [p], since);
  }

  // ----- no repeat evictions -----

  ghost predicate ClockRises(ps: seq<Pass>) {
    forall i, j :: 0 <= i < j < |ps| ==> ps[i].now <= ps[j].now
  }

  /** Trimming never drops an entry that a later veto would still need. */
  lemma TrimKeepsVetoes(recent: map<string, Time>, now: Time, later: Time, pod: Pod)
    requires now <= later
    ensures Veto(Trim(recent, now), pod, later) == Veto(recent, pod, later)
  {
  }

  /** An eviction is remembered, at its own time or a later one, or is ten minutes old. */
  ghost predicate Remembered(recent: map<string, Time>, key: string, at: Time, now: Time) {
    (key in recent && at <= recent[key] <= now) || now - at > 10 * MINUTE
  }

  lemma RememberedStep(st: State, p: Pass, key: string, at: Time, before: Time)
    requires st.budget.window > 0 && at <= before <= p.now
    requires Remembered(st.recent, key, at, before)
    ensures Remembered(RunPass(st, p).0.recent, key, at, p.now)
    ensures forall i :: 0 <= i < |RunPass(st, p).1.evicted| && Key(RunPass(st, p).1.evicted[i].pod) == key ==>
            p.now - at >= 2 * MINUTE
  {
    OnlyLawfulEvictions(st, p);
    if Active(p) {
      ConsiderAllSafe(StartLoop(st.budget, st.recent, p), Collect(p.answers), p);
    }
  }

  lemma EvictionRemembered(st: State, p: Pass, i: nat)
    requires st.budget.window > 0 && i < |RunPass(st, p).1.evicted|
    ensures Remembered(RunPass(st, p).0.recent, Key(RunPass(st, p).1.evicted[i].pod), p.now, p.now)
  {
    OnlyLawfulEvictions(st, p);
    KeysMembers(RunPass(st, p).1.evicted);
  }

  lemma {:induction false} StaysRemembered(ps: seq<Pass>, i: nat, v: nat, n: nat)
    requires ClockRises(ps) && i < n <= |ps| && v < |EvictedAt(NEW_STATE, ps, i)|
    ensures Remembered(After(NEW_STATE, ps[..n]).recent, Key(EvictedAt(NEW_STATE, ps, i)[v].pod), ps[i].now,
            ps[n - 1].now)
    decreases n
  {
    assert ps[..n][..n - 1] == ps[..n - 1];
    KeepsWindow(NEW_STATE, ps[..n - 1]);
    if n - 1 == i {
      EvictionRemembered(After(NEW_STATE, ps[..i]), ps[i], v);
    } else {
      StaysRemembered(ps, i, v, n - 1);
      RememberedStep(After(NEW_STATE, ps[..n - 1]), ps[n - 1], Key(EvictedAt(NEW_STATE, ps, i)[v].pod), ps[i].now,
        ps[n - 2].now);
    }
  }

  /** No pod is evicted again within two minutes: under a clock that does not step back, two
      passes of a run that evict the same namespace and name are at least two minutes apart. */
  lemma NoRepeatEviction(ps: seq<Pass>, i: nat, j: nat, v: nat, w: nat)
    requires ClockRises(ps) && i < j < |ps|
    requires v < |EvictedAt(NEW_STATE, ps, i)| && w < |EvictedAt(NEW_STATE, ps, j)|
    requires Key(EvictedAt(NEW_STATE, ps, i)[v].pod) == Key(EvictedAt(NEW_STATE, ps, j)[w].pod)
    ensures ps[j].now - ps[i].now >= 2 * MINUTE
  {
    StaysRemembered(ps, i, v, j);
    KeepsWindow(NEW_STATE, ps[..j]);
    RememberedStep(After(NEW_STATE, ps[..j]), ps[j], Key(EvictedAt(NEW_STATE, ps, i)[v].pod), ps[i].now, ps[j - 1].now);
  }
}
