/** When "so many evictions per minute" is a count over a sliding span, and when it is not. */
module EvictionRate {
  import opened Numbers
  import opened Tiers
  import opened Pods
  import opened TokenBucket
  import opened EvictionModel

  // ----- pods that may be evicted, as many as wanted -----

  function Name(i: nat): string {
    seq(i, _ => 'x')
  }

  function Spare(i: nat): EvictionModel.Verdict {
    var level := map[QOS_LEVEL := LevelName(ReclaimedCores)];
    EvictionModel.Verdict(Pod("ns", Name(i), "", level, "", None, "", "Running", false, [], []), "", "", 0.0, 0, 0)
  }

  /** The pods from one number on. */
  function Spares(first: nat, n: nat): seq<EvictionModel.Verdict> {
    if n == 0 then [] else Spares(first, n - 1) + [Spare(first + n - 1)]
  }

  /** A pod no rule protects, under a key of this many characters. */
  predicate Fits(v: EvictionModel.Verdict, length: int) {
    |Key(v.pod)| == length && Veto(map[], v.pod, 0) == ""
  }

  /** Each key is longer than those before it, which is what keeps them apart. */
  predicate Lengthening(vs: seq<EvictionModel.Verdict>, length: int) {
    forall i :: 0 <= i < |vs| ==> Fits(vs[i], length + i)
  }

  lemma FitsAnywhere(v: EvictionModel.Verdict, length: int, recent: map<string, Time>, now: Time)
    requires Fits(v, length) && Key(v.pod) !in recent
    ensures Veto(recent, v.pod, now) == ""
  {
  }

  lemma SpareFits(i: nat)
    ensures Fits(Spare(i), 3 + i)
  {
  }

  lemma {:induction false} SparesLengthen(first: nat, n: nat)
    ensures |Spares(first, n)| == n && Lengthening(Spares(first, n), 3 + first)
  {
    if n > 0 {
      SparesLengthen(first, n - 1);
      SpareFits(first + n - 1);
    }
  }

  function AlwaysAccepted(): API {
    _ => Accepted
  }

  /** A pass in which one plugin proposes these pods, nothing delays it and no call fails. */
  function EagerPass(now: Time, most: int, vs: seq<EvictionModel.Verdict>): Pass {
    Pass(now, Policy(true, false, 0, 0, 0, most, 0), false, Critical, [Some(vs)], AlwaysAccepted())
  }

  // ----- such a pass evicts all it has tokens for -----

  ghost predicate Shorter(keys: set<string>, n: int) {
    forall k :: k in keys ==> |k| < n
  }

  /** Nothing keeps the loop from evicting this pod. */
  predicate MayGo(l: Loop, v: EvictionModel.Verdict, p: Pass)
    requires l.budget.window > 0
  {
    && !l.stopped && !p.policy.dryRun && p.api(Key(v.pod)) == Accepted
    && Key(v.pod) !in l.seen && Veto(l.recent, v.pod, p.now) == "" && Takes(l.budget, p.now)
  }

  /** The loop evicted this pod and went on. */
  ghost predicate Accepts(l: Loop, r: Loop, v: EvictionModel.Verdict, now: Time)
    requires l.budget.window > 0
  {
    && !r.stopped && r.budget == TakeBucket(l.budget, now) && r.evicted == l.evicted + [v]
    && r.seen == l.seen + {Key(v.pod)} && r.recent == l.recent[Key(v.pod) := now]
  }

  lemma AcceptNext(l: Loop, vs: seq<EvictionModel.Verdict>, v: EvictionModel.Verdict, p: Pass)
    requires l.budget.window > 0 && MayGo(ConsiderAll(l, vs, p), v, p)
    ensures Accepts(ConsiderAll(l, vs, p), ConsiderAll(l, vs + [v], p), v, p.now)
  {
    assert (vs + [v])[..|vs|] == vs;
  }

  /** The bucket after n of the attempts still has a token for one more. */
  lemma StillTakes(b: Bucket, now: Time, n: nat)
    requires Sound(b) && now > 0 && (n + 1) as real <= Refill(b, now).tokens
    ensures var mid := AfterOps(b, Attempts(now, n));
            Takes(mid, now) && TakeBucket(mid, now) == AfterOps(b, Attempts(now, n + 1))
  {
    Drain(b, now, n);
    Drain(b, now, n + 1);
    Snoc(b, Attempts(now, n), Attempt(now));
  }

  /** Where the loop stands when it has evicted all of these. */
  ghost predicate Went(b: Bucket, r: Loop, vs: seq<EvictionModel.Verdict>, length: int, now: Time)
    requires b.window > 0
  {
    && !r.stopped && r.evicted == vs && r.budget == AfterOps(b, Attempts(now, |vs|))
    && Shorter(r.seen, length + |vs|) && Shorter(r.recent.Keys, length + |vs|)
  }

  lemma NextMayGo(b: Bucket, l: Loop, vs: seq<EvictionModel.Verdict>, v: EvictionModel.Verdict, length: int, p: Pass)
    requires Sound(b) && p.now > 0 && (|vs| + 1) as real <= Refill(b, p.now).tokens
    requires !p.policy.dryRun && p.api == AlwaysAccepted()
    requires Went(b, l, vs, length, p.now) && Fits(v, length + |vs|)
    ensures l.budget.window > 0 && MayGo(l, v, p)
  {
    StillTakes(b, p.now, |vs|);
    FitsAnywhere(v, length + |vs|, l.recent, p.now);
  }

  lemma WentFurther(b: Bucket, l: Loop, r: Loop, vs: seq<EvictionModel.Verdict>, v: EvictionModel.Verdict,
                    length: int, now: Time)
    requires Sound(b) && now > 0 && (|vs| + 1) as real <= Refill(b, now).tokens && l.budget.window > 0
    requires Went(b, l, vs, length, now) && Fits(v, length + |vs|) && Accepts(l, r, v, now)
    ensures Went(b, r, vs + [v], length, now)
  {
    StillTakes(b, now, |vs|);
  }

  lemma AcceptOneMore(l: Loop, vs: seq<EvictionModel.Verdict>, v: EvictionModel.Verdict, length: int, p: Pass)
    requires Sound(l.budget) && p.now > 0 && (|vs| + 1) as real <= Refill(l.budget, p.now).tokens
    requires !p.policy.dryRun && p.api == AlwaysAccepted() && Fits(v, length + |vs|)
    requires Went(l.budget, ConsiderAll(l, vs, p), vs, length, p.now)
    ensures Went(l.budget, ConsiderAll(l, vs + [v], p), vs + [v], length, p.now)
  {
    var before := ConsiderAll(l, vs, p);
    NextMayGo(l.budget, before, vs, v, length, p);
    AcceptNext(l, vs, v, p);
    WentFurther(l.budget, before, ConsiderAll(l, vs + [v], p), vs, v, length, p.now);
  }

  lemma FrontAndLast<T>(s: seq<T>)
    requires s != []
    ensures s == s[..|s| - 1] + [s[|s| - 1]]
  {
  }

  lemma {:induction false} AcceptAll(l: Loop, vs: seq<EvictionModel.Verdict>, length: int, p: Pass)
    requires Sound(l.budget) && p.now > 0 && |vs| as real <= Refill(l.budget, p.now).tokens
    requires !l.stopped && !p.policy.dryRun && p.api == AlwaysAccepted() && l.evicted == []
    requires Shorter(l.seen, length) && Shorter(l.recent.Keys, length) && Lengthening(vs, length)
    ensures Went(l.budget, ConsiderAll(l, vs, p), vs, length, p.now)
  {
    if vs != [] {
      var (front, v) := (vs[..|vs| - 1], vs[|vs| - 1]);
      FrontAndLast(vs);
      AcceptAll(l, front, length, p);
      AcceptOneMore(l, front, v, length, p);
    }
  }

  lemma CollectOne(vs: seq<EvictionModel.Verdict>)
    ensures Collect([Some(vs)]) == vs
  {
    assert [Some(vs)][..0] == [] && Collect([Some(vs)][..0]) == [];
    assert Collect([Some(vs)]) == [] + vs == vs;
  }

  lemma EagerPassEvicts(st: State, now: Time, most: nat, vs: seq<EvictionModel.Verdict>, length: int)
    requires Sound(st.budget) && st.budget.window == MINUTE && now > 0 && vs != []
    requires |vs| as real <= Refill(ConfigureBucket(st.budget, most, MINUTE), now).tokens
    requires Shorter(st.recent.Keys, length) && 0 <= length && Lengthening(vs, length)
    ensures var (st', report) := RunPass(st, EagerPass(now, most, vs));
            && report.evicted == vs
            && st'.budget == AfterOps(ConfigureBucket(st.budget, most, MINUTE), Attempts(now, |vs|))
            && Shorter(st'.recent.Keys, length + |vs|)
  {
    var p := EagerPass(now, most, vs);
    CollectOne(vs);
    AcceptAll(StartLoop(st.budget, st.recent, p), vs, length, p);
  }

  // ----- one too many -----

  /** What one pass drains at the start of a span, and a second pass finds at its end. */
  function TwoPasses(most: nat, from: Time, span: nat): seq<Pass> {
    [EagerPass(from, most, Spares(0, most)), EagerPass(from + span, most, Spares(most, 1))]
  }

  lemma CountTwo(st: State, a: Pass, b: Pass)
    ensures Evictions(st, [a, b]) == |RunPass(st, a).1.evicted| + |RunPass(RunPass(st, a).0, b).1.evicted|
  {
    assert [a, b][..1] == [a] && [a][..0] == [];
    assert Evictions(st, [a]) == Evictions(st, []) + |EvictedAt(st, [a], 0)|;
    assert Evictions(st, [a, b]) == Evictions(st, [a]) + |EvictedAt(st, [a, b], 1)|;
    assert After(st, [a]) == RunPass(After(st, []), a).0;
  }

  /** The first pass drains a full bucket. */
  lemma DrainingPass(st: State, most: nat, from: Time)
    requires most > 0 && from > 0 && st.recent == map[]
    requires st.budget.window == MINUTE && st.budget.capacity == most
    requires st.budget.tokens == most as real && st.budget.last in {0, from}
    ensures var (mid, report) := RunPass(st, EagerPass(from, most, Spares(0, most)));
            && |report.evicted| == most && Shorter(mid.recent.Keys, 3 + most)
            && mid.budget == Bucket(most, 0.0, MINUTE, from)
  {
    SparesLengthen(0, most);
    FullBucket(st.budget, most, from);
    EagerPassEvicts(st, from, most, Spares(0, most), 3);
  }

  lemma FullBucket(b: Bucket, most: nat, from: Time)
    requires most > 0 && from > 0 && b.window == MINUTE && b.capacity == most
    requires b.tokens == most as real && b.last in {0, from}
    ensures Sound(b) && ConfigureBucket(b, most, MINUTE) == b && Refill(b, from).tokens == most as real
    ensures AfterOps(ConfigureBucket(b, most, MINUTE), Attempts(from, most)) == Bucket(most, 0.0, MINUTE, from)
  {
    Drain(b, from, most);
  }

  /** The second pass finds one token earned. */
  lemma LatePass(mid: State, most: nat, from: Time, span: nat)
    requires from > 0 && most * span >= MINUTE
    requires mid.budget == Bucket(most, 0.0, MINUTE, from) && Shorter(mid.recent.Keys, 3 + most)
    ensures |RunPass(mid, EagerPass(from + span, most, Spares(most, 1))).1.evicted| == 1
  {
    SparesLengthen(most, 1);
    LastOne(most, MINUTE, from, span);
    assert ConfigureBucket(mid.budget, most, MINUTE) == mid.budget;
    EagerPassEvicts(mid, from + span, most, Spares(most, 1), 3 + most);
  }

  lemma OneEvictionTooMany(st: State, most: nat, from: Time, span: nat)
    requires most > 0 && from > 0 && most * span >= MINUTE && st.recent == map[]
    requires st.budget.window == MINUTE && st.budget.capacity == most
    requires st.budget.tokens == most as real && st.budget.last in {0, from}
    ensures Evictions(st, TwoPasses(most, from, span)) == most + 1
  {
    var (a, b) := (EagerPass(from, most, Spares(0, most)), EagerPass(from + span, most, Spares(most, 1)));
    DrainingPass(st, most, from);
    LatePass(RunPass(st, a).0, most, from, span);
    CountTwo(st, a, b);
  }

  // ----- the exact condition -----

  /** A manager, and passes within a span under policies that never allow more than a cap. */
  ghost predicate PassesWithin(st: State, ps: seq<Pass>, most: nat, from: Time, span: nat) {
    && st.budget.window == MINUTE && Sound(st.budget)
    && forall i :: 0 <= i < |ps| ==> ps[i].policy.maxEvictionsPerMinute <= most && from <= ps[i].now <= from + span
  }

  /** Evictions are limited like a sliding count, at most the cap in any span of one length,
      exactly when the cap cannot earn a whole token over that length. */
  lemma SlidingEvictions(most: nat, from: Time, span: nat)
    requires from > 0
    ensures (forall st, ps :: PassesWithin(st, ps, most, from, span) ==> Evictions(st, ps) <= most) <==>
            most * span < MINUTE
  {
    EarnedBelowOne(most, span, MINUTE);
    if most * span < MINUTE {
      forall st, ps | PassesWithin(st, ps, most, from, span) ensures Evictions(st, ps) <= most {
        EvictionsBounded(st, ps, most, from, span);
      }
    } else {
      var st := State(Bucket(most, most as real, MINUTE, from), 0, map[]);
      SomeCap(most, span);
      OneEvictionTooMany(st, most, from, span);
      assert PassesWithin(st, TwoPasses(most, from, span), most, from, span);
    }
  }

  lemma SomeCap(most: nat, span: nat)
    requires most * span >= MINUTE
    ensures most > 0
  {
  }

  /** A new manager under its default of three a minute evicts four pods within twenty seconds. */
  lemma FourEvictionsWithinTwentySeconds(from: Time)
    requires from > 0
    ensures Evictions(NEW_STATE, TwoPasses(3, from, 20 * SECOND)) == 4
  {
    OneEvictionTooMany(NEW_STATE, 3, from, 20 * SECOND);
  }
}
