/** Exactly whom a pass evicts: every pod that may be, in order, while the budget has tokens. */
module EvictionExact {
  import opened Numbers
  import opened Tiers
  import opened Pods
  import opened TokenBucket
  import opened EvictionModel
  import opened EvictionRate

  // ----- the rules -----

  /** An eviction of the same pod was accepted less than two minutes ago. */
  predicate JustEvicted(recent: map<string, Time>, key: string, now: Time) {
    key in recent && now - recent[key] < 120_000_000_000
  }

  /** A pod is spared exactly when it is of the system tier, mirrored from a file, on its way out,
      finished, of system-critical priority, or was evicted just before. */
  lemma {:induction false} VetoExactly(recent: map<string, Time>, pod: Pod, now: Time)
    ensures Veto(recent, pod, now) == "" <==> Disposable(pod) && !JustEvicted(recent, Key(pod), now)
    ensures Disposable(pod) <==>
            && LevelOf(pod) != SystemCores && "kubernetes.io/config.mirror" !in pod.annotations
            && !pod.terminating && pod.phase != "Succeeded" && pod.phase != "Failed"
            && (pod.priority.Some? ==> pod.priority.value < 2_000_000_000)
  {
  }

  // ----- who stands to be evicted -----

  /** The verdicts that name a pod for the first time in the pass, and one that no rule spares. */
  ghost function Eligible(vs: seq<EvictionModel.Verdict>, recent: map<string, Time>,
                          now: Time): seq<EvictionModel.Verdict> {
    if vs == [] then []
    else
      var (front, v) := (vs[..|vs| - 1], vs[|vs| - 1]);
      Eligible(front, recent, now) + if MayEvict(v, front, recent, now) then [v] else []
  }

  /** This verdict's pod was not named by those before it, and no rule spares it. */
  ghost predicate MayEvict(v: EvictionModel.Verdict, before: seq<EvictionModel.Verdict>, recent: map<string, Time>,
                           now: Time) {
    Key(v.pod) !in Keys(before) && Disposable(v.pod) && !JustEvicted(recent, Key(v.pod), now)
  }

  /** The eviction is asked for, which a dry run does not, and accepted. */
  predicate Goes(v: EvictionModel.Verdict, p: Pass) {
    !p.policy.dryRun && p.api(Key(v.pod)) == Accepted
  }

  function GoneOf(vs: seq<EvictionModel.Verdict>, p: Pass): seq<EvictionModel.Verdict> {
    if vs == [] then []
    else GoneOf(vs[..|vs| - 1], p) + if Goes(vs[|vs| - 1], p) then [vs[|vs| - 1]] else []
  }

  /** The first so many of a list, or all of it. */
  function FirstN<T>(s: seq<T>, n: nat): seq<T> {
    if n <= |s| then s[..n] else s
  }

  /** How many whole tokens there are. */
  function Whole(tokens: real): nat {
    if tokens < 0.0 then 0 else tokens.Floor
  }

  // ----- the loop -----

  /** Where the loop stands when it has been through some verdicts: so many of the eligible ones were
      tried, as many as there are tokens at most, and it stopped if there were more. */
  ghost predicate Stands(start: Loop, l: Loop, vs: seq<EvictionModel.Verdict>, p: Pass, tokens: nat)
    requires start.budget.window > 0
  {
    var eligible := Eligible(vs, start.recent, p.now);
    && l.stopped == (|eligible| > tokens)
    && l.evicted == GoneOf(FirstN(eligible, tokens), p)
    && (!l.stopped ==>
          && l.seen == Keys(vs) && l.budget == AfterOps(start.budget, Attempts(p.now, |eligible|))
          && l.recent == Stamped(start.recent, Keys(l.evicted), p.now) && Keys(l.evicted) <= l.seen)
  }

  /** Whether a token is left after some attempts at one moment. */
  lemma {:induction false} TokenLeft(b: Bucket, now: Time, n: nat)
    requires Sound(b) && now > 0 && n <= Whole(Refill(b, now).tokens)
    ensures var mid := AfterOps(b, Attempts(now, n));
            Takes(mid, now) <==> n < Whole(Refill(b, now).tokens)
    ensures n < Whole(Refill(b, now).tokens) ==>
              TakeBucket(AfterOps(b, Attempts(now, n)), now) == AfterOps(b, Attempts(now, n + 1))
  {
    RefillLaw(b, now, b.capacity);
    Drain(b, now, n);
    if n < Whole(Refill(b, now).tokens) {
      StillTakes(b, now, n);
    }
  }

  lemma {:induction false} EligibleSnoc(vs: seq<EvictionModel.Verdict>, recent: map<string, Time>, now: Time)
    requires vs != []
    ensures var (front, v) := (vs[..|vs| - 1], vs[|vs| - 1]);
            Eligible(vs, recent, now) ==
            Eligible(front, recent, now) + if MayEvict(v, front, recent, now) then [v] else []
  {
  }

  /** What a pod's key was stamped with in this pass does not matter before it is seen. */
  lemma {:induction false} SameVeto(before: map<string, Time>, l: Loop, v: EvictionModel.Verdict, now: Time)
    requires l.recent == Stamped(before, Keys(l.evicted), now) && Keys(l.evicted) <= l.seen && Key(v.pod) !in l.seen
    ensures Veto(l.recent, v.pod, now) == "" <==> Disposable(v.pod) && !JustEvicted(before, Key(v.pod), now)
  {
    VetoExactly(l.recent, v.pod, now);
    assert Key(v.pod) in l.recent <==> Key(v.pod) in before;
  }

  lemma {:induction false} KeysSnoc(vs: seq<EvictionModel.Verdict>, v: EvictionModel.Verdict)
    ensures Keys(vs + [v]) == Keys(vs) + {Key(v.pod)}
  {
    assert (vs + [v])[..|vs|] == vs;
  }

  lemma {:induction false} GoneSnoc(vs: seq<EvictionModel.Verdict>, v: EvictionModel.Verdict, p: Pass)
    ensures GoneOf(vs + [v], p) == GoneOf(vs, p) + if Goes(v, p) then [v] else []
  {
    assert (vs + [v])[..|vs|] == vs;
  }

  /** The loop tried one more pod. */
  ghost predicate Tried(l: Loop, r: Loop, v: EvictionModel.Verdict, p: Pass)
    requires l.budget.window > 0
  {
    && !r.stopped && r.budget == TakeBucket(l.budget, p.now) && r.seen == l.seen + {Key(v.pod)}
    && r.evicted == (if Goes(v, p) then l.evicted + [v] else l.evicted)
    && r.recent == if Goes(v, p) then l.recent[Key(v.pod) := p.now] else l.recent
  }

  lemma {:induction false} ConsiderTries(l: Loop, v: EvictionModel.Verdict, p: Pass)
    requires l.budget.window > 0 && !l.stopped && Key(v.pod) !in l.seen
    requires Veto(l.recent, v.pod, p.now) == "" && Takes(l.budget, p.now)
    ensures Tried(l, Consider(l, v, p), v, p)
  {
  }

  /** Having tried one more, the loop stands as it should. */
  lemma {:induction false} TriedStands(start: Loop, l: Loop, r: Loop, vs: seq<EvictionModel.Verdict>,
                                       v: EvictionModel.Verdict, p: Pass, tokens: nat)
    requires start.budget.window > 0 && l.budget.window > 0 && Stands(start, l, vs, p, tokens) && !l.stopped
    requires Tried(l, r, v, p)
    requires var eligible := Eligible(vs, start.recent, p.now);
             && Eligible(vs + [v], start.recent, p.now) == eligible + [v] && |eligible| < tokens
             && TakeBucket(l.budget, p.now) == AfterOps(start.budget, Attempts(p.now, |eligible| + 1))
    ensures Stands(start, r, vs + [v], p, tokens)
  {
    var eligible := Eligible(vs, start.recent, p.now);
    KeysSnoc(vs, v);
    assert FirstN(eligible, tokens) == eligible && FirstN(eligible + [v], tokens) == eligible + [v];
    GoneSnoc(eligible, v, p);
    KeysSnoc(l.evicted, v);
    StampMore(start.recent, Keys(l.evicted), Key(v.pod), p.now);
  }

  /** One more verdict that no rule spares is tried if there is a token. */
  lemma {:induction false} TryOne(start: Loop, l: Loop, r: Loop, vs: seq<EvictionModel.Verdict>,
                                  v: EvictionModel.Verdict, p: Pass, tokens: nat)
    requires Sound(start.budget) && p.now > 0 && tokens == Whole(Refill(start.budget, p.now).tokens)
    requires l.budget.window > 0 && Stands(start, l, vs, p, tokens) && !l.stopped
    requires Key(v.pod) !in Keys(vs) && Disposable(v.pod) && !JustEvicted(start.recent, Key(v.pod), p.now)
    requires r == Consider(l, v, p) && |Eligible(vs, start.recent, p.now)| < tokens
    ensures Stands(start, r, vs + [v], p, tokens)
  {
    OneMoreEligible(start, vs, v, p);
    SameVeto(start.recent, l, v, p.now);
    NextTakes(start, l, vs, p, tokens);
    ConsiderTries(l, v, p);
    TriedStands(start, l, r, vs, v, p, tokens);
  }

  /** The loop's bucket has a token while fewer were tried than there were. */
  lemma {:induction false} NextTakes(start: Loop, l: Loop, vs: seq<EvictionModel.Verdict>, p: Pass, tokens: nat)
    requires Sound(start.budget) && p.now > 0 && tokens == Whole(Refill(start.budget, p.now).tokens)
    requires l.budget.window > 0 && Stands(start, l, vs, p, tokens) && !l.stopped
    ensures var before := |Eligible(vs, start.recent, p.now)|;
            && (Takes(l.budget, p.now) <==> before < tokens)
            && (before < tokens ==> TakeBucket(l.budget, p.now) == AfterOps(start.budget, Attempts(p.now, before + 1)))
  {
    TokenLeft(start.budget, p.now, |Eligible(vs, start.recent, p.now)|);
  }

  /** And with no token left the loop stops at it. */
  lemma {:induction false} StopAt(start: Loop, l: Loop, r: Loop, vs: seq<EvictionModel.Verdict>,
                                  v: EvictionModel.Verdict, p: Pass, tokens: nat)
    requires Sound(start.budget) && p.now > 0 && tokens == Whole(Refill(start.budget, p.now).tokens)
    requires l.budget.window > 0 && Stands(start, l, vs, p, tokens) && !l.stopped
    requires Key(v.pod) !in Keys(vs) && Disposable(v.pod) && !JustEvicted(start.recent, Key(v.pod), p.now)
    requires r == Consider(l, v, p) && |Eligible(vs, start.recent, p.now)| >= tokens
    ensures Stands(start, r, vs + [v], p, tokens)
  {
    var eligible := Eligible(vs, start.recent, p.now);
    OneMoreEligible(start, vs, v, p);
    SameVeto(start.recent, l, v, p.now);
    TokenLeft(start.budget, p.now, |eligible|);
    assert FirstN(eligible, tokens) == eligible == FirstN(eligible + [v], tokens);
  }

  lemma {:induction false} OneMoreEligible(start: Loop, vs: seq<EvictionModel.Verdict>, v: EvictionModel.Verdict,
                                           p: Pass)
    requires Key(v.pod) !in Keys(vs) && Disposable(v.pod) && !JustEvicted(start.recent, Key(v.pod), p.now)
    ensures Eligible(vs + [v], start.recent, p.now) == Eligible(vs, start.recent, p.now) + [v]
  {
    assert (vs + [v])[..|vs|] == vs;
    EligibleSnoc(vs + [v], start.recent, p.now);
  }

  /** One more verdict that is passed over: named before, or spared. */
  lemma {:induction false} PassOver(start: Loop, l: Loop, r: Loop, vs: seq<EvictionModel.Verdict>,
                                    v: EvictionModel.Verdict, p: Pass, tokens: nat)
    requires start.budget.window > 0 && l.budget.window > 0 && Stands(start, l, vs, p, tokens)
    requires !l.stopped ==>
               Key(v.pod) in Keys(vs) || !Disposable(v.pod) || JustEvicted(start.recent, Key(v.pod), p.now)
    requires r == Consider(l, v, p)
    ensures Stands(start, r, vs + [v], p, tokens)
  {
    var (eligible, all) := (Eligible(vs, start.recent, p.now), vs + [v]);
    assert all[..|all| - 1] == vs;
    EligibleSnoc(all, start.recent, p.now);
    KeysSnoc(vs, v);
    assert eligible + [] == eligible;
    if l.stopped {
      var more := Eligible(all, start.recent, p.now);
      assert FirstN(more, tokens) == FirstN(eligible, tokens);
    } else if Key(v.pod) !in Keys(vs) {
      SameVeto(start.recent, l, v, p.now);
    }
  }

  lemma {:induction false} LoopStands(start: Loop, vs: seq<EvictionModel.Verdict>, p: Pass, tokens: nat)
    requires Sound(start.budget) && p.now > 0 && tokens == Whole(Refill(start.budget, p.now).tokens)
    requires !start.stopped && start.evicted == [] && start.seen == {}
    ensures Stands(start, ConsiderAll(start, vs, p), vs, p, tokens)
  {
    if vs == [] {
      assert Stamped(start.recent, {}, p.now) == start.recent;
      assert AfterOps(start.budget, Attempts(p.now, 0)) == start.budget;
    } else {
      var (front, v) := (vs[..|vs| - 1], vs[|vs| - 1]);
      var l := ConsiderAll(start, front, p);
      LoopStands(start, front, p, tokens);
      assert vs == front + [v];
      if !l.stopped && Key(v.pod) !in Keys(front) && Disposable(v.pod)
         && !JustEvicted(start.recent, Key(v.pod), p.now) {
        if |Eligible(front, start.recent, p.now)| < tokens {
          TryOne(start, l, ConsiderAll(start, vs, p), front, v, p, tokens);
        } else {
          StopAt(start, l, ConsiderAll(start, vs, p), front, v, p, tokens);
        }
      } else {
        PassOver(start, l, ConsiderAll(start, vs, p), front, v, p, tokens);
      }
    }
  }

  // ----- what becomes of everybody else -----

  /** The first rule that spares a pod, or "". */
  ghost function SparedBy(recent: map<string, Time>, pod: Pod, now: Time): string {
    if LevelOf(pod) == SystemCores then "system-tier"
    else if "kubernetes.io/config.mirror" in pod.annotations then "mirror-pod"
    else if pod.terminating then "already-terminating"
    else if pod.phase == "Succeeded" || pod.phase == "Failed" then "already-terminal"
    else if pod.priority.Some? && pod.priority.value >= 2_000_000_000 then "system-critical-priority"
    else if JustEvicted(recent, Key(pod), now) then "recently-evicted"
    else ""
  }

  /** What becomes of a verdict that is considered, when so many eligible ones were before it: spared
      by a rule, one too many for the budget, only said, refused, or "" when the pod is evicted. */
  ghost function FateOf(v: EvictionModel.Verdict, recent: map<string, Time>, p: Pass, before: nat,
                        tokens: nat): string {
    var rule := SparedBy(recent, v.pod, p.now);
    if rule != "" then rule
    else if before >= tokens then "rate-limited"
    else if p.policy.dryRun then "dry-run"
    else
      match p.api(Key(v.pod))
      case Accepted => ""
      case TooManyRequests => "disruption-budget"
      case Failed => "api-error"
  }

  /** The fates of the verdicts considered: those that name a pod for the first time, up to the one
      that is too many. */
  ghost function Fates(vs: seq<EvictionModel.Verdict>, recent: map<string, Time>, p: Pass, tokens: nat): seq<string> {
    if vs == [] then []
    else
      var (front, v) := (vs[..|vs| - 1], vs[|vs| - 1]);
      var before := |Eligible(front, recent, p.now)|;
      Fates(front, recent, p, tokens)
        + if before > tokens || Key(v.pod) in Keys(front) then [] else [FateOf(v, recent, p, before, tokens)]
  }

  /** Every fate but being evicted is tallied. */
  ghost predicate Tallied(suppressed: map<string, nat>, fates: seq<string>) {
    forall c :: c != "" ==>
      && (c in suppressed <==> c in multiset(fates))
      && (c in suppressed ==> suppressed[c] == multiset(fates)[c])
  }

  lemma {:induction false} TallyOne(suppressed: map<string, nat>, fates: seq<string>, fate: string)
    requires Tallied(suppressed, fates)
    ensures Tallied(if fate == "" then suppressed else Bump(suppressed, fate), fates + [fate])
  {
    var more := if fate == "" then suppressed else Bump(suppressed, fate);
    forall c | c != ""
      ensures c in more <==> c in multiset(fates + [fate])
      ensures c in more ==> more[c] == multiset(fates + [fate])[c]
    {
      assert c in suppressed <==> c in multiset(fates);
    }
  }

  lemma {:induction false} SparedByVeto(before: map<string, Time>, l: Loop, v: EvictionModel.Verdict, now: Time)
    requires l.recent == Stamped(before, Keys(l.evicted), now) && Keys(l.evicted) <= l.seen && Key(v.pod) !in l.seen
    ensures Veto(l.recent, v.pod, now) == SparedBy(before, v.pod, now)
    ensures SparedBy(before, v.pod, now) == "" <==> Disposable(v.pod) && !JustEvicted(before, Key(v.pod), now)
  {
    assert Key(v.pod) in l.recent <==> Key(v.pod) in before;
  }

  lemma {:induction false} ConsiderSuppresses(l: Loop, v: EvictionModel.Verdict, p: Pass, rule: string, takes: bool)
    requires l.budget.window > 0 && !l.stopped && Key(v.pod) !in l.seen
    requires rule == Veto(l.recent, v.pod, p.now) && (takes <==> Takes(l.budget, p.now))
    ensures Consider(l, v, p).suppressed ==
            if rule != "" then Bump(l.suppressed, rule)
            else if !takes then Bump(l.suppressed, "rate-limited")
            else if p.policy.dryRun then Bump(l.suppressed, "dry-run")
            else if p.api(Key(v.pod)) == TooManyRequests then Bump(l.suppressed, "disruption-budget")
            else if p.api(Key(v.pod)) == Failed then Bump(l.suppressed, "api-error")
            else l.suppressed
  {
  }

  /** One verdict considered is counted under its fate. */
  lemma {:induction false} ConsideredFate(start: Loop, l: Loop, vs: seq<EvictionModel.Verdict>,
                                          v: EvictionModel.Verdict, p: Pass, tokens: nat)
    requires Sound(start.budget) && p.now > 0 && tokens == Whole(Refill(start.budget, p.now).tokens)
    requires l.budget.window > 0 && Stands(start, l, vs, p, tokens) && !l.stopped && Key(v.pod) !in Keys(vs)
    ensures var fate := FateOf(v, start.recent, p, |Eligible(vs, start.recent, p.now)|, tokens);
            Consider(l, v, p).suppressed == if fate == "" then l.suppressed else Bump(l.suppressed, fate)
  {
    var before := |Eligible(vs, start.recent, p.now)|;
    SparedByVeto(start.recent, l, v, p.now);
    TokenLeft(start.budget, p.now, before);
    ConsiderSuppresses(l, v, p, SparedBy(start.recent, v.pod, p.now), before < tokens);
  }

  lemma {:induction false} LoopTallies(start: Loop, vs: seq<EvictionModel.Verdict>, p: Pass, tokens: nat)
    requires Sound(start.budget) && p.now > 0 && tokens == Whole(Refill(start.budget, p.now).tokens)
    requires !start.stopped && start.evicted == [] && start.seen == {} && start.suppressed == map[]
    ensures Tallied(ConsiderAll(start, vs, p).suppressed, Fates(vs, start.recent, p, tokens))
  {
    if vs != [] {
      var (front, v) := (vs[..|vs| - 1], vs[|vs| - 1]);
      var l := ConsiderAll(start, front, p);
      var fates := Fates(front, start.recent, p, tokens);
      LoopTallies(start, front, p, tokens);
      LoopStands(start, front, p, tokens);
      assert fates + [] == fates;
      if !l.stopped && Key(v.pod) !in Keys(front) {
        ConsideredFate(start, l, front, v, p, tokens);
        TallyOne(l.suppressed, fates, FateOf(v, start.recent, p, |Eligible(front, start.recent, p.now)|, tokens));
      }
    }
  }

  // ----- a whole pass -----

  /** The tokens a pass starts with: the budget of its policy, topped up for the time gone by. */
  function TokensFor(st: State, p: Pass): nat
    requires st.budget.window > 0
  {
    Whole(Refill(ConfigureBucket(st.budget, p.policy.maxEvictionsPerMinute, MINUTE), p.now).tokens)
  }

  /** A pass that is enabled, has a proper sample and does not wait evicts exactly those of the first
      eligible verdicts, as many as there are tokens, that the API accepts, or none in a dry run. */
  lemma {:induction false} EvictsExactly(st: State, p: Pass)
    requires Sound(st.budget) && p.now > 0 && Active(p)
    requires !Stabilising(TrackBreach(st.breachedSince, p.level, p.now), p)
    ensures RunPass(st, p).1.evicted ==
            GoneOf(FirstN(Eligible(Collect(p.answers), st.recent, p.now), TokensFor(st, p)), p)
  {
    var (l, vs) := (StartLoop(st.budget, st.recent, p), Collect(p.answers));
    LoopStands(l, vs, p, TokensFor(st, p));
  }

  /** What such a pass reports as suppressed, by cause, are the fates of all it considered. */
  lemma {:induction false} SuppressedExactly(st: State, p: Pass)
    requires Sound(st.budget) && p.now > 0 && Active(p)
    requires !Stabilising(TrackBreach(st.breachedSince, p.level, p.now), p)
    ensures Tallied(RunPass(st, p).1.suppressed, Fates(Collect(p.answers), st.recent, p, TokensFor(st, p)))
  {
    LoopTallies(StartLoop(st.budget, st.recent, p), Collect(p.answers), p, TokensFor(st, p));
  }

  /** Any other pass suppresses everything at once, or has nothing to suppress. */
  lemma {:induction false} SuppressedOtherwise(st: State, p: Pass)
    requires st.budget.window > 0
    requires !Active(p) || Stabilising(TrackBreach(st.breachedSince, p.level, p.now), p)
    ensures RunPass(st, p).1.suppressed ==
            if !p.policy.enabled then map[]
            else if p.degraded then map["degraded-sample" := 1]
            else if Collect(p.answers) == [] then map[]
            else map["stabilising" := |Collect(p.answers)|]
  {
  }

  /** The pass waits exactly when the policy asks it to, and there is no pressure, or was none at the
      last pass, or it was first seen less than that long ago. */
  lemma {:induction false} WaitsExactly(st: State, p: Pass)
    ensures Stabilising(TrackBreach(st.breachedSince, p.level, p.now), p) <==>
            && p.policy.stabilisationSeconds > 0
            && (|| p.level == NoPressure || st.breachedSince == 0
                || p.now - st.breachedSince < p.policy.stabilisationSeconds * 1_000_000_000)
  {
  }

  /** All verdicts of all plugins that answered, in order. */
  lemma {:induction false} CollectLaw(answers: seq<Option<seq<EvictionModel.Verdict>>>,
                                      more: seq<Option<seq<EvictionModel.Verdict>>>)
    ensures Collect(answers + more) == Collect(answers) + Collect(more)
    ensures forall vs :: Collect([Some(vs)]) == vs
    ensures Collect([None]) == []
  {
    forall vs ensures Collect([Some(vs)]) == vs {
      CollectOne(vs);
    }
    NoneCollected();
    if more == [] {
      assert answers + more == answers;
    } else {
      var n := |more| - 1;
      CollectLaw(answers, more[..n]);
      assert (answers + more)[..|answers + more| - 1] == answers + more[..n];
    }
  }

  lemma {:induction false} NoneCollected()
    ensures Collect([None]) == []
  {
    var answers: seq<Option<seq<EvictionModel.Verdict>>> := [None];
    assert answers[..0] == [];
  }

  /** Moderate pressure starts the clock: a pass under it, though no threshold is reached, makes one
      that comes after the wait evict. */
  lemma {:induction false} ModerateStartsClock(p: Pass, q: Pass)
    requires Active(p) && p.level == Moderate && p.now > 0 && p.policy.stabilisationSeconds == 30
    requires Active(q) && q.level == Critical && q.now == p.now + 30_000_000_000 && q.policy == p.policy
    ensures Stabilising(TrackBreach(0, p.level, p.now), p)
    ensures !Stabilising(TrackBreach(After(NEW_STATE, [p]).breachedSince, q.level, q.now), q)
  {
    assert [p][..0] == [];
  }
}
