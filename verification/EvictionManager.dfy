/** The eviction manager: it runs the plugins' verdicts through every guard, in place. */
module EvictionManager {
  import opened Numbers
  import opened Tiers
  import opened EvictionModel
  import TB = TokenBucket

  class Manager {
    const budget: TB.TokenBucket
    var breachedSince: Time
    var recentlyEvicted: map<string, Time>

    ghost predicate Valid()
      reads this, budget
    {
      budget.window > 0
    }

    ghost function Value(): State
      reads this, budget
    {
      State(budget.Value(), breachedSince, recentlyEvicted)
    }

    constructor ()
      ensures Valid() && fresh(budget)
      ensures Value() == NEW_STATE
    {
      budget := new TB.TokenBucket(3, MINUTE);
      breachedSince, recentlyEvicted := 0, map[];
    }

    /** Evaluates one pass and executes the verdicts that survive. */
    method Run(p: Pass) returns (res: Report)
      requires Valid()
      modifies this, budget
      ensures Valid()
      ensures (Value(), res) == RunPass(old(Value()), p)
    {
      if !p.policy.enabled {
        return Report(0, [], map[]);
      }
      if p.degraded {
        return Report(0, [], map["degraded-sample" := 1]);
      }
      TrackBreach(p.level, p.now);

      var verdicts := Gather(p.answers);
      if |verdicts| == 0 {
        return Report(0, [], map[]);
      }
      var wait := p.policy.stabilisationSeconds * SECOND;
      if wait > 0 {
        if breachedSince == 0 || p.now - breachedSince < wait {
          return Report(|verdicts|, [], map["stabilising" := |verdicts|]);
        }
      }
      budget.Configure(p.policy.maxEvictionsPerMinute, MINUTE);
      var evicted, suppressed := Execute(verdicts, p);
      GCRecent(p.now);
      res := Report(|verdicts|, evicted, suppressed);
    }

    /** Starts, keeps or clears the stabilisation clock. */
    method TrackBreach(level: PressureLevel, now: Time)
      modifies this`breachedSince
      ensures breachedSince == EvictionModel.TrackBreach(old(breachedSince), level, now)
    {
      if level == NoPressure {
        breachedSince := 0;
        return;
      }
      if breachedSince == 0 {
        breachedSince := now;
      }
    }

    /** Every verdict of every plugin that did not fail. */
    static method Gather(answers: seq<Option<seq<Verdict>>>) returns (verdicts: seq<Verdict>)
      ensures verdicts == Collect(answers)
    {
      verdicts := [];
      for i := 0 to |answers|
        invariant verdicts == Collect(answers[..i])
      {
        assert answers[..i + 1][..i] == answers[..i];
        if answers[i].None? {
          continue;
        }
        verdicts := verdicts + answers[i].value;
      }
      assert answers[..|answers|] == answers;
    }

    ghost function LoopValue(seen: set<string>, evicted: seq<Verdict>, suppressed: map<string, nat>,
                             stopped: bool): Loop
      reads this, budget
    {
      Loop(budget.Value(), recentlyEvicted, seen, evicted, suppressed, stopped)
    }

    /** The loop over verdicts, up to the first one the rate limit stops. */
    method Execute(verdicts: seq<Verdict>, p: Pass) returns (evicted: seq<Verdict>, suppressed: map<string, nat>)
      requires Valid()
      modifies this`recentlyEvicted, budget
      ensures Valid()
      ensures var l := ConsiderAll(old(LoopValue({}, [], map[], false)), verdicts, p);
              budget.Value() == l.budget && recentlyEvicted == l.recent && evicted == l.evicted
              && suppressed == l.suppressed
    {
      evicted, suppressed := [], map[];
      var seen: set<string> := {};
      ghost var start := LoopValue({}, [], map[], false);
      for i := 0 to |verdicts|
        invariant Valid()
        invariant ConsiderAll(start, verdicts[..i], p) == LoopValue(seen, evicted, suppressed, false)
      {
        assert verdicts[..i + 1][..i] == verdicts[..i];
        var v := verdicts[i];
        var key := Key(v.pod);
        if key in seen {
          continue;
        }
        seen := seen + {key};
        var cause := Veto(recentlyEvicted, v.pod, p.now);
        if cause != "" {
          suppressed := Bump(suppressed, cause);
          continue;
        }
        var ok := budget.Take(p.now);
        if !ok {
          suppressed := Bump(suppressed, "rate-limited");
          StoppedStays(start, verdicts, i + 1, p);
          return;
        }
        if p.policy.dryRun {
          suppressed := Bump(suppressed, "dry-run");
          continue;
        }
        var outcome := p.api(key);
        if outcome != Accepted {
          var why := "api-error";
          if outcome == TooManyRequests {
            why := "disruption-budget";
          }
          suppressed := Bump(suppressed, why);
          continue;
        }
        recentlyEvicted := recentlyEvicted[key := p.now];
        evicted := evicted + [v];
      }
      assert verdicts[..|verdicts|] == verdicts;
    }

    /** Drops the entries that are too old to matter. */
    method GCRecent(now: Time)
      modifies this`recentlyEvicted
      ensures recentlyEvicted == Trim(old(recentlyEvicted), now)
    {
      ghost var was := recentlyEvicted;
      var todo := recentlyEvicted.Keys;
      while todo != {}
        invariant todo <= was.Keys
        invariant recentlyEvicted == map k | k in was && (k in todo || now - was[k] <= 10 * MINUTE) :: was[k]
        decreases |todo|
      {
        assert (exists k :: k in todo) || todo == {};
        var k :| k in todo;
        if now - recentlyEvicted[k] > 10 * MINUTE {
          recentlyEvicted := recentlyEvicted - {k};
        }
        todo := todo - {k};
      }
    }
  }

  lemma ConsiderStopped(l: Loop, v: Verdict, p: Pass)
    requires l.budget.window > 0 && l.stopped
    ensures Consider(l, v, p) == l
  {
  }

  lemma {:induction false} StoppedStays(start: Loop, vs: seq<Verdict>, n: nat, p: Pass)
    requires start.budget.window > 0 && n <= |vs| && ConsiderAll(start, vs[..n], p).stopped
    ensures ConsiderAll(start, vs, p) == ConsiderAll(start, vs[..n], p)
    decreases |vs|
  {
    if n < |vs| {
      var m := |vs| - 1;
      assert vs[..m][..n] == vs[..n];
      StoppedStays(start, vs[..m], n, p);
      ConsiderStopped(ConsiderAll(start, vs[..m], p), vs[m], p);
    } else {
      assert vs[..n] == vs;
    }
  }
}
