/** What each statistic of a window is, told by counting and by weighing the observations. */
module WindowStatistics {
  import opened Numbers
  import opened SampleWindow
  import O = OrderStats

  // ----- percentiles -----

  /** The rank is the least whole number that covers p hundredths of n. */
  lemma RankLaw(p: int, n: nat)
    requires n > 0 && 0 < p <= 100
    ensures 100 * (O.Rank(p, n) - 1) < p * n <= 100 * O.Rank(p, n)
  {
    O.ScaleByCount(1, p, n);
    O.ScaleByCount(p, 100, n);
    CeilLaw(p * n, n);
  }

  lemma CeilLaw(m: int, n: nat)
    requires 0 < n <= m <= 100 * n
    ensures var c := O.CeilHundredths(m); 1 <= c <= n && 100 * (c - 1) < m <= 100 * c
  {
  }

  ghost predicate IsPercentile(vals: seq<real>, p: int, v: real) {
    v in vals && 100 * O.CountLt(vals, v) < p * |vals| <= 100 * O.CountLe(vals, v)
  }

  /** The p-th percentile is the one observation below which lie fewer than p hundredths of them,
      and at or below which lie at least p hundredths. */
  lemma {:induction false} PercentileLaw(vals: seq<real>, p: int, v: real)
    requires vals != [] && 0 < p <= 100
    ensures v == O.Percentile(vals, p) <==> IsPercentile(vals, p, v)
  {
    O.PercentileCharacterised(vals, p, v);
    RankLaw(p, |vals|);
  }

  // ----- thresholds -----

  /** How many values a predicate holds of. */
  function Count(vals: seq<real>, holds: real -> bool): nat {
    if vals == [] then 0
    else Count(vals[..|vals| - 1], holds) + if holds(vals[|vals| - 1]) then 1 else 0
  }

  /** Whatever is above a value that is over is over too. */
  ghost predicate Rising(over: real -> bool) {
    forall x: real, y: real :: x <= y && over(x) ==> over(y)
  }

  lemma {:induction false} CountLtSnoc(s: seq<real>, y: real, x: real)
    ensures O.CountLt(s + [y], x) == O.CountLt(s, x) + if y < x then 1 else 0
    ensures O.CountLe(s + [y], x) == O.CountLe(s, x) + if y <= x then 1 else 0
  {
    if s == [] {
      assert s + [y] == [y] && [y][1..] == [];
    } else {
      CountLtSnoc(s[1..], y, x);
      assert (s + [y])[1..] == s[1..] + [y];
    }
  }

  /** Values that are not over number no more than those below one that is, and no fewer than
      those at or below one that is not. */
  lemma {:induction false} CountBelow(vals: seq<real>, over: real -> bool, v: real)
    requires Rising(over)
    ensures over(v) ==> Count(vals, x => !over(x)) <= O.CountLt(vals, v)
    ensures !over(v) ==> Count(vals, x => !over(x)) >= O.CountLe(vals, v)
  {
    if vals != [] {
      var n := |vals| - 1;
      CountBelow(vals[..n], over, v);
      assert vals == vals[..n] + [vals[n]];
      CountLtSnoc(vals[..n], vals[n], v);
    }
  }

  /** The p-th percentile is over exactly when fewer than p hundredths of the values are not. */
  lemma PercentileOver(vals: seq<real>, p: int, over: real -> bool)
    requires vals != [] && 0 < p <= 100 && Rising(over)
    ensures over(O.Percentile(vals, p)) <==> 100 * Count(vals, x => !over(x)) < p * |vals|
  {
    var v := O.Percentile(vals, p);
    PercentileLaw(vals, p, v);
    CountBelow(vals, over, v);
  }

  /** The maximum is over exactly when some value is. */
  lemma MaxOver(vals: seq<real>, over: real -> bool)
    requires vals != [] && Rising(over)
    ensures over(O.Max(vals)) <==> exists i :: 0 <= i < |vals| && over(vals[i])
  {
    O.MaxIsGreatest(vals);
  }

  // ----- the moving average -----

  /** What a value counts for that has i values before it and n - 1 - i after it: the smoothing
      factor, and for the first what is left, shrunk once for every later value. */
  function Weight(a: real, n: nat, i: nat): real
    requires i < n
  {
    (if i == 0 then 1.0 else a) * Pow(1.0 - a, n - 1 - i)
  }

  function Weighted(a: real, vals: seq<real>): seq<real> {
    seq(|vals|, i requires 0 <= i < |vals| => Times(Weight(a, |vals|, i), vals[i]))
  }

  function Times(f: real, x: real): real {
    f * x
  }

  function ScaledBy(f: real, vals: seq<real>): seq<real> {
    seq(|vals|, i requires 0 <= i < |vals| => Times(f, vals[i]))
  }

  lemma {:induction false} SumScaled(f: real, vals: seq<real>)
    ensures O.Sum(ScaledBy(f, vals)) == Times(f, O.Sum(vals))
  {
    if vals != [] {
      var n := |vals| - 1;
      SumScaled(f, vals[..n]);
      assert ScaledBy(f, vals)[..n] == ScaledBy(f, vals[..n]);
      TimesAdds(f, O.Sum(vals[..n]), vals[n]);
    }
  }

  lemma TimesAdds(f: real, x: real, y: real)
    ensures Times(f, x + y) == Times(f, x) + Times(f, y)
  {
  }

  lemma WeightShrinks(a: real, n: nat, i: nat, v: real)
    requires i < n
    ensures Times(Weight(a, n + 1, i), v) == Times(1.0 - a, Times(Weight(a, n, i), v))
  {
    var (w, p) := (if i == 0 then 1.0 else a, Pow(1.0 - a, n - 1 - i));
    assert Pow(1.0 - a, n - i) == (1.0 - a) * p;
    Reorder(w, 1.0 - a, p, v);
  }

  lemma Reorder(w: real, f: real, p: real, v: real)
    ensures (w * (f * p)) * v == f * ((w * p) * v)
  {
    assert (w * (f * p)) * v == ((w * f) * p) * v == ((f * w) * p) * v;
  }

  /** Each new value shrinks the weights of those before it and enters with the smoothing factor. */
  lemma WeightedSnoc(a: real, vals: seq<real>)
    requires |vals| > 1
    ensures var n := |vals| - 1;
            && Weighted(a, vals)[..n] == ScaledBy(1.0 - a, Weighted(a, vals[..n]))
            && Weighted(a, vals)[n] == Times(a, vals[n])
  {
    var n := |vals| - 1;
    forall i | 0 <= i < n ensures Weighted(a, vals)[i] == ScaledBy(1.0 - a, Weighted(a, vals[..n]))[i] {
      WeightShrinks(a, n, i, vals[i]);
    }
    assert Pow(1.0 - a, 0) == 1.0;
  }

  /** The moving average weighs every value, the later the more. */
  lemma {:induction false} EwmaWeighs(alpha: real, vals: seq<real>)
    requires vals != []
    ensures O.Ewma(alpha, vals) == O.Sum(Weighted(O.EffectiveAlpha(alpha), vals))
  {
    var a := O.EffectiveAlpha(alpha);
    if |vals| == 1 {
      OneWeight(a, vals[0]);
      assert vals == [vals[0]];
    } else {
      var n := |vals| - 1;
      EwmaWeighs(alpha, vals[..n]);
      EwmaStep(a, vals);
    }
  }

  lemma {:induction false} OneWeight(a: real, v: real)
    ensures O.Sum(Weighted(a, [v])) == v
  {
    var w := Weighted(a, [v]);
    assert w[..0] == [] && w[0] == Times(Weight(a, 1, 0), v) && Pow(1.0 - a, 0) == 1.0;
  }

  lemma {:induction false} EwmaStep(a: real, vals: seq<real>)
    requires |vals| > 1
    ensures var n := |vals| - 1;
            O.Sum(Weighted(a, vals)) == O.Mix(a, 1.0 - a, vals[n], O.Sum(Weighted(a, vals[..n])))
  {
    var n := |vals| - 1;
    WeightedSnoc(a, vals);
    SumScaled(1.0 - a, Weighted(a, vals[..n]));
  }

  // ----- what each configured algorithm computes -----

  /** Each name stands for its own statistic, and any other for the 95th percentile. */
  lemma {:induction false} AlgorithmLaw(algorithm: string, alpha: real, vals: seq<real>)
    requires vals != []
    ensures var v := AggregateOf(algorithm, alpha, vals);
            if algorithm == "max" then v in vals && O.CountLe(vals, v) == |vals|
            else if algorithm == "mean" then v * |vals| as real == O.Sum(vals)
            else if algorithm == "ewma" then v == O.Sum(Weighted(if 0.0 < alpha <= 1.0 then alpha else 0.3, vals))
            else IsPercentile(vals, if algorithm == "p99" then 99 else 95, v)
  {
    if algorithm == "max" {
      O.MaxIsGreatest(vals);
      AllAtMost(vals, O.Max(vals));
    } else if algorithm == "mean" {
      MeanTimes(O.Sum(vals), |vals| as real);
    } else if algorithm == "ewma" {
      EwmaWeighs(alpha, vals);
    } else {
      PercentileLaw(vals, 99, O.Percentile(vals, 99));
      PercentileLaw(vals, 95, O.Percentile(vals, 95));
    }
  }

  lemma MeanTimes(sum: real, n: real)
    requires n > 0.0
    ensures sum / n * n == sum
  {
  }

  lemma {:induction false} AllAtMost(vals: seq<real>, v: real)
    requires forall i :: 0 <= i < |vals| ==> vals[i] <= v
    ensures O.CountLe(vals, v) == |vals|
  {
    if vals != [] {
      AllAtMost(vals[1..], v);
    }
  }

  /** A window without live values gives zero, whatever the algorithm. */
  lemma NothingLive(algorithm: string, alpha: real)
    ensures AggregateOf(algorithm, alpha, []) == 0.0
  {
  }
}
