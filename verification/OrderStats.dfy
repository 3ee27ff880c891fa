/**
 Order statistics over a window of observations: sorting, nearest rank, maximum,
 mean and exponential smoothing, and how each of them responds when every
 observation grows.
 */
module OrderStats {
  import opened Numbers

  // ----- sorting -----

  ghost predicate Ascending(s: seq<real>) {
    forall i, j :: 0 <= i < j < |s| ==> s[i] <= s[j]
  }

  function Insert(x: real, s: seq<real>): seq<real> {
    if s == [] || x <= s[0] then [x] + s else [s[0]] + Insert(x, s[1..])
  }

  /** The ascending rearrangement that `sort.Float64s` leaves behind. */
  function Sort(s: seq<real>): seq<real> {
    if s == [] then [] else Insert(s[0], Sort(s[1..]))
  }

  lemma {:induction false} InsertAdds(x: real, s: seq<real>)
    ensures multiset(Insert(x, s)) == multiset(s) + multiset{x}
  {
    if s != [] && x > s[0] {
      InsertAdds(x, s[1..]);
      assert s == [s[0]] + s[1..];
    }
  }

  lemma {:induction false} InsertKeepsOrder(x: real, s: seq<real>)
    requires Ascending(s)
    ensures Ascending(Insert(x, s))
  {
    if s != [] && x > s[0] {
      InsertKeepsOrder(x, s[1..]);
      var t := Insert(x, s[1..]);
      forall i | 0 <= i < |t| ensures s[0] <= t[i] {
        InsertAdds(x, s[1..]);
        assert t[i] in multiset(t);
        assert t[i] == x || t[i] in s[1..];
      }
    }
  }

  lemma {:induction false} SortSorts(s: seq<real>)
    ensures Ascending(Sort(s))
    ensures multiset(Sort(s)) == multiset(s)
    ensures |Sort(s)| == |s|
  {
    if s == [] {
    } else {
      SortSorts(s[1..]);
      InsertKeepsOrder(s[0], Sort(s[1..]));
      InsertAdds(s[0], Sort(s[1..]));
      assert s == [s[0]] + s[1..];
    }
    assert |multiset(Sort(s))| == |multiset(s)|;
  }

  /** There is only one ascending arrangement of a multiset. */
  lemma {:induction false} AscendingUnique(a: seq<real>, b: seq<real>)
    requires Ascending(a) && Ascending(b)
    requires multiset(a) == multiset(b)
    ensures a == b
  {
    assert |a| == |multiset(a)| == |multiset(b)| == |b|;
    if a != [] {
      LeastFirst(a, b);
      LeastFirst(b, a);
      TailMultiset(a);
      TailMultiset(b);
      AscendingUnique(a[1..], b[1..]);
      assert a == [a[0]] + a[1..] && b == [b[0]] + b[1..];
    }
  }

  lemma LeastFirst(a: seq<real>, b: seq<real>)
    requires |a| > 0 && |b| > 0 && Ascending(a) && multiset(a) == multiset(b)
    ensures a[0] <= b[0]
  {
    assert b[0] in multiset(b);
    assert b[0] in multiset(a);
    var i :| 0 <= i < |a| && a[i] == b[0];
  }

  lemma TailMultiset(a: seq<real>)
    requires |a| > 0
    ensures multiset(a[1..]) == multiset(a) - multiset{a[0]}
  {
    assert a == [a[0]] + a[1..];
  }

  // ----- counting -----

  function CountLe(s: seq<real>, x: real): nat {
    if s == [] then 0 else (if s[0] <= x then 1 else 0) + CountLe(s[1..], x)
  }

  function CountLt(s: seq<real>, x: real): nat {
    if s == [] then 0 else (if s[0] < x then 1 else 0) + CountLt(s[1..], x)
  }

  lemma {:induction false} CountInsert(y: real, s: seq<real>, x: real)
    ensures CountLe(Insert(y, s), x) == CountLe(s, x) + if y <= x then 1 else 0
    ensures CountLt(Insert(y, s), x) == CountLt(s, x) + if y < x then 1 else 0
  {
    if s == [] || y <= s[0] {
      assert ([y] + s)[1..] == s;
    } else {
      CountInsert(y, s[1..], x);
      assert ([s[0]] + Insert(y, s[1..]))[1..] == Insert(y, s[1..]);
    }
  }

  lemma {:induction false} CountSort(s: seq<real>, x: real)
    ensures CountLe(Sort(s), x) == CountLe(s, x)
    ensures CountLt(Sort(s), x) == CountLt(s, x)
  {
    if s != [] {
      CountSort(s[1..], x);
      CountInsert(s[0], Sort(s[1..]), x);
    }
  }

  lemma {:induction false} CountBounds(s: seq<real>, x: real)
    ensures CountLt(s, x) <= CountLe(s, x) <= |s|
  {
    if s != [] {
      CountBounds(s[1..], x);
    }
  }

  /** In ascending order, position decides how many values lie at or below a bound. */
  lemma {:induction false} CountAscending(s: seq<real>, x: real, k: nat)
    requires Ascending(s) && k < |s|
    ensures s[k] <= x <==> k < CountLe(s, x)
    ensures s[k] < x <==> k < CountLt(s, x)
  {
    CountBounds(s, x);
    if k > 0 {
      CountAscending(s[1..], x, k - 1);
      assert s[0] <= s[k];
    } else if |s| > 1 {
      CountAscending(s[1..], x, 0);
      assert s[0] <= s[1];
    }
  }

  // ----- nearest rank -----

  function CeilHundredths(m: int): int {
    if m <= 0 then 0 else (m + 99) / 100
  }

  /** ceil(p*n/100) forced into 1..n: the one-based position of the p-th percentile. */
  function Rank(p: int, n: nat): (r: nat)
    requires n > 0
    ensures 1 <= r <= n
  {
    var c := CeilHundredths(p * n);
    if c < 1 then 1 else if c > n then n else c
  }

  /** `nearestRank` on data that is already ascending. */
  function NearestRank(sorted: seq<real>, p: int): real {
    if |sorted| == 0 then 0.0 else sorted[Rank(p, |sorted|) - 1]
  }

  /** `window.percentile`: it sorts, and answers the two ends without ranking. */
  function Percentile(vals: seq<real>, p: int): real {
    SortSorts(vals);
    var sorted := Sort(vals);
    if |vals| == 0 then 0.0
    else if p <= 0 then sorted[0]
    else if p >= 100 then sorted[|sorted| - 1]
    else sorted[Rank(p, |sorted|) - 1]
  }

  lemma CeilMonotone(a: int, b: int)
    requires a <= b
    ensures CeilHundredths(a) <= CeilHundredths(b)
  {
    if a > 0 {
      DivMonotone(a + 99, b + 99, 100);
    } else if b > 0 {
      DivMonotone(0, b + 99, 100);
    }
  }

  lemma ScaleByCount(p: int, q: int, n: nat)
    requires p <= q
    ensures p * n <= q * n
  {
    assert (q - p) * n >= 0;
  }

  lemma RankMonotone(p: int, q: int, n: nat)
    requires n > 0 && p <= q
    ensures Rank(p, n) <= Rank(q, n)
  {
    ScaleByCount(p, q, n);
    CeilMonotone(p * n, q * n);
  }

  lemma RankEnds(p: int, n: nat)
    requires n > 0
    ensures p <= 0 ==> Rank(p, n) == 1
    ensures p >= 100 ==> Rank(p, n) == n
  {
    if p <= 0 {
      ScaleByCount(p, 0, n);
    } else if p >= 100 {
      ScaleByCount(100, p, n);
      CeilMonotone(100 * n, p * n);
    }
  }

  /** The window's percentile and the usage store's nearest rank agree at every p. */
  lemma PercentileIsNearestRank(vals: seq<real>, p: int)
    ensures Percentile(vals, p) == NearestRank(Sort(vals), p)
  {
    SortSorts(vals);
    if |vals| > 0 {
      RankEnds(p, |vals|);
    }
  }

  /** The p-th percentile is the one observation with fewer than rank observations below it
      and at least rank at or below it. */
  lemma PercentileCharacterised(vals: seq<real>, p: int, v: real)
    requires |vals| > 0
    ensures v == Percentile(vals, p) <==>
            v in vals && CountLt(vals, v) < Rank(p, |vals|) <= CountLe(vals, v)
  {
    PercentileAtRank(vals, p);
    ValueAtRank(vals, Rank(p, |vals|), v);
    RankIsMember(vals, Rank(p, |vals|));
  }

  lemma PercentileAtRank(vals: seq<real>, p: int)
    requires |vals| > 0
    ensures |Sort(vals)| == |vals| && Percentile(vals, p) == Sort(vals)[Rank(p, |vals|) - 1]
  {
    PercentileIsNearestRank(vals, p);
    SortSorts(vals);
  }

  /** The r-th smallest value is the one with fewer than r observations below it and at least r
      at or below. */
  lemma ValueAtRank(vals: seq<real>, r: nat, v: real)
    requires |Sort(vals)| == |vals| && 1 <= r <= |vals|
    ensures v == Sort(vals)[r - 1] <==> CountLt(vals, v) < r <= CountLe(vals, v)
  {
    SortSorts(vals);
    CountSort(vals, v);
    CountAscending(Sort(vals), v, r - 1);
  }

  lemma RankIsMember(vals: seq<real>, r: nat)
    requires |Sort(vals)| == |vals| && 1 <= r <= |vals|
    ensures Sort(vals)[r - 1] in vals
  {
    SortSorts(vals);
    SameMembers(Sort(vals), vals, Sort(vals)[r - 1]);
  }

  lemma SameMembers(a: seq<real>, b: seq<real>, v: real)
    requires multiset(a) == multiset(b)
    ensures v in a <==> v in b
  {
    assert v in multiset(a) <==> v in multiset(b);
  }

  // ----- the other aggregates -----

  function Max(vals: seq<real>): real {
    if |vals| == 0 then 0.0
    else if |vals| == 1 then vals[0]
    else
      var m := Max(vals[..|vals| - 1]);
      if vals[|vals| - 1] > m then vals[|vals| - 1] else m
  }

  function Sum(vals: seq<real>): real {
    if vals == [] then 0.0 else Sum(vals[..|vals| - 1]) + vals[|vals| - 1]
  }

  function Mean(vals: seq<real>): real {
    if |vals| == 0 then 0.0 else Sum(vals) / |vals| as real
  }

  /** The smoothing factor `ewma` really uses: anything outside (0, 1] becomes 0.3. */
  function EffectiveAlpha(alpha: real): (a: real)
    ensures 0.0 < a <= 1.0
  {
    if alpha <= 0.0 || alpha > 1.0 then 0.3 else alpha
  }

  function Mix(a: real, b: real, x: real, y: real): real {
    a * x + b * y
  }

  function Ewma(alpha: real, vals: seq<real>): real {
    if |vals| == 0 then 0.0
    else if |vals| == 1 then vals[0]
    else
      var a := EffectiveAlpha(alpha);
      Mix(a, 1.0 - a, vals[|vals| - 1], Ewma(alpha, vals[..|vals| - 1]))
  }

  // ----- bounds -----

  ghost predicate Within(vals: seq<real>, lo: real, hi: real) {
    forall i :: 0 <= i < |vals| ==> lo <= vals[i] <= hi
  }

  lemma MaxIsGreatest(vals: seq<real>)
    requires |vals| > 0
    ensures Max(vals) in vals
    ensures forall i :: 0 <= i < |vals| ==> vals[i] <= Max(vals)
  {
    if |vals| > 1 {
      var front := vals[..|vals| - 1];
      MaxIsGreatest(front);
      forall i | 0 <= i < |vals| ensures vals[i] <= Max(vals) {
        if i < |vals| - 1 {
          assert vals[i] == front[i];
        }
      }
    }
  }

  lemma {:induction false} MaxIsLastOfSorted(vals: seq<real>)
    requires |vals| > 0
    ensures |Sort(vals)| == |vals| && Sort(vals)[|vals| - 1] == Max(vals)
  {
    SortSorts(vals);
    MaxIsGreatest(vals);
    var top := Sort(vals)[|vals| - 1];
    assert top in multiset(Sort(vals)) && Max(vals) in multiset(Sort(vals));
    assert top in multiset(vals);
    var i :| 0 <= i < |vals| && vals[i] == top;
  }

  lemma {:induction false} SumWithin(vals: seq<real>, lo: real, hi: real)
    requires Within(vals, lo, hi)
    ensures lo * |vals| as real <= Sum(vals) <= hi * |vals| as real
  {
    if vals != [] {
      var n := |vals| - 1;
      SumWithin(vals[..n], lo, hi);
      assert |vals| as real == n as real + 1.0;
      assert lo * |vals| as real == lo * n as real + lo;
      assert hi * |vals| as real == hi * n as real + hi;
    }
  }

  lemma DivideByCount(total: real, bound: real, n: nat)
    requires n > 0
    ensures total <= bound * n as real ==> total / n as real <= bound
    ensures total >= bound * n as real ==> total / n as real >= bound
  {
    var q := total / n as real;
    assert q * n as real == total;
    assert q > bound ==> q * n as real > bound * n as real;
    assert q < bound ==> q * n as real < bound * n as real;
  }

  lemma ScaleMonotone(a: real, x: real, y: real)
    requires 0.0 <= a && x <= y
    ensures a * x <= a * y
  {
  }

  lemma MixBounds(a: real, b: real, x: real, y: real, lo: real, hi: real)
    requires 0.0 <= a && 0.0 <= b && a + b == 1.0
    requires lo <= x <= hi && lo <= y <= hi
    ensures lo <= Mix(a, b, x, y) <= hi
  {
    MixMonotone(a, b, lo, lo, x, y);
    MixMonotone(a, b, x, y, hi, hi);
    assert Mix(a, b, lo, lo) == (a + b) * lo;
    assert Mix(a, b, hi, hi) == (a + b) * hi;
  }

  lemma MixMonotone(a: real, b: real, x: real, y: real, x': real, y': real)
    requires 0.0 <= a && 0.0 <= b && x <= x' && y <= y'
    ensures Mix(a, b, x, y) <= Mix(a, b, x', y')
  {
    ScaleMonotone(a, x, x');
    ScaleMonotone(b, y, y');
  }

  lemma {:induction false} EwmaWithin(alpha: real, vals: seq<real>, lo: real, hi: real)
    requires |vals| > 0 && Within(vals, lo, hi)
    ensures lo <= Ewma(alpha, vals) <= hi
  {
    var n := |vals| - 1;
    assert lo <= vals[n] <= hi;
    if n > 0 {
      EwmaWithin(alpha, vals[..n], lo, hi);
      var a := EffectiveAlpha(alpha);
      MixBounds(a, 1.0 - a, vals[n], Ewma(alpha, vals[..n]), lo, hi);
    }
  }

  lemma MeanWithin(vals: seq<real>, lo: real, hi: real)
    requires |vals| > 0 && Within(vals, lo, hi)
    ensures lo <= Mean(vals) <= hi
  {
    SumWithin(vals, lo, hi);
    DivideByCount(Sum(vals), lo, |vals|);
    DivideByCount(Sum(vals), hi, |vals|);
  }

  lemma PercentileWithin(vals: seq<real>, p: int, lo: real, hi: real)
    requires |vals| > 0 && Within(vals, lo, hi)
    ensures lo <= Percentile(vals, p) <= hi
  {
    PercentileCharacterised(vals, p, Percentile(vals, p));
  }

  // ----- pointwise domination -----

  ghost predicate Dominated(a: seq<real>, b: seq<real>) {
    && |a| == |b|
    && forall i :: 0 <= i < |a| ==> a[i] <= b[i]
  }

  lemma {:induction false} CountDominated(a: seq<real>, b: seq<real>, x: real)
    requires Dominated(a, b)
    ensures CountLe(a, x) >= CountLe(b, x)
  {
    if a != [] {
      assert a[0] <= b[0];
      assert Dominated(a[1..], b[1..]) by {
        forall i | 0 <= i < |a[1..]| ensures a[1..][i] <= b[1..][i] {
          assert a[i + 1] <= b[i + 1];
        }
      }
      CountDominated(a[1..], b[1..], x);
    }
  }

  lemma PercentileDominated(a: seq<real>, b: seq<real>, p: int)
    requires Dominated(a, b)
    ensures Percentile(a, p) <= Percentile(b, p)
  {
    if |a| > 0 {
      var x := Percentile(b, p);
      PercentileCharacterised(b, p, x);
      CountDominated(a, b, x);
      PercentileIsNearestRank(a, p);
      SortSorts(a);
      CountSort(a, x);
      CountAscending(Sort(a), x, Rank(p, |a|) - 1);
    }
  }

  lemma MaxDominated(a: seq<real>, b: seq<real>)
    requires Dominated(a, b)
    ensures Max(a) <= Max(b)
  {
    if |a| > 0 {
      MaxIsGreatest(a);
      MaxIsGreatest(b);
      var i :| 0 <= i < |a| && a[i] == Max(a);
      assert a[i] <= b[i] <= Max(b);
    }
  }

  lemma {:induction false} SumDominated(a: seq<real>, b: seq<real>)
    requires Dominated(a, b)
    ensures Sum(a) <= Sum(b)
  {
    if a != [] {
      var n := |a| - 1;
      assert a[n] <= b[n];
      SumDominated(a[..n], b[..n]);
    }
  }

  lemma MeanDominated(a: seq<real>, b: seq<real>)
    requires Dominated(a, b)
    ensures Mean(a) <= Mean(b)
  {
    if |a| > 0 {
      SumDominated(a, b);
      DivideByCount(Sum(a), Mean(b), |a|);
    }
  }

  lemma {:induction false} EwmaDominated(alpha: real, a: seq<real>, b: seq<real>)
    requires Dominated(a, b)
    ensures Ewma(alpha, a) <= Ewma(alpha, b)
  {
    if |a| == 1 {
      assert a[0] <= b[0];
    } else if |a| > 1 {
      var n := |a| - 1;
      assert a[n] <= b[n];
      EwmaDominated(alpha, a[..n], b[..n]);
      var f := EffectiveAlpha(alpha);
      MixMonotone(f, 1.0 - f, a[n], Ewma(alpha, a[..n]), b[n], Ewma(alpha, b[..n]));
    }
  }
}
