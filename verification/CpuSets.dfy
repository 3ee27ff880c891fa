/** Set algebra on CPU ids, and the ordered views the allocator takes of a set. */
module CpuSets {

  ghost predicate StrictlyAscending(s: seq<int>) {
    forall i, j :: 0 <= i < j < |s| ==> s[i] < s[j]
  }

  function Elems(s: seq<int>): set<int> {
    set x | x in s
  }

  lemma {:induction false} LeastExists(s: set<int>)
    requires s != {}
    ensures exists m :: m in s && forall x :: x in s ==> m <= x
  {
    assert (exists y :: y in s) || s == {};
    var y :| y in s;
    var t := s - {y};
    if t == {} {
      assert s == {y};
    } else {
      LeastExists(t);
      var m :| m in t && forall x :: x in t ==> m <= x;
      var least := if m <= y then m else y;
      assert least in s && forall x :: x in s ==> x == y || x in t;
    }
  }

  function Least(s: set<int>): (m: int)
    requires s != {}
    ensures m in s && forall x :: x in s ==> m <= x
  {
    LeastExists(s);
    var m :| m in s && forall x :: x in s ==> m <= x;
    m
  }

  /** The members in ascending order. */
  function List(s: set<int>): seq<int> {
    if s == {} then [] else [Least(s)] + List(s - {Least(s)})
  }

  lemma ElemsAppend(a: seq<int>, b: seq<int>)
    ensures Elems(a + b) == Elems(a) + Elems(b)
  {
  }

  lemma AscendingAppend(a: seq<int>, b: seq<int>)
    requires StrictlyAscending(a) && StrictlyAscending(b)
    requires forall x, y :: x in Elems(a) && y in Elems(b) ==> x < y
    ensures StrictlyAscending(a + b)
  {
    forall i, j | 0 <= i < j < |a + b| ensures (a + b)[i] < (a + b)[j] {
      if i < |a| <= j {
        assert a[i] in Elems(a) && b[j - |a|] in Elems(b);
      }
    }
  }

  lemma AscendingSplit(s: seq<int>, k: nat)
    requires StrictlyAscending(s) && k <= |s|
    ensures StrictlyAscending(s[..k]) && StrictlyAscending(s[k..])
    ensures Elems(s[..k]) + Elems(s[k..]) == Elems(s) && Elems(s[..k]) !! Elems(s[k..])
    ensures forall x, y :: x in Elems(s[..k]) && y in Elems(s[k..]) ==> x < y
  {
    assert s == s[..k] + s[k..];
    ElemsAppend(s[..k], s[k..]);
    forall x, y | x in Elems(s[..k]) && y in Elems(s[k..]) ensures x < y {
      var i :| 0 <= i < k && s[..k][i] == x;
      var j :| 0 <= j < |s[k..]| && s[k..][j] == y;
      assert s[i] < s[k + j];
    }
  }

  /** The list holds every member once, in ascending order. */
  lemma {:induction false} ListLaw(s: set<int>)
    ensures StrictlyAscending(List(s)) && Elems(List(s)) == s && |List(s)| == |s|
  {
    if s != {} {
      var m := Least(s);
      var rest := List(s - {m});
      ListLaw(s - {m});
      assert Elems([m]) == {m};
      AscendingAppend([m], rest);
      ElemsAppend([m], rest);
    }
  }

  lemma {:induction false} ElemsSize(s: seq<int>)
    requires StrictlyAscending(s)
    ensures |Elems(s)| == |s|
  {
    if s != [] {
      var n := |s| - 1;
      AscendingSplit(s, n);
      ElemsSize(s[..n]);
      assert Elems(s[n..]) == {s[n]};
    }
  }

  lemma SubsetSize(a: set<int>, b: set<int>)
    requires a <= b
    ensures |a| <= |b|
    ensures |b - a| == |b| - |a|
  {
    assert b == a + (b - a);
  }

  // ----- taking CPUs -----

  function Clamp(n: int, limit: nat): nat {
    if n < 0 then 0 else if n > limit then limit else n
  }

  /** The n lowest ids, and what is left. */
  function Take(s: set<int>, n: int): (set<int>, set<int>) {
    ListLaw(s);
    var k := Clamp(n, |s|);
    (Elems(List(s)[..k]), Elems(List(s)[k..]))
  }

  /** n ids, preferred ones first, and what is left. */
  function TakeFrom(s: set<int>, n: int, preferred: set<int>): (set<int>, set<int>) {
    var first := Take(s * preferred, n).0;
    var taken := if |first| < n then first + Take(s - first, n - |first|).0 else first;
    (taken, s - taken)
  }

  /** Take splits the set in two, with the lowest ids on the taken side. */
  lemma TakeLaw(s: set<int>, n: int)
    ensures var (taken, rest) := Take(s, n);
            && taken + rest == s && taken !! rest
            && |taken| == Clamp(n, |s|) && |rest| == |s| - |taken|
            && forall x, y :: x in taken && y in rest ==> x < y
  {
    ListLaw(s);
    var k := Clamp(n, |s|);
    AscendingSplit(List(s), k);
    ElemsSize(List(s)[..k]);
    ElemsSize(List(s)[k..]);
  }

  /** TakeFrom takes as many ids as asked for while there are any, and no id outside the
      preferred set while a preferred one is left. */
  lemma TakeFromLaw(s: set<int>, n: int, preferred: set<int>)
    ensures var (taken, rest) := TakeFrom(s, n, preferred);
            && taken + rest == s && taken !! rest
            && |taken| == Clamp(n, |s|) && |rest| == |s| - |taken|
            && |taken * preferred| >= Clamp(n, |s * preferred|)
            && (n <= |s * preferred| ==> taken <= preferred)
            && (n >= |s * preferred| ==> s * preferred <= taken)
  {
    if |s * preferred| < n {
      TakeAllPreferred(s, n, preferred);
    } else {
      TakeOnlyPreferred(s, n, preferred);
    }
  }

  lemma SameSize(a: set<int>, b: set<int>)
    requires a <= b && |a| == |b|
    ensures a == b
  {
    SubsetSize(a, b);
  }

  /** When the preferred ids do not suffice, all of them are taken and the rest is filled up. */
  lemma TakeAllPreferred(s: set<int>, n: int, preferred: set<int>)
    requires |s * preferred| < n
    ensures var (taken, rest) := TakeFrom(s, n, preferred);
            && s * preferred <= taken <= s
            && |taken| == Clamp(n, |s|) && |rest| == |s| - |taken|
            && taken * preferred == s * preferred
  {
    var common := s * preferred;
    TakeLaw(common, n);
    SameSize(Take(common, n).0, common);
    FillUp(s, n, common);
  }

  /** Filling a part up to n ids from the rest of the set. */
  lemma FillUp(s: set<int>, n: int, part: set<int>)
    requires part <= s && |part| < n
    ensures var taken := part + Take(s - part, n - |part|).0;
            taken <= s && |taken| == Clamp(n, |s|) && |s - taken| == |s| - |taken|
  {
    var more := Take(s - part, n - |part|).0;
    TakeLaw(s - part, n - |part|);
    SubsetSize(part, s);
    DisjointSize(part, more);
    SubsetSize(part + more, s);
  }

  lemma DisjointSize(a: set<int>, b: set<int>)
    requires a !! b
    ensures |a + b| == |a| + |b|
  {
  }

  /** When the preferred ids suffice, nothing else is taken. */
  lemma TakeOnlyPreferred(s: set<int>, n: int, preferred: set<int>)
    requires n <= |s * preferred|
    ensures var (taken, rest) := TakeFrom(s, n, preferred);
            && taken <= s * preferred
            && |taken| == Clamp(n, |s|) && |rest| == |s| - |taken|
            && taken * preferred == taken
            && (n == |s * preferred| ==> taken == s * preferred)
  {
    var common := s * preferred;
    var taken := Take(common, n).0;
    TakeLaw(common, n);
    SubsetSize(common, s);
    assert TakeFrom(s, n, preferred) == (taken, s - taken);
    SubsetSize(taken, s);
    if n == |common| {
      SameSize(taken, common);
    }
  }
}
