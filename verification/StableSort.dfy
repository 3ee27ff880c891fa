/** Stable sorting by a strict weak order, as a value and in place. */
module StableSort {

  /** `before` never holds both ways, and not coming before is transitive. */
  ghost predicate WeakOrder<T(!new)>(before: (T, T) -> bool) {
    && (forall x, y :: before(x, y) ==> !before(y, x))
    && (forall x, y, z :: !before(x, y) && !before(y, z) ==> !before(x, z))
  }

  ghost predicate Ordered<T>(s: seq<T>, before: (T, T) -> bool) {
    forall i, j :: 0 <= i < j < |s| ==> !before(s[j], s[i])
  }

  /** Moves x left past everything it comes before. */
  function Insert<T>(s: seq<T>, x: T, before: (T, T) -> bool): seq<T> {
    if s == [] || !before(x, s[|s| - 1]) then s + [x]
    else Insert(s[..|s| - 1], x, before) + [s[|s| - 1]]
  }

  function Sort<T>(s: seq<T>, before: (T, T) -> bool): seq<T> {
    if s == [] then [] else Insert(Sort(s[..|s| - 1], before), s[|s| - 1], before)
  }

  /** The elements that rank with e, in order. */
  function Peers<T>(s: seq<T>, e: T, before: (T, T) -> bool): seq<T> {
    if s == [] then []
    else
      var x := s[|s| - 1];
      Peers(s[..|s| - 1], e, before) + if before(x, e) || before(e, x) then [] else [x]
  }

  lemma {:induction false} InsertAdds<T>(s: seq<T>, x: T, before: (T, T) -> bool)
    ensures multiset(Insert(s, x, before)) == multiset(s) + multiset{x}
    ensures |Insert(s, x, before)| == |s| + 1
  {
    if s != [] && before(x, s[|s| - 1]) {
      InsertAdds(s[..|s| - 1], x, before);
      assert s == s[..|s| - 1] + [s[|s| - 1]];
    }
  }

  lemma {:induction false} InsertOrders<T(!new)>(s: seq<T>, x: T, before: (T, T) -> bool)
    requires WeakOrder(before) && Ordered(s, before)
    ensures Ordered(Insert(s, x, before), before)
  {
    if s == [] {
    } else if !before(x, s[|s| - 1]) {
      forall i | 0 <= i < |s| ensures !before(x, s[i]) {
        assert i < |s| - 1 ==> !before(s[|s| - 1], s[i]);
      }
    } else {
      var n := |s| - 1;
      InsertOrders(s[..n], x, before);
      InsertAdds(s[..n], x, before);
      var t := Insert(s[..n], x, before);
      forall i | 0 <= i < |t| ensures !before(s[n], t[i]) {
        assert t[i] in multiset(t);
        assert t[i] == x || t[i] in s[..n];
      }
    }
  }

  lemma {:induction false} InsertKeepsPeers<T(!new)>(s: seq<T>, x: T, e: T, before: (T, T) -> bool)
    requires WeakOrder(before)
    ensures Peers(Insert(s, x, before), e, before) ==
            Peers(s, e, before) + if before(x, e) || before(e, x) then [] else [x]
  {
    if s == [] || !before(x, s[|s| - 1]) {
      assert (s + [x])[..|s|] == s;
    } else {
      var n := |s| - 1;
      InsertKeepsPeers(s[..n], x, e, before);
      var t := Insert(s[..n], x, before);
      assert (t + [s[n]])[..|t|] == t;
      var (mine, last) := (if before(x, e) || before(e, x) then [] else [x],
          if before(s[n], e) || before(e, s[n]) then [] else [s[n]]);
      assert mine == [] || last == [];
      Commute(Peers(s[..n], e, before), mine, last);
    }
  }

  lemma Commute<T>(s: seq<T>, a: seq<T>, b: seq<T>)
    requires a == [] || b == []
    ensures s + a + b == s + b + a
  {
  }

  /** Sorting gives an ordered permutation, and elements that rank alike keep their order. */
  lemma {:induction false} SortLaw<T(!new)>(s: seq<T>, before: (T, T) -> bool)
    requires WeakOrder(before)
    ensures Ordered(Sort(s, before), before)
    ensures multiset(Sort(s, before)) == multiset(s)
    ensures |Sort(s, before)| == |s|
    ensures forall e :: Peers(Sort(s, before), e, before) == Peers(s, e, before)
  {
    if s != [] {
      var n := |s| - 1;
      var t := Sort(s[..n], before);
      SortLaw(s[..n], before);
      InsertAdds(t, s[n], before);
      InsertOrders(t, s[n], before);
      assert s == s[..n] + [s[n]];
      forall e ensures Peers(Sort(s, before), e, before) == Peers(s, e, before) {
        InsertKeepsPeers(t, s[n], e, before);
      }
    }
  }

  // ----- in place -----

  lemma InsertUnfold<T>(s: seq<T>, x: T, j: nat, before: (T, T) -> bool)
    requires 0 < j <= |s| && before(x, s[j - 1])
    ensures Insert(s[..j], x, before) == Insert(s[..j - 1], x, before) + [s[j - 1]]
  {
    assert s[..j][..j - 1] == s[..j - 1];
  }

  /** One swap of the insertion: x moves one place to the left. */
  lemma SwapStep<T>(s: seq<T>, x: T, j: nat, before: (T, T) -> bool, full: seq<T>)
    requires 0 < j <= |s| && before(x, s[j - 1])
    requires full == Insert(s[..j], x, before) + s[j..]
    ensures full == Insert(s[..j - 1], x, before) + s[j - 1..]
  {
    InsertUnfold(s, x, j, before);
    Regroup(Insert(s[..j - 1], x, before), s, j);
  }

  lemma Regroup<T>(t: seq<T>, s: seq<T>, j: nat)
    requires 0 < j <= |s|
    ensures t + [s[j - 1]] + s[j..] == t + s[j - 1..]
  {
  }

  /** Insertion sort by swapping neighbours. */
  method InsertionSort<T>(a: array<T>, before: (T, T) -> bool)
    modifies a
    ensures a[..] == Sort(old(a[..]), before)
  {
    ghost var was := a[..];
    var i := 0;
    while i < a.Length
      invariant 0 <= i <= a.Length
      invariant a[..i] == Sort(was[..i], before)
      invariant a[i..] == was[i..]
    {
      assert was[i] == was[i..][0] == a[i];
      assert was[..i + 1][..i] == was[..i];
      SinkLeft(a, i, before);
      i := i + 1;
    }
    assert was[..a.Length] == was && a[..a.Length] == a[..];
  }

  /** The inner loop: swaps the element at i into place among the sorted ones before it. */
  method SinkLeft<T>(a: array<T>, i: nat, before: (T, T) -> bool)
    requires i < a.Length
    modifies a
    ensures a[..i + 1] == Insert(old(a[..i]), old(a[i]), before)
    ensures a[i + 1..] == old(a[i + 1..])
  {
    ghost var s, x := a[..i], a[i];
    var j := i;
    assert s[..i] == s && s[i..] == [];
    assert Insert(s, x, before) == Insert(s, x, before) + [];
    while j > 0 && before(a[j], a[j - 1])
      invariant 0 <= j <= i
      invariant forall k :: 0 <= k < j ==> a[k] == s[k]
      invariant a[j] == x
      invariant forall k :: j < k <= i ==> a[k] == s[k - 1]
      invariant a[i + 1..] == old(a[i + 1..])
      invariant Insert(s, x, before) == Insert(s[..j], x, before) + s[j..]
    {
      SwapStep(s, x, j, before, Insert(s, x, before));
      a[j], a[j - 1] := a[j - 1], a[j];
      j := j - 1;
    }
    assert Insert(s[..j], x, before) == s[..j] + [x];
    assert a[..i + 1] == s[..j] + [x] + s[j..];
  }
}
