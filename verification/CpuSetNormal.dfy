/** The list format's normal form: which items a set is printed as. */
module CpuSetNormal {
  import opened CpuSets
  import opened CpuSetText

  /** Single ids belong to no three in a row; ranges are of three at least, and cannot be extended. */
  ghost predicate Normal(item: Item, s: set<int>) {
    match item
    case One(x) =>
      && x in s && !(x - 1 in s && x + 1 in s) && !(x + 1 in s && x + 2 in s) && !(x - 2 in s && x - 1 in s)
    case Span(lo, hi) =>
      && lo + 2 <= hi && (forall x :: lo <= x <= hi ==> x in s) && lo - 1 !in s && hi + 1 !in s
  }

  ghost predicate AllNormal(items: seq<Item>, s: set<int>) {
    forall i :: 0 <= i < |items| ==> Normal(items[i], s)
  }

  function Low(item: Item): int {
    match item
    case One(x) => x
    case Span(lo, _) => lo
  }

  function High(item: Item): int {
    match item
    case One(x) => x
    case Span(_, hi) => hi
  }

  ghost predicate InOrder(items: seq<Item>) {
    forall i, j :: 0 <= i < j < |items| ==> High(items[i]) < Low(items[j])
  }

  ghost predicate Increasing(ids: seq<int>) {
    forall i, j :: 0 <= i < j < |ids| ==> ids[i] < ids[j]
  }

  /** A run begins here: the id before is not in the list. */
  ghost predicate Begins(ids: seq<int>, i: nat) {
    i < |ids| && (i > 0 ==> ids[i - 1] < ids[i] - 1)
  }

  lemma {:induction false} RunEndsThere(ids: seq<int>, i: nat)
    requires i < |ids|
    ensures var j := RunEnd(ids, i); j + 1 < |ids| ==> ids[j + 1] != ids[j] + 1
    decreases |ids| - i
  {
    if i + 1 < |ids| && ids[i + 1] == ids[i] + 1 {
      RunEndsThere(ids, i + 1);
    }
  }

  /** Around a run the neighbouring ids are missing. */
  lemma {:induction false} RunAlone(ids: seq<int>, i: nat)
    requires Increasing(ids) && Begins(ids, i)
    ensures var (j, s) := (RunEnd(ids, i), Elems(ids));
            && ids[i] - 1 !in s && ids[j] + 1 !in s
            && ids[j] == ids[i] + (j - i) && forall x :: ids[i] <= x <= ids[j] ==> x in s
  {
    var j := RunEnd(ids, i);
    RunEndLaw(ids, i);
    RunEndsThere(ids, i);
    forall k | 0 <= k < |ids| ensures ids[k] != ids[i] - 1 && ids[k] != ids[j] + 1 {
      assert k < i ==> ids[k] <= ids[i - 1];
      assert k > j ==> ids[k] >= ids[j + 1];
    }
    forall x | ids[i] <= x <= ids[j] ensures x in Elems(ids) {
      assert ids[i + (x - ids[i])] == x;
    }
  }

  lemma {:induction false} ItemsOfRun(lo: int, hi: int, s: set<int>)
    requires lo <= hi && lo - 1 !in s && hi + 1 !in s && forall x :: lo <= x <= hi ==> x in s
    ensures var items := RunItems(lo, hi - lo + 1);
            && AllNormal(items, s) && InOrder(items)
            && forall item :: item in items ==> lo <= Low(item) <= High(item) <= hi
  {
  }

  lemma {:induction false} RunNormal(ids: seq<int>, i: nat)
    requires Increasing(ids) && Begins(ids, i)
    ensures AllNormal(RunAt(ids, i), Elems(ids)) && InOrder(RunAt(ids, i))
    ensures forall item :: item in RunAt(ids, i) ==> ids[i] <= Low(item) <= High(item) <= ids[RunEnd(ids, i)]
  {
    RunAlone(ids, i);
    ItemsOfRun(ids[i], ids[RunEnd(ids, i)], Elems(ids));
  }

  lemma {:induction false} NextBegins(ids: seq<int>, i: nat)
    requires Increasing(ids) && i < |ids|
    ensures NextRun(ids, i) < |ids| ==> Begins(ids, NextRun(ids, i))
  {
    RunEndsThere(ids, i);
  }

  lemma {:induction false} ItemsNormal(ids: seq<int>, i: nat)
    requires Increasing(ids) && i <= |ids| && (i < |ids| ==> Begins(ids, i))
    ensures AllNormal(Items(ids, i), Elems(ids)) && InOrder(Items(ids, i))
    ensures forall item :: item in Items(ids, i) ==> i < |ids| && ids[i] <= Low(item) <= High(item)
    decreases |ids| - i
  {
    if i < |ids| {
      var (run, next) := (RunAt(ids, i), NextRun(ids, i));
      NextBegins(ids, i);
      ItemsNormal(ids, next);
      RunNormal(ids, i);
      var rest := Items(ids, next);
      forall a, b | 0 <= a < b < |run + rest| ensures High((run + rest)[a]) < Low((run + rest)[b]) {
        if a < |run| <= b {
          assert run[a] in run && rest[b - |run|] in rest;
        }
      }
      forall a | 0 <= a < |run + rest| ensures Normal((run + rest)[a], Elems(ids)) {
        assert a >= |run| ==> Normal(rest[a - |run|], Elems(ids));
      }
      forall item | item in rest ensures ids[i] <= Low(item) <= High(item) {
        assert ids[next] <= Low(item);
      }
    }
  }

  /** A set is printed as its items in order: a range for every three or more ids in a row, as long
      as it can be, and the others one by one. */
  lemma {:induction false} RenderNormal(s: set<int>)
    requires forall x :: x in s ==> 0 <= x <= MAX_INT
    ensures var items := Items(List(s), 0);
            && Render(s) == Text(items) && DenotesAll(items) == s
            && AllNormal(items, s) && InOrder(items)
  {
    ListLaw(s);
    var ids := List(s);
    assert Increasing(ids);
    ItemsNormal(ids, 0);
    ItemsDenote(ids, 0);
    assert ids[0..] == ids;
  }
}
