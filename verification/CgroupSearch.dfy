/** Finding a pod's cgroup: a bounded breadth-first search over a directory tree. */
module CgroupSearch {
  import opened Tiers

  datatype Entry =
    | File(name: string)
    | Dir(name: string, readable: bool, entries: seq<Entry>)

  /** Path elements below the root of the hierarchy. */
  type Path = seq<string>

  type Pattern = string -> bool

  datatype Item = Item(path: Path, dir: Entry) {
    function Depth(): nat { |path| }
  }

  function Size(e: Entry): (n: nat)
    ensures n > 0
  {
    if e.File? then 1 else 1 + SizeAll(e.entries)
  }

  function SizeAll(es: seq<Entry>): nat {
    if es == [] then 0 else SizeAll(es[..|es| - 1]) + Size(es[|es| - 1])
  }

  function QueueSize(queue: seq<Item>): nat {
    if queue == [] then 0 else QueueSize(queue[..|queue| - 1]) + Size(queue[|queue| - 1].dir)
  }

  /** The path leads, through readable directories only, to a directory whose name matches. */
  predicate Leads(dir: Entry, path: Path, matches: Pattern)
    decreases path
  {
    path != [] && dir.Dir? && dir.readable && LeadsInto(dir.entries, path, matches)
  }

  predicate LeadsInto(entries: seq<Entry>, path: Path, matches: Pattern)
    requires path != []
    decreases path, 1
  {
    exists i :: 0 <= i < |entries| && LeadsVia(entries[i], path, matches)
  }

  predicate LeadsVia(e: Entry, path: Path, matches: Pattern)
    requires path != []
    decreases path, 0
  {
    e.Dir? && e.name == path[0] && if |path| == 1 then matches(e.name) else Leads(e, path[1..], matches)
  }

  /** The deepest level the search looks at: the root's children always, then down to the bound. */
  function Limit(maxDepth: int): int {
    if maxDepth < 1 then 1 else maxDepth
  }

  /** A path the search could return. */
  predicate Candidate(root: Entry, p: Path, maxDepth: int, matches: Pattern) {
    Leads(root, p, matches) && |p| <= Limit(maxDepth)
  }

  // ----- what one directory contributes -----

  predicate IsMatch(e: Entry, matches: Pattern) {
    e.Dir? && matches(e.name)
  }

  function Child(cur: Item, e: Entry): Item {
    Item(cur.path + [e.name], e)
  }

  /** The subdirectories still to visit, in order; none at the depth bound. */
  function Children(cur: Item, entries: seq<Entry>, maxDepth: int): seq<Item> {
    if entries == [] then []
    else
      var e := entries[|entries| - 1];
      Children(cur, entries[..|entries| - 1], maxDepth)
      + if e.Dir? && cur.Depth() + 1 < maxDepth then [Child(cur, e)] else []
  }

  /** Scans a directory: the first matching subdirectory, or else the subdirectories to visit. */
  method Scan(cur: Item, maxDepth: int, matches: Pattern) returns (found: Option<Path>, children: seq<Item>)
    requires cur.dir.Dir?
    ensures found.None? ==> children == Children(cur, cur.dir.entries, maxDepth)
    ensures found.None? <==> forall i :: 0 <= i < |cur.dir.entries| ==> !IsMatch(cur.dir.entries[i], matches)
    ensures found.Some? ==> FirstIn(cur, matches, found.value)
  {
    var entries := cur.dir.entries;
    children := [];
    for i := 0 to |entries|
      invariant children == Children(cur, entries[..i], maxDepth)
      invariant forall j :: 0 <= j < i ==> !IsMatch(entries[j], matches)
    {
      assert entries[..i + 1][..i] == entries[..i];
      var e := entries[i];
      if !e.Dir? {
        continue;
      }
      var rel := cur.path + [e.name];
      if matches(e.name) {
        assert IsMatch(e, matches);
        return Some(rel), children;
      }
      if cur.Depth() + 1 < maxDepth {
        children := children + [Item(rel, e)];
      }
    }
    assert entries[..|entries|] == entries;
    found := None;
  }

  /** The path of the directory's first matching entry. */
  predicate FirstIn(cur: Item, matches: Pattern, p: Path)
    requires cur.dir.Dir?
  {
    exists i :: 0 <= i < |cur.dir.entries| && IsMatch(cur.dir.entries[i], matches)
      && p == cur.path + [cur.dir.entries[i].name]
      && forall j :: 0 <= j < i ==> !IsMatch(cur.dir.entries[j], matches)
  }

  lemma {:induction false} ChildrenSize(cur: Item, entries: seq<Entry>, maxDepth: int)
    ensures QueueSize(Children(cur, entries, maxDepth)) <= SizeAll(entries)
  {
    if entries != [] {
      var n := |entries| - 1;
      ChildrenSize(cur, entries[..n], maxDepth);
      var front := Children(cur, entries[..n], maxDepth);
      assert (front + [Child(cur, entries[n])])[..|front|] == front;
      assert front + [] == front;
    }
  }

  lemma {:induction false} QueueSizeAppend(a: seq<Item>, b: seq<Item>)
    ensures QueueSize(a + b) == QueueSize(a) + QueueSize(b)
  {
    if b == [] {
      assert a + b == a;
    } else {
      QueueSizeAppend(a, b[..|b| - 1]);
      assert (a + b)[..|a + b| - 1] == a + b[..|b| - 1];
    }
  }

  predicate IsChild(q: Item, cur: Item, entries: seq<Entry>) {
    exists i :: 0 <= i < |entries| && entries[i].Dir? && q == Child(cur, entries[i])
  }

  /** The children are the subdirectories one level down, all of them or, at the bound, none. */
  lemma {:induction false} ChildrenAre(cur: Item, entries: seq<Entry>, maxDepth: int, q: Item)
    ensures q in Children(cur, entries, maxDepth) <==> cur.Depth() + 1 < maxDepth && IsChild(q, cur, entries)
  {
    if entries != [] {
      var n := |entries| - 1;
      ChildrenAre(cur, entries[..n], maxDepth, q);
      assert entries == entries[..n] + [entries[n]];
      ChildSnoc(q, cur, entries[..n], entries[n]);
    }
  }

  lemma ChildSnoc(q: Item, cur: Item, entries: seq<Entry>, e: Entry)
    ensures IsChild(q, cur, entries + [e]) <==> IsChild(q, cur, entries) || (e.Dir? && q == Child(cur, e))
  {
    if IsChild(q, cur, entries) {
      var i :| 0 <= i < |entries| && entries[i].Dir? && q == Child(cur, entries[i]);
      assert (entries + [e])[i] == entries[i];
    }
    if e.Dir? && q == Child(cur, e) {
      assert (entries + [e])[|entries|] == e;
    }
  }

  // ----- the queue -----

  /** The path passes through the item's directory and matches below it. */
  predicate Pending(q: Item, p: Path, matches: Pattern) {
    q.path <= p && Leads(q.dir, p[|q.path|..], matches)
  }

  predicate Covered(queue: seq<Item>, p: Path, matches: Pattern) {
    exists i :: 0 <= i < |queue| && Pending(queue[i], p, matches)
  }

  /** Whatever matches below the item matches from the root. */
  ghost predicate Sound(root: Entry, q: Item, matches: Pattern) {
    forall rest :: Leads(q.dir, rest, matches) ==> Leads(root, q.path + rest, matches)
  }

  /** Shallow before deep, and never more than one level apart. */
  ghost predicate Layered(queue: seq<Item>) {
    && (forall i, j :: 0 <= i < j < |queue| ==> queue[i].Depth() <= queue[j].Depth())
    && (forall i :: 0 <= i < |queue| ==> queue[i].Depth() <= queue[0].Depth() + 1)
  }

  lemma ChildSound(root: Entry, cur: Item, e: Entry, matches: Pattern)
    requires Sound(root, cur, matches) && cur.dir.Dir? && cur.dir.readable && e in cur.dir.entries && e.Dir?
    ensures Sound(root, Child(cur, e), matches)
    ensures IsMatch(e, matches) ==> Leads(root, cur.path + [e.name], matches)
  {
    forall rest | Leads(e, rest, matches) ensures Leads(root, Child(cur, e).path + rest, matches) {
      var longer := [e.name] + rest;
      assert longer[1..] == rest;
      assert LeadsVia(e, longer, matches);
      assert Leads(cur.dir, longer, matches);
      assert cur.path + longer == Child(cur, e).path + rest;
    }
    if IsMatch(e, matches) {
      assert LeadsVia(e, [e.name], matches);
      assert Leads(cur.dir, [e.name], matches);
    }
  }

  /** A match below a directory that has none among its own entries is below one of its children. */
  lemma PassedOn(cur: Item, p: Path, maxDepth: int, matches: Pattern)
    requires Pending(cur, p, matches) && |p| <= Limit(maxDepth)
    requires forall i :: 0 <= i < |cur.dir.entries| ==> !IsMatch(cur.dir.entries[i], matches)
    ensures Covered(Children(cur, cur.dir.entries, maxDepth), p, matches)
  {
    var rest := p[|cur.path|..];
    assert Leads(cur.dir, rest, matches) && LeadsInto(cur.dir.entries, rest, matches);
    var i :| 0 <= i < |cur.dir.entries| && LeadsVia(cur.dir.entries[i], rest, matches);
    PassedTo(cur, p, i, maxDepth, matches);
  }

  lemma PassedTo(cur: Item, p: Path, i: int, maxDepth: int, matches: Pattern)
    requires cur.dir.Dir? && 0 <= i < |cur.dir.entries| && !IsMatch(cur.dir.entries[i], matches)
    requires cur.path <= p && |cur.path| < |p| <= Limit(maxDepth)
             && LeadsVia(cur.dir.entries[i], p[|cur.path|..], matches)
    ensures Covered(Children(cur, cur.dir.entries, maxDepth), p, matches)
  {
    var (rest, e) := (p[|cur.path|..], cur.dir.entries[i]);
    var q := Child(cur, e);
    assert |rest| > 1;
    assert p == cur.path + rest;
    assert q.path <= p && p[|q.path|..] == rest[1..];
    assert Leads(e, rest[1..], matches);
    assert IsChild(q, cur, cur.dir.entries);
    ChildrenAre(cur, cur.dir.entries, maxDepth, q);
    var j :| 0 <= j < |Children(cur, cur.dir.entries, maxDepth)| && Children(cur, cur.dir.entries, maxDepth)[j] == q;
    assert Pending(q, p, matches);
  }

  // ----- the queue after one directory -----

  lemma QueueStaysCovered(queue: seq<Item>, children: seq<Item>, p: Path, matches: Pattern)
    requires queue != [] && Covered(queue, p, matches)
    requires Pending(queue[0], p, matches) ==> Covered(children, p, matches)
    ensures Covered(queue[1..] + children, p, matches)
  {
    var i :| 0 <= i < |queue| && Pending(queue[i], p, matches);
    var next := queue[1..] + children;
    if i > 0 {
      assert next[i - 1] == queue[i];
    } else {
      var j :| 0 <= j < |children| && Pending(children[j], p, matches);
      assert next[|queue| - 1 + j] == children[j];
    }
  }

  lemma QueueStaysLayered(queue: seq<Item>, maxDepth: int)
    requires queue != [] && Layered(queue) && queue[0].dir.Dir?
    ensures Layered(queue[1..] + Children(queue[0], queue[0].dir.entries, maxDepth))
  {
    var cur := queue[0];
    var children := Children(cur, cur.dir.entries, maxDepth);
    forall j | 0 <= j < |children| ensures children[j].Depth() == cur.Depth() + 1 {
      ChildrenAre(cur, cur.dir.entries, maxDepth, children[j]);
    }
  }

  ghost predicate AllSound(root: Entry, queue: seq<Item>, matches: Pattern) {
    forall i :: 0 <= i < |queue| ==> queue[i].dir.Dir? && Sound(root, queue[i], matches)
  }

  lemma QueueStaysSound(root: Entry, queue: seq<Item>, maxDepth: int, matches: Pattern)
    requires queue != [] && AllSound(root, queue, matches) && queue[0].dir.readable
    ensures AllSound(root, queue[1..] + Children(queue[0], queue[0].dir.entries, maxDepth), matches)
  {
    var cur := queue[0];
    var children := Children(cur, cur.dir.entries, maxDepth);
    forall j | 0 <= j < |children| ensures children[j].dir.Dir? && Sound(root, children[j], matches) {
      ChildrenAre(cur, cur.dir.entries, maxDepth, children[j]);
      var i :| 0 <= i < |cur.dir.entries| && cur.dir.entries[i].Dir? && children[j] == Child(cur, cur.dir.entries[i]);
      ChildSound(root, cur, cur.dir.entries[i], matches);
    }
  }

  /** In a layered queue no pending match is shallower than the front's children. */
  lemma NothingShallower(queue: seq<Item>, p: Path, matches: Pattern)
    requires queue != [] && Layered(queue) && Covered(queue, p, matches)
    ensures |p| > queue[0].Depth()
  {
  }

  lemma FrontSize(queue: seq<Item>)
    requires queue != []
    ensures QueueSize(queue) == Size(queue[0].dir) + QueueSize(queue[1..])
  {
    assert queue == [queue[0]] + queue[1..];
    QueueSizeAppend([queue[0]], queue[1..]);
    assert [queue[0]][..0] == [];
  }

  ghost predicate StillPending(root: Entry, queue: seq<Item>, maxDepth: int, matches: Pattern) {
    forall p :: Candidate(root, p, maxDepth, matches) ==> Covered(queue, p, matches)
  }

  /** A least-deep match, or none: what the search promises. */
  ghost predicate Shallowest(root: Entry, maxDepth: int, matches: Pattern, found: Option<Path>) {
    && (found.Some? ==> Candidate(root, found.value, maxDepth, matches))
    && (forall p :: Candidate(root, p, maxDepth, matches) ==> found.Some? && |found.value| <= |p|)
  }

  lemma FrontMatches(root: Entry, queue: seq<Item>, maxDepth: int, matches: Pattern, p: Path)
    requires queue != [] && AllSound(root, queue, matches) && Layered(queue)
             && StillPending(root, queue, maxDepth, matches)
    requires queue[0].dir.readable && FirstIn(queue[0], matches, p) && queue[0].Depth() < Limit(maxDepth)
    ensures Shallowest(root, maxDepth, matches, Some(p))
  {
    var cur := queue[0];
    var i :| 0 <= i < |cur.dir.entries| && IsMatch(cur.dir.entries[i], matches)
      && p == cur.path + [cur.dir.entries[i].name];
    ChildSound(root, cur, cur.dir.entries[i], matches);
    forall p' | Candidate(root, p', maxDepth, matches) ensures |p| <= |p'| {
      NothingShallower(queue, p', matches);
    }
  }

  lemma SkipUnreadable(root: Entry, queue: seq<Item>, maxDepth: int, matches: Pattern)
    requires queue != [] && !queue[0].dir.File? && !queue[0].dir.readable && Layered(queue)
    requires StillPending(root, queue, maxDepth, matches)
    ensures Layered(queue[1..]) && StillPending(root, queue[1..], maxDepth, matches)
  {
    forall p | Candidate(root, p, maxDepth, matches) ensures Covered(queue[1..], p, matches) {
      QueueStaysCovered(queue, [], p, matches);
      assert queue[1..] + [] == queue[1..];
    }
  }

  lemma NextQueue(root: Entry, queue: seq<Item>, maxDepth: int, matches: Pattern)
    requires queue != [] && AllSound(root, queue, matches) && Layered(queue)
             && StillPending(root, queue, maxDepth, matches)
    requires queue[0].dir.readable
    requires forall i :: 0 <= i < |queue[0].dir.entries| ==> !IsMatch(queue[0].dir.entries[i], matches)
    requires forall i :: 0 <= i < |queue| ==> queue[i].Depth() < Limit(maxDepth)
    ensures var next := queue[1..] + Children(queue[0], queue[0].dir.entries, maxDepth);
            && AllSound(root, next, matches) && Layered(next) && StillPending(root, next, maxDepth, matches)
            && (forall i :: 0 <= i < |next| ==> next[i].Depth() < Limit(maxDepth))
            && QueueSize(next) < QueueSize(queue)
  {
    var cur := queue[0];
    var children := Children(cur, cur.dir.entries, maxDepth);
    QueueStaysSound(root, queue, maxDepth, matches);
    QueueStaysLayered(queue, maxDepth);
    forall p | Candidate(root, p, maxDepth, matches) ensures Covered(queue[1..] + children, p, matches) {
      if Pending(cur, p, matches) {
        PassedOn(cur, p, maxDepth, matches);
      }
      QueueStaysCovered(queue, children, p, matches);
    }
    forall j | 0 <= j < |children| ensures children[j].Depth() < Limit(maxDepth) {
      ChildrenAre(cur, cur.dir.entries, maxDepth, children[j]);
    }
    FrontSize(queue);
    QueueSizeAppend(queue[1..], children);
    ChildrenSize(cur, cur.dir.entries, maxDepth);
  }

  lemma RootQueue(root: Entry, maxDepth: int, matches: Pattern)
    requires root.Dir?
    ensures AllSound(root, [Item([], root)], matches) && StillPending(root, [Item([], root)], maxDepth, matches)
  {
    var q := Item([], root);
    forall rest | Leads(root, rest, matches) ensures Leads(root, q.path + rest, matches) {
      assert q.path + rest == rest;
    }
    forall p | Candidate(root, p, maxDepth, matches) ensures Covered([q], p, matches) {
      assert p[0..] == p;
      assert Pending([q][0], p, matches);
    }
  }

  /** Walks the hierarchy breadth first. A match is found exactly when there is one within the
      bound behind readable directories only, and none is shallower than the one returned. */
  method Search(root: Entry, maxDepth: int, matches: Pattern) returns (found: Option<Path>)
    requires root.Dir?
    ensures Shallowest(root, maxDepth, matches, found)
  {
    var queue := [Item([], root)];
    RootQueue(root, maxDepth, matches);
    while queue != []
      invariant AllSound(root, queue, matches) && Layered(queue)
      invariant forall i :: 0 <= i < |queue| ==> queue[i].Depth() < Limit(maxDepth)
      invariant StillPending(root, queue, maxDepth, matches)
      decreases QueueSize(queue)
    {
      var cur := queue[0];
      FrontSize(queue);
      if !cur.dir.readable {
        SkipUnreadable(root, queue, maxDepth, matches);
        queue := queue[1..];
        continue;
      }
      var hit, children := Scan(cur, maxDepth, matches);
      if hit.Some? {
        FrontMatches(root, queue, maxDepth, matches, hit.value);
        return hit;
      }
      NextQueue(root, queue, maxDepth, matches);
      queue := queue[1..] + children;
    }
    found := None;
  }

  // ----- the resolver's cache -----

  const MAX_DEPTH := 6

  predicate OccursAt(s: string, sub: string, i: nat) {
    i + |sub| <= |s| && s[i..i + |sub|] == sub
  }

  predicate Contains(s: string, sub: string) {
    exists i :: 0 <= i <= |s| && OccursAt(s, sub, i)
  }

  /** A pod UID as the systemd driver writes it. */
  function NormalizeUID(uid: string): (n: string) {
    seq(|uid|, i requires 0 <= i < |uid| => if uid[i] == '-' then '_' else uid[i])
  }

  predicate NamesPod(uid: string, name: string) {
    Contains(name, "pod" + uid) || Contains(name, "pod" + NormalizeUID(uid))
  }

  /** The path is a directory of the hierarchy, whoever may list it. */
  predicate Present(dir: Entry, path: Path)
    decreases path
  {
    && dir.Dir?
    && (path == []
        || exists i :: 0 <= i < |dir.entries|
                       && dir.entries[i].name == path[0] && Present(dir.entries[i], path[1..]))
  }

  lemma {:induction false} LeadsToPresent(dir: Entry, path: Path, matches: Pattern)
    requires Leads(dir, path, matches)
    ensures Present(dir, path) && matches(path[|path| - 1])
    decreases path
  {
    assert LeadsInto(dir.entries, path, matches);
    var i :| 0 <= i < |dir.entries| && LeadsVia(dir.entries[i], path, matches);
    var e := dir.entries[i];
    if |path| > 1 {
      assert Leads(e, path[1..], matches);
      LeadsToPresent(e, path[1..], matches);
      assert path[1..][|path| - 2] == path[|path| - 1];
    } else {
      assert path[1..] == [];
    }
    assert Present(e, path[1..]);
  }

  function PodPattern(uid: string): Pattern {
    name => NamesPod(uid, name)
  }

  /** The path is a present directory that bears the pod's name. */
  predicate IsPodDir(uid: string, root: Entry, path: Path) {
    Present(root, path) && BearsName(uid, path)
  }

  predicate BearsName(uid: string, path: Path) {
    path != [] && NamesPod(uid, path[|path| - 1])
  }

  method FindPod(uid: string, root: Entry) returns (found: Option<Path>)
    requires root.Dir?
    ensures Shallowest(root, MAX_DEPTH, PodPattern(uid), found)
    ensures found.Some? ==> IsPodDir(uid, root, found.value)
  {
    found := Search(root, MAX_DEPTH, PodPattern(uid));
    if found.Some? {
      LeadsToPresent(root, found.value, PodPattern(uid));
    }
  }

  /** Every remembered path ends in the name of its pod. */
  ghost predicate Genuine(cache: map<string, Path>) {
    forall uid :: uid in cache ==> BearsName(uid, cache[uid])
  }

  class Resolver {
    var cache: map<string, Path>

    constructor ()
      ensures cache == map[] && Genuine(cache)
    {
      cache := map[];
    }

    /** A remembered path while it is still there, and otherwise the shallowest match. Either way
        the answer is a directory present now whose name is the pod's. */
    method PodPath(uid: string, root: Entry) returns (found: Option<Path>)
      requires root.Dir? && Genuine(cache)
      modifies this
      ensures if uid in old(cache) && Present(root, old(cache)[uid]) then found == Some(old(cache)[uid])
              else Shallowest(root, MAX_DEPTH, PodPattern(uid), found)
      ensures found.Some? ==> IsPodDir(uid, root, found.value)
      ensures cache == if found.Some? then old(cache)[uid := found.value] else old(cache) - {uid}
      ensures Genuine(cache)
    {
      if uid in cache {
        if Present(root, cache[uid]) {
          return Some(cache[uid]);
        }
        cache := cache - {uid};
      }
      found := FindPod(uid, root);
      if found.Some? {
        cache := cache[uid := found.value];
      }
    }

    /** Forgets a pod, so the next question searches afresh. */
    method Forget(uid: string)
      requires Genuine(cache)
      modifies this
      ensures cache == old(cache) - {uid} && Genuine(cache)
    {
      cache := cache - {uid};
    }
  }
}
