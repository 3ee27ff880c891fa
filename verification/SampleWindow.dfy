/** The fixed-capacity ring of timestamped observations behind the advisor. */
module SampleWindow {
  import opened Numbers
  import OrderStats

  datatype Obs = Obs(value: real, stamp: Time)

  /** A ring seen as a value: its observations oldest first, and its geometry. */
  datatype Ring = Ring(obs: seq<Obs>, capacity: nat, horizon: int)

  function LastN<T>(s: seq<T>, n: nat): seq<T> {
    if |s| <= n then s else s[|s| - n..]
  }

  function EmptyRing(capacity: int, horizon: int): Ring {
    Ring([], if capacity < 1 then 1 else capacity, horizon)
  }

  function PushObs(r: Ring, o: Obs): Ring {
    r.(obs := LastN(r.obs + [o], r.capacity))
  }

  /** The values stamped no earlier than the cutoff, oldest first. */
  function Live(obs: seq<Obs>, cutoff: int): seq<real> {
    if obs == [] then []
    else
      var n := |obs| - 1;
      Live(obs[..n], cutoff) + if obs[n].stamp < cutoff then [] else [obs[n].value]
  }

  function LiveAt(r: Ring, now: Time): seq<real> {
    Live(r.obs, now - r.horizon)
  }

  function AggregateOf(algorithm: string, alpha: real, vals: seq<real>): real {
    if algorithm == "p99" then OrderStats.Percentile(vals, 99)
    else if algorithm == "max" then OrderStats.Max(vals)
    else if algorithm == "ewma" then OrderStats.Ewma(alpha, vals)
    else if algorithm == "mean" then OrderStats.Mean(vals)
    else OrderStats.Percentile(vals, 95)
  }

  // ----- runs of pushes -----

  function PushAll(r: Ring, run: seq<Obs>): Ring {
    if run == [] then r else PushObs(PushAll(r, run[..|run| - 1]), run[|run| - 1])
  }

  /** After any run of pushes an initially empty ring holds exactly the last
      min(n, capacity) observations of the run, in order. */
  lemma {:induction false} PushAllKeepsLast(capacity: int, horizon: int, run: seq<Obs>)
    ensures var r := PushAll(EmptyRing(capacity, horizon), run);
            && r.obs == LastN(run, r.capacity)
            && r.capacity == EmptyRing(capacity, horizon).capacity
            && r.horizon == horizon
            && |r.obs| == if |run| < r.capacity then |run| else r.capacity
  {
    if run != [] {
      var n := |run| - 1;
      PushAllKeepsLast(capacity, horizon, run[..n]);
      assert run == run[..n] + [run[n]];
      LastNAgain(run[..n], run[n], EmptyRing(capacity, horizon).capacity);
    }
  }

  lemma LastNAgain<T>(s: seq<T>, x: T, n: nat)
    requires n > 0
    ensures LastN(LastN(s, n) + [x], n) == LastN(s + [x], n)
  {
  }

  /** A value is live exactly when some observation carries it with a recent enough stamp. */
  lemma {:induction false} LiveMembers(obs: seq<Obs>, cutoff: int, v: real)
    ensures v in Live(obs, cutoff) <==>
            exists i :: 0 <= i < |obs| && obs[i].value == v && obs[i].stamp >= cutoff
  {
    if obs != [] {
      var n := |obs| - 1;
      LiveMembers(obs[..n], cutoff, v);
      if v in Live(obs[..n], cutoff) {
        var i :| 0 <= i < n && obs[..n][i].value == v && obs[..n][i].stamp >= cutoff;
        assert obs[i].value == v;
      }
      if i :| 0 <= i < |obs| && obs[i].value == v && obs[i].stamp >= cutoff {
        if i < n {
          assert obs[..n][i] == obs[i];
        }
      }
    }
  }

  /** Push order is kept: liveness of a concatenation is the concatenation of liveness. */
  lemma {:induction false} LiveAppend(a: seq<Obs>, b: seq<Obs>, cutoff: int)
    ensures Live(a + b, cutoff) == Live(a, cutoff) + Live(b, cutoff)
  {
    if b == [] {
      assert a + b == a;
    } else {
      var n := |b| - 1;
      LiveAppend(a, b[..n], cutoff);
      assert (a + b)[..|a + b| - 1] == a + b[..n];
    }
  }

  /** Whatever the algorithm, the aggregate of a non-empty window lies between its least
      and greatest live observation. */
  lemma AggregateWithin(algorithm: string, alpha: real, vals: seq<real>, lo: real, hi: real)
    requires |vals| > 0 && OrderStats.Within(vals, lo, hi)
    ensures lo <= AggregateOf(algorithm, alpha, vals) <= hi
  {
    OrderStats.PercentileWithin(vals, 99, lo, hi);
    OrderStats.PercentileWithin(vals, 95, lo, hi);
    OrderStats.EwmaWithin(alpha, vals, lo, hi);
    OrderStats.MeanWithin(vals, lo, hi);
    OrderStats.MaxIsGreatest(vals);
  }

  /** Whatever the algorithm, the aggregate never falls when every observation rises. */
  lemma AggregateDominated(algorithm: string, alpha: real, a: seq<real>, b: seq<real>)
    requires OrderStats.Dominated(a, b)
    ensures AggregateOf(algorithm, alpha, a) <= AggregateOf(algorithm, alpha, b)
  {
    OrderStats.PercentileDominated(a, b, 99);
    OrderStats.PercentileDominated(a, b, 95);
    OrderStats.EwmaDominated(alpha, a, b);
    OrderStats.MeanDominated(a, b);
    OrderStats.MaxDominated(a, b);
  }

  // ----- two rings side by side -----

  /** Same geometry and stamps, every value of the first at or below the second's. */
  ghost predicate RingBelow(a: Ring, b: Ring) {
    && a.capacity == b.capacity && a.horizon == b.horizon
    && ObsBelow(a.obs, b.obs)
  }

  ghost predicate ObsBelow(a: seq<Obs>, b: seq<Obs>) {
    && |a| == |b|
    && forall i :: 0 <= i < |a| ==> a[i].stamp == b[i].stamp && a[i].value <= b[i].value
  }

  lemma PushBelow(a: Ring, b: Ring, x: Obs, y: Obs)
    requires RingBelow(a, b) && x.stamp == y.stamp && x.value <= y.value
    ensures RingBelow(PushObs(a, x), PushObs(b, y))
  {
  }

  lemma {:induction false} LiveBelow(a: seq<Obs>, b: seq<Obs>, cutoff: int)
    requires ObsBelow(a, b)
    ensures OrderStats.Dominated(Live(a, cutoff), Live(b, cutoff))
  {
    if a != [] {
      var n := |a| - 1;
      LiveBelow(a[..n], b[..n], cutoff);
      assert a[n].stamp == b[n].stamp && a[n].value <= b[n].value;
    }
  }

  // ----- the ring itself -----

  lemma ModWrap(x: nat, c: nat)
    requires c > 0 && x < 2 * c
    ensures x % c == if x < c then x else x - c
  {
    if x >= c {
      assert x == 1 * c + (x - c);
    }
  }

  class Window {
    const values: array<real>
    const stamps: array<Time>
    var next: nat
    var filled: bool
    const capacity: nat
    const horizon: int

    /** The ring as a value: what it remembers, oldest first. */
    ghost var ring: Ring

    /** Where the i-th oldest observation is stored. */
    ghost function Slot(i: nat): nat
      requires next < capacity && i < capacity
      reads this
    {
      if !filled then i else if next + i < capacity then next + i else next + i - capacity
    }

    ghost predicate Valid()
      reads this, values, stamps
    {
      && next < capacity == values.Length == stamps.Length
      && ring.capacity == capacity && ring.horizon == horizon
      && |ring.obs| == (if filled then capacity else next)
      && forall i :: 0 <= i < |ring.obs| ==> ring.obs[i] == Obs(values[Slot(i)], stamps[Slot(i)])
    }

    /** Two windows that share no storage. */
    ghost predicate Apart(other: Window) {
      this != other && values != other.values && stamps != other.stamps
    }

    constructor (capacity: int, horizon: int)
      ensures Valid() && fresh(this) && fresh(values) && fresh(stamps)
      ensures ring == EmptyRing(capacity, horizon)
    {
      var c := if capacity < 1 then 1 else capacity;
      values := new real[c];
      stamps := new Time[c];
      next, filled := 0, false;
      this.capacity, this.horizon := c, horizon;
      ring := EmptyRing(capacity, horizon);
    }

    /** Records an observation, over the oldest one when the ring is full. */
    method Push(v: real, at: Time)
      requires Valid()
      modifies this, values, stamps
      ensures Valid()
      ensures ring == PushObs(old(ring), Obs(v, at))
    {
      values[next] := v;
      stamps[next] := at;
      ModWrap(next + 1, capacity);
      next := (next + 1) % capacity;
      assert next == if old(next) + 1 < capacity then old(next) + 1 else 0;
      if next == 0 {
        filled := true;
      }
      ring := PushObs(ring, Obs(v, at));
      assert ring.obs == (if old(filled) then old(ring.obs)[1..] else old(ring.obs)) + [Obs(v, at)];
      forall i | 0 <= i < |ring.obs| ensures ring.obs[i] == Obs(values[Slot(i)], stamps[Slot(i)]) {
        if i < |ring.obs| - 1 {
          ghost var j := if old(filled) then i + 1 else i;
          ghost var k := old(Slot(j));
          assert ring.obs[i] == old(ring.obs)[j] == old(Obs(values[k], stamps[k]));
          assert Slot(i) == k != old(next);
        } else {
          assert Slot(i) == old(next);
        }
      }
    }

    /** The observations inside the horizon, oldest first. */
    method LiveValues(now: Time) returns (out: seq<real>)
      requires Valid()
      ensures out == LiveAt(ring, now)
    {
      var n := capacity;
      if !filled {
        n := next;
      }
      if n == 0 {
        return [];
      }
      var cutoff := now - horizon;
      out := [];
      for i := 0 to n
        invariant n == |ring.obs|
        invariant out == Live(ring.obs[..i], cutoff)
      {
        var idx := i;
        if filled {
          ModWrap(next + i, capacity);
          idx := (next + i) % capacity;
        }
        assert ring.obs[..i + 1][..i] == ring.obs[..i];
        assert ring.obs[i] == Obs(values[idx], stamps[idx]);
        if stamps[idx] < cutoff {
          continue;
        }
        out := out + [values[idx]];
      }
      assert ring.obs[..n] == ring.obs;
    }

    method Count(now: Time) returns (n: nat)
      requires Valid()
      ensures n == |LiveAt(ring, now)|
    {
      var vals := LiveValues(now);
      return |vals|;
    }

    method Full() returns (full: bool)
      requires Valid()
      ensures full <==> |ring.obs| == ring.capacity
    {
      return filled;
    }

    method Percentile(p: int, now: Time) returns (r: real)
      requires Valid()
      ensures r == OrderStats.Percentile(LiveAt(ring, now), p)
    {
      var vals := LiveValues(now);
      if |vals| == 0 {
        return 0.0;
      }
      OrderStats.SortSorts(vals);
      OrderStats.PercentileIsNearestRank(vals, p);
      OrderStats.RankEnds(p, |vals|);
      vals := OrderStats.Sort(vals);
      if p <= 0 {
        return vals[0];
      }
      if p >= 100 {
        return vals[|vals| - 1];
      }
      return vals[OrderStats.Rank(p, |vals|) - 1];
    }

    method Max(now: Time) returns (m: real)
      requires Valid()
      ensures m == OrderStats.Max(LiveAt(ring, now))
    {
      var vals := LiveValues(now);
      if |vals| == 0 {
        return 0.0;
      }
      m := vals[0];
      for i := 1 to |vals|
        invariant m == OrderStats.Max(vals[..i])
      {
        assert vals[..i + 1][..i] == vals[..i];
        if vals[i] > m {
          m := vals[i];
        }
      }
      assert vals[..|vals|] == vals;
    }

    method Mean(now: Time) returns (m: real)
      requires Valid()
      ensures m == OrderStats.Mean(LiveAt(ring, now))
    {
      var vals := LiveValues(now);
      if |vals| == 0 {
        return 0.0;
      }
      var sum := 0.0;
      for i := 0 to |vals|
        invariant sum == OrderStats.Sum(vals[..i])
      {
        assert vals[..i + 1][..i] == vals[..i];
        sum := sum + vals[i];
      }
      assert vals[..|vals|] == vals;
      return sum / |vals| as real;
    }

    method Ewma(alpha: real, now: Time) returns (acc: real)
      requires Valid()
      ensures acc == OrderStats.Ewma(alpha, LiveAt(ring, now))
    {
      var vals := LiveValues(now);
      if |vals| == 0 {
        return 0.0;
      }
      var a := alpha;
      if a <= 0.0 || a > 1.0 {
        a := 0.3;
      }
      acc := vals[0];
      for i := 1 to |vals|
        invariant acc == OrderStats.Ewma(alpha, vals[..i])
      {
        assert vals[..i + 1][..i] == vals[..i];
        acc := a * vals[i] + (1.0 - a) * acc;
      }
      assert vals[..|vals|] == vals;
    }

    method Aggregate(algorithm: string, alpha: real, now: Time) returns (r: real)
      requires Valid()
      ensures r == AggregateOf(algorithm, alpha, LiveAt(ring, now))
    {
      if algorithm == "p99" {
        r := Percentile(99, now);
      } else if algorithm == "max" {
        r := Max(now);
      } else if algorithm == "ewma" {
        r := Ewma(alpha, now);
      } else if algorithm == "mean" {
        r := Mean(now);
      } else {
        r := Percentile(95, now);
      }
    }
  }
}
