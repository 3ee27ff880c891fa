/** The rate limiter on evictions, and the envelope it keeps over any use of it. */
module TokenBucket {
  import opened Numbers

  datatype Bucket = Bucket(capacity: int, tokens: real, window: nat, last: Time)

  function NewBucket(capacity: int, window: nat): Bucket {
    Bucket(capacity, capacity as real, window, 0)
  }

  function ConfigureBucket(b: Bucket, capacity: int, window: nat): Bucket {
    var c := if capacity < 0 then 0 else capacity;
    b.(capacity := c, window := window, tokens := if b.tokens > c as real then c as real else b.tokens)
  }

  /** The fraction of a refill window that has gone by. */
  function Fraction(elapsed: int, window: nat): real
    requires window > 0
  {
    elapsed as real / window as real
  }

  /** The tokens a capacity earns over some time. */
  function Earned(capacity: int, elapsed: int, window: nat): real
    requires window > 0
  {
    capacity as real * Fraction(elapsed, window)
  }

  /** The bucket once it has been topped up for the time gone by. */
  function Refill(b: Bucket, now: Time): Bucket
    requires b.window > 0
  {
    var last := if b.last == 0 then now else b.last;
    if now <= last then b.(last := last)
    else
      var tokens := b.tokens + Earned(b.capacity, now - last, b.window);
      b.(tokens := if tokens > b.capacity as real then b.capacity as real else tokens, last := now)
  }

  predicate Takes(b: Bucket, now: Time)
    requires b.window > 0
  {
    b.capacity != 0 && Refill(b, now).tokens >= 1.0
  }

  function TakeBucket(b: Bucket, now: Time): Bucket
    requires b.window > 0
  {
    if b.capacity == 0 then b
    else
      var r := Refill(b, now);
      if r.tokens < 1.0 then r else r.(tokens := r.tokens - 1.0)
  }

  class TokenBucket {
    var capacity: int
    var tokens: real
    var window: nat
    var last: Time

    ghost function Value(): Bucket
      reads this
    {
      Bucket(capacity, tokens, window, last)
    }

    constructor (capacity: int, window: nat)
      ensures Value() == NewBucket(capacity, window)
    {
      this.capacity, tokens, this.window, last := capacity, capacity as real, window, 0;
    }

    method Configure(capacity: int, window: nat)
      modifies this
      ensures Value() == ConfigureBucket(old(Value()), capacity, window)
    {
      var c := capacity;
      if c < 0 {
        c := 0;
      }
      this.capacity := c;
      this.window := window;
      if tokens > c as real {
        tokens := c as real;
      }
    }

    method Take(now: Time) returns (ok: bool)
      requires window > 0
      modifies this
      ensures ok == Takes(old(Value()), now)
      ensures Value() == TakeBucket(old(Value()), now)
    {
      if capacity == 0 {
        return false;
      }
      if last == 0 {
        last := now;
      }
      var elapsed := now - last;
      if elapsed > 0 {
        tokens := tokens + capacity as real * (elapsed as real / window as real);
        if tokens > capacity as real {
          tokens := capacity as real;
        }
        last := now;
      }
      if tokens < 1.0 {
        return false;
      }
      tokens := tokens - 1.0;
      return true;
    }
  }

  // ----- any interleaving of reconfiguration and use -----

  datatype Op = Reconfigure(capacity: int) | Attempt(now: Time)

  function Step(b: Bucket, op: Op): Bucket
    requires b.window > 0
  {
    match op
    case Reconfigure(capacity) => ConfigureBucket(b, capacity, b.window)
    case Attempt(now) => TakeBucket(b, now)
  }

  function AfterOps(b: Bucket, ops: seq<Op>): (r: Bucket)
    requires b.window > 0
    ensures r.window == b.window
  {
    if ops == [] then b else Step(AfterOps(b, ops[..|ops| - 1]), ops[|ops| - 1])
  }

  /** What one more operation adds to the count. */
  function Success(b: Bucket, op: Op): nat
    requires b.window > 0
  {
    if op.Attempt? && Takes(b, op.now) then 1 else 0
  }

  /** How many attempts succeed. */
  function Taken(b: Bucket, ops: seq<Op>): nat
    requires b.window > 0
  {
    if ops == [] then 0
    else
      var n := |ops| - 1;
      Taken(b, ops[..n]) + Success(AfterOps(b, ops[..n]), ops[n])
  }

  /** The clock the bucket starts counting from: its own, or the first it is shown. */
  function Origin(b: Bucket, ops: seq<Op>): Time
    requires b.window > 0
  {
    if ops == [] then b.last
    else
      var o := Origin(b, ops[..|ops| - 1]);
      if o != 0 then o else AfterOps(b, ops).last
  }

  ghost predicate Sound(b: Bucket) {
    b.window > 0 && 0.0 <= b.tokens <= b.capacity as real
  }

  ghost predicate Capped(b: Bucket, ops: seq<Op>, most: int) {
    && b.capacity <= most
    && forall i :: 0 <= i < |ops| && ops[i].Reconfigure? ==> ops[i].capacity <= most
  }

  lemma EarnedMonotone(c: int, d: int, elapsed: int, window: nat)
    requires window > 0 && elapsed >= 0 && c <= d
    ensures Earned(c, elapsed, window) <= Earned(d, elapsed, window)
    ensures c >= 0 ==> Earned(c, elapsed, window) >= 0.0
    ensures c < d && elapsed > 0 ==> Earned(c, elapsed, window) < Earned(d, elapsed, window)
  {
    var f := Fraction(elapsed, window);
    assert f >= 0.0 && (elapsed > 0 ==> f > 0.0);
    Scale(c as real, d as real, f);
    Scale(0.0, c as real, f);
  }

  lemma Scale(x: real, y: real, f: real)
    requires 0.0 <= f
    ensures x <= y ==> x * f <= y * f
    ensures x < y && 0.0 < f ==> x * f < y * f
  {
  }

  lemma EarnedAdds(c: int, a: int, b: int, window: nat)
    requires window > 0
    ensures Earned(c, a + b, window) == Earned(c, a, window) + Earned(c, b, window)
    ensures Earned(c, 0, window) == 0.0
  {
    var w := window as real;
    assert (a + b) as real / w == a as real / w + b as real / w;
    Distribute(c as real, a as real / w, b as real / w);
  }

  lemma Distribute(m: real, f: real, g: real)
    ensures m * (f + g) == m * f + m * g
  {
  }

  lemma EarnedInOneWindow(c: nat, elapsed: int, window: nat)
    requires window > 0 && elapsed <= window
    ensures Earned(c, elapsed, window) <= c as real
  {
    var f := Fraction(elapsed, window);
    assert f <= 1.0;
    ScaleRight(c as real, f, 1.0);
  }

  lemma ScaleRight(m: real, x: real, y: real)
    requires 0.0 <= m && x <= y
    ensures m * x <= m * y
  {
  }

  lemma RefillLaw(b: Bucket, now: Time, most: int)
    requires Sound(b) && b.capacity <= most
    ensures var r := Refill(b, now);
            && Sound(r) && r.last >= b.last && b.tokens <= r.tokens
            && r.tokens <= b.tokens + if b.last == 0 then 0.0 else Earned(most, r.last - b.last, b.window)
  {
    EarnedAdds(most, 0, 0, b.window);
    if b.last != 0 && now > b.last {
      EarnedMonotone(b.capacity, most, now - b.last, b.window);
    }
  }

  /** Tokens stay between zero and the capacity, and the bucket's clock never steps back. */
  lemma {:induction false} StaysSound(b: Bucket, ops: seq<Op>)
    requires Sound(b)
    ensures Sound(AfterOps(b, ops)) && AfterOps(b, ops).last >= b.last
    ensures Origin(b, ops) <= AfterOps(b, ops).last
    ensures Origin(b, ops) == 0 ==> AfterOps(b, ops).last == 0
  {
    if ops != [] {
      var n := |ops| - 1;
      StaysSound(b, ops[..n]);
      var mid := AfterOps(b, ops[..n]);
      if ops[n].Attempt? {
        RefillLaw(mid, ops[n].now, mid.capacity);
      }
    }
  }

  /** One attempt: what it takes and leaves is covered by what the bucket had and earned. */
  lemma AttemptLaw(b: Bucket, now: Time, most: int, origin: Time)
    requires Sound(b) && b.capacity <= most
    ensures var r := TakeBucket(b, now);
            (if Takes(b, now) then 1.0 else 0.0) + r.tokens
            <= b.tokens + if b.last == 0 then 0.0
              else Earned(most, r.last - origin, b.window) - Earned(most, b.last - origin, b.window)
  {
    RefillLaw(b, now, most);
    var r := TakeBucket(b, now);
    EarnedAdds(most, b.last - origin, r.last - b.last, b.window);
  }

  /** How far the origin and the clock move in the last step. */
  lemma LastStep(b: Bucket, ops: seq<Op>)
    requires Sound(b) && ops != []
    ensures var (front, n) := (ops[..|ops| - 1], |ops| - 1);
            && (AfterOps(b, front).last != 0 ==> Origin(b, ops) == Origin(b, front))
            && (AfterOps(b, front).last == 0 ==>
               AfterOps(b, ops).last == Origin(b, ops) && AfterOps(b, front).last == Origin(b, front))
  {
    StaysSound(b, ops[..|ops| - 1]);
    StaysSound(b, ops);
  }

  /** What the envelope allows: the tokens at the start plus what the cap earns meanwhile. */
  function Allowed(b: Bucket, ops: seq<Op>, most: int): real
    requires b.window > 0
  {
    b.tokens + Earned(most, AfterOps(b, ops).last - Origin(b, ops), b.window)
  }

  lemma AllowedStep(b: Bucket, ops: seq<Op>, most: int)
    requires Sound(b) && ops != [] && AfterOps(b, ops[..|ops| - 1]).capacity <= most
    ensures var front := ops[..|ops| - 1];
            Taken(b, ops) as real + AfterOps(b, ops).tokens - Allowed(b, ops, most)
            <= Taken(b, front) as real + AfterOps(b, front).tokens - Allowed(b, front, most)
  {
    var n := |ops| - 1;
    var mid := AfterOps(b, ops[..n]);
    StaysSound(b, ops[..n]);
    LastStep(b, ops);
    EarnedAdds(most, 0, 0, b.window);
    if ops[n].Attempt? {
      AttemptLaw(mid, ops[n].now, most, Origin(b, ops[..n]));
    }
  }

  /** The envelope: whatever the interleaving, and even when clocks step back, attempts that
      succeed number at most the tokens at the start plus what the cap earns over the time by
      which the bucket's own clock advanced. */
  lemma {:induction false} Envelope(b: Bucket, ops: seq<Op>, most: int)
    requires Sound(b) && Capped(b, ops, most) && most >= 0
    ensures Taken(b, ops) as real + AfterOps(b, ops).tokens <= Allowed(b, ops, most)
  {
    if ops == [] {
      EarnedAdds(most, 0, 0, b.window);
    } else {
      var n := |ops| - 1;
      Envelope(b, ops[..n], most);
      StaysCapped(b, ops[..n], most);
      AllowedStep(b, ops, most);
    }
  }

  lemma {:induction false} StaysCapped(b: Bucket, ops: seq<Op>, most: int)
    requires b.window > 0 && Capped(b, ops, most) && most >= 0
    ensures AfterOps(b, ops).capacity <= most
  {
    if ops != [] {
      StaysCapped(b, ops[..|ops| - 1], most);
    }
  }

  // ----- uses within a span of time -----

  ghost predicate AttemptsWithin(ops: seq<Op>, from: Time, span: nat) {
    forall i :: 0 <= i < |ops| && ops[i].Attempt? ==> from <= ops[i].now <= from + span
  }

  /** How much of the span the bucket's clock has covered. */
  function Covered(last: Time, from: Time, span: nat): nat {
    if last <= from then 0 else if last >= from + span then span else last - from
  }

  lemma SpanStep(b: Bucket, now: Time, most: int, from: Time, span: nat)
    requires Sound(b) && b.capacity <= most && from <= now <= from + span
    ensures var r := TakeBucket(b, now);
            && (Takes(b, now) ==> r.last >= from)
            && (b.last >= from ==> r.last >= from)
            && (if Takes(b, now) then 1.0 else 0.0) + r.tokens
               <= (if b.last < from then most as real
                   else b.tokens + Earned(most, Covered(r.last, from, span), b.window)
                        - Earned(most, Covered(b.last, from, span), b.window))
  {
    RefillLaw(b, now, most);
    var r := TakeBucket(b, now);
    EarnedAdds(most, Covered(b.last, from, span), Covered(r.last, from, span) - Covered(b.last, from, span), b.window);
    EarnedAdds(most, 0, 0, b.window);
  }

  lemma {:induction false} SpanLaw(b: Bucket, ops: seq<Op>, most: nat, from: Time, span: nat)
    requires Sound(b) && Capped(b, ops, most) && AttemptsWithin(ops, from, span)
    ensures AfterOps(b, ops).last < from ==> Taken(b, ops) == 0
    ensures Taken(b, ops) as real + AfterOps(b, ops).tokens <=
            most as real + Earned(most, Covered(AfterOps(b, ops).last, from, span), b.window)
  {
    if ops == [] {
      EarnedMonotone(most, most, Covered(b.last, from, span), b.window);
    } else {
      var n := |ops| - 1;
      var mid := AfterOps(b, ops[..n]);
      SpanLaw(b, ops[..n], most, from, span);
      StaysSound(b, ops[..n]);
      StaysCapped(b, ops[..n], most);
      if ops[n].Attempt? {
        SpanStep(mid, ops[n].now, most, from, span);
        EarnedMonotone(most, most, Covered(AfterOps(b, ops).last, from, span), b.window);
      }
    }
  }

  /** In any span of time, however full the bucket was and however it is reconfigured below the
      cap meanwhile, at most the cap plus what the cap earns over the span succeeds. */
  lemma SpanEnvelope(b: Bucket, ops: seq<Op>, most: nat, from: Time, span: nat)
    requires Sound(b) && Capped(b, ops, most) && AttemptsWithin(ops, from, span)
    ensures Taken(b, ops) as real <= most as real + Earned(most, span, b.window)
    ensures span <= b.window ==> Taken(b, ops) <= 2 * most
  {
    SpanLaw(b, ops, most, from, span);
    StaysSound(b, ops);
    var c := Covered(AfterOps(b, ops).last, from, span);
    EarnedAdds(most, c, span - c, b.window);
    EarnedMonotone(most, most, span - c, b.window);
    if span <= b.window {
      EarnedInOneWindow(most, span, b.window);
    }
  }

  lemma Snoc(b: Bucket, ops: seq<Op>, op: Op)
    requires b.window > 0
    ensures AfterOps(b, ops + [op]) == Step(AfterOps(b, ops), op)
    ensures Taken(b, ops + [op]) == Taken(b, ops) + Success(AfterOps(b, ops), op)
  {
    assert (ops + [op])[..|ops|] == ops;
  }

  /** Operations compose: running two stretches is running one after the other. */
  lemma {:induction false} AfterConcat(b: Bucket, x: seq<Op>, y: seq<Op>)
    requires b.window > 0
    ensures AfterOps(b, x + y) == AfterOps(AfterOps(b, x), y)
    ensures Taken(b, x + y) == Taken(b, x) + Taken(AfterOps(b, x), y)
  {
    if y == [] {
      assert x + y == x;
    } else {
      var n := |y| - 1;
      AfterConcat(b, x, y[..n]);
      assert x + y == (x + y[..n]) + [y[n]] && y == y[..n] + [y[n]];
      Snoc(b, x + y[..n], y[n]);
      Snoc(AfterOps(b, x), y[..n], y[n]);
    }
  }

  // ----- when the limit does count like a sliding window -----

  /** So many attempts at one moment. */
  function Attempts(now: Time, n: nat): seq<Op> {
    if n == 0 then [] else Attempts(now, n - 1) + [Attempt(now)]
  }

  /** Attempts at one moment all succeed while there is a whole token for each. */
  lemma {:induction false} Drain(b: Bucket, now: Time, n: nat)
    requires Sound(b) && now > 0 && n as real <= Refill(b, now).tokens
    ensures Taken(b, Attempts(now, n)) == n
    ensures AfterOps(b, Attempts(now, n)) == if n == 0 then b else Spent(Refill(b, now), n)
  {
    if n > 0 {
      Drain(b, now, n - 1);
      Snoc(b, Attempts(now, n - 1), Attempt(now));
      RefillLaw(b, now, b.capacity);
      SpendOne(b, now, n);
    }
  }

  function Spent(b: Bucket, n: nat): Bucket {
    b.(tokens := b.tokens - n as real)
  }

  lemma SpendOne(b: Bucket, now: Time, n: nat)
    requires Sound(b) && now > 0 && n > 0 && n as real <= Refill(b, now).tokens <= b.capacity as real
    ensures var before := if n == 1 then b else Spent(Refill(b, now), n - 1);
            before.window > 0 && Takes(before, now) && TakeBucket(before, now) == Spent(Refill(b, now), n)
  {
  }

  lemma Regroup(c: real, q: real, w: real, s: real, p: real)
    requires q * w == s && c * s == p
    ensures (c * q) * w == p
  {
    assert (c * q) * w == c * (q * w);
  }

  lemma QuotientTimes(s: real, w: real)
    requires w > 0.0
    ensures (s / w) * w == s
  {
  }

  lemma BelowOne(e: real, w: real, p: real)
    requires w > 0.0 && e * w == p
    ensures e < 1.0 <==> p < w
  {
    if e < 1.0 {
      assert (1.0 - e) * w > 0.0;
    } else {
      assert (e - 1.0) * w >= 0.0;
    }
  }

  lemma RatioBelowOne(c: real, s: real, w: real, p: real)
    requires w > 0.0 && c * s == p
    ensures c * (s / w) < 1.0 <==> p < w
  {
    QuotientTimes(s, w);
    Regroup(c, s / w, w, s, p);
    BelowOne(c * (s / w), w, p);
  }

  /** What a cap earns is less than one token exactly when the span is that short. */
  lemma EarnedBelowOne(c: nat, span: nat, window: nat)
    requires window > 0
    ensures Earned(c, span, window) < 1.0 <==> c * span < window
  {
    RealProduct(c, span);
    var product := c * span;
    RatioBelowOne(c as real, span as real, window as real, product as real);
    assert Earned(c, span, window) == c as real * (span as real / window as real);
    assert product as real < window as real <==> product < window;
  }

  /** A sound bucket, used within a span and never set above a cap. */
  ghost predicate UsedWithin(b: Bucket, ops: seq<Op>, most: nat, window: nat, from: Time, span: nat) {
    Sound(b) && b.window == window && Capped(b, ops, most) && AttemptsWithin(ops, from, span)
  }

  /** A full bucket, drained at the start of the span and tried once more at its end. */
  lemma OneTooMany(most: nat, window: nat, from: Time, span: nat)
    requires window > 0 && from > 0 && most * span >= window
    ensures var (b, ops) := (Bucket(most, most as real, window, from), Attempts(from, most) + [Attempt(from + span)]);
            UsedWithin(b, ops, most, window, from, span) && Taken(b, ops) == most + 1
  {
    var b := Bucket(most, most as real, window, from);
    OneTooManyFits(most, window, from, span);
    assert Refill(b, from) == b;
    Drain(b, from, most);
    Snoc(b, Attempts(from, most), Attempt(from + span));
    LastOne(most, window, from, span);
  }

  lemma OneTooManyFits(most: nat, window: nat, from: Time, span: nat)
    requires window > 0 && from > 0
    ensures UsedWithin(Bucket(most, most as real, window, from), Attempts(from, most) + [Attempt(from + span)], most,
            window, from, span)
  {
    AttemptsAre(from, most);
  }

  lemma LastOne(most: nat, window: nat, from: Time, span: nat)
    requires window > 0 && from > 0 && most * span >= window
    ensures most > 0 && Takes(Bucket(most, 0.0, window, from), from + span)
  {
    EarnedBelowOne(most, span, window);
    assert most > 0 && span > 0;
  }

  /** The limit is not a sliding count: a bucket of three a minute lets a fourth through
      twenty seconds after the first three. */
  lemma FourWithinAMinute(t: Time)
    requires t > 0
    ensures var ops := [Attempt(t), Attempt(t), Attempt(t), Attempt(t + 20 * SECOND)];
            Taken(NewBucket(3, MINUTE), ops) == 4
  {
    var b := NewBucket(3, MINUTE);
    assert Attempts(t, 1) == [Attempt(t)] && Attempts(t, 2) == [Attempt(t), Attempt(t)];
    assert Attempts(t, 3) == [Attempt(t), Attempt(t), Attempt(t)];
    Drain(b, t, 3);
    Snoc(b, Attempts(t, 3), Attempt(t + 20 * SECOND));
    assert Spent(Refill(b, t), 3) == Bucket(3, 0.0, MINUTE, t);
    LastOne(3, MINUTE, t, 20 * SECOND);
    assert Attempts(t, 3) + [Attempt(t + 20 * SECOND)] ==
           [Attempt(t), Attempt(t), Attempt(t), Attempt(t + 20 * SECOND)];
  }

  lemma {:induction false} AttemptsAre(now: Time, n: nat)
    ensures |Attempts(now, n)| == n && forall i :: 0 <= i < n ==> Attempts(now, n)[i] == Attempt(now)
  {
    if n > 0 {
      AttemptsAre(now, n - 1);
    }
  }

  /** The limit counts like a sliding window, at most the cap in any span of one length, exactly
      when the cap cannot earn a whole token over that length. */
  lemma SlidingCount(most: nat, window: nat, from: Time, span: nat)
    requires window > 0 && from > 0
    ensures (forall b, ops :: UsedWithin(b, ops, most, window, from, span) ==> Taken(b, ops) <= most) <==>
            most * span < window
  {
    EarnedBelowOne(most, span, window);
    if most * span < window {
      forall b, ops | UsedWithin(b, ops, most, window, from, span) ensures Taken(b, ops) <= most {
        SpanEnvelope(b, ops, most, from, span);
      }
    } else {
      OneTooMany(most, window, from, span);
    }
  }

  // ----- raising the capacity -----

  lemma NotRaised(t: Time)
    requires t > 0
    ensures Taken(Bucket(3, 0.0, MINUTE, t), Attempts(t + 20 * SECOND, 10)) == 1
  {
    var (drained, later) := (Bucket(3, 0.0, MINUTE, t), t + 20 * SECOND);
    assert Earned(3, 20 * SECOND, MINUTE) == 1.0;
    assert Refill(drained, later) == Bucket(3, 1.0, MINUTE, later);
    Drain(drained, later, 1);
    AllRefused(Bucket(3, 0.0, MINUTE, later), later, 9);
    AttemptsSplit(later, 1, 9);
    AfterConcat(drained, Attempts(later, 1), Attempts(later, 9));
  }

  lemma Raised(t: Time)
    requires t > 0
    ensures Taken(Bucket(3, 0.0, MINUTE, t), [Reconfigure(30)] + Attempts(t + 20 * SECOND, 10)) == 10
  {
    var (drained, raised, later) := (Bucket(3, 0.0, MINUTE, t), Bucket(30, 0.0, MINUTE, t), t + 20 * SECOND);
    assert Earned(30, 20 * SECOND, MINUTE) == 10.0;
    assert Refill(raised, later) == Bucket(30, 10.0, MINUTE, later);
    Drain(raised, later, 10);
    AfterConcat(drained, [Reconfigure(30)], Attempts(later, 10));
    assert [Reconfigure(30)][..0] == [];
    assert AfterOps(drained, [Reconfigure(30)]) == raised;
  }

  /** Raised from three a minute to thirty, an emptied bucket lets ten through at once after
      twenty seconds in which three a minute had earned a single one. */
  lemma RaiseHandsOutBurst(t: Time)
    requires t > 0
    ensures var (emptied, later) := (Bucket(3, 0.0, MINUTE, t), t + 20 * SECOND);
            && Taken(emptied, Attempts(later, 10)) == 1
            && Taken(emptied, [Reconfigure(30)] + Attempts(later, 10)) == 10
  {
    NotRaised(t);
    Raised(t);
  }

  lemma Refused(b: Bucket, now: Time)
    requires SpentOut(b, now)
    ensures TakeBucket(b, now) == b && !Takes(b, now)
  {
  }

  ghost predicate SpentOut(b: Bucket, now: Time) {
    Sound(b) && 0 < now <= b.last && b.tokens < 1.0
  }

  lemma {:induction false} AllRefused(b: Bucket, now: Time, n: nat)
    requires SpentOut(b, now)
    ensures Taken(b, Attempts(now, n)) == 0 && AfterOps(b, Attempts(now, n)) == b
  {
    if n > 0 {
      AllRefused(b, now, n - 1);
      Refused(b, now);
      OneMoreRefused(b, Attempts(now, n - 1), now);
    }
  }

  lemma OneMoreRefused(b: Bucket, ops: seq<Op>, now: Time)
    requires b.window > 0 && AfterOps(b, ops) == b && TakeBucket(b, now) == b && !Takes(b, now)
    ensures Taken(b, ops + [Attempt(now)]) == Taken(b, ops) && AfterOps(b, ops + [Attempt(now)]) == b
  {
    Snoc(b, ops, Attempt(now));
  }

  lemma {:induction false} AttemptsSplit(now: Time, m: nat, n: nat)
    ensures Attempts(now, m + n) == Attempts(now, m) + Attempts(now, n)
  {
    if n > 0 {
      AttemptsSplit(now, m, n - 1);
    }
  }

  /** Raising the capacity is meant not to hand out a burst. That holds exactly when no time
      has gone by since the bucket's clock: otherwise the elapsed time is paid at the new rate. */
  lemma RaisingPaysForThePast(b: Bucket, capacity: int, now: Time)
    requires Sound(b) && capacity > b.capacity
    ensures Refill(ConfigureBucket(b, capacity, b.window), now).tokens == Refill(b, now).tokens <==>
            (b.last == 0 || now <= b.last)
    ensures Refill(ConfigureBucket(b, capacity, b.window), now).tokens >= Refill(b, now).tokens
  {
    if b.last != 0 && now > b.last {
      EarnedMonotone(b.capacity, capacity, now - b.last, b.window);
    }
  }
}
