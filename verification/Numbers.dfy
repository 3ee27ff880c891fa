/** Integer and real conversions as Go performs them, on unbounded numbers. */
module Numbers {

  /** Nanoseconds since Go's zero time, so that `IsZero()` is `t == 0`. */
  type Time = nat

  const SECOND: nat := 1_000_000_000
  const MINUTE: nat := 60 * SECOND
  const MIB: nat := 1024 * 1024

  /** Go's integer division by a positive number: it truncates toward zero. */
  function GoDiv(a: int, b: int): int
    requires b > 0
  {
    if a >= 0 then a / b else -((-a) / b)
  }

  /** Go's float-to-integer conversion: it truncates toward zero. */
  function Trunc(r: real): int {
    if r >= 0.0 then r.Floor else -((-r).Floor)
  }

  /** `math.Round`: halves move away from zero. */
  function Round(r: real): int {
    if r >= 0.0 then (r + 0.5).Floor else -((-r + 0.5).Floor)
  }

  function Abs(v: int): int {
    if v < 0 then -v else v
  }

  lemma FloorMonotone(x: real, y: real)
    requires x <= y
    ensures x.Floor <= y.Floor
  {
  }

  lemma TruncMonotone(x: real, y: real)
    requires x <= y
    ensures Trunc(x) <= Trunc(y)
  {
    if x >= 0.0 {
      FloorMonotone(x, y);
    } else if y < 0.0 {
      FloorMonotone(-y, -x);
    }
  }

  /** Truncation drops the fraction, towards zero; rounding goes to the nearest whole number, and
      from half way between two to the one farther from zero. */
  lemma {:induction false} WholeLaw(x: real)
    ensures x >= 0.0 ==> Trunc(x) as real <= x < Trunc(x) as real + 1.0
    ensures x <= 0.0 ==> Trunc(x) as real - 1.0 < x <= Trunc(x) as real
    ensures x >= 0.0 ==> Round(x) as real - 0.5 <= x < Round(x) as real + 0.5
    ensures x <= 0.0 ==> Round(x) as real - 0.5 < x <= Round(x) as real + 0.5
  {
  }

  lemma DivExact(n: int, d: int)
    requires d > 0
    ensures n * d / d == n
  {
    var (q, r) := (n * d / d, n * d % d);
    var e := n - q;
    assert n * d == q * d + r;
    assert e * d == r;
    assert e >= 1 ==> e * d >= d;
    assert e <= -1 ==> e * d <= -d;
  }

  lemma DivMonotone(a: int, b: int, d: int)
    requires d > 0 && a <= b
    ensures a / d <= b / d
  {
    var q, r := a / d, b / d;
    assert a == d * q + a % d && b == d * r + b % d;
    assert q >= r + 1 ==> d * q >= d * (r + 1) == d * r + d;
  }

  lemma GoDivMonotone(a: int, b: int, d: int)
    requires d > 0 && a <= b
    ensures GoDiv(a, d) <= GoDiv(b, d)
  {
    if a >= 0 {
      DivMonotone(a, b, d);
    } else if b < 0 {
      DivMonotone(-b, -a, d);
    } else {
      DivMonotone(0, -a, d);
      DivMonotone(0, b, d);
    }
  }

  /** The quotient times the divisor never exceeds a non-negative dividend. */
  lemma GoDivBounds(a: int, d: int)
    requires d > 0
    ensures a >= 0 ==> 0 <= GoDiv(a, d) && d * GoDiv(a, d) <= a < d * GoDiv(a, d) + d
    ensures a < 0 ==> d * GoDiv(a, d) >= a && GoDiv(a, d) <= 0
  {
    if a >= 0 {
      DivBounds(a, d);
    } else {
      DivBounds(-a, d);
      assert d * GoDiv(a, d) == -(d * (-a / d));
    }
  }

  lemma DivBounds(a: int, d: int)
    requires d > 0 && a >= 0
    ensures 0 <= a / d && d * (a / d) <= a < d * (a / d) + d
  {
    assert a == d * (a / d) + a % d;
    DivMonotone(0, a, d);
    assert 0 / d == 0;
  }

  /** Converting to reals commutes with multiplication. */
  lemma {:induction false} RealProduct(a: nat, b: nat)
    ensures (a * b) as real == a as real * b as real
  {
    if a > 0 {
      RealProduct(a - 1, b);
      assert a * b == (a - 1) * b + b;
      assert (a - 1) as real * b as real == a as real * b as real - b as real;
    }
  }

  /** A power of a real. */
  function Pow(x: real, n: nat): real {
    if n == 0 then 1.0 else x * Pow(x, n - 1)
  }

  lemma {:induction false} PowAtLeastOne(x: real, n: nat)
    requires x >= 1.0
    ensures Pow(x, n) >= 1.0
  {
    if n > 0 {
      PowAtLeastOne(x, n - 1);
      assert (x - 1.0) * Pow(x, n - 1) >= 0.0;
    }
  }
}
