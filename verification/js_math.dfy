/**
 * The JavaScript `Math` and `%` operations the routes use, over exact reals.
 * IEEE-754 rounding is not modelled: a JS number is a `real` here.
 */
module JsMath {

  /** `Math.floor`: the greatest integer not above `r`. */
  function Floor(r: real): (n: int)
    ensures n as real <= r < n as real + 1.0
  {
    r.Floor
  }

  /** Rounding toward zero, which is how JS `%` picks its quotient. */
  function Trunc(r: real): (n: int)
    ensures r >= 0.0 ==> n == Floor(r)
    ensures r < 0.0 ==> n == -Floor(-r)
  {
    if r >= 0.0 then Floor(r) else -Floor(-r)
  }

  /** JS `a % b`: the remainder takes the sign of the dividend (unlike Dafny's `%`). */
  function Rem(a: real, b: real): real
    requires b != 0.0
  {
    a - b * Trunc(a / b) as real
  }

  /** For a non-negative dividend and a positive divisor, JS `%` is the usual modulus. */
  lemma RemNonNegative(a: real, b: real)
    requires a >= 0.0 && b > 0.0
    ensures Rem(a, b) == a - b * Floor(a / b) as real
    ensures 0.0 <= Rem(a, b) < b
  {
    var q := Floor(a / b) as real;
    var x := a / b;
    assert q <= x < q + 1.0;
    assert b * x == a;
    assert x >= 0.0 by {
      if x < 0.0 { ScaleStrict(b, x, 0.0); }
    }
    assert Trunc(x) == Floor(x);
    ScaleStrict(b, x, q + 1.0);
    assert b * (q + 1.0) == b * q + b;
    if q < x {
      ScaleStrict(b, q, x);
    }
    assert Rem(a, b) == a - b * q;
    assert a < b * q + b;
  }

  lemma ScaleStrict(b: real, x: real, y: real)
    requires b > 0.0 && x < y
    ensures b * x < b * y
  {
    assert b * y - b * x == b * (y - x);
  }

  /** `Math.min` on two numbers. */
  function Min(a: real, b: real): (r: real)
    ensures r <= a && r <= b
    ensures r == a || r == b
  {
    if a <= b then a else b
  }

  /**
   * `Math.round(Math.sqrt(q))` for `q >= 0`: the integer n with
   * `(n - 1/2)^2 <= q < (n + 1/2)^2` (rounding half up, as `Math.round` does).
   */
  function RoundSqrt(q: real): (n: nat)
    requires q >= 0.0
    ensures IsRoundedRoot(q, n)
  {
    RoundSqrtFrom(q, 0)
  }

  ghost predicate IsRoundedRoot(q: real, n: nat) {
    && (n == 0 || (n as real - 0.5) * (n as real - 0.5) <= q)
    && q < (n as real + 0.5) * (n as real + 0.5)
  }

  /** Searches upward from `k` for the rounded root. */
  function RoundSqrtFrom(q: real, k: nat): (n: nat)
    requires q >= 0.0
    requires k == 0 || (k as real - 0.5) * (k as real - 0.5) <= q
    ensures IsRoundedRoot(q, n)
    ensures n >= k
    decreases q.Floor + 1 - k
  {
    var h := k as real + 0.5;
    if q < h * h then k
    else
      assert h * h == (k * k) as real + k as real + 0.25;
      assert q.Floor >= k;
      RoundSqrtFrom(q, k + 1)
  }

  /** The rounded root is unique, so `RoundSqrt` is the rounded square root. */
  lemma RoundedRootUnique(q: real, m: nat, n: nat)
    requires IsRoundedRoot(q, m) && IsRoundedRoot(q, n)
    ensures m == n
  {
    if m < n {
      assert (m as real + 0.5) <= (n as real - 0.5);
      SquareMonotone(m as real + 0.5, n as real - 0.5);
    } else if n < m {
      assert (n as real + 0.5) <= (m as real - 0.5);
      SquareMonotone(n as real + 0.5, m as real - 0.5);
    }
  }

  lemma SquareMonotone(a: real, b: real)
    requires 0.0 <= a <= b
    ensures a * a <= b * b
  {
    assert a * a <= a * b;
    assert a * b <= b * b;
  }
}
