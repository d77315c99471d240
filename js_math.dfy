/**
 * The few JavaScript number operations the editor relies on, written out over `real`.
 * JavaScript's `%` truncates toward zero (the result takes the sign of the dividend),
 * unlike Dafny's Euclidean `%`, so it is defined here explicitly.
 */
module JsMath {

  /** `Math.max(a, b)` */
  function Max(a: real, b: real): (m: real)
    ensures m >= a && m >= b
    ensures m == a || m == b
  {
    if a >= b then a else b
  }

  /** `Math.min(a, b)` */
  function Min(a: real, b: real): (m: real)
    ensures m <= a && m <= b
    ensures m == a || m == b
  {
    if a <= b then a else b
  }

  /** `Math.trunc(q)`: the integer part of q, rounding toward zero. */
  function Trunc(q: real): (t: int)
    ensures q >= 0.0 ==> 0.0 <= t as real <= q < t as real + 1.0
    ensures q < 0.0 ==> t as real - 1.0 < q <= t as real <= 0.0
  {
    if q >= 0.0 then q.Floor else -((-q).Floor)
  }

  /** JavaScript's remainder `a % b`: a minus b times the truncated quotient. */
  function Rem(a: real, b: real): (r: real)
    requires b != 0.0
    ensures 0.0 <= a < b ==> r == a
  {
    if 0.0 <= a < b then QuotientBelowOne(a, b); a - b * (Trunc(a / b) as real)
    else a - b * (Trunc(a / b) as real)
  }

  /** A quotient of a non-negative dividend by a larger divisor lies in [0, 1). */
  lemma QuotientBelowOne(a: real, b: real)
    requires 0.0 <= a < b
    ensures 0.0 <= a / b < 1.0
  {
    assert a / b * b == a;
  }

  /** True when r has no fractional part. */
  predicate IsWhole(r: real) {
    r.Floor as real == r
  }

  /** For a positive divisor, `a % b` lies strictly between -b and b and has the sign of a. */
  lemma RemRange(a: real, b: real)
    requires b > 0.0
    ensures -b < Rem(a, b) < b
    ensures a >= 0.0 ==> Rem(a, b) >= 0.0
    ensures a <= 0.0 ==> Rem(a, b) <= 0.0
  {
    var q := a / b;
    var t := Trunc(q) as real;
    RemAsFraction(a, b, q, t);
    ScaledFraction(b, q - t, Rem(a, b));
    assert a >= 0.0 ==> q >= 0.0;
    assert a <= 0.0 ==> q <= 0.0;
  }

  /** With q the exact quotient a / b, a - b * t equals b times the fraction q - t. */
  lemma RemAsFraction(a: real, b: real, q: real, t: real)
    requires b != 0.0 && q == a / b
    ensures a - b * t == b * (q - t)
  {
  }

  /** Scaling by a positive b keeps a fraction in (-1, 1) inside (-b, b), with its sign. */
  lemma ScaledFraction(b: real, f: real, r: real)
    requires b > 0.0 && -1.0 < f < 1.0 && r == b * f
    ensures -b < r < b
    ensures f >= 0.0 ==> r >= 0.0
    ensures f <= 0.0 ==> r <= 0.0
  {
  }

  /** `a % b` differs from a by a whole multiple of b. */
  lemma RemCongruent(a: real, b: real)
    requires b > 0.0
    ensures IsWhole((a - Rem(a, b)) / b)
  {
    var t := Trunc(a / b);
    assert a - Rem(a, b) == b * (t as real);
    assert (a - Rem(a, b)) / b == t as real;
  }
}
