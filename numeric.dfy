/**
 * Python's numeric operators that the simulation relies on, stated over
 * Dafny's exact `real` and `int`:
 *   - `abs` on a float,
 *   - `%` on floats (floor modulo: the result takes the sign of the divisor),
 *   - `int(v)` on a float (truncation toward zero).
 * Floating-point rounding is not modelled; every operation here is exact.
 */
module Numeric {

  /** Python's `abs` on a number. */
  function Abs(x: real): (r: real)
    ensures r >= 0.0
    ensures r == x || r == -x
  {
    if x < 0.0 then -x else x
  }

  /** `x` has no fractional part. */
  predicate IsWhole(x: real) {
    x.Floor as real == x
  }

  /**
   * Python's `x % m` on floats. A zero divisor raises ZeroDivisionError in
   * Python, so it is excluded. The result lies strictly inside the divisor's
   * range on the divisor's side of zero, and `x` and the result differ by a
   * whole number of divisors.
   */
  function FloorMod(x: real, m: real): (r: real)
    requires m != 0.0
    ensures m > 0.0 ==> 0.0 <= r < m
    ensures m < 0.0 ==> m < r <= 0.0
  {
    var q := (x / m).Floor;
    FloorModFacts(x, m, q);
    x - m * q as real
  }

  /** `x` and `x % m` differ by a whole number of divisors. */
  lemma FloorModShift(x: real, m: real)
    requires m != 0.0
    ensures IsWhole((x - FloorMod(x, m)) / m)
  {
    var q := (x / m).Floor;
    FloorModFacts(x, m, q);
    assert FloorMod(x, m) == x - m * q as real;
    assert (q as real).Floor == q;
  }

  /** The arithmetic behind FloorMod's contract, with the quotient named. */
  lemma FloorModFacts(x: real, m: real, q: int)
    requires m != 0.0 && q == (x / m).Floor
    ensures m > 0.0 ==> 0.0 <= x - m * q as real < m
    ensures m < 0.0 ==> m < x - m * q as real <= 0.0
    ensures (x - (x - m * q as real)) / m == q as real
  {
    var f := x / m - q as real;
    assert 0.0 <= f < 1.0;
    assert m * (x / m) == x;
    assert x - m * q as real == m * f;
    ScaleFraction(m, f);
  }

  /** Scaling a fraction in [0, 1) by `m` stays on `m`'s side of zero, short of `m`. */
  lemma ScaleFraction(m: real, f: real)
    requires 0.0 <= f < 1.0
    ensures m > 0.0 ==> 0.0 <= m * f < m
    ensures m < 0.0 ==> m < m * f <= 0.0
  {
    assert m - m * f == m * (1.0 - f);
  }

  /**
   * A value already inside the divisor's range is left alone by `%`; this is
   * why a stopped vehicle keeps its position.
   */
  lemma FloorModIdentity(x: real, m: real)
    requires (m > 0.0 && 0.0 <= x < m) || (m < 0.0 && m < x <= 0.0)
    ensures FloorMod(x, m) == x
  {
    var q := x / m;
    assert x == m * q;
    assert 0.0 <= q < 1.0 by {
      if q < 0.0 {
        ProductSign(m, q);
      } else if q >= 1.0 {
        assert m * q - m == m * (q - 1.0);
        ProductSign(m, q - 1.0);
      }
    }
    assert q.Floor == 0;
  }

  /** The sign of a product, for the non-linear steps above. */
  lemma ProductSign(a: real, b: real)
    ensures a > 0.0 && b < 0.0 ==> a * b < 0.0
    ensures a < 0.0 && b < 0.0 ==> a * b > 0.0
    ensures a > 0.0 && b >= 0.0 ==> a * b >= 0.0
    ensures a < 0.0 && b >= 0.0 ==> a * b <= 0.0
  {
  }

  /** Python's `int(v)` on a float: truncation toward zero. */
  function Trunc(v: real): (r: int)
    ensures v >= 0.0 ==> 0 <= r && r as real <= v < r as real + 1.0
    ensures v < 0.0 ==> r <= 0 && r as real - 1.0 < v <= r as real
  {
    if v >= 0.0 then v.Floor else -((-v).Floor)
  }
}
