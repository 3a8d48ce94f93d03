/**
 * Rounding as the source does it with `Math.round(a / b)` and `(a / b).toFixed(1)`:
 * the nearest integer, a half rounded up. Figures are exact rationals here.
 */
module Numeric {

  /** `Math.round(a / b)` for a positive divisor. */
  function RoundDiv(a: int, b: int): (r: int)
    requires b > 0
    ensures 2 * b * r <= 2 * a + b < 2 * b * r + 2 * b
  {
    var q := (2 * a + b) / (2 * b);
    assert 2 * a + b == 2 * b * q + (2 * a + b) % (2 * b);
    q
  }

  /** Multiplying by a non-negative factor keeps an order. */
  /** One more copy of `x`. */
  lemma MulSucc(n: int, x: int)
    ensures (n + 1) * x == n * x + x
  {
  }

  lemma MulLe(c: int, x: int, y: int)
    requires c >= 0 && x <= y
    ensures c * x <= c * y
  {
    assert c * y - c * x == c * (y - x);
  }

  /** A positive factor can be cancelled from a strict order. */
  lemma MulLtCancel(c: int, x: int, y: int)
    requires c > 0 && c * x < c * y
    ensures x < y
  {
    if y <= x {
      MulLe(c, y, x);
    }
  }

  /** The bounds in `RoundDiv`'s contract pin the result down: only one integer meets them. */
  lemma RoundDivUnique(a: int, b: int, r: int)
    requires b > 0
    requires 2 * b * r <= 2 * a + b < 2 * b * r + 2 * b
    ensures RoundDiv(a, b) == r
  {
    var q := RoundDiv(a, b);
    assert 2 * b * r + 2 * b == 2 * b * (r + 1);
    assert 2 * b * q + 2 * b == 2 * b * (q + 1);
    MulLtCancel(2 * b, q, r + 1);
    MulLtCancel(2 * b, r, q + 1);
  }

  /** A quotient between two integers rounds to a value between them. */
  lemma RoundDivWithin(a: int, b: int, lo: int, hi: int)
    requires b > 0
    requires b * lo <= a <= b * hi
    ensures lo <= RoundDiv(a, b) <= hi
  {
    var r := RoundDiv(a, b);
    assert 2 * b * r + 2 * b == 2 * b * (r + 1);
    assert 2 * (b * lo) == 2 * b * lo && 2 * (b * hi) == 2 * b * hi;
    MulLtCancel(2 * b, lo, r + 1);
    MulLtCancel(2 * b, r, hi + 1) by {
      assert 2 * b * (hi + 1) == 2 * b * hi + 2 * b;
    }
  }

  /** An exact quotient is not changed by rounding. */
  lemma RoundDivExact(q: int, b: int)
    requires b > 0
    ensures RoundDiv(q * b, b) == q
  {
    assert 2 * (q * b) + b == 2 * b * q + b;
    RoundDivUnique(q * b, b, q);
  }

  /** Rounding keeps the order of the numerators. */
  lemma RoundDivMonotone(a: int, a': int, b: int)
    requires b > 0 && a <= a'
    ensures RoundDiv(a, b) <= RoundDiv(a', b)
  {
    var r, r' := RoundDiv(a, b), RoundDiv(a', b);
    assert 2 * b * r' + 2 * b == 2 * b * (r' + 1);
    MulLtCancel(2 * b, r, r' + 1);
  }

  /** `n` in tenths: `(part / whole * 100).toFixed(1)` read back as a number, 0 for an empty whole. */
  function RateTenths(part: int, whole: int): (r: int)
    requires whole >= 0
    ensures whole == 0 ==> r == 0
    ensures 0 <= part <= whole ==> 0 <= r <= 1000
  {
    if whole == 0 then 0
    else
      var r := RoundDiv(1000 * part, whole);
      assert 0 <= part <= whole ==> 0 <= r <= 1000 by {
        if 0 <= part <= whole {
          RoundDivWithin(1000 * part, whole, 0, 1000);
        }
      }
      r
  }
}
