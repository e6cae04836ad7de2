/** JavaScript's `Math.round` applied to a non-negative quotient `a / b`,
    computed exactly on integers.

    For a non-negative real x, `Math.round(x)` is the integer r with
    r - 1/2 <= x < r + 1/2: the nearest integer, with halves going up.
    Multiplying through by 2b turns that into an integer condition, and
    `(2a + b) / (2b)` with floor division is the integer meeting it.
 */
module Rounding {

  /** `r` is the nearest integer to `a / b`, ties rounded toward +infinity. */
  ghost predicate IsRoundedQuotient(r: int, a: int, b: int) {
    b * (2 * r - 1) <= 2 * a < b * (2 * r + 1)
  }

  /** `Math.round(a / b)` for `a >= 0` and `b > 0`. */
  function RoundDiv(a: nat, b: nat): (r: nat)
    requires b > 0
    ensures IsRoundedQuotient(r, a, b)
  {
    var q := (2 * a + b) / (2 * b);
    assert 2 * a + b == 2 * b * q + (2 * a + b) % (2 * b);
    assert b * (2 * q - 1) == 2 * b * q - b;
    assert b * (2 * q + 1) == 2 * b * q + b;
    q
  }

  /** At most one integer rounds `a / b`, so `RoundDiv` is the rounding. */
  lemma RoundedQuotientUnique(r: int, s: int, a: int, b: int)
    requires b > 0
    requires IsRoundedQuotient(r, a, b) && IsRoundedQuotient(s, a, b)
    ensures r == s
  {
    if r < s {
      // b * (2r + 1) <= b * (2s - 1), contradicting the two bounds on 2a
      assert 2 * r + 1 <= 2 * s - 1;
      MulMonotone(b, 2 * r + 1, 2 * s - 1);
    } else if s < r {
      assert 2 * s + 1 <= 2 * r - 1;
      MulMonotone(b, 2 * s + 1, 2 * r - 1);
    }
  }

  /** A quotient that is at most `x` rounds to at most `x`. */
  lemma RoundDivAtMost(a: nat, b: nat, x: nat)
    requires b > 0
    requires a <= x * b
    ensures RoundDiv(a, b) <= x
  {
    var r := RoundDiv(a, b);
    assert b * (2 * x + 1) == 2 * (x * b) + b;
    if r > x {
      // b * (2r - 1) >= b * (2x + 1) > 2 * x * b >= 2a
      MulMonotone(b, 2 * x + 1, 2 * r - 1);
    }
  }

  /** Rounding never decreases as the numerator grows. */
  lemma RoundDivMonotone(a1: nat, a2: nat, b: nat)
    requires b > 0
    requires a1 <= a2
    ensures RoundDiv(a1, b) <= RoundDiv(a2, b)
  {
    var r1, r2 := RoundDiv(a1, b), RoundDiv(a2, b);
    if r1 > r2 {
      // b * (2r2 + 1) <= b * (2r1 - 1) <= 2a1 <= 2a2 < b * (2r2 + 1)
      MulMonotone(b, 2 * r2 + 1, 2 * r1 - 1);
    }
  }

  /** Rounding never increases as the denominator grows. */
  lemma RoundDivAntitone(a: nat, b1: nat, b2: nat)
    requires 0 < b1 <= b2
    ensures RoundDiv(a, b2) <= RoundDiv(a, b1)
  {
    var r1, r2 := RoundDiv(a, b1), RoundDiv(a, b2);
    assert b1 * (2 * r2 - 1) == (2 * r2 - 1) * b1;
    assert b2 * (2 * r2 - 1) == (2 * r2 - 1) * b2;
    if r2 > r1 {
      // b1 * (2r1 + 1) <= b1 * (2r2 - 1) <= b2 * (2r2 - 1) <= 2a < b1 * (2r1 + 1)
      MulMonotone(2 * r2 - 1, b1, b2);
      MulMonotone(b1, 2 * r1 + 1, 2 * r2 - 1);
    }
  }

  /** A quotient rounds to zero exactly when it is below one half. */
  lemma RoundDivZeroIff(a: nat, b: nat)
    requires b > 0
    ensures RoundDiv(a, b) == 0 <==> 2 * a < b
  {
    var r := RoundDiv(a, b);
    if r > 0 {
      MulMonotone(b, 1, 2 * r - 1);
    }
  }

  lemma MulMonotone(k: nat, x: int, y: int)
    requires x <= y
    ensures k * x <= k * y
  {
    assert k * y - k * x == k * (y - x);
  }
}
