/**
 * Exact real arithmetic standing in for the two numeric primitives the
 * calculator uses: `Math.pow` with a whole exponent, and `Number(x.toFixed(2))`.
 */
module Arithmetic {

  /** x to the power n, for a whole exponent. */
  function Pow(x: real, n: nat): real
  {
    if n == 0 then 1.0 else x * Pow(x, n - 1)
  }

  lemma {:induction false} PowOfOne(n: nat)
    ensures Pow(1.0, n) == 1.0
  {
    if n > 0 {
      PowOfOne(n - 1);
    }
  }

  lemma {:induction false} PowAtLeastOne(x: real, n: nat)
    requires x >= 1.0
    ensures Pow(x, n) >= 1.0
  {
    if n > 0 {
      PowAtLeastOne(x, n - 1);
      assert x * Pow(x, n - 1) >= Pow(x, n - 1);
    }
  }

  /** Math.pow(x, n) grows strictly with n when x > 1. */
  lemma {:induction false} PowIncreasing(x: real, j: nat, k: nat)
    requires x > 1.0 && j < k
    ensures 1.0 <= Pow(x, j) < Pow(x, k)
  {
    PowAtLeastOne(x, k - 1);
    assert Pow(x, k - 1) < x * Pow(x, k - 1);
    if j < k - 1 {
      PowIncreasing(x, j, k - 1);
    } else {
      PowAtLeastOne(x, j);
    }
  }

  lemma PowGreaterThanOne(x: real, n: nat)
    requires x > 1.0 && n >= 1
    ensures Pow(x, n) > 1.0
  {
    PowIncreasing(x, 0, n);
  }

  lemma MulPositive(a: real, b: real)
    requires a > 0.0 && b > 0.0
    ensures a * b > 0.0
  {
  }

  lemma PositiveFactor(a: real, b: real)
    requires a * b > 0.0 && b > 0.0
    ensures a > 0.0
  {
  }

  lemma MulStrictlyIncreasing(a: real, b: real, c: real)
    requires a > 0.0 && b > c
    ensures a * b > a * c
  {
  }

  lemma CancelPositive(a: real, b: real, c: real)
    requires c > 0.0 && a * c > b * c
    ensures a > b
  {
  }

  lemma CancelNonZero(x: real, y: real, c: real)
    requires c != 0.0 && x * c == y * c
    ensures x == y
  {
    assert (x - y) * c == 0.0;
  }

  /**
   * The whole number of cents toFixed(2) prints for x: the magnitude is
   * rounded to the nearest cent, ties upwards, and the sign is kept.
   */
  function Cents(x: real): (c: int)
    ensures x * 100.0 - 0.5 <= c as real <= x * 100.0 + 0.5
    ensures x >= 0.0 ==> c >= 0
    ensures x >= 0.0 ==> x * 100.0 - 0.5 < c as real
    ensures x < 0.0 ==> c as real < x * 100.0 + 0.5
  {
    if x >= 0.0 then (x * 100.0 + 0.5).Floor else -((-x * 100.0 + 0.5).Floor)
  }

  /** Number(x.toFixed(2)) over exact reals. */
  function Round2(x: real): (r: real)
    ensures -0.005 <= r - x <= 0.005
    ensures (r * 100.0).Floor as real == r * 100.0
    ensures x >= 0.0 ==> r >= 0.0
  {
    var c := Cents(x);
    CentsToReal(x, c);
    c as real / 100.0
  }

  /** A cent count within half a cent of 100x, read back as a value. */
  lemma CentsToReal(x: real, c: int)
    requires x * 100.0 - 0.5 <= c as real <= x * 100.0 + 0.5
    requires x >= 0.0 ==> c >= 0
    ensures -0.005 <= c as real / 100.0 - x <= 0.005
    ensures ((c as real / 100.0) * 100.0).Floor as real == (c as real / 100.0) * 100.0
    ensures x >= 0.0 ==> c as real / 100.0 >= 0.0
  {
    assert (c as real / 100.0) * 100.0 == c as real;
  }

  /** A value that is already a whole number of cents is printed unchanged. */
  lemma Round2OfCents(x: real)
    requires (x * 100.0).Floor as real == x * 100.0
    ensures Round2(x) == x
  {
    var c := (x * 100.0).Floor;
    if x >= 0.0 {
      assert (x * 100.0 + 0.5).Floor == c;
    } else {
      assert (-x * 100.0 + 0.5).Floor == -c;
    }
  }

  lemma Round2Idempotent(x: real)
    ensures Round2(Round2(x)) == Round2(x)
  {
    Round2OfCents(Round2(x));
  }
}
