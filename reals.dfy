/** Facts about exact real arithmetic that the dual-number proofs rest on:
    natural powers (Python's `**` with a non-negative integer exponent) and
    cancellation laws for division. Each is proved once here over plain
    variables, so that the proofs about dual numbers can use it by name. */
module Reals {

  /** `r ** n` for a natural exponent (`0 ** 0 == 1`, as in Python). */
  function RealPow(r: real, n: nat): real
  {
    if n == 0 then 1.0 else r * RealPow(r, n - 1)
  }

  lemma RealPowOne(r: real)
    ensures RealPow(r, 1) == r
  {
    assert RealPow(r, 1) == r * RealPow(r, 0);
  }

  lemma RealPowTwo(r: real)
    ensures RealPow(r, 2) == r * r
  {
    RealPowOne(r);
    assert RealPow(r, 2) == r * RealPow(r, 1);
  }

  /** A power of a non-zero real is non-zero. */
  lemma {:induction false} RealPowNonZero(r: real, n: nat)
    requires r != 0.0
    ensures RealPow(r, n) != 0.0
  {
    if n > 0 {
      RealPowNonZero(r, n - 1);
    }
  }

  /** `a * b`. Definitions by cases that multiply compound terms use this
      name (and `Ratio` for division), so that the arithmetic of one case
      only enters a proof once that case is known to apply. */
  function Times(a: real, b: real): real
  {
    a * b
  }

  /** `n / d`; see `Times`. */
  function Ratio(n: real, d: real): real
    requires d != 0.0
  {
    n / d
  }

  /** Division by `d` undoes multiplication by `d`. */
  lemma Cancel(n: real, d: real, b: real)
    requires d != 0.0 && n == b * d
    ensures n / d == b
  {
  }

  /** A product with a non-zero factor is zero only if the other factor is. */
  lemma ZeroProduct(a: real, b: real)
    requires a != 0.0 && a * b == 0.0
    ensures b == 0.0
  {
    assert b == (a * b) / a;
  }

  /** `(a / k) · k² == a · k`. */
  lemma ScaledQuotient(a: real, k: real)
    requires k != 0.0
    ensures (a / k) * (k * k) == a * k
  {
    var q := a / k;
    assert q * k == a;
    calc {
      q * (k * k);
      (q * k) * k;
      a * k;
    }
  }

  /** A non-zero `a` is fixed by division by `k` only for `k == 1`. */
  lemma FixedPointOfDivision(a: real, k: real)
    requires k != 0.0 && a != 0.0 && a / k == a
    ensures k == 1.0
  {
    assert (a / k) * k == a;
    assert a * (k - 1.0) == 0.0;
    ZeroProduct(a, k - 1.0);
  }
}
