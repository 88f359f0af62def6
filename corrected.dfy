/** Textbook dual-number arithmetic for the four places where duals.py
    departs from it, and the lemmas that relate the code as written to it.

    - `Dual * Dual` (duals.py:46-48) adds the dual parts; the product rule
      derived in the comment at duals.py:43-45 is `MulFixed`.
    - `Dual / number` (duals.py:67) leaves the dual part undivided;
      `DivNumFixed` divides it.
    - `number - Dual` reaches `__rsub__ = __sub__` (duals.py:36) and so
      computes `Dual - number`; `RSubFixed` computes `number - Dual`.
    - `__rdiv__` with a number (duals.py:76) returns `1 / dual_part` as the
      dual part; `RDivNumFixed` applies the quotient rule.
    - `X ** 0` at a zero real part (duals.py:88) computes `0 ** -1` for the
      dual part and raises; `PowFixed` returns `(1, 0)`, the constant one. */
module Corrected {

  import opened Reals
  import opened Duals

  /** The product rule: (a + bε)(c + dε) = ac + (ad + cb)ε. */
  function MulFixed(x: Dual, y: Dual): Dual
  {
    Dual(x.re * y.re, x.re * y.du + y.re * x.du)
  }

  /** `Dual / k` dividing both parts. */
  function DivNumFixed(x: Dual, k: real): Dual
    requires k != 0.0
  {
    Dual(x.re / k, x.du / k)
  }

  /** `c - X`: the constant minus the dual number. */
  function RSubFixed(x: Dual, c: real): Dual
  {
    Dual(c - x.re, -x.du)
  }

  /** `c / X` by the quotient rule: (c/a, -c·b/a²). */
  function RDivNumFixed(x: Dual, c: real): Dual
    requires x.re != 0.0
  {
    RealPowNonZero(x.re, 2);
    Dual(c / x.re, -(c * x.du) / RealPow(x.re, 2))
  }

  /** `X ** n` with `X ** 0 == (1, 0)` for every `X`, and the code's power
      rule for `n >= 1`. */
  function PowFixed(x: Dual, n: nat): Dual
  {
    if n == 0 then Constant(1.0) else PowNum(x, n)
  }

  /** `X` multiplied by itself `n` times with the product rule. */
  function ProductPower(x: Dual, n: nat): Dual
  {
    if n == 0 then Constant(1.0) else MulFixed(x, ProductPower(x, n - 1))
  }

  // ---------------------------------------------------------------------
  // The product rule

  /** The product rule is commutative and associative. */
  lemma MulFixedCommutesAndAssociates(x: Dual, y: Dual, z: Dual)
    ensures MulFixed(x, y) == MulFixed(y, x)
    ensures MulFixed(MulFixed(x, y), z) == MulFixed(x, MulFixed(y, z))
  {
    assert (x.re * y.re) * z.re == x.re * (y.re * z.re);
    assert (x.re * y.re) * z.du + z.re * (x.re * y.du + y.re * x.du)
        == x.re * (y.re * z.du + z.re * y.du) + (y.re * z.re) * x.du;
  }

  /** On a promoted constant, the product rule is exactly the code's
      scalar branch (duals.py:49-50), in either order. */
  lemma MulFixedOnConstantIsScalarMul(x: Dual, k: real)
    ensures MulFixed(x, Constant(k)) == MulNum(x, k)
    ensures MulFixed(Constant(k), x) == MulNum(x, k)
  {
  }

  /** The code's quotient rule (duals.py:58-65) undoes the product rule:
      so the `Dual / Dual` branch is right, and it is the product branch
      that is not. */
  lemma QuotientUndoesProduct(x: Dual, y: Dual)
    requires y.re != 0.0
    ensures DivDual(MulFixed(x, y), y) == x
  {
    RealPowNonZero(y.re, 2);
    RealPowTwo(y.re);
    Cancel((x.re * y.du + y.re * x.du) * y.re - y.du * (x.re * y.re), RealPow(y.re, 2), x.du);
    Cancel(x.re * y.re, y.re, x.re);
  }

  /** The code's `Dual * Dual` is not undone by its own quotient rule:
      ((4, 3) * (5, 7)) / (5, 7) is (4, -3.6), not (4, 3). */
  lemma QuotientDoesNotUndoCodeProduct()
    ensures DivDual(MulDual(Dual(4.0, 3.0), Dual(5.0, 7.0)), Dual(5.0, 7.0)) == Dual(4.0, -3.6)
  {
    RealPowTwo(5.0);
  }

  /** The code's `Dual * Dual` meets the product rule exactly when
      `x.du + y.du == x.re·y.du + y.re·x.du` (for (4, 3) and (5, 7) it does
      not: `DualMulBreaksProductRule`). */
  lemma CodeProductVersusProductRule(x: Dual, y: Dual)
    ensures MulDual(x, y) == MulFixed(x, y) <==> x.du + y.du == x.re * y.du + y.re * x.du
  {
  }

  // ---------------------------------------------------------------------
  // Division by a number

  /** `DivNumFixed` is the `Dual / Dual` branch on the promoted divisor,
      and it undoes the scalar product. */
  lemma DivNumFixedIsPromotedDiv(x: Dual, k: real)
    requires k != 0.0
    ensures DivNumFixed(x, k) == DivDual(x, Constant(k))
    ensures DivNumFixed(MulNum(x, k), k) == x
  {
    PromotedDivisorDividesBoth(x, k);
    Cancel(x.re * k, k, x.re);
    Cancel(x.du * k, k, x.du);
  }

  // ---------------------------------------------------------------------
  // Reflected subtraction and division

  /** `RSubFixed` is `Constant(c) - X`, and adding `X` back gives the
      constant `c` (the code's `__rsub__` reaches it only when it is called
      with `X == Constant(c)`: `ReflectedSubCorrectOnlyAtConstant`). */
  lemma RSubFixedIsPromotedSub(x: Dual, c: real)
    ensures RSubFixed(x, c) == SubDual(Constant(c), x)
    ensures AddDual(RSubFixed(x, c), x) == Constant(c)
  {
  }

  /** `RDivNumFixed` is `Constant(c) / X` with the code's own quotient rule. */
  lemma RDivNumFixedIsPromotedDiv(x: Dual, c: real)
    requires x.re != 0.0
    ensures RDivNumFixed(x, c) == DivDual(Constant(c), x)
  {
    RealPowNonZero(x.re, 2);
    assert 0.0 * x.re - x.du * c == -(c * x.du);
  }

  /** The code's `__rdiv__` with a number meets the quotient rule exactly
      when `X.re² + c·X.du² == 0`, so never for `c >= 0`. */
  lemma CodeRDivMeetsQuotientRuleIff(x: Dual, c: real)
    requires x.re != 0.0 && x.du != 0.0
    ensures RDivNum(x, c) == RDivNumFixed(x, c) <==> x.re * x.re + c * x.du * x.du == 0.0
  {
    RealPowNonZero(x.re, 2);
    RealPowTwo(x.re);
    var sq := x.re * x.re;
    if 1.0 / x.du == -(c * x.du) / sq {
      assert (1.0 / x.du) * x.du == 1.0;
      assert (-(c * x.du) / sq) * sq == -(c * x.du);
      calc {
        sq;
        sq * ((1.0 / x.du) * x.du);
        ((-(c * x.du) / sq) * sq) * x.du;
        -(c * x.du) * x.du;
      }
    }
    if sq + c * x.du * x.du == 0.0 {
      assert -(c * x.du) == sq * (1.0 / x.du) by {
        assert (1.0 / x.du) * x.du == 1.0;
        calc {
          sq * (1.0 / x.du);
          -(c * x.du * x.du) * (1.0 / x.du);
          -(c * x.du) * ((1.0 / x.du) * x.du);
        }
      }
      Cancel(-(c * x.du), sq, 1.0 / x.du);
    }
  }

  /** For 8 and (4, 3) the code's `__rdiv__` gives (2, 1/3); the quotient
      rule gives (2, -1.5). */
  lemma CodeRDivVersusQuotientRule()
    ensures RDivNum(Dual(4.0, 3.0), 8.0) == Dual(2.0, 1.0 / 3.0)
    ensures RDivNumFixed(Dual(4.0, 3.0), 8.0) == Dual(2.0, -1.5)
  {
    RealPowTwo(4.0);
  }

  // ---------------------------------------------------------------------
  // Power

  /** The code's power rule (duals.py:85-89) is repeated multiplication
      under the product rule, for every natural exponent it accepts. */
  lemma {:induction false} PowerIsRepeatedProduct(x: Dual, n: nat)
    requires n >= 1 || x.re != 0.0
    ensures PowNum(x, n) == ProductPower(x, n)
  {
    if n == 1 {
      RealPowOne(x.re);
      assert RealPow(x.re, 0) == 1.0;
    } else if n > 1 {
      PowerIsRepeatedProduct(x, n - 1);
      PowStepIsProductRule(x, n - 1);
    }
  }

  /** `PowFixed` is repeated multiplication under the product rule for
      every exponent, and agrees with the code wherever the code does not
      raise. */
  lemma PowFixedIsRepeatedProduct(x: Dual, n: nat)
    ensures PowFixed(x, n) == ProductPower(x, n)
    ensures n >= 1 || x.re != 0.0 ==> PowFixed(x, n) == PowNum(x, n)
  {
    if n >= 1 {
      PowerIsRepeatedProduct(x, n);
    } else if x.re != 0.0 {
      PowZeroIsOne(x);
    }
  }

  /** Squaring with the code's `Dual * Dual` differs from its `** 2`:
      at the seed 7 they give dual parts 2 and 14. */
  lemma CodeSquareVersusPower()
    ensures MulDual(Seed(7.0), Seed(7.0)) == Dual(49.0, 2.0)
    ensures PowNum(Seed(7.0), 2) == Dual(49.0, 14.0)
  {
    RealPowTwo(7.0);
    RealPowOne(7.0);
  }
}
