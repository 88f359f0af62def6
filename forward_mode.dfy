/** Forward-mode differentiation with the `Dual` operators of duals.py.

    A program built from `x`, numbers and the operators `+ - * / **` is an
    `Expr`. Three meanings are given to it:

    - `Value` and `Slope`: the value at `p` and the derivative at `p` by the
      rules of calculus, the reference the evaluator is meant to meet;
    - `EvalCode`: what duals.py computes when the program runs on the seed
      `Dual(p, 1)` (duals.py:101-106), each operator dispatched to the
      branch of duals.py that Python selects for it;
    - `EvalFixed`: the same with the textbook operators of `Corrected` in
      the four places where duals.py departs from them.

    `CodeIsSound` proves that the code computes value and derivative for
    every program that avoids `Dual * Dual`, `Dual / number` and
    `number - Dual`; `FixedIsSound` proves it for every program once the
    corrected operators are used; the counterexample lemmas show the three
    excluded forms go wrong. */
module ForwardMode {

  import opened Reals
  import opened Duals
  import opened Corrected

  /** A program in one variable `x`. `ConstPlus(c, a)` is `c + a`,
      `PlusConst(a, c)` is `a + c`, and so on. `number / Dual` is absent:
      Python 3 evaluates it with `__rtruediv__`, which `Dual` lacks, so it
      never reaches the `Dual` code. */
  datatype Expr =
    | Var
    | Sum(a: Expr, b: Expr)
    | Difference(a: Expr, b: Expr)
    | Product(a: Expr, b: Expr)
    | Quotient(a: Expr, b: Expr)
    | PlusConst(a: Expr, c: real)
    | ConstPlus(c: real, a: Expr)
    | MinusConst(a: Expr, c: real)
    | ConstMinus(c: real, a: Expr)
    | TimesConst(a: Expr, c: real)
    | ConstTimes(c: real, a: Expr)
    | OverConst(a: Expr, c: real)
    | PowerOf(a: Expr, n: nat)

  // ---------------------------------------------------------------------
  // Calculus: the value and the derivative at a point

  /** The program's value at `p` exists: no division by zero. */
  predicate Defined(e: Expr, p: real)
    decreases e, 0
  {
    match e
    case Var => true
    case Sum(a, b) => Defined(a, p) && Defined(b, p)
    case Difference(a, b) => Defined(a, p) && Defined(b, p)
    case Product(a, b) => Defined(a, p) && Defined(b, p)
    case Quotient(a, b) => Defined(a, p) && Defined(b, p) && Value(b, p) != 0.0
    case PlusConst(a, _) => Defined(a, p)
    case ConstPlus(_, a) => Defined(a, p)
    case MinusConst(a, _) => Defined(a, p)
    case ConstMinus(_, a) => Defined(a, p)
    case TimesConst(a, _) => Defined(a, p)
    case ConstTimes(_, a) => Defined(a, p)
    case OverConst(a, k) => Defined(a, p) && k != 0.0
    case PowerOf(a, _) => Defined(a, p)
  }

  /** The program's value at `p`. */
  function Value(e: Expr, p: real): real
    requires Defined(e, p)
    decreases e, 1
  {
    match e
    case Var => p
    case Sum(a, b) => Value(a, p) + Value(b, p)
    case Difference(a, b) => Value(a, p) - Value(b, p)
    case Product(a, b) => Times(Value(a, p), Value(b, p))
    case Quotient(a, b) => Ratio(Value(a, p), Value(b, p))
    case PlusConst(a, c) => Value(a, p) + c
    case ConstPlus(c, a) => c + Value(a, p)
    case MinusConst(a, c) => Value(a, p) - c
    case ConstMinus(c, a) => c - Value(a, p)
    case TimesConst(a, k) => Times(Value(a, p), k)
    case ConstTimes(k, a) => Times(k, Value(a, p))
    case OverConst(a, k) => Ratio(Value(a, p), k)
    case PowerOf(a, n) => RealPow(Value(a, p), n)
  }

  /** The derivative at `p` by the sum, product, quotient, constant-factor
      and power rules. */
  function Slope(e: Expr, p: real): real
    requires Defined(e, p)
    decreases e
  {
    match e
    case Var => 1.0
    case Sum(a, b) => Slope(a, p) + Slope(b, p)
    case Difference(a, b) => Slope(a, p) - Slope(b, p)
    case Product(a, b) => ProductRule(Value(a, p), Slope(a, p), Value(b, p), Slope(b, p))
    case Quotient(a, b) => QuotientRule(Value(a, p), Slope(a, p), Value(b, p), Slope(b, p))
    case PlusConst(a, _) => Slope(a, p)
    case ConstPlus(_, a) => Slope(a, p)
    case MinusConst(a, _) => Slope(a, p)
    case ConstMinus(_, a) => -Slope(a, p)
    case TimesConst(a, k) => Times(Slope(a, p), k)
    case ConstTimes(k, a) => Times(k, Slope(a, p))
    case OverConst(a, k) => Ratio(Slope(a, p), k)
    case PowerOf(a, n) => PowerRule(Value(a, p), Slope(a, p), n)
  }

  /** The product rule: (a·b)' = a·b' + b·a'. */
  function ProductRule(va: real, sa: real, vb: real, sb: real): real
  {
    va * sb + vb * sa
  }

  /** The power rule: (aⁿ)' = n·a'·aⁿ⁻¹, and 0 for n = 0. */
  function PowerRule(va: real, sa: real, n: nat): real
  {
    if n == 0 then 0.0 else (n as real) * sa * RealPow(va, n - 1)
  }

  /** The quotient rule: (a/b)' = (a'·b - b'·a) / b². */
  function QuotientRule(va: real, sa: real, vb: real, sb: real): real
    requires vb != 0.0
  {
    RealPowNonZero(vb, 2);
    Ratio(sa * vb - sb * va, RealPow(vb, 2))
  }

  /** No sub-program `a ** 0` has the value 0 for `a` at `p`. Where one
      does, `a ** 0` is 1 with derivative 0, but the code computes
      `0 ** -1` for its dual part (duals.py:88) and raises. */
  predicate NoZeroToTheZero(e: Expr, p: real)
    requires Defined(e, p)
  {
    match e
    case Var => true
    case Sum(a, b) => NoZeroToTheZero(a, p) && NoZeroToTheZero(b, p)
    case Difference(a, b) => NoZeroToTheZero(a, p) && NoZeroToTheZero(b, p)
    case Product(a, b) => NoZeroToTheZero(a, p) && NoZeroToTheZero(b, p)
    case Quotient(a, b) => NoZeroToTheZero(a, p) && NoZeroToTheZero(b, p)
    case PlusConst(a, _) => NoZeroToTheZero(a, p)
    case ConstPlus(_, a) => NoZeroToTheZero(a, p)
    case MinusConst(a, _) => NoZeroToTheZero(a, p)
    case ConstMinus(_, a) => NoZeroToTheZero(a, p)
    case TimesConst(a, _) => NoZeroToTheZero(a, p)
    case ConstTimes(_, a) => NoZeroToTheZero(a, p)
    case OverConst(a, _) => NoZeroToTheZero(a, p)
    case PowerOf(a, n) => NoZeroToTheZero(a, p) && (n >= 1 || Value(a, p) != 0.0)
  }

  // ---------------------------------------------------------------------
  // The code as written

  /** Running the program on `x` raises no ZeroDivisionError. */
  predicate CodeOk(e: Expr, x: Dual)
    decreases e, 0
  {
    match e
    case Var => true
    case Sum(a, b) => CodeOk(a, x) && CodeOk(b, x)
    case Difference(a, b) => CodeOk(a, x) && CodeOk(b, x)
    case Product(a, b) => CodeOk(a, x) && CodeOk(b, x)
    case Quotient(a, b) => CodeOk(a, x) && CodeOk(b, x) && EvalCode(b, x).re != 0.0
    case PlusConst(a, _) => CodeOk(a, x)
    case ConstPlus(_, a) => CodeOk(a, x)
    case MinusConst(a, _) => CodeOk(a, x)
    case ConstMinus(_, a) => CodeOk(a, x)
    case TimesConst(a, _) => CodeOk(a, x)
    case ConstTimes(_, a) => CodeOk(a, x)
    case OverConst(a, k) => CodeOk(a, x) && k != 0.0
    case PowerOf(a, n) => CodeOk(a, x) && (n >= 1 || EvalCode(a, x).re != 0.0)
  }

  /** The program run on `x` with the operators of duals.py: `c + X` and
      `c * X` reach `__radd__`/`__rmul__`, which are `__add__`/`__mul__`;
      `c - X` reaches `__rsub__`, which is `__sub__` (duals.py:23, 36, 55). */
  function EvalCode(e: Expr, x: Dual): Dual
    requires CodeOk(e, x)
    decreases e, 1
  {
    match e
    case Var => x
    case Sum(a, b) => AddDual(EvalCode(a, x), EvalCode(b, x))
    case Difference(a, b) => SubDual(EvalCode(a, x), EvalCode(b, x))
    case Product(a, b) => MulDual(EvalCode(a, x), EvalCode(b, x))
    case Quotient(a, b) => DivDual(EvalCode(a, x), EvalCode(b, x))
    case PlusConst(a, c) => AddNum(EvalCode(a, x), c)
    case ConstPlus(c, a) => AddNum(EvalCode(a, x), c)
    case MinusConst(a, c) => SubNum(EvalCode(a, x), c)
    case ConstMinus(c, a) => SubNum(EvalCode(a, x), c)
    case TimesConst(a, k) => MulNum(EvalCode(a, x), k)
    case ConstTimes(k, a) => MulNum(EvalCode(a, x), k)
    case OverConst(a, k) => DivNum(EvalCode(a, x), k)
    case PowerOf(a, n) => PowNum(EvalCode(a, x), n)
  }

  /** The program avoids the three forms duals.py gets wrong. */
  predicate InCodeFragment(e: Expr)
  {
    match e
    case Var => true
    case Sum(a, b) => InCodeFragment(a) && InCodeFragment(b)
    case Difference(a, b) => InCodeFragment(a) && InCodeFragment(b)
    case Product(_, _) => false
    case Quotient(a, b) => InCodeFragment(a) && InCodeFragment(b)
    case PlusConst(a, _) => InCodeFragment(a)
    case ConstPlus(_, a) => InCodeFragment(a)
    case MinusConst(a, _) => InCodeFragment(a)
    case ConstMinus(_, _) => false
    case TimesConst(a, _) => InCodeFragment(a)
    case ConstTimes(_, a) => InCodeFragment(a)
    case OverConst(_, _) => false
    case PowerOf(a, _) => InCodeFragment(a)
  }

  /** The program has no `number - Dual`, the one form whose real part
      duals.py gets wrong. */
  predicate NoConstMinus(e: Expr)
  {
    match e
    case Var => true
    case Sum(a, b) => NoConstMinus(a) && NoConstMinus(b)
    case Difference(a, b) => NoConstMinus(a) && NoConstMinus(b)
    case Product(a, b) => NoConstMinus(a) && NoConstMinus(b)
    case Quotient(a, b) => NoConstMinus(a) && NoConstMinus(b)
    case PlusConst(a, _) => NoConstMinus(a)
    case ConstPlus(_, a) => NoConstMinus(a)
    case MinusConst(a, _) => NoConstMinus(a)
    case ConstMinus(_, _) => false
    case TimesConst(a, _) => NoConstMinus(a)
    case ConstTimes(_, a) => NoConstMinus(a)
    case OverConst(a, _) => NoConstMinus(a)
    case PowerOf(a, _) => NoConstMinus(a)
  }

  // ---------------------------------------------------------------------
  // The code with the corrected operators

  predicate FixedOk(e: Expr, x: Dual)
    decreases e, 0
  {
    match e
    case Var => true
    case Sum(a, b) => FixedOk(a, x) && FixedOk(b, x)
    case Difference(a, b) => FixedOk(a, x) && FixedOk(b, x)
    case Product(a, b) => FixedOk(a, x) && FixedOk(b, x)
    case Quotient(a, b) => FixedOk(a, x) && FixedOk(b, x) && EvalFixed(b, x).re != 0.0
    case PlusConst(a, _) => FixedOk(a, x)
    case ConstPlus(_, a) => FixedOk(a, x)
    case MinusConst(a, _) => FixedOk(a, x)
    case ConstMinus(_, a) => FixedOk(a, x)
    case TimesConst(a, _) => FixedOk(a, x)
    case ConstTimes(_, a) => FixedOk(a, x)
    case OverConst(a, k) => FixedOk(a, x) && k != 0.0
    case PowerOf(a, _) => FixedOk(a, x)
  }

  /** `EvalCode` with `MulFixed`, `RSubFixed`, `DivNumFixed` and `PowFixed`
      in place of the code's `Dual * Dual`, `number - Dual`, `Dual / number`
      and `Dual ** n`. */
  function EvalFixed(e: Expr, x: Dual): Dual
    requires FixedOk(e, x)
    decreases e, 1
  {
    match e
    case Var => x
    case Sum(a, b) => AddDual(EvalFixed(a, x), EvalFixed(b, x))
    case Difference(a, b) => SubDual(EvalFixed(a, x), EvalFixed(b, x))
    case Product(a, b) => MulFixed(EvalFixed(a, x), EvalFixed(b, x))
    case Quotient(a, b) => DivDual(EvalFixed(a, x), EvalFixed(b, x))
    case PlusConst(a, c) => AddNum(EvalFixed(a, x), c)
    case ConstPlus(c, a) => AddNum(EvalFixed(a, x), c)
    case MinusConst(a, c) => SubNum(EvalFixed(a, x), c)
    case ConstMinus(c, a) => RSubFixed(EvalFixed(a, x), c)
    case TimesConst(a, k) => MulNum(EvalFixed(a, x), k)
    case ConstTimes(k, a) => MulNum(EvalFixed(a, x), k)
    case OverConst(a, k) => DivNumFixed(EvalFixed(a, x), k)
    case PowerOf(a, n) => PowFixed(EvalFixed(a, x), n)
  }

  // ---------------------------------------------------------------------
  // One-step facts on the parts of a dual number
  //
  // Each of these rewrites one operator on `Dual(va, sa)` and `Dual(vb, sb)`
  // into the named rule of calculus that `Slope` uses. They are steps of
  // the soundness proofs below, not evidence of their own: the comparison
  // with the calculus is made by `CodeIsSound` and `FixedIsSound`.

  /** The quotient case of `CodeIsSound` and `FixedIsSound`, on the parts. */
  lemma QuotientStep(x: Dual, y: Dual, va: real, sa: real, vb: real, sb: real)
    requires x == Dual(va, sa) && y == Dual(vb, sb) && vb != 0.0
    ensures DivDual(x, y) == Dual(Ratio(va, vb), QuotientRule(va, sa, vb, sb))
  {
    RealPowNonZero(vb, 2);
  }

  /** The code's dual part for `X ** n` (duals.py:88) is the power rule. */
  lemma CodePowerIsPowerRule(va: real, sa: real, n: nat)
    requires n >= 1 || va != 0.0
    ensures (n as real) * sa * PowBelow(va, n) == PowerRule(va, sa, n)
  {
    if n == 0 {
      assert (n as real) * sa * PowBelow(va, n) == 0.0 * (sa * PowBelow(va, n));
    }
  }

  /** The power case of `CodeIsSound` and `FixedIsSound`, on the parts. */
  lemma PowerStep(va: real, sa: real, n: nat)
    requires n >= 1 || va != 0.0
    ensures PowNum(Dual(va, sa), n) == Dual(RealPow(va, n), PowerRule(va, sa, n))
  {
    CodePowerIsPowerRule(va, sa, n);
  }

  /** The product case of `FixedIsSound`, on the parts. */
  lemma ProductStep(x: Dual, y: Dual, va: real, sa: real, vb: real, sb: real)
    requires x == Dual(va, sa) && y == Dual(vb, sb)
    ensures MulFixed(x, y) == Dual(Times(va, vb), ProductRule(va, sa, vb, sb))
  {
  }

  /** The real part of the product case of `CodeValuesAreExact`. */
  lemma ProductRealPart(x: Dual, y: Dual, va: real, vb: real)
    requires x.re == va && y.re == vb
    ensures MulDual(x, y).re == Times(va, vb)
  {
  }

  /** The constant-factor cases, on the parts. */
  lemma ScaleStep(va: real, sa: real, k: real)
    ensures MulNum(Dual(va, sa), k) == Dual(Times(va, k), Times(sa, k))
    ensures MulNum(Dual(va, sa), k) == Dual(Times(k, va), Times(k, sa))
  {
  }

  // ---------------------------------------------------------------------
  // Soundness

  /** Running the code on the seed `Dual(p, 1)` raises no ZeroDivisionError
      exactly where the program's value at `p` is defined and no `a ** 0`
      has a zero base, and then yields the value and the derivative at `p`. */
  predicate CodeAgrees(e: Expr, p: real)
  {
    (CodeOk(e, Seed(p)) <==> Defined(e, p) && NoZeroToTheZero(e, p))
    && (CodeOk(e, Seed(p)) ==> EvalCode(e, Seed(p)) == Dual(Value(e, p), Slope(e, p)))
  }

  /** `CodeAgrees` for the corrected operators. */
  predicate FixedAgrees(e: Expr, p: real)
  {
    (FixedOk(e, Seed(p)) <==> Defined(e, p))
    && (FixedOk(e, Seed(p)) ==> EvalFixed(e, Seed(p)) == Dual(Value(e, p), Slope(e, p)))
  }

  // The cases of the two soundness proofs that multiply or divide, each
  // proved on its own from the facts about the sub-programs.

  lemma CodeQuotientCase(a: Expr, b: Expr, p: real)
    requires CodeAgrees(a, p) && CodeAgrees(b, p)
    ensures CodeAgrees(Quotient(a, b), p)
  {
    if CodeOk(Quotient(a, b), Seed(p)) {
      QuotientStep(EvalCode(a, Seed(p)), EvalCode(b, Seed(p)), Value(a, p), Slope(a, p), Value(b, p), Slope(b, p));
    }
  }

  lemma CodePowerCase(a: Expr, n: nat, p: real)
    requires CodeAgrees(a, p)
    ensures CodeAgrees(PowerOf(a, n), p)
  {
    if CodeOk(PowerOf(a, n), Seed(p)) {
      PowerStep(Value(a, p), Slope(a, p), n);
    }
  }

  lemma CodeTimesConstCase(a: Expr, k: real, p: real)
    requires CodeAgrees(a, p)
    ensures CodeAgrees(TimesConst(a, k), p)
  {
    var e, x := TimesConst(a, k), Seed(p);
    assert CodeOk(e, x) == CodeOk(a, x);
    if Defined(a, p) {
      assert NoZeroToTheZero(e, p) == NoZeroToTheZero(a, p);
      if CodeOk(a, x) {
        ScaleStep(Value(a, p), Slope(a, p), k);
        assert EvalCode(e, x) == MulNum(EvalCode(a, x), k);
        assert Value(e, p) == Times(Value(a, p), k) && Slope(e, p) == Times(Slope(a, p), k);
      }
    }
  }

  lemma CodeConstTimesCase(a: Expr, k: real, p: real)
    requires CodeAgrees(a, p)
    ensures CodeAgrees(ConstTimes(k, a), p)
  {
    var e, x := ConstTimes(k, a), Seed(p);
    assert CodeOk(e, x) == CodeOk(a, x);
    if Defined(a, p) {
      assert NoZeroToTheZero(e, p) == NoZeroToTheZero(a, p);
      if CodeOk(a, x) {
        ScaleStep(Value(a, p), Slope(a, p), k);
        assert EvalCode(e, x) == MulNum(EvalCode(a, x), k);
        assert Value(e, p) == Times(k, Value(a, p)) && Slope(e, p) == Times(k, Slope(a, p));
      }
    }
  }

  lemma FixedProductCase(a: Expr, b: Expr, p: real)
    requires FixedAgrees(a, p) && FixedAgrees(b, p)
    ensures FixedAgrees(Product(a, b), p)
  {
    if FixedOk(Product(a, b), Seed(p)) {
      ProductStep(EvalFixed(a, Seed(p)), EvalFixed(b, Seed(p)), Value(a, p), Slope(a, p), Value(b, p), Slope(b, p));
    }
  }

  lemma FixedQuotientCase(a: Expr, b: Expr, p: real)
    requires FixedAgrees(a, p) && FixedAgrees(b, p)
    ensures FixedAgrees(Quotient(a, b), p)
  {
    if FixedOk(Quotient(a, b), Seed(p)) {
      QuotientStep(EvalFixed(a, Seed(p)), EvalFixed(b, Seed(p)), Value(a, p), Slope(a, p), Value(b, p), Slope(b, p));
    }
  }

  lemma FixedPowerCase(a: Expr, n: nat, p: real)
    requires FixedAgrees(a, p)
    ensures FixedAgrees(PowerOf(a, n), p)
  {
    if FixedOk(PowerOf(a, n), Seed(p)) && n >= 1 {
      PowerStep(Value(a, p), Slope(a, p), n);
    }
  }

  lemma FixedScaleCase(a: Expr, k: real, p: real)
    requires FixedAgrees(a, p)
    ensures FixedAgrees(TimesConst(a, k), p) && FixedAgrees(ConstTimes(k, a), p)
    ensures k != 0.0 ==> FixedAgrees(OverConst(a, k), p)
  {
    if Defined(a, p) {
      ScaleStep(Value(a, p), Slope(a, p), k);
    }
  }

  /** On every program without `Dual * Dual`, `Dual / number` and
      `number - Dual`, running the code on the seed computes the value and
      the derivative, and raises ZeroDivisionError only where the calculus
      divides by zero or a zero is raised to the power 0. */
  lemma {:induction false} CodeIsSound(e: Expr, p: real)
    requires InCodeFragment(e)
    ensures CodeAgrees(e, p)
    decreases e
  {
    match e
    case Var =>
    case Sum(a, b) =>
      CodeIsSound(a, p);
      CodeIsSound(b, p);
    case Difference(a, b) =>
      CodeIsSound(a, p);
      CodeIsSound(b, p);
    case Quotient(a, b) =>
      CodeIsSound(a, p);
      CodeIsSound(b, p);
      CodeQuotientCase(a, b, p);
    case PlusConst(a, _) => CodeIsSound(a, p);
    case ConstPlus(_, a) => CodeIsSound(a, p);
    case MinusConst(a, _) => CodeIsSound(a, p);
    case TimesConst(a, k) =>
      CodeIsSound(a, p);
      CodeTimesConstCase(a, k, p);
    case ConstTimes(k, a) =>
      CodeIsSound(a, p);
      CodeConstTimesCase(a, k, p);
    case PowerOf(a, n) =>
      CodeIsSound(a, p);
      CodePowerCase(a, n, p);
  }

  /** With the corrected operators the code computes the value and the
      derivative of every program. */
  lemma {:induction false} FixedIsSound(e: Expr, p: real)
    ensures FixedAgrees(e, p)
    decreases e
  {
    match e
    case Var =>
    case Sum(a, b) =>
      FixedIsSound(a, p);
      FixedIsSound(b, p);
    case Difference(a, b) =>
      FixedIsSound(a, p);
      FixedIsSound(b, p);
    case Product(a, b) =>
      FixedIsSound(a, p);
      FixedIsSound(b, p);
      FixedProductCase(a, b, p);
    case Quotient(a, b) =>
      FixedIsSound(a, p);
      FixedIsSound(b, p);
      FixedQuotientCase(a, b, p);
    case PlusConst(a, _) => FixedIsSound(a, p);
    case ConstPlus(_, a) => FixedIsSound(a, p);
    case MinusConst(a, _) => FixedIsSound(a, p);
    case ConstMinus(_, a) => FixedIsSound(a, p);
    case TimesConst(a, k) =>
      FixedIsSound(a, p);
      FixedScaleCase(a, k, p);
    case ConstTimes(k, a) =>
      FixedIsSound(a, p);
      FixedScaleCase(a, k, p);
    case OverConst(a, k) =>
      FixedIsSound(a, p);
      FixedScaleCase(a, k, p);
    case PowerOf(a, n) =>
      FixedIsSound(a, p);
      FixedPowerCase(a, n, p);
  }

  /** The first half of `CodeAgrees`, and the real part alone. */
  predicate CodeValueAgrees(e: Expr, p: real)
  {
    (CodeOk(e, Seed(p)) <==> Defined(e, p) && NoZeroToTheZero(e, p))
    && (CodeOk(e, Seed(p)) ==> EvalCode(e, Seed(p)).re == Value(e, p))
  }

  // The cases of `CodeValuesAreExact` that multiply or divide.

  lemma ValueProductCase(a: Expr, b: Expr, p: real)
    requires CodeValueAgrees(a, p) && CodeValueAgrees(b, p)
    ensures CodeValueAgrees(Product(a, b), p)
  {
    var e, x := Product(a, b), Seed(p);
    assert CodeOk(e, x) == (CodeOk(a, x) && CodeOk(b, x));
    assert Defined(e, p) == (Defined(a, p) && Defined(b, p));
    if Defined(e, p) {
      assert NoZeroToTheZero(e, p) == (NoZeroToTheZero(a, p) && NoZeroToTheZero(b, p));
    }
    if CodeOk(e, x) {
      ProductRealPart(EvalCode(a, x), EvalCode(b, x), Value(a, p), Value(b, p));
    }
  }

  lemma ValueQuotientCase(a: Expr, b: Expr, p: real)
    requires CodeValueAgrees(a, p) && CodeValueAgrees(b, p)
    ensures CodeValueAgrees(Quotient(a, b), p)
  {
    var e, x := Quotient(a, b), Seed(p);
    if CodeOk(e, x) {
      assert EvalCode(e, x).re == EvalCode(a, x).re / EvalCode(b, x).re;
      assert Value(e, p) == Ratio(Value(a, p), Value(b, p));
    }
  }

  lemma ValueScaleCase(a: Expr, k: real, p: real)
    requires CodeValueAgrees(a, p)
    ensures CodeValueAgrees(TimesConst(a, k), p) && CodeValueAgrees(ConstTimes(k, a), p)
    ensures CodeValueAgrees(OverConst(a, k), p)
  {
  }

  lemma ValuePowerCase(a: Expr, n: nat, p: real)
    requires CodeValueAgrees(a, p)
    ensures CodeValueAgrees(PowerOf(a, n), p)
  {
  }

  /** Without `number - Dual`, the code's real parts are right for every
      program, products and divisions by numbers included, and it raises
      exactly where `CodeIsSound` says. */
  lemma {:induction false} CodeValuesAreExact(e: Expr, p: real)
    requires NoConstMinus(e)
    ensures CodeValueAgrees(e, p)
    decreases e
  {
    match e
    case Var =>
    case Sum(a, b) =>
      CodeValuesAreExact(a, p);
      CodeValuesAreExact(b, p);
    case Difference(a, b) =>
      CodeValuesAreExact(a, p);
      CodeValuesAreExact(b, p);
    case Product(a, b) =>
      CodeValuesAreExact(a, p);
      CodeValuesAreExact(b, p);
      ValueProductCase(a, b, p);
    case Quotient(a, b) =>
      CodeValuesAreExact(a, p);
      CodeValuesAreExact(b, p);
      ValueQuotientCase(a, b, p);
    case PlusConst(a, _) => CodeValuesAreExact(a, p);
    case ConstPlus(_, a) => CodeValuesAreExact(a, p);
    case MinusConst(a, _) => CodeValuesAreExact(a, p);
    case TimesConst(a, k) =>
      CodeValuesAreExact(a, p);
      ValueScaleCase(a, k, p);
    case ConstTimes(k, a) =>
      CodeValuesAreExact(a, p);
      ValueScaleCase(a, k, p);
    case OverConst(a, k) =>
      CodeValuesAreExact(a, p);
      ValueScaleCase(a, k, p);
    case PowerOf(a, n) =>
      CodeValuesAreExact(a, p);
      ValuePowerCase(a, n, p);
  }

  /** `value_and_derivative_at_point` (duals.py:101-106) on a program of the
      fragment returns its value and its derivative. */
  lemma EvaluatorComputesDerivative(e: Expr, p: real)
    requires InCodeFragment(e) && Defined(e, p) && NoZeroToTheZero(e, p)
    ensures CodeOk(e, Seed(p))
    ensures ValueAndDerivativeAtPoint(x requires CodeOk(e, x) => EvalCode(e, x), p)
         == (Value(e, p), Slope(e, p))
  {
    CodeIsSound(e, p);
  }

  // ---------------------------------------------------------------------
  // The demonstration and the counterexamples

  /** `x**2 + 7*x - 18`, the program of duals.py:136-137. */
  function DemoExpr(): Expr
  {
    MinusConst(Sum(PowerOf(Var, 2), ConstTimes(7.0, Var)), 18.0)
  }

  /** The demonstration program is in the fragment and is what
      `DemoPolynomial` runs; its value and derivative are
      `p² + 7p - 18` and `2p + 7`, which `CodeIsSound` says the code
      returns (at 7: 80 and 21, `EvaluatorOnDemo`). */
  lemma DemoIsDifferentiated(x: Dual, p: real)
    ensures InCodeFragment(DemoExpr()) && CodeOk(DemoExpr(), x)
    ensures EvalCode(DemoExpr(), x) == DemoPolynomial(x)
    ensures Defined(DemoExpr(), p)
    ensures Value(DemoExpr(), p) == p * p + 7.0 * p - 18.0
    ensures Slope(DemoExpr(), p) == 2.0 * p + 7.0
  {
    RealPowOne(p);
    RealPowTwo(p);
    assert Value(PowerOf(Var, 2), p) == p * p;
    assert Slope(PowerOf(Var, 2), p) == 2.0 * p;
  }

  /** `x * x`: the code gives the derivative 2 everywhere, the calculus
      `2p`. */
  lemma ProductCounterexample(p: real)
    ensures CodeOk(Product(Var, Var), Seed(p))
    ensures EvalCode(Product(Var, Var), Seed(p)) == Dual(p * p, 2.0)
    ensures Slope(Product(Var, Var), p) == 2.0 * p
  {
  }

  /** `x / 2`: the code gives the derivative 1 everywhere, the calculus
      0.5. */
  lemma DivideByNumberCounterexample(p: real)
    ensures CodeOk(OverConst(Var, 2.0), Seed(p))
    ensures EvalCode(OverConst(Var, 2.0), Seed(p)).du == 1.0
    ensures Slope(OverConst(Var, 2.0), p) == 0.5
  {
  }

  /** `c - x`: the code gives `(p - c, 1)`, the calculus `(c - p, -1)`. */
  lemma ReflectedSubCounterexample(c: real, p: real)
    ensures CodeOk(ConstMinus(c, Var), Seed(p))
    ensures EvalCode(ConstMinus(c, Var), Seed(p)) == Dual(p - c, 1.0)
    ensures Value(ConstMinus(c, Var), p) == c - p
    ensures Slope(ConstMinus(c, Var), p) == -1.0
  {
  }

  /** `x ** 0` (here `e`) has the value 1 and the derivative 0 at every
      point, but the code raises on the seed exactly at 0: its power rule
      evaluates `0 ** -1` there. */
  lemma ZeroToTheZeroCounterexample(e: Expr, p: real, d: real)
    requires e == PowerOf(Var, 0)
    ensures Defined(e, p) && Value(e, p) == 1.0 && Slope(e, p) == 0.0
    ensures NoZeroToTheZero(e, p) <==> p != 0.0
    ensures CodeOk(e, Dual(p, d)) <==> p != 0.0
  {
  }
}
