/** The `Dual` value type of duals.py and its operators, exactly as the code
    computes them (including where that departs from textbook dual-number
    arithmetic), together with the algebraic laws the code does satisfy.

    Numbers are modelled as exact `real`s. A Python `ZeroDivisionError`
    (division by a zero real part, `0 ** -1`) becomes a precondition; an
    operand of unsupported type becomes an `Err` value, because the code
    *returns* a `NotImplementedError` object rather than raising it. */
module Duals {

  import opened Reals

  /** A dual number re + du·ε with ε² = 0: the `real_part` and the
      `dual_part` of the source's class. Never updated after construction. */
  datatype Dual = Dual(re: real, du: real)

  /** The other operand of a binary operator, by its Python type: a `Dual`,
      an `int` or `float` (a `bool` too, being an `int`), or anything else,
      known by its type name. */
  datatype Operand =
    | OpDual(d: Dual)
    | OpNum(n: real)
    | OpOther(typeName: string)

  /** The right operand of `**`. Only a non-negative integer exponent is
      computed here; a `Dual` exponent is rejected by the code. */
  datatype Exponent =
    | ExpNum(k: nat)
    | ExpDual(d: Dual)
    | ExpOther(typeName: string)

  /** What an operator returns: a fresh `Dual`, or the `NotImplementedError`
      object (with its message) that the code returns for a bad operand. */
  datatype Outcome = Val(value: Dual) | Err(msg: string)

  /** A constant promoted to a dual number: zero derivative. */
  function Constant(c: real): Dual { Dual(c, 0.0) }

  /** The derivative seed the evaluator builds: `Dual(point, 1)`. */
  function Seed(p: real): Dual { Dual(p, 1.0) }

  /** The dual number a supported operand stands for. */
  function Promote(o: Operand): Dual
    requires !o.OpOther?
  {
    match o
    case OpDual(d) => d
    case OpNum(c) => Constant(c)
  }

  // ---------------------------------------------------------------------
  // Real powers

  /** `r ** (n - 1)`, which for `n == 0` is `r ** -1 == 1 / r` and raises
      `ZeroDivisionError` in Python when `r == 0`. */
  function PowBelow(r: real, n: nat): real
    requires n >= 1 || r != 0.0
  {
    if n == 0 then 1.0 / r else RealPow(r, n - 1)
  }

  // ---------------------------------------------------------------------
  // The arithmetic of each operator branch, as written

  /** duals.py:12-15 — `Dual + Dual`. */
  function AddDual(x: Dual, y: Dual): Dual { Dual(x.re + y.re, x.du + y.du) }

  /** duals.py:16-18 — `Dual + number`: only the real part moves. */
  function AddNum(x: Dual, c: real): Dual { Dual(x.re + c, x.du) }

  /** duals.py:26-29 — `Dual - Dual`. */
  function SubDual(x: Dual, y: Dual): Dual { Dual(x.re - y.re, x.du - y.du) }

  /** duals.py:30-31 — `Dual - number`. */
  function SubNum(x: Dual, c: real): Dual { Dual(x.re - c, x.du) }

  /** duals.py:41-48 — `Dual * Dual` as written: the dual parts are ADDED. */
  function MulDual(x: Dual, y: Dual): Dual { Dual(x.re * y.re, x.du + y.du) }

  /** duals.py:49-50 — `Dual * number`: both parts scaled. */
  function MulNum(x: Dual, k: real): Dual { Dual(x.re * k, x.du * k) }

  /** duals.py:58-65 — `Dual / Dual`, the quotient rule; the denominator of
      the dual part is `other.real_part ** 2`. */
  function DivDual(x: Dual, y: Dual): Dual
    requires y.re != 0.0
  {
    RealPowNonZero(y.re, 2);
    Dual(x.re / y.re, (x.du * y.re - y.du * x.re) / RealPow(y.re, 2))
  }

  /** duals.py:66-67 — `Dual / number` as written: the dual part is NOT
      divided. */
  function DivNum(x: Dual, k: real): Dual
    requires k != 0.0
  {
    Dual(x.re / k, x.du)
  }

  /** duals.py:75-76 — `__rdiv__` with a number, as written:
      `(other / real_part, 1 / dual_part)`. */
  function RDivNum(x: Dual, c: real): Dual
    requires x.re != 0.0 && x.du != 0.0
  {
    Dual(c / x.re, 1.0 / x.du)
  }

  /** duals.py:85-89 — `Dual ** n`:
      `(re ** n, n * du * re ** (n - 1))`. */
  function PowNum(x: Dual, n: nat): Dual
    requires n >= 1 || x.re != 0.0
  {
    Dual(RealPow(x.re, n), (n as real) * x.du * PowBelow(x.re, n))
  }

  // ---------------------------------------------------------------------
  // The operators, dispatching on the operand's type

  /** `X + other`, `__add__` (duals.py:11-21). */
  function Add(x: Dual, other: Operand): (r: Outcome)
    ensures r.Err? <==> other.OpOther?
    ensures other.OpOther? ==> r == Err(other.typeName + " type not defined for addition with duals")
    ensures !other.OpOther? ==> r == Val(AddDual(x, Promote(other)))
  {
    match other
    case OpDual(y) => Val(AddDual(x, y))
    case OpNum(c) => Val(AddNum(x, c))
    case OpOther(t) => Err(t + " type not defined for addition with duals")
  }

  /** `other + X` for a non-`Dual` left operand: `__radd__ = __add__`
      (duals.py:23). */
  function RAdd(x: Dual, other: Operand): (r: Outcome)
    ensures r.Err? <==> other.OpOther?
    ensures other.OpOther? ==> r == Err(other.typeName + " type not defined for addition with duals")
    ensures !other.OpOther? ==> r == Val(AddDual(Promote(other), x))
  {
    Add(x, other)
  }

  /** `X - other`, `__sub__` (duals.py:25-34). */
  function Sub(x: Dual, other: Operand): (r: Outcome)
    ensures r.Err? <==> other.OpOther?
    ensures other.OpOther? ==> r == Err(other.typeName + " type not defined for subtraction with duals")
    ensures !other.OpOther? ==> r == Val(SubDual(x, Promote(other)))
  {
    match other
    case OpDual(y) => Val(SubDual(x, y))
    case OpNum(c) => Val(SubNum(x, c))
    case OpOther(t) => Err(t + " type not defined for subtraction with duals")
  }

  /** `other - X` for a non-`Dual` left operand: `__rsub__ = __sub__`
      (duals.py:36), i.e. it computes `X - other`. */
  function RSub(x: Dual, other: Operand): (r: Outcome)
    ensures r.Err? <==> other.OpOther?
    ensures other.OpOther? ==> r == Err(other.typeName + " type not defined for subtraction with duals")
    ensures !other.OpOther? ==> r == Val(SubDual(x, Promote(other)))
  {
    Sub(x, other)
  }

  /** `X * other`, `__mul__` (duals.py:38-53). The message keeps the
      source's spelling. */
  function Mul(x: Dual, other: Operand): (r: Outcome)
    ensures r.Err? <==> other.OpOther?
    ensures other.OpOther? ==> r == Err(other.typeName + " type not defined for multiplciation with duals")
    ensures r.Val? ==> r.value.re == x.re * Promote(other).re
  {
    match other
    case OpDual(y) => Val(MulDual(x, y))
    case OpNum(k) => Val(MulNum(x, k))
    case OpOther(t) => Err(t + " type not defined for multiplciation with duals")
  }

  /** `other * X` for a non-`Dual` left operand: `__rmul__ = __mul__`
      (duals.py:55). */
  function RMul(x: Dual, other: Operand): (r: Outcome)
    ensures r.Err? <==> other.OpOther?
    ensures other.OpOther? ==> r == Err(other.typeName + " type not defined for multiplciation with duals")
    ensures other.OpNum? ==> r == Val(Dual(other.n * x.re, other.n * x.du))
  {
    Mul(x, other)
  }

  /** The divisors for which Python does not raise `ZeroDivisionError` in
      `__truediv__`. */
  predicate DivisorOk(other: Operand)
  {
    match other
    case OpDual(y) => y.re != 0.0
    case OpNum(k) => k != 0.0
    case OpOther(_) => true
  }

  /** `X / other`, `__truediv__` (duals.py:57-70). */
  function TrueDiv(x: Dual, other: Operand): (r: Outcome)
    requires DivisorOk(other)
    ensures r.Err? <==> other.OpOther?
    ensures other.OpOther? ==> r == Err(other.typeName + " type not defined for division with duals")
    ensures r.Val? ==> r.value.re == x.re / Promote(other).re
  {
    match other
    case OpDual(y) => Val(DivDual(x, y))
    case OpNum(k) => Val(DivNum(x, k))
    case OpOther(t) => Err(t + " type not defined for division with duals")
  }

  /** The operands for which `__rdiv__` does not raise `ZeroDivisionError`. */
  predicate RDivOk(x: Dual, other: Operand)
  {
    match other
    case OpDual(_) => x.re != 0.0
    case OpNum(_) => x.re != 0.0 && x.du != 0.0
    case OpOther(_) => true
  }

  /** `__rdiv__` (duals.py:72-79), called directly as a method: a `Dual`
      operand is divided by `X`; a number gets the code's own formula. */
  function RDiv(x: Dual, other: Operand): (r: Outcome)
    requires RDivOk(x, other)
    ensures r.Err? <==> other.OpOther?
    ensures other.OpOther? ==> r == Err(other.typeName + " type not defined for division with duals")
    ensures r.Val? ==> r.value.re == Promote(other).re / x.re
  {
    match other
    case OpDual(y) => TrueDiv(y, OpDual(x))
    case OpNum(c) => Val(RDivNum(x, c))
    case OpOther(t) => Err(t + " type not defined for division with duals")
  }

  /** The exponents for which `__pow__` does not raise `ZeroDivisionError`. */
  predicate ExponentOk(x: Dual, e: Exponent)
  {
    e.ExpNum? ==> e.k >= 1 || x.re != 0.0
  }

  /** `X ** other`, `__pow__` (duals.py:81-92). */
  function Pow(x: Dual, e: Exponent): (r: Outcome)
    requires ExponentOk(x, e)
    ensures r.Val? <==> e.ExpNum?
    ensures e.ExpDual? ==> r == Err("Dual not defined for power with duals. Only int/float")
    ensures e.ExpOther? ==> r == Err(e.typeName + " not defined for power with duals. Only int/float")
    ensures r.Val? ==> r.value.re == RealPow(x.re, e.k)
  {
    match e
    case ExpNum(n) => Val(PowNum(x, n))
    case ExpDual(_) => Err("Dual not defined for power with duals. Only int/float")
    case ExpOther(t) => Err(t + " not defined for power with duals. Only int/float")
  }

  // ---------------------------------------------------------------------
  // The evaluator

  /** `value_and_derivative_at_point` (duals.py:101-106) without its
      `print`: apply `f` to the seed `Dual(point, 1)` and read off both
      parts. `f` stands for the `GeneralFunction`'s expression. */
  function ValueAndDerivativeAtPoint(f: Dual --> Dual, point: real): (real, real)
    requires f.requires(Seed(point))
  {
    var result := f(Seed(point));
    (result.re, result.du)
  }

  /** The demo expression `x**2 + 7*x - 18` (duals.py:136), with the hooks
      Python calls for it: `x.__pow__(2)`, `x.__rmul__(7)` (since `int`
      declines), `Dual + Dual`, then `Dual - 18`. */
  function DemoPolynomial(x: Dual): (r: Dual)
    ensures r == Dual(x.re * x.re + 7.0 * x.re - 18.0, 2.0 * x.re * x.du + 7.0 * x.du)
  {
    RealPowTwo(x.re);
    RealPowOne(x.re);
    SubNum(AddDual(PowNum(x, 2), MulNum(x, 7.0)), 18.0)
  }

  // ---------------------------------------------------------------------
  // Laws of addition and subtraction

  /** `X + Y == Y + X`. */
  lemma AddCommutes(x: Dual, y: Dual)
    ensures Add(x, OpDual(y)) == Add(y, OpDual(x))
  {
  }

  /** `(X + Y) + Z == X + (Y + Z)`. */
  lemma AddAssociates(x: Dual, y: Dual, z: Dual)
    ensures AddDual(AddDual(x, y), z) == AddDual(x, AddDual(y, z))
  {
  }

  /** Adding or subtracting a number changes the real part by that number
      and leaves the dual part untouched. */
  lemma ScalarShiftKeepsDualPart(x: Dual, c: real)
    ensures Add(x, OpNum(c)).value.re == x.re + c && Add(x, OpNum(c)).value.du == x.du
    ensures Sub(x, OpNum(c)).value.re == x.re - c && Sub(x, OpNum(c)).value.du == x.du
  {
  }

  /** Subtraction undoes addition, for a `Dual` and for a number. */
  lemma SubUndoesAdd(x: Dual, y: Dual, c: real)
    ensures SubDual(AddDual(x, y), y) == x
    ensures SubNum(AddNum(x, c), c) == x
  {
  }

  /** `c - X` goes to `__rsub__`, which is `__sub__` and so computes
      `X - c`; that is the true difference `Constant(c) - X` exactly when
      `X` is the constant `c` itself. */
  lemma ReflectedSubCorrectOnlyAtConstant(x: Dual, c: real)
    ensures RSub(x, OpNum(c)) == Val(SubDual(Constant(c), x)) <==> x == Constant(c)
  {
    if RSub(x, OpNum(c)) == Val(SubDual(Constant(c), x)) {
      assert x.re - c == c - x.re;
      assert x.du == -x.du;
    }
  }

  // ---------------------------------------------------------------------
  // Laws and non-laws of multiplication

  /** `k * X == X * k`, and both scale the two parts by `k`. */
  lemma ScalarMulScalesBoth(x: Dual, k: real)
    ensures RMul(x, OpNum(k)) == Mul(x, OpNum(k))
    ensures Mul(x, OpNum(k)) == Val(Dual(x.re * k, x.du * k))
  {
  }

  /** Linearity: `a*X + b*Y` has parts `a·X.re + b·Y.re` and
      `a·X.du + b·Y.du`. */
  lemma Linearity(x: Dual, y: Dual, a: real, b: real)
    ensures AddDual(MulNum(x, a), MulNum(y, b)) == Dual(a * x.re + b * y.re, a * x.du + b * y.du)
  {
  }

  /** `Dual * Dual` as written: the real part is the product, the dual part
      is the SUM of the dual parts. It is commutative. */
  lemma DualMulAddsDualParts(x: Dual, y: Dual)
    ensures Mul(x, OpDual(y)) == Val(Dual(x.re * y.re, x.du + y.du))
    ensures Mul(x, OpDual(y)) == Mul(y, OpDual(x))
  {
  }

  /** The product rule the comment on duals.py:43-45 derives is missed:
      for (4, 3) * (5, 7) the code gives dual part 10, the rule 43. */
  lemma DualMulBreaksProductRule()
    ensures MulDual(Dual(4.0, 3.0), Dual(5.0, 7.0)) == Dual(20.0, 10.0)
    ensures MulDual(Dual(4.0, 3.0), Dual(5.0, 7.0)).du != 4.0 * 7.0 + 5.0 * 3.0
  {
  }

  /** Multiplying by a number and by that number promoted to a `Dual`
      agree only when the number is 1 or the dual part is 0. */
  lemma NumMulDisagreesWithPromotedMul(x: Dual, k: real)
    ensures MulDual(x, Constant(k)) == MulNum(x, k) <==> (k == 1.0 || x.du == 0.0)
  {
    if MulDual(x, Constant(k)) == MulNum(x, k) && x.du != 0.0 {
      assert x.du * (k - 1.0) == 0.0;
      ZeroProduct(x.du, k - 1.0);
    }
  }

  // ---------------------------------------------------------------------
  // Division

  /** Dividing by a number `k` divides only the real part. */
  lemma NumDivKeepsDualPart(x: Dual, k: real)
    requires k != 0.0
    ensures TrueDiv(x, OpNum(k)) == Val(Dual(x.re / k, x.du))
  {
  }

  /** The `Dual / Dual` branch, given `k` promoted to a constant, divides
      both parts by `k`. */
  lemma PromotedDivisorDividesBoth(x: Dual, k: real)
    requires k != 0.0
    ensures DivDual(x, Constant(k)) == Dual(x.re / k, x.du / k)
  {
    RealPowNonZero(k, 2);
    RealPowTwo(k);
    ScaledQuotient(x.du, k);
    Cancel(x.du * k - 0.0 * x.re, RealPow(k, 2), x.du / k);
  }

  /** Dividing by a number `k` and by `k` promoted to a `Dual` agree only
      when `k` is 1 or the dual part is 0. */
  lemma NumDivDisagreesWithPromotedDiv(x: Dual, k: real)
    requires k != 0.0
    ensures DivNum(x, k) == DivDual(x, Constant(k)) <==> (k == 1.0 || x.du == 0.0)
  {
    PromotedDivisorDividesBoth(x, k);
    if x.du / k == x.du && x.du != 0.0 {
      FixedPointOfDivision(x.du, k);
    }
  }

  /** As written, dividing by a number does not undo multiplying by it. */
  lemma NumDivDoesNotUndoNumMul(x: Dual, k: real)
    requires k != 0.0
    ensures DivNum(MulNum(x, k), k) == Dual(x.re, x.du * k)
  {
  }

  /** `X.__rdiv__(Y)` is `Y / X`; `X.__rdiv__(c)` is `(c / X.re, 1 / X.du)`
      when `X.du != 0` (duals.py:73-76). */
  lemma ReflectedDivFormulas(x: Dual, y: Dual, c: real)
    requires x.re != 0.0
    ensures RDiv(x, OpDual(y)) == TrueDiv(y, OpDual(x))
    ensures x.du != 0.0 ==> RDiv(x, OpNum(c)) == Val(Dual(c / x.re, 1.0 / x.du))
  {
  }

  // ---------------------------------------------------------------------
  // Power

  /** `X ** 1 == X`. */
  lemma PowOneIsIdentity(x: Dual)
    ensures Pow(x, ExpNum(1)) == Val(x)
  {
  }

  /** `X ** 0 == (1, 0)` when `X.re != 0` (otherwise Python raises). */
  lemma PowZeroIsOne(x: Dual)
    requires x.re != 0.0
    ensures Pow(x, ExpNum(0)) == Val(Dual(1.0, 0.0))
  {
  }

  /** The power rule, for every exponent `n >= 1`:
      `X ** n == (re^n, n · du · re^(n-1))`, and `X ** (n + 1)` is
      `X` times `X ** n` under the product rule. */
  lemma {:induction false} PowStepIsProductRule(x: Dual, n: nat)
    requires n >= 1
    ensures PowNum(x, n + 1).re == x.re * PowNum(x, n).re
    ensures PowNum(x, n + 1).du == x.re * PowNum(x, n).du + PowNum(x, n).re * x.du
  {
    var m := n as real;
    var p := RealPow(x.re, n - 1);
    assert RealPow(x.re, n) == x.re * p;
    calc {
      PowNum(x, n + 1).du;
      (m + 1.0) * x.du * RealPow(x.re, n);
      (m + 1.0) * x.du * (x.re * p);
      x.re * (m * x.du * p) + (x.re * p) * x.du;
      x.re * PowNum(x, n).du + PowNum(x, n).re * x.du;
    }
  }

  /** A `Dual` exponent, or any other non-number, gives an error value and
      never a `Dual`. */
  lemma PowRejectsNonNumbers(x: Dual, y: Dual, t: string)
    ensures Pow(x, ExpDual(y)).Err? && Pow(x, ExpOther(t)).Err?
    ensures t <= Pow(x, ExpOther(t)).msg
  {
  }

  /** Every operator returns an error value naming the operand's type, and
      never a `Dual`, for an operand that is neither a `Dual` nor a number. */
  lemma UnsupportedOperandGivesError(x: Dual, t: string)
    ensures Add(x, OpOther(t)).Err? && t <= Add(x, OpOther(t)).msg
    ensures Sub(x, OpOther(t)).Err? && t <= Sub(x, OpOther(t)).msg
    ensures Mul(x, OpOther(t)).Err? && t <= Mul(x, OpOther(t)).msg
    ensures TrueDiv(x, OpOther(t)).Err? && t <= TrueDiv(x, OpOther(t)).msg
    ensures RDiv(x, OpOther(t)).Err? && t <= RDiv(x, OpOther(t)).msg
  {
  }

  // ---------------------------------------------------------------------
  // The evaluator

  /** The identity function evaluated at `p` gives `(p, 1)`. */
  lemma EvaluatorOnIdentity(p: real)
    ensures ValueAndDerivativeAtPoint(x => x, p) == (p, 1.0)
  {
  }

  /** The demo `x**2 + 7*x - 18` gives, at every point `p`, the value
      `p² + 7p - 18` and the derivative `2p + 7`; at 7 that is (80, 21). */
  lemma EvaluatorOnDemo(p: real)
    ensures ValueAndDerivativeAtPoint(DemoPolynomial, p) == (p * p + 7.0 * p - 18.0, 2.0 * p + 7.0)
    ensures ValueAndDerivativeAtPoint(DemoPolynomial, 7.0) == (80.0, 21.0)
  {
    assert RealPow(p, 1) == p;
    assert RealPow(p, 2) == p * p;
    assert PowNum(Seed(p), 2) == Dual(p * p, 2.0 * p);
  }
}
