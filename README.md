# Dual numbers for forward-mode differentiation (duals.py), in Dafny

duals.py defines a `Dual` value `re + du·ε` with `ε² = 0`. Its operators
`+ - * / **` carry a derivative along with a value. The function
`value_and_derivative_at_point` seeds `Dual(point, 1)`, runs a function on it
and reads off `(value, derivative)`.

This project models that core over exact `real` numbers. It has four modules:

- `Reals` (reals.dfy): natural powers (`RealPow`) and the few facts about
  division and multiplication that the other proofs use by name.
- `Duals` (duals.dfy): the code as written. It has one function per operator
  branch (`AddDual`, `MulDual`, `DivNum`, `PowNum`, …) and the operators
  themselves (`Add`, `Sub`, `Mul`, `TrueDiv`, `RDiv`, `Pow`).
  - Each operator dispatches on an `Operand`: a `Dual`, a number, or any other
    type named by its type name.
  - An unsupported operand gives an `Err` value, because the code *returns* a
    `NotImplementedError` object rather than raising it.
  - The reflected hooks are aliases, as in the code: `RAdd = Add`,
    `RSub = Sub`, `RMul = Mul`.
  - The module also holds the evaluator, the demonstration polynomial, and the
    algebraic laws that the code satisfies and that it breaks.
- `Corrected` (corrected.dfy): textbook dual arithmetic for the four places
  where the code departs from it (`MulFixed`, `DivNumFixed`, `RSubFixed`,
  `RDivNumFixed`), and for `x ** 0` at a zero base (`PowFixed`), with lemmas
  relating each to the code.
- `ForwardMode` (forward_mode.dfy): programs in one variable (`Expr`) and
  three meanings for them:
  - `Value`/`Slope`: the value and derivative by the rules of calculus;
  - `EvalCode`: what duals.py computes on the seed;
  - `EvalFixed`: the same with the corrected operators.

  `CodeIsSound` proves that the code differentiates every program without
  `Dual * Dual`, `Dual / number` and `number - Dual`, wherever no zero is
  raised to the power 0. `FixedIsSound` proves the corrected operators
  differentiate every program wherever its value is defined.

The model follows the code as written wherever it departs from textbook
dual-number arithmetic, and states the textbook version beside it:

- The comment at duals.py:43-45 derives the product rule, but line 47 adds
  the dual parts.
- `Dual / number` (duals.py:67) leaves the dual part undivided, while a
  number promoted to `Dual(k, 0)` and divided by the `Dual` branch would
  divide both parts.
- `number - Dual` reaches `__rsub__ = __sub__` (duals.py:36) and so computes
  `Dual - number`.
- `__rdiv__` with a number (duals.py:76) returns `1 / dual_part` as the
  dual part.
- `X ** 0` with a zero real part computes `0 ** -1` for the dual part
  (duals.py:88) and raises, although `x ** 0` is 1 with derivative 0.

Division by zero is what Python gives it: `ZeroDivisionError`. Each of the
five departures above is in "## Findings" below.

## Model

| member | source | states |
|---|---|---|
| `Duals.Add` | duals.py:11-21 | error exactly for an unsupported operand, with the message naming its type; otherwise the sum with the operand promoted to a `Dual` (a number `c` as `(c, 0)`) |
| `Duals.RAdd` | duals.py:23 | `c + X` for a number `c` reaches `__radd__ = __add__`: the error exactly for an unsupported operand, with the addition message; otherwise `Dual(c, 0) + X` |
| `Duals.Sub` | duals.py:25-34 | error exactly for an unsupported operand, with its message; otherwise the difference with the operand promoted |
| `Duals.RSub` | duals.py:36 | `c - X` reaches `__rsub__ = __sub__`: the error exactly for an unsupported operand, with the subtraction message; otherwise `X - c`, the operands the wrong way round |
| `Duals.Mul` | duals.py:38-53 | error exactly for an unsupported operand, with the message as spelled in the code; otherwise the real part is the product of the real parts |
| `Duals.RMul` | duals.py:55 | `c * X` reaches `__rmul__ = __mul__`: the error exactly for an unsupported operand, with the code's message; for a number `c`, `(c·X.re, c·X.du)` |
| `Duals.TrueDiv` | duals.py:57-70 | for a non-zero divisor: error exactly for an unsupported operand; otherwise the real part is the quotient of the real parts |
| `Duals.RDiv` | duals.py:72-79 | `__rdiv__` called directly: error exactly for an unsupported operand; otherwise the real part is the operand's divided by `X.re` |
| `Duals.Pow` | duals.py:81-92 | a number exponent gives a `Dual` whose real part is `re^n`; a `Dual` or other exponent gives the error value with the code's message |
| `Duals.ValueAndDerivativeAtPoint` | duals.py:101-106 | no contract of its own (it applies `f` to the seed `Dual(point, 1)` and returns both parts); what it returns is stated by `Duals.EvaluatorOnIdentity`, `Duals.EvaluatorOnDemo` and `ForwardMode.EvaluatorComputesDerivative` |
| `Duals.DemoPolynomial` | duals.py:136 | `x**2 + 7*x - 18` through `__pow__`, `__rmul__`, `__add__` and `__sub__` is `(re² + 7·re - 18, 2·re·du + 7·du)` for every `x` |
| `Duals.AddCommutes` | duals.py:11-15 | `X + Y == Y + X` |
| `Duals.AddAssociates` | duals.py:12-15 | `(X + Y) + Z == X + (Y + Z)` |
| `Duals.ScalarShiftKeepsDualPart` | duals.py:16-18 | adding or subtracting a number moves only the real part; the dual part is unchanged |
| `Duals.SubUndoesAdd` | duals.py:12-31 | `(X + Y) - Y == X` and `(X + c) - c == X` |
| `Duals.ReflectedSubCorrectOnlyAtConstant` | duals.py:30-36 | `c - X` as computed equals `Dual(c, 0) - X` if and only if `X == Dual(c, 0)` |
| `Duals.ScalarMulScalesBoth` | duals.py:49-55 | `k * X == X * k == (X.re·k, X.du·k)` |
| `Duals.Linearity` | duals.py:12-15 | `a*X + b*Y` has parts `a·X.re + b·Y.re` and `a·X.du + b·Y.du` |
| `Duals.DualMulAddsDualParts` | duals.py:41-48 | `X * Y == (X.re·Y.re, X.du + Y.du)`, and it is commutative |
| `Duals.DualMulBreaksProductRule` | duals.py:43-47 | `(4,3) * (5,7)` gives `(20, 10)`, not the product rule's dual part 43 |
| `Duals.NumMulDisagreesWithPromotedMul` | duals.py:41-50 | `X * k` and `X * Dual(k, 0)` agree if and only if `k == 1` or `X.du == 0` |
| `Duals.NumDivKeepsDualPart` | duals.py:66-67 | `X / k == (X.re / k, X.du)` |
| `Duals.PromotedDivisorDividesBoth` | duals.py:58-65 | `X / Dual(k, 0)` divides both parts by `k` |
| `Duals.NumDivDisagreesWithPromotedDiv` | duals.py:58-67 | `X / k` and `X / Dual(k, 0)` agree if and only if `k == 1` or `X.du == 0` |
| `Duals.NumDivDoesNotUndoNumMul` | duals.py:50-67 | `(X * k) / k == (X.re, X.du·k)` |
| `Duals.ReflectedDivFormulas` | duals.py:72-76 | for `X.re != 0`: `X.__rdiv__(Y) == Y / X`, and `X.__rdiv__(c) == (c / X.re, 1 / X.du)` when also `X.du != 0` |
| `Duals.PowOneIsIdentity` | duals.py:85-89 | `X ** 1 == X` |
| `Duals.PowZeroIsOne` | duals.py:85-89 | `X ** 0 == (1, 0)` when `X.re != 0` |
| `Duals.PowStepIsProductRule` | duals.py:85-89 | for `n >= 1`, `X ** (n+1)` is `X` times `X ** n` under the product rule, in both parts |
| `Duals.PowRejectsNonNumbers` | duals.py:90-92 | a `Dual` or other exponent gives an error value; the other type's name starts the message |
| `Duals.UnsupportedOperandGivesError` | duals.py:19-79 | for an unsupported operand, every binary operator returns an error value whose message starts with the type's name |
| `Duals.EvaluatorOnIdentity` | duals.py:101-106 | the identity function evaluated at `p` gives `(p, 1)` |
| `Duals.EvaluatorOnDemo` | duals.py:136-137 | `x**2 + 7*x - 18` evaluated at `p` gives `(p² + 7p - 18, 2p + 7)`, and `(80, 21)` at 7 |
| `Corrected.MulFixedCommutesAndAssociates` | duals.py:43-45 | the product rule derived in the comment is commutative and associative |
| `Corrected.MulFixedOnConstantIsScalarMul` | duals.py:49-50 | the product rule with `Dual(k, 0)` on either side is the code's `X * k` |
| `Corrected.QuotientUndoesProduct` | duals.py:58-65 | the code's `Dual / Dual` undoes the product rule: `(X ⊗ Y) / Y == X` |
| `Corrected.QuotientDoesNotUndoCodeProduct` | duals.py:46-65 | the code's own `(4,3) * (5,7) / (5,7)` is `(4, -3.6)`, not `(4, 3)` |
| `Corrected.CodeProductVersusProductRule` | duals.py:43-48 | `X * Y` as written equals the product rule if and only if `X.du + Y.du == X.re·Y.du + Y.re·X.du` |
| `Corrected.DivNumFixedIsPromotedDiv` | duals.py:58-67 | dividing both parts by `k` is `X / Dual(k, 0)`, and it undoes `X * k` |
| `Corrected.RSubFixedIsPromotedSub` | duals.py:25-36 | `(c - X.re, -X.du)` is `Dual(c, 0) - X`, and adding `X` gives back `Dual(c, 0)` |
| `Corrected.RDivNumFixedIsPromotedDiv` | duals.py:58-76 | `(c / X.re, -c·X.du / X.re²)` is `Dual(c, 0) / X` by the code's quotient rule |
| `Corrected.CodeRDivMeetsQuotientRuleIff` | duals.py:75-76 | for every `X` with non-zero parts and every `c`: `X.__rdiv__(c)` equals the quotient rule's `Dual(c, 0) / X` if and only if `X.re² + c·X.du² == 0` (so never for `c >= 0`) |
| `Corrected.CodeRDivVersusQuotientRule` | duals.py:76 | for 8 and `(4,3)`: `__rdiv__` gives `(2, 1/3)`, the quotient rule `(2, -1.5)` |
| `Corrected.PowerIsRepeatedProduct` | duals.py:85-89 | `X ** n` equals `X` multiplied by itself `n` times under the product rule, for every exponent the code accepts |
| `Corrected.PowFixedIsRepeatedProduct` | duals.py:85-89 | `X ** n` with `X ** 0 == (1, 0)` is `X` multiplied by itself `n` times under the product rule, for every `X` and `n`, and equals the code's `X ** n` wherever the code does not raise |
| `Corrected.CodeSquareVersusPower` | duals.py:46-50 | at the seed 7, `x * x` gives `(49, 2)` and `x ** 2` gives `(49, 14)` |
| `ForwardMode.CodePowerIsPowerRule` | duals.py:88 | the code's `n·du·re^(n-1)` is the power rule `n·a'·aⁿ⁻¹`, and 0 for `n = 0` |
| `ForwardMode.QuotientStep` | duals.py:58-65 | the code's `Dual / Dual` on `(a, a')`, `(b, b')` is `(a/b, (a'·b - b'·a)/b²)` |
| `ForwardMode.EvalCode` | duals.py:11-92 | no contract of its own (it runs a program on a `Dual` with the branch Python selects for each operator); what it computes is stated by `ForwardMode.CodeIsSound`, `ForwardMode.CodeValuesAreExact` and the counterexample lemmas |
| `ForwardMode.CodeIsSound` | duals.py:11-106 | without `Dual * Dual`, `Dual / number` and `number - Dual`, running a program on `Dual(p, 1)` raises no `ZeroDivisionError` exactly where its value at `p` is defined and no sub-program `a ** 0` has `a = 0`; then it returns the value and the derivative at `p` |
| `ForwardMode.FixedIsSound` | duals.py:11-106 | with the corrected operators, every program runs without `ZeroDivisionError` exactly where its value at `p` is defined, and returns its value and derivative |
| `ForwardMode.CodeValuesAreExact` | duals.py:11-92 | without `number - Dual`, the code raises exactly where `CodeIsSound` says, and otherwise its real part is the program's value, for every program |
| `ForwardMode.EvaluatorComputesDerivative` | duals.py:101-106 | `value_and_derivative_at_point` on a program of that fragment, at a point where it is defined and raises no `0 ** -1`, returns its value and derivative |
| `ForwardMode.DemoIsDifferentiated` | duals.py:136-137 | the demo polynomial is in that fragment and is what `DemoPolynomial` runs; its value and derivative are `p² + 7p - 18` and `2p + 7` |
| `ForwardMode.ProductCounterexample` | duals.py:46-48 | `x * x` gives derivative 2 everywhere; the calculus gives `2p` |
| `ForwardMode.DivideByNumberCounterexample` | duals.py:66-67 | `x / 2` gives derivative 1; the calculus gives 0.5 |
| `ForwardMode.ReflectedSubCounterexample` | duals.py:36 | `c - x` gives `(p - c, 1)`; the calculus gives `(c - p, -1)` |
| `ForwardMode.ZeroToTheZeroCounterexample` | duals.py:85-89 | `x ** 0` has value 1 and derivative 0 at every `p`, but the code raises on the seed exactly at `p = 0` |

## Left out

- `GeneralFunction` and its `eval` of source text (duals.py:109-119): there is no Dafny counterpart to evaluating text. The evaluator takes a Dafny function `Dual --> Dual` in its place. `ForwardMode.Expr` plays the role of the expression text.
- The `print` in `value_and_derivative_at_point` (duals.py:105), the `__main__` driver (duals.py:122-137), and `__str__`/`__repr__` (duals.py:94-98): these are console output and rendering, not arithmetic. Only the demo's numeric result is kept, as a lemma.
- Floating point: numbers are exact reals. The model has no rounding, no overflow, and no int/float distinction. `int / int` in the code gives a float, which the model treats as the exact quotient. The error message for a number operand never arises.
- `ZeroDivisionError` (division by a zero real part, `1 / du` with `du == 0` in `__rdiv__`, `0 ** -1`) is a precondition (`DivisorOk`, `RDivOk`, `ExponentOk`, `CodeOk`) rather than a modelled exception. Where it arises in a program is stated exactly, by `CodeOk` in `CodeIsSound` and `ZeroToTheZeroCounterexample`.
- Exponents that are negative integers or non-integer floats: `Pow` takes a natural exponent only, because Dafny has no real power.
- Python's operator dispatch is stated, not modelled. Which hook Python calls (`__radd__` for `c + X`, `__rmul__` for `7*x`, and so on) is encoded in `EvalCode` and in the doc comments. `number / Dual` raises `TypeError` in Python 3, because `Dual` has no `__rtruediv__`, so that form is absent from `Expr` and `__rdiv__` is modelled only as a direct call.
- Combining an error value with further operators (the code would then try arithmetic on a `NotImplementedError` object) is not modelled.
- Duals.Mul: the contract states the error cases and the real part. The full result for each operand type is `DualMulAddsDualParts` and `ScalarMulScalesBoth`.
- Duals.TrueDiv: the contract states the error cases and the real part. The full result is `NumDivKeepsDualPart` for a number; for a `Dual` it is the quotient rule, proved in `QuotientStep` and `QuotientUndoesProduct`.
- Duals.RDiv: the contract states the error cases and the real part. The full result is `ReflectedDivFormulas`.
- Duals.Pow: the contract states the real part. The dual part is stated by `CodePowerIsPowerRule` and `PowerIsRepeatedProduct`.

## Findings

| source | as written | input that shows it | evidently intended | confidence | as-written member | corrected member |
|---|---|---|---|---|---|---|
| duals.py:46-48 | `Dual * Dual` has dual part `b + d` | `(4,3) * (5,7)` gives `(20, 10)` | `(20, 43)`, the product rule derived at duals.py:43-45 | high, not executed | `Duals.DualMulBreaksProductRule` | `Corrected.QuotientUndoesProduct` |
| duals.py:66-67 | `Dual / number` leaves the dual part undivided | `(4,3) / 2` gives `(2, 3)`; for `x / 2` the derivative is 1 | `(2, 1.5)`, i.e. `X / Dual(k, 0)` | high, not executed | `Duals.NumDivDisagreesWithPromotedDiv` | `Corrected.DivNumFixedIsPromotedDiv` |
| duals.py:36 | `__rsub__ = __sub__`, so `c - X` is `X - c` | `10 - Dual(4, 1)` gives `(-6, 1)` | `(6, -1)` | high, not executed | `Duals.ReflectedSubCorrectOnlyAtConstant` | `Corrected.RSubFixedIsPromotedSub` |
| duals.py:76 | `__rdiv__` with a number gives dual part `1 / du` | `Dual(4,3).__rdiv__(8)` gives `(2, 1/3)` | `(2, -1.5)`, the quotient rule on `Dual(8, 0) / X` | medium (the hook is not reached by `/` in Python 3), not executed | `Corrected.CodeRDivMeetsQuotientRuleIff` | `Corrected.RDivNumFixedIsPromotedDiv` |
| duals.py:88 | the dual part of `X ** n` is `n * du * re ** (n - 1)`, which for `n = 0` evaluates `re ** -1` | `Dual(0, 1) ** 0` raises `ZeroDivisionError` | `(1, 0)`: `x ** 0` is the constant 1 | medium, not executed | `ForwardMode.ZeroToTheZeroCounterexample` | `Corrected.PowFixedIsRepeatedProduct` |

`ForwardMode.FixedIsSound` proves that the corrected operators together
differentiate every program; it uses `PowFixed` for `**`. `ForwardMode.ProductCounterexample`,
`DivideByNumberCounterexample` and `ReflectedSubCounterexample` show the
effect of the first three findings on a whole program.
