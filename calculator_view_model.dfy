/**
 * The calculator's state machine: the state record, one handler per key and
 * `onAction`, which folds an action into the state. As in the Kotlin code the
 * handlers are pure functions that return a modified copy of the state;
 * `ViewModel` is the object whose `state` field `onAction` reassigns, and it
 * is where the evaluator object and the factorial loop run.
 *
 * Number formatting, `toDoubleOrNull` and the `kotlin.math` functions are the
 * opaque members of `Numerics.Library`.
 */
module CalculatorViewModel {
  import opened Wrappers
  import opened Numerics
  import opened KotlinText
  import opened CalculatorAction
  import opened ExpressionParser
  import opened ExpressionObject

  /** `CalculatorState`: the display text, the expression typed so far and two flags. */
  datatype CalculatorState = CalculatorState(
    display: string,
    expression: string,
    justCalculated: bool,
    isInverse: bool)

  /** `CalculatorState()` with its default arguments. */
  const Initial := CalculatorState("0", "", false, false)

  predicate IsSeparator(c: char) {
    c == '.' || c == ','
  }

  /** Text without a '.' or a ','. */
  predicate NoSeparators(s: string) {
    forall i :: 0 <= i < |s| ==> !IsSeparator(s[i])
  }

  /** `replace(".", "").replace(",", "")`: drops the decimal point and the grouping commas alike. */
  function Strip(s: string): (r: string)
    ensures |r| <= |s| && NoSeparators(r)
    decreases |s|
  {
    if s == [] then []
    else (if IsSeparator(s[0]) then [] else [s[0]]) + Strip(s[1..])
  }

  /** What every handler reads first: `display.replace(".", "").replace(",", "").toDoubleOrNull()`. */
  function DisplayValue(lib: Library, display: string): Option<real> {
    lib.toDouble(Strip(display))
  }

  /** The `String` branch of `formatNumber`: text that does not parse after stripping is returned as it is. */
  function FormatText(lib: Library, s: string): (r: string)
    ensures lib.toDouble(Strip(s)).None? ==> r == s
    ensures lib.toDouble(Strip(s)).Some? ==> r == lib.format(lib.toDouble(Strip(s)).value)
  {
    match lib.toDouble(Strip(s))
    case Some(v) => lib.format(v)
    case None => s
  }

  /** `handleNumber`: a digit key. */
  function HandleNumber(lib: Library, st: CalculatorState, number: Int32): (r: CalculatorState)
    ensures !r.justCalculated
    ensures st.justCalculated ==>
      r == CalculatorState(FormatText(lib, IntToString(number)), IntToString(number), false, false)
    ensures !st.justCalculated ==>
      r.expression == st.expression + IntToString(number) && r.isInverse == st.isInverse
    ensures !st.justCalculated && (Strip(st.display) == "0" || st.display == "Error") ==>
      r.display == FormatText(lib, IntToString(number))
    ensures !st.justCalculated && Strip(st.display) != "0" && st.display != "Error" ==>
      r.display == FormatText(lib, Strip(st.display) + IntToString(number))
  {
    var digits := IntToString(number);
    if st.justCalculated then
      CalculatorState(FormatText(lib, digits), digits, false, false)
    else
      var raw := Strip(st.display);
      var newRaw := if raw == "0" || st.display == "Error" then digits else raw + digits;
      st.(display := FormatText(lib, newRaw), expression := st.expression + digits, justCalculated := false)
  }

  /** `handleDecimal`: the "." key. */
  function HandleDecimal(st: CalculatorState): (r: CalculatorState)
    ensures '.' in r.display && !r.justCalculated
    ensures st.justCalculated ==> r == CalculatorState("0.", "0.", false, false)
    ensures !st.justCalculated && '.' in st.display ==> r == st
    ensures !st.justCalculated && '.' !in st.display ==>
      r == st.(display := st.display + ".", expression := st.expression + ".")
  {
    if st.justCalculated then
      CalculatorState("0.", "0.", false, false)
    else if '.' !in st.display then
      st.(display := st.display + ".", expression := st.expression + ".")
    else
      st
  }

  /** `handleOperation`: an operator key; after a result the result's digits start the new expression. */
  function HandleOperation(st: CalculatorState, operation: char): (r: CalculatorState)
    ensures !r.justCalculated && r.isInverse == st.isInverse
    ensures st.justCalculated ==> r.display == st.display && r.expression == Strip(st.display) + [operation]
    ensures !st.justCalculated ==> r.display == "0" && r.expression == st.expression + [operation]
  {
    if st.justCalculated then
      st.(expression := Strip(st.display) + [operation], justCalculated := false)
    else
      st.(display := "0", expression := st.expression + [operation], justCalculated := false)
  }

  /** `handleDelete`: the DEL key. */
  function HandleDelete(lib: Library, st: CalculatorState): (r: CalculatorState)
    ensures st.justCalculated ==> r == Initial
    ensures !st.justCalculated ==> r.justCalculated == st.justCalculated && r.isInverse == st.isInverse
    ensures !st.justCalculated && st.expression == "" ==> r.expression == ""
    ensures !st.justCalculated && st.expression != "" ==>
      r.expression + [st.expression[|st.expression| - 1]] == st.expression
    ensures !st.justCalculated ==>
      var raw := Strip(st.display);
      r.display == FormatText(lib, if |raw| > 1 then raw[..|raw| - 1] else "0")
  {
    if st.justCalculated then
      Initial
    else
      var raw := Strip(st.display);
      var newRaw := if |raw| > 1 then raw[..|raw| - 1] else "0";
      var newExpr := if st.expression != "" then st.expression[..|st.expression| - 1] else "";
      st.(display := FormatText(lib, newRaw), expression := newExpr)
  }

  /** What `calculateExpression` returns: the formatted value, or "Error" for any exception. */
  function CalculationDisplay(lib: Library, expression: string): (text: string)
    ensures Evaluate(lib, expression).Failure? ==> text == "Error"
    ensures Evaluate(lib, expression).Success? ==> text == lib.format(Evaluate(lib, expression).value)
    ensures (exists i :: 0 <= i < |expression| && !IsInputChar(expression[i])) ==> text == "Error"
  {
    match Evaluate(lib, expression)
    case Success(x) => lib.format(x)
    case Failure(_) => "Error"
  }

  /** The `Calculate` branch of `onAction`. */
  function CalculateState(lib: Library, st: CalculatorState): (r: CalculatorState)
    ensures r.expression == st.expression + "=" && r.justCalculated && r.isInverse == st.isInverse
    ensures r.display == CalculationDisplay(lib, st.expression)
  {
    st.(display := CalculationDisplay(lib, st.expression), expression := st.expression + "=", justCalculated := true)
  }

  /**
   * The shape shared by `handleReciprocal`, `handleSquareRoot`, `handleLog`,
   * `handleLn` and `handleTrigonometry`: read the display, apply `f`, show
   * the result and record `symbol(previous display)` as the expression.
   */
  function ApplyFunction(lib: Library, st: CalculatorState, symbol: string, f: real -> real): (r: CalculatorState)
    ensures DisplayValue(lib, st.display).None? ==> r == st
    ensures DisplayValue(lib, st.display).Some? ==>
      r == st.(display := lib.format(f(DisplayValue(lib, st.display).value)),
               expression := symbol + "(" + st.display + ")")
  {
    match DisplayValue(lib, st.display)
    case None => st
    case Some(v) => st.(display := lib.format(f(v)), expression := symbol + "(" + st.display + ")")
  }

  function HandleReciprocal(lib: Library, st: CalculatorState): CalculatorState {
    ApplyFunction(lib, st, "1/", v => lib.divide(1.0, v))
  }

  function HandleSquareRoot(lib: Library, st: CalculatorState): CalculatorState {
    ApplyFunction(lib, st, "√", lib.sqrt)
  }

  function HandleLog(lib: Library, st: CalculatorState): CalculatorState {
    ApplyFunction(lib, st, "log", lib.log10)
  }

  function HandleLn(lib: Library, st: CalculatorState): CalculatorState {
    ApplyFunction(lib, st, "ln", lib.ln)
  }

  /** `handleTrigonometry`: degrees in, degrees out for the inverse functions. */
  function HandleTrigonometry(lib: Library, st: CalculatorState, symbol: string, invSymbol: string,
                              isInverse: bool, fn: real -> real, invFn: real -> real): CalculatorState
  {
    if isInverse then ApplyFunction(lib, st, invSymbol, v => lib.toDegrees(invFn(v)))
    else ApplyFunction(lib, st, symbol, v => fn(lib.toRadians(v)))
  }

  /** `handleToggleSign`: only the display changes. */
  function HandleToggleSign(lib: Library, st: CalculatorState): (r: CalculatorState)
    ensures r.expression == st.expression && r.justCalculated == st.justCalculated && r.isInverse == st.isInverse
    ensures DisplayValue(lib, st.display).None? ==> r == st
    ensures DisplayValue(lib, st.display).Some? ==> r.display == lib.format(-DisplayValue(lib, st.display).value)
  {
    match DisplayValue(lib, st.display)
    case None => st
    case Some(v) => st.(display := lib.format(v * -1.0))
  }

  const LONG_MIN: int := -0x8000_0000_0000_0000
  const LONG_MAX: int := 0x7fff_ffff_ffff_ffff
  const LONG_MODULUS: int := 0x1_0000_0000_0000_0000

  /**
   * Kotlin `Long` multiplication keeps the product modulo 2^64, read as a
   * signed value: the representative of `x` in the `Long` range.
   */
  function WrapLong(x: int): (r: int)
    ensures LONG_MIN <= r <= LONG_MAX
    ensures LONG_MIN <= x <= LONG_MAX ==> r == x
    decreases if x > LONG_MAX then x - LONG_MAX else if x < LONG_MIN then LONG_MIN - x else 0
  {
    if x > LONG_MAX then WrapLong(x - LONG_MODULUS)
    else if x < LONG_MIN then WrapLong(x + LONG_MODULUS)
    else x
  }

  /** The value of `result` after `for (i in 1..n) result *= i` with `var result: Long = 1`. */
  function LongFactorial(n: nat): (r: int)
    ensures LONG_MIN <= r <= LONG_MAX
  {
    if n == 0 then 1 else WrapLong(LongFactorial(n - 1) * n)
  }

  /** The mathematical factorial, the loop's intended result. */
  function Fact(n: nat): (r: nat)
    ensures r >= 1
  {
    if n == 0 then 1 else n * Fact(n - 1)
  }

  /** Whether `handleFactorial` accepts the value: present, not negative and `value % 1.0 == 0.0`. */
  predicate IsFactorialArgument(value: Option<real>) {
    value.Some? && value.value >= 0.0 && value.value == value.value.Floor as real
  }

  /** `handleFactorial` as a function of the state; `ViewModel.HandleFactorial` runs the loop. */
  function FactorialState(lib: Library, st: CalculatorState): (r: CalculatorState)
    ensures r.justCalculated == st.justCalculated && r.isInverse == st.isInverse
    ensures !IsFactorialArgument(DisplayValue(lib, st.display)) ==> r == st.(display := "Error")
    ensures IsFactorialArgument(DisplayValue(lib, st.display)) ==>
      var n: nat := DisplayValue(lib, st.display).value.Floor;
      r.display == lib.format(LongFactorial(n) as real) && r.expression == st.display + "!"
  {
    var value := DisplayValue(lib, st.display);
    if IsFactorialArgument(value) then
      var n: nat := value.value.Floor;
      st.(display := lib.format(LongFactorial(n) as real), expression := st.display + "!")
    else
      st.(display := "Error")
  }

  /** Actions after which `justCalculated` is false whatever it was. */
  predicate EndsCalculation(action: Action) {
    action.Number? || action.Operation? || action.PowerOf? || action.Decimal? || action.Clear? || action.AllClear?
  }

  /** Actions that build a fresh `CalculatorState(...)` when they follow a calculation. */
  predicate StartsFresh(action: Action) {
    action.Number? || action.Decimal? || action.Clear? || action.AllClear?
  }

  /** `onAction` as a function of the old state: the `when` over the action. */
  function Apply(lib: Library, st: CalculatorState, action: Action): (r: CalculatorState)
    ensures action.AllClear? ==> r == Initial
    ensures action.Inverse? ==> r == st.(isInverse := !st.isInverse)
    ensures action.ParenthesisOpen? || action.ParenthesisClose? || action.Norm? ==> r == st
    ensures action.PowerOf? ==> r == HandleOperation(st, '^')
  {
    match action
    case Number(n) => HandleNumber(lib, st, n)
    case Operation(op) => HandleOperation(st, op)
    case Calculate => CalculateState(lib, st)
    case AllClear => Initial
    case Clear => HandleDelete(lib, st)
    case Decimal => HandleDecimal(st)
    case ToggleSign => HandleToggleSign(lib, st)
    case Inverse => st.(isInverse := !st.isInverse)
    case Reciprocal => HandleReciprocal(lib, st)
    case Factorial => FactorialState(lib, st)
    case SquareRoot => HandleSquareRoot(lib, st)
    case Log => HandleLog(lib, st)
    case Ln => HandleLn(lib, st)
    case PowerOf => HandleOperation(st, '^')
    case Sin(inverse) => HandleTrigonometry(lib, st, "sin", "asin", inverse, lib.sin, lib.asin)
    case Cos(inverse) => HandleTrigonometry(lib, st, "cos", "acos", inverse, lib.cos, lib.acos)
    case Tan(inverse) => HandleTrigonometry(lib, st, "tan", "atan", inverse, lib.tan, lib.atan)
    case ParenthesisOpen => st
    case ParenthesisClose => st
    case Norm => st
  }

  /** Only `=` sets `justCalculated`; the keys that start or extend an input clear it; the rest keep it. */
  lemma JustCalculatedAfter(lib: Library, st: CalculatorState, action: Action)
    ensures Apply(lib, st, action).justCalculated ==
      if action.Calculate? then true
      else if EndsCalculation(action) then false
      else st.justCalculated
  {
  }

  /**
   * INV flips `isInverse`; AC clears it, and so does every key that builds a
   * fresh `CalculatorState` after a result; every other key keeps it.
   */
  lemma InverseFlagAfter(lib: Library, st: CalculatorState, action: Action)
    ensures Apply(lib, st, action).isInverse ==
      if action.Inverse? then !st.isInverse
      else if action.AllClear? || (st.justCalculated && StartsFresh(action)) then false
      else st.isInverse
  {
  }

  /** `CalculatorViewModel`: the one object whose `state` the keys change. */
  class ViewModel {
    const lib: Library
    var state: CalculatorState

    constructor (lib: Library)
      ensures this.lib == lib && state == Initial
    {
      this.lib := lib;
      state := Initial;
    }

    /** `onAction`: replace `state` by the handler's result. */
    method OnAction(action: Action)
      modifies this
      ensures state == Apply(lib, old(state), action)
    {
      match action {
        case Calculate =>
          var result := CalculateExpression(state.expression);
          state := state.(display := result, expression := state.expression + "=", justCalculated := true);
        case Factorial =>
          state := HandleFactorial(state);
        case _ =>
          state := Apply(lib, state, action);
      }
    }

    /** `calculateExpression`: rewrite the glyphs, run the evaluator object, format or report "Error". */
    method CalculateExpression(expression: string) returns (text: string)
      ensures text == CalculationDisplay(lib, expression)
    {
      var sanitized := Sanitize(expression);
      var evaluator := new Evaluator(lib, sanitized);
      var result := evaluator.Parse();
      match result {
        case Success(x) => text := lib.format(x);
        case Failure(_) => text := "Error";
      }
    }

    /** `handleFactorial`, with its `for` loop over a wrapping `Long`. */
    method HandleFactorial(current: CalculatorState) returns (next: CalculatorState)
      ensures next == FactorialState(lib, current)
    {
      var value := DisplayValue(lib, current.display);
      if value.Some? && value.value >= 0.0 && value.value == value.value.Floor as real {
        var n: nat := value.value.Floor;
        var result: int := 1;
        for i := 1 to n + 1
          invariant result == LongFactorial(i - 1)
        {
          result := WrapLong(result * i);
        }
        return current.(display := lib.format(result as real), expression := current.display + "!");
      }
      return current.(display := "Error");
    }
  }
}
