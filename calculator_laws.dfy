/**
 * Properties of the calculator's state machine that relate several key
 * presses, or a handler to an independent description of what it should do:
 * how the separator-stripping reads a display, which keys undo each other,
 * which quirks of the Kotlin handlers show up when keys are combined, and
 * what the wrapping `Long` factorial loop computes.
 */
module CalculatorLaws {
  import opened Wrappers
  import opened Numerics
  import opened KotlinText
  import opened CalculatorAction
  import opened ExpressionParser
  import opened ExpressionLaws
  import opened CalculatorViewModel

  // Stripping the separators

  /** Stripping works character by character, so it distributes over concatenation. */
  lemma {:induction false} StripConcat(u: string, v: string)
    ensures Strip(u + v) == Strip(u) + Strip(v)
    decreases |u|
  {
    if u == [] {
      assert u + v == v;
    } else {
      var head := if IsSeparator(u[0]) then [] else [u[0]];
      assert (u + v)[0] == u[0];
      assert (u + v)[1..] == u[1..] + v;
      StripConcat(u[1..], v);
      calc {
        Strip(u + v);
        head + Strip(u[1..] + v);
        head + (Strip(u[1..]) + Strip(v));
        (head + Strip(u[1..])) + Strip(v);
      }
    }
  }

  /**
   * One character: '.' and ',' vanish, every other character is kept. With
   * `StripConcat` this determines `Strip` on every text.
   */
  lemma StripChar(c: char)
    ensures Strip([c]) == if IsSeparator(c) then [] else [c]
  {
    assert [c][1..] == [];
  }

  /** A trailing separator, point or grouping comma, is invisible to every handler that reads the display. */
  lemma StripIgnoresSeparator(s: string, c: char)
    requires IsSeparator(c)
    ensures Strip(s + [c]) == Strip(s)
  {
    StripConcat(s, [c]);
    StripChar(c);
  }

  /** A grouping comma between two parts of a display drops out: "1,234" reads as "1234". */
  lemma StripGrouping(u: string, v: string)
    ensures Strip(u + "," + v) == Strip(u) + Strip(v)
  {
    StripConcat(u + ",", v);
    StripIgnoresSeparator(u, ',');
  }

  /** A trailing decimal point is invisible to every handler that reads the display. */
  lemma StripIgnoresPoint(s: string)
    ensures Strip(s + ".") == Strip(s)
  {
    StripIgnoresSeparator(s, '.');
  }

  /** The display "0." reads as "0". */
  lemma StripZeroPoint()
    ensures Strip("0.") == "0"
  {
    StripIgnoresPoint("0");
    assert Strip("0") == ['0'] + Strip([]);
  }

  /** Text that has no separators comes through unchanged. */
  lemma {:induction false} StripKeepsPlainText(s: string)
    requires NoSeparators(s)
    ensures Strip(s) == s
    decreases |s|
  {
    if s != [] {
      assert !IsSeparator(s[0]);
      assert NoSeparators(s[1..]) by {
        forall i | 0 <= i < |s[1..]| ensures !IsSeparator(s[1..][i]) {
          assert s[1..][i] == s[i + 1];
        }
      }
      StripKeepsPlainText(s[1..]);
    }
  }

  /** Stripping twice is stripping once. */
  lemma StripIdempotent(s: string)
    ensures Strip(Strip(s)) == Strip(s)
  {
    StripKeepsPlainText(Strip(s));
  }

  // Keys that undo each other

  /** A one-digit `Int` prints as a single character. */
  lemma DigitPrintsAsOneChar(d: Int32)
    requires 0 <= d <= 9
    ensures IntToString(d) == [DigitChar(d)]
  {
  }

  /** DEL after a digit key gives back the expression typed before it. */
  lemma DeleteUndoesDigit(lib: Library, st: CalculatorState, d: Int32)
    requires 0 <= d <= 9 && !st.justCalculated
    ensures Apply(lib, Apply(lib, st, Number(d)), Clear).expression == st.expression
    ensures Apply(lib, Apply(lib, st, Number(d)), Clear).isInverse == st.isInverse
    ensures !Apply(lib, Apply(lib, st, Number(d)), Clear).justCalculated
  {
    DigitPrintsAsOneChar(d);
    var typed := Apply(lib, st, Number(d));
    assert typed.expression == st.expression + [DigitChar(d)];
    assert typed.expression[..|typed.expression| - 1] == st.expression;
  }

  /** DEL after an operator key gives back the expression and leaves a display of zero. */
  lemma DeleteUndoesOperation(lib: Library, st: CalculatorState, op: char)
    requires !st.justCalculated
    ensures Apply(lib, Apply(lib, st, Operation(op)), Clear).expression == st.expression
    ensures Apply(lib, Apply(lib, st, Operation(op)), Clear).display == FormatText(lib, "0")
  {
    var typed := Apply(lib, st, Operation(op));
    assert typed.expression[..|typed.expression| - 1] == st.expression;
    assert Strip("0") == "0" by {
      assert Strip("0") == ['0'] + Strip([]);
    }
  }

  /** DEL after "." takes the point off the expression again. */
  lemma DeleteUndoesDecimal(lib: Library, st: CalculatorState)
    requires !st.justCalculated && '.' !in st.display
    ensures Apply(lib, Apply(lib, st, Decimal), Clear).expression == st.expression
  {
    var typed := Apply(lib, st, Decimal);
    assert typed.expression[..|typed.expression| - 1] == st.expression;
  }

  /** INV pressed twice leaves the state as it was. */
  lemma InverseInvolution(lib: Library, st: CalculatorState)
    ensures Apply(lib, Apply(lib, st, Inverse), Inverse) == st
  {
  }

  /** "." pressed twice is "." pressed once. */
  lemma DecimalIdempotent(lib: Library, st: CalculatorState)
    ensures Apply(lib, Apply(lib, st, Decimal), Decimal) == Apply(lib, st, Decimal)
  {
  }

  // Quirks that show when keys are combined

  /**
   * The decimal point is lost on the display: a digit after "." shows what
   * the digit would have shown without the point, because the handler
   * strips the point before appending.
   */
  lemma DecimalPointLost(lib: Library, st: CalculatorState, n: Int32)
    requires !st.justCalculated && '.' !in st.display && st.display != "Error"
    ensures Apply(lib, Apply(lib, st, Decimal), Number(n)).display == Apply(lib, st, Number(n)).display
    ensures Apply(lib, Apply(lib, st, Decimal), Number(n)).expression == st.expression + "." + IntToString(n)
  {
    var pointed := st.(display := st.display + ".", expression := st.expression + ".");
    assert Apply(lib, st, Decimal) == pointed;
    StripIgnoresPoint(st.display);
    assert pointed.display != "Error" by {
      assert pointed.display[|pointed.display| - 1] == '.';
    }
    var digits := IntToString(n);
    assert Apply(lib, pointed, Number(n)) == HandleNumber(lib, pointed, n);
    assert Apply(lib, st, Number(n)) == HandleNumber(lib, st, n);
  }

  /** From the start, "." then a digit shows the digit alone; the expression holds "." and the digit. */
  lemma ZeroPointThenDigit(lib: Library, n: Int32)
    ensures Apply(lib, Apply(lib, Initial, Decimal), Number(n)).display == FormatText(lib, IntToString(n))
    ensures Apply(lib, Apply(lib, Initial, Decimal), Number(n)).expression == "." + IntToString(n)
  {
    StripZeroPoint();
  }

  /** After a result, a digit starts over from a fresh state, which also switches Inv off. */
  lemma DigitAfterResultStartsOver(lib: Library, st: CalculatorState, n: Int32)
    ensures Apply(lib, Apply(lib, st, Calculate), Number(n)) ==
      CalculatorState(FormatText(lib, IntToString(n)), IntToString(n), false, false)
  {
  }

  /** An operator after a result continues from the result's stripped digits. */
  lemma OperationAfterResult(lib: Library, st: CalculatorState, op: char)
    ensures var r := Apply(lib, Apply(lib, st, Calculate), Operation(op));
      r.display == CalculationDisplay(lib, st.expression) &&
      r.expression == Strip(CalculationDisplay(lib, st.expression)) + [op] &&
      !r.justCalculated && r.isInverse == st.isInverse
  {
  }

  /** "=" pressed twice shows "Error": the first "=" left an '=' in the expression. */
  lemma CalculateTwice(lib: Library, st: CalculatorState)
    ensures Apply(lib, Apply(lib, st, Calculate), Calculate).display == "Error"
  {
    var once := Apply(lib, st, Calculate);
    assert once.expression[|st.expression|] == '=';
    assert !IsInputChar(once.expression[|st.expression|]);
  }

  /** The unary keys that write `name(display)` into the expression. */
  predicate IsFunctionKey(action: Action) {
    action.Reciprocal? || action.SquareRoot? || action.Log? || action.Ln? || IsTrigonometric(action)
  }

  /** The name a function key records: for the trigonometric keys it depends on the action's flag. */
  function FunctionName(action: Action): (name: string)
    requires IsFunctionKey(action)
    ensures |name| > 0
  {
    match action
    case Reciprocal => "1/"
    case SquareRoot => "√"
    case Log => "log"
    case Ln => "ln"
    case Sin(inverse) => if inverse then "asin" else "sin"
    case Cos(inverse) => if inverse then "acos" else "cos"
    case Tan(inverse) => if inverse then "atan" else "tan"
  }

  /**
   * The value a function key computes from the display value `v`. The
   * trigonometric keys take degrees: the direct functions convert `v` to
   * radians first, and the inverse ones convert their result to degrees.
   */
  function FunctionImage(lib: Library, action: Action, v: real): real
    requires IsFunctionKey(action)
  {
    match action
    case Reciprocal => lib.divide(1.0, v)
    case SquareRoot => lib.sqrt(v)
    case Log => lib.log10(v)
    case Ln => lib.ln(v)
    case Sin(inverse) => if inverse then lib.toDegrees(lib.asin(v)) else lib.sin(lib.toRadians(v))
    case Cos(inverse) => if inverse then lib.toDegrees(lib.acos(v)) else lib.cos(lib.toRadians(v))
    case Tan(inverse) => if inverse then lib.toDegrees(lib.atan(v)) else lib.tan(lib.toRadians(v))
  }

  /**
   * A function key does nothing when the display does not read as a number;
   * otherwise it shows the formatted image of the display value, records
   * `name(previous display)` and leaves both flags alone.
   */
  lemma FunctionKeyRecordsCall(lib: Library, st: CalculatorState, action: Action)
    requires IsFunctionKey(action)
    ensures DisplayValue(lib, st.display).None? ==> Apply(lib, st, action) == st
    ensures DisplayValue(lib, st.display).Some? ==>
      Apply(lib, st, action).display == lib.format(FunctionImage(lib, action, DisplayValue(lib, st.display).value)) &&
      Apply(lib, st, action).expression == FunctionName(action) + "(" + st.display + ")" &&
      Apply(lib, st, action).justCalculated == st.justCalculated &&
      Apply(lib, st, action).isInverse == st.isInverse
  {
    match action {
      case Reciprocal =>
      case SquareRoot =>
      case Log =>
      case Ln =>
      case Sin(_) =>
      case Cos(_) =>
      case Tan(_) =>
    }
  }

  /**
   * "=" right after √, log, ln or a trigonometric key shows "Error": the
   * recorded name is not something the evaluator reads.
   */
  lemma CalculateAfterNamedFunction(lib: Library, st: CalculatorState, action: Action)
    requires IsFunctionKey(action) && !action.Reciprocal?
    requires DisplayValue(lib, st.display).Some?
    ensures Apply(lib, Apply(lib, st, action), Calculate).display == "Error"
  {
    var name := FunctionName(action);
    assert Apply(lib, st, action).expression == name + "(" + st.display + ")" by {
      FunctionKeyRecordsCall(lib, st, action);
    }
    assert !IsInputChar(name[0]) by {
      match action {
        case SquareRoot =>
        case Log =>
        case Ln =>
        case Sin(_) =>
        case Cos(_) =>
        case Tan(_) =>
      }
    }
    CalculateForeignStart(lib, Apply(lib, st, action));
  }

  /** "=" on an expression whose first character the evaluator does not read shows "Error". */
  lemma CalculateForeignStart(lib: Library, st: CalculatorState)
    requires |st.expression| > 0 && !IsInputChar(st.expression[0])
    ensures Apply(lib, st, Calculate).display == "Error"
  {
  }

  /** "=" after x! shows "Error" as well: the expression ends in '!'. */
  lemma CalculateAfterFactorial(lib: Library, st: CalculatorState)
    requires IsFactorialArgument(DisplayValue(lib, st.display))
    ensures Apply(lib, Apply(lib, st, Factorial), Calculate).display == "Error"
  {
    var called := Apply(lib, st, Factorial);
    assert called.expression[|st.display|] == '!';
    assert !IsInputChar(called.expression[|st.display|]);
  }

  /** +/- reads the display, negates it and touches nothing else. */
  lemma ToggleSignKeepsExpression(lib: Library, st: CalculatorState)
    ensures Apply(lib, st, ToggleSign).expression == st.expression
    ensures DisplayValue(lib, st.display).Some? ==>
      Apply(lib, st, ToggleSign).display == lib.format(-DisplayValue(lib, st.display).value)
  {
  }

  // Typing and evaluating

  /** The digits of a non-negative `Int` form a number literal that reads back unchanged. */
  lemma DigitsAreLiteral(n: Int32)
    requires n >= 0
    ensures IsLiteral(IntToString(n)) && CommaToDot(IntToString(n)) == IntToString(n)
  {
    var s := IntToString(n);
    assert forall i :: 0 <= i < |s| ==> IsDigit(s[i]);
  }

  /** From the start, a digit key and "=" show the formatted value of the digits. */
  lemma TypeNumberThenCalculate(lib: Library, n: Int32, x: real)
    requires n >= 0 && lib.toDouble(IntToString(n)) == Some(x)
    ensures Apply(lib, Apply(lib, Initial, Number(n)), Calculate).display == lib.format(x)
    ensures Apply(lib, Apply(lib, Initial, Number(n)), Calculate).expression == IntToString(n) + "="
  {
    DigitsAreLiteral(n);
    var typed := Apply(lib, Initial, Number(n));
    assert typed.expression == IntToString(n);
    EvaluateLiteral(lib, IntToString(n), x);
  }

  /** The keys that append a binary operator: +, -, ×, ÷ and xʸ ('%' is a postfix operator). */
  predicate IsBinaryOperatorKey(action: Action) {
    (action.Operation? && action.operator in "+-×÷") || action.PowerOf?
  }

  /**
   * "=" right after a binary operator key shows "Error", whatever was typed
   * before and whether or not a result was showing: the operator has no
   * right operand.
   */
  lemma CalculateAfterOperator(lib: Library, st: CalculatorState, action: Action)
    requires IsBinaryOperatorKey(action)
    ensures Apply(lib, Apply(lib, st, action), Calculate).display == "Error"
  {
    var op := if action.PowerOf? then '^' else action.operator;
    var typed := Apply(lib, st, action);
    assert typed == HandleOperation(st, op);
    var before := if st.justCalculated then Strip(st.display) else st.expression;
    assert typed.expression == before + [op];
    TrailingOperatorRejected(lib, before, op);
    assert Apply(lib, typed, Calculate) == CalculateState(lib, typed);
  }

  // The factorial loop

  /** The factorial grows with its argument. */
  lemma {:induction false} FactMonotone(m: nat, n: nat)
    requires m <= n
    ensures Fact(m) <= Fact(n)
    decreases n - m
  {
    if m < n {
      FactMonotone(m + 1, n);
    }
  }

  lemma FactTwenty()
    ensures Fact(20) == 2432902008176640000
  {
    assert Fact(1) == 1;
    assert Fact(2) == 2;
    assert Fact(3) == 6;
    assert Fact(4) == 24;
    assert Fact(5) == 120;
    assert Fact(6) == 720;
    assert Fact(7) == 5040;
    assert Fact(8) == 40320;
    assert Fact(9) == 362880;
    assert Fact(10) == 3628800;
    assert Fact(11) == 39916800;
    assert Fact(12) == 479001600;
    assert Fact(13) == 6227020800;
    assert Fact(14) == 87178291200;
    assert Fact(15) == 1307674368000;
    assert Fact(16) == 20922789888000;
    assert Fact(17) == 355687428096000;
    assert Fact(18) == 6402373705728000;
    assert Fact(19) == 121645100408832000;
    assert Fact(20) == 2432902008176640000;
  }

  /** Wrapping changes a value by a multiple of 2^64. */
  lemma {:induction false} WrapLongCongruent(x: int)
    ensures (x - WrapLong(x)) % LONG_MODULUS == 0
    decreases if x > LONG_MAX then x - LONG_MAX else if x < LONG_MIN then LONG_MIN - x else 0
  {
    var r := WrapLong(x);
    if x > LONG_MAX {
      WrapLongCongruent(x - LONG_MODULUS);
      var k := (x - LONG_MODULUS - r) / LONG_MODULUS;
      assert x - LONG_MODULUS - r == k * LONG_MODULUS;
      assert x - r == (k + 1) * LONG_MODULUS;
    } else if x < LONG_MIN {
      WrapLongCongruent(x + LONG_MODULUS);
      var k := (x + LONG_MODULUS - r) / LONG_MODULUS;
      assert x + LONG_MODULUS - r == k * LONG_MODULUS;
      assert x - r == (k - 1) * LONG_MODULUS;
    }
  }

  /** Values congruent modulo 2^64 wrap to the same `Long`: the wrap is the arithmetic of `Long`. */
  lemma WrapLongUnique(x: int, y: int)
    requires (x - y) % LONG_MODULUS == 0
    ensures WrapLong(x) == WrapLong(y)
  {
    var a, b := WrapLong(x), WrapLong(y);
    WrapLongCongruent(x);
    WrapLongCongruent(y);
    var i, j, k := (x - a) / LONG_MODULUS, (y - b) / LONG_MODULUS, (x - y) / LONG_MODULUS;
    assert x - a == i * LONG_MODULUS;
    assert y - b == j * LONG_MODULUS;
    assert x - y == k * LONG_MODULUS;
    assert a - b == (k - i + j) * LONG_MODULUS;
  }

  /** Multiplying both sides of a congruence modulo 2^64 by `n` keeps it. */
  lemma CongruenceScales(a: int, f: int, n: int)
    requires (a - f) % LONG_MODULUS == 0
    ensures (a * n - f * n) % LONG_MODULUS == 0
  {
    var q := (a - f) / LONG_MODULUS;
    assert a - f == q * LONG_MODULUS;
    assert a * n - f * n == (q * n) * LONG_MODULUS;
  }

  /** Wrapping before or after a multiplication gives the same `Long`. */
  lemma WrapLongProduct(f: int, n: int)
    ensures WrapLong(WrapLong(f) * n) == WrapLong(f * n)
  {
    var w := WrapLong(f);
    WrapLongCongruent(f);
    CongruenceScales(f, w, n);
    WrapLongUnique(w * n, f * n);
  }

  /** For every n the loop's result is n! reduced to a `Long`, wrap-around included. */
  lemma {:induction false} LongFactorialWraps(n: nat)
    ensures LongFactorial(n) == WrapLong(Fact(n))
  {
    if n > 0 {
      LongFactorialWraps(n - 1);
      WrapLongProduct(Fact(n - 1), n);
      assert Fact(n) == Fact(n - 1) * n;
    }
  }

  /** Up to 20 the loop computes the factorial exactly. */
  lemma LongFactorialExact(n: nat)
    requires n <= 20
    ensures LongFactorial(n) == Fact(n)
  {
    LongFactorialWraps(n);
    FactMonotone(n, 20);
    FactTwenty();
  }

  /** At 21 the product no longer fits a `Long` and the loop yields a negative number. */
  lemma LongFactorialOverflows()
    ensures Fact(21) == 51090942171709440000 > LONG_MAX
    ensures LongFactorial(21) == -4249290049419214848
  {
    LongFactorialExact(20);
    FactTwenty();
    assert LongFactorial(21) == WrapLong(51090942171709440000);
    assert WrapLong(51090942171709440000) == WrapLong(51090942171709440000 - LONG_MODULUS);
    assert WrapLong(51090942171709440000 - LONG_MODULUS) == WrapLong(51090942171709440000 - 2 * LONG_MODULUS);
    assert WrapLong(51090942171709440000 - 2 * LONG_MODULUS) == WrapLong(51090942171709440000 - 3 * LONG_MODULUS);
  }

  /** From 21 on the loop never gives the factorial: n! is past `Long.MAX_VALUE`, the loop's result is not. */
  lemma LongFactorialInexact(n: nat)
    requires n >= 21
    ensures LongFactorial(n) != Fact(n)
  {
    FactMonotone(21, n);
    FactTwenty();
    assert Fact(21) == 21 * Fact(20);
  }

  /** x! on a display that reads as a whole number up to 20 shows that number's factorial. */
  lemma FactorialOfWholeDisplay(lib: Library, st: CalculatorState, n: nat)
    requires n <= 20 && DisplayValue(lib, st.display) == Some(n as real)
    ensures Apply(lib, st, Factorial).display == lib.format(Fact(n) as real)
    ensures Apply(lib, st, Factorial).expression == st.display + "!"
  {
    LongFactorialExact(n);
  }

  /**
   * x! shows "Error" and keeps the expression when the display, read with its
   * separators stripped, is negative or not a whole number. A display such as
   * "2.5" is not rejected: it reads as 25 (see `FactorialIgnoresPoint`).
   */
  lemma FactorialRejects(lib: Library, st: CalculatorState, v: real)
    requires DisplayValue(lib, st.display) == Some(v) && (v < 0.0 || v != v.Floor as real)
    ensures Apply(lib, st, Factorial) == st.(display := "Error")
  {
  }

  /**
   * x! does not see the decimal point: on a display `u.v` it computes the
   * factorial of the number the digits `uv` denote, so "2.5" gives 25!.
   */
  lemma FactorialIgnoresPoint(lib: Library, st: CalculatorState, u: string, v: string, n: nat)
    requires st.display == u + "." + v && NoSeparators(u) && NoSeparators(v)
    requires lib.toDouble(u + v) == Some(n as real)
    ensures Apply(lib, st, Factorial).display == lib.format(LongFactorial(n) as real)
    ensures Apply(lib, st, Factorial).expression == st.display + "!"
  {
    StripConcat(u + ".", v);
    StripIgnoresPoint(u);
    StripKeepsPlainText(u);
    StripKeepsPlainText(v);
    assert DisplayValue(lib, st.display) == Some(n as real);
  }
}
