# Scientific calculator engine, in Dafny

A model of the engine behind an Android (Jetpack Compose) scientific
calculator written in Kotlin. The model covers:

- **The action vocabulary** (`CalculatorAction`): the sealed class of key
  presses, as a datatype with twenty constructors.
- **The keypad decoder** (`MainActivity`): `getActionForSymbol`, which turns a
  key label and the Inv toggle into an action. Also modelled: the two keypad
  layouts that feed it, the caption of a trigonometric key, and the font size
  of the display.
- **The state machine** (`CalculatorViewModel`):
  - `CalculatorState` (display text, expression text, `justCalculated`,
    `isInverse`);
  - one handler per key;
  - `onAction`, which folds an action into the state;
  - the factorial's `for` loop over a wrapping 64-bit `Long`.
- **The expression evaluator** that "=" runs: the anonymous object with
  `pos`/`ch` fields and mutually recursive `parseExpression` / `parseTerm` /
  `parseFactor` methods. It appears twice:
  - `ExpressionParser`: a family of mutually recursive functions over the text
    and a cursor.
  - `ExpressionObject.Evaluator`: the imperative object, with its `while`
    loops and fields. Each of its methods is proved to compute the matching
    function and to leave `pos` where that function says.
- **Kotlin's `Int.toString()` and `String.toIntOrNull()`** (`KotlinText`),
  written out because the keypad decoder depends on exactly which labels they
  accept.

The floating-point and formatting collaborators are not modelled by their
code. `toDoubleOrNull`, `DecimalFormat.format`, `Double` arithmetic and the
`kotlin.math` functions are uninterpreted functions in `Numerics.Library`,
handed to the engine as a parameter. So every property below holds whatever
those functions compute.

The laws in `CalculatorLaws` and `ExpressionLaws` state what the engine does
over several key presses or over whole expressions:
- keys that undo each other;
- quirks the code really has, such as the decimal point lost on the display,
  "=" twice giving "Error", and "=" after √ or sin giving "Error";
- how the grammar groups operators;
- which inputs it rejects and where;
- exactly when the factorial loop's `Long` overflows: it computes n! for n up to
  20 and never from 21 on.

Files: `wrappers.dfy`, `numerics.dfy`, `kotlin_text.dfy`,
`calculator_action.dfy`, `expression_parser.dfy`, `evaluator_object.dfy`,
`expression_laws.dfy`, `calculator_view_model.dfy`, `main_activity.dfy`,
`calculator_laws.dfy`.

## Model

| member | source | states |
|---|---|---|
| CalculatorAction.VariantIndex | app/src/main/java/com/example/calculator/CalculatorAction.kt:3-24 | every action has one of twenty positions, and the ones carrying data are exactly `Number`, `Operation`, `Sin`, `Cos` and `Tan` |
| CalculatorAction.VariantAt | app/src/main/java/com/example/calculator/CalculatorAction.kt:3-24 | each of the twenty positions is taken by some action |
| CalculatorAction.VariantIndexSeparates | app/src/main/java/com/example/calculator/CalculatorAction.kt:3-24 | two actions at the same position are the same variant, and equal when it carries no data; so there are exactly twenty variants |
| KotlinText.IntToString | app/src/main/java/com/example/calculator/CalculatorViewModel.kt:54-55 | `Int.toString()` gives decimal digits without a superfluous leading zero, led by '-' exactly when the number is negative |
| KotlinText.ParseInt | app/src/main/java/com/example/calculator/MainActivity.kt:207 | `toIntOrNull` accepts only an optional sign followed by at least one digit, and a negative result only with a leading '-' |
| KotlinText.ParseIntOfIntToString | app/src/main/java/com/example/calculator/MainActivity.kt:207 | reading back the text of any `Int` gives that `Int` |
| KotlinText.IntToStringOfParseInt | app/src/main/java/com/example/calculator/MainActivity.kt:207 | on canonical integer text, `toIntOrNull` followed by `toString` gives the text back |
| MainActivity.ActionForSymbol | app/src/main/java/com/example/calculator/MainActivity.kt:187-208 | a trigonometric action comes only from "sin"/"cos"/"tan" and carries the Inv toggle; an `Operation` comes only from an operator label and carries its single character; a `Number` is what `toIntOrNull` reads; `Norm` comes exactly from an unnamed label that does not read as an `Int` |
| MainActivity.NamedLabelsAreNotNumbers | app/src/main/java/com/example/calculator/MainActivity.kt:188-207 | no named label reads as an integer, so the `toIntOrNull` fallback never overrides a named branch |
| MainActivity.FunctionLabelsDecode | app/src/main/java/com/example/calculator/MainActivity.kt:190-194 | "√", "log", "ln", "1/x" and "x!" send `SquareRoot`, `Log`, `Ln`, `Reciprocal` and `Factorial` |
| MainActivity.ModifierLabelsDecode | app/src/main/java/com/example/calculator/MainActivity.kt:189-203 | "Inv", "xʸ" and "+/-" send `Inverse`, `PowerOf` and `ToggleSign` |
| MainActivity.EditingLabelsDecode | app/src/main/java/com/example/calculator/MainActivity.kt:199-205 | "AC", "DEL", "." and "=" send `AllClear`, `Clear`, `Decimal` and `Calculate` |
| MainActivity.ParenthesisLabelsDecode | app/src/main/java/com/example/calculator/MainActivity.kt:201-202 | "(" and ")" send `ParenthesisOpen` and `ParenthesisClose` |
| MainActivity.FixedLabelsRoundTrip | app/src/main/java/com/example/calculator/MainActivity.kt:189-205 | the action a fixed label sends determines the label |
| MainActivity.FixedLabelsOneToOne | app/src/main/java/com/example/calculator/MainActivity.kt:189-205 | distinct fixed labels send distinct actions, with Inv on or off |
| MainActivity.OperatorLabelsDecode | app/src/main/java/com/example/calculator/MainActivity.kt:206 | "+", "-", "÷", "×" and "%" each send `Operation` with that character |
| MainActivity.TrigLabelsDecode | app/src/main/java/com/example/calculator/MainActivity.kt:196-198 | "sin", "cos" and "tan" send their action with `inverse` equal to the toggle |
| MainActivity.NumberLabelsDecode | app/src/main/java/com/example/calculator/MainActivity.kt:207 | a label decodes to a `Number` if and only if `toIntOrNull` reads it, and then to that number |
| MainActivity.DigitLabelDecodes | app/src/main/java/com/example/calculator/MainActivity.kt:207 | each digit key "0" to "9" sends its digit |
| MainActivity.InverseOnlyReachesTrig | app/src/main/java/com/example/calculator/MainActivity.kt:187-208 | the Inv toggle changes only the `inverse` flag of the trigonometric actions; every other label decodes the same either way |
| MainActivity.LayoutKeysDecode | app/src/main/java/com/example/calculator/MainActivity.kt:120-158 | every key of both panels decodes to a real action, never to `Norm` |
| MainActivity.TrigCaption | app/src/main/java/com/example/calculator/MainActivity.kt:219-224 | the caption differs from the label exactly for a trigonometric key while Inv is on, and then it is the label followed by "⁻¹" |
| MainActivity.DisplayFontSize | app/src/main/java/com/example/calculator/MainActivity.kt:72-76 | 90 sp for at most 8 characters, 70 sp for 9 to 12, 50 sp beyond, each as an if-and-only-if |
| MainActivity.FontShrinksWithLength | app/src/main/java/com/example/calculator/MainActivity.kt:72-76 | a longer display never gets a larger font |
| ExpressionParser.Sanitize | app/src/main/java/com/example/calculator/CalculatorViewModel.kt:112-114 | same length; every '×' becomes '*' and every '÷' becomes '/'; no glyph remains; every other character is kept |
| ExpressionParser.SkipSpaces | app/src/main/java/com/example/calculator/CalculatorViewModel.kt:121 | the blank-skipping loop stops at the first non-blank character (or the end), stays put on a non-blank, and passes over characters of the grammar only |
| ExpressionParser.SkipSpacesSkipsBlanks | app/src/main/java/com/example/calculator/CalculatorViewModel.kt:121 | every character the loop skips is a blank |
| ExpressionParser.ScanNumber | app/src/main/java/com/example/calculator/CalculatorViewModel.kt:161 | the literal scan stops at the end or at the first character that is not a digit, '.' or ',' |
| ExpressionParser.ScanNumberTakesLiteral | app/src/main/java/com/example/calculator/CalculatorViewModel.kt:161 | every character the scan passes is a digit, '.' or ',' |
| ExpressionParser.Expression | app/src/main/java/com/example/calculator/CalculatorViewModel.kt:131-140 | when `parseExpression` succeeds it consumes at least one character, stays inside the input and consumes only characters of the grammar |
| ExpressionParser.ExprTail | app/src/main/java/com/example/calculator/CalculatorViewModel.kt:133-139 | the '+'/'-' loop stays inside the input and consumes only characters of the grammar |
| ExpressionParser.Term | app/src/main/java/com/example/calculator/CalculatorViewModel.kt:141-150 | when `parseTerm` succeeds it consumes at least one character, stays inside the input and consumes only characters of the grammar |
| ExpressionParser.TermTail | app/src/main/java/com/example/calculator/CalculatorViewModel.kt:143-149 | the '*'/'/' loop stays inside the input and consumes only characters of the grammar |
| ExpressionParser.Factor | app/src/main/java/com/example/calculator/CalculatorViewModel.kt:151-178 | when `parseFactor` succeeds it consumes at least one character, stays inside the input and consumes only characters of the grammar |
| ExpressionParser.Atom | app/src/main/java/com/example/calculator/CalculatorViewModel.kt:156-165 | a parenthesised group or a number literal consumes at least one character of the grammar |
| ExpressionParser.PowerAndPercent | app/src/main/java/com/example/calculator/CalculatorViewModel.kt:167-177 | the optional '^' factor and '%' consume only characters of the grammar |
| ExpressionParser.Percent | app/src/main/java/com/example/calculator/CalculatorViewModel.kt:172-177 | the optional '%' consumes only characters of the grammar |
| ExpressionParser.ParseAll | app/src/main/java/com/example/calculator/CalculatorViewModel.kt:125-130 | `parse()` succeeds only on input made entirely of characters of the grammar |
| ExpressionParser.Evaluate | app/src/main/java/com/example/calculator/CalculatorViewModel.kt:111-179 | an expression evaluates only if every character is a digit, '.', ',', blank, operator, parenthesis, '×' or '÷' |
| ExpressionParser.ExpressionEndsClean | app/src/main/java/com/example/calculator/CalculatorViewModel.kt:131-140 | a successful `parseExpression` never stops right after a binary operator |
| ExpressionParser.ExprTailEndsClean | app/src/main/java/com/example/calculator/CalculatorViewModel.kt:133-139 | the '+'/'-' loop, entered after an operand, never stops right after an operator |
| ExpressionParser.TermEndsClean | app/src/main/java/com/example/calculator/CalculatorViewModel.kt:141-150 | a successful `parseTerm` never stops right after a binary operator |
| ExpressionParser.TermTailEndsClean | app/src/main/java/com/example/calculator/CalculatorViewModel.kt:143-149 | the '*'/'/' loop, entered after an operand, never stops right after an operator |
| ExpressionParser.FactorEndsClean | app/src/main/java/com/example/calculator/CalculatorViewModel.kt:151-178 | a successful `parseFactor` never stops right after a binary operator or a sign |
| ExpressionParser.AtomEndsClean | app/src/main/java/com/example/calculator/CalculatorViewModel.kt:156-165 | a group ends at its ')' or its last blank or operand, a literal at a digit, '.' or ',' |
| ExpressionParser.PowerAndPercentEndsClean | app/src/main/java/com/example/calculator/CalculatorViewModel.kt:167-177 | the '^' exponent and the '%' never leave the cursor right after an operator |
| ExpressionParser.PercentEndsClean | app/src/main/java/com/example/calculator/CalculatorViewModel.kt:172-177 | the '%' suffix never leaves the cursor right after an operator |
| ExpressionObject.Evaluator.constructor | app/src/main/java/com/example/calculator/CalculatorViewModel.kt:116-118 | the object starts with `pos == -1` and `ch == 0` |
| ExpressionObject.Evaluator.NextChar | app/src/main/java/com/example/calculator/CalculatorViewModel.kt:119 | advances `pos` by one and loads the code under it, -1 past the end |
| ExpressionObject.Evaluator.Eat | app/src/main/java/com/example/calculator/CalculatorViewModel.kt:120-124 | skips blanks, then consumes `c` exactly when it is the next character |
| ExpressionObject.Evaluator.Parse | app/src/main/java/com/example/calculator/CalculatorViewModel.kt:125-130 | returns exactly `ParseAll` of the input, trailing-input error included |
| ExpressionObject.Evaluator.ParseExpression | app/src/main/java/com/example/calculator/CalculatorViewModel.kt:131-140 | returns `Expression` at the starting cursor and leaves `pos` at its end |
| ExpressionObject.Evaluator.ExpressionStep | app/src/main/java/com/example/calculator/CalculatorViewModel.kt:134-138 | one turn of the `while (true)` loop: it either finishes with the loop's result or moves the cursor forward while keeping that result |
| ExpressionObject.Evaluator.ParseTerm | app/src/main/java/com/example/calculator/CalculatorViewModel.kt:141-150 | returns `Term` at the starting cursor and leaves `pos` at its end |
| ExpressionObject.Evaluator.TermStep | app/src/main/java/com/example/calculator/CalculatorViewModel.kt:144-148 | one turn of the `while (true)` loop: it either finishes with the loop's result or moves the cursor forward while keeping that result |
| ExpressionObject.Evaluator.SkipNumber | app/src/main/java/com/example/calculator/CalculatorViewModel.kt:161 | the digit loop leaves `pos` where `ScanNumber` stops |
| ExpressionObject.Evaluator.ParseFactor | app/src/main/java/com/example/calculator/CalculatorViewModel.kt:151-178 | returns `Factor` at the starting cursor and leaves `pos` at its end |
| ExpressionObject.Evaluator.ParsePowerAndPercent | app/src/main/java/com/example/calculator/CalculatorViewModel.kt:167-177 | returns `PowerAndPercent` and leaves `pos` at its end |
| ExpressionObject.Evaluator.ParseAtom | app/src/main/java/com/example/calculator/CalculatorViewModel.kt:156-165 | returns `Atom` at the starting cursor, "Unexpected" and `toDouble` failures included |
| ExpressionLaws.EvaluateLiteral | app/src/main/java/com/example/calculator/CalculatorViewModel.kt:160-162 | a number literal alone evaluates to the value `toDouble` gives it |
| ExpressionLaws.EvaluateMalformedLiteral | app/src/main/java/com/example/calculator/CalculatorViewModel.kt:162 | a literal `toDouble` rejects makes the evaluation fail, naming the literal |
| ExpressionLaws.ProductBindsTighter | app/src/main/java/com/example/calculator/CalculatorViewModel.kt:131-150 | `a + b × c` is `x + (y * z)` |
| ExpressionLaws.SubtractionGroupsLeft | app/src/main/java/com/example/calculator/CalculatorViewModel.kt:133-139 | `a - b - c` is `(x - y) - z` |
| ExpressionLaws.DivisionGroupsLeft | app/src/main/java/com/example/calculator/CalculatorViewModel.kt:143-149 | `a ÷ b ÷ c` is `(x / y) / z` |
| ExpressionLaws.PowerGroupsRight | app/src/main/java/com/example/calculator/CalculatorViewModel.kt:168-170 | `a ^ b ^ c` is `x ^ (y ^ z)`, because the exponent is a whole factor |
| ExpressionLaws.PercentDividesByHundred | app/src/main/java/com/example/calculator/CalculatorViewModel.kt:173-175 | a trailing '%' divides by 100 |
| ExpressionLaws.PercentBindsToExponent | app/src/main/java/com/example/calculator/CalculatorViewModel.kt:168-175 | in `a ^ b %` the '%' belongs to the exponent: `x ^ (y / 100)` |
| ExpressionLaws.UnaryMinus | app/src/main/java/com/example/calculator/CalculatorViewModel.kt:153 | a leading '-' negates the factor |
| ExpressionLaws.SignAfterOperator | app/src/main/java/com/example/calculator/CalculatorViewModel.kt:141-153 | `a × -b` is `x * (-y)` |
| ExpressionLaws.ParenthesesGroup | app/src/main/java/com/example/calculator/CalculatorViewModel.kt:157-159 | `(a + b) × c` is `(x + y) * z` |
| ExpressionLaws.MissingCloseAccepted | app/src/main/java/com/example/calculator/CalculatorViewModel.kt:159 | a missing ')' at the end is not an error: `(a + b` is `x + y` |
| ExpressionLaws.TrailingInputRejected | app/src/main/java/com/example/calculator/CalculatorViewModel.kt:128 | an unmatched ')' after an expression fails with trailing input at its position |
| ExpressionLaws.TrailingOperatorRejected | app/src/main/java/com/example/calculator/CalculatorViewModel.kt:131-178 | any expression ending in '+', '-', '×', '÷', '*', '/' or '^' fails to evaluate |
| ExpressionLaws.DanglingOperatorRejected | app/src/main/java/com/example/calculator/CalculatorViewModel.kt:164 | after a literal, a '+' with nothing after it fails exactly at the end of the input, where the missing factor should start |
| ExpressionLaws.EmptyRejected | app/src/main/java/com/example/calculator/CalculatorViewModel.kt:164 | the empty expression fails at position 0 |
| CalculatorViewModel.Strip | app/src/main/java/com/example/calculator/CalculatorViewModel.kt:58 | `replace(".", "").replace(",", "")` never lengthens the text and leaves no '.' or ','; with `StripChar` and `StripConcat` it removes every '.' and ',' and keeps every other character in order |
| CalculatorViewModel.FormatText | app/src/main/java/com/example/calculator/CalculatorViewModel.kt:264-266 | text that reads as a number after stripping is formatted; any other text is returned unchanged |
| CalculatorViewModel.HandleNumber | app/src/main/java/com/example/calculator/CalculatorViewModel.kt:51-69 | after a result, a digit builds a fresh state (Inv off) holding only the digits; otherwise it appends the digits to the expression and shows the stripped display plus the digits, or the digits alone over "0" or "Error" |
| CalculatorViewModel.HandleDecimal | app/src/main/java/com/example/calculator/CalculatorViewModel.kt:71-80 | after a result "." gives "0." on both lines; otherwise it appends '.' to both lines if the display has none, and does nothing if it has one |
| CalculatorViewModel.HandleOperation | app/src/main/java/com/example/calculator/CalculatorViewModel.kt:82-95 | after a result the operator follows the result's stripped digits; otherwise it is appended to the expression and the display resets to "0"; `isInverse` is kept |
| CalculatorViewModel.HandleDelete | app/src/main/java/com/example/calculator/CalculatorViewModel.kt:97-108 | after a result DEL resets to the initial state; otherwise it drops the expression's last character and shows the stripped display without its last digit, or "0" |
| CalculatorViewModel.CalculationDisplay | app/src/main/java/com/example/calculator/CalculatorViewModel.kt:110-184 | the formatted value when evaluation succeeds, "Error" when it fails, and "Error" whenever the expression holds a character the grammar does not read |
| CalculatorViewModel.CalculateState | app/src/main/java/com/example/calculator/CalculatorViewModel.kt:25-32 | "=" shows the calculation's result, appends '=' to the expression and sets `justCalculated` |
| CalculatorViewModel.ApplyFunction | app/src/main/java/com/example/calculator/CalculatorViewModel.kt:186-220 | a unary function key does nothing when the display does not read as a number; otherwise it shows the formatted image and records `name(display)` |
| CalculatorViewModel.HandleToggleSign | app/src/main/java/com/example/calculator/CalculatorViewModel.kt:252-255 | +/- shows the negated display value and changes nothing else |
| CalculatorViewModel.WrapLong | app/src/main/java/com/example/calculator/CalculatorViewModel.kt:225-226 | the wrapped value is in the `Long` range, and a value already in range is unchanged |
| CalculatorViewModel.LongFactorial | app/src/main/java/com/example/calculator/CalculatorViewModel.kt:225-226 | the loop's `Long` result is always in the `Long` range |
| CalculatorViewModel.FactorialState | app/src/main/java/com/example/calculator/CalculatorViewModel.kt:222-233 | a non-negative whole display shows the loop's `Long` result and records `display!`; anything else shows "Error" and keeps the expression |
| CalculatorViewModel.Apply | app/src/main/java/com/example/calculator/CalculatorViewModel.kt:21-49 | AC yields the initial state; Inv flips only `isInverse`; parentheses and `Norm` leave the state unchanged; xʸ is the '^' operator |
| CalculatorViewModel.JustCalculatedAfter | app/src/main/java/com/example/calculator/CalculatorViewModel.kt:21-49 | only "=" sets `justCalculated`; digits, operators, xʸ, ".", DEL and AC clear it; every other key keeps it |
| CalculatorViewModel.InverseFlagAfter | app/src/main/java/com/example/calculator/CalculatorViewModel.kt:21-49 | Inv flips `isInverse`; AC clears it, and so does any key that builds a fresh state after a result; every other key keeps it |
| CalculatorViewModel.ViewModel.constructor | app/src/main/java/com/example/calculator/CalculatorViewModel.kt:17-19 | the view model starts in the initial state |
| CalculatorViewModel.ViewModel.OnAction | app/src/main/java/com/example/calculator/CalculatorViewModel.kt:21-49 | the new `state` is `Apply` of the old one, with the evaluator object and the factorial loop run in place |
| CalculatorViewModel.ViewModel.CalculateExpression | app/src/main/java/com/example/calculator/CalculatorViewModel.kt:110-184 | running the evaluator object gives exactly `CalculationDisplay` |
| CalculatorViewModel.ViewModel.HandleFactorial | app/src/main/java/com/example/calculator/CalculatorViewModel.kt:222-233 | the `for` loop computes `FactorialState`, with `Long` wrap-around |
| CalculatorLaws.StripConcat | app/src/main/java/com/example/calculator/CalculatorViewModel.kt:58 | stripping distributes over concatenation |
| CalculatorLaws.StripChar | app/src/main/java/com/example/calculator/CalculatorViewModel.kt:58 | on a single character, '.' and ',' give the empty text and every other character is kept |
| CalculatorLaws.StripIgnoresSeparator | app/src/main/java/com/example/calculator/CalculatorViewModel.kt:58 | a trailing '.' or ',' is invisible after stripping |
| CalculatorLaws.StripGrouping | app/src/main/java/com/example/calculator/CalculatorViewModel.kt:58 | a grouping comma inside a display drops out, so "1,234" reads as "1234" |
| CalculatorLaws.StripIgnoresPoint | app/src/main/java/com/example/calculator/CalculatorViewModel.kt:58 | a trailing '.' is invisible after stripping |
| CalculatorLaws.StripZeroPoint | app/src/main/java/com/example/calculator/CalculatorViewModel.kt:58-59 | "0." strips to "0" |
| CalculatorLaws.StripKeepsPlainText | app/src/main/java/com/example/calculator/CalculatorViewModel.kt:58 | text without '.' or ',' strips to itself |
| CalculatorLaws.StripIdempotent | app/src/main/java/com/example/calculator/CalculatorViewModel.kt:58 | stripping twice is stripping once |
| CalculatorLaws.DeleteUndoesDigit | app/src/main/java/com/example/calculator/CalculatorViewModel.kt:51-108 | DEL after a digit key restores the expression, keeps `isInverse` and leaves `justCalculated` off |
| CalculatorLaws.DeleteUndoesOperation | app/src/main/java/com/example/calculator/CalculatorViewModel.kt:82-108 | DEL after an operator key restores the expression and shows the formatted "0" |
| CalculatorLaws.DeleteUndoesDecimal | app/src/main/java/com/example/calculator/CalculatorViewModel.kt:71-108 | DEL after "." restores the expression |
| CalculatorLaws.InverseInvolution | app/src/main/java/com/example/calculator/CalculatorViewModel.kt:37 | Inv twice restores the state |
| CalculatorLaws.DecimalIdempotent | app/src/main/java/com/example/calculator/CalculatorViewModel.kt:71-80 | "." twice is "." once |
| CalculatorLaws.DecimalPointLost | app/src/main/java/com/example/calculator/CalculatorViewModel.kt:58-78 | a digit after "." shows what it would have shown without the point, though the expression keeps the point |
| CalculatorLaws.ZeroPointThenDigit | app/src/main/java/com/example/calculator/CalculatorViewModel.kt:58-78 | from the start, "." and a digit show the digit alone, and the expression is "." followed by the digit |
| CalculatorLaws.DigitAfterResultStartsOver | app/src/main/java/com/example/calculator/CalculatorViewModel.kt:52-56 | a digit after "=" starts a fresh state, which switches Inv off |
| CalculatorLaws.OperationAfterResult | app/src/main/java/com/example/calculator/CalculatorViewModel.kt:83-87 | an operator after "=" keeps the result on the display and continues the expression from the result's stripped digits |
| CalculatorLaws.CalculateTwice | app/src/main/java/com/example/calculator/CalculatorViewModel.kt:25-31 | "=" twice shows "Error", because the first "=" left '=' in the expression |
| CalculatorLaws.FunctionName | app/src/main/java/com/example/calculator/CalculatorViewModel.kt:186-250 | every function key records a non-empty name |
| CalculatorLaws.FunctionKeyRecordsCall | app/src/main/java/com/example/calculator/CalculatorViewModel.kt:186-250 | 1/x, √, log, ln and the trigonometric keys do nothing on a non-number display; otherwise they show the formatted `1/v`, `sqrt(v)`, `log10(v)`, `ln(v)`, `sin(toRadians(v))` (and cos, tan), or `toDegrees(asin(v))` (and acos, atan) under Inv, record `name(display)` (asin/acos/atan under Inv) and keep both flags |
| CalculatorLaws.CalculateAfterNamedFunction | app/src/main/java/com/example/calculator/CalculatorViewModel.kt:195-250 | "=" right after √, log, ln, sin, cos or tan shows "Error": the evaluator cannot read the recorded name |
| CalculatorLaws.CalculateForeignStart | app/src/main/java/com/example/calculator/CalculatorViewModel.kt:160-164 | "=" on an expression whose first character the grammar does not read shows "Error" |
| CalculatorLaws.CalculateAfterFactorial | app/src/main/java/com/example/calculator/CalculatorViewModel.kt:229 | "=" right after x! shows "Error", because of the recorded '!' |
| CalculatorLaws.ToggleSignKeepsExpression | app/src/main/java/com/example/calculator/CalculatorViewModel.kt:252-255 | +/- keeps the expression and shows the negated value |
| CalculatorLaws.DigitsAreLiteral | app/src/main/java/com/example/calculator/CalculatorViewModel.kt:160-162 | a non-negative number's digits form a literal the evaluator scans whole and reads unchanged |
| CalculatorLaws.TypeNumberThenCalculate | app/src/main/java/com/example/calculator/CalculatorViewModel.kt:23-31 | from the start, a number key and "=" show the formatted value of its digits |
| CalculatorLaws.CalculateAfterOperator | app/src/main/java/com/example/calculator/CalculatorViewModel.kt:82-95 | "=" right after any binary operator key ('+', '-', '×', '÷' or xʸ), whatever was typed or calculated before, shows "Error": the operator has no right operand |
| CalculatorLaws.FactMonotone | app/src/main/java/com/example/calculator/CalculatorViewModel.kt:225-226 | the factorial never decreases |
| CalculatorLaws.FactTwenty | app/src/main/java/com/example/calculator/CalculatorViewModel.kt:225-226 | 20! is 2432902008176640000 |
| CalculatorLaws.WrapLongCongruent | app/src/main/java/com/example/calculator/CalculatorViewModel.kt:226 | wrapping to a `Long` changes a value by a multiple of 2^64 |
| CalculatorLaws.WrapLongUnique | app/src/main/java/com/example/calculator/CalculatorViewModel.kt:226 | values congruent modulo 2^64 wrap to the same `Long` |
| CalculatorLaws.CongruenceScales | app/src/main/java/com/example/calculator/CalculatorViewModel.kt:226 | multiplying a congruence modulo 2^64 keeps it |
| CalculatorLaws.WrapLongProduct | app/src/main/java/com/example/calculator/CalculatorViewModel.kt:226 | wrapping before or after a multiplication gives the same `Long` |
| CalculatorLaws.LongFactorialWraps | app/src/main/java/com/example/calculator/CalculatorViewModel.kt:225-226 | for every n the loop's result is n! reduced to the `Long` range |
| CalculatorLaws.LongFactorialExact | app/src/main/java/com/example/calculator/CalculatorViewModel.kt:225-226 | up to 20 the loop computes n! exactly |
| CalculatorLaws.LongFactorialOverflows | app/src/main/java/com/example/calculator/CalculatorViewModel.kt:225-226 | at 21 the product exceeds `Long.MAX_VALUE`, and the loop yields -4249290049419214848 |
| CalculatorLaws.LongFactorialInexact | app/src/main/java/com/example/calculator/CalculatorViewModel.kt:225-226 | from 21 on the loop's result is never n! |
| CalculatorLaws.FactorialOfWholeDisplay | app/src/main/java/com/example/calculator/CalculatorViewModel.kt:222-230 | x! on a whole display n of at most 20 shows n! and records `display!` |
| CalculatorLaws.FactorialRejects | app/src/main/java/com/example/calculator/CalculatorViewModel.kt:222-233 | x! shows "Error" and changes nothing else when the display, with '.' and ',' stripped, reads as a negative or non-whole number |
| CalculatorLaws.FactorialIgnoresPoint | app/src/main/java/com/example/calculator/CalculatorViewModel.kt:222-230 | x! on a display such as "2.5" is not rejected: it computes the factorial of the digits without the point (25!) |

## Left out

- The Compose user interface (panels, colours, animations, the panel toggle), `mutableStateOf` and the `ViewModel` lifecycle. `ViewModel.state` is a plain field.
- `Double` is modelled as `real`. Its arithmetic (`+ - * /`, `pow`), `toDoubleOrNull`/`toDouble`, `DecimalFormat("#,###.##########")` and the `kotlin.math` functions are uninterpreted members of `Numerics.Library`. Rounding, infinities, NaN, locale and the exact printed form are therefore not modelled.
- The negation in `handleToggleSign` (`value * -1`) and in the evaluator's unary minus is exact `real` negation. Signed zero is not modelled: in the program +/- on "0" gives -0.0, which `DecimalFormat` shows as "-0" (and a digit typed next shows "-5"), while the model shows `format(0.0)`.
- `formatNumber`'s `else -> value.toString()` branch and its `catch` are not modelled: every caller passes a `Double` or a `String`, and `DecimalFormat.format` is taken as total.
- Deep nesting that would exhaust the JVM stack (a `StackOverflowError`, which the `catch (e: Exception)` would not catch) is not modelled. The evaluator is modelled as total.
- KotlinText.ParseInt: accepts only ASCII digits, while `toIntOrNull` also accepts other Unicode decimal digits. No keypad label contains one.
- CalculatorViewModel.IsFactorialArgument: reads `value % 1.0 == 0.0` as "is a whole number". For a display above `Long.MAX_VALUE` the model runs the loop up to the value itself, while `Double.toLong()` saturates at `Long.MAX_VALUE`; either loop has more than 9 * 10^18 turns. The factorial's `Long` result is shown through `format(result as real)`, without the rounding of `Long.toDouble()`.
- CalculatorViewModel.HandleReciprocal, HandleSquareRoot, HandleLog, HandleLn and HandleTrigonometry carry no contract of their own. All five are `ApplyFunction` with a fixed name and function. `CalculatorLaws.FunctionKeyRecordsCall` states their whole effect through `onAction`: the displayed value (by the table `CalculatorLaws.FunctionImage`), the recorded call and both flags.
- CalculatorViewModel.Apply: its contract states only the keys that need no handler. Every other key's effect is stated by its handler's contract (digits, ".", operators, DEL, "=", +/-, x!), by `CalculatorLaws.FunctionKeyRecordsCall` for the five function keys, by `JustCalculatedAfter` and `InverseFlagAfter`, and by the lemmas of `CalculatorLaws`.
- ExpressionObject.Evaluator: the loop bodies of `parseExpression` and `parseTerm` are split into the step methods `ExpressionStep` and `TermStep`, one call per turn of the loop. Also split out are `SkipNumber` (the digit loop) and `ParseAtom`/`ParsePowerAndPercent` (the two halves of `parseFactor`). The order in which `pos` and `ch` change is the Kotlin order.
- The evaluator's exception messages ("Unexpected: x") are modelled as an `EvalError` datatype that records where evaluation stopped. `calculateExpression` discards them in favour of "Error".
- ExpressionLaws: the grouping laws are stated for expressions built from number literals, not for arbitrary sub-expressions. A trailing operator is rejected for every expression (`TrailingOperatorRejected`), but the exact error position only after a literal.
- ExpressionLaws.TrailingInputRejected: stated for a literal followed by ')', not for any expression followed by unread input.
