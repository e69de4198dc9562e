/**
 * The pure parts of the Compose screen: the keypad decoder
 * `getActionForSymbol`, the two keypad layouts it is fed from, the caption a
 * trigonometric key shows and the font size chosen for the display. The
 * composables themselves (buttons, panels, colours, visibility toggles) are
 * rendering and are not part of this model.
 */
module MainActivity {
  import opened Wrappers
  import opened KotlinText
  import opened CalculatorAction

  /** The labels with a dedicated action, each mapped to that action. */
  const FixedLabels: map<string, Action> := map[
    "Inv" := Inverse,
    "√" := SquareRoot,
    "log" := Log,
    "ln" := Ln,
    "x!" := Factorial,
    "1/x" := Reciprocal,
    "xʸ" := PowerOf,
    "AC" := AllClear,
    "DEL" := Clear,
    "(" := ParenthesisOpen,
    ")" := ParenthesisClose,
    "+/-" := ToggleSign,
    "." := Decimal,
    "=" := Calculate
  ]

  /** The labels that become an `Operation` carrying their only character. */
  const OperatorLabels: seq<string> := ["+", "-", "÷", "×", "%"]

  /** The labels whose action carries the inverse flag. */
  const TrigLabels: seq<string> := ["sin", "cos", "tan"]

  /** The rows of the scientific panel. */
  const ScientificLayout: seq<seq<string>> := [
    ["Inv", "log", "ln", "x!"],
    ["√", "sin", "cos", "tan"],
    ["1/x", "%", "+/-", "xʸ"]
  ]

  /** The rows of the numeric panel. */
  const NumericLayout: seq<seq<string>> := [
    ["AC", "(", ")", "÷"],
    ["7", "8", "9", "×"],
    ["4", "5", "6", "-"],
    ["1", "2", "3", "+"],
    ["DEL", "0", ".", "="]
  ]

  /** A label one of the named branches of the `when` matches. */
  predicate IsNamedLabel(symbol: string) {
    symbol in FixedLabels || symbol in OperatorLabels || symbol in TrigLabels
  }

  /**
   * `getActionForSymbol`: the action a key press sends, given the Inv toggle.
   * The `when` branches with a constant result are the table `FixedLabels`.
   */
  function ActionForSymbol(symbol: string, isInverse: bool): (a: Action)
    ensures IsTrigonometric(a) ==> a.inverse == isInverse && symbol in TrigLabels
    ensures a.Operation? ==> symbol in OperatorLabels && symbol == [a.operator]
    ensures a.Number? ==> ParseInt(symbol) == Some(a.number)
    ensures a.Norm? <==> !IsNamedLabel(symbol) && ParseInt(symbol).None?
  {
    if symbol in FixedLabels then FixedLabels[symbol]
    else if symbol == "sin" then Sin(isInverse)
    else if symbol == "cos" then Cos(isInverse)
    else if symbol == "tan" then Tan(isInverse)
    else if symbol in OperatorLabels then Operation(symbol[0])
    else
      match ParseInt(symbol)
      case Some(n) => Number(n)
      case None => Norm
  }

  /** No named label reads as an integer, so the `toIntOrNull` fallback never shadows one. */
  lemma NamedLabelsAreNotNumbers(symbol: string)
    requires IsNamedLabel(symbol)
    ensures ParseInt(symbol).None?
  {
  }

  // The fourteen labels with a dedicated `when` branch, each with its action
  // whatever the toggle, in four groups.

  /** The keys that apply a function to the display. */
  lemma FunctionLabelsDecode(isInverse: bool)
    ensures ActionForSymbol("√", isInverse) == SquareRoot
    ensures ActionForSymbol("log", isInverse) == Log
    ensures ActionForSymbol("ln", isInverse) == Ln
    ensures ActionForSymbol("1/x", isInverse) == Reciprocal
    ensures ActionForSymbol("x!", isInverse) == Factorial
  {
  }

  /** The toggle, the power key and the sign key. */
  lemma ModifierLabelsDecode(isInverse: bool)
    ensures ActionForSymbol("Inv", isInverse) == Inverse
    ensures ActionForSymbol("xʸ", isInverse) == PowerOf
    ensures ActionForSymbol("+/-", isInverse) == ToggleSign
  {
  }

  /** The keys that clear, edit or evaluate the entry. */
  lemma EditingLabelsDecode(isInverse: bool)
    ensures ActionForSymbol("AC", isInverse) == AllClear
    ensures ActionForSymbol("DEL", isInverse) == Clear
    ensures ActionForSymbol(".", isInverse) == Decimal
    ensures ActionForSymbol("=", isInverse) == Calculate
  {
  }

  /** The parenthesis keys, whose actions the state machine ignores. */
  lemma ParenthesisLabelsDecode(isInverse: bool)
    ensures ActionForSymbol("(", isInverse) == ParenthesisOpen
    ensures ActionForSymbol(")", isInverse) == ParenthesisClose
  {
  }

  /** The label of the key that sends a fixed action, if some key does. */
  function FixedLabelOf(a: Action): Option<string> {
    match a
    case Inverse => Some("Inv")
    case SquareRoot => Some("√")
    case Log => Some("log")
    case Ln => Some("ln")
    case Factorial => Some("x!")
    case Reciprocal => Some("1/x")
    case PowerOf => Some("xʸ")
    case AllClear => Some("AC")
    case Clear => Some("DEL")
    case ParenthesisOpen => Some("(")
    case ParenthesisClose => Some(")")
    case ToggleSign => Some("+/-")
    case Decimal => Some(".")
    case Calculate => Some("=")
    case _ => None
  }

  /** A fixed label's action leads back to that label. */
  lemma FixedLabelsRoundTrip(s: string, isInverse: bool)
    requires s in FixedLabels
    ensures FixedLabelOf(ActionForSymbol(s, isInverse)) == Some(s)
  {
  }

  /** No two fixed labels make the decoder send the same action. */
  lemma FixedLabelsOneToOne(s: string, t: string, isInverse: bool)
    requires s in FixedLabels && t in FixedLabels && s != t
    ensures ActionForSymbol(s, isInverse) != ActionForSymbol(t, isInverse)
  {
    FixedLabelsRoundTrip(s, isInverse);
    FixedLabelsRoundTrip(t, isInverse);
  }

  /** "+", "-", "÷", "×" and "%" send `Operation` with the label's character. */
  lemma OperatorLabelsDecode(c: char, isInverse: bool)
    requires [c] in OperatorLabels
    ensures ActionForSymbol([c], isInverse) == Operation(c)
  {
  }

  /** "sin", "cos" and "tan" carry the toggle into their action's `inverse` flag. */
  lemma TrigLabelsDecode(isInverse: bool)
    ensures ActionForSymbol("sin", isInverse) == Sin(isInverse)
    ensures ActionForSymbol("cos", isInverse) == Cos(isInverse)
    ensures ActionForSymbol("tan", isInverse) == Tan(isInverse)
  {
  }

  /** A label decodes to `Number(n)` exactly when `toIntOrNull` reads it as `n`. */
  lemma NumberLabelsDecode(symbol: string, isInverse: bool)
    ensures ActionForSymbol(symbol, isInverse).Number? <==> ParseInt(symbol).Some?
    ensures ParseInt(symbol).Some? ==> ActionForSymbol(symbol, isInverse) == Number(ParseInt(symbol).value)
  {
    if IsNamedLabel(symbol) {
      NamedLabelsAreNotNumbers(symbol);
    }
  }

  /** The digit keys send their digit. */
  lemma DigitLabelDecodes(d: nat, isInverse: bool)
    requires d < 10
    ensures ActionForSymbol([DigitChar(d)], isInverse) == Number(d)
  {
    var s := [DigitChar(d)];
    assert DigitsValue(s) == d by {
      assert s[..0] == [];
    }
    NumberLabelsDecode(s, isInverse);
  }

  /** Only the trigonometric keys look at the Inv toggle. */
  lemma InverseOnlyReachesTrig(symbol: string)
    ensures !IsTrigonometric(ActionForSymbol(symbol, false)) ==>
      ActionForSymbol(symbol, true) == ActionForSymbol(symbol, false)
    ensures IsTrigonometric(ActionForSymbol(symbol, false)) ==>
      ActionForSymbol(symbol, true) == ActionForSymbol(symbol, false).(inverse := true)
  {
  }

  /** Every key on both panels sends a real action, never the `Norm` fallback. */
  lemma LayoutKeysDecode(isInverse: bool)
    ensures forall r, k :: 0 <= r < |ScientificLayout| && 0 <= k < |ScientificLayout[r]| ==>
      !ActionForSymbol(ScientificLayout[r][k], isInverse).Norm?
    ensures forall r, k :: 0 <= r < |NumericLayout| && 0 <= k < |NumericLayout[r]| ==>
      !ActionForSymbol(NumericLayout[r][k], isInverse).Norm?
  {
    forall r, k | 0 <= r < |ScientificLayout| && 0 <= k < |ScientificLayout[r]|
      ensures !ActionForSymbol(ScientificLayout[r][k], isInverse).Norm?
    {
      var key := ScientificLayout[r][k];
      assert key in TrigLabels || key in OperatorLabels || key in FixedLabels;
    }
    forall r, k | 0 <= r < |NumericLayout| && 0 <= k < |NumericLayout[r]|
      ensures !ActionForSymbol(NumericLayout[r][k], isInverse).Norm?
    {
      var key := NumericLayout[r][k];
      if r == 1 && k < 3 {
        DigitLabelDecodes(7 + k, isInverse);
      } else if r == 2 && k < 3 {
        DigitLabelDecodes(4 + k, isInverse);
      } else if r == 3 && k < 3 {
        DigitLabelDecodes(1 + k, isInverse);
      } else if r == 4 && k == 1 {
        DigitLabelDecodes(0, isInverse);
      } else {
        assert key in OperatorLabels || key in FixedLabels;
      }
    }
  }

  /** The caption of a key: a trigonometric key shows its inverse name while Inv is on. */
  function TrigCaption(symbol: string, isInverse: bool): (caption: string)
    ensures caption != symbol <==> isInverse && symbol in TrigLabels
    ensures caption != symbol ==> caption == symbol + "⁻¹"
  {
    if symbol == "sin" && isInverse then "sin⁻¹"
    else if symbol == "cos" && isInverse then "cos⁻¹"
    else if symbol == "tan" && isInverse then "tan⁻¹"
    else symbol
  }

  /** `displayFontSize`, in sp: 90 up to 8 characters, 70 up to 12, 50 beyond. */
  function DisplayFontSize(display: string): (size: nat)
    ensures size == 90 <==> |display| <= 8
    ensures size == 70 <==> 9 <= |display| <= 12
    ensures size == 50 <==> |display| > 12
  {
    if |display| <= 8 then 90
    else if |display| <= 12 then 70
    else 50
  }

  /** A longer display never gets a larger font. */
  lemma FontShrinksWithLength(a: string, b: string)
    requires |a| <= |b|
    ensures DisplayFontSize(b) <= DisplayFontSize(a)
  {
  }
}
