/**
 * The closed vocabulary of user actions the calculator engine consumes: one
 * constructor per variant of the Kotlin sealed class. `Number` carries a
 * Kotlin `Int`, `Operation` a single character, and the three trigonometric
 * actions carry the `inverse` flag (which the keypad fills from the
 * calculator's Inv toggle; the Kotlin default `false` is what `Sin()` means).
 */
module CalculatorAction {
  import opened KotlinText

  datatype Action =
    | Number(number: Int32)
    | Operation(operator: char)
    | Clear
    | AllClear
    | Decimal
    | Calculate
    | ToggleSign
    | ParenthesisOpen
    | ParenthesisClose
    | Norm
    | Inverse
    | Reciprocal
    | Factorial
    | SquareRoot
    | Log
    | Ln
    | PowerOf
    | Sin(inverse: bool := false)
    | Cos(inverse: bool := false)
    | Tan(inverse: bool := false)

  /** Sin, Cos and Tan: the actions that carry an `inverse` flag. */
  predicate IsTrigonometric(a: Action) {
    a.Sin? || a.Cos? || a.Tan?
  }

  /** The actions that carry no payload at all. */
  predicate IsPayloadFree(a: Action) {
    !(a.Number? || a.Operation? || IsTrigonometric(a))
  }

  /**
   * The position of each variant in the declaration, 0 to 19. It tells the
   * variants apart (equal positions mean the same constructor) and shows
   * that there are exactly twenty of them.
   */
  function VariantIndex(a: Action): (i: nat)
    ensures i < 20
    ensures (i < 2 || i >= 17) <==> !IsPayloadFree(a)
  {
    match a
    case Number(_) => 0
    case Operation(_) => 1
    case Clear => 2
    case AllClear => 3
    case Decimal => 4
    case Calculate => 5
    case ToggleSign => 6
    case ParenthesisOpen => 7
    case ParenthesisClose => 8
    case Norm => 9
    case Inverse => 10
    case Reciprocal => 11
    case Factorial => 12
    case SquareRoot => 13
    case Log => 14
    case Ln => 15
    case PowerOf => 16
    case Sin(_) => 17
    case Cos(_) => 18
    case Tan(_) => 19
  }

  /** A representative action of each variant position, so every index below 20 is taken. */
  function VariantAt(i: nat): (a: Action)
    requires i < 20
    ensures VariantIndex(a) == i
  {
    [Number(0), Operation('+'), Clear, AllClear, Decimal, Calculate, ToggleSign,
     ParenthesisOpen, ParenthesisClose, Norm, Inverse, Reciprocal, Factorial,
     SquareRoot, Log, Ln, PowerOf, Sin(), Cos(), Tan()][i]
  }

  /**
   * Equal positions mean the same variant: a payload-free action is the only
   * one at its position, and the others share theirs only with actions of the
   * same constructor. With `VariantAt`, the variants are exactly twenty.
   */
  lemma VariantIndexSeparates(a: Action, b: Action)
    requires VariantIndex(a) == VariantIndex(b)
    ensures IsPayloadFree(a) ==> a == b
    ensures a.Number? ==> b.Number?
    ensures a.Operation? ==> b.Operation?
    ensures a.Sin? ==> b.Sin?
    ensures a.Cos? ==> b.Cos?
    ensures a.Tan? ==> b.Tan?
  {
  }
}
