/**
 * The recursive-descent evaluator the calculator runs on "=". The Kotlin code
 * is an anonymous object whose `pos`/`ch` fields a family of mutually
 * recursive methods advance; here the same grammar is a family of mutually
 * recursive functions over the input text and a cursor `p`, each returning
 * the value it computed together with the cursor it leaves behind (the
 * object's `pos` after the call). `ExpressionObject.Evaluator` is the
 * imperative object itself, proved to compute exactly these functions.
 *
 *   expression := term (('+' | '-') term)*
 *   term       := factor (('*' | '/') factor)*
 *   factor     := '+' factor | '-' factor | atom ['^' factor] ['%']
 *   atom       := '(' expression [')'] | [0-9.,]+
 *
 * Blanks are skipped before every token; a missing ')' is accepted; the
 * literal text goes through `toDouble` after ',' becomes '.'.
 */
module ExpressionParser {
  import opened Wrappers
  import opened Numerics

  datatype EvalError =
    | UnexpectedChar(at: nat)        // a factor starts with a character no rule accepts (at == length: input ended)
    | MalformedNumber(literal: string)  // toDouble() rejected the scanned literal
    | TrailingInput(at: nat)         // characters remain after the top-level expression

  /** The outcome of one grammar rule: its value and the cursor after it, or the error it threw. */
  datatype Parse = Parsed(value: real, next: nat) | Failed(error: EvalError)

  /** The operator glyphs the display uses, rewritten to the ones the grammar knows. */
  function Canonical(c: char): char {
    if c == '×' then '*' else if c == '÷' then '/' else c
  }

  /** `expression.replace("×", "*").replace("÷", "/")`. */
  function Sanitize(expression: string): (s: string)
    ensures |s| == |expression|
    ensures forall i :: 0 <= i < |s| ==> s[i] != '×' && s[i] != '÷'
    ensures forall i :: 0 <= i < |s| && expression[i] == '×' ==> s[i] == '*'
    ensures forall i :: 0 <= i < |s| && expression[i] == '÷' ==> s[i] == '/'
    ensures forall i :: 0 <= i < |s| && expression[i] != '×' && expression[i] != '÷' ==> s[i] == expression[i]
  {
    seq(|expression|, i requires 0 <= i < |expression| => Canonical(expression[i]))
  }

  /** The object's `ch`: the code of the character under the cursor, or -1 past the end. */
  function Peek(s: string, p: nat): int {
    if p < |s| then s[p] as int else -1
  }

  predicate IsNumberChar(c: char) {
    '0' <= c <= '9' || c == '.' || c == ','
  }

  /** The characters some rule of the grammar consumes. */
  predicate IsSyntaxChar(c: char) {
    IsNumberChar(c) || c in "+-*/^%() "
  }

  /** The characters an expression may contain before the operator glyphs are rewritten. */
  predicate IsInputChar(c: char) {
    IsSyntaxChar(c) || c == '×' || c == '÷'
  }

  /** The binary operators once the glyphs are rewritten. */
  predicate IsOperatorChar(c: char) {
    c == '+' || c == '-' || c == '*' || c == '/' || c == '^'
  }

  /** A rule that stops at `n` has consumed something, and the last character it took is not an operator. */
  predicate CleanEnd(s: string, n: nat) {
    0 < n <= |s| && !IsOperatorChar(s[n - 1])
  }

  /** Position `i` holds a syntax character. */
  predicate SyntaxAt(s: string, i: nat) {
    i < |s| && IsSyntaxChar(s[i])
  }

  predicate AllSyntax(s: string, lo: nat, hi: nat) {
    forall i :: lo <= i < hi ==> SyntaxAt(s, i)
  }

  /** What every rule promises when it succeeds: it stays inside the input and consumes only syntax characters. */
  predicate Spans(s: string, p: nat, r: Parse) {
    r.Parsed? ==> p <= r.next <= |s| && AllSyntax(s, p, r.next)
  }

  /** The loop `while (ch == ' ') nextChar()` at the head of `eat`. */
  function SkipSpaces(s: string, p: nat): (q: nat)
    requires p <= |s|
    ensures p <= q <= |s| && Peek(s, q) != ' ' as int
    ensures AllSyntax(s, p, q)
    ensures Peek(s, p) != ' ' as int ==> q == p
    decreases |s| - p
  {
    if p < |s| && s[p] == ' ' then SkipSpaces(s, p + 1) else p
  }

  /** Every character the loop skips is a blank. */
  lemma {:induction false} SkipSpacesSkipsBlanks(s: string, p: nat, i: nat)
    requires p <= |s| && p <= i < SkipSpaces(s, p)
    ensures s[i] == ' '
    decreases |s| - p
  {
    if i > p {
      SkipSpacesSkipsBlanks(s, p + 1, i);
    }
  }

  /** The loop that advances over a number literal's characters. */
  function ScanNumber(s: string, q: nat): (e: nat)
    requires q <= |s|
    ensures q <= e <= |s|
    ensures AllSyntax(s, q, e)
    ensures e == |s| || !IsNumberChar(s[e])
    decreases |s| - q
  {
    if q < |s| && IsNumberChar(s[q]) then ScanNumber(s, q + 1) else q
  }

  /** Every character the scan advances over belongs to the literal. */
  lemma {:induction false} ScanNumberTakesLiteral(s: string, q: nat, i: nat)
    requires q <= |s| && q <= i < ScanNumber(s, q)
    ensures IsNumberChar(s[i])
    decreases |s| - q
  {
    if i > q {
      ScanNumberTakesLiteral(s, q + 1, i);
    }
  }

  /** `replace(",", ".")` on a scanned literal. */
  function CommaToDot(t: string): string {
    seq(|t|, i requires 0 <= i < |t| => if t[i] == ',' then '.' else t[i])
  }

  /** `parseExpression`: a term, then the loop over '+' and '-'. */
  function Expression(lib: Library, s: string, p: nat): (r: Parse)
    requires p <= |s|
    ensures Spans(s, p, r) && (r.Parsed? ==> p < r.next)
    decreases |s| - p, 3
  {
    match Term(lib, s, p)
    case Failed(e) => Failed(e)
    case Parsed(x, n) => ExprTail(lib, s, x, n)
  }

  /** The `while (true)` loop of `parseExpression`, entered with the running sum `x`. */
  function ExprTail(lib: Library, s: string, x: real, p: nat): (r: Parse)
    requires p <= |s|
    ensures Spans(s, p, r)
    decreases |s| - p, 0
  {
    var q := SkipSpaces(s, p);
    var op := Peek(s, q);
    if op != '+' as int && op != '-' as int then
      Parsed(x, q)
    else
      match Term(lib, s, q + 1)
      case Failed(e) => Failed(e)
      case Parsed(y, n) => ExprTail(lib, s, if op == '+' as int then lib.add(x, y) else lib.subtract(x, y), n)
  }

  /** `parseTerm`: a factor, then the loop over '*' and '/'. */
  function Term(lib: Library, s: string, p: nat): (r: Parse)
    requires p <= |s|
    ensures Spans(s, p, r) && (r.Parsed? ==> p < r.next)
    decreases |s| - p, 2
  {
    match Factor(lib, s, p)
    case Failed(e) => Failed(e)
    case Parsed(x, n) => TermTail(lib, s, x, n)
  }

  /** The `while (true)` loop of `parseTerm`, entered with the running product `x`. */
  function TermTail(lib: Library, s: string, x: real, p: nat): (r: Parse)
    requires p <= |s|
    ensures Spans(s, p, r)
    decreases |s| - p, 0
  {
    var q := SkipSpaces(s, p);
    var op := Peek(s, q);
    if op != '*' as int && op != '/' as int then
      Parsed(x, q)
    else
      match Factor(lib, s, q + 1)
      case Failed(e) => Failed(e)
      case Parsed(y, n) => TermTail(lib, s, if op == '*' as int then lib.multiply(x, y) else lib.divide(x, y), n)
  }

  /** `parseFactor`: unary signs recurse; otherwise an atom with its optional '^' and '%'. */
  function Factor(lib: Library, s: string, p: nat): (r: Parse)
    requires p <= |s|
    ensures Spans(s, p, r) && (r.Parsed? ==> p < r.next)
    decreases |s| - p, 1
  {
    var q := SkipSpaces(s, p);
    var sign := Peek(s, q);
    if sign == '+' as int || sign == '-' as int then
      match Factor(lib, s, q + 1)
      case Failed(e) => Failed(e)
      case Parsed(y, n) => Parsed(if sign == '-' as int then -y else y, n)
    else
      match Atom(lib, s, q)
      case Failed(e) => Failed(e)
      case Parsed(x, n) => PowerAndPercent(lib, s, x, n)
  }

  /**
   * The part of `parseFactor` from `startPos` on: a parenthesised expression
   * (whose ')' may be missing) or a number literal. `q` is where the factor's
   * first non-blank character is.
   */
  function Atom(lib: Library, s: string, q: nat): (r: Parse)
    requires q <= |s| && Peek(s, q) != ' ' as int
    ensures Spans(s, q, r) && (r.Parsed? ==> q < r.next)
    decreases |s| - q, 0
  {
    if Peek(s, q) == '(' as int then
      match Expression(lib, s, q + 1)
      case Failed(e) => Failed(e)
      case Parsed(x, n) =>
        var m := SkipSpaces(s, n);
        Parsed(x, if Peek(s, m) == ')' as int then m + 1 else m)
    else if q < |s| && IsNumberChar(s[q]) then
      var e := ScanNumber(s, q);
      match lib.toDouble(CommaToDot(s[q..e]))
      case Some(x) => Parsed(x, e)
      case None => Failed(MalformedNumber(s[q..e]))
    else
      Failed(UnexpectedChar(q))
  }

  /** The tail of `parseFactor`: `x ^ factor` if a '^' follows, then `/ 100` if a '%' follows. */
  function PowerAndPercent(lib: Library, s: string, x: real, n: nat): (r: Parse)
    requires n <= |s|
    ensures Spans(s, n, r)
    decreases |s| - n, 0
  {
    var m := SkipSpaces(s, n);
    if Peek(s, m) == '^' as int then
      match Factor(lib, s, m + 1)
      case Failed(e) => Failed(e)
      case Parsed(y, k) => Percent(lib, s, lib.pow(x, y), k)
    else
      Percent(lib, s, x, m)
  }

  function Percent(lib: Library, s: string, x: real, n: nat): (r: Parse)
    requires n <= |s|
    ensures Spans(s, n, r)
  {
    var m := SkipSpaces(s, n);
    if Peek(s, m) == '%' as int then Parsed(lib.divide(x, 100.0), m + 1) else Parsed(x, m)
  }

  /** `parse()`: an expression that must reach the end of the (rewritten) input. */
  function ParseAll(lib: Library, s: string): (r: Result<real, EvalError>)
    ensures r.Success? ==> AllSyntax(s, 0, |s|)
  {
    match Expression(lib, s, 0)
    case Failed(e) => Failure(e)
    case Parsed(x, n) => if n < |s| then Failure(TrailingInput(n)) else Success(x)
  }

  /**
   * The evaluation inside `calculateExpression`: rewrite the glyphs, then
   * parse. Only text made of digits, separators, blanks, operators and
   * parentheses can evaluate.
   */
  function Evaluate(lib: Library, expression: string): (r: Result<real, EvalError>)
    ensures r.Success? ==> forall i :: 0 <= i < |expression| ==> IsInputChar(expression[i])
  {
    var s := Sanitize(expression);
    var r := ParseAll(lib, s);
    assert r.Success? ==> forall i :: 0 <= i < |expression| ==> IsInputChar(expression[i]) by {
      if r.Success? {
        forall i | 0 <= i < |expression| ensures IsInputChar(expression[i]) {
          assert SyntaxAt(s, i);
        }
      }
    }
    r
  }

  // One step of each grammar function, stated at the position where `eat`
  // starts looking. `ExpressionObject.Evaluator` and `ExpressionLaws` cite
  // these instead of unfolding the mutually recursive functions themselves.

  lemma {:induction false} ExprTailAdd(lib: Library, s: string, x: real, p: nat, t: Parse)
    requires p <= |s| && Peek(s, SkipSpaces(s, p)) == '+' as int
    requires t == Term(lib, s, SkipSpaces(s, p) + 1)
    ensures t.Failed? ==> ExprTail(lib, s, x, p) == t
    ensures t.Parsed? ==> ExprTail(lib, s, x, p) == ExprTail(lib, s, lib.add(x, t.value), t.next)
  {
  }

  lemma {:induction false} ExprTailSubtract(lib: Library, s: string, x: real, p: nat, t: Parse)
    requires p <= |s| && Peek(s, SkipSpaces(s, p)) == '-' as int
    requires t == Term(lib, s, SkipSpaces(s, p) + 1)
    ensures t.Failed? ==> ExprTail(lib, s, x, p) == t
    ensures t.Parsed? ==> ExprTail(lib, s, x, p) == ExprTail(lib, s, lib.subtract(x, t.value), t.next)
  {
  }

  lemma {:induction false} ExprTailEnd(lib: Library, s: string, x: real, p: nat)
    requires p <= |s|
    requires Peek(s, SkipSpaces(s, p)) != '+' as int && Peek(s, SkipSpaces(s, p)) != '-' as int
    ensures ExprTail(lib, s, x, p) == Parsed(x, SkipSpaces(s, p))
  {
  }

  lemma {:induction false} ExpressionFirstTerm(lib: Library, s: string, p: nat, t: Parse)
    requires p <= |s| && t == Term(lib, s, p)
    ensures t.Failed? ==> Expression(lib, s, p) == t
    ensures t.Parsed? ==> Expression(lib, s, p) == ExprTail(lib, s, t.value, t.next)
  {
  }

  lemma {:induction false} TermTailMultiply(lib: Library, s: string, x: real, p: nat, f: Parse)
    requires p <= |s| && Peek(s, SkipSpaces(s, p)) == '*' as int
    requires f == Factor(lib, s, SkipSpaces(s, p) + 1)
    ensures f.Failed? ==> TermTail(lib, s, x, p) == f
    ensures f.Parsed? ==> TermTail(lib, s, x, p) == TermTail(lib, s, lib.multiply(x, f.value), f.next)
  {
  }

  lemma {:induction false} TermTailDivide(lib: Library, s: string, x: real, p: nat, f: Parse)
    requires p <= |s| && Peek(s, SkipSpaces(s, p)) == '/' as int
    requires f == Factor(lib, s, SkipSpaces(s, p) + 1)
    ensures f.Failed? ==> TermTail(lib, s, x, p) == f
    ensures f.Parsed? ==> TermTail(lib, s, x, p) == TermTail(lib, s, lib.divide(x, f.value), f.next)
  {
  }

  lemma {:induction false} TermTailEnd(lib: Library, s: string, x: real, p: nat)
    requires p <= |s|
    requires Peek(s, SkipSpaces(s, p)) != '*' as int && Peek(s, SkipSpaces(s, p)) != '/' as int
    ensures TermTail(lib, s, x, p) == Parsed(x, SkipSpaces(s, p))
  {
  }

  lemma {:induction false} TermFirstFactor(lib: Library, s: string, p: nat, f: Parse)
    requires p <= |s| && f == Factor(lib, s, p)
    ensures f.Failed? ==> Term(lib, s, p) == f
    ensures f.Parsed? ==> Term(lib, s, p) == TermTail(lib, s, f.value, f.next)
  {
  }

  lemma {:induction false} FactorPlus(lib: Library, s: string, p: nat, f: Parse)
    requires p <= |s| && Peek(s, SkipSpaces(s, p)) == '+' as int
    requires f == Factor(lib, s, SkipSpaces(s, p) + 1)
    ensures Factor(lib, s, p) == f
  {
  }

  lemma {:induction false} FactorMinus(lib: Library, s: string, p: nat, f: Parse)
    requires p <= |s| && Peek(s, SkipSpaces(s, p)) == '-' as int
    requires f == Factor(lib, s, SkipSpaces(s, p) + 1)
    ensures f.Failed? ==> Factor(lib, s, p) == f
    ensures f.Parsed? ==> Factor(lib, s, p) == Parsed(-f.value, f.next)
  {
  }

  lemma {:induction false} FactorAtom(lib: Library, s: string, p: nat, a: Parse)
    requires p <= |s|
    requires Peek(s, SkipSpaces(s, p)) != '+' as int && Peek(s, SkipSpaces(s, p)) != '-' as int
    requires a == Atom(lib, s, SkipSpaces(s, p))
    ensures a.Failed? ==> Factor(lib, s, p) == a
    ensures a.Parsed? ==> Factor(lib, s, p) == PowerAndPercent(lib, s, a.value, a.next)
  {
  }

  lemma {:induction false} AtomGroup(lib: Library, s: string, q: nat, e: Parse)
    requires q < |s| && s[q] == '('
    requires e == Expression(lib, s, q + 1)
    ensures e.Failed? ==> Atom(lib, s, q) == e
    ensures e.Parsed? ==>
      var m := SkipSpaces(s, e.next);
      Atom(lib, s, q) == Parsed(e.value, if Peek(s, m) == ')' as int then m + 1 else m)
  {
  }

  lemma {:induction false} AtomNumber(lib: Library, s: string, q: nat)
    requires q < |s| && IsNumberChar(s[q])
    ensures var e := ScanNumber(s, q);
      Atom(lib, s, q) ==
        match lib.toDouble(CommaToDot(s[q..e]))
        case Some(x) => Parsed(x, e)
        case None => Failed(MalformedNumber(s[q..e]))
  {
  }

  lemma {:induction false} AtomUnexpected(lib: Library, s: string, q: nat)
    requires q <= |s| && Peek(s, q) != ' ' as int && Peek(s, q) != '(' as int
    requires q == |s| || !IsNumberChar(s[q])
    ensures Atom(lib, s, q) == Failed(UnexpectedChar(q))
  {
  }

  lemma {:induction false} PowerPresent(lib: Library, s: string, x: real, n: nat, f: Parse)
    requires n <= |s| && Peek(s, SkipSpaces(s, n)) == '^' as int
    requires f == Factor(lib, s, SkipSpaces(s, n) + 1)
    ensures f.Failed? ==> PowerAndPercent(lib, s, x, n) == f
    ensures f.Parsed? ==> PowerAndPercent(lib, s, x, n) == Percent(lib, s, lib.pow(x, f.value), f.next)
  {
  }

  lemma {:induction false} PowerAbsent(lib: Library, s: string, x: real, n: nat)
    requires n <= |s| && Peek(s, SkipSpaces(s, n)) != '^' as int
    ensures PowerAndPercent(lib, s, x, n) == Percent(lib, s, x, SkipSpaces(s, n))
  {
  }

  // Each rule that succeeds stops right after a number, a blank, ')' or '%',
  // never right after a binary operator: an operator always needs an
  // operand after it. `ExpressionLaws.TrailingOperatorRejected` rests on this.

  /** The blanks `eat` skips keep a clean end clean. */
  lemma {:induction false} SkipSpacesKeepsCleanEnd(s: string, p: nat)
    requires p <= |s| && CleanEnd(s, p)
    ensures CleanEnd(s, SkipSpaces(s, p))
  {
    var q := SkipSpaces(s, p);
    if p < q {
      SkipSpacesSkipsBlanks(s, p, q - 1);
    }
  }

  lemma {:induction false} ExpressionEndsClean(lib: Library, s: string, p: nat)
    requires p <= |s|
    ensures Expression(lib, s, p).Parsed? ==> CleanEnd(s, Expression(lib, s, p).next)
    decreases |s| - p, 3
  {
    var t := Term(lib, s, p);
    TermEndsClean(lib, s, p);
    if t.Parsed? {
      ExprTailEndsClean(lib, s, t.value, t.next);
    }
  }

  lemma {:induction false} ExprTailEndsClean(lib: Library, s: string, x: real, p: nat)
    requires p <= |s| && CleanEnd(s, p)
    ensures ExprTail(lib, s, x, p).Parsed? ==> CleanEnd(s, ExprTail(lib, s, x, p).next)
    decreases |s| - p, 0
  {
    var q := SkipSpaces(s, p);
    SkipSpacesKeepsCleanEnd(s, p);
    var op := Peek(s, q);
    if op == '+' as int || op == '-' as int {
      var t := Term(lib, s, q + 1);
      TermEndsClean(lib, s, q + 1);
      if t.Parsed? {
        ExprTailEndsClean(lib, s, if op == '+' as int then lib.add(x, t.value) else lib.subtract(x, t.value), t.next);
      }
    }
  }

  lemma {:induction false} TermEndsClean(lib: Library, s: string, p: nat)
    requires p <= |s|
    ensures Term(lib, s, p).Parsed? ==> CleanEnd(s, Term(lib, s, p).next)
    decreases |s| - p, 2
  {
    var f := Factor(lib, s, p);
    FactorEndsClean(lib, s, p);
    if f.Parsed? {
      TermTailEndsClean(lib, s, f.value, f.next);
    }
  }

  lemma {:induction false} TermTailEndsClean(lib: Library, s: string, x: real, p: nat)
    requires p <= |s| && CleanEnd(s, p)
    ensures TermTail(lib, s, x, p).Parsed? ==> CleanEnd(s, TermTail(lib, s, x, p).next)
    decreases |s| - p, 0
  {
    var q := SkipSpaces(s, p);
    SkipSpacesKeepsCleanEnd(s, p);
    var op := Peek(s, q);
    if op == '*' as int || op == '/' as int {
      var f := Factor(lib, s, q + 1);
      FactorEndsClean(lib, s, q + 1);
      if f.Parsed? {
        TermTailEndsClean(lib, s, if op == '*' as int then lib.multiply(x, f.value) else lib.divide(x, f.value), f.next);
      }
    }
  }

  lemma {:induction false} FactorEndsClean(lib: Library, s: string, p: nat)
    requires p <= |s|
    ensures Factor(lib, s, p).Parsed? ==> CleanEnd(s, Factor(lib, s, p).next)
    decreases |s| - p, 1
  {
    var q := SkipSpaces(s, p);
    var sign := Peek(s, q);
    if sign == '+' as int || sign == '-' as int {
      FactorEndsClean(lib, s, q + 1);
    } else {
      var a := Atom(lib, s, q);
      AtomEndsClean(lib, s, q);
      if a.Parsed? {
        PowerAndPercentEndsClean(lib, s, a.value, a.next);
      }
    }
  }

  lemma {:induction false} AtomEndsClean(lib: Library, s: string, q: nat)
    requires q <= |s| && Peek(s, q) != ' ' as int
    ensures Atom(lib, s, q).Parsed? ==> CleanEnd(s, Atom(lib, s, q).next)
    decreases |s| - q, 0
  {
    if Peek(s, q) == '(' as int {
      var e := Expression(lib, s, q + 1);
      ExpressionEndsClean(lib, s, q + 1);
      if e.Parsed? {
        SkipSpacesKeepsCleanEnd(s, e.next);
      }
    } else if q < |s| && IsNumberChar(s[q]) {
      ScanNumberTakesLiteral(s, q, ScanNumber(s, q) - 1);
    }
  }

  lemma {:induction false} PowerAndPercentEndsClean(lib: Library, s: string, x: real, n: nat)
    requires n <= |s| && CleanEnd(s, n)
    ensures PowerAndPercent(lib, s, x, n).Parsed? ==> CleanEnd(s, PowerAndPercent(lib, s, x, n).next)
    decreases |s| - n, 0
  {
    var m := SkipSpaces(s, n);
    SkipSpacesKeepsCleanEnd(s, n);
    if Peek(s, m) == '^' as int {
      var f := Factor(lib, s, m + 1);
      FactorEndsClean(lib, s, m + 1);
      if f.Parsed? {
        PercentEndsClean(lib, s, lib.pow(x, f.value), f.next);
      }
    } else {
      PercentEndsClean(lib, s, x, m);
    }
  }

  lemma {:induction false} PercentEndsClean(lib: Library, s: string, x: real, n: nat)
    requires n <= |s| && CleanEnd(s, n)
    ensures Percent(lib, s, x, n).Parsed? ==> CleanEnd(s, Percent(lib, s, x, n).next)
  {
    SkipSpacesKeepsCleanEnd(s, n);
  }
}
