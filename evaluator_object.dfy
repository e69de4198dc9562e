/**
 * The evaluator object as the Kotlin code writes it: a scanner over the
 * rewritten expression whose `pos` and `ch` fields `nextChar` and `eat`
 * advance, and mutually recursive parse methods with `while (true)` loops.
 * A thrown exception is a `Failed` result that every caller passes on at
 * once. Each method is proved to compute the matching function of
 * `ExpressionParser` and to leave `pos` where that function says.
 */
module ExpressionObject {
  import opened Wrappers
  import opened Numerics
  import opened ExpressionParser

  predicate IsNumberCode(ch: int) {
    ('0' as int <= ch <= '9' as int) || ch == '.' as int || ch == ',' as int
  }

  class Evaluator {
    const lib: Library
    const src: string
    var pos: int
    var ch: int

    /** The cursor is inside the input (or just past it) and `ch` is the character under it. */
    ghost predicate Synced()
      reads this
    {
      0 <= pos <= |src| && ch == Peek(src, pos)
    }

    constructor (lib: Library, src: string)
      ensures this.lib == lib && this.src == src
      ensures pos == -1 && ch == 0
    {
      this.lib := lib;
      this.src := src;
      pos := -1;
      ch := 0;
    }

    /** `nextChar()`: advance the cursor and load the character under it. */
    method NextChar()
      requires -1 <= pos
      modifies this
      ensures pos == old(pos) + 1 && ch == Peek(src, pos)
    {
      pos := pos + 1;
      ch := if pos < |src| then src[pos] as int else -1;
    }

    /** `eat(c)`: skip blanks, then consume `c` if it is the next character. */
    method Eat(c: char) returns (eaten: bool)
      requires Synced()
      modifies this
      ensures Synced()
      ensures var q := SkipSpaces(src, old(pos));
              eaten == (Peek(src, q) == c as int) && pos == (if eaten then q + 1 else q)
    {
      while ch == ' ' as int
        invariant Synced() && old(pos) <= pos
        invariant SkipSpaces(src, pos) == SkipSpaces(src, old(pos))
        decreases |src| - pos
      {
        NextChar();
      }
      if ch == c as int {
        NextChar();
        return true;
      }
      return false;
    }

    /** `parse()`: start the scan, read one expression, and reject what is left over. */
    method Parse() returns (r: Result<real, EvalError>)
      requires pos == -1
      modifies this
      ensures r == ParseAll(lib, src)
    {
      NextChar();
      var e := ParseExpression();
      if e.Failed? {
        return Failure(e.error);
      }
      if pos < |src| {
        return Failure(TrailingInput(pos));
      }
      return Success(e.value);
    }

    method ParseExpression() returns (r: Parse)
      requires Synced()
      modifies this
      ensures Synced() && old(pos) <= pos
      ensures r == Expression(lib, src, old(pos))
      ensures r.Parsed? ==> pos == r.next
      decreases |src| - pos, 3
    {
      ghost var start := pos;
      r := ParseTerm();
      ExpressionFirstTerm(lib, src, start, r);
      if r.Failed? {
        return;
      }
      var x := r.value;
      ghost var goal := Expression(lib, src, start);
      while true
        invariant Synced() && start <= pos
        invariant ExprTail(lib, src, x, pos) == goal
        decreases |src| - pos
      {
        var done;
        r, done := ExpressionStep(x);
        if done {
          return;
        }
        x := r.value;
      }
    }

    /**
     * One round of the loop in `parseExpression`: `+` or `-` and the next
     * term (`done` is false), or the end of the expression (`done` is true).
     */
    method ExpressionStep(x: real) returns (r: Parse, done: bool)
      requires Synced()
      modifies this
      ensures Synced() && old(pos) <= pos
      ensures r.Parsed? ==> pos == r.next
      ensures done ==> r == ExprTail(lib, src, x, old(pos))
      ensures !done ==> r.Parsed? && old(pos) < pos && ExprTail(lib, src, r.value, pos) == ExprTail(lib, src, x, old(pos))
      decreases |src| - pos, 2
    {
      ghost var before := pos;
      var plus := Eat('+');
      if plus {
        var t := ParseTerm();
        ExprTailAdd(lib, src, x, before, t);
        if t.Failed? {
          return t, true;
        }
        return Parsed(lib.add(x, t.value), pos), false;
      }
      var minus := Eat('-');
      if minus {
        var t := ParseTerm();
        ExprTailSubtract(lib, src, x, before, t);
        if t.Failed? {
          return t, true;
        }
        return Parsed(lib.subtract(x, t.value), pos), false;
      }
      ExprTailEnd(lib, src, x, before);
      return Parsed(x, pos), true;
    }

    method ParseTerm() returns (r: Parse)
      requires Synced()
      modifies this
      ensures Synced() && old(pos) <= pos
      ensures r == Term(lib, src, old(pos))
      ensures r.Parsed? ==> pos == r.next
      decreases |src| - pos, 2
    {
      ghost var start := pos;
      r := ParseFactor();
      TermFirstFactor(lib, src, start, r);
      if r.Failed? {
        return;
      }
      var x := r.value;
      ghost var goal := Term(lib, src, start);
      while true
        invariant Synced() && start <= pos
        invariant TermTail(lib, src, x, pos) == goal
        decreases |src| - pos
      {
        var done;
        r, done := TermStep(x);
        if done {
          return;
        }
        x := r.value;
      }
    }

    /**
     * One round of the loop in `parseTerm`: `*` or `/` and the next factor
     * (`done` is false), or the end of the term (`done` is true).
     */
    method TermStep(x: real) returns (r: Parse, done: bool)
      requires Synced()
      modifies this
      ensures Synced() && old(pos) <= pos
      ensures r.Parsed? ==> pos == r.next
      ensures done ==> r == TermTail(lib, src, x, old(pos))
      ensures !done ==> r.Parsed? && old(pos) < pos && TermTail(lib, src, r.value, pos) == TermTail(lib, src, x, old(pos))
      decreases |src| - pos, 1
    {
      ghost var before := pos;
      var times := Eat('*');
      if times {
        var f := ParseFactor();
        TermTailMultiply(lib, src, x, before, f);
        if f.Failed? {
          return f, true;
        }
        return Parsed(lib.multiply(x, f.value), pos), false;
      }
      var slash := Eat('/');
      if slash {
        var f := ParseFactor();
        TermTailDivide(lib, src, x, before, f);
        if f.Failed? {
          return f, true;
        }
        return Parsed(lib.divide(x, f.value), pos), false;
      }
      TermTailEnd(lib, src, x, before);
      return Parsed(x, pos), true;
    }

    /** The loop `while (ch is a digit, '.' or ',') nextChar()` over a number literal. */
    method SkipNumber()
      requires Synced()
      modifies this
      ensures Synced() && pos == ScanNumber(src, old(pos))
    {
      while IsNumberCode(ch)
        invariant Synced() && old(pos) <= pos
        invariant ScanNumber(src, pos) == ScanNumber(src, old(pos))
        decreases |src| - pos
      {
        NextChar();
      }
    }

    method ParseFactor() returns (r: Parse)
      requires Synced()
      modifies this
      ensures Synced() && old(pos) <= pos
      ensures r == Factor(lib, src, old(pos))
      ensures r.Parsed? ==> pos == r.next
      decreases |src| - pos, 1
    {
      ghost var before := pos;
      var plus := Eat('+');
      if plus {
        r := ParseFactor();
        FactorPlus(lib, src, before, r);
        return;
      }
      var minus := Eat('-');
      if minus {
        r := ParseFactor();
        FactorMinus(lib, src, before, r);
        if r.Parsed? {
          r := Parsed(-r.value, r.next);
        }
        return;
      }
      r := ParseAtom();
      FactorAtom(lib, src, before, r);
      if r.Failed? {
        return;
      }
      r := ParsePowerAndPercent(r.value);
    }

    /** The end of `parseFactor`: the optional `^ factor`, then the optional `%`. */
    method ParsePowerAndPercent(x: real) returns (r: Parse)
      requires Synced()
      modifies this
      ensures Synced() && old(pos) <= pos
      ensures r == PowerAndPercent(lib, src, x, old(pos))
      ensures r.Parsed? ==> pos == r.next
      decreases |src| - pos, 0
    {
      var y := x;
      ghost var afterAtom := pos;
      var caret := Eat('^');
      if caret {
        var exponent := ParseFactor();
        PowerPresent(lib, src, x, afterAtom, exponent);
        if exponent.Failed? {
          return exponent;
        }
        y := lib.pow(x, exponent.value);
      } else {
        PowerAbsent(lib, src, x, afterAtom);
      }
      var percent := Eat('%');
      if percent {
        y := lib.divide(y, 100.0);
      }
      r := Parsed(y, pos);
    }

    /**
     * The middle of `parseFactor`, from `val startPos = pos` to the thrown
     * "Unexpected" error: a parenthesised expression or a number literal.
     */
    method ParseAtom() returns (r: Parse)
      requires Synced() && ch != ' ' as int
      modifies this
      ensures Synced() && old(pos) <= pos
      ensures r == Atom(lib, src, old(pos))
      ensures r.Parsed? ==> pos == r.next
      decreases |src| - pos, 0
    {
      var startPos := pos;
      var open := Eat('(');
      if open {
        var inner := ParseExpression();
        AtomGroup(lib, src, startPos, inner);
        if inner.Failed? {
          return inner;
        }
        var closed := Eat(')');
        r := Parsed(inner.value, pos);
      } else if IsNumberCode(ch) {
        SkipNumber();
        AtomNumber(lib, src, startPos);
        var literal := src[startPos..pos];
        match lib.toDouble(CommaToDot(literal))
        case None =>
          r := Failed(MalformedNumber(literal));
        case Some(x) =>
          r := Parsed(x, pos);
      } else {
        AtomUnexpected(lib, src, startPos);
        r := Failed(UnexpectedChar(pos));
      }
    }
  }
}
