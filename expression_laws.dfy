/**
 * What the evaluator accepts and rejects, and how it groups operators, stated
 * over expressions built from number literals. `a`, `b` and `c` are literals
 * (runs of digits, '.' and ',') that `toDouble` reads as `x`, `y` and `z`; the
 * operators are written with the glyphs the keypad puts into the expression
 * ('×' and '÷'), so each law goes through the rewriting step as well.
 */
module ExpressionLaws {
  import opened Wrappers
  import opened Numerics
  import opened ExpressionParser

  /** A number literal as the evaluator scans it. */
  predicate IsLiteral(a: string) {
    |a| > 0 && forall i :: 0 <= i < |a| ==> IsNumberChar(a[i])
  }

  /** `toDouble` reads the literal `a` (with ',' turned into '.') as `x`. */
  predicate Denotes(lib: Library, a: string, x: real) {
    IsLiteral(a) && lib.toDouble(CommaToDot(a)) == Some(x)
  }

  /** Position `n` is the end of the input or a character other than a blank and those in `ops`. */
  predicate StopsAt(s: string, n: nat, ops: string) {
    n <= |s| && (n == |s| || (s[n] != ' ' && s[n] !in ops))
  }

  /** A factor starts with a number character at `p`. */
  predicate DigitAt(s: string, p: nat) {
    p < |s| && IsNumberChar(s[p])
  }

  lemma {:induction false} ScanStops(s: string, p: nat, e: nat)
    requires p <= e <= |s|
    requires forall i :: p <= i < e ==> IsNumberChar(s[i])
    requires e == |s| || !IsNumberChar(s[e])
    ensures ScanNumber(s, p) == e
    decreases e - p
  {
    if p < e {
      ScanStops(s, p + 1, e);
    }
  }

  /** The literal `a` placed between `pre` and `post` is an atom worth its value. */
  lemma {:induction false} AtomAt(lib: Library, s: string, pre: string, a: string, post: string, x: real, p: nat, e: nat)
    requires Denotes(lib, a, x) && (post == [] || !IsNumberChar(post[0]))
    requires s == pre + a + post && p == |pre| && e == p + |a|
    ensures DigitAt(s, p) && Atom(lib, s, p) == Parsed(x, e)
  {
    assert s[p..e] == a;
    assert s[p] == a[0];
    forall i | p <= i < e
      ensures IsNumberChar(s[i])
    {
      assert s[i] == a[i - p];
    }
    ScanStops(s, p, e);
    AtomNumber(lib, s, p);
  }

  /** An atom followed by neither '^' nor '%' is a factor worth its value. */
  lemma {:induction false} FactorLiteral(lib: Library, s: string, p: nat, x: real, n: nat)
    requires DigitAt(s, p) && Atom(lib, s, p) == Parsed(x, n) && StopsAt(s, n, "^%")
    ensures Factor(lib, s, p) == Parsed(x, n)
  {
    FactorAtom(lib, s, p, Parsed(x, n));
    PowerAbsent(lib, s, x, n);
  }

  /** An atom followed by '%' is a factor worth a hundredth of its value. */
  lemma {:induction false} FactorPercentLiteral(lib: Library, s: string, p: nat, x: real, n: nat)
    requires DigitAt(s, p) && Atom(lib, s, p) == Parsed(x, n)
    requires n < |s| && s[n] == '%' && StopsAt(s, n + 1, "")
    ensures Factor(lib, s, p) == Parsed(lib.divide(x, 100.0), n + 1)
  {
    FactorAtom(lib, s, p, Parsed(x, n));
    PowerAbsent(lib, s, x, n);
  }

  /** An atom followed by '^' is raised to the whole factor that follows. */
  lemma {:induction false} FactorPowerLiteral(lib: Library, s: string, p: nat, x: real, n: nat, y: real, k: nat)
    requires DigitAt(s, p) && Atom(lib, s, p) == Parsed(x, n)
    requires n < |s| && s[n] == '^'
    requires Factor(lib, s, n + 1) == Parsed(y, k) && StopsAt(s, k, "%")
    ensures Factor(lib, s, p) == Parsed(lib.pow(x, y), k)
  {
    FactorAtom(lib, s, p, Parsed(x, n));
    PowerPresent(lib, s, x, n, Parsed(y, k));
  }

  lemma {:induction false} TermEnds(lib: Library, s: string, p: nat, x: real, n: nat)
    requires p <= |s| && Factor(lib, s, p) == Parsed(x, n) && StopsAt(s, n, "*/")
    ensures Term(lib, s, p) == Parsed(x, n)
  {
    TermFirstFactor(lib, s, p, Parsed(x, n));
    TermTailEnd(lib, s, x, n);
  }

  lemma {:induction false} ExpressionEnds(lib: Library, s: string, p: nat, x: real, n: nat)
    requires p <= |s| && Term(lib, s, p) == Parsed(x, n) && StopsAt(s, n, "+-")
    ensures Expression(lib, s, p) == Parsed(x, n)
  {
    ExpressionFirstTerm(lib, s, p, Parsed(x, n));
    ExprTailEnd(lib, s, x, n);
  }

  /** A lone literal followed by a character no rule continues with is a whole expression. */
  lemma {:induction false} ExpressionLiteral(lib: Library, s: string, p: nat, x: real, n: nat)
    requires DigitAt(s, p) && Atom(lib, s, p) == Parsed(x, n) && StopsAt(s, n, "^%*/+-")
    ensures Expression(lib, s, p) == Parsed(x, n)
  {
    FactorLiteral(lib, s, p, x, n);
    TermEnds(lib, s, p, x, n);
    ExpressionEnds(lib, s, p, x, n);
  }

  /** Two literal atoms joined by '+', stopping before a character that continues nothing. */
  lemma {:induction false} ExpressionSum(lib: Library, s: string, p: nat, x: real, m: nat, y: real, n: nat)
    requires DigitAt(s, p) && Atom(lib, s, p) == Parsed(x, m)
    requires m < |s| && s[m] == '+'
    requires DigitAt(s, m + 1) && Atom(lib, s, m + 1) == Parsed(y, n) && StopsAt(s, n, "^%*/+-")
    ensures Expression(lib, s, p) == Parsed(lib.add(x, y), n)
  {
    FactorLiteral(lib, s, p, x, m);
    TermEnds(lib, s, p, x, m);
    ExpressionFirstTerm(lib, s, p, Parsed(x, m));
    FactorLiteral(lib, s, m + 1, y, n);
    TermEnds(lib, s, m + 1, y, n);
    ExprTailAdd(lib, s, x, m, Parsed(y, n));
    ExprTailEnd(lib, s, lib.add(x, y), n);
  }

  /** An expression that consumes all of the rewritten text is the evaluation's value. */
  lemma {:induction false} EvaluateComplete(lib: Library, e: string, s: string, x: real)
    requires Sanitize(e) == s && Expression(lib, s, 0) == Parsed(x, |s|)
    ensures Evaluate(lib, e) == Success(x)
  {
  }

  lemma {:induction false} SanitizeAppend(u: string, v: string)
    ensures Sanitize(u + v) == Sanitize(u) + Sanitize(v)
  {
    assert Sanitize(u + v) == Sanitize(u) + Sanitize(v) by {
      forall i | 0 <= i < |u + v|
        ensures Sanitize(u + v)[i] == (Sanitize(u) + Sanitize(v))[i]
      {
        if i < |u| {
          assert (u + v)[i] == u[i];
        } else {
          assert (u + v)[i] == v[i - |u|];
        }
      }
    }
  }

  lemma {:induction false} SanitizeLiteral(a: string)
    requires IsLiteral(a)
    ensures Sanitize(a) == a
  {
  }

  lemma {:induction false} SanitizeGlyph(c: char)
    ensures Sanitize([c]) == [Canonical(c)]
  {
  }

  /** A literal on its own evaluates to its value. */
  lemma {:induction false} EvaluateLiteral(lib: Library, a: string, x: real)
    requires Denotes(lib, a, x)
    ensures Evaluate(lib, a) == Success(x)
  {
    SanitizeLiteral(a);
    NoText(a);
    AtomAt(lib, a, [], a, [], x, 0, |a|);
    ExpressionLiteral(lib, a, 0, x, |a|);
    EvaluateComplete(lib, a, a, x);
  }

  /** A literal `toDouble` rejects makes the evaluation fail, naming the literal. */
  lemma {:induction false} EvaluateMalformedLiteral(lib: Library, a: string)
    requires IsLiteral(a) && lib.toDouble(CommaToDot(a)) == None
    ensures Evaluate(lib, a) == Failure(MalformedNumber(a))
  {
    SanitizeLiteral(a);
    assert a[0..|a|] == a;
    ScanStops(a, 0, |a|);
    AtomNumber(lib, a, 0);
    FactorAtom(lib, a, 0, Failed(MalformedNumber(a)));
    TermFirstFactor(lib, a, 0, Failed(MalformedNumber(a)));
    ExpressionFirstTerm(lib, a, 0, Failed(MalformedNumber(a)));
  }

  lemma {:induction false} ProductAfterSum(lib: Library, s: string, x: real, m: nat, y: real, k: nat, z: real)
    requires DigitAt(s, 0) && Atom(lib, s, 0) == Parsed(x, m)
    requires m < |s| && s[m] == '+'
    requires DigitAt(s, m + 1) && Atom(lib, s, m + 1) == Parsed(y, k)
    requires k < |s| && s[k] == '*'
    requires DigitAt(s, k + 1) && Atom(lib, s, k + 1) == Parsed(z, |s|)
    ensures Expression(lib, s, 0) == Parsed(lib.add(x, lib.multiply(y, z)), |s|)
  {
    FactorLiteral(lib, s, 0, x, m);
    TermEnds(lib, s, 0, x, m);
    ExpressionFirstTerm(lib, s, 0, Parsed(x, m));
    FactorLiteral(lib, s, m + 1, y, k);
    FactorLiteral(lib, s, k + 1, z, |s|);
    TermFirstFactor(lib, s, m + 1, Parsed(y, k));
    TermTailMultiply(lib, s, y, k, Parsed(z, |s|));
    TermTailEnd(lib, s, lib.multiply(y, z), |s|);
    ExprTailAdd(lib, s, x, m, Parsed(lib.multiply(y, z), |s|));
    ExprTailEnd(lib, s, lib.add(x, lib.multiply(y, z)), |s|);
  }

  /** '×' binds tighter than '+': `a + b × c` adds `x` to the product of `y` and `z`. */
  lemma {:induction false} ProductBindsTighter(lib: Library, a: string, x: real, b: string, y: real, c: string, z: real)
    requires Denotes(lib, a, x) && Denotes(lib, b, y) && Denotes(lib, c, z)
    ensures Evaluate(lib, a + "+" + b + "×" + c) == Success(lib.add(x, lib.multiply(y, z)))
  {
    var s := a + "+" + b + "*" + c;
    SanitizeThree(a, '+', b, '×', c);
    AtomsOfThree(lib, a, x, '+', b, y, '*', c, z);
    ProductAfterSum(lib, s, x, |a|, y, |a| + 1 + |b|, z);
    EvaluateComplete(lib, a + "+" + b + "×" + c, s, lib.add(x, lib.multiply(y, z)));
  }

  /** The three literal atoms of `a o1 b o2 c`, and where the operators sit. */
  lemma {:induction false} AtomsOfThree(lib: Library, a: string, x: real, o1: char, b: string, y: real, o2: char, c: string, z: real)
    requires Denotes(lib, a, x) && Denotes(lib, b, y) && Denotes(lib, c, z)
    requires !IsNumberChar(o1) && !IsNumberChar(o2)
    ensures var s := a + [o1] + b + [o2] + c;
            var m, k := |a|, |a| + 1 + |b|;
            k + 1 < |s| && s[m] == o1 && s[k] == o2 &&
            DigitAt(s, 0) && Atom(lib, s, 0) == Parsed(x, m) &&
            DigitAt(s, m + 1) && Atom(lib, s, m + 1) == Parsed(y, k) &&
            DigitAt(s, k + 1) && Atom(lib, s, k + 1) == Parsed(z, |s|)
  {
    var s := a + [o1] + b + [o2] + c;
    assert s == [] + a + ([o1] + b + [o2] + c);
    assert s == a + [o1] + b + ([o2] + c);
    assert s == s + [];
    AtomAt(lib, s, [], a, [o1] + b + [o2] + c, x, 0, |a|);
    AtomAt(lib, s, a + [o1], b, [o2] + c, y, |a| + 1, |a| + 1 + |b|);
    AtomAt(lib, s, a + [o1] + b + [o2], c, [], z, |a| + 1 + |b| + 1, |s|);
  }

  /** The empty text is a unit of concatenation. */
  lemma {:induction false} NoText(u: string)
    ensures [] + u == u && u + [] == u
  {
  }

  lemma {:induction false} AppendAssociates(u: string, v: string, w: string)
    ensures u + v + w == u + (v + w)
  {
  }

  /** The two literal atoms of `pre a mid b post`. */
  lemma {:induction false} AtomsOfTwo(lib: Library, s: string, pre: string, a: string, x: real, mid: string, b: string, y: real, post: string,
                                      p: nat, m: nat, k: nat, n: nat)
    requires Denotes(lib, a, x) && Denotes(lib, b, y)
    requires |mid| > 0 && !IsNumberChar(mid[0]) && (post == [] || !IsNumberChar(post[0]))
    requires s == pre + a + mid + b + post
    requires p == |pre| && m == p + |a| && k == m + |mid| && n == k + |b|
    ensures |s| == n + |post|
    ensures DigitAt(s, p) && Atom(lib, s, p) == Parsed(x, m)
    ensures DigitAt(s, k) && Atom(lib, s, k) == Parsed(y, n)
  {
    AppendAssociates(pre + a, mid, b);
    AppendAssociates(pre + a, mid + b, post);
    AtomAt(lib, s, pre, a, mid + b + post, x, p, m);
    AtomAt(lib, s, pre + a + mid, b, post, y, k, n);
  }

  /** Rewriting the glyphs between and around two literals leaves the literals alone. */
  lemma {:induction false} SanitizeAroundTwo(pre: string, a: string, mid: string, b: string, post: string)
    requires IsLiteral(a) && IsLiteral(b)
    ensures Sanitize(pre + a + mid + b + post) == Sanitize(pre) + a + Sanitize(mid) + b + Sanitize(post)
  {
    SanitizeLiteral(a);
    SanitizeLiteral(b);
    SanitizeAppend(pre, a);
    SanitizeAppend(pre + a, mid);
    SanitizeAppend(pre + a + mid, b);
    SanitizeAppend(pre + a + mid + b, post);
  }

  /** Rewriting three literals joined by two operator glyphs touches only the glyphs. */
  lemma {:induction false} SanitizeThree(a: string, o1: char, b: string, o2: char, c: string)
    requires IsLiteral(a) && IsLiteral(b) && IsLiteral(c)
    ensures Sanitize(a + [o1] + b + [o2] + c) == a + [Canonical(o1)] + b + [Canonical(o2)] + c
  {
    SanitizeLiteral(a);
    SanitizeLiteral(b);
    SanitizeLiteral(c);
    SanitizeGlyph(o1);
    SanitizeGlyph(o2);
    SanitizeAppend(a, [o1]);
    SanitizeAppend(a + [o1], b);
    SanitizeAppend(a + [o1] + b, [o2]);
    SanitizeAppend(a + [o1] + b + [o2], c);
  }

  lemma {:induction false} DifferenceChain(lib: Library, s: string, x: real, m: nat, y: real, k: nat, z: real)
    requires DigitAt(s, 0) && Atom(lib, s, 0) == Parsed(x, m)
    requires m < |s| && s[m] == '-'
    requires DigitAt(s, m + 1) && Atom(lib, s, m + 1) == Parsed(y, k)
    requires k < |s| && s[k] == '-'
    requires DigitAt(s, k + 1) && Atom(lib, s, k + 1) == Parsed(z, |s|)
    ensures Expression(lib, s, 0) == Parsed(lib.subtract(lib.subtract(x, y), z), |s|)
  {
    FactorLiteral(lib, s, 0, x, m);
    TermEnds(lib, s, 0, x, m);
    ExpressionFirstTerm(lib, s, 0, Parsed(x, m));
    FactorLiteral(lib, s, m + 1, y, k);
    TermEnds(lib, s, m + 1, y, k);
    ExprTailSubtract(lib, s, x, m, Parsed(y, k));
    FactorLiteral(lib, s, k + 1, z, |s|);
    TermEnds(lib, s, k + 1, z, |s|);
    ExprTailSubtract(lib, s, lib.subtract(x, y), k, Parsed(z, |s|));
    ExprTailEnd(lib, s, lib.subtract(lib.subtract(x, y), z), |s|);
  }

  /** '-' groups to the left: `a - b - c` subtracts `y` from `x`, then `z`. */
  lemma {:induction false} SubtractionGroupsLeft(lib: Library, a: string, x: real, b: string, y: real, c: string, z: real)
    requires Denotes(lib, a, x) && Denotes(lib, b, y) && Denotes(lib, c, z)
    ensures Evaluate(lib, a + "-" + b + "-" + c) == Success(lib.subtract(lib.subtract(x, y), z))
  {
    var s := a + "-" + b + "-" + c;
    SanitizeThree(a, '-', b, '-', c);
    AtomsOfThree(lib, a, x, '-', b, y, '-', c, z);
    DifferenceChain(lib, s, x, |a|, y, |a| + 1 + |b|, z);
    EvaluateComplete(lib, s, s, lib.subtract(lib.subtract(x, y), z));
  }

  lemma {:induction false} QuotientChain(lib: Library, s: string, x: real, m: nat, y: real, k: nat, z: real)
    requires DigitAt(s, 0) && Atom(lib, s, 0) == Parsed(x, m)
    requires m < |s| && s[m] == '/'
    requires DigitAt(s, m + 1) && Atom(lib, s, m + 1) == Parsed(y, k)
    requires k < |s| && s[k] == '/'
    requires DigitAt(s, k + 1) && Atom(lib, s, k + 1) == Parsed(z, |s|)
    ensures Expression(lib, s, 0) == Parsed(lib.divide(lib.divide(x, y), z), |s|)
  {
    FactorLiteral(lib, s, 0, x, m);
    FactorLiteral(lib, s, m + 1, y, k);
    FactorLiteral(lib, s, k + 1, z, |s|);
    TermFirstFactor(lib, s, 0, Parsed(x, m));
    TermTailDivide(lib, s, x, m, Parsed(y, k));
    TermTailDivide(lib, s, lib.divide(x, y), k, Parsed(z, |s|));
    TermTailEnd(lib, s, lib.divide(lib.divide(x, y), z), |s|);
    ExpressionEnds(lib, s, 0, lib.divide(lib.divide(x, y), z), |s|);
  }

  /** '÷' groups to the left: `a ÷ b ÷ c` divides `x` by `y`, then the quotient by `z`. */
  lemma {:induction false} DivisionGroupsLeft(lib: Library, a: string, x: real, b: string, y: real, c: string, z: real)
    requires Denotes(lib, a, x) && Denotes(lib, b, y) && Denotes(lib, c, z)
    ensures Evaluate(lib, a + "÷" + b + "÷" + c) == Success(lib.divide(lib.divide(x, y), z))
  {
    var s := a + "/" + b + "/" + c;
    SanitizeThree(a, '÷', b, '÷', c);
    AtomsOfThree(lib, a, x, '/', b, y, '/', c, z);
    QuotientChain(lib, s, x, |a|, y, |a| + 1 + |b|, z);
    EvaluateComplete(lib, a + "÷" + b + "÷" + c, s, lib.divide(lib.divide(x, y), z));
  }

  lemma {:induction false} PowerChain(lib: Library, s: string, x: real, m: nat, y: real, k: nat, z: real)
    requires DigitAt(s, 0) && Atom(lib, s, 0) == Parsed(x, m)
    requires m < |s| && s[m] == '^'
    requires DigitAt(s, m + 1) && Atom(lib, s, m + 1) == Parsed(y, k)
    requires k < |s| && s[k] == '^'
    requires DigitAt(s, k + 1) && Atom(lib, s, k + 1) == Parsed(z, |s|)
    ensures Expression(lib, s, 0) == Parsed(lib.pow(x, lib.pow(y, z)), |s|)
  {
    FactorLiteral(lib, s, k + 1, z, |s|);
    FactorPowerLiteral(lib, s, m + 1, y, k, z, |s|);
    FactorPowerLiteral(lib, s, 0, x, m, lib.pow(y, z), |s|);
    TermEnds(lib, s, 0, lib.pow(x, lib.pow(y, z)), |s|);
    ExpressionEnds(lib, s, 0, lib.pow(x, lib.pow(y, z)), |s|);
  }

  /** The right operand of '^' is a whole factor, so `a ^ b ^ c` is `x ^ (y ^ z)`. */
  lemma {:induction false} PowerGroupsRight(lib: Library, a: string, x: real, b: string, y: real, c: string, z: real)
    requires Denotes(lib, a, x) && Denotes(lib, b, y) && Denotes(lib, c, z)
    ensures Evaluate(lib, a + "^" + b + "^" + c) == Success(lib.pow(x, lib.pow(y, z)))
  {
    var s := a + "^" + b + "^" + c;
    SanitizeThree(a, '^', b, '^', c);
    AtomsOfThree(lib, a, x, '^', b, y, '^', c, z);
    PowerChain(lib, s, x, |a|, y, |a| + 1 + |b|, z);
    EvaluateComplete(lib, s, s, lib.pow(x, lib.pow(y, z)));
  }

  /** A trailing '%' divides by a hundred. */
  lemma {:induction false} PercentDividesByHundred(lib: Library, a: string, x: real)
    requires Denotes(lib, a, x)
    ensures Evaluate(lib, a + "%") == Success(lib.divide(x, 100.0))
  {
    var s := a + "%";
    SanitizeLiteral(a);
    SanitizeGlyph('%');
    SanitizeAppend(a, "%");
    NoText(a);
    AtomAt(lib, s, [], a, "%", x, 0, |a|);
    FactorPercentLiteral(lib, s, 0, x, |a|);
    TermEnds(lib, s, 0, lib.divide(x, 100.0), |s|);
    ExpressionEnds(lib, s, 0, lib.divide(x, 100.0), |s|);
    EvaluateComplete(lib, s, s, lib.divide(x, 100.0));
  }

  lemma {:induction false} PercentExponentChain(lib: Library, s: string, x: real, m: nat, y: real)
    requires DigitAt(s, 0) && Atom(lib, s, 0) == Parsed(x, m)
    requires m + 1 < |s| && s[m] == '^' && s[|s| - 1] == '%'
    requires DigitAt(s, m + 1) && Atom(lib, s, m + 1) == Parsed(y, |s| - 1)
    ensures Expression(lib, s, 0) == Parsed(lib.pow(x, lib.divide(y, 100.0)), |s|)
  {
    FactorPercentLiteral(lib, s, m + 1, y, |s| - 1);
    FactorPowerLiteral(lib, s, 0, x, m, lib.divide(y, 100.0), |s|);
    TermEnds(lib, s, 0, lib.pow(x, lib.divide(y, 100.0)), |s|);
    ExpressionEnds(lib, s, 0, lib.pow(x, lib.divide(y, 100.0)), |s|);
  }

  lemma {:induction false} SanitizePercentExponent(a: string, b: string)
    requires IsLiteral(a) && IsLiteral(b)
    ensures Sanitize(a + "^" + b + "%") == a + "^" + b + "%"
  {
    SanitizeAroundTwo([], a, "^", b, "%");
    SanitizeGlyph('^');
    SanitizeGlyph('%');
    assert Sanitize([]) == [];
    assert [] + a + "^" + b + "%" == a + "^" + b + "%";
  }

  lemma {:induction false} PercentExponent(lib: Library, a: string, x: real, b: string, y: real)
    requires Denotes(lib, a, x) && Denotes(lib, b, y)
    ensures Expression(lib, a + "^" + b + "%", 0) == Parsed(lib.pow(x, lib.divide(y, 100.0)), |a| + |b| + 2)
  {
    var s := a + "^" + b + "%";
    assert s[|a|] == '^' && s[|s| - 1] == '%';
    NoText(a);
    AtomsOfTwo(lib, s, [], a, x, "^", b, y, "%", 0, |a|, |a| + 1, |a| + 1 + |b|);
    PercentExponentChain(lib, s, x, |a|, y);
  }

  /** In `a ^ b %` the '%' belongs to the exponent: the result is `x ^ (y / 100)`. */
  lemma {:induction false} PercentBindsToExponent(lib: Library, a: string, x: real, b: string, y: real)
    requires Denotes(lib, a, x) && Denotes(lib, b, y)
    ensures Evaluate(lib, a + "^" + b + "%") == Success(lib.pow(x, lib.divide(y, 100.0)))
  {
    SanitizePercentExponent(a, b);
    PercentExponent(lib, a, x, b, y);
    EvaluateComplete(lib, a + "^" + b + "%", a + "^" + b + "%", lib.pow(x, lib.divide(y, 100.0)));
  }

  /** A leading '-' negates the factor after it. */
  lemma {:induction false} UnaryMinus(lib: Library, a: string, x: real)
    requires Denotes(lib, a, x)
    ensures Evaluate(lib, "-" + a) == Success(-x)
  {
    var s := "-" + a;
    SanitizeLiteral(a);
    SanitizeGlyph('-');
    SanitizeAppend("-", a);
    NoText(s);
    AtomAt(lib, s, "-", a, [], x, 1, |s|);
    FactorLiteral(lib, s, 1, x, |s|);
    FactorMinus(lib, s, 0, Parsed(x, |s|));
    TermEnds(lib, s, 0, -x, |s|);
    ExpressionEnds(lib, s, 0, -x, |s|);
    EvaluateComplete(lib, s, s, -x);
  }

  lemma {:induction false} NegatedFactorChain(lib: Library, s: string, x: real, m: nat, y: real)
    requires DigitAt(s, 0) && Atom(lib, s, 0) == Parsed(x, m)
    requires m + 1 < |s| && s[m] == '*' && s[m + 1] == '-'
    requires DigitAt(s, m + 2) && Atom(lib, s, m + 2) == Parsed(y, |s|)
    ensures Expression(lib, s, 0) == Parsed(lib.multiply(x, -y), |s|)
  {
    FactorLiteral(lib, s, 0, x, m);
    FactorLiteral(lib, s, m + 2, y, |s|);
    FactorMinus(lib, s, m + 1, Parsed(y, |s|));
    TermFirstFactor(lib, s, 0, Parsed(x, m));
    TermTailMultiply(lib, s, x, m, Parsed(-y, |s|));
    TermTailEnd(lib, s, lib.multiply(x, -y), |s|);
    ExpressionEnds(lib, s, 0, lib.multiply(x, -y), |s|);
  }

  lemma {:induction false} SanitizeSigned(a: string, b: string)
    requires IsLiteral(a) && IsLiteral(b)
    ensures Sanitize(a + "×-" + b) == a + "*-" + b
  {
    SanitizeAroundTwo([], a, "×-", b, []);
    SanitizeGlyph('×');
    SanitizeGlyph('-');
    SanitizeAppend("×", "-");
    assert Sanitize([]) == [];
    assert [] + a + "×-" + b + [] == a + "×-" + b;
  }

  lemma {:induction false} SignedProduct(lib: Library, a: string, x: real, b: string, y: real)
    requires Denotes(lib, a, x) && Denotes(lib, b, y)
    ensures Expression(lib, a + "*-" + b, 0) == Parsed(lib.multiply(x, -y), |a| + 2 + |b|)
  {
    var s := a + "*-" + b;
    assert s[|a|] == '*' && s[|a| + 1] == '-';
    NoText(a);
    NoText(s);
    AtomsOfTwo(lib, s, [], a, x, "*-", b, y, [], 0, |a|, |a| + 2, |s|);
    NegatedFactorChain(lib, s, x, |a|, y);
  }

  /** A sign after an operator is read as part of the next factor: `a × -b` multiplies `x` by `-y`. */
  lemma {:induction false} SignAfterOperator(lib: Library, a: string, x: real, b: string, y: real)
    requires Denotes(lib, a, x) && Denotes(lib, b, y)
    ensures Evaluate(lib, a + "×-" + b) == Success(lib.multiply(x, -y))
  {
    SanitizeSigned(a, b);
    SignedProduct(lib, a, x, b, y);
    EvaluateComplete(lib, a + "×-" + b, a + "*-" + b, lib.multiply(x, -y));
  }

  /** A parenthesised sum of two literal atoms, closed by ')', is a factor. */
  lemma {:induction false} GroupFactor(lib: Library, s: string, x: real, m: nat, y: real, k: nat)
    requires 0 < |s| && s[0] == '('
    requires DigitAt(s, 1) && Atom(lib, s, 1) == Parsed(x, m)
    requires m < |s| && s[m] == '+'
    requires DigitAt(s, m + 1) && Atom(lib, s, m + 1) == Parsed(y, k)
    requires k < |s| && s[k] == ')' && StopsAt(s, k + 1, "^%")
    ensures Factor(lib, s, 0) == Parsed(lib.add(x, y), k + 1)
  {
    ExpressionSum(lib, s, 1, x, m, y, k);
    AtomGroup(lib, s, 0, Parsed(lib.add(x, y), k));
    FactorAtom(lib, s, 0, Parsed(lib.add(x, y), k + 1));
    PowerAbsent(lib, s, lib.add(x, y), k + 1);
  }

  lemma {:induction false} GroupChain(lib: Library, s: string, x: real, m: nat, y: real, k: nat, z: real)
    requires 0 < |s| && s[0] == '('
    requires DigitAt(s, 1) && Atom(lib, s, 1) == Parsed(x, m)
    requires m < |s| && s[m] == '+'
    requires DigitAt(s, m + 1) && Atom(lib, s, m + 1) == Parsed(y, k)
    requires k + 1 < |s| && s[k] == ')' && s[k + 1] == '*'
    requires DigitAt(s, k + 2) && Atom(lib, s, k + 2) == Parsed(z, |s|)
    ensures Expression(lib, s, 0) == Parsed(lib.multiply(lib.add(x, y), z), |s|)
  {
    GroupFactor(lib, s, x, m, y, k);
    FactorLiteral(lib, s, k + 2, z, |s|);
    TermFirstFactor(lib, s, 0, Parsed(lib.add(x, y), k + 1));
    TermTailMultiply(lib, s, lib.add(x, y), k + 1, Parsed(z, |s|));
    TermTailEnd(lib, s, lib.multiply(lib.add(x, y), z), |s|);
    ExpressionEnds(lib, s, 0, lib.multiply(lib.add(x, y), z), |s|);
  }

  lemma {:induction false} GroupGlyphs(a: string, b: string, c: string)
    ensures var s := "(" + a + "+" + b + ")*" + c;
            var m, k := 1 + |a|, 1 + |a| + 1 + |b|;
            k + 1 < |s| && s[0] == '(' && s[m] == '+' && s[k] == ')' && s[k + 1] == '*'
  {
  }

  lemma {:induction false} GroupedProduct(lib: Library, a: string, x: real, b: string, y: real, c: string, z: real)
    requires Denotes(lib, a, x) && Denotes(lib, b, y) && Denotes(lib, c, z)
    ensures var s := "(" + a + "+" + b + ")*" + c;
            Expression(lib, s, 0) == Parsed(lib.multiply(lib.add(x, y), z), |s|)
  {
    GroupGlyphs(a, b, c);
    AtomsOfGroup(lib, a, x, b, y, c, z);
    GroupChain(lib, "(" + a + "+" + b + ")*" + c, x, 1 + |a|, y, 1 + |a| + 1 + |b|, z);
  }

  lemma {:induction false} AtomsOfGroup(lib: Library, a: string, x: real, b: string, y: real, c: string, z: real)
    requires Denotes(lib, a, x) && Denotes(lib, b, y) && Denotes(lib, c, z)
    ensures var s := "(" + a + "+" + b + ")*" + c;
            var m, k := 1 + |a|, 1 + |a| + 1 + |b|;
            DigitAt(s, 1) && Atom(lib, s, 1) == Parsed(x, m) &&
            DigitAt(s, m + 1) && Atom(lib, s, m + 1) == Parsed(y, k) &&
            DigitAt(s, k + 2) && Atom(lib, s, k + 2) == Parsed(z, |s|)
  {
    var s := "(" + a + "+" + b + ")*" + c;
    AppendAssociates("(" + a + "+" + b, ")*", c);
    NoText(s);
    AtomsOfTwo(lib, s, "(", a, x, "+", b, y, ")*" + c, 1, 1 + |a|, 1 + |a| + 1, 1 + |a| + 1 + |b|);
    AtomAt(lib, s, "(" + a + "+" + b + ")*", c, [], z, 1 + |a| + 1 + |b| + 2, |s|);
  }

  lemma {:induction false} SanitizeGroup(a: string, b: string, c: string)
    requires IsLiteral(a) && IsLiteral(b) && IsLiteral(c)
    ensures Sanitize("(" + a + "+" + b + ")×" + c) == "(" + a + "+" + b + ")*" + c
  {
    SanitizeLiteral(a);
    SanitizeLiteral(b);
    SanitizeLiteral(c);
    SanitizeAppend("(", a);
    SanitizeAppend("(" + a, "+");
    SanitizeAppend("(" + a + "+", b);
    SanitizeAppend("(" + a + "+" + b, ")×");
    SanitizeAppend("(" + a + "+" + b + ")×", c);
    SanitizeAppend(")", "×");
    SanitizeGlyph('(');
    SanitizeGlyph('+');
    SanitizeGlyph(')');
    SanitizeGlyph('×');
  }

  /** Parentheses group: `(a + b) × c` multiplies the sum of `x` and `y` by `z`. */
  lemma {:induction false} ParenthesesGroup(lib: Library, a: string, x: real, b: string, y: real, c: string, z: real)
    requires Denotes(lib, a, x) && Denotes(lib, b, y) && Denotes(lib, c, z)
    ensures Evaluate(lib, "(" + a + "+" + b + ")×" + c) == Success(lib.multiply(lib.add(x, y), z))
  {
    SanitizeGroup(a, b, c);
    GroupedProduct(lib, a, x, b, y, c, z);
    EvaluateComplete(lib, "(" + a + "+" + b + ")×" + c, "(" + a + "+" + b + ")*" + c, lib.multiply(lib.add(x, y), z));
  }

  lemma {:induction false} OpenGroupChain(lib: Library, s: string, x: real, m: nat, y: real)
    requires 0 < |s| && s[0] == '('
    requires DigitAt(s, 1) && Atom(lib, s, 1) == Parsed(x, m)
    requires m < |s| && s[m] == '+'
    requires DigitAt(s, m + 1) && Atom(lib, s, m + 1) == Parsed(y, |s|)
    ensures Expression(lib, s, 0) == Parsed(lib.add(x, y), |s|)
  {
    ExpressionSum(lib, s, 1, x, m, y, |s|);
    AtomGroup(lib, s, 0, Parsed(lib.add(x, y), |s|));
    FactorAtom(lib, s, 0, Parsed(lib.add(x, y), |s|));
    PowerAbsent(lib, s, lib.add(x, y), |s|);
    TermEnds(lib, s, 0, lib.add(x, y), |s|);
    ExpressionEnds(lib, s, 0, lib.add(x, y), |s|);
  }

  lemma {:induction false} SanitizeOpenSum(a: string, b: string)
    requires IsLiteral(a) && IsLiteral(b)
    ensures Sanitize("(" + a + "+" + b) == "(" + a + "+" + b
  {
    SanitizeAroundTwo("(", a, "+", b, []);
    SanitizeGlyph('(');
    SanitizeGlyph('+');
    assert Sanitize([]) == [];
    NoText("(" + a + "+" + b);
  }

  lemma {:induction false} OpenSum(lib: Library, a: string, x: real, b: string, y: real)
    requires Denotes(lib, a, x) && Denotes(lib, b, y)
    ensures Expression(lib, "(" + a + "+" + b, 0) == Parsed(lib.add(x, y), |a| + |b| + 2)
  {
    var s := "(" + a + "+" + b;
    assert s[0] == '(' && s[1 + |a|] == '+';
    NoText(s);
    AtomsOfTwo(lib, s, "(", a, x, "+", b, y, [], 1, 1 + |a|, 1 + |a| + 1, |s|);
    OpenGroupChain(lib, s, x, 1 + |a|, y);
  }

  /** A ')' missing at the end is not an error: `(a + b` is the sum of `x` and `y`. */
  lemma {:induction false} MissingCloseAccepted(lib: Library, a: string, x: real, b: string, y: real)
    requires Denotes(lib, a, x) && Denotes(lib, b, y)
    ensures Evaluate(lib, "(" + a + "+" + b) == Success(lib.add(x, y))
  {
    SanitizeOpenSum(a, b);
    OpenSum(lib, a, x, b, y);
    EvaluateComplete(lib, "(" + a + "+" + b, "(" + a + "+" + b, lib.add(x, y));
  }

  /** Input left over after the expression is rejected where it starts: `a)` fails at the ')'. */
  lemma {:induction false} TrailingInputRejected(lib: Library, a: string, x: real)
    requires Denotes(lib, a, x)
    ensures Evaluate(lib, a + ")") == Failure(TrailingInput(|a|))
  {
    var s := a + ")";
    SanitizeLiteral(a);
    SanitizeGlyph(')');
    SanitizeAppend(a, ")");
    NoText(a);
    AtomAt(lib, s, [], a, ")", x, 0, |a|);
    ExpressionLiteral(lib, s, 0, x, |a|);
  }

  /**
   * Any expression that ends in a binary operator fails: no rule of the
   * grammar stops right after an operator, so the parse cannot reach the end.
   */
  lemma {:induction false} TrailingOperatorRejected(lib: Library, e: string, op: char)
    requires op in "+-×÷^*/"
    ensures Evaluate(lib, e + [op]).Failure?
  {
    var s := Sanitize(e + [op]);
    assert IsOperatorChar(s[|s| - 1]);
    ExpressionEndsClean(lib, s, 0);
  }

  /** After a literal, a '+' with nothing after it fails exactly where the missing factor should start. */
  lemma {:induction false} DanglingOperatorRejected(lib: Library, a: string, x: real)
    requires Denotes(lib, a, x)
    ensures Evaluate(lib, a + "+") == Failure(UnexpectedChar(|a| + 1))
  {
    var s := a + "+";
    SanitizeLiteral(a);
    SanitizeGlyph('+');
    SanitizeAppend(a, "+");
    NoText(a);
    AtomAt(lib, s, [], a, "+", x, 0, |a|);
    var m := |a|;
    FactorLiteral(lib, s, 0, x, m);
    TermEnds(lib, s, 0, x, m);
    ExpressionFirstTerm(lib, s, 0, Parsed(x, m));
    AtomUnexpected(lib, s, |s|);
    FactorAtom(lib, s, |s|, Failed(UnexpectedChar(|s|)));
    TermFirstFactor(lib, s, |s|, Failed(UnexpectedChar(|s|)));
    ExprTailAdd(lib, s, x, m, Failed(UnexpectedChar(|s|)));
  }

  /** An empty expression fails at position 0. */
  lemma {:induction false} EmptyRejected(lib: Library)
    ensures Evaluate(lib, "") == Failure(UnexpectedChar(0))
  {
    AtomUnexpected(lib, "", 0);
    FactorAtom(lib, "", 0, Failed(UnexpectedChar(0)));
    TermFirstFactor(lib, "", 0, Failed(UnexpectedChar(0)));
    ExpressionFirstTerm(lib, "", 0, Failed(UnexpectedChar(0)));
  }
}
