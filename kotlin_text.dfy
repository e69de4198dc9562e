/**
 * The two Kotlin standard-library conversions between `Int` and text that the
 * calculator relies on: `Int.toString()` (a digit key's number becomes
 * expression text) and `String.toIntOrNull()` (a key label becomes a digit
 * action). Both are written out here because the keypad decoder's behaviour
 * depends on exactly which labels they accept.
 */
module KotlinText {
  import opened Wrappers

  const INT_MIN: int := -0x8000_0000
  const INT_MAX: int := 0x7fff_ffff

  /** Kotlin's 32-bit `Int`. */
  type Int32 = x: int | INT_MIN <= x <= INT_MAX

  predicate IsDigit(c: char) {
    '0' <= c <= '9'
  }

  predicate AllDigits(s: string) {
    forall i :: 0 <= i < |s| ==> IsDigit(s[i])
  }

  function DigitChar(d: nat): (c: char)
    requires d < 10
    ensures IsDigit(c) && c as int - '0' as int == d
  {
    ('0' as int + d) as char
  }

  function DigitValue(c: char): (d: nat)
    requires IsDigit(c)
    ensures d < 10 && DigitChar(d) == c
  {
    c as int - '0' as int
  }

  /** A run of decimal digits without a superfluous leading zero. */
  predicate CanonicalDigits(s: string) {
    |s| > 0 && AllDigits(s) && (s[0] != '0' || |s| == 1)
  }

  /** The text `Int.toString()` produces: canonical digits, with a '-' for a negative value. */
  predicate IsCanonicalInt(s: string) {
    CanonicalDigits(s) || (|s| > 1 && s[0] == '-' && CanonicalDigits(s[1..]) && s[1..] != "0")
  }

  /** Decimal digits of n, most significant first. */
  function NatToString(n: nat): (r: string)
    ensures CanonicalDigits(r)
    ensures r == "0" <==> n == 0
    decreases n
  {
    if n < 10 then [DigitChar(n)] else NatToString(n / 10) + [DigitChar(n % 10)]
  }

  /** `Int.toString()`. */
  function IntToString(n: int): (r: string)
    ensures IsCanonicalInt(r)
    ensures (r[0] == '-') <==> n < 0
  {
    if n < 0 then
      var digits := NatToString(-n);
      assert ("-" + digits)[1..] == digits;
      "-" + digits
    else NatToString(n)
  }

  /** The number a run of decimal digits denotes. */
  function DigitsValue(s: string): nat
    requires AllDigits(s)
  {
    if s == [] then 0 else DigitsValue(s[..|s| - 1]) * 10 + DigitValue(s[|s| - 1])
  }

  /**
   * `String.toIntOrNull()` in radix 10: an optional leading '-' or '+', then
   * at least one digit, and the value must fit in an `Int`.
   */
  function ParseInt(s: string): (r: Option<Int32>)
    ensures r.Some? ==> |s| > 0 && AllDigits(s[1..])
    ensures r.Some? ==> IsDigit(s[0]) || (|s| > 1 && (s[0] == '-' || s[0] == '+'))
    ensures r.Some? && r.value < 0 ==> s[0] == '-'
  {
    if |s| == 0 then None
    else
      var negative := s[0] == '-';
      var digits := if s[0] == '-' || s[0] == '+' then s[1..] else s;
      if |digits| == 0 || !AllDigits(digits) then None
      else
        var magnitude: int := DigitsValue(digits);
        var v := if negative then -magnitude else magnitude;
        if INT_MIN <= v <= INT_MAX then Some(v) else None
  }

  lemma {:induction false} DigitsValueOfNatToString(n: nat)
    ensures DigitsValue(NatToString(n)) == n
  {
    if n >= 10 {
      var s := NatToString(n);
      assert s[..|s| - 1] == NatToString(n / 10);
      DigitsValueOfNatToString(n / 10);
    }
  }

  lemma {:induction false} LeadingDigitBoundsValue(s: string)
    requires CanonicalDigits(s) && s != "0"
    ensures DigitsValue(s) > 0
  {
    if |s| > 1 {
      var t := s[..|s| - 1];
      assert t[0] == s[0];
      LeadingDigitBoundsValue(t);
    }
  }

  lemma {:induction false} NatToStringOfDigits(s: string)
    requires CanonicalDigits(s)
    ensures NatToString(DigitsValue(s)) == s
  {
    if |s| > 1 {
      var t := s[..|s| - 1];
      assert t[0] == s[0];
      LeadingDigitBoundsValue(t);
      NatToStringOfDigits(t);
      assert t + [s[|s| - 1]] == s;
    }
  }

  /** Reading back what `Int.toString()` wrote gives the same `Int`. */
  lemma ParseIntOfIntToString(n: Int32)
    ensures ParseInt(IntToString(n)) == Some(n)
  {
    var s := IntToString(n);
    if n < 0 {
      var m: nat := -(n as int);
      var digits := NatToString(m);
      assert s == "-" + digits && s[0] == '-';
      assert s[1..] == digits;
      DigitsValueOfNatToString(m);
      assert DigitsValue(s[1..]) == m;
    } else {
      assert s == NatToString(n) && IsDigit(s[0]);
      DigitsValueOfNatToString(n);
    }
  }

  /** On canonical text the converse holds too: `toIntOrNull` then `toString` is the identity. */
  lemma IntToStringOfParseInt(s: string)
    requires IsCanonicalInt(s) && ParseInt(s).Some?
    ensures IntToString(ParseInt(s).value) == s
  {
    if CanonicalDigits(s) {
      NatToStringOfDigits(s);
    } else {
      var digits := s[1..];
      NatToStringOfDigits(digits);
      LeadingDigitBoundsValue(digits);
      assert "-" + digits == s;
    }
  }
}
