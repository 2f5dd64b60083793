/**
 * Decimal text for integers and its inverse.
 *
 * `IntToString` is what Python's `str(int)` and JavaScript's `String(number)` produce for an
 * integer; `ParseInt` is JavaScript's `parseInt(text, 10)` with `NaN` as its own value.
 */
module Numerals {

  predicate IsDigit(c: char) {
    '0' <= c <= '9'
  }

  predicate AllDigits(s: string) {
    forall i :: 0 <= i < |s| ==> IsDigit(s[i])
  }

  function DigitChar(d: nat): (c: char)
    requires d < 10
    ensures IsDigit(c) && c as int - '0' as int == d
  {
    "0123456789"[d]
  }

  function DigitValue(c: char): nat
    requires IsDigit(c)
  {
    c as int - '0' as int
  }

  /** The decimal digits of `n`, most significant first, without leading zeros. */
  function NatToString(n: nat): (s: string)
    ensures 1 <= |s| && AllDigits(s)
  {
    if n < 10 then [DigitChar(n)] else NatToString(n / 10) + [DigitChar(n % 10)]
  }

  /** `str(n)` / `String(n)` for an integer: a minus sign in front of a negative number. */
  function IntToString(n: int): (s: string)
    ensures 1 <= |s|
  {
    if n < 0 then "-" + NatToString(-n) else NatToString(n)
  }

  /** The number a string of decimal digits denotes. */
  function DigitsValue(s: string): nat
    requires AllDigits(s)
  {
    if s == [] then 0 else DigitsValue(s[..|s| - 1]) * 10 + DigitValue(s[|s| - 1])
  }

  /** Reading the digits of `n` back gives `n`. */
  lemma {:induction false} DigitsValueOfNatToString(n: nat)
    ensures DigitsValue(NatToString(n)) == n
  {
    var s := NatToString(n);
    if n >= 10 {
      DigitsValueOfNatToString(n / 10);
      assert s[..|s| - 1] == NatToString(n / 10);
    }
  }

  /** Distinct numbers have distinct decimal renderings. */
  lemma NatToStringInjective(a: nat, b: nat)
    ensures NatToString(a) == NatToString(b) ==> a == b
  {
    DigitsValueOfNatToString(a);
    DigitsValueOfNatToString(b);
  }

  /** A number has at most one more digit than its value. */
  lemma {:induction false} NatToStringLength(n: nat)
    ensures |NatToString(n)| <= n + 1
    ensures n < 10 ==> |NatToString(n)| == 1
    ensures n < 100 ==> |NatToString(n)| <= 2
  {
    if n >= 10 {
      NatToStringLength(n / 10);
    }
  }

  /**
   * The characters ECMAScript's `parseInt` skips before a number (StrWhiteSpaceChar:
   * WhiteSpace and LineTerminator, with every space separator of Unicode category Zs).
   */
  predicate IsJsWhiteSpace(c: char) {
    c == '\t' || c == '\n' || c == '\r' || c == ' '
    || c == '\U{000B}' || c == '\U{000C}' || c == '\U{00A0}' || c == '\U{1680}'
    || ('\U{2000}' <= c <= '\U{200A}') || c == '\U{2028}' || c == '\U{2029}'
    || c == '\U{202F}' || c == '\U{205F}' || c == '\U{3000}' || c == '\U{FEFF}'
  }

  /** `s` without its leading white space. */
  function TrimStart(s: string): (t: string)
    ensures |t| <= |s| && t == s[|s| - |t|..]
    ensures t == [] || !IsJsWhiteSpace(t[0])
  {
    if s != [] && IsJsWhiteSpace(s[0]) then TrimStart(s[1..]) else s
  }

  /** The longest prefix of `s` made of decimal digits. */
  function LeadingDigits(s: string): (d: string)
    ensures AllDigits(d) && d <= s
    ensures |d| < |s| ==> !IsDigit(s[|d|])
  {
    if s != [] && IsDigit(s[0]) then [s[0]] + LeadingDigits(s[1..]) else []
  }

  /** A JavaScript number that `parseInt` can return: an integer or `NaN`. */
  datatype JsInt = NaN | Int(value: int)

  /**
   * `parseInt(s, 10)`: skip leading white space, take an optional sign, then the longest run of
   * decimal digits; no digits give `NaN`. The value is the exact integer: numbers are not rounded
   * to double precision here.
   */
  function ParseInt(s: string): (r: JsInt)
    ensures r.NaN? <==> LeadingDigits(SkipSign(TrimStart(s))) == []
  {
    var t := TrimStart(s);
    var digits := LeadingDigits(SkipSign(t));
    if digits == [] then NaN
    else
      var v: int := DigitsValue(digits);
      if t[0] == '-' then Int(-v) else Int(v)
  }

  function SkipSign(t: string): string {
    if t != [] && (t[0] == '-' || t[0] == '+') then t[1..] else t
  }

  lemma {:induction false} LeadingDigitsOfDigits(s: string)
    requires AllDigits(s)
    ensures LeadingDigits(s) == s
  {
    if s != [] {
      LeadingDigitsOfDigits(s[1..]);
    }
  }

  /** `parseInt(String(n), 10) == n` for every integer `n`. */
  lemma {:induction false} ParseIntOfIntToString(n: int)
    ensures ParseInt(IntToString(n)) == Int(n)
  {
    var m: nat := if n < 0 then -n else n;
    var d := NatToString(m);
    var s := IntToString(n);
    assert s == if n < 0 then "-" + d else d;
    assert IsDigit(d[0]);
    assert !IsJsWhiteSpace(s[0]);
    assert TrimStart(s) == s;
    assert SkipSign(s) == d;
    LeadingDigitsOfDigits(d);
    DigitsValueOfNatToString(m);
  }
}
