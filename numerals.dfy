/**
 * The number conversions of JavaScript used by the core: `parseInt(digits, 10)`,
 * `parseFloat`, `Number(text)` (for the `isNaN` check on PORT) and the decimal
 * rendering of integers in template strings.
 */
module Numerals {
  import opened Wrappers
  import opened Text

  /** A JavaScript number as parseFloat produces it: NaN or a finite value (Infinity and exponents are not modelled). */
  datatype Num = NaN | Finite(value: real)

  function DigitValue(c: char): (d: nat)
    requires IsDigit(c)
    ensures d < 10
  {
    (c as int) - ('0' as int)
  }

  function DigitChar(d: nat): (c: char)
    requires d < 10
    ensures IsDigit(c) && DigitValue(c) == d
  {
    (('0' as int) + d) as char
  }

  /** The value of a string of decimal digits (`parseInt(s, 10)` on such a string). */
  function DigitsValue(s: string): nat
    requires AllDigits(s)
  {
    if s == [] then 0 else DigitsValue(s[..|s| - 1]) * 10 + DigitValue(s[|s| - 1])
  }

  function Pow10(n: nat): (p: nat)
    ensures p >= 1
  {
    if n == 0 then 1 else 10 * Pow10(n - 1)
  }

  /** Decimal rendering of a natural number, as `${n}` prints it. */
  function NatToString(n: nat): (s: string)
    ensures s != [] && AllDigits(s)
    ensures DigitsValue(s) == n
    ensures s[0] == '0' ==> n == 0
    ensures |s| == 1 || s[0] != '0'
  {
    if n < 10 then [DigitChar(n)]
    else
      var prefix := NatToString(n / 10);
      var s := prefix + [DigitChar(n % 10)];
      assert s[..|s| - 1] == prefix;
      s
  }

  /** Decimal rendering of an integer, with a leading `-` when negative. */
  function IntToString(i: int): (s: string)
    ensures s != []
    ensures i >= 0 ==> AllDigits(s) && DigitsValue(s) == i
    ensures i < 0 ==> s[0] == '-' && AllDigits(s[1..]) && DigitsValue(s[1..]) == -i
  {
    if i >= 0 then NatToString(i)
    else
      var s := "-" + NatToString(-i);
      assert s[1..] == NatToString(-i);
      s
  }

  /** Number of consecutive decimal digits in `s` from position `i`. */
  function DigitRun(s: string, i: nat): (n: nat)
    requires i <= |s|
    ensures i + n <= |s|
    ensures AllDigits(s[i..i + n])
    ensures i + n < |s| ==> !IsDigit(s[i + n])
    decreases |s| - i
  {
    if i == |s| || !IsDigit(s[i]) then 0
    else
      var m := DigitRun(s, i + 1);
      assert s[i..i + 1 + m] == [s[i]] + s[i + 1..i + 1 + m];
      1 + m
  }

  /**
   * `parseFloat(s)` on the decimal forms: leading white space is skipped, then an optional
   * sign, then the longest run `digits [. digits]` with at least one digit; otherwise NaN.
   */
  function ParseFloat(s: string): (r: Num)
  {
    var t := s[LeadingSpaces(s)..];
    var signed := t != [] && (t[0] == '-' || t[0] == '+');
    var u := if signed then t[1..] else t;
    var n := DigitRun(u, 0);
    var f := if n < |u| && u[n] == '.' then DigitRun(u, n + 1) else 0;
    if n == 0 && f == 0 then NaN
    else
      var whole := DigitsValue(u[..n]) as real;
      var fraction := if f == 0 then 0.0 else DigitsValue(u[n + 1..n + 1 + f]) as real / Pow10(f) as real;
      var magnitude := whole + fraction;
      Finite(if signed && t[0] == '-' then -magnitude else magnitude)
  }

  /** parseFloat reads a run of digits followed by anything that cannot continue a number as that integer. */
  lemma ParseFloatOfDigits(d: string, rest: string)
    requires d != [] && AllDigits(d)
    requires rest == [] || (!IsDigit(rest[0]) && rest[0] != '.')
    ensures ParseFloat(d + rest) == Finite(DigitsValue(d) as real)
  {
    var s := d + rest;
    assert s[0] == d[0];
    assert LeadingSpaces(s) == 0;
    assert s[0..] == s;
    DigitRunOfPrefix(d, rest);
    assert s[..|d|] == d;
    assert |d| < |s| ==> s[|d|] == rest[0];
  }

  /** The digit run at the start of `d + rest` is exactly `d` when `rest` does not start with a digit. */
  lemma DigitRunOfPrefix(d: string, rest: string)
    requires AllDigits(d)
    requires rest == [] || !IsDigit(rest[0])
    ensures DigitRun(d + rest, 0) == |d|
  {
    var s := d + rest;
    var n := DigitRun(s, 0);
    assert forall k :: 0 <= k < n ==> IsDigit(s[k]) by {
      forall k | 0 <= k < n ensures IsDigit(s[k]) {
        assert s[0..n][k] == s[k];
      }
    }
    assert forall k :: 0 <= k < |d| ==> s[k] == d[k];
    assert |d| < |s| ==> s[|d|] == rest[0];
  }

  /** parseFloat of a rendered natural number gives it back. */
  lemma ParseFloatOfNatToString(n: nat)
    ensures ParseFloat(NatToString(n)) == Finite(n as real)
  {
    assert NatToString(n) + [] == NatToString(n);
    ParseFloatOfDigits(NatToString(n), []);
  }

  /** parseFloat of text that starts with a letter (after white space) is NaN. */
  lemma ParseFloatOfWord(w: string)
    requires w != [] && (('a' <= w[0] <= 'z') || ('A' <= w[0] <= 'Z'))
    requires !("Infinity" <= w)
    ensures ParseFloat(w) == NaN
  {
    assert !IsSpace(w[0]);
    assert w[LeadingSpaces(w)..] == w;
  }

  predicate IsHexDigit(c: char) { IsDigit(c) || ('a' <= c <= 'f') || ('A' <= c <= 'F') }

  /** `0x…`, `0o…` or `0b…` with at least one digit of that base (StrNumericLiteral's NonDecimalIntegerLiteral). */
  predicate IsNonDecimalInteger(t: string) {
    |t| >= 3 && t[0] == '0' &&
    (if t[1] == 'x' || t[1] == 'X' then forall k :: 2 <= k < |t| ==> IsHexDigit(t[k])
     else if t[1] == 'o' || t[1] == 'O' then forall k :: 2 <= k < |t| ==> '0' <= t[k] <= '7'
     else if t[1] == 'b' || t[1] == 'B' then forall k :: 2 <= k < |t| ==> t[k] == '0' || t[k] == '1'
     else false)
  }

  /** An exponent part `e`/`E`, an optional sign, at least one digit; or nothing. */
  predicate IsOptionalExponent(t: string) {
    t == [] ||
    (t[0] in "eE" &&
     var digits := if |t| > 1 && t[1] in "+-" then t[2..] else t[1..];
     digits != [] && AllDigits(digits))
  }

  /** StrUnsignedDecimalLiteral: `Infinity`, or digits with an optional fraction and exponent, at least one digit. */
  predicate IsUnsignedDecimal(t: string) {
    t == "Infinity" ||
    (var n := DigitRun(t, 0);
     var f := if n < |t| && t[n] == '.' then DigitRun(t, n + 1) else 0;
     var end := if n < |t| && t[n] == '.' then n + 1 + f else n;
     (n > 0 || f > 0) && IsOptionalExponent(t[end..]))
  }

  /** `!isNaN(Number(s))`: the whole text, apart from surrounding white space, is a numeric literal (or empty). */
  predicate IsNumericText(s: string) {
    var t := Trim(s);
    t == [] || IsNonDecimalInteger(t) ||
    (if t[0] in "+-" then IsUnsignedDecimal(t[1..]) else IsUnsignedDecimal(t))
  }

  /** Any non-empty string of decimal digits is numeric for `Number`. */
  lemma DigitsAreNumeric(d: string)
    requires d != [] && AllDigits(d)
    ensures IsNumericText(d)
  {
    assert !IsSpace(d[0]) && !IsSpace(d[|d| - 1]);
    TrimOfTrimmed(d);
    DigitsAreUnsignedDecimal(d);
    UnsignedIsNumeric(d);
  }

  lemma UnsignedIsNumeric(s: string)
    requires Trim(s) != [] && IsDigit(Trim(s)[0]) && IsUnsignedDecimal(Trim(s))
    ensures IsNumericText(s)
  {
  }

  lemma DigitsAreUnsignedDecimal(d: string)
    requires d != [] && AllDigits(d)
    ensures IsUnsignedDecimal(d)
  {
    assert d + [] == d;
    DigitRunOfPrefix(d, []);
    assert d[|d|..] == [];
  }
}
