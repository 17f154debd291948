/** Decimal digit strings: `\d`, `parseInt(str, 10)` and `Number.prototype.toString()` on
    non-negative integers, all over exact naturals. */
module Decimal {
  import opened Wrappers

  /** `\d`: an ASCII decimal digit. */
  predicate IsDigit(c: char) {
    '0' <= c <= '9'
  }

  predicate AllDigits(s: string) {
    forall i :: 0 <= i < |s| ==> IsDigit(s[i])
  }

  function DigitValue(c: char): (d: nat)
    requires IsDigit(c)
    ensures d < 10
  {
    (c as int) - ('0' as int)
  }

  function DigitChar(d: nat): (c: char)
    requires d < 10
    ensures IsDigit(c) && DigitValue(c) == d
  {
    (('0' as int) + d) as char
  }

  /** The number a digit string denotes, most significant digit first; "" denotes 0. */
  function Value(s: string): nat
    requires AllDigits(s)
  {
    if s == [] then 0
    else Value(s[..|s| - 1]) * 10 + DigitValue(s[|s| - 1])
  }

  /** The form `toString` produces: digits, with no leading zero unless the string is "0". */
  predicate IsCanonical(s: string) {
    |s| > 0 && AllDigits(s) && (s[0] == '0' ==> |s| == 1)
  }

  /** `n.toString()` for a non-negative integer `n`. */
  function Show(n: nat): (s: string)
    ensures IsCanonical(s)
    ensures Value(s) == n
  {
    if n < 10 then [DigitChar(n)]
    else
      var high := Show(n / 10);
      assert (high + [DigitChar(n % 10)])[..|high|] == high;
      high + [DigitChar(n % 10)]
  }

  /** A digit string that does not start with '0' denotes a positive number. */
  lemma {:induction false} LeadingNonZeroIsPositive(s: string)
    requires |s| > 0 && AllDigits(s) && s[0] != '0'
    ensures Value(s) >= 1
    decreases |s|
  {
    if |s| > 1 {
      LeadingNonZeroIsPositive(s[..|s| - 1]);
    }
  }

  /** A digit is the character of its own value. */
  lemma DigitCharOfValue(c: char)
    requires IsDigit(c)
    ensures DigitChar(DigitValue(c)) == c
  {
  }

  /** Splitting off the last decimal digit. */
  lemma LastDigit(high: nat, d: nat)
    requires d < 10
    ensures (high * 10 + d) / 10 == high && (high * 10 + d) % 10 == d
  {
  }

  /** `toString` inverts the value of a canonical digit string. */
  lemma {:induction false} ShowOfValue(s: string)
    requires IsCanonical(s)
    ensures Show(Value(s)) == s
    decreases |s|
  {
    if |s| > 1 {
      var high := s[..|s| - 1];
      var d := s[|s| - 1];
      assert IsCanonical(high);
      LeadingNonZeroIsPositive(high);
      ShowOfValue(high);
      var n := Value(s);
      assert n == Value(high) * 10 + DigitValue(d);
      LastDigit(Value(high), DigitValue(d));
      DigitCharOfValue(d);
      assert Show(n) == Show(Value(high)) + [d];
      assert s == high + [d];
    } else {
      DigitCharOfValue(s[0]);
    }
  }

  /** Two canonical strings with the same value are the same string. */
  lemma CanonicalIsUnique(a: string, b: string)
    requires IsCanonical(a) && IsCanonical(b) && Value(a) == Value(b)
    ensures a == b
  {
    ShowOfValue(a);
    ShowOfValue(b);
  }

  /** The longest prefix of `s` made of decimal digits. */
  function LeadingDigits(s: string): (p: string)
    ensures p <= s && AllDigits(p)
    ensures |p| < |s| ==> !IsDigit(s[|p|])
  {
    if s == [] || !IsDigit(s[0]) then []
    else [s[0]] + LeadingDigits(s[1..])
  }

  /** A string of digits is its own longest digit prefix. */
  lemma {:induction false} LeadingDigitsOfDigits(s: string)
    ensures AllDigits(s) ==> LeadingDigits(s) == s
  {
    if s != [] && AllDigits(s) {
      LeadingDigitsOfDigits(s[1..]);
    }
  }

  /** `parseInt(s, 10)`: the value of the leading digits, or NaN (`None`) when `s` does not start with a digit. */
  function ParseInt(s: string): (r: Option<nat>)
    ensures r.None? <==> (s == [] || !IsDigit(s[0]))
    ensures |s| > 0 && AllDigits(s) ==> r == Some(Value(s))
  {
    var p := LeadingDigits(s);
    LeadingDigitsOfDigits(s);
    if p == [] then None else Some(Value(p))
  }
}
