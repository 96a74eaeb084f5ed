/**
 * The pieces of Go's text library the resolver relies on, over `seq<char>`:
 * the `\d` class of the regular expression `^\.\d+$`, `strconv.Atoi` and
 * `strconv.Itoa` on decimal digit strings, `strings.ToUpper` restricted to ASCII,
 * and `strings.Index`.
 */
module Text {

  predicate IsDigit(c: char) {
    '0' <= c <= '9'
  }

  function DigitValue(c: char): (d: nat)
    requires IsDigit(c)
    ensures d < 10
  {
    c as int - '0' as int
  }

  function DigitChar(d: nat): (c: char)
    requires d < 10
    ensures IsDigit(c) && DigitValue(c) == d
  {
    ('0' as int + d) as char
  }

  /** `\d+` applied to the whole of `s`, one character at a time. */
  predicate AllDigits(s: string)
    ensures AllDigits(s) <==> forall i :: 0 <= i < |s| ==> IsDigit(s[i])
  {
    s == [] || (IsDigit(s[0]) && AllDigits(s[1..]))
  }

  function Pow10(k: nat): (p: nat)
    ensures p >= 1
  {
    if k == 0 then 1 else 10 * Pow10(k - 1)
  }

  /** `strconv.Atoi` on a string of decimal digits: its value, read most significant digit first. */
  function DecimalValue(s: string): (n: nat)
    requires AllDigits(s)
    ensures n < Pow10(|s|)
  {
    if s == [] then 0 else DecimalValue(s[..|s| - 1]) * 10 + DigitValue(s[|s| - 1])
  }

  /** `strconv.Itoa` on a non-negative integer: the shortest decimal rendering. */
  function FormatDecimal(n: nat): (s: string)
    ensures |s| >= 1 && AllDigits(s)
    ensures |s| > 1 ==> s[0] != '0'
    ensures DecimalValue(s) == n
  {
    if n < 10 then [DigitChar(n)]
    else
      var prefix := FormatDecimal(n / 10);
      var s := prefix + [DigitChar(n % 10)];
      assert s[..|s| - 1] == prefix;
      s
  }

  /** A digit string whose first digit is not `0` has a value of at least `10^(|s|-1)`. */
  lemma {:induction false} DecimalValueLowerBound(s: string)
    requires |s| >= 1 && AllDigits(s) && s[0] != '0'
    ensures DecimalValue(s) >= Pow10(|s| - 1)
  {
    if |s| > 1 {
      var p := s[..|s| - 1];
      assert p[0] == s[0];
      DecimalValueLowerBound(p);
    }
  }

  /** Reading the canonical digits of a value back gives the digits: Itoa after Atoi is the identity. */
  lemma {:induction false} FormatDecimalOfValue(s: string)
    requires |s| >= 1 && AllDigits(s)
    requires |s| > 1 ==> s[0] != '0'
    ensures FormatDecimal(DecimalValue(s)) == s
  {
    if |s| > 1 {
      var p := s[..|s| - 1];
      assert p[0] == s[0];
      DecimalValueLowerBound(p);
      FormatDecimalOfValue(p);
      var n := DecimalValue(s);
      assert n / 10 == DecimalValue(p);
      assert n % 10 == DigitValue(s[|s| - 1]);
      assert s == p + [s[|s| - 1]];
    }
  }

  /** Leading zeros do not change the value Atoi reads. */
  lemma {:induction false} LeadingZeroIgnored(s: string)
    requires AllDigits(s)
    ensures AllDigits("0" + s) && DecimalValue("0" + s) == DecimalValue(s)
  {
    if s != [] {
      var z := "0" + s;
      assert z[..|z| - 1] == "0" + s[..|s| - 1];
      LeadingZeroIgnored(s[..|s| - 1]);
    }
  }

  /** ASCII upper-casing of one character: a lower-case letter becomes its capital, anything else is kept. */
  function UpperChar(c: char): (r: char)
    ensures !('a' <= r <= 'z')
    ensures !('a' <= c <= 'z') ==> r == c
    ensures 'a' <= c <= 'z' ==> 'A' <= r <= 'Z' && r as int - 'A' as int == c as int - 'a' as int
  {
    if 'a' <= c <= 'z' then (c as int - 32) as char else c
  }

  /** `strings.ToUpper`, on ASCII letters only. */
  function Upper(s: string): (u: string)
    ensures |u| == |s| && forall i :: 0 <= i < |s| ==> u[i] == UpperChar(s[i])
  {
    seq(|s|, i requires 0 <= i < |s| => UpperChar(s[i]))
  }

  /** Upper-casing twice changes nothing more than upper-casing once. */
  lemma UpperIdempotent(s: string)
    ensures Upper(Upper(s)) == Upper(s)
  {
  }

  /** `needle` occurs in `haystack` starting at position `i`. */
  predicate OccursAt(haystack: string, needle: string, i: int) {
    0 <= i && i + |needle| <= |haystack| && haystack[i..i + |needle|] == needle
  }

  /** `strings.Index`: the first position at which `needle` occurs, or -1 when it occurs nowhere. */
  function IndexOf(haystack: string, needle: string): (r: int)
    ensures r == -1 <==> forall i :: !OccursAt(haystack, needle, i)
    ensures r != -1 ==> OccursAt(haystack, needle, r)
    ensures forall j :: 0 <= j < r ==> !OccursAt(haystack, needle, j)
    decreases |haystack|
  {
    if |haystack| < |needle| then -1
    else if haystack[..|needle|] == needle then
      assert OccursAt(haystack, needle, 0);
      0
    else
      assert !OccursAt(haystack, needle, 0);
      var k := IndexOf(haystack[1..], needle);
      assert forall i :: OccursAt(haystack, needle, i) ==> i >= 1 && OccursAt(haystack[1..], needle, i - 1) by {
        forall i | OccursAt(haystack, needle, i) ensures i >= 1 && OccursAt(haystack[1..], needle, i - 1) {
          assert haystack[1..][i - 1..i - 1 + |needle|] == haystack[i..i + |needle|];
        }
      }
      assert k != -1 ==> OccursAt(haystack, needle, k + 1) by {
        if k != -1 {
          assert haystack[1..][k..k + |needle|] == haystack[k + 1..k + 1 + |needle|];
        }
      }
      if k == -1 then -1 else k + 1
  }

  /** The empty string occurs at the start of every string. */
  lemma IndexOfEmpty(haystack: string)
    ensures IndexOf(haystack, "") == 0
  {
  }
}
