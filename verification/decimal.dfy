/**
 Decimal digit strings: the only integer syntax the duration normalizer
 reads from a string. `Parse` reads a digit string, `Show` renders a natural
 number, and the two are proved to be inverse on canonical strings (no
 superfluous leading zero).
 */
module Decimal {

  predicate IsDigit(c: char) {
    '0' <= c <= '9'
  }

  /** A non-empty string made only of the digits 0-9. */
  predicate IsDigits(s: string) {
    |s| > 0 && forall i :: 0 <= i < |s| ==> IsDigit(s[i])
  }

  /** A digit string without a superfluous leading zero ("0" itself is canonical). */
  predicate IsCanonical(s: string) {
    IsDigits(s) && (s[0] != '0' || |s| == 1)
  }

  function Pow10(k: nat): (p: nat)
    ensures p >= 1
  {
    if k == 0 then 1 else 10 * Pow10(k - 1)
  }

  function DigitValue(c: char): (d: nat)
    requires IsDigit(c)
    ensures d < 10
  {
    c as int - '0' as int
  }

  function DigitChar(d: nat): (c: char)
    requires d < 10
    ensures IsDigit(c) && DigitValue(c) == d
  {
    ('0' as int + d) as char
  }

  /** The value of a digit string, most significant digit first. */
  function Parse(s: string): (n: nat)
    requires IsDigits(s)
    ensures n < Pow10(|s|)
    ensures s[0] != '0' ==> Pow10(|s| - 1) <= n
    decreases |s|
  {
    if |s| == 1 then DigitValue(s[0])
    else
      var init := s[..|s| - 1];
      assert init[0] == s[0];
      Parse(init) * 10 + DigitValue(s[|s| - 1])
  }

  /** The canonical decimal rendering of a natural number. */
  function Show(n: nat): (s: string)
    ensures IsCanonical(s)
    ensures Parse(s) == n
    decreases n
  {
    if n < 10 then [DigitChar(n)]
    else
      var init := Show(n / 10);
      var s := init + [DigitChar(n % 10)];
      assert s[..|s| - 1] == init;
      s
  }

  /** Reading a canonical digit string and rendering the value gives the string back. */
  lemma {:induction false} ShowParse(s: string)
    requires IsCanonical(s)
    ensures Show(Parse(s)) == s
    decreases |s|
  {
    if |s| > 1 {
      var init := s[..|s| - 1];
      assert init[0] == s[0];
      ShowParse(init);
      var n := Parse(s);
      assert n / 10 == Parse(init) && n % 10 == DigitValue(s[|s| - 1]);
      assert s == init + [s[|s| - 1]];
    }
  }

  /** Two canonical digit strings denote the same number only if they are equal. */
  lemma ParseInjective(s: string, t: string)
    requires IsCanonical(s) && IsCanonical(t)
    ensures Parse(s) == Parse(t) <==> s == t
  {
  }
}
