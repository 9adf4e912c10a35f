/**
  Decimal integer literals as the calculator's lexer admits them (the
  pattern `[1-9]\d*`) and the value `parseInt(image, 10)` gives them.
  `Show` writes a natural number back in decimal; it is the inverse the
  round-trip lemmas pair `ParseInt` with.
*/
module Decimal {

  type pos = n: nat | n > 0 witness 1

  predicate IsDigit(c: char)
  {
    '0' <= c <= '9'
  }

  predicate IsDigits(s: string)
  {
    forall i :: 0 <= i < |s| ==> IsDigit(s[i])
  }

  /** The pattern `[1-9]\d*`: a non-empty digit string without a leading zero. */
  predicate IsPositiveLiteral(s: string)
  {
    |s| > 0 && s[0] != '0' && IsDigits(s)
  }

  function DigitValue(c: char): (d: nat)
    requires IsDigit(c)
    ensures d < 10
  {
    c as int - '0' as int
  }

  function DigitChar(d: nat): (c: char)
    requires d < 10
    ensures IsDigit(c) && DigitValue(c) == d
    ensures d > 0 ==> c != '0'
  {
    ('0' as int + d) as char
  }

  function Pow10(k: nat): (p: pos)
  {
    if k == 0 then 1 else 10 * Pow10(k - 1)
  }

  /** `parseInt(s, 10)` on a non-empty string of decimal digits: the digits
      read most significant first.  The result has at most `|s|` digits. */
  function ParseInt(s: string): (n: nat)
    requires |s| > 0 && IsDigits(s)
    ensures n < Pow10(|s|)
  {
    if |s| == 1 then DigitValue(s[0])
    else ParseInt(s[..|s| - 1]) * 10 + DigitValue(s[|s| - 1])
  }

  /** The decimal numeral of `n`, without leading zeros. */
  function Show(n: nat): (s: string)
    ensures |s| > 0 && IsDigits(s)
    ensures n > 0 ==> IsPositiveLiteral(s)
  {
    if n < 10 then [DigitChar(n)]
    else
      var s := Show(n / 10) + [DigitChar(n % 10)];
      assert s[0] == Show(n / 10)[0];
      s
  }

  /** A literal without a leading zero has exactly `|s|` significant digits,
      so its value is positive. */
  lemma {:induction false} ParsePositive(s: string)
    requires IsPositiveLiteral(s)
    ensures Pow10(|s| - 1) <= ParseInt(s)
  {
    if |s| > 1 {
      var init := s[..|s| - 1];
      assert init[0] == s[0];
      ParsePositive(init);
    }
  }

  /** Reading back what `Show` writes gives the number. */
  lemma {:induction false} ParseShow(n: nat)
    ensures ParseInt(Show(n)) == n
  {
    if n >= 10 {
      var s := Show(n);
      assert s[..|s| - 1] == Show(n / 10);
      ParseShow(n / 10);
    }
  }

  /** Appending digit `d` to the numeral of `q`: the last digit is `d` and
      the rest is `q` again. */
  lemma AppendDigit(q: nat, d: nat)
    requires d < 10
    ensures (q * 10 + d) / 10 == q && (q * 10 + d) % 10 == d
  {
  }

  /** Writing back what `ParseInt` reads gives the literal: distinct
      literals of the pattern have distinct values. */
  lemma {:induction false} ShowParse(s: string)
    requires IsPositiveLiteral(s)
    ensures Show(ParseInt(s)) == s
  {
    if |s| == 1 {
      assert DigitChar(DigitValue(s[0])) == s[0];
    } else {
      var init, last := s[..|s| - 1], s[|s| - 1];
      assert init[0] == s[0];
      ParsePositive(init);
      ParsePositive(s);
      ShowParse(init);
      AppendDigit(ParseInt(init), DigitValue(last));
      assert DigitChar(DigitValue(last)) == last;
      assert s == init + [last];
    }
  }
}
