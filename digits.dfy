/**
 * The input validation in front of the guess handler: the pattern ^[0-9]+$
 * and the numeric value `+guess` that JavaScript gives a string matching it.
 * DecimalString is the canonical rendering `String(n)` and serves as the
 * inverse against which ParseDecimal is checked.
 */
module Digits {

  /** One character of the class [0-9]. */
  predicate IsDigit(c: char) {
    '0' <= c <= '9'
  }

  /** Every character is in [0-9]; the empty string qualifies. */
  predicate DigitsOnly(s: string) {
    forall i :: 0 <= i < |s| ==> IsDigit(s[i])
  }

  /**
   * The regular expression ^[0-9]+$: at least one character, each of them
   * one of the ten characters of the class [0-9].
   */
  predicate AllDigits(s: string): (b: bool)
    ensures b <==> |s| > 0 && forall c :: c in s ==> c in "0123456789"
  {
    ClassOfDigits(s);
    |s| > 0 && DigitsOnly(s)
  }

  lemma DigitInClass(c: char)
    ensures IsDigit(c) <==> c in "0123456789"
  {
  }

  lemma ClassOfDigits(s: string)
    ensures DigitsOnly(s) <==> forall c :: c in s ==> c in "0123456789"
  {
    forall c ensures IsDigit(c) <==> c in "0123456789" {
      DigitInClass(c);
    }
  }

  function DigitValue(c: char): (d: nat)
    requires IsDigit(c)
    ensures d < 10
  {
    c as int - '0' as int
  }

  function DigitChar(d: nat): (c: char)
    requires d < 10
    ensures IsDigit(c) && DigitValue(c) == d
  {
    ('0' as int + d) as char
  }

  function Pow10(k: nat): (p: nat)
    ensures p >= 1
  {
    if k == 0 then 1 else 10 * Pow10(k - 1)
  }

  /**
   * The decimal value of a digit string, most significant digit first.
   * Leading zeros contribute nothing and the value is not bounded, so a long
   * digit string is simply a large number.
   */
  function ParseDecimal(s: string): (n: nat)
    requires DigitsOnly(s)
    ensures n < Pow10(|s|)
    decreases |s|
  {
    if |s| == 0 then 0
    else 10 * ParseDecimal(s[..|s| - 1]) + DigitValue(s[|s| - 1])
  }

  /** A string without a superfluous leading zero: "0", "7", "42", but not "07". */
  predicate Canonical(s: string) {
    |s| == 1 || (|s| > 1 && s[0] != '0')
  }

  /**
   * The shortest decimal rendering of n, as `String(n)` gives it for a
   * counter value (JavaScript switches to exponent form from 10^21).
   */
  function DecimalString(n: nat): (s: string)
    ensures AllDigits(s) && Canonical(s)
    ensures ParseDecimal(s) == n
  {
    if n < 10 then [DigitChar(n)]
    else
      var p := DecimalString(n / 10);
      var s := p + [DigitChar(n % 10)];
      assert s[..|s| - 1] == p;
      s
  }

  /** A leading zero does not change the value: "007" and "7" parse alike. */
  lemma {:induction false} LeadingZero(s: string)
    requires DigitsOnly(s)
    ensures DigitsOnly("0" + s)
    ensures ParseDecimal("0" + s) == ParseDecimal(s)
  {
    var z := "0" + s;
    assert DigitsOnly(z) by {
      forall i | 0 <= i < |z| ensures IsDigit(z[i]) {
        if i > 0 { assert z[i] == s[i - 1]; }
      }
    }
    if |s| == 0 {
      assert z[..0] == "";
    } else {
      var p := s[..|s| - 1];
      assert z[..|z| - 1] == "0" + p;
      assert z[|z| - 1] == s[|s| - 1];
      LeadingZero(p);
    }
  }

  /** A digit string that does not start with '0' is at least 10^(|s|-1). */
  lemma {:induction false} LeadingDigitBound(s: string)
    requires AllDigits(s) && s[0] != '0'
    ensures ParseDecimal(s) >= Pow10(|s| - 1)
  {
    if |s| > 1 {
      var p := s[..|s| - 1];
      assert p[0] == s[0];
      LeadingDigitBound(p);
    }
  }

  /** Parsing then rendering a canonical digit string gives the string back. */
  lemma {:induction false} RenderParsed(s: string)
    requires AllDigits(s) && Canonical(s)
    ensures DecimalString(ParseDecimal(s)) == s
  {
    var n := ParseDecimal(s);
    if |s| == 1 {
      assert s == [s[0]];
      assert s[..0] == "";
      assert DigitChar(DigitValue(s[0])) == s[0];
    } else {
      var p := s[..|s| - 1];
      assert p[0] == s[0];
      LeadingDigitBound(p);
      var m := ParseDecimal(p);
      assert n == 10 * m + DigitValue(s[|s| - 1]);
      assert n / 10 == m && n % 10 == DigitValue(s[|s| - 1]);
      RenderParsed(p);
      assert DigitChar(DigitValue(s[|s| - 1])) == s[|s| - 1];
      assert s == p + [s[|s| - 1]];
    }
  }
}
