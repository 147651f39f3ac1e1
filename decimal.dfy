/**
 * Base-10 digit strings: `parseInt` on a string of ASCII digits, and the
 * rendering of a non-negative integer inside a template literal (`${number}`).
 */
module Decimal {

  predicate IsDigit(c: char) {
    '0' <= c <= '9'
  }

  predicate AllDigits(s: string) {
    forall i :: 0 <= i < |s| ==> IsDigit(s[i])
  }

  function DigitValue(c: char): (d: nat)
    requires IsDigit(c)
    ensures d < 10
  {
    c as int - '0' as int
  }

  function DigitChar(d: nat): (c: char)
    requires d < 10
    ensures IsDigit(c) && DigitValue(c) == d
  {
    ('0' as int + d) as char
  }

  /** The value `parseInt(s)` gives for a string made only of decimal digits
      (leading zeros are allowed and ignored). */
  function Value(s: string): nat
    requires AllDigits(s)
  {
    if s == [] then 0 else 10 * Value(s[..|s| - 1]) + DigitValue(s[|s| - 1])
  }

  /** A string of n digits has a value below 10^n. */
  lemma {:induction false} ValueBound(s: string)
    requires AllDigits(s)
    ensures Value(s) < Pow10(|s|)
  {
    if s != [] {
      ValueBound(s[..|s| - 1]);
    }
  }

  function Pow10(n: nat): (p: nat)
    ensures p >= 1
  {
    if n == 0 then 1 else 10 * Pow10(n - 1)
  }

  /** `parseInt` ignores a leading zero: "07" has the value of "7". */
  lemma {:induction false} ValueIgnoresLeadingZero(s: string)
    requires |s| > 0 && AllDigits(s) && s[0] == '0'
    ensures Value(s) == Value(s[1..])
  {
    if |s| > 1 {
      var init := s[..|s| - 1];
      assert init[0] == '0';
      ValueIgnoresLeadingZero(init);
      assert s[1..][..|s| - 2] == init[1..];
      assert s[1..][|s| - 2] == s[|s| - 1];
    }
  }

  /** The decimal rendering of `n`: no sign, no leading zero. */
  function Render(n: nat): (s: string)
    ensures |s| > 0 && AllDigits(s)
    ensures |s| > 1 ==> s[0] != '0'
  {
    if n < 10 then [DigitChar(n)] else Render(n / 10) + [DigitChar(n % 10)]
  }

  /** Reading back a rendered number gives the number. */
  lemma {:induction false} ValueOfRender(n: nat)
    ensures Value(Render(n)) == n
  {
    var s := Render(n);
    if n >= 10 {
      assert s[..|s| - 1] == Render(n / 10);
      ValueOfRender(n / 10);
    }
  }

  /** Distinct numbers render to distinct strings. */
  lemma RenderInjective(m: nat, n: nat)
    requires Render(m) == Render(n)
    ensures m == n
  {
    ValueOfRender(m);
    ValueOfRender(n);
  }

  /** Rendering the value of a digit string without a leading zero gives the string back. */
  lemma {:induction false} RenderOfValue(s: string)
    requires |s| > 0 && AllDigits(s)
    requires |s| > 1 ==> s[0] != '0'
    ensures Render(Value(s)) == s
  {
    var init := s[..|s| - 1];
    if |s| == 1 {
      assert Value(s) == DigitValue(s[0]);
    } else {
      assert init[0] == s[0];
      RenderOfValue(init);
      ValueLowerBound(init);
      var v := Value(s);
      assert v / 10 == Value(init) && v % 10 == DigitValue(s[|s| - 1]);
      assert Render(v) == Render(Value(init)) + [DigitChar(DigitValue(s[|s| - 1]))];
    }
  }

  /** A digit string of two or more digits that starts with a non-zero digit is at least 10. */
  lemma {:induction false} ValueLowerBound(s: string)
    requires |s| > 0 && AllDigits(s) && s[0] != '0'
    ensures |s| > 1 ==> Value(s) >= 10
    ensures Value(s) >= 1
  {
    if |s| > 1 {
      var init := s[..|s| - 1];
      assert init[0] == s[0];
      ValueLowerBound(init);
    }
  }
}
