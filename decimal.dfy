/**
  Decimal text of integers as JavaScript writes it (`String(n)`, template
  interpolation), the digit prefix that `parseInt` reads back, and
  `padStart` with a one-character filler.
*/
module Decimal {

  predicate IsDigit(c: char) {
    '0' <= c <= '9'
  }

  predicate AllDigits(s: string) {
    forall i :: 0 <= i < |s| ==> IsDigit(s[i])
  }

  function DigitChar(d: nat): (c: char)
    requires d < 10
    ensures IsDigit(c)
  {
    (48 + d) as char
  }

  function DigitValue(c: char): nat
    requires IsDigit(c)
  {
    c as int - 48
  }

  /** The decimal digits of `n`, most significant first, with no leading zero. */
  function NatToString(n: nat): (s: string)
    ensures 1 <= |s| && AllDigits(s)
    ensures |s| > 1 ==> s[0] != '0'
    ensures n < 10 <==> |s| == 1
    ensures 10 <= n < 100 <==> |s| == 2
    ensures n >= 1000 ==> |s| >= 4
    ensures 1000 <= n < 10000 ==> |s| == 4
  {
    if n < 10 then [DigitChar(n)] else NatToString(n / 10) + [DigitChar(n % 10)]
  }

  /** `String(n)` for an integer-valued number: a minus sign, then the digits of |n|. */
  function IntToString(n: int): string {
    if n < 0 then "-" + NatToString(-n) else NatToString(n)
  }

  /** The value of a string of decimal digits (an empty string reads as 0). */
  function DigitsValue(s: string): nat
    requires AllDigits(s)
  {
    if s == [] then 0 else DigitsValue(s[..|s| - 1]) * 10 + DigitValue(s[|s| - 1])
  }

  /** Reading the digits written by NatToString gives the number back. */
  lemma {:induction false} NatToStringRoundTrip(n: nat)
    ensures DigitsValue(NatToString(n)) == n
  {
    if n >= 10 {
      var s := NatToString(n);
      assert s[..|s| - 1] == NatToString(n / 10);
      NatToStringRoundTrip(n / 10);
    }
  }

  lemma {:induction false} NatToStringInjective(a: nat, b: nat)
    requires NatToString(a) == NatToString(b)
    ensures a == b
  {
    NatToStringRoundTrip(a);
    NatToStringRoundTrip(b);
  }

  /** `String(n)` is one-to-one on integers. */
  lemma {:induction false} IntToStringInjective(a: int, b: int)
    requires IntToString(a) == IntToString(b)
    ensures a == b
  {
    if a < 0 && b < 0 {
      assert IntToString(a)[1..] == NatToString(-a);
      assert IntToString(b)[1..] == NatToString(-b);
      NatToStringInjective(-a, -b);
    } else if a >= 0 && b >= 0 {
      NatToStringInjective(a, b);
    }
  }

  /** The length of the longest prefix of `s` made of digits. */
  function DigitRun(s: string): (n: nat)
    ensures n <= |s| && AllDigits(s[..n])
    ensures n < |s| ==> !IsDigit(s[n])
  {
    if s == [] || !IsDigit(s[0]) then 0
    else
      var k := DigitRun(s[1..]);
      assert s[..k + 1] == [s[0]] + s[1..][..k];
      k + 1
  }

  /**
    `parseInt(s)` for a string that starts with a digit: the value of its
    leading digits, whatever follows them. Any other string gives 0 here;
    `parseInt` would give NaN, or skip leading white space and a sign.
  */
  function ParseLeadingInt(s: string): (v: nat)
    ensures AllDigits(s) ==> v == DigitsValue(s)
  {
    var n := DigitRun(s);
    assert AllDigits(s) ==> n == |s| && s[..n] == s;
    DigitsValue(s[..n])
  }

  /** `parseInt` of the digits of `n` followed by a non-digit suffix is `n` again. */
  lemma {:induction false} ParseLeadingIntOfLabel(n: nat, suffix: string)
    requires suffix == [] || !IsDigit(suffix[0])
    ensures ParseLeadingInt(NatToString(n) + suffix) == n
  {
    var digits := NatToString(n);
    var s := digits + suffix;
    DigitRunOfPrefix(digits, suffix);
    assert s[..|digits|] == digits;
    NatToStringRoundTrip(n);
  }

  lemma {:induction false} DigitRunOfPrefix(digits: string, suffix: string)
    requires AllDigits(digits)
    requires suffix == [] || !IsDigit(suffix[0])
    ensures DigitRun(digits + suffix) == |digits|
  {
    if digits != [] {
      assert (digits + suffix)[1..] == digits[1..] + suffix;
      DigitRunOfPrefix(digits[1..], suffix);
    }
  }

  /** `s.padStart(width, fill)` with a one-character `fill`. */
  function PadStart(s: string, width: nat, fill: char): (r: string)
    ensures |r| == if |s| < width then width else |s|
    ensures r[|r| - |s|..] == s
    ensures forall i :: 0 <= i < |r| - |s| ==> r[i] == fill
  {
    if |s| < width then seq(width - |s|, _ => fill) + s else s
  }

  /** Two digits for a value below 100: a leading '0' when it has only one. */
  lemma {:induction false} TwoDigits(n: nat)
    requires n < 100
    ensures |PadStart(NatToString(n), 2, '0')| == 2
    ensures AllDigits(PadStart(NatToString(n), 2, '0'))
    ensures DigitsValue(PadStart(NatToString(n), 2, '0')) == n
  {
    var s := NatToString(n);
    var p := PadStart(s, 2, '0');
    NatToStringRoundTrip(n);
    if n < 10 {
      assert p == ['0'] + s;
      assert p[..1] == ['0'];
    } else {
      assert p == s;
    }
  }
}
