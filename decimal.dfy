/**
 * Decimal rendering of non-negative integers as JavaScript's `String(n)` does,
 * `String.prototype.padStart` with a one-character fill, and reading a digit
 * string back as a number. Shared by the queue page and the arena page.
 */
module Decimal {

  predicate IsDigit(c: char) {
    '0' <= c <= '9'
  }

  predicate AllDigits(s: string) {
    forall i :: 0 <= i < |s| ==> IsDigit(s[i])
  }

  function DigitChar(d: nat): (c: char)
    requires d < 10
    ensures IsDigit(c) && DigitValue(c) == d
  {
    (('0' as int) + d) as char
  }

  function DigitValue(c: char): nat
    requires IsDigit(c)
  {
    (c as int) - ('0' as int)
  }

  /** `String(n)` for a non-negative integer: its shortest decimal form. */
  function NatToString(n: nat): (r: string)
    ensures 1 <= |r| && AllDigits(r)
    ensures |r| == 1 <==> n < 10
    ensures |r| > 1 ==> r[0] != '0'
  {
    if n < 10 then [DigitChar(n)] else NatToString(n / 10) + [DigitChar(n % 10)]
  }

  /** The value of a string of decimal digits (leading zeros allowed). */
  function ParseDecimal(s: string): nat
    requires AllDigits(s)
  {
    if s == [] then 0 else ParseDecimal(s[..|s| - 1]) * 10 + DigitValue(s[|s| - 1])
  }

  /** Reading a rendered number back gives the number. */
  lemma {:induction false} ParseNatToString(n: nat)
    ensures ParseDecimal(NatToString(n)) == n
  {
    var r := NatToString(n);
    if n >= 10 {
      ParseNatToString(n / 10);
      assert r[..|r| - 1] == NatToString(n / 10);
    }
  }

  /** One leading zero does not change the value of a digit string. */
  lemma {:induction false} ParseLeadingZero(s: string)
    requires AllDigits(s)
    ensures AllDigits("0" + s) && ParseDecimal("0" + s) == ParseDecimal(s)
  {
    if s != [] {
      ParseLeadingZero(s[..|s| - 1]);
      assert ("0" + s)[..|s|] == "0" + s[..|s| - 1];
    }
  }

  /** `n` copies of `c`. */
  function Repeat(c: char, n: nat): (r: string)
    ensures |r| == n
    ensures forall i :: 0 <= i < n ==> r[i] == c
  {
    if n == 0 then [] else [c] + Repeat(c, n - 1)
  }

  /** `s.padStart(width, [fill])`: prefix copies of `fill` until `s` is `width` long. */
  function PadStart(s: string, width: nat, fill: char): (r: string)
    ensures |r| == if |s| >= width then |s| else width
    ensures r[|r| - |s|..] == s
    ensures forall i :: 0 <= i < |r| - |s| ==> r[i] == fill
  {
    if |s| >= width then s else Repeat(fill, width - |s|) + s
  }

  /** Leading zeros do not change the value of a digit string. */
  lemma {:induction false} ParseZeros(n: nat, s: string)
    requires AllDigits(s)
    ensures AllDigits(Repeat('0', n) + s)
    ensures ParseDecimal(Repeat('0', n) + s) == ParseDecimal(s)
  {
    if n > 0 {
      ParseZeros(n - 1, s);
      var t := Repeat('0', n - 1) + s;
      ParseLeadingZero(t);
      assert Repeat('0', n) + s == "0" + t;
    } else {
      assert Repeat('0', n) + s == s;
    }
  }

  /** Zero-padding a digit string keeps its value. */
  lemma ParsePadStart(s: string, width: nat)
    requires AllDigits(s)
    ensures AllDigits(PadStart(s, width, '0'))
    ensures ParseDecimal(PadStart(s, width, '0')) == ParseDecimal(s)
  {
    if |s| < width {
      ParseZeros(width - |s|, s);
    }
  }

  /** `String(n).padStart(2, '0')`, the two-digit field of a clock display. */
  function TwoDigits(n: nat): (r: string)
    ensures |r| >= 2
    ensures n < 100 <==> |r| == 2
  {
    NatToStringLength(n);
    PadStart(NatToString(n), 2, '0')
  }

  /** The field reads back as the number, and is the plain rendering from 100 on. */
  lemma TwoDigitsParse(n: nat)
    ensures AllDigits(TwoDigits(n)) && ParseDecimal(TwoDigits(n)) == n
    ensures n >= 100 ==> TwoDigits(n) == NatToString(n)
  {
    ParseNatToString(n);
    ParsePadStart(NatToString(n), 2);
    NatToStringLength(n);
  }

  /** Numbers below 100 take at most two digits, and at least three from 100 on. */
  lemma {:induction false} NatToStringLength(n: nat)
    ensures n < 100 ==> |NatToString(n)| <= 2
    ensures n >= 100 ==> |NatToString(n)| >= 3
  {
    if n >= 10 { NatToStringLength(n / 10); }
  }
}
