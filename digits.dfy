/** ASCII digit strings: what a regular-expression `\d+` captures, what `int(...)` reads
    and what `str(...)` writes for an integer. */
module Digits {

  predicate IsDigit(c: char) { '0' <= c <= '9' }

  predicate AllDigits(s: string) { forall i :: 0 <= i < |s| ==> IsDigit(s[i]) }

  /** A non-empty run of digits: one capture of `\d+`. */
  predicate IsDigitRun(s: string) { |s| > 0 && AllDigits(s) }

  /** The length of the longest prefix of `s` made of digits: how far a greedy `\d+` reaches. */
  function RunLength(s: string): (n: nat)
    ensures n <= |s|
    ensures AllDigits(s[..n])
    ensures n < |s| ==> !IsDigit(s[n])
  {
    if s == [] || !IsDigit(s[0]) then 0
    else
      var n := 1 + RunLength(s[1..]);
      assert s[..n] == [s[0]] + s[1..][..n - 1];
      n
  }

  /** A digit string followed by a non-digit (or by nothing) is exactly the greedy run. */
  lemma {:induction false} RunLengthOf(p: string, rest: string)
    requires AllDigits(p)
    requires rest == [] || !IsDigit(rest[0])
    ensures RunLength(p + rest) == |p|
  {
    if p != [] {
      assert (p + rest)[1..] == p[1..] + rest;
      RunLengthOf(p[1..], rest);
    }
  }

  function DigitValue(c: char): (d: nat)
    requires IsDigit(c)
    ensures d < 10
  {
    c as int - '0' as int
  }

  function DigitChar(d: nat): (c: char)
    requires d < 10
    ensures IsDigit(c) && DigitValue(c) == d
  {
    ('0' as int + d) as char
  }

  /** The number a digit string denotes, leading zeros allowed: Python's `int(s)`. */
  function Value(s: string): (v: nat)
    requires AllDigits(s)
    ensures v == 0 <==> forall i :: 0 <= i < |s| ==> s[i] == '0'
  {
    if s == [] then 0
    else
      Value(s[..|s| - 1]) * 10 + DigitValue(s[|s| - 1])
  }

  /** The decimal numeral of a natural number, without leading zeros: Python's `str(n)`. */
  function Decimal(n: nat): (s: string)
    ensures IsDigitRun(s)
    ensures |s| == 1 || s[0] != '0'
  {
    if n < 10 then [DigitChar(n)]
    else Decimal(n / 10) + [DigitChar(n % 10)]
  }

  /** Reading back a written numeral gives the number. */
  lemma {:induction false} ValueOfDecimal(n: nat)
    ensures Value(Decimal(n)) == n
  {
    if n >= 10 {
      var s := Decimal(n);
      assert s[..|s| - 1] == Decimal(n / 10);
      ValueOfDecimal(n / 10);
    }
  }

  /** Python's `str(n)` for any integer: a minus sign before the numeral of `-n` when negative. */
  function IntToString(n: int): (s: string)
    ensures n >= 0 ==> IsDigitRun(s) && Value(s) == n && (|s| == 1 || s[0] != '0')
    ensures n < 0 ==> |s| > 1 && s[0] == '-' && IsDigitRun(s[1..]) && Value(s[1..]) == -n && s[1] != '0'
  {
    ValueOfDecimal(if n < 0 then -n else n);
    if n < 0 then
      var s := "-" + Decimal(-n);
      assert s[1..] == Decimal(-n);
      s
    else Decimal(n)
  }
}
