/**
 * Decimal digits in text: reading a run of ASCII digits as a number and
 * writing a number back, zero-padded to a fixed width or without padding.
 * Dates are read and written in this form, and so are the amounts of the
 * CSV export.
 */
module Numerals {

  predicate IsDigit(c: char) {
    '0' <= c <= '9'
  }

  predicate AllDigits(s: string) {
    forall i :: 0 <= i < |s| ==> IsDigit(s[i])
  }

  function DigitValue(c: char): (n: nat)
    requires IsDigit(c)
    ensures n < 10
  {
    c as int - '0' as int
  }

  function Digit(n: nat): (c: char)
    requires n < 10
    ensures IsDigit(c) && DigitValue(c) == n
  {
    ('0' as int + n) as char
  }

  function Pow10(k: nat): (p: nat)
    ensures p >= 1
  {
    if k == 0 then 1 else 10 * Pow10(k - 1)
  }

  /** The number a run of decimal digits denotes (most significant first). */
  function Value(s: string): (n: nat)
    requires AllDigits(s)
    ensures n < Pow10(|s|)
  {
    if s == [] then 0 else 10 * Value(s[..|s| - 1]) + DigitValue(s[|s| - 1])
  }

  lemma ValueOfTwo(s: string)
    requires |s| == 2 && AllDigits(s)
    ensures Value(s) == 10 * DigitValue(s[0]) + DigitValue(s[1])
  {
    assert s[..1][..0] == [];
    assert Value(s[..1]) == DigitValue(s[0]);
  }

  /** Two more digits after `x` multiply its value by a hundred. */
  lemma ValueAppendTwo(x: string, y: string)
    requires AllDigits(x) && |y| == 2 && AllDigits(y)
    ensures AllDigits(x + y) && Value(x + y) == 100 * Value(x) + Value(y)
  {
    var xy := x + y;
    assert xy[..|xy| - 1] == x + [y[0]];
    assert (x + [y[0]])[..|x|] == x;
    ValueOfTwo(y);
  }

  lemma DivModHundred(q: nat, r: nat)
    requires r < 100
    ensures (100 * q + r) / 100 == q && (100 * q + r) % 100 == r
  {
  }

  /** `n` written with exactly two digits (`%02d`). */
  function Pad2(n: nat): (r: string)
    requires n < 100
    ensures |r| == 2 && AllDigits(r) && Value(r) == n
  {
    var r := [Digit(n / 10), Digit(n % 10)];
    ValueOfTwo(r);
    r
  }

  /** `n` written with exactly four digits (`%04d`). */
  function Pad4(n: nat): (r: string)
    requires n < 10000
    ensures |r| == 4 && AllDigits(r) && Value(r) == n
  {
    ValueAppendTwo(Pad2(n / 100), Pad2(n % 100));
    Pad2(n / 100) + Pad2(n % 100)
  }

  /** Two digits are the padded spelling of the number they denote. */
  lemma Pad2OfValue(s: string)
    requires |s| == 2 && AllDigits(s)
    ensures Pad2(Value(s)) == s
  {
    ValueOfTwo(s);
  }

  /** Four digits are the padded spelling of the number they denote. */
  lemma Pad4OfValue(s: string)
    requires |s| == 4 && AllDigits(s)
    ensures Pad4(Value(s)) == s
  {
    var hi, lo := s[..2], s[2..];
    assert s == hi + lo;
    ValueAppendTwo(hi, lo);
    DivModHundred(Value(hi), Value(lo));
    Pad2OfValue(hi);
    Pad2OfValue(lo);
  }

  /** `n` in decimal without leading zeros (`str(n)` for a natural number). */
  function NatText(n: nat): (r: string)
    ensures 1 <= |r| && AllDigits(r) && Value(r) == n
    ensures |r| > 1 ==> r[0] != '0'
  {
    if n < 10 then [Digit(n)]
    else
      var r := NatText(n / 10) + [Digit(n % 10)];
      assert r[..|r| - 1] == NatText(n / 10);
      r
  }
}
