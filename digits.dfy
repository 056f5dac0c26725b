/** Decimal digit strings: their value and the fixed-width and plain renderings of a number. */
module Digits {

  predicate IsDigit(c: char) { '0' <= c <= '9' }

  predicate AllDigits(s: string) { forall i | 0 <= i < |s| :: IsDigit(s[i]) }

  function DigitValue(c: char): (v: nat)
    requires IsDigit(c)
    ensures v < 10
  {
    c as int - '0' as int
  }

  function DigitChar(v: nat): (c: char)
    requires v < 10
    ensures IsDigit(c) && DigitValue(c) == v
  {
    ('0' as int + v) as char
  }

  function Pow10(n: nat): (p: nat)
    ensures p >= 1
  {
    if n == 0 then 1 else 10 * Pow10(n - 1)
  }

  /** The number a digit string denotes, most significant digit first. */
  function Value(s: string): nat
    requires AllDigits(s)
  {
    if s == [] then 0 else Value(s[..|s| - 1]) * 10 + DigitValue(s[|s| - 1])
  }

  /** Appending digits shifts the value left by their count. */
  lemma {:induction false} ValueAppend(a: string, b: string)
    requires AllDigits(a) && AllDigits(b)
    ensures AllDigits(a + b)
    ensures Value(a + b) == Value(a) * Pow10(|b|) + Value(b)
  {
    if b == [] {
      assert a + b == a;
    } else {
      var b' := b[..|b| - 1];
      var d := DigitValue(b[|b| - 1]);
      ValueAppend(a, b');
      assert (a + b)[..|a + b| - 1] == a + b';
      assert Value(a + b) == Value(a + b') * 10 + d;
      ShiftArith(Value(a), Pow10(|b'|), Value(b'), d);
    }
  }

  lemma ShiftArith(x: int, p: int, y: int, d: int)
    ensures (x * p + y) * 10 + d == x * (p * 10) + (y * 10 + d)
  {
  }

  /** Cutting a digit string after k digits: the head is shifted by the tail's length. */
  lemma ValueSplit(s: string, k: nat)
    requires AllDigits(s) && k <= |s|
    ensures AllDigits(s[..k]) && AllDigits(s[k..])
    ensures Value(s) == Value(s[..k]) * Pow10(|s| - k) + Value(s[k..])
  {
    assert s == s[..k] + s[k..];
    ValueAppend(s[..k], s[k..]);
  }

  lemma Pow10Split(n: nat)
    requires n >= 2
    ensures Pow10(n) == 100 * Pow10(n - 2)
  {
  }

  /** A string of n digits denotes less than 10^n. */
  lemma {:induction false} ValueBound(s: string)
    requires AllDigits(s)
    ensures Value(s) < Pow10(|s|)
  {
    if s != [] {
      ValueBound(s[..|s| - 1]);
    }
  }

  /** Digits that are all '0' denote zero, and only they do. */
  lemma {:induction false} ValueZero(s: string)
    requires AllDigits(s)
    ensures Value(s) == 0 <==> forall i | 0 <= i < |s| :: s[i] == '0'
  {
    if s != [] {
      ValueZero(s[..|s| - 1]);
    }
  }

  /** The last `width` decimal digits of n, zero-padded on the left (strftime's %m, %d, %Y; format's :02). */
  function Fixed(n: nat, width: nat): (s: string)
    ensures |s| == width && AllDigits(s)
  {
    if width == 0 then "" else Fixed(n / 10, width - 1) + [DigitChar(n % 10)]
  }

  /** Padding loses nothing when the number fits the width. */
  lemma {:induction false} FixedValue(n: nat, width: nat)
    requires n < Pow10(width)
    ensures Value(Fixed(n, width)) == n
  {
    if width > 0 {
      FixedValue(n / 10, width - 1);
      var s := Fixed(n, width);
      assert s[..|s| - 1] == Fixed(n / 10, width - 1);
    }
  }

  /** Python's str() of a non-negative int: no leading zeros, "0" for zero. */
  function Numeral(n: nat): (s: string)
    ensures |s| >= 1 && AllDigits(s) && Value(s) == n
  {
    if n < 10 then [DigitChar(n)]
    else
      var s := Numeral(n / 10) + [DigitChar(n % 10)];
      assert s[..|s| - 1] == Numeral(n / 10);
      s
  }
}
