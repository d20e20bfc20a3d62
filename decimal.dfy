/**
 * ASCII decimal numerals: their value, and the canonical numeral of a
 * natural number (Python's `str(n)` for `n >= 0`).
 */
module Decimal {

  predicate IsDigit(c: char) {
    '0' <= c <= '9'
  }

  predicate AllDigits(s: string) {
    forall k :: 0 <= k < |s| ==> IsDigit(s[k])
  }

  predicate NoDigits(s: string) {
    forall k :: 0 <= k < |s| ==> !IsDigit(s[k])
  }

  function DigitValue(c: char): (d: nat)
    requires IsDigit(c)
    ensures d < 10
  {
    c as int - '0' as int
  }

  function DigitChar(d: nat): (c: char)
    requires d < 10
    ensures IsDigit(c) && DigitValue(c) == d
  {
    ('0' as int + d) as char
  }

  function Pow10(n: nat): (p: nat)
    ensures p >= 1
  {
    if n == 0 then 1 else 10 * Pow10(n - 1)
  }

  /** The value of a numeral, most significant digit first. */
  function Value(s: string): nat
    requires AllDigits(s)
  {
    if s == [] then 0 else Value(s[..|s| - 1]) * 10 + DigitValue(s[|s| - 1])
  }

  /** Reading the digits of `a` then those of `b`: the digits of `a` are
      worth `10^|b|` times more. */
  lemma {:induction false} ValueAppend(a: string, b: string)
    requires AllDigits(a) && AllDigits(b)
    ensures AllDigits(a + b)
    ensures Value(a + b) == Value(a) * Pow10(|b|) + Value(b)
  {
    if b != [] {
      var ab, b' := a + b, b[..|b| - 1];
      var d := DigitValue(b[|b| - 1]);
      assert ab[..|ab| - 1] == a + b';
      ValueAppend(a, b');
      assert ab[|ab| - 1] == b[|b| - 1];
      var va, vb, p := Value(a), Value(b'), Pow10(|b'|);
      assert Pow10(|b|) == 10 * p;
      assert Value(ab) == Value(a + b') * 10 + d;
      ShiftDigit(va, vb, p, d);
    } else {
      assert a + b == a;
    }
  }

  lemma ShiftDigit(va: nat, vb: nat, p: nat, d: nat)
    ensures (va * p + vb) * 10 + d == va * (10 * p) + (vb * 10 + d)
  {
    assert (va * p) * 10 == va * (10 * p);
  }

  /** `str(n)`: the shortest numeral of `n`. */
  function Numeral(n: nat): (s: string)
    ensures s != [] && AllDigits(s)
    ensures |s| > 1 ==> s[0] != '0'
  {
    if n < 10 then [DigitChar(n)] else Numeral(n / 10) + [DigitChar(n % 10)]
  }

  /** Reading back the numeral of `n` gives `n`. */
  lemma {:induction false} ValueNumeral(n: nat)
    ensures Value(Numeral(n)) == n
  {
    if n >= 10 {
      var s := Numeral(n);
      assert s[..|s| - 1] == Numeral(n / 10);
      ValueNumeral(n / 10);
    }
  }

  /** Different numbers have different numerals. */
  lemma NumeralInjective(m: nat, n: nat)
    requires Numeral(m) == Numeral(n)
    ensures m == n
  {
    ValueNumeral(m);
    ValueNumeral(n);
  }
}
