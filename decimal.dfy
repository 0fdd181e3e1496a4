/** Decimal numerals: `int(s)` on a string of ASCII digits and `str(n)` of a
    non-negative integer, which the period labels are built from. */
module Decimal {

  predicate IsDigit(c: char) {
    '0' <= c <= '9'
  }

  predicate AllDigits(s: string) {
    forall i :: 0 <= i < |s| ==> IsDigit(s[i])
  }

  /** A non-empty run of digits, the only kind of year text the program passes to `int`. */
  predicate IsNumeral(s: string) {
    |s| > 0 && AllDigits(s)
  }

  /** The form `str(n)` produces: digits without a leading zero (except "0" itself). */
  predicate IsCanonical(s: string) {
    IsNumeral(s) && (s[0] == '0' ==> |s| == 1)
  }

  function DigitChar(d: nat): (c: char)
    requires d < 10
    ensures IsDigit(c)
  {
    ('0' as int + d) as char
  }

  function DigitValue(c: char): (d: nat)
    requires IsDigit(c)
    ensures d < 10 && DigitChar(d) == c
  {
    c as int - '0' as int
  }

  /** `int(s)`: the number a string of digits denotes. */
  function Value(s: string): nat
    requires AllDigits(s)
  {
    if s == [] then 0 else Value(s[..|s| - 1]) * 10 + DigitValue(s[|s| - 1])
  }

  /** `str(n)`: the canonical numeral of `n`. */
  function Render(n: nat): (s: string)
    ensures IsCanonical(s)
  {
    if n < 10 then [DigitChar(n)] else Render(n / 10) + [DigitChar(n % 10)]
  }

  /** `int(str(n)) == n`: reading is the inverse of rendering. */
  lemma {:induction false} ValueRender(n: nat)
    ensures Value(Render(n)) == n
  {
    if n >= 10 {
      var s := Render(n);
      assert s[..|s| - 1] == Render(n / 10);
      ValueRender(n / 10);
    }
  }

  /** A numeral whose first digit is not zero denotes a positive number. */
  lemma {:induction false} ValuePositive(s: string)
    requires IsNumeral(s) && s[0] != '0'
    ensures Value(s) >= 1
    ensures |s| >= 2 ==> Value(s) >= 10
  {
    if |s| >= 2 {
      var p := s[..|s| - 1];
      ValuePositive(p);
    }
  }

  lemma DivModTen(a: nat, d: nat)
    requires d < 10
    ensures (a * 10 + d) / 10 == a && (a * 10 + d) % 10 == d
  {
  }

  /** `str(int(s)) == s` for a canonical numeral: rendering is the inverse of reading. */
  lemma {:induction false} RenderValue(s: string)
    requires IsCanonical(s)
    ensures Render(Value(s)) == s
  {
    if |s| >= 2 {
      var p := s[..|s| - 1];
      var d := DigitValue(s[|s| - 1]);
      var v := Value(s);
      assert IsCanonical(p);
      assert v == Value(p) * 10 + d;
      ValuePositive(s);
      DivModTen(Value(p), d);
      RenderValue(p);
      assert Render(v) == Render(v / 10) + [DigitChar(v % 10)];
      assert s == p + [s[|s| - 1]];
    }
  }

  /** Distinct numbers have distinct numerals. */
  lemma RenderInjective(m: nat, n: nat)
    requires Render(m) == Render(n)
    ensures m == n
  {
    ValueRender(m);
    ValueRender(n);
  }

  /** The value of a four-digit year, digit by digit. */
  lemma ValueFourDigits(s: string)
    requires |s| == 4 && AllDigits(s)
    ensures Value(s) == 1000 * DigitValue(s[0]) + 100 * DigitValue(s[1]) + 10 * DigitValue(s[2]) + DigitValue(s[3])
  {
    assert s[..3][..2] == s[..2] && s[..2][..1] == s[..1] && s[..1][..0] == [];
    assert Value(s[..1]) == DigitValue(s[0]);
    assert Value(s[..2]) == Value(s[..1]) * 10 + DigitValue(s[1]);
    assert Value(s[..3]) == Value(s[..2]) * 10 + DigitValue(s[2]);
    assert Value(s) == Value(s[..3]) * 10 + DigitValue(s[3]);
  }
}
