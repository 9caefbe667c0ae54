/** Decimal printing and the text facts every printer of the engine relies on:
    a number that is followed by something other than a digit can be read back,
    and so can everything after it. */
module Text {

  predicate IsDigit(c: char) { '0' <= c <= '9' }

  function Digit(d: nat): (c: char)
    requires d < 10
    ensures IsDigit(c)
  {
    '0' + d as char
  }

  /** `String(n)` for a non-negative integer. */
  function Decimal(n: nat): (s: string)
    ensures |s| > 0
    ensures forall i :: 0 <= i < |s| ==> IsDigit(s[i])
  {
    if n < 10 then [Digit(n)] else Decimal(n / 10) + [Digit(n % 10)]
  }

  /** `String(n)` for any integer. */
  function Integer(n: int): (s: string)
    ensures |s| > 0
  {
    if n < 0 then "-" + Decimal(-n) else Decimal(n)
  }

  /** The number a string of digits denotes. */
  function Numeral(s: string): nat
    requires forall i :: 0 <= i < |s| ==> IsDigit(s[i])
  {
    if s == [] then 0 else
      var last := s[|s| - 1];
      assert IsDigit(last);
      10 * Numeral(s[..|s| - 1]) + (last as int - '0' as int)
  }

  lemma {:induction false} NumeralOfDecimal(n: nat)
    ensures Numeral(Decimal(n)) == n
  {
    var s := Decimal(n);
    if n < 10 {
      assert s[..0] == [];
    } else {
      NumeralOfDecimal(n / 10);
      assert s[..|s| - 1] == Decimal(n / 10);
    }
  }

  lemma DecimalInjective(m: nat, n: nat)
    requires Decimal(m) == Decimal(n)
    ensures m == n
  {
    NumeralOfDecimal(m);
    NumeralOfDecimal(n);
  }

  /** The text `x` cannot continue a number. */
  predicate EndsNumber(x: string) { x == [] || !IsDigit(x[0]) }

  /** How many digits a text starts with. */
  function DigitRun(s: string): nat {
    if s != [] && IsDigit(s[0]) then 1 + DigitRun(s[1..]) else 0
  }

  lemma {:induction false} DigitRunOfNumber(d: string, x: string)
    requires forall i :: 0 <= i < |d| ==> IsDigit(d[i])
    requires EndsNumber(x)
    ensures DigitRun(d + x) == |d|
  {
    if d == [] {
      assert d + x == x;
    } else {
      assert (d + x)[1..] == d[1..] + x;
      DigitRunOfNumber(d[1..], x);
    }
  }

  lemma DecimalUnambiguous(m: nat, x: string, n: nat, y: string)
    requires Decimal(m) + x == Decimal(n) + y
    requires EndsNumber(x) && EndsNumber(y)
    ensures m == n && x == y
  {
    var a, b := Decimal(m), Decimal(n);
    DigitRunOfNumber(a, x);
    DigitRunOfNumber(b, y);
    assert a == (a + x)[..|a|] && b == (b + y)[..|b|];
    assert x == (a + x)[|a|..] && y == (b + y)[|b|..];
    DecimalInjective(m, n);
  }

  lemma IntegerSign(n: int, x: string)
    ensures (Integer(n) + x)[0] == '-' <==> n < 0
    ensures n < 0 ==> (Integer(n) + x)[1..] == Decimal(-n) + x
  {
    if n < 0 {
    } else {
      assert IsDigit(Decimal(n)[0]);
    }
  }

  lemma IntegerUnambiguous(m: int, x: string, n: int, y: string)
    requires Integer(m) + x == Integer(n) + y
    requires EndsNumber(x) && EndsNumber(y)
    ensures m == n && x == y
  {
    IntegerSign(m, x);
    IntegerSign(n, y);
    if m < 0 {
      DecimalUnambiguous(-m, x, -n, y);
    } else {
      DecimalUnambiguous(m, x, n, y);
    }
  }

  lemma IntegerInjective(m: int, n: int)
    requires Integer(m) == Integer(n)
    ensures m == n
  {
    assert Integer(m) + [] == Integer(m) && Integer(n) + [] == Integer(n);
    IntegerUnambiguous(m, [], n, []);
  }
}
