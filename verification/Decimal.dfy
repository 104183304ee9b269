/** Decimal digit strings: printing and parsing of naturals, and printing of integers. */
module Decimal {

  predicate IsDigit(c: char) { '0' <= c <= '9' }

  predicate AllDigits(s: string) { forall i :: 0 <= i < |s| ==> IsDigit(s[i]) }

  function DigitChar(d: nat): (c: char)
    requires d < 10
    ensures IsDigit(c) && c as int - '0' as int == d
  {
    '0' + d as char
  }

  function DigitValue(c: char): nat
    requires IsDigit(c)
  {
    c as int - '0' as int
  }

  function Print(n: nat): string {
    if n < 10 then [DigitChar(n)] else Print(n / 10) + [DigitChar(n % 10)]
  }

  /** The value of a digit string; the empty string is 0. */
  function Parse(s: string): nat
    requires AllDigits(s)
  {
    if s == [] then 0 else Parse(s[..|s| - 1]) * 10 + DigitValue(s[|s| - 1])
  }

  function PrintInt(n: int): string {
    if n < 0 then "-" + Print(-n) else Print(n)
  }

  function Pow10(k: nat): (p: nat)
    ensures p > 0
  {
    if k == 0 then 1 else 10 * Pow10(k - 1)
  }

  function Zeros(k: nat): string { seq(k, _ => '0') }

  lemma {:induction false} PrintParse(n: nat)
    ensures AllDigits(Print(n)) && Print(n) != [] && Parse(Print(n)) == n
    ensures Print(n)[0] == '0' <==> n == 0
  {
    if n >= 10 {
      PrintParse(n / 10);
      assert Print(n)[..|Print(n)| - 1] == Print(n / 10);
    } else {
      assert Print(n)[..0] == [];
    }
  }

  /** A digit string is the printed form of its value exactly when it has no needless zero. */
  lemma {:induction false} ParsePrint(s: string)
    requires AllDigits(s) && s != [] && (s[0] != '0' || |s| == 1)
    ensures Print(Parse(s)) == s
  {
    var front, last := s[..|s| - 1], s[|s| - 1];
    if |s| == 1 {
      assert front == [];
    } else {
      ParsePrintFront(front);
      ParsePrint(front);
    }
  }

  lemma {:induction false} ParsePrintFront(s: string)
    requires AllDigits(s) && s != [] && s[0] != '0'
    ensures Parse(s) > 0
  {
    if |s| > 1 {
      ParsePrintFront(s[..|s| - 1]);
    } else {
      assert s[..0] == [];
    }
  }

  lemma PrintIntInjective(a: int, b: int)
    requires PrintInt(a) == PrintInt(b)
    ensures a == b
  {
    PrintParse(if a < 0 then -a else a);
    PrintParse(if b < 0 then -b else b);
    assert (PrintInt(a)[0] == '-') == (a < 0) && (PrintInt(b)[0] == '-') == (b < 0);
    if a < 0 {
      assert PrintInt(a)[1..] == Print(-a) && PrintInt(b)[1..] == Print(-b);
    }
  }

  lemma {:induction false} ParseConcat(a: string, b: string)
    requires AllDigits(a) && AllDigits(b)
    ensures AllDigits(a + b) && Parse(a + b) == Parse(a) * Pow10(|b|) + Parse(b)
    decreases |b|
  {
    if b == [] {
      assert a + b == a;
    } else {
      var front := b[..|b| - 1];
      ParseConcat(a, front);
      assert (a + b)[..|a + b| - 1] == a + front;
      assert Parse(a) * Pow10(|b|) == Parse(a) * Pow10(|front|) * 10;
    }
  }

  lemma {:induction false} ParseZeros(k: nat)
    ensures AllDigits(Zeros(k)) && Parse(Zeros(k)) == 0
  {
    if k > 0 {
      ParseZeros(k - 1);
      assert Zeros(k)[..k - 1] == Zeros(k - 1);
    }
  }

  lemma {:induction false} ParseBelow(s: string)
    requires AllDigits(s)
    ensures Parse(s) < Pow10(|s|)
  {
    if s != [] { ParseBelow(s[..|s| - 1]); }
  }

  /** Two digit strings of one length with one value are the same string. */
  lemma {:induction false} SameLengthSameValue(a: string, b: string)
    requires AllDigits(a) && AllDigits(b) && |a| == |b| && Parse(a) == Parse(b)
    ensures a == b
  {
    if a != [] {
      var n := |a| - 1;
      var front, front' := a[..n], b[..n];
      LastDigitUnique(Parse(front), DigitValue(a[n]), Parse(front'), DigitValue(b[n]));
      SameLengthSameValue(front, front');
      assert a == front + [a[n]] && b == front' + [b[n]];
    }
  }

  lemma LastDigitUnique(x: nat, d: nat, y: nat, e: nat)
    requires d < 10 && e < 10 && x * 10 + d == y * 10 + e
    ensures x == y && d == e
  {
  }

  lemma {:induction false} PrintLength(n: nat, k: nat)
    requires n < Pow10(k) && k > 0
    ensures |Print(n)| <= k
  {
    if n >= 10 {
      assert Pow10(1) == 10;
      PrintLength(n / 10, k - 1);
    }
  }

  /** A leading zero adds nothing. */
  lemma LeadingZero(s: string)
    requires AllDigits(s) && s != [] && s[0] == '0'
    ensures Parse(s) == Parse(s[1..])
  {
    ParseZeros(1);
    ParseConcat(Zeros(1), s[1..]);
    assert Zeros(1) + s[1..] == s;
  }

  lemma {:induction false} PowSplit(a: nat, b: nat)
    ensures Pow10(a) * Pow10(b) == Pow10(a + b)
  {
    if a > 0 {
      PowSplit(a - 1, b);
      assert Pow10(a) * Pow10(b) == 10 * (Pow10(a - 1) * Pow10(b));
    }
  }

  lemma Multiples(unit: nat, x: nat, y: nat)
    requires x < y
    ensures unit * x + unit <= unit * y
  {
    assert unit * y == unit * x + unit * (y - x);
    assert unit * (y - x) == unit * (y - x - 1) + unit;
  }

  /** Quotient and remainder are unique. */
  lemma QuotientUnique(unit: nat, x: nat, r: nat, y: nat, s: nat)
    requires r < unit && s < unit && unit * x + r == unit * y + s
    ensures x == y && r == s
  {
    if x < y { Multiples(unit, x, y); } else if y < x { Multiples(unit, y, x); }
  }
}
