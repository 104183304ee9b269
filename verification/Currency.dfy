/** Stroop amounts as display strings: one printer and two independently written parsers. */
module Currency {
  import opened Decimal

  const STROOPS_PER_XLM: nat := 10_000_000

  function PadStart(s: string, width: nat): string {
    if |s| < width then Zeros(width - |s|) + s else s
  }

  function PadEnd(s: string, width: nat): string {
    if |s| < width then s + Zeros(width - |s|) else s
  }

  /** slice(0, k) */
  function Take(s: string, k: nat): string {
    if k < |s| then s[..k] else s
  }

  /** split(".") */
  function Split(s: string): (parts: seq<string>)
    ensures parts != []
  {
    if s == [] then [""]
    else
      var rest := Split(s[1..]);
      if s[0] == '.' then [""] + rest else [[s[0]] + rest[0]] + rest[1..]
  }

  function StroopsToDisplay(stroops: nat, decimals: nat): string {
    var whole := stroops / STROOPS_PER_XLM;
    var fraction := stroops % STROOPS_PER_XLM;
    Print(whole) + "." + Take(PadStart(Print(fraction), 7), decimals)
  }

  function Whole(amount: string): string { Split(amount)[0] }

  function Fraction(amount: string): string {
    var parts := Split(amount);
    if |parts| > 1 then parts[1] else ""
  }

  /** Digits with at most the first dot mattering, either side possibly empty. */
  predicate IsAmount(amount: string) {
    AllDigits(Whole(amount)) && AllDigits(Fraction(amount))
  }

  function DisplayToStroops(amount: string): nat
    requires IsAmount(amount)
  {
    var padded := Take(Fraction(amount) + "0000000", 7);
    TakenDigits(Fraction(amount));
    Parse(Whole(amount)) * STROOPS_PER_XLM + Parse(padded)
  }

  function StripZeros(s: string): string {
    if s != [] && s[0] == '0' then StripZeros(s[1..]) else s
  }

  function XlmToStroops(amount: string): string {
    var fraction := Take(PadEnd(Fraction(amount), 7), 7);
    var trimmed := StripZeros(Whole(amount) + fraction);
    if trimmed == "" then "0" else trimmed
  }

  lemma TakenDigits(fraction: string)
    requires AllDigits(fraction)
    ensures AllDigits(Take(fraction + "0000000", 7)) && |Take(fraction + "0000000", 7)| == 7
    ensures Take(PadEnd(fraction, 7), 7) == Take(fraction + "0000000", 7)
  {
  }

  lemma {:induction false} SplitDigits(s: string)
    requires AllDigits(s)
    ensures Split(s) == [s]
  {
    if s != [] {
      SplitDigits(s[1..]);
      assert [s[0]] + s[1..] == s;
    }
  }

  lemma {:induction false} SplitAtDot(whole: string, fraction: string)
    requires AllDigits(whole) && AllDigits(fraction)
    ensures Split(whole + "." + fraction) == [whole, fraction]
  {
    var s := whole + "." + fraction;
    if whole == [] {
      assert s[1..] == fraction;
      SplitDigits(fraction);
    } else {
      assert s[1..] == whole[1..] + "." + fraction;
      SplitAtDot(whole[1..], fraction);
      assert [whole[0]] + whole[1..] == whole;
    }
  }

  lemma {:induction false} StripZerosIsPrint(s: string)
    requires AllDigits(s)
    ensures (if StripZeros(s) == "" then "0" else StripZeros(s)) == Print(Parse(s))
  {
    if s == [] {
    } else if s[0] == '0' {
      LeadingZero(s);
      StripZerosIsPrint(s[1..]);
    } else {
      ParsePrint(s);
    }
  }

  /** The two parsers agree: xlmToStroops is the canonical decimal of displayToStroops, on every
      amount. */
  lemma ParsersAgree(amount: string)
    requires IsAmount(amount)
    ensures XlmToStroops(amount) == Print(DisplayToStroops(amount))
  {
    var fraction := Take(Fraction(amount) + "0000000", 7);
    TakenDigits(Fraction(amount));
    ParseConcat(Whole(amount), fraction);
    assert Pow10(7) == STROOPS_PER_XLM;
    StripZerosIsPrint(Whole(amount) + fraction);
  }

  /** A fraction in seven digits has its own value. */
  lemma PaddedFraction(fraction: nat)
    requires fraction < STROOPS_PER_XLM
    ensures var p := PadStart(Print(fraction), 7); |p| == 7 && AllDigits(p) && Parse(p) == fraction
  {
    assert Pow10(7) == STROOPS_PER_XLM;
    PrintParse(fraction);
    PrintLength(fraction, 7);
    ParseZeros(7 - |Print(fraction)|);
    ParseConcat(Zeros(7 - |Print(fraction)|), Print(fraction));
  }

  /** Printing with d decimals and parsing back rounds down to a multiple of 10^(7-d), so nothing
      is lost with seven or more. */
  lemma RoundTrip(stroops: nat, d: nat)
    ensures IsAmount(StroopsToDisplay(stroops, d))
    ensures DisplayToStroops(StroopsToDisplay(stroops, d)) ==
              if d < 7 then stroops - stroops % Pow10(7 - d) else stroops
  {
    var whole, fraction := stroops / STROOPS_PER_XLM, stroops % STROOPS_PER_XLM;
    var p := PadStart(Print(fraction), 7);
    PaddedFraction(fraction);
    PrintParse(whole);
    var kept := Take(p, d);
    SplitAtDot(Print(whole), kept);
    var back := Take(kept + "0000000", 7);
    if d < 7 {
      assert back == kept + Zeros(7 - d);
      Truncated(stroops, d, p);
    } else {
      assert back == p;
    }
  }

  /** Keeping d of the seven decimals `p` rounds down. */
  lemma Truncated(stroops: nat, d: nat, p: string)
    requires d < 7 && |p| == 7 && AllDigits(p) && Parse(p) == stroops % STROOPS_PER_XLM
    ensures AllDigits(p[..d] + Zeros(7 - d))
    ensures (stroops / STROOPS_PER_XLM) * STROOPS_PER_XLM + Parse(p[..d] + Zeros(7 - d))
              == stroops - stroops % Pow10(7 - d)
  {
    var whole, kept, cut, unit := stroops / STROOPS_PER_XLM, p[..d], p[d..], Pow10(7 - d);
    assert p == kept + cut;
    ParseZeros(7 - d);
    ParseConcat(kept, Zeros(7 - d));
    ParseConcat(kept, cut);
    ParseBelow(cut);
    WholeIsMultiple(whole, d);
    RoundsDown(stroops, Parse(kept), whole * Pow10(d), unit, Parse(cut));
  }

  lemma RoundsDown(n: nat, a: nat, b: nat, unit: nat, r: nat)
    requires r < unit && n == b * unit + a * unit + r
    ensures b * unit + a * unit == n - n % unit
  {
    assert unit * (a + b) == b * unit + a * unit;
    QuotientUnique(unit, a + b, r, n / unit, n % unit);
  }

  lemma WholeIsMultiple(whole: nat, d: nat)
    requires d < 7
    ensures whole * STROOPS_PER_XLM == whole * Pow10(d) * Pow10(7 - d)
  {
    PowSplit(d, 7 - d);
    assert Pow10(7) == STROOPS_PER_XLM;
    assert whole * Pow10(d) * Pow10(7 - d) == whole * (Pow10(d) * Pow10(7 - d));
  }

  /** The other way round: parsing and printing gives the amount's canonical form, the whole part
      without needless zeros and exactly seven decimals. */
  lemma Canonical(amount: string)
    requires IsAmount(amount)
    ensures StroopsToDisplay(DisplayToStroops(amount), 7) ==
              Print(Parse(Whole(amount))) + "." + Take(Fraction(amount) + "0000000", 7)
  {
    var f := Take(Fraction(amount) + "0000000", 7);
    TakenDigits(Fraction(amount));
    assert Parse(f) < STROOPS_PER_XLM && PadStart(Print(Parse(f)), 7) == f by { SevenDigits(f); }
    QuotientUnique(STROOPS_PER_XLM, Parse(Whole(amount)), Parse(f),
                   DisplayToStroops(amount) / STROOPS_PER_XLM, DisplayToStroops(amount) % STROOPS_PER_XLM);
  }

  /** Seven digits are the padded print of their value. */
  lemma SevenDigits(f: string)
    requires AllDigits(f) && |f| == 7
    ensures Parse(f) < STROOPS_PER_XLM && PadStart(Print(Parse(f)), 7) == f
  {
    assert Pow10(7) == STROOPS_PER_XLM;
    ParseBelow(f);
    PaddedFraction(Parse(f));
    SameLengthSameValue(PadStart(Print(Parse(f)), 7), f);
  }
}
