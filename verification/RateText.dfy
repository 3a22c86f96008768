/**
 Rates as text (action.go and limit_policy.go): the controller writes a rate as "<n>kbit",
 the action turns it into decimal megabits, and the next read of the rules file turns that
 number back into kilobits.
 */
module RateText {
  import opened Common
  import opened LimitRules

  // ----- Decimal numerals -----

  function DigitChar(n: nat): char
    requires n < 10
  {
    '0' + n as char
  }

  function Itoa(n: nat): (s: string)
    ensures |s| > 0 && AllDigits(s)
  {
    if n < 10 then [DigitChar(n)] else Itoa(n / 10) + [DigitChar(n % 10)]
  }

  predicate AllDigits(s: string) { forall i :: 0 <= i < |s| ==> Digit(s[i]) }

  function Number(s: string): nat
    requires AllDigits(s)
  {
    if s == "" then 0 else 10 * Number(s[..|s| - 1]) + DigitVal(s[|s| - 1])
  }

  lemma {:induction false} NumberOfItoa(n: nat)
    ensures Number(Itoa(n)) == n
  {
    if n < 10 {
      assert Itoa(n)[..0] == "";
    } else {
      NumberOfItoa(n / 10);
      assert Itoa(n)[..|Itoa(n)| - 1] == Itoa(n / 10);
    }
  }

  /** Three digits with leading zeros. */
  function Pad3(n: nat): (s: string)
    requires n < 1000
    ensures |s| == 3 && AllDigits(s)
  {
    [DigitChar(n / 100), DigitChar(n / 10 % 10), DigitChar(n % 10)]
  }

  function TrimZeros(s: string): (t: string)
    requires AllDigits(s)
    ensures AllDigits(t) && |t| <= |s| && (|s| > 0 ==> |t| > 0)
  {
    if |s| > 1 && s[|s| - 1] == '0' then TrimZeros(s[..|s| - 1]) else s
  }

  // ----- Writing -----

  function KbitRateStr(k: int): string { if k <= 0 then "0" else Itoa(k) + "kbit" }

  datatype Parsed = Text(s: string) | BadRate

  /** Index of the first character that is not a digit. */
  function UnitAt(r: string, i: nat): nat
    requires i <= |r|
    ensures i <= UnitAt(r, i) <= |r|
    decreases |r| - i
  {
    if i < |r| && Digit(r[i]) then UnitAt(r, i + 1) else i
  }

  function KbitText(n: nat): string {
    if n == 0 then "0" else if n % 1000 == 0 then Itoa(n / 1000)
    else Itoa(n / 1000) + "." + TrimZeros(Pad3(n % 1000))
  }

  lemma {:induction false} UnitAtDigits(r: string, i: nat)
    requires i <= |r|
    ensures forall j :: i <= j < UnitAt(r, i) ==> Digit(r[j])
    ensures UnitAt(r, i) < |r| ==> !Digit(r[UnitAt(r, i)])
    decreases |r| - i
  {
    if i < |r| && Digit(r[i]) {
      UnitAtDigits(r, i + 1);
    }
  }

  /** The greatest number that fits a 64-bit integer. */
  const MAX_INT := 0x7FFF_FFFF_FFFF_FFFF

  /** A kilobit rate as decimal megabits.  Before "kbit" an empty number does not parse, nor one
      that does not fit 64 bits. */
  function RateToMbpsStr(r: string): Parsed {
    if r == "" || r == "0" then Text("0") else
      var i := UnitAt(r, 0);
      UnitAtDigits(r, 0);
      if i == |r| then BadRate
      else if r[i..] == "mbit" then Text(r[..i])
      else if r[i..] == "kbit" then
        (if i == 0 || Number(r[..i]) > MAX_INT then BadRate else Text(KbitText(Number(r[..i]))))
      else BadRate
  }

  /** The scan and the trimming as the program does them. */
  method RateToMbps(r: string) returns (res: Parsed)
    ensures res == RateToMbpsStr(r)
  {
    if r == "" || r == "0" {
      return Text("0");
    }
    var i := 0;
    while i < |r| && Digit(r[i])
      invariant 0 <= i <= |r| && UnitAt(r, i) == UnitAt(r, 0)
    {
      i := i + 1;
    }
    UnitAtDigits(r, 0);
    if i == |r| {
      return BadRate;
    }
    if r[i..] == "mbit" {
      return Text(r[..i]);
    }
    if r[i..] != "kbit" || i == 0 {
      return BadRate;
    }
    var n := Number(r[..i]);
    if n > MAX_INT {
      return BadRate;
    }
    if n == 0 {
      return Text("0");
    }
    if n % 1000 == 0 {
      return Text(Itoa(n / 1000));
    }
    var frac := Pad3(n % 1000);
    while |frac| > 1 && frac[|frac| - 1] == '0'
      invariant AllDigits(frac) && TrimZeros(frac) == TrimZeros(Pad3(n % 1000))
      decreases |frac|
    {
      frac := frac[..|frac| - 1];
    }
    return Text(Itoa(n / 1000) + "." + frac);
  }

  /** What the action accepts: "0", or a number with a unit, between the two limits. */
  predicate RateOK(r: string) {
    r == "0" ||
    (var i := UnitAt(r, 0);
     UnitAtDigits(r, 0);
     && i > 0
     && (r[i..] == "kbit" || r[i..] == "mbit")
     && Number(r[..i]) <= MAX_RATE_KBIT
     && MIN_RATE_KBIT <= (if r[i..] == "kbit" then Number(r[..i]) else Number(r[..i]) * 1000) <= MAX_RATE_KBIT)
  }

  // ----- Reading back -----

  function Pow10(n: nat): (p: nat)
    ensures p > 0
  {
    if n == 0 then 1 else 10 * Pow10(n - 1)
  }

  function DotAt(s: string, i: nat): (r: nat)
    requires i <= |s|
    ensures i <= r <= |s|
    decreases |s| - i
  {
    if i < |s| && s[i] != '.' then DotAt(s, i + 1) else i
  }

  /** The number a decimal text denotes: digits, and digits after at most one dot. */
  function Decimal(s: string): Option<real> {
    var p := DotAt(s, 0);
    if p == |s| then (if AllDigits(s) && s != "" then Some(Number(s) as real) else None)
    else if AllDigits(s[..p]) && AllDigits(s[p + 1..]) && p > 0 && p + 1 < |s| then
      Some(Number(s[..p]) as real + Number(s[p + 1..]) as real / Pow10(|s| - p - 1) as real)
    else None
  }

  lemma {:induction false} DotAtFirst(a: string, b: string, i: nat)
    requires AllDigits(a) && i <= |a| && (b == "" || b[0] == '.')
    ensures DotAt(a + b, i) == |a|
    decreases |a| - i
  {
    if i < |a| {
      assert (a + b)[i] == a[i];
      DotAtFirst(a, b, i + 1);
    }
  }

  lemma {:induction false} UnitAtEnd(a: string, b: string, i: nat)
    requires AllDigits(a) && i <= |a| && b != "" && !Digit(b[0])
    ensures UnitAt(a + b, i) == |a|
    decreases |a| - i
  {
    if i < |a| {
      assert (a + b)[i] == a[i];
      UnitAtEnd(a, b, i + 1);
    }
  }

  lemma TimesTen(a: nat, b: nat, c: nat, d: nat)
    requires a * b == c * d
    ensures a * (10 * b) == 10 * c * d
  {
    assert a * (10 * b) == 10 * (a * b);
    assert 10 * c * d == 10 * (c * d);
  }

  /** Trimming zeros keeps the fraction that the digits denote. */
  lemma {:induction false} TrimKeepsFraction(s: string)
    requires AllDigits(s) && s != ""
    ensures Number(TrimZeros(s)) * Pow10(|s|) == Number(s) * Pow10(|TrimZeros(s)|)
  {
    if |s| > 1 && s[|s| - 1] == '0' {
      var p := s[..|s| - 1];
      TrimKeepsFraction(p);
      TimesTen(Number(TrimZeros(p)), Pow10(|p|), Number(p), Pow10(|TrimZeros(p)|));
      assert Pow10(|s|) == 10 * Pow10(|p|) && Number(s) == 10 * Number(p);
    }
  }

  lemma NumberOfThree(a: char, b: char, c: char)
    requires Digit(a) && Digit(b) && Digit(c)
    ensures AllDigits([a, b, c]) && Number([a, b, c]) == 100 * DigitVal(a) + 10 * DigitVal(b) + DigitVal(c)
  {
    assert [a, b, c][..2] == [a, b] && [a, b][..1] == [a] && [a][..0] == "";
    assert Number([a, b]) == 10 * Number([a]) + DigitVal(b);
  }

  lemma DigitReads(n: nat)
    requires n < 10
    ensures Digit(DigitChar(n)) && DigitVal(DigitChar(n)) == n
  {
  }

  lemma ThreeDigits(n: nat)
    requires n < 1000
    ensures n == 100 * (n / 100) + 10 * (n / 10 % 10) + n % 10 && n / 100 < 10
  {
    assert n / 100 == n / 10 / 10;
  }

  lemma NumberOfPad3(n: nat)
    requires n < 1000
    ensures Number(Pad3(n)) == n
  {
    hide Number, DigitChar, Digit, DigitVal;
    ThreeDigits(n);
    DigitReads(n / 100);
    DigitReads(n / 10 % 10);
    DigitReads(n % 10);
    NumberOfThree(DigitChar(n / 100), DigitChar(n / 10 % 10), DigitChar(n % 10));
  }

  lemma FractionOf(t: nat, pt: nat, n: nat)
    requires pt > 0 && t * 1000 == n * pt
    ensures t as real / pt as real == n as real / 1000.0
  {
    assert t as real * 1000.0 == n as real * pt as real;
  }

  lemma DecimalOfWhole(whole: string)
    requires AllDigits(whole) && whole != ""
    ensures Decimal(whole) == Some(Number(whole) as real)
  {
    hide Number, Pow10, AllDigits, DotAt;
    DotAtFirst(whole, "", 0);
    assert whole + "" == whole;
  }

  lemma DotBetween(whole: string, frac: string)
    requires AllDigits(whole)
    ensures var s := whole + "." + frac;
      DotAt(s, 0) == |whole| && |s| == |whole| + 1 + |frac| && s[..|whole|] == whole && s[|whole| + 1..] == frac
  {
    hide AllDigits;
    DotAtFirst(whole, "." + frac, 0);
    assert whole + "." + frac == whole + ("." + frac);
    hide DotAt;
  }

  lemma DecimalOfParts(s: string, whole: string, frac: string)
    requires AllDigits(whole) && whole != "" && AllDigits(frac) && frac != ""
    requires DotAt(s, 0) == |whole| && |s| == |whole| + 1 + |frac| && s[..|whole|] == whole && s[|whole| + 1..] == frac
    ensures Decimal(s) == Some(Number(whole) as real + Number(frac) as real / Pow10(|frac|) as real)
  {
    hide Number, Pow10, AllDigits, DotAt;
  }

  lemma PaddedFraction(n: nat)
    requires n < 1000
    ensures var frac := TrimZeros(Pad3(n)); Number(frac) as real / Pow10(|frac|) as real == n as real / 1000.0
  {
    TrimKeepsFraction(Pad3(n));
    NumberOfPad3(n);
    assert Pow10(3) == 10 * Pow10(2) && Pow10(2) == 10 * Pow10(1);
    FractionOf(Number(TrimZeros(Pad3(n))), Pow10(|TrimZeros(Pad3(n))|), n);
  }

  lemma DecimalOfKbitText(n: nat)
    ensures Decimal(KbitText(n)) == Some(n as real / 1000.0)
  {
    hide Decimal, Pow10, TrimZeros, Pad3, Itoa;
    if n == 0 {
      assert Number("0") == 10 * Number("0"[..0]) + 0;
      DecimalOfWhole("0");
    } else {
      hide Number;
      NumberOfItoa(n / 1000);
      DecimalOfWhole(Itoa(n / 1000));
      DotBetween(Itoa(n / 1000), TrimZeros(Pad3(n % 1000)));
      DecimalOfParts(Itoa(n / 1000) + "." + TrimZeros(Pad3(n % 1000)), Itoa(n / 1000), TrimZeros(Pad3(n % 1000)));
      PaddedFraction(n % 1000);
      assert n == n / 1000 * 1000 + n % 1000;
    }
  }

  /** What the rules file holds after a rate is written, as the next read sees it. */
  function ReadBack(k: nat): Option<nat> {
    match RateToMbpsStr(KbitRateStr(k))
    case BadRate => None
    case Text(s) => match Decimal(s) case None => None case Some(m) => Some(MbpsToKbit(m))
  }

  lemma MbpsOfKbit(k: nat)
    requires ValidRate(k)
    ensures MbpsToKbit(k as real / 1000.0) == k
  {
    assert k as real / 1000.0 * 1000.0 == k as real;
  }

  lemma KbitStrParts(k: nat)
    requires k > 0
    ensures var s, n := KbitRateStr(k), |Itoa(k)|;
      UnitAt(s, 0) == n && s[..n] == Itoa(k) && s[n..] == "kbit" && s != "" && s != "0" && Number(s[..n]) == k
  {
    var s := KbitRateStr(k);
    UnitAtEnd(Itoa(k), "kbit", 0);
    NumberOfItoa(k);
    assert s[..|Itoa(k)|] == Itoa(k) && s[|Itoa(k)|..] == "kbit";
    assert s[|s| - 1] == 't';
  }

  lemma WrittenText(k: nat)
    ensures RateToMbpsStr(KbitRateStr(k)) == if k <= MAX_INT then Text(KbitText(k)) else BadRate
    ensures ValidRate(k) ==> RateOK(KbitRateStr(k))
  {
    if k > 0 {
      KbitStrParts(k);
    }
  }

  lemma ReadBackClamps(k: nat)
    ensures ReadBack(k) == if k <= MAX_INT then Some(MbpsToKbit(k as real / 1000.0)) else None
  {
    hide MbpsToKbit, Decimal, RateToMbpsStr, KbitRateStr, KbitText, RateOK, ValidRate;
    WrittenText(k);
    DecimalOfKbitText(k);
  }

  /** Every rate the controller can write is accepted and reads back unchanged; any other is
      clamped when it is read. */
  lemma RateRoundTrip(k: nat)
    ensures ValidRate(k) ==> RateOK(KbitRateStr(k))
    ensures ReadBack(k) == Some(k) <==> ValidRate(k)
  {
    assert ValidRate(k) ==> RateOK(KbitRateStr(k)) by { WrittenText(k); }
    ReadBackClamps(k);
    assert ValidRate(k) ==> k <= MAX_INT;
    if ValidRate(k) {
      MbpsOfKbit(k);
    }
  }

  function Unit(mega: bool): string { if mega then "mbit" else "kbit" }

  lemma UnitParts(d: string, mega: bool)
    requires AllDigits(d) && d != ""
    ensures var r := d + Unit(mega); UnitAt(r, 0) == |d| && r[..|d|] == d && r[|d|..] == Unit(mega) && r != "0"
  {
    UnitAtEnd(d, Unit(mega), 0);
    assert |d + Unit(mega)| >= 4;
  }

  /** A rate somebody writes, digits and a unit, is accepted exactly if it comes to 64 kilobits at least
      and 10 * 1024 * 1024 at most, and then reads back as what it says. */
  lemma AcceptedReadsBack(d: string, mega: bool)
    requires AllDigits(d) && d != ""
    ensures var r, k := d + Unit(mega), Number(d) * (if mega then 1000 else 1);
      && (RateOK(r) <==> 64 <= k <= 10485760)
      && (RateOK(r) ==>
          && RateToMbpsStr(r).Text? && Decimal(RateToMbpsStr(r).s).Some?
          && MbpsToKbit(Decimal(RateToMbpsStr(r).s).value) == k)
  {
    hide Number, Decimal, Itoa, KbitText, UnitAt, AllDigits;
    UnitParts(d, mega);
    var n := Number(d);
    DecimalOfWhole(d);
    DecimalOfKbitText(n);
    assert RateToMbpsStr(d + Unit(mega)) == if mega then Text(d) else if n > MAX_INT then BadRate
      else Text(KbitText(n));
    if !mega && ValidRate(n) {
      MbpsOfKbit(n);
    }
    if mega && ValidRate(1000 * n) {
      MbpsOfKbit(1000 * n);
      assert (1000 * n) as real / 1000.0 == n as real;
    }
  }
}
