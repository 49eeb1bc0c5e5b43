/** ASCII text of amounts: decimal digits, fixed two-decimal forms, and reading them back. */
module Text {
  import opened Rows
  import opened Float64
  import opened Money

  predicate IsDigit(c: char) { '0' <= c <= '9' }

  function DigitChar(d: nat): (c: char)
    requires d < 10
    ensures IsDigit(c) && DigitOf(c) == d
  {
    '0' + d as char
  }

  function DigitOf(c: char): (d: nat)
    requires IsDigit(c)
    ensures d < 10
  {
    (c - '0') as nat
  }

  predicate AllDigits(s: string) { forall i :: 0 <= i < |s| ==> IsDigit(s[i]) }

  /** The number a run of digits denotes. */
  function ValueOf(s: string): nat
    requires AllDigits(s)
  {
    if s == [] then 0 else 10 * ValueOf(s[..|s| - 1]) + DigitOf(s[|s| - 1])
  }

  /** The decimal form of a number, without leading zeros. */
  function Decimal(n: nat): (s: string)
    ensures AllDigits(s) && s != [] && ValueOf(s) == n
  {
    if n < 10 then [DigitChar(n)] else
      var s := Decimal(n / 10) + [DigitChar(n % 10)];
      assert s[..|s| - 1] == Decimal(n / 10);
      s
  }

  function TwoDigits(n: nat): string
    requires n < 100
  {
    [DigitChar(n / 10), DigitChar(n % 10)]
  }

  /** m minor units as "taka.poisha". */
  function FixedText(m: nat): string { Decimal(m / 100) + "." + TwoDigits(m % 100) }

  /** `{:.2}` of a binary64 value: its exact value to two decimals, ties to even. */
  function FormatTwo(x: F64): string {
    match x
    case NaN => "NaN"
    case PosInf => "inf"
    case NegInf => "-inf"
    case Finite(v) =>
      if v >= 0.0 then FixedText(GridSteps(v * 100.0, 1.0))
      else "-" + FixedText(GridSteps(-v * 100.0, 1.0))
  }

  function Filter(keep: char -> bool, s: string): (t: string)
    ensures forall c :: c in t ==> keep(c) && c in s
    ensures |t| <= |s|
  {
    if s == [] then [] else if keep(s[0]) then [s[0]] + Filter(keep, s[1..]) else Filter(keep, s[1..])
  }

  lemma {:induction false} FilterConcat(keep: char -> bool, a: string, b: string)
    ensures Filter(keep, a + b) == Filter(keep, a) + Filter(keep, b)
  {
    if a == [] {
      assert a + b == b;
    } else {
      assert (a + b)[1..] == a[1..] + b;
      FilterConcat(keep, a[1..], b);
    }
  }

  lemma {:induction false} FilterAll(keep: char -> bool, s: string)
    requires forall c :: c in s ==> keep(c)
    ensures Filter(keep, s) == s
  {
    if s != [] {
      FilterAll(keep, s[1..]);
    }
  }

  /** Filtering twice is filtering by both tests. */
  lemma {:induction false} FilterTwice(keep: char -> bool, more: char -> bool, s: string)
    requires forall c :: keep(c) ==> more(c)
    ensures Filter(keep, Filter(more, s)) == Filter(keep, s)
  {
    if s != [] {
      FilterTwice(keep, more, s[1..]);
    }
  }

  function Pow10(n: nat): (p: nat)
    ensures p >= 1
  {
    if n == 0 then 1 else 10 * Pow10(n - 1)
  }

  /** The offset of the first dot, or the length of the text. */
  function DotAt(s: string): (i: nat)
    ensures i <= |s| && '.' !in s[..i] && (i < |s| ==> s[i] == '.')
  {
    if s == [] then 0
    else if s[0] == '.' then 0
    else
      var i := 1 + DotAt(s[1..]);
      assert s[..i] == [s[0]] + s[1..][..i - 1];
      i
  }

  predicate IsPlain(c: char) { IsDigit(c) || c == '.' }

  /** `str::parse::<f64>` on text of digits and dots: the exact number it denotes, which the
      parser then rounds once. Fails on two dots and on no digit at all. */
  function ParseDecimal(s: string): Option<real>
    requires forall c :: c in s ==> IsPlain(c)
  {
    var dot := DotAt(s);
    var whole, fraction := s[..dot], if dot < |s| then s[dot + 1..] else [];
    if '.' in fraction || whole + fraction == [] then None
    else
      PlainIsDigits(s, whole, fraction);
      Some(ValueOf(whole + fraction) as real / Pow10(|fraction|) as real)
  }

  lemma PlainIsDigits(s: string, a: string, b: string)
    requires forall c :: c in s ==> IsPlain(c)
    requires forall c :: c in a || c in b ==> c in s
    requires '.' !in a && '.' !in b
    ensures AllDigits(a + b)
  {
    forall i | 0 <= i < |a + b| ensures IsDigit((a + b)[i]) {
      assert (a + b)[i] in a || (a + b)[i] in b;
    }
  }

  lemma ValueAppend(s: string, c: char)
    requires AllDigits(s) && IsDigit(c)
    ensures AllDigits(s + [c]) && ValueOf(s + [c]) == 10 * ValueOf(s) + DigitOf(c)
  {
    assert (s + [c])[..|s|] == s;
  }

  lemma DotFound(whole: string, fraction: string)
    requires '.' !in whole
    ensures DotAt(whole + "." + fraction) == |whole|
  {
    var s := whole + "." + fraction;
    assert s[|whole|] == '.';
    assert forall i :: 0 <= i < |whole| ==> s[i] == whole[i];
  }

  /** Whole part and fraction read as one number over a power of ten. */
  lemma ParseParts(whole: string, fraction: string)
    requires AllDigits(whole) && AllDigits(fraction) && whole != []
    ensures forall c :: c in whole + "." + fraction ==> IsPlain(c)
    ensures AllDigits(whole + fraction)
    ensures ParseDecimal(whole + "." + fraction)
         == Some(ValueOf(whole + fraction) as real / Pow10(|fraction|) as real)
  {
    var s := whole + "." + fraction;
    DotFound(whole, fraction);
    assert s[..|whole|] == whole && s[|whole| + 1..] == fraction;
  }

  /** Reading fails exactly on two dots or on no digit. */
  lemma ParseFailsIff(s: string)
    requires forall c :: c in s ==> IsPlain(c)
    ensures ParseDecimal(s) == None
       <==> (exists i, j :: 0 <= i < j < |s| && s[i] == '.' && s[j] == '.') || forall i :: 0 <= i < |s| ==> s[i] == '.'
  {
    var dot := DotAt(s);
    assert forall k :: 0 <= k < dot ==> s[..dot][k] == s[k] && s[k] != '.';
    if dot < |s| {
      var fraction := s[dot + 1..];
      if '.' in fraction {
        var j :| 0 <= j < |fraction| && fraction[j] == '.';
        assert s[dot + 1 + j] == '.';
      }
      forall i, j | 0 <= i < j < |s| && s[i] == '.' && s[j] == '.' ensures '.' in fraction {
        assert fraction[j - dot - 1] == '.';
      }
      if s[..dot] + fraction != [] && '.' !in fraction {
        if dot > 0 { assert s[0] in s[..dot]; } else { assert fraction[0] in fraction && s[dot + 1] == fraction[0]; }
      }
    } else {
      assert s[..dot] == s;
      assert |s| > 0 ==> s[0] in s[..dot];
    }
  }

  lemma NoDot(s: string)
    requires AllDigits(s)
    ensures DotAt(s) == |s|
  {
    assert DotAt(s) < |s| ==> IsDigit(s[DotAt(s)]);
  }

  /** Digits alone denote their number. */
  lemma WholeDenotes(n: nat)
    ensures forall c :: c in Decimal(n) ==> IsPlain(c)
    ensures ParseDecimal(Decimal(n)) == Some(n as real)
  {
    var s := Decimal(n);
    NoDot(s);
    assert s[..|s|] == s && s + [] == s;
  }

  /** The fixed form denotes exactly m hundredths. */
  lemma FixedDenotes(m: nat)
    ensures forall c :: c in FixedText(m) ==> IsPlain(c)
    ensures ParseDecimal(FixedText(m)) == Some(m as real / 100.0)
  {
    var whole, two := Decimal(m / 100), TwoDigits(m % 100);
    ParseParts(whole, two);
    FixedValue(m);
    HundredDenominator(whole + two, two);
  }

  lemma HundredDenominator(all: string, two: string)
    requires AllDigits(all) && |two| == 2
    ensures ValueOf(all) as real / Pow10(|two|) as real == ValueOf(all) as real / 100.0
  {
    assert Pow10(2) == 100;
  }

  lemma FixedValue(m: nat)
    ensures AllDigits(Decimal(m / 100) + TwoDigits(m % 100))
    ensures ValueOf(Decimal(m / 100) + TwoDigits(m % 100)) == m
  {
    var n := m % 100;
    ValueOfThree(Decimal(m / 100), DigitChar(n / 10), DigitChar(n % 10));
  }

  lemma ValueOfThree(whole: string, tens: char, ones: char)
    requires AllDigits(whole) && IsDigit(tens) && IsDigit(ones)
    ensures AllDigits(whole + [tens, ones])
    ensures ValueOf(whole + [tens, ones]) == 100 * ValueOf(whole) + 10 * DigitOf(tens) + DigitOf(ones)
  {
    ValueAppend(whole, tens);
    ValueAppend(whole + [tens], ones);
    assert whole + [tens, ones] == whole + [tens] + [ones];
  }

  /** 100 * 2^46: up to here an amount prints as itself, and the next one does not. */
  const FORMAT_LIMIT: int := 7036874417766400

  lemma SmallFormat(m: int, q: real)
    requires 1 <= m < FORMAT_LIMIT && q == m as real / 100.0
    ensures FormatTwo(Hundredths(m)) == FixedText(m)
  {
    Scales();
    HundredthsIs(m, q);
    QuotientWithin(m, q, -7, 0.0078125);
    FormatNear(Hundredths(m), m, Fl(q).value * 100.0);
  }

  /** From 2^46 taka on the last place of a quotient is 2^-6 taka. */
  lemma TopQuotient(m: int, q: real, c: nat)
    requires FORMAT_LIMIT <= m <= FORMAT_LIMIT + 1 && q == m as real / 100.0
    requires 4503599627370496 <= c && 2.0 * Distance(c as real * 0.015625, q) < 0.015625
    ensures Hundredths(m) == Finite(c as real * 0.015625)
  {
    Scales();
    HundredthsIs(m, q);
    FlIs(q, -6, 0.015625, c);
  }

  lemma TopFormat(m: int, c: nat, printed: nat)
    requires FORMAT_LIMIT <= m <= FORMAT_LIMIT + 1
    requires 4503599627370496 <= c && 2.0 * Distance(c as real * 0.015625, m as real / 100.0) < 0.015625
    requires Distance(c as real * 1.5625, printed as real) < 0.5
    ensures FormatTwo(Hundredths(m)) == FixedText(printed)
  {
    TopQuotient(m, m as real / 100.0, c);
    FormatNear(Hundredths(m), printed, c as real * 1.5625);
  }

  lemma FixedTextsDiffer(m: nat)
    ensures FixedText(m) != FixedText(m + 1)
  {
    FixedDenotes(m);
    FixedDenotes(m + 1);
  }

  /** Formatting the major-unit value of an amount prints the amount exactly. */
  lemma FormatIsExact(m: int)
    requires 1 <= m <= FORMAT_LIMIT
    ensures FormatTwo(Hundredths(m)) == FixedText(m)
  {
    if m < FORMAT_LIMIT {
      SmallFormat(m, m as real / 100.0);
    } else {
      TopFormat(m, 4503599627370496, m);
    }
  }

  lemma FormatNear(x: F64, m: nat, y: real)
    requires x.Finite? && x.value >= 0.0 && y == x.value * 100.0 && Distance(y, m as real) < 0.5
    ensures FormatTwo(x) == FixedText(m)
  {
    NearestCount(y, m);
  }

  lemma NearestCount(x: real, m: nat)
    requires 0.0 <= x && Distance(x, m as real) < 0.5
    ensures GridSteps(x, 1.0) == m
  {
    TimesIsProduct(m, 1.0);
    GridStepsIs(x, 1.0, m);
  }

  /** 70368744177664.01 prints as one poisha more. */
  lemma FormatFails(m: int)
    requires m == FORMAT_LIMIT + 1
    ensures FormatTwo(Hundredths(m)) == FixedText(m + 1) != FixedText(m)
  {
    TopFormat(m, 4503599627370497, m + 1);
    FixedTextsDiffer(m);
  }

  /** The limit is sharp. */
  lemma FormatUpTo(bound: int)
    ensures (forall m :: 1 <= m <= bound ==> FormatTwo(Hundredths(m)) == FixedText(m)) <==> bound <= FORMAT_LIMIT
  {
    if bound <= FORMAT_LIMIT {
      forall m | 1 <= m <= bound ensures FormatTwo(Hundredths(m)) == FixedText(m) { FormatIsExact(m); }
    } else {
      FormatFails(FORMAT_LIMIT + 1);
    }
  }
}
