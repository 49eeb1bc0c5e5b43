/** The amounts a checkout can hold, and how far `verify` prints them exactly. Such an amount is
    `(x * 100.0).round() as i64` for a binary64 x, which not every integer is. */
module Printing {
  import opened Rows
  import opened Float64
  import opened Money
  import opened Text

  /** 2^53 + 3: up to here every amount a checkout can hold prints as itself. */
  const PRINT_LIMIT: int := 9007199254740995

  predicate PrintsAsItself(m: int) { m >= 1 && FormatTwo(Hundredths(m)) == FixedText(m) }

  // ---- The amounts a checkout can hold ----

  /** A rounded product that comes out as an integer below the saturation is finite. */
  lemma ProductIsFinite(x: F64, m: int)
    requires x.Finite? && MinorUnits(x) == m && 1 <= m < I64_MAX
    ensures Fl(x.value * 100.0).Finite? && RoundToI64(Fl(x.value * 100.0)) == m
    ensures Distance(Fl(x.value * 100.0).value, m as real) <= 0.5
    ensures x.value > 0.0
  {
    var p := x.value * 100.0;
    MulFinite(x, x.value, p);
    if p < 0.0 {
      FlNegated(-p);
      FlNonnegative(-p);
    }
  }

  /** No result crosses a binary64 number that the exact value does not cross. */
  lemma FlKeepsSide(p: real, c: int, q: int, bound: real)
    requires Fl(p).Finite? && q >= -1074 && -9007199254740992 < c < 9007199254740992
    requires bound == Times(c, Scale(q))
    ensures p >= bound ==> Fl(p).value >= bound
    ensures p <= bound ==> Fl(p).value <= bound
  {
    FlIsNearest(p, c, q);
  }

  lemma Powers()
    ensures Times(4503599627370496, Scale(0)) == 4503599627370496.0
    ensures Times(4503599627370496, Scale(1)) == 9007199254740992.0
    ensures Scale(0) == 1.0 && Scale(1) == 2.0
  {
    TimesIsProduct(4503599627370496, Scale(0));
    ScaleStep(0);
    TimesIsProduct(4503599627370496, Scale(1));
  }

  /** From 2^52 to 2^53 a product is rounded to an integer, and nothing is left to round. */
  lemma ProductIsInteger(p: real, m: int)
    requires FORMAT_LIMIT < m < INT_LIMIT && Fl(p).Finite?
    requires RoundToI64(Fl(p)) == m && Distance(Fl(p).value, m as real) <= 0.5
    ensures P52 <= p < P53 && GridSteps(p, 1.0) == m
  {
    Powers();
    FlKeepsSide(p, 4503599627370496, 0, P52);
    FlKeepsSide(p, 4503599627370496, 1, P53);
    IntegerGrid(p, m);
  }

  lemma IntegerGrid(p: real, m: int)
    requires P52 <= p < P53 && Scale(0) == 1.0 && RoundToI64(Fl(p)) == m && m < I64_MAX
    ensures GridSteps(p, 1.0) == m
  {
    var n := OnGrid(p, 0, 1.0);
    RoundsInteger(Fl(p), n as real * 1.0, n);
  }

  /** What p is rounded to where the last place is 2^e. */
  lemma OnGrid(p: real, e: int, u: real) returns (n: nat)
    requires u == Scale(e) && P52 * u <= p < P53 * u && 0.001 <= p <= P53 * 1024.0
    ensures n == GridSteps(p, u) && Fl(p) == Finite(n as real * u)
  {
    n := GridSteps(p, u);
    TimesIsProduct(n, u);
    FlIs(p, e, u, n);
  }

  lemma RoundsInteger(x: F64, w: real, n: int)
    requires x == Finite(w) && w == n as real && 0 <= n
    ensures RoundToI64(x) == if n > I64_MAX then I64_MAX else n
  {
  }

  /** Above 2^46 a binary64 number is a multiple of 2^-6. */
  lemma IsMultiple(x: Double) returns (k: int)
    requires x.Finite? && x.value > 70368744177664.0
    ensures x.value == k as real * 0.015625
  {
    Scales();
    var c, q :| -9007199254740992 <= c <= 9007199254740992 && q >= -1074 && x.value == Times(c, Scale(q));
    if q >= -6 {
      k := CoarserIsMultiple(c, q, -6);
      TimesIsProduct(k, 0.015625);
    } else {
      ScaleMonotone(q, -7);
      TimesOrder(c, 9007199254740992, Scale(q));
      TimesIsProduct(9007199254740992, Scale(q));
      assert false;
    }
  }

  /** There the amount's own quotient is x again, */
  lemma QuotientReturns(x: F64, k: int, m: int, q: real)
    requires FORMAT_LIMIT < m < INT_LIMIT && q == m as real / 100.0
    requires x == Finite(k as real * 0.015625) && Distance(x.value * 100.0, m as real) <= 0.5
    ensures Hundredths(m) == x
  {
    Scales();
    HundredthsIs(m, q);
    FlIs(q, -6, 0.015625, k);
  }

  lemma ProductNear(x: F64, m: int, p: real)
    requires x.Finite? && p == x.value * 100.0 && 0.0 <= p && GridSteps(p, 1.0) == m
    ensures Distance(p, m as real) <= 0.5 && (x.value >= 0.0 ==> FormatTwo(x) == FixedText(m))
  {
    TimesIsProduct(m, 1.0);
  }

  /** and prints as the integer its product was rounded to. */
  lemma LargePrints(x: Double, m: int)
    requires x.Finite? && MinorUnits(x) == m && FORMAT_LIMIT < m < INT_LIMIT
    ensures Hundredths(m) == x && PrintsAsItself(m)
  {
    var p := x.value * 100.0;
    ProductIsFinite(x, m);
    ProductIsInteger(p, m);
    ProductNear(x, m, p);
    var k := IsMultiple(x);
    QuotientReturns(x, k, m, m as real / 100.0);
  }

  // ---- At 2^53 ----

  /** An integer m whose conversion and quotient are known. */
  lemma QuotientAt(m: int, q: real, c: nat, k: nat)
    requires 9007199254740992 <= m <= 9007199254740996 && m == 2 * c && q == m as real / 100.0
    requires 2.0 * Distance(k as real * 0.015625, q) < 0.015625
    ensures Hundredths(m) == Finite(k as real * 0.015625)
  {
    Powers();
    Scales();
    FlIs(m as real, 1, 2.0, c);
    FlIs(q, -6, 0.015625, k);
    DivFinite(OfInt(m), m as real, q);
  }

  lemma PrintsAt(m: int, c: nat, k: nat, printed: nat)
    requires 9007199254740992 <= m <= 9007199254740996 && m == 2 * c
    requires 2.0 * Distance(k as real * 0.015625, m as real / 100.0) < 0.015625
    requires Distance(k as real * 1.5625, printed as real) < 0.5
    ensures FormatTwo(Hundredths(m)) == FixedText(printed)
  {
    QuotientAt(m, m as real / 100.0, c, k);
    FormatNear(Hundredths(m), printed, k as real * 1.5625);
  }

  /** From 2^53 on an amount is even: no binary64 number is odd there. */
  lemma LargeIsEven(x: F64, m: int)
    requires x.Finite? && MinorUnits(x) == m && INT_LIMIT < m <= PRINT_LIMIT
    ensures m % 2 == 0
  {
    var p := x.value * 100.0;
    ProductIsFinite(x, m);
    Powers();
    FlKeepsSide(p, 4503599627370496, 1, P53);
    FlKeepsSide(p, 4503599627370500, 1, 9007199254741000.0) by { TimesIsProduct(4503599627370500, Scale(1)); }
    EvenGrid(p, m);
  }

  lemma EvenGrid(p: real, m: int)
    requires P53 <= p <= 9007199254741000.0 && Scale(1) == 2.0 && RoundToI64(Fl(p)) == m
    ensures m % 2 == 0
  {
    var n := OnGrid(p, 1, 2.0);
    RoundsInteger(Fl(p), n as real * 2.0, 2 * n);
  }

  // ---- The limit ----

  /** `verify` prints every amount a checkout can hold exactly, up to the limit. */
  lemma CheckoutPrints(x: Double, m: int)
    requires MinorUnits(x) == m && 1 <= m <= PRINT_LIMIT
    ensures PrintsAsItself(m)
  {
    if m <= FORMAT_LIMIT {
      FormatIsExact(m);
    } else if m < INT_LIMIT {
      LargePrints(x, m);
    } else if m == INT_LIMIT {
      PrintsAt(m, 4503599627370496, 5764607523034235, m);
    } else {
      LargeIsEven(x, m);
      PrintsAt(m, 4503599627370497, 5764607523034236, m);
    }
  }

  /** 90071992547409.953125, which is 5764607523034237 / 64. */
  lemma TooLarge() returns (x: Double)
    ensures MinorUnits(x) == PRINT_LIMIT + 1
  {
    var k: nat := 5764607523034237;
    Scales();
    var c := Whole(k, Scale(-6));
    x := Finite(k as real * 0.015625);
    LargeProduct(x, x.value * 100.0);
  }

  lemma LargeProduct(x: F64, p: real)
    requires x.Finite? && x.value == 90071992547409.953125 && p == x.value * 100.0
    ensures MinorUnits(x) == PRINT_LIMIT + 1
  {
    MulFinite(x, x.value, p);
    LargeRounds(p);
    RoundsInteger(Fl(p), 9007199254740996.0, PRINT_LIMIT + 1);
  }

  lemma LargeRounds(p: real)
    requires 9007199254740995.0 < p < 9007199254740997.0
    ensures Fl(p) == Finite(9007199254740996.0)
  {
    Powers();
    FlIs(p, 1, 2.0, 4503599627370498);
  }

  /** It is held as 9007199254740996 and prints as one poisha less. */
  lemma PrintFails(m: int)
    requires m == PRINT_LIMIT + 1
    ensures FormatTwo(Hundredths(m)) == FixedText(m - 1) != FixedText(m)
  {
    PrintsAt(m, 4503599627370498, 5764607523034237, m - 1);
    FixedTextsDiffer(m - 1);
  }

  /** The limit is sharp: all amounts a checkout can hold up to some bound print as themselves if
      and only if the bound is at most the limit. */
  lemma PrintsUpTo(bound: int)
    ensures (forall x: Double :: 1 <= MinorUnits(x) <= bound ==> PrintsAsItself(MinorUnits(x)))
       <==> bound <= PRINT_LIMIT
  {
    if bound <= PRINT_LIMIT {
      forall x: Double | 1 <= MinorUnits(x) <= bound ensures PrintsAsItself(MinorUnits(x)) {
        CheckoutPrints(x, MinorUnits(x));
      }
    } else {
      var x := TooLarge();
      PrintFails(MinorUnits(x));
    }
  }
}
