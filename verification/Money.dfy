/** Whole minor units on their way through major units: `m as f64 / 100.0`, and back by
    `(x * 100.0).round() as i64`. How far they survive it, and where they first do not. */
module Money {
  import opened Float64

  /** 100 * 2^45 + 1: up to here every amount comes back, and the next one does not. */
  const EXACT_LIMIT: int := 3518437208883201

  /** `m as f64 / 100.0`. */
  function Hundredths(m: int): Double {
    QuotientIsBinary64(OfInt(m), 100.0);
    DivConst(OfInt(m), 100.0)
  }

  lemma QuotientIsBinary64(x: F64, k: real)
    requires k > 0.0
    ensures IsBinary64(DivConst(x, k))
  {
    if x.Finite? { FlIsBinary64(x.value / k); }
  }

  /** `(x * 100.0).round() as i64`. */
  function MinorUnits(x: F64): int { RoundToI64(MulConst(x, 100.0)) }

  /** What an amount of m comes back as. */
  function Passage(m: int): int { MinorUnits(Hundredths(m)) }

  lemma Scales()
    ensures Scale(-1) == 0.5 && Scale(-6) == 0.015625 && Scale(-7) == 0.0078125 && Scale(-8) == 0.00390625
  {
    var zero := 0;
    ScaleStep(zero - 1); ScaleStep(zero - 2); ScaleStep(zero - 3); ScaleStep(zero - 4);
    ScaleStep(zero - 5); ScaleStep(zero - 6); ScaleStep(zero - 7); ScaleStep(zero - 8);
  }

  /** Integers convert exactly, so only the division rounds. */
  lemma HundredthsIs(m: int, q: real)
    requires 1 <= m < INT_LIMIT && q == m as real / 100.0
    ensures Hundredths(m) == Fl(q)
  {
    OfIntExact(m);
    DivFinite(OfInt(m), m as real, q);
  }

  lemma DivFinite(x: F64, v: real, q: real)
    requires x == Finite(v) && q == v / 100.0
    ensures DivConst(x, 100.0) == Fl(q)
  {
  }

  lemma MulFinite(x: F64, v: real, p: real)
    requires x == Finite(v) && p == v * 100.0
    ensures MulConst(x, 100.0) == Fl(p)
  {
  }

  /** How near the quotient is, by how large it is. */
  lemma QuotientWithin(m: int, q: real, e: int, u: real)
    requires 1 <= m < INT_LIMIT && q == m as real / 100.0 && u == Scale(e) && q < P53 * u
    ensures Fl(q).Finite? && Fl(q).value > 0.0 && 2.0 * Distance(Fl(q).value, q) <= u
  {
    FlWithin(q, e, u);
  }

  /** Below 2^45 taka the quotient is off by at most 2^-9, and the product by at most 1/4. */
  lemma ProductWithin(v: real, m: int, p: real)
    requires 1 <= m < 3518437208883200 && p == v * 100.0 && Distance(p, m as real) <= 0.1953125
    ensures Fl(p).Finite? && Distance(Fl(p).value, m as real) < 0.5
  {
    Scales();
    FlWithin(p, -1, 0.5);
  }

  lemma RoundsTo(x: F64, w: real, m: int)
    requires x == Finite(w) && 0 <= m <= INT_LIMIT && Distance(w, m as real) < 0.5
    ensures RoundToI64(x) == m
  {
  }

  lemma SmallPassage(m: int)
    requires 1 <= m < 3518437208883200
    ensures Passage(m) == m
  {
    var q := m as real / 100.0;
    Scales();
    HundredthsIs(m, q);
    QuotientWithin(m, q, -8, 0.00390625);
    var v := Fl(q).value;
    var p := v * 100.0;
    ProductWithin(v, m, p);
    MulFinite(Hundredths(m), v, p);
    RoundsTo(MulConst(Hundredths(m), 100.0), Fl(p).value, m);
  }

  /** At 2^45 taka the last place of a quotient becomes 2^-7 taka; that of a product is 1/2. */
  lemma EdgeQuotient(m: int, q: real, steps: nat)
    requires 3518437208883200 <= m <= 3518437208883203 && q == m as real / 100.0
    requires Distance(steps as real * 0.0078125, (m - 3518437208883200) as real / 100.0) < 0.00390625
    ensures Hundredths(m) == Finite(35184372088832.0 + steps as real * 0.0078125)
  {
    Scales();
    HundredthsIs(m, q);
    FlIs(q, -7, 0.0078125, 4503599627370496 + steps);
  }

  lemma EdgeRounds(p: real, halves: nat)
    requires halves <= 20 && Distance(halves as real * 0.5, p - 3518437208883200.0) < 0.25
    requires 3518437208883200.0 <= p
    ensures Fl(p) == Finite(3518437208883200.0 + halves as real * 0.5)
  {
    Scales();
    FlIs(p, -1, 0.5, 7036874417766400 + halves);
  }

  lemma EdgeProduct(x: F64, v: real, p: real, halves: nat)
    requires x == Finite(v) && p == v * 100.0 && 3518437208883200.0 <= p && halves <= 20
    requires Distance(halves as real * 0.5, p - 3518437208883200.0) < 0.25
    ensures MulConst(x, 100.0) == Finite(3518437208883200.0 + halves as real * 0.5)
  {
    MulFinite(x, v, p);
    EdgeRounds(p, halves);
  }

  lemma EdgePassage(m: int, steps: nat, halves: nat)
    requires 3518437208883200 <= m <= 3518437208883203
    requires Distance(steps as real * 0.0078125, (m - 3518437208883200) as real / 100.0) < 0.00390625
    requires halves <= 20 && Distance(halves as real * 0.5, steps as real * 0.78125) < 0.25
    ensures Passage(m) == 3518437208883200 + (halves + 1) / 2
  {
    EdgeQuotient(m, m as real / 100.0, steps);
    var v := 35184372088832.0 + steps as real * 0.0078125;
    EdgeProduct(Hundredths(m), v, v * 100.0, halves);
    HalvesRound(MulConst(Hundredths(m), 100.0), halves);
  }

  lemma HalvesRound(x: F64, halves: nat)
    requires halves <= 20 && x == Finite(3518437208883200.0 + halves as real * 0.5)
    ensures RoundToI64(x) == 3518437208883200 + (halves + 1) / 2
  {
  }

  /** `(m as f64 / 100.0 * 100.0).round() as i64` gives m back. */
  lemma PassageIsExact(m: int)
    requires 1 <= m <= EXACT_LIMIT
    ensures Passage(m) == m
  {
    if m < 3518437208883200 {
      SmallPassage(m);
    } else if m == 3518437208883200 {
      EdgePassage(m, 0, 0);
    } else {
      EdgePassage(m, 1, 2);
    }
  }

  /** 35184372088832.02 comes back as one poisha more. */
  lemma PassageFails(m: int)
    requires m == EXACT_LIMIT + 1
    ensures Passage(m) == m + 1
  {
    EdgePassage(m, 3, 5);
  }

  /** The limit is sharp: all amounts up to some bound come back if and only if the bound is at
      most the limit. */
  lemma ExactUpTo(bound: int)
    ensures (forall m :: 1 <= m <= bound ==> Passage(m) == m) <==> bound <= EXACT_LIMIT
  {
    if bound <= EXACT_LIMIT {
      forall m | 1 <= m <= bound ensures Passage(m) == m { PassageIsExact(m); }
    } else {
      PassageFails(EXACT_LIMIT + 1);
    }
  }

  /** The quotient is an amount a checkout accepts. */
  lemma HundredthsPositive(m: int)
    requires 1 <= m < INT_LIMIT
    ensures Hundredths(m).Finite? && Hundredths(m).value > 0.0
  {
    var q := m as real / 100.0;
    HundredthsIs(m, q);
    FlClose(q);
  }

  /** Beyond it the passage is still within one minor unit, while integers convert exactly. */
  lemma PassageIsNear(m: int)
    requires 1 <= m < INT_LIMIT
    ensures -1 <= Passage(m) - m <= 1 && Passage(m) >= 1
  {
    if m <= EXACT_LIMIT {
      PassageIsExact(m);
    } else {
      FarPassage(m, m as real / 100.0);
    }
  }

  /** Below 2^47 taka the quotient is off by at most 2^-7, and the product by at most 1/2. */
  lemma FarPassage(m: int, q: real)
    requires EXACT_LIMIT < m < INT_LIMIT && q == m as real / 100.0
    ensures -1 <= Passage(m) - m <= 1
  {
    Scales();
    HundredthsIs(m, q);
    QuotientWithin(m, q, -6, 0.015625);
    var v := Fl(q).value;
    var p := v * 100.0;
    FarProduct(m, p);
    MulFinite(Hundredths(m), v, p);
    RoundsNear(MulConst(Hundredths(m), 100.0), Fl(p).value, m);
  }

  lemma FarProduct(m: int, p: real)
    requires EXACT_LIMIT < m < INT_LIMIT && Distance(p, m as real) <= 0.78125
    ensures Fl(p).Finite? && Distance(Fl(p).value, m as real) < 1.3
  {
    FlWithin(p, 0, 1.0);
  }

  lemma RoundsNear(x: F64, w: real, m: int)
    requires x == Finite(w) && 10 <= m <= INT_LIMIT && Distance(w, m as real) < 1.3
    ensures -1 <= RoundToI64(x) - m <= 1
  {
  }
}
