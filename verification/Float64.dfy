/** The binary64 arithmetic that carries amounts: values are the reals they denote, and
    every operation rounds as section 4.3.1 of IEEE 754-2019 (roundTiesToEven) says. */
module Float64 {

  /** A binary64 datum. NaN payloads and signed zeros are not distinguished. */
  datatype F64 = Finite(value: real) | PosInf | NegInf | NaN

  const P52: real := 4503599627370496.0
  const P53: real := 9007199254740992.0
  /** 2^1024, the first magnitude that overflows, as four factors of 2^256. */
  const OVERFLOW: real :=
    115792089237316195423570985008687907853269984665640564039457584007913129639936.0
    * 115792089237316195423570985008687907853269984665640564039457584007913129639936.0
    * 115792089237316195423570985008687907853269984665640564039457584007913129639936.0
    * 115792089237316195423570985008687907853269984665640564039457584007913129639936.0
  /** 2^53: below it every integer is a binary64 number. */
  const INT_LIMIT: int := 9007199254740992
  const I64_MAX: int := 9223372036854775807
  const I64_MIN: int := -9223372036854775808

  function Distance(a: real, b: real): real { if a < b then b - a else a - b }

  /** 2^e for any integer exponent. */
  function Scale(e: int): (s: real)
    ensures s > 0.0
    decreases if e < 0 then -e else e
  {
    if e == 0 then 1.0 else if e > 0 then 2.0 * Scale(e - 1) else Scale(e + 1) / 2.0
  }

  lemma {:induction false} ScaleMonotone(a: int, b: int)
    requires a <= b
    ensures Scale(a) <= Scale(b)
    decreases b - a
  {
    if a < b {
      ScaleMonotone(a, b - 1);
    }
  }

  lemma ScaleStep(e: int)
    ensures Scale(e + 1) == 2.0 * Scale(e)
  {
  }

  /** How far x is from the binade of 53-bit integers. */
  function PlaceMeasure(x: real): int
    requires x > 0.0
  {
    if x >= P53 then x.Floor else (P53 / x).Floor
  }

  lemma DoublingDescends(h: real)
    requires h >= P52
    ensures 0 <= PlaceMeasure(h) < PlaceMeasure(2.0 * h)
  {
    if h < P53 { QuotientAtMost(h); }
  }

  lemma QuotientAtMost(h: real)
    requires h >= P52
    ensures 0 <= (P53 / h).Floor <= 2
  {
    var q := P53 / h;
    assert q * h == P53;
  }

  /** The exponent of the last place of a positive x when it carries 53 significant bits. */
  function LastPlace(x: real): (e: int)
    requires x > 0.0
    ensures P52 * Scale(e) <= x < P53 * Scale(e)
    decreases PlaceMeasure(x)
  {
    if x >= P53 then
      DoublingDescends(x / 2.0);
      LastPlace(x / 2.0) + 1
    else if x < P52 then
      HalvingDescends(x);
      LastPlace(x * 2.0) - 1
    else
      0
  }

  lemma HalvingDescends(x: real)
    requires 0.0 < x < P52
    ensures 0 <= PlaceMeasure(x * 2.0) < PlaceMeasure(x)
  {
    var y := P53 / x;
    assert y * x == P53;
    assert y > 2.0;
    assert P53 / (x * 2.0) == y / 2.0;
    assert (y / 2.0).Floor < y.Floor;
  }

  /** Nearest integer, ties away from zero: `f64::round`, which is exact. */
  function RoundHalfAway(y: real): (n: int)
    ensures Distance(n as real, y) <= 0.5
  {
    if y >= 0.0 then (y + 0.5).Floor else -((0.5 - y).Floor)
  }

  /** Ties go away from zero, on both sides. */
  lemma HalvesGoAway(n: int)
    requires n >= 0
    ensures RoundHalfAway(n as real + 0.5) == n + 1 && RoundHalfAway(-(n as real) - 0.5) == -(n + 1)
  {
  }

  /** k * u by repeated addition. */
  function Times(k: int, u: real): real
    decreases if k < 0 then -k else k
  {
    if k == 0 then 0.0 else if k > 0 then Times(k - 1, u) + u else Times(k + 1, u) - u
  }

  /** x / ulp to the nearest integer, a tie going to the even one. */
  function GridSteps(x: real, ulp: real): (n: nat)
    requires 0.0 <= x && 0.0 < ulp
    ensures 2.0 * Distance(Times(n, ulp), x) <= ulp
    ensures 2.0 * Distance(Times(n, ulp), x) == ulp ==> n % 2 == 0
    decreases (x / ulp).Floor
  {
    if x >= 2.0 * ulp then
      StepDescends(x, ulp);
      var n := GridSteps(x - 2.0 * ulp, ulp);
      TimesPlusTwo(n, ulp);
      n + 2
    else
      TimesPlusTwo(0, ulp);
      if 2.0 * x <= ulp then 0 else if 2.0 * x < 3.0 * ulp then 1 else 2
  }

  /** The multiple of ulp nearest to x. */
  function Grid(x: real, ulp: real): (r: real)
    requires 0.0 <= x && 0.0 < ulp
    ensures 2.0 * Distance(r, x) <= ulp
  {
    Times(GridSteps(x, ulp), ulp)
  }

  lemma TimesPlusTwo(c: nat, u: real)
    ensures Times(c + 1, u) == Times(c, u) + u && Times(c + 2, u) == Times(c, u) + 2.0 * u
  {
  }

  lemma StepDescends(x: real, ulp: real)
    requires 0.0 < ulp && x >= 2.0 * ulp
    ensures 0 <= ((x - 2.0 * ulp) / ulp).Floor < (x / ulp).Floor
  {
    var less := x - 2.0 * ulp;
    var y := Quotient(x, ulp);
    var z := Quotient(less, ulp);
    TwoApart(x, y, z, ulp);
  }

  lemma Quotient(x: real, ulp: real) returns (y: real)
    requires ulp != 0.0
    ensures y == x / ulp && y * ulp == x
  {
    y := x / ulp;
  }

  lemma TwoApart(x: real, y: real, z: real, ulp: real)
    requires 0.0 < ulp && y * ulp == x && z * ulp == x - 2.0 * ulp && x >= 2.0 * ulp
    ensures y == z + 2.0 && z >= 0.0
  {
    ZeroProduct(y - z - 2.0, ulp);
    ZeroProductSign(z, ulp);
  }

  lemma ZeroProduct(d: real, ulp: real)
    requires 0.0 < ulp && d * ulp == 0.0
    ensures d == 0.0
  {
  }

  lemma ZeroProductSign(z: real, ulp: real)
    requires 0.0 < ulp && z * ulp >= 0.0
    ensures z >= 0.0
  {
  }

  lemma ScaledOrder(a: real, b: real, k: real)
    requires a <= b && k >= 0.0
    ensures a * k <= b * k
  {
    assert (b - a) * k >= 0.0;
  }

  /** The exponent of the last place, no finer than the smallest subnormal. */
  function Place(x: real): (e: int)
    requires x > 0.0
    ensures -1074 <= e && LastPlace(x) <= e
  {
    if LastPlace(x) < -1074 then -1074 else LastPlace(x)
  }

  /** The exact result x, delivered as a binary64 datum. */
  function Fl(x: real): F64 {
    if x == 0.0 then Finite(0.0)
    else if x > 0.0 then FlPositive(x)
    else match FlPositive(-x)
      case Finite(v) => Finite(-v)
      case _ => NegInf
  }

  function FlPositive(x: real): F64
    requires x > 0.0
  {
    var v := Grid(x, Scale(Place(x)));
    if v >= OVERFLOW then PosInf else Finite(v)
  }

  /** Multiplication by a positive constant. */
  function MulConst(x: F64, k: real): F64
    requires k > 0.0
  {
    match x
    case Finite(v) => Fl(v * k)
    case _ => x
  }

  /** Division by a positive constant. */
  function DivConst(x: F64, k: real): F64
    requires k > 0.0
  {
    match x
    case Finite(v) => Fl(v / k)
    case _ => x
  }

  /** `m as f64`. */
  function OfInt(m: int): F64 { Fl(m as real) }

  /** `x.round() as i64`: rounds half away from zero, saturates, and sends NaN to zero. */
  function RoundToI64(x: F64): (n: int)
    ensures I64_MIN <= n <= I64_MAX
  {
    match x
    case NaN => 0
    case PosInf => I64_MAX
    case NegInf => I64_MIN
    case Finite(v) =>
      var n := RoundHalfAway(v);
      if n > I64_MAX then I64_MAX else if n < I64_MIN then I64_MIN else n
  }

  /** The cast: the nearest integer where there is one in range, the ends of the range beyond it,
      and nothing for what is not a number. */
  lemma RoundMeans(x: F64)
    ensures x.NaN? ==> RoundToI64(x) == 0
    ensures x.PosInf? ==> RoundToI64(x) == 9223372036854775807
    ensures x.NegInf? ==> RoundToI64(x) == -9223372036854775808
    ensures x.Finite? && -9223372036854775808.0 <= x.value <= 9223372036854775807.0 ==>
              Distance(RoundToI64(x) as real, x.value) <= 0.5
    ensures x.Finite? && x.value > 9223372036854775807.0 ==> RoundToI64(x) == 9223372036854775807
    ensures x.Finite? && x.value < -9223372036854775808.0 ==> RoundToI64(x) == -9223372036854775808
  {
  }

  // ---- The rounding is the one section 4.3.1 defines ----

  lemma {:induction false} TimesIsProduct(k: int, u: real)
    ensures Times(k, u) == k as real * u
    decreases if k < 0 then -k else k
  {
    if k > 0 {
      TimesIsProduct(k - 1, u);
      Distribute(k as real - 1.0, 1.0, u);
    } else if k < 0 {
      TimesIsProduct(k + 1, u);
      Distribute(k as real + 1.0, -1.0, u);
    }
  }

  lemma Distribute(a: real, b: real, u: real)
    ensures a * u + b * u == (a + b) * u
  {
  }

  lemma {:induction false} TimesOrder(a: int, b: int, u: real)
    requires a <= b && 0.0 < u
    ensures Times(a, u) <= Times(b, u)
    decreases b - a
  {
    if a < b {
      TimesOrder(a, b - 1, u);
    }
  }

  lemma {:induction false} TimesDouble(k: int, fine: real, coarse: real)
    requires coarse == 2.0 * fine
    ensures Times(2 * k, fine) == Times(k, coarse)
    decreases if k < 0 then -k else k
  {
    if k > 0 {
      TimesDouble(k - 1, fine, coarse);
      assert Times(2 * k, fine) == Times(2 * k - 1, fine) + fine;
    } else if k < 0 {
      TimesDouble(k + 1, fine, coarse);
      assert Times(2 * k, fine) == Times(2 * k + 1, fine) - fine;
    }
  }

  /** No multiple of ulp is nearer to x than Grid(x, ulp). */
  lemma GridNearest(x: real, ulp: real, k: int)
    requires 0.0 <= x && 0.0 < ulp
    ensures Distance(Grid(x, ulp), x) <= Distance(Times(k, ulp), x)
  {
    var n: int := GridSteps(x, ulp);
    if k > n {
      TimesOrder(n + 1, k, ulp);
    } else if k < n {
      TimesOrder(k, n - 1, ulp);
    }
  }

  /** A coarser grid is part of a finer one. */
  lemma {:induction false} CoarserIsMultiple(c: int, q: int, p: int) returns (w: int)
    requires q >= p
    ensures Times(w, Scale(p)) == Times(c, Scale(q))
    decreases q - p
  {
    if q == p {
      w := c;
    } else {
      w := CoarserIsMultiple(2 * c, q - 1, p);
      ScaleStep(q - 1);
      TimesDouble(c, Scale(q - 1), Scale(q));
    }
  }

  /** Numbers written with a finer last place than x needs lie below the binade of x. */
  lemma FinerIsBelow(c: int, q: int, p: int) returns (k: int)
    requires q < p && c < 9007199254740992
    ensures Times(c, Scale(q)) <= Times(k, Scale(p)) == P52 * Scale(p)
  {
    ScaleMonotone(q, p - 1);
    ScaleStep(p - 1);
    var whole := Whole(9007199254740992, Scale(q));
    TimesOrder(c, whole, Scale(q));
    k := Whole(4503599627370496, Scale(p));
  }

  lemma Whole(n: int, u: real) returns (k: int)
    ensures k == n && Times(k, u) == n as real * u
  {
    k := n;
    TimesIsProduct(n, u);
  }

  lemma PositiveIsNearest(x: real, c: int, q: int)
    requires x > 0.0 && Fl(x).Finite?
    requires -9007199254740992 < c < 9007199254740992 && q >= -1074
    ensures Distance(Fl(x).value, x) <= Distance(Times(c, Scale(q)), x)
  {
    var p := Place(x);
    var k: int;
    if q >= p {
      k := CoarserIsMultiple(c, q, p);
    } else {
      k := FinerIsBelow(c, q, p);
    }
    GridNearest(x, Scale(p), k);
  }

  lemma {:induction false} TimesNegated(k: int, u: real)
    ensures Times(-k, u) == -Times(k, u)
    decreases if k < 0 then -k else k
  {
    if k > 0 {
      TimesNegated(k - 1, u);
    } else if k < 0 {
      TimesNegated(k + 1, u);
    }
  }

  lemma FlNegated(x: real)
    requires x > 0.0
    ensures Fl(-x) == match Fl(x) case Finite(v) => Finite(-v) case _ => NegInf
  {
    assert -(-x) == x;
  }

  /** Of all data c * 2^q of the format, none is nearer to the exact result than the one
      delivered. */
  lemma FlIsNearest(x: real, c: int, q: int)
    requires Fl(x).Finite?
    requires -9007199254740992 < c < 9007199254740992 && q >= -1074
    ensures Distance(Fl(x).value, x) <= Distance(Times(c, Scale(q)), x)
  {
    if x > 0.0 {
      PositiveIsNearest(x, c, q);
    } else if x < 0.0 {
      FlNegated(-x);
      PositiveIsNearest(-x, -c, q);
      TimesNegated(c, Scale(q));
    }
  }

  lemma PositiveInFormat(x: real) returns (c: int, q: int)
    requires x > 0.0 && Fl(x).Finite?
    ensures 0 <= c <= 9007199254740992 && q >= -1074
    ensures Fl(x).value == Times(c, Scale(q))
  {
    q := Place(x);
    ScaleMonotone(LastPlace(x), q);
    c := GridSteps(x, Scale(q));
    SignificandFits(x, Scale(q), c);
  }

  /** The delivered value is itself c * 2^q for a significand of at most 53 bits. */
  lemma FlInFormat(x: real) returns (c: int, q: int)
    requires Fl(x).Finite?
    ensures -9007199254740992 <= c <= 9007199254740992 && q >= -1074
    ensures Fl(x).value == Times(c, Scale(q))
  {
    if x > 0.0 {
      c, q := PositiveInFormat(x);
    } else if x < 0.0 {
      FlNegated(-x);
      c, q := PositiveInFormat(-x);
      TimesNegated(c, Scale(q));
      c := -c;
    } else {
      c, q := 0, 0;
    }
  }

  /** A value the format can hold: 53 significant bits, no finer than the smallest subnormal, and
      below the overflow threshold. */
  ghost predicate IsBinary64(x: F64) {
    x.Finite? ==>
      && -OVERFLOW < x.value < OVERFLOW
      && exists c: int, q: int ::
           -9007199254740992 <= c <= 9007199254740992 && q >= -1074 && x.value == Times(c, Scale(q))
  }

  /** An `f64`. */
  type Double = x: F64 | IsBinary64(x) witness NaN

  /** What an operation delivers is one. */
  lemma FlIsBinary64(x: real)
    ensures IsBinary64(Fl(x))
  {
    if Fl(x).Finite? {
      var c, q := FlInFormat(x);
      FlInRange(x);
    }
  }

  lemma FlInRange(x: real)
    requires Fl(x).Finite?
    ensures -OVERFLOW < Fl(x).value < OVERFLOW
  {
    if x > 0.0 {
      FlNonnegative(x);
    } else if x < 0.0 {
      FlNegated(-x);
      FlNonnegative(-x);
    }
  }

  lemma SignificandFits(x: real, ulp: real, c: int)
    requires 0.0 < ulp && 0.0 <= x < P53 * ulp && 2.0 * Distance(Times(c, ulp), x) <= ulp
    ensures c <= 9007199254740992
  {
    var bound := Whole(9007199254740992, ulp);
    if c > bound {
      TimesOrder(bound + 1, c, ulp);
    }
  }

  // ---- How far a result is from the exact one ----

  lemma {:induction false} LastPlaceAtLeast(x: real, k: nat)
    requires x >= P52 * Scale(0 - k)
    ensures LastPlace(x) >= 0 - k
    decreases k
  {
    if x >= P52 {
      if LastPlace(x) < 0 { ScaleMonotone(LastPlace(x), -1); }
    } else if k > 0 {
      LastPlaceAtLeast(x * 2.0, k - 1);
    }
  }

  lemma ScaleTenth(e: int)
    requires e <= 0
    ensures Scale(e) == 1024.0 * Scale(e - 10)
  {
    ScaleStep(e - 1); ScaleStep(e - 2); ScaleStep(e - 3); ScaleStep(e - 4); ScaleStep(e - 5);
    ScaleStep(e - 6); ScaleStep(e - 7); ScaleStep(e - 8); ScaleStep(e - 9); ScaleStep(e - 10);
  }

  /** Amounts are far from the subnormals. */
  lemma AmountPlace(x: real)
    requires 0.001 <= x
    ensures Place(x) == LastPlace(x)
  {
    var zero := 0;
    ScaleTenth(zero); ScaleTenth(zero - 10); ScaleTenth(zero - 20); ScaleTenth(zero - 30);
    ScaleTenth(zero - 40); ScaleTenth(zero - 50); ScaleTenth(zero - 60);
    LastPlaceAtLeast(x, 70);
  }

  /** In the range of amounts, rounding moves x by at most one part in 2^53. */
  lemma FlClose(x: real)
    requires 0.001 <= x <= P53 * 1024.0
    ensures Fl(x).Finite? && Fl(x).value > 0.0
    ensures P53 * Distance(Fl(x).value, x) <= x
  {
    AmountPlace(x);
  }

  /** A positive result is not negative. */
  lemma FlNonnegative(x: real)
    requires x >= 0.0
    ensures Fl(x).PosInf? || (Fl(x).Finite? && Fl(x).value >= 0.0)
  {
    if x > 0.0 {
      TimesOrder(0, GridSteps(x, Scale(Place(x))), Scale(Place(x)));
    }
  }

  /** Below 2^(53 + e) a result is off by at most half of 2^e. */
  lemma FlWithin(x: real, e: int, u: real)
    requires u == Scale(e) && 0.001 <= x < P53 * u && x <= P53 * 1024.0
    ensures Fl(x).Finite? && Fl(x).value > 0.0 && 2.0 * Distance(Fl(x).value, x) <= u
  {
    FlClose(x);
    AmountPlace(x);
    LastPlaceBelow(x, e);
    ScaleMonotone(LastPlace(x), e);
  }

  lemma LastPlaceBelow(x: real, e: int)
    requires 0.0 < x < P53 * Scale(e)
    ensures LastPlace(x) <= e
  {
    if LastPlace(x) > e {
      ScaleStep(e);
      ScaleMonotone(e + 1, LastPlace(x));
    }
  }

  lemma LastPlaceIs(x: real, e: int)
    requires P52 * Scale(e) <= x < P53 * Scale(e) && x > 0.0
    ensures LastPlace(x) == e
  {
    LastPlaceBelow(x, e);
    if LastPlace(x) < e {
      ScaleStep(LastPlace(x));
      ScaleMonotone(LastPlace(x) + 1, e);
    }
  }

  lemma NearestAbove(n: int, c: int, x: real, u: real)
    requires 0.0 < u && c < n
    requires 2.0 * Distance(Times(c, u), x) <= u && 2.0 * Distance(Times(n, u), x) <= u
    ensures n == c + 1
    ensures 2.0 * Distance(Times(c, u), x) == u && 2.0 * Distance(Times(n, u), x) == u
  {
    TimesOrder(c + 1, n, u);
    TimesNext(c, u);
    if c + 1 < n {
      TimesOrder(c + 2, n, u);
      TimesNext(c + 1, u);
    }
  }

  lemma TimesNext(c: int, u: real)
    ensures Times(c + 1, u) == Times(c, u) + u
  {
  }

  /** The nearest multiple is determined, a tie by evenness. */
  lemma NearestIs(n: int, c: int, x: real, u: real)
    requires 0.0 < u
    requires 2.0 * Distance(Times(c, u), x) <= u && 2.0 * Distance(Times(n, u), x) <= u
    requires 2.0 * Distance(Times(c, u), x) == u ==> c % 2 == 0
    requires 2.0 * Distance(Times(n, u), x) == u ==> n % 2 == 0
    ensures n == c
  {
    if c < n { NearestAbove(n, c, x, u); }
    if n < c { NearestAbove(c, n, x, u); }
  }

  lemma GridStepsIs(x: real, u: real, c: nat)
    requires 0.0 <= x && 0.0 < u && 2.0 * Distance(Times(c, u), x) <= u
    requires 2.0 * Distance(Times(c, u), x) == u ==> c % 2 == 0
    ensures GridSteps(x, u) == c
  {
    NearestIs(GridSteps(x, u), c, x, u);
  }

  /** A result computed by hand: x lies where the last place is 2^e, and c of them are nearest. */
  lemma FlIs(x: real, e: int, u: real, c: nat)
    requires u == Scale(e) && 0.001 <= x <= P53 * 1024.0 && P52 * u <= x < P53 * u
    requires 2.0 * Distance(c as real * u, x) <= u
    requires 2.0 * Distance(c as real * u, x) == u ==> c % 2 == 0
    ensures Fl(x) == Finite(c as real * u)
  {
    TimesIsProduct(c, u);
    LastPlaceIs(x, e);
    AmountPlace(x);
    GridStepsIs(x, u, c);
    FlClose(x);
  }

  /** Integers of fewer than 53 bits convert exactly. */
  lemma OfIntExact(m: int)
    requires -INT_LIMIT < m < INT_LIMIT
    ensures OfInt(m) == Finite(m as real)
  {
    if m > 0 {
      PositiveExact(m);
    } else if m < 0 {
      PositiveExact(-m);
      assert (-m) as real == -(m as real);
      FlNegated((-m) as real);
    }
  }

  lemma PositiveExact(m: int)
    requires 1 <= m < 9007199254740992
    ensures OfInt(m) == Finite(m as real)
  {
    FlClose(m as real);
    var c := Whole(m, Scale(0));
    FlIsNearest(m as real, m, 0);
  }
}
