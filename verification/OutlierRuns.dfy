/** The outlier rule over runs: any positive amounts can be settled, so its exact condition is one
    over reachable states, and where it fires it does so on tables the engine builds. */
module OutlierRuns {
  import opened Rows
  import opened Store
  import opened Gateway
  import opened Protocol
  import opened ProtocolSafety
  import opened Commutation
  import opened Refinement
  import opened Fraud
  import Charge
  import EndToEnd
  import Sms
  import Text

  // ---- Any amounts can be settled ----

  function RowFor(n: nat, amount: int): Store.Charge {
    Charge(Text.Decimal(n), amount, "BDT", None, None, None, Pending, None, None, None, None)
  }

  function TxnFor(n: nat, amount: int): ParsedTxn { ParsedTxn(Bkash, Text.Decimal(n), amount, None) }

  /** The n-th charge was opened for the n-th amount and settled by the n-th message. */
  predicate Settled(t: Tables, amounts: seq<int>) {
    && |t.charges| == |t.events| == |amounts|
    && (forall i :: 0 <= i < |amounts| ==>
          && t.charges[i] == RowFor(i, amounts[i]).(status := Paid)
          && t.events[i] == Sms.EventRow(TxnFor(i, amounts[i]), Some(i), 0))
  }

  lemma DecimalsDiffer(i: nat, j: nat)
    requires i != j
    ensures Text.Decimal(i) != Text.Decimal(j)
  {
    assert Text.ValueOf(Text.Decimal(i)) == i && Text.ValueOf(Text.Decimal(j)) == j;
  }

  /** The next order and the next TrxID are new, and the next charge is the only pending one. */
  lemma NextIsNew(t: Tables, amounts: seq<int>, amount: int)
    requires Settled(t, amounts) && amount > 0
    ensures var n, row, p := |amounts|, RowFor(|amounts|, amount), TxnFor(|amounts|, amount);
            && Charge.Inserted(t.charges, row) == Ok(t.charges + [row])
            && !Sms.Recorded(t.events, p.gateway, p.txnId)
            && Sms.TheOne(t.charges + [row], p, n)
  {
    forall i: nat | i < |amounts| ensures Text.Decimal(i) != Text.Decimal(|amounts|) { DecimalsDiffer(i, |amounts|); }
  }

  lemma SettleNext(w: World, amounts: seq<int>, amount: int) returns (steps: seq<Step>)
    requires Settled(w.t, amounts) && amount > 0
    ensures Settled(RunFrom(w, steps).t, amounts + [amount])
  {
    var n, row, p := |amounts|, RowFor(|amounts|, amount), TxnFor(|amounts|, amount);
    var open, ingest := Elsewhere(OpenCharge(row)), [Arrive(p)] + Times(Advance(|w.ingests|, 0), STATEMENTS);
    NextIsNew(w.t, amounts, amount);
    OpenSimulated(w, row);
    var w1 := Next(w, open);
    IngestSimulated(w1, p, 0);
    EndToEnd.IngestSettles(w1.t, p, n, 0);
    steps := [open] + ingest;
    Refinement.One(w, open);
    RunFromConcat(w, [open], ingest);
    SettledGrows(w.t, amounts, amount);
  }

  lemma SettledGrows(t: Tables, amounts: seq<int>, amount: int)
    requires Settled(t, amounts)
    ensures var n, row, p := |amounts|, RowFor(|amounts|, amount), TxnFor(|amounts|, amount);
            var u := t.(charges := t.charges + [row], events := t.events + [Sms.EventRow(p, Some(n), 0)]);
            Settled(Charge.MarkPaidTables(u, n, 0), amounts + [amount])
  {
  }

  predicate AllPositive(amounts: seq<int>) { forall i :: 0 <= i < |amounts| ==> amounts[i] > 0 }

  /** Whatever the amounts, some run settles a charge and a message of each, all different. */
  lemma {:induction false} SettleAll(amounts: seq<int>) returns (run: seq<Step>)
    requires AllPositive(amounts)
    ensures Settled(Run(run).t, amounts)
  {
    if amounts == [] {
      run := [];
    } else {
      var front, last := amounts[..|amounts| - 1], amounts[|amounts| - 1];
      var before := SettleAll(front);
      var steps := SettleNext(Run(before), front, last);
      run := before + steps;
      RunFromConcat(Start(), before, steps);
      assert amounts == front + [last];
    }
  }

  // ---- Amounts and their table ----

  function Itself(amount: int): int { amount }

  function CountOne(amount: int): int { 1 }

  function OverOne(threshold: int): int -> int { (amount: int) => if amount > threshold then 1 else 0 }

  lemma {:induction false} CountIsLength(amounts: seq<int>)
    ensures Sum(CountOne, amounts) == |amounts|
  {
    if amounts != [] {
      CountIsLength(amounts[..|amounts| - 1]);
    }
  }

  /** The totals of the table are those of the amounts. */
  lemma TableTotals(t: Tables, amounts: seq<int>, threshold: int)
    requires AllPositive(amounts) && Settled(t, amounts)
    ensures HasTotals(t.events, Sum(Itself, amounts), |amounts|)
    ensures |AboveIn(t.events, threshold)| == Sum(OverOne(threshold), amounts)
  {
    SumAcross(MatchedAmount, Itself, t.events, amounts);
    SumAcross(MatchedOne, CountOne, t.events, amounts);
    SumAcross(AboveOne(threshold), OverOne(threshold), t.events, amounts);
    CountIsLength(amounts);
    AboveCount(t.events, threshold);
  }

  /** n times one amount. */
  function Alike(amount: int, n: nat): seq<int> { seq(n, _ => amount) }

  lemma {:induction false} AlikeSums(amount: int, n: nat, threshold: int)
    ensures Sum(Itself, Alike(amount, n)) == amount * n
    ensures Sum(OverOne(threshold), Alike(amount, n)) == if amount > threshold then n else 0
  {
    if n > 0 {
      AlikeSums(amount, n - 1, threshold);
      assert Alike(amount, n)[..n - 1] == Alike(amount, n - 1);
    }
  }

  lemma ThreeSums(f: int -> int, a: seq<int>, b: seq<int>, c: seq<int>)
    ensures Sum(f, a + b + c) == Sum(f, a) + Sum(f, b) + Sum(f, c)
  {
    SumConcat(f, a + b, c);
    SumConcat(f, a, b);
  }

  // ---- The condition is exact ----

  /** What is left for the largest amount once the others have theirs. */
  lemma RestIsHigh(total: int, count: nat, threshold: nat, k: nat) returns (rest: int)
    requires 1 <= k <= count && k * threshold + count <= total
    ensures rest > threshold && (threshold + 1) * (k - 1) + rest + (count - k) == total
  {
    rest := total - (threshold + 1) * (k - 1) - (count - k);
    assert (threshold + 1) * (k - 1) == threshold * (k - 1) + (k - 1);
    assert threshold * (k - 1) == threshold * k - threshold;
  }

  /** A tenth of the amounts just above the threshold, one of them with all that is left, and the
      others of one minor unit each. */
  lemma Reaching(total: int, count: nat, threshold: nat) returns (amounts: seq<int>)
    requires 1 <= count && !Unreached(total, count, threshold)
    ensures AllPositive(amounts) && |amounts| == count && Sum(Itself, amounts) == total
    ensures 10 * Sum(OverOne(threshold), amounts) >= count
  {
    var k := Tenth(count);
    var rest := RestIsHigh(total, count, threshold, k);
    var high, one, low := Alike(threshold + 1, k - 1), Alike(rest, 1), Alike(1, count - k);
    amounts := high + one + low;
    AlikeSums(threshold + 1, k - 1, threshold);
    AlikeSums(rest, 1, threshold);
    AlikeSums(1, count - k, threshold);
    ThreeSums(Itself, high, one, low);
    ThreeSums(OverOne(threshold), high, one, low);
  }

  /** Every run whose matched messages have this total and number reports fewer than a tenth. */
  ghost predicate AlwaysFew(total: int, count: int) {
    forall run :: HasTotals(Run(run).t.events, total, count) ==> 10 * |AmountOutliers(Run(run).t.events)| < count
  }

  /** For every total and number: all reachable states with them have fewer than a tenth reported if
      and only if the computed threshold is out of reach of a tenth. */
  lemma OutlierBoundIff(total: int, count: int)
    requires MIN_SAMPLE_FOR_AMOUNT <= count && 0 <= total
    ensures AlwaysFew(total, count) <==> Unreached(total, count, Threshold(total, count))
  {
    ThresholdNotNegative(total, count);
    if Unreached(total, count, Threshold(total, count)) {
      forall run | HasTotals(Run(run).t.events, total, count) ensures 10 * |AmountOutliers(Run(run).t.events)| < count {
        OutlierBound(Run(run).t.events);
      }
    } else {
      var amounts := Reaching(total, count, Threshold(total, count));
      var run := SettleAll(amounts);
      TableTotals(Run(run).t, amounts, Threshold(total, count));
      assert 10 * |AmountOutliers(Run(run).t.events)| >= count;
    }
  }

  // ---- Where it does fire ----

  /** A run that settles n charges of one minor unit and one large one. */
  lemma OneLarge(large: int, n: nat, threshold: int) returns (run: seq<Step>)
    requires 1 <= threshold < large
    ensures Settled(Run(run).t, [large] + Alike(1, n))
    ensures HasTotals(Run(run).t.events, large + n, n + 1)
    ensures |AboveIn(Run(run).t.events, threshold)| == 1
  {
    var amounts := Alike(large, 1) + Alike(1, n);
    assert amounts == [large] + Alike(1, n);
    run := SettleAll(amounts);
    AlikeSums(large, 1, threshold);
    AlikeSums(1, n, threshold);
    SumConcat(Itself, Alike(large, 1), Alike(1, n));
    SumConcat(OverOne(threshold), Alike(large, 1), Alike(1, n));
    TableTotals(Run(run).t, amounts, threshold);
  }

  /** With ten samples, nine of one minor unit: the binary64 threshold falls below the tenth. */
  lemma TenCanFire() returns (run: seq<Step>)
    ensures Settled(Run(run).t, [181584089245358816] + Alike(1, 9))
    ensures HasTotals(Run(run).t.events, 181584089245358825, 10) && |AmountOutliers(Run(run).t.events)| == 1
  {
    run := OneLarge(181584089245358816, 9, 181584089245358784);
    LargeThreshold(Sum(MatchedAmount, Run(run).t.events), Sum(MatchedOne, Run(run).t.events));
  }

  /** With ordinary amounts eleven is where it can fire: the bound is tight. */
  lemma ElevenCanFire() returns (run: seq<Step>)
    ensures Settled(Run(run).t, [1000] + Alike(1, 10))
    ensures HasTotals(Run(run).t.events, 1010, 11) && |AmountOutliers(Run(run).t.events)| == 1
  {
    var total, count := 1010, 11;
    LowAverage(total, count);
    run := OneLarge(1000, 10, Threshold(total, count));
  }
}
