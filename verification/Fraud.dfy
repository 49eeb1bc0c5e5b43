/** Anomaly rules over the recorded messages. */
module Fraud {
  import opened Rows
  import opened Store
  import opened Gateway
  import opened Float64
  import opened ProtocolSafety
  import Charge
  import Protocol
  import Sms
  import Text

  datatype Kind = DuplicateTxid | SenderMismatch | AmountAnomaly

  datatype Severity = High | Medium

  datatype Anomaly = Anomaly(kind: Kind, severity: Severity, txnId: Option<string>, chargeId: Option<nat>)

  datatype FraudReport = FraudReport(anomalyCount: nat, anomalies: seq<Anomaly>)

  const AMOUNT_ANOMALY_MULTIPLE: real := 10.0
  const MIN_SAMPLE_FOR_AMOUNT: int := 5

  /** Some event settled charge c, and its paying number and the declared one are both known and
      are not the same text. */
  predicate PaidByAnother(t: Tables, c: nat) {
    exists e :: e in t.events && PaysForAnother(t, e, c)
  }

  predicate PaysForAnother(t: Tables, e: SmsEvent, c: nat) {
    && e.chargeId == Some(c) && c < |t.charges|
    && e.senderMsisdn.Some? && t.charges[c].customerMsisdn.Some?
    && e.senderMsisdn.value != t.charges[c].customerMsisdn.value
  }

  /** The TrxID has an event of each gateway. */
  predicate OnBoth(t: Tables, txnId: string) {
    && (exists e :: e in t.events && e.gateway == Bkash && e.txnId == txnId)
    && (exists e :: e in t.events && e.gateway == Nagad && e.txnId == txnId)
  }

  /** Some matched event with the TrxID is above the threshold, and there are at least five. */
  predicate FarAbove(t: Tables, txnId: string) {
    && Sum(MatchedOne, t.events) >= 5
    && exists e :: e in t.events && e.matched && e.amountMinor > ThresholdOf(t.events) && e.txnId == txnId
  }

  /** What an anomaly in a report means, column by column. */
  predicate Reported(t: Tables, a: Anomaly) {
    match a.kind
    case DuplicateTxid => a.severity == High && a.chargeId == None && a.txnId.Some? && OnBoth(t, a.txnId.value)
    case SenderMismatch =>
      a.severity == Medium && a.txnId == None && a.chargeId.Some? && PaidByAnother(t, a.chargeId.value)
    case AmountAnomaly => a.severity == Medium && a.chargeId == None && a.txnId.Some? && FarAbove(t, a.txnId.value)
  }

  /** One for each event that settled a charge for another. */
  function PaidByAnotherOne(t: Tables): SmsEvent -> int {
    (e: SmsEvent) => if e.chargeId.Some? && PaysForAnother(t, e, e.chargeId.value) then 1 else 0
  }

  function FarAboveOne(threshold: int): SmsEvent -> int {
    (e: SmsEvent) => if e.matched && e.amountMinor > threshold then 1 else 0
  }

  /** The report holds exactly the anomalies there are: one per duplicated TXID, one per message
      paid by another number, one per message above the threshold. */
  method Scan(db: Database) returns (report: FraudReport)
    ensures forall a :: a in report.anomalies <==> Reported(db.Snapshot(), a)
    ensures report.anomalyCount == |report.anomalies| == |DuplicateTxids(db.events)|
      + Sum(PaidByAnotherOne(db.Snapshot()), db.events)
      + if Sum(MatchedOne, db.events) < 5 then 0 else Sum(FarAboveOne(ThresholdOf(db.events)), db.events)
    ensures report.anomalies == DuplicateTxids(db.events) + SenderMismatches(db.Snapshot()) + AmountOutliers(db.events)
  {
    var duplicates := DuplicateTxids(db.events);
    var mismatches := SenderMismatches(db.Snapshot());
    var outliers := AmountOutliers(db.events);
    var anomalies: seq<Anomaly> := [];
    anomalies := anomalies + duplicates;
    anomalies := anomalies + mismatches;
    anomalies := anomalies + outliers;
    ScanIsExact(db.Snapshot(), anomalies);
    return FraudReport(|anomalies|, anomalies);
  }

  lemma ScanIsExact(t: Tables, anomalies: seq<Anomaly>)
    requires anomalies == DuplicateTxids(t.events) + SenderMismatches(t) + AmountOutliers(t.events)
    ensures forall a :: a in anomalies <==> Reported(t, a)
    ensures |anomalies| == |DuplicateTxids(t.events)| + Sum(PaidByAnotherOne(t), t.events)
      + if Sum(MatchedOne, t.events) < 5 then 0 else Sum(FarAboveOne(ThresholdOf(t.events)), t.events)
  {
    MismatchesCount(t, t.events);
    AboveCount(t.events, ThresholdOf(t.events));
    SumEqual(MismatchOne(t), PaidByAnotherOne(t), t.events);
    SumEqual(AboveOne(ThresholdOf(t.events)), FarAboveOne(ThresholdOf(t.events)), t.events);
    forall a ensures a in anomalies <==> Reported(t, a) {
      DuplicateMeans(t, a);
      MismatchReported(t, a);
      AboveReported(t, a);
    }
  }

  lemma MismatchReported(t: Tables, a: Anomaly)
    ensures a in SenderMismatches(t) <==> a.kind == SenderMismatch && Reported(t, a)
  {
    MismatchMeans(t, t.events, a);
    if a.chargeId.Some? {
      var c := a.chargeId.value;
      if MismatchedOn(t, t.events, c) {
        var i :| 0 <= i < |t.events| && Mismatched(t, t.events[i]) && t.events[i].chargeId.value == c;
        assert t.events[i] in t.events && PaysForAnother(t, t.events[i], c);
      }
      if PaidByAnother(t, c) {
        var e :| e in t.events && PaysForAnother(t, e, c);
        var i :| 0 <= i < |t.events| && t.events[i] == e;
        assert Mismatched(t, t.events[i]);
      }
    }
  }

  lemma AboveReported(t: Tables, a: Anomaly)
    ensures a in AmountOutliers(t.events) <==> a.kind == AmountAnomaly && Reported(t, a)
  {
    var threshold := ThresholdOf(t.events);
    AboveMeans(t.events, threshold, a);
    if a.txnId.Some? && AboveOn(t.events, threshold, a.txnId.value) {
      var i :| 0 <= i < |t.events| && Above(t.events[i], threshold) && t.events[i].txnId == a.txnId.value;
      assert t.events[i] in t.events;
    }
  }

  // ---- The same TXID on more than one gateway ----

  /** COUNT(DISTINCT gateway). */
  function GatewaysOf(events: seq<SmsEvent>, txnId: string): nat {
    (if Sms.Recorded(events, Bkash, txnId) then 1 else 0) + (if Sms.Recorded(events, Nagad, txnId) then 1 else 0)
  }

  /** GROUP BY txn_id. */
  function Groups(events: seq<SmsEvent>): (r: seq<string>)
    ensures forall x :: x in r <==> exists i :: 0 <= i < |events| && events[i].txnId == x
    ensures forall i, j :: 0 <= i < j < |r| ==> r[i] != r[j]
  {
    if events == [] then [] else
      var rest, x := Groups(events[..|events| - 1]), events[|events| - 1].txnId;
      assert events == events[..|events| - 1] + [events[|events| - 1]];
      if x in rest then rest else rest + [x]
  }

  /** HAVING n > 1. */
  function Repeated(events: seq<SmsEvent>, groups: seq<string>): (r: seq<string>)
    ensures forall x :: x in r <==> x in groups && GatewaysOf(events, x) > 1
    ensures (forall i, j :: 0 <= i < j < |groups| ==> groups[i] != groups[j]) ==>
              forall i, j :: 0 <= i < j < |r| ==> r[i] != r[j]
  {
    if groups == [] then [] else
      var rest, x := Repeated(events, groups[..|groups| - 1]), groups[|groups| - 1];
      assert groups == groups[..|groups| - 1] + [x];
      if GatewaysOf(events, x) > 1 then rest + [x] else rest
  }

  function DuplicateOf(txnId: string): Anomaly { Anomaly(DuplicateTxid, High, Some(txnId), None) }

  function DuplicateTxids(events: seq<SmsEvent>): seq<Anomaly> {
    var txns := Repeated(events, Groups(events));
    seq(|txns|, i requires 0 <= i < |txns| => DuplicateOf(txns[i]))
  }

  function TxnRows(txnId: string): SmsEvent -> int { (e: SmsEvent) => if e.txnId == txnId then 1 else 0 }

  /** A TXID is reported, once, exactly when both gateways recorded it. */
  lemma DuplicatesAreExact(events: seq<SmsEvent>, txnId: string)
    ensures DuplicateOf(txnId) in DuplicateTxids(events)
       <==> Sms.Recorded(events, Bkash, txnId) && Sms.Recorded(events, Nagad, txnId)
    ensures var r := DuplicateTxids(events); forall i, j :: 0 <= i < j < |r| ==> r[i] != r[j]
  {
    var txns, r := Repeated(events, Groups(events)), DuplicateTxids(events);
    if txnId in txns {
      var i :| 0 <= i < |txns| && txns[i] == txnId;
      assert r[i] == DuplicateOf(txnId);
    }
  }

  /** In every reachable state, mid-ingest and after any crash, that is exactly when the TXID has
      more than one row: the unique index leaves no other way to repeat it. */
  lemma DuplicatesAreRepeats(run: seq<Protocol.Step>, txnId: string)
    ensures var events := Protocol.Run(run).t.events;
            DuplicateOf(txnId) in DuplicateTxids(events) <==> Sum(TxnRows(txnId), events) > 1
  {
    var events := Protocol.Run(run).t.events;
    DuplicatesAreExact(events, txnId);
    OnePerKey(run, Bkash, txnId);
    OnePerKey(run, Nagad, txnId);
    RecordedIsCounted(events, Bkash, txnId);
    RecordedIsCounted(events, Nagad, txnId);
    SumAdd(EventKey(Bkash, txnId), EventKey(Nagad, txnId), TxnRows(txnId), events);
  }

  lemma DuplicateMeans(t: Tables, a: Anomaly)
    ensures a in DuplicateTxids(t.events) <==> a.kind == DuplicateTxid && Reported(t, a)
  {
    if a.txnId.Some? {
      DuplicatesAreExact(t.events, a.txnId.value);
      RecordedIsSeen(t.events, Bkash, a.txnId.value);
      RecordedIsSeen(t.events, Nagad, a.txnId.value);
    }
  }

  lemma RecordedIsSeen(events: seq<SmsEvent>, g: GatewayId, txnId: string)
    ensures Sms.Recorded(events, g, txnId) <==> exists e :: e in events && e.gateway == g && e.txnId == txnId
  {
    if Sms.Recorded(events, g, txnId) {
      var i :| 0 <= i < |events| && events[i].gateway == g && events[i].txnId == txnId;
      assert events[i] in events;
    }
  }

  // ---- A paying number that is not the declared one ----

  /** The join with charges, and `s.sender_msisdn <> c.customer_msisdn`. */
  predicate Mismatched(t: Tables, e: SmsEvent) {
    && e.chargeId.Some? && e.chargeId.value < |t.charges|
    && t.charges[e.chargeId.value].customerMsisdn.Some? && e.senderMsisdn.Some?
    && e.senderMsisdn.value != t.charges[e.chargeId.value].customerMsisdn.value
  }

  function MismatchOf(chargeId: nat): Anomaly { Anomaly(SenderMismatch, Medium, None, Some(chargeId)) }

  function MismatchesIn(t: Tables, events: seq<SmsEvent>): seq<Anomaly> {
    if events == [] then [] else
      var e := events[|events| - 1];
      MismatchesIn(t, events[..|events| - 1]) + if Mismatched(t, e) then [MismatchOf(e.chargeId.value)] else []
  }

  predicate MismatchedOn(t: Tables, events: seq<SmsEvent>, c: nat) {
    exists i :: 0 <= i < |events| && Mismatched(t, events[i]) && events[i].chargeId.value == c
  }

  function MismatchOne(t: Tables): SmsEvent -> int { (e: SmsEvent) => if Mismatched(t, e) then 1 else 0 }

  lemma {:induction false} MismatchesCount(t: Tables, events: seq<SmsEvent>)
    ensures |MismatchesIn(t, events)| == Sum(MismatchOne(t), events)
  {
    if events != [] {
      MismatchesCount(t, events[..|events| - 1]);
    }
  }

  lemma {:induction false} MismatchMeans(t: Tables, events: seq<SmsEvent>, a: Anomaly)
    ensures a in MismatchesIn(t, events)
       <==> a.chargeId.Some? && a == MismatchOf(a.chargeId.value) && MismatchedOn(t, events, a.chargeId.value)
  {
    if events != [] {
      var front, e := events[..|events| - 1], events[|events| - 1];
      MismatchMeans(t, front, a);
      assert events == front + [e];
      if a.chargeId.Some? {
        assert MismatchedOn(t, events, a.chargeId.value)
          <==> MismatchedOn(t, front, a.chargeId.value) || (Mismatched(t, e) && e.chargeId == a.chargeId);
      }
    }
  }

  function SenderMismatches(t: Tables): seq<Anomaly> { MismatchesIn(t, t.events) }

  /** Matching looks at the last ten digits, this rule at the text: a number declared with a
      country code, or any other prefix, matches its payer and is reported all the same. */
  lemma PrefixRaisesAlarm(t: Tables, e: SmsEvent, prefix: string)
    requires prefix != "" && e.senderMsisdn.Some? && |Text.Filter(Text.IsDigit, e.senderMsisdn.value)| >= 10
    requires e.chargeId.Some? && e.chargeId.value < |t.charges|
    requires t.charges[e.chargeId.value].customerMsisdn == Some(prefix + e.senderMsisdn.value)
    ensures Sms.NumberMatches(t.charges[e.chargeId.value], e.senderMsisdn) && Mismatched(t, e)
  {
    var sender := e.senderMsisdn.value;
    Sms.NormalizeIgnoresFormat(sender, sender, prefix);
    assert |prefix + sender| > |sender|;
  }

  /** A message that settles a charge is reported from then on exactly if its number is known, one is
      declared, and they are not the same text. */
  lemma IngestIsReportedIff(t: Tables, p: ParsedTxn, now: nat, c: nat)
    requires !Sms.Seen(t.events, p.gateway, p.txnId) && Sms.FindMatchingCharge(t.charges, p) == Some(c)
    requires forall e :: e in t.events ==> e.chargeId != Some(c)
    ensures c < |t.charges|
    ensures Anomaly(SenderMismatch, Medium, None, Some(c)) in SenderMismatches(Sms.IngestTables(t, p, now))
       <==> t.charges[c].customerMsisdn.Some? && p.senderMsisdn.Some?
            && p.senderMsisdn.value != t.charges[c].customerMsisdn.value
  {
    var u := Sms.IngestTables(t, p, now);
    Sms.IngestColumns(t, p, now);
    Charge.MarkPaidColumns(t.(events := u.events), c, now);
    var e := u.events[|t.events|];
    assert u.events == t.events + [e];
    MismatchReported(u, Anomaly(SenderMismatch, Medium, None, Some(c)));
    assert PaidByAnother(u, c) <==> PaysForAnother(u, e, c);
  }

  // ---- Amounts far above the average ----

  /** COALESCE(AVG(amount_minor), 0.0). */
  function Average(total: int, count: int): F64 {
    if count <= 0 then Finite(0.0) else DivConst(OfInt(total), count as real)
  }

  /** `(avg * 10.0).round() as i64`. */
  function Threshold(total: int, count: int): int {
    RoundToI64(MulConst(Average(total, count), AMOUNT_ANOMALY_MULTIPLE))
  }

  predicate Above(e: SmsEvent, threshold: int) { e.matched && e.amountMinor > threshold }

  function OutlierOf(txnId: string): Anomaly { Anomaly(AmountAnomaly, Medium, Some(txnId), None) }

  function AboveIn(events: seq<SmsEvent>, threshold: int): seq<Anomaly> {
    if events == [] then [] else
      var e := events[|events| - 1];
      AboveIn(events[..|events| - 1], threshold) + if Above(e, threshold) then [OutlierOf(e.txnId)] else []
  }

  predicate AboveOn(events: seq<SmsEvent>, threshold: int, txnId: string) {
    exists i :: 0 <= i < |events| && Above(events[i], threshold) && events[i].txnId == txnId
  }

  function AboveOne(threshold: int): SmsEvent -> int { (e: SmsEvent) => if Above(e, threshold) then 1 else 0 }

  lemma {:induction false} AboveCount(events: seq<SmsEvent>, threshold: int)
    ensures |AboveIn(events, threshold)| == Sum(AboveOne(threshold), events)
  {
    if events != [] {
      AboveCount(events[..|events| - 1], threshold);
    }
  }

  lemma {:induction false} AboveMeans(events: seq<SmsEvent>, threshold: int, a: Anomaly)
    ensures a in AboveIn(events, threshold)
       <==> a.txnId.Some? && a == OutlierOf(a.txnId.value) && AboveOn(events, threshold, a.txnId.value)
  {
    if events != [] {
      var front, e := events[..|events| - 1], events[|events| - 1];
      AboveMeans(front, threshold, a);
      assert events == front + [e];
      if a.txnId.Some? {
        assert AboveOn(events, threshold, a.txnId.value)
          <==> AboveOn(front, threshold, a.txnId.value) || (Above(e, threshold) && e.txnId == a.txnId.value);
      }
    }
  }

  function ThresholdOf(events: seq<SmsEvent>): int {
    Threshold(Sum(MatchedAmount, events), Sum(MatchedOne, events))
  }

  function AmountOutliers(events: seq<SmsEvent>): seq<Anomaly> {
    var count := Sum(MatchedOne, events);
    if count < MIN_SAMPLE_FOR_AMOUNT then []
    else AboveIn(events, ThresholdOf(events))
  }

  predicate PositiveMatches(events: seq<SmsEvent>) {
    forall i :: 0 <= i < |events| && events[i].matched ==> events[i].amountMinor > 0
  }

  /** The rows above a threshold make up their share of the total, and every row at least one. */
  lemma {:induction false} AboveWeighs(events: seq<SmsEvent>, threshold: int)
    requires PositiveMatches(events) && threshold >= 0
    ensures |AboveIn(events, threshold)| * threshold + Sum(MatchedOne, events) <= Sum(MatchedAmount, events)
  {
    if events != [] {
      AboveWeighs(events[..|events| - 1], threshold);
    }
  }

  /** The least number of rows that is a tenth of them. */
  function Tenth(count: nat): nat { (count + 9) / 10 }

  /** So many rows above the threshold would weigh more than there is. */
  predicate Unreached(total: int, count: nat, threshold: int) { Tenth(count) * threshold + count > total }

  /** Then fewer than a tenth are above it. */
  lemma FewAbove(events: seq<SmsEvent>, threshold: int)
    requires PositiveMatches(events) && threshold >= 0 && Sum(MatchedOne, events) >= 0
    requires Unreached(Sum(MatchedAmount, events), Sum(MatchedOne, events), threshold)
    ensures 10 * |AboveIn(events, threshold)| < Sum(MatchedOne, events)
  {
    var k, n := |AboveIn(events, threshold)|, Sum(MatchedOne, events);
    AboveWeighs(events, threshold);
    if 10 * k >= n {
      AtLeast(Tenth(n), k, threshold);
    }
  }

  lemma AtLeast(a: nat, b: nat, c: nat)
    requires a <= b
    ensures a * c <= b * c
  {
  }

  /** With the exact average there is no limit on the amounts: */
  lemma OutlierBoundExact(events: seq<SmsEvent>)
    requires PositiveMatches(events) && Sum(MatchedOne, events) > 0
    ensures var total, count := Sum(MatchedAmount, events), Sum(MatchedOne, events);
            10 * |AboveIn(events, RoundHalfAway(10.0 * (total as real / count as real)))| < count
  {
    var total, count := Sum(MatchedAmount, events), Sum(MatchedOne, events);
    AboveWeighs(events, 0);
    var q := total as real / count as real;
    RatioTimes(total, count, q);
    RatioAtLeastOne(total, count, q);
    var threshold := RoundHalfAway(10.0 * q);
    NotReached(total, count, q, threshold);
    FewAbove(events, threshold);
  }

  /** A threshold less than ten below ten times the average is not reached by a tenth. */
  lemma NotReached(total: int, count: int, q: real, threshold: int)
    requires 0 < count && q * count as real == total as real && threshold >= 0
    requires threshold as real + 10.0 > 10.0 * q
    ensures Unreached(total, count, threshold)
  {
    ScaledAbove(total, count, q, threshold);
    var k := Tenth(count);
    assert 10 * k >= count;
    AtLeast(count, 10 * k, threshold);
    TenFold(k, threshold);
  }

  lemma TenFold(k: int, threshold: int)
    ensures (10 * k) * threshold == 10 * (k * threshold)
  {
  }

  lemma RatioTimes(total: int, count: int, q: real)
    requires count > 0 && q == total as real / count as real
    ensures q * count as real == total as real
  {
  }

  lemma RatioAtLeastOne(total: int, count: int, q: real)
    requires 0 < count <= total && q * count as real == total as real
    ensures q >= 1.0
  {
    assert q < 1.0 ==> (1.0 - q) * count as real > 0.0;
  }

  lemma ScaledAbove(total: int, count: int, q: real, threshold: int)
    requires 0 < count && q * count as real == total as real
    requires threshold as real + 10.0 > 10.0 * q
    ensures count * threshold + 10 * count > 10 * total
  {
    var d, n := threshold as real + 10.0 - 10.0 * q, count as real;
    assert d * n > 0.0;
    assert (threshold as real + 10.0) * n == d * n + 10.0 * (q * n);
    assert ((threshold + 10) * count) as real == (threshold as real + 10.0) * n;
  }

  /** In binary64 the threshold is close to ten times the average while integers convert exactly. */
  lemma ThresholdClose(total: int, count: int, q: real)
    requires 5 <= count <= total < INT_LIMIT && q == total as real / count as real
    ensures 10.0 * q - 4.6 <= Threshold(total, count) as real <= 10.0 * q + 4.6
  {
    RatioTimes(total, count, q);
    RatioAtLeastOne(total, count, q);
    RatioAtMost(total, count, q);
    AverageIs(total, count, q);
    TenTimesClose(q);
    ThresholdIs(total, count, Fl(q));
  }

  lemma AverageIs(total: int, count: int, q: real)
    requires 1 <= count && 1 <= total < INT_LIMIT && q == total as real / count as real
    ensures Average(total, count) == Fl(q)
  {
    OfIntExact(total);
    DivIs(OfInt(total), total as real, count as real, q, Fl(q));
  }

  lemma DivIs(x: F64, v: real, k: real, q: real, r: F64)
    requires x == Finite(v) && k > 0.0 && q == v / k && Fl(q) == r
    ensures DivConst(x, k) == r
  {
  }

  lemma ThresholdIs(total: int, count: int, avg: F64)
    requires Average(total, count) == avg
    ensures Threshold(total, count) == RoundToI64(MulConst(avg, 10.0))
  {
  }

  lemma RatioAtMost(total: int, count: int, q: real)
    requires 5 <= count && 1.0 <= q && q * count as real == total as real <= 9007199254740992.0
    ensures q <= 1801439850948198.4
  {
    ScaledOrder(5.0, count as real, q);
  }

  lemma TenTimesClose(q: real)
    requires 1.0 <= q <= 1801439850948198.4
    ensures 10.0 * q - 4.6 <= RoundToI64(MulConst(Fl(q), 10.0)) as real <= 10.0 * q + 4.6
  {
    FlClose(q);
    var b := ScaledUp(Fl(q), q);
    RoundWithin(MulConst(Fl(q), 10.0), b, q);
  }

  lemma ScaledUp(v: F64, q: real) returns (b: real)
    requires 1.0 <= q <= 1801439850948198.4
    requires v.Finite? && P53 * Distance(v.value, q) <= q
    ensures MulConst(v, 10.0) == Finite(b) && 10.0 * q - 4.1 <= b <= 10.0 * q + 4.1
  {
    var p := v.value * 10.0;
    FlClose(p);
    b := Fl(p).value;
  }

  lemma RoundWithin(x: F64, b: real, q: real)
    requires x == Finite(b) && 1.0 <= q <= 1801439850948198.4 && 10.0 * q - 4.1 <= b <= 10.0 * q + 4.1
    ensures 10.0 * q - 4.6 <= RoundToI64(x) as real <= 10.0 * q + 4.6
  {
  }

  /** When ten times the average is a whole amount, the threshold is exactly that. */
  lemma ThresholdIsTenfold(total: int, count: int, m: int)
    requires 5 <= count <= total <= 562949953421312 && 10 * total == m * count
    ensures Threshold(total, count) == m
  {
    var q := total as real / count as real;
    RatioTimes(total, count, q);
    RatioAtLeastOne(total, count, q);
    TenfoldIs(total, count, m, q);
    AverageIs(total, count, q);
    RatioSmall(total, count, q);
    TenTimesNear(q, m);
    ThresholdIs(total, count, Fl(q));
  }

  lemma TenfoldIs(total: int, count: int, m: int, q: real)
    requires 5 <= count && q * count as real == total as real && 10 * total == m * count
    ensures 10.0 * q == m as real
  {
    var n := count as real;
    assert (10.0 * q - m as real) * n == 10.0 * (q * n) - m as real * n;
    assert (10 * total) as real == m as real * n;
  }

  lemma RatioSmall(total: int, count: int, q: real)
    requires 5 <= count && 1.0 <= q && q * count as real == total as real <= 562949953421312.0
    ensures q <= 112589990684262.4
  {
    ScaledOrder(5.0, count as real, q);
  }

  lemma TenTimesNear(q: real, m: int)
    requires 1.0 <= q <= 112589990684262.4 && 10.0 * q == m as real
    ensures RoundToI64(MulConst(Fl(q), 10.0)) == m
  {
    FlClose(q);
    var b := ScaledUpNear(Fl(q), q);
    RoundExactly(MulConst(Fl(q), 10.0), b, m);
  }

  lemma ScaledUpNear(v: F64, q: real) returns (b: real)
    requires 1.0 <= q <= 112589990684262.4
    requires v.Finite? && P53 * Distance(v.value, q) <= q
    ensures MulConst(v, 10.0) == Finite(b) && 10.0 * q - 0.3 <= b <= 10.0 * q + 0.3
  {
    var p := v.value * 10.0;
    FlClose(p);
    b := Fl(p).value;
  }

  lemma RoundExactly(x: F64, b: real, m: int)
    requires x == Finite(b) && 0 <= m <= INT_LIMIT && m as real - 0.3 <= b <= m as real + 0.3
    ensures RoundToI64(x) == m
  {
  }

  // A threshold is never negative, whatever the total.

  predicate NotNegative(x: F64) { x.PosInf? || (x.Finite? && x.value >= 0.0) }

  lemma TimesNotNegative(x: F64)
    requires NotNegative(x)
    ensures NotNegative(MulConst(x, 10.0))
  {
    if x.Finite? { FlNonnegative(x.value * 10.0); }
  }

  lemma QuotientNotNegative(x: F64, k: real)
    requires NotNegative(x) && k > 0.0
    ensures NotNegative(DivConst(x, k))
  {
    if x.Finite? { FlNonnegative(x.value / k); }
  }

  lemma RoundNotNegative(x: F64)
    requires NotNegative(x)
    ensures RoundToI64(x) >= 0
  {
  }

  lemma ThresholdNotNegative(total: int, count: int)
    requires 1 <= count && 0 <= total
    ensures Threshold(total, count) >= 0
  {
    FlNonnegative(total as real);
    QuotientNotNegative(OfInt(total), count as real);
    TimesNotNegative(Average(total, count));
    RoundNotNegative(MulConst(Average(total, count), 10.0));
  }

  /** As the code computes it, whatever the total: if a tenth of the rows above the computed
      threshold would weigh more than the total, fewer than a tenth are reported. */
  lemma OutlierBound(events: seq<SmsEvent>)
    requires PositiveMatches(events)
    requires var total, count := Sum(MatchedAmount, events), Sum(MatchedOne, events);
             count >= MIN_SAMPLE_FOR_AMOUNT ==> Unreached(total, count, Threshold(total, count))
    ensures AmountOutliers(events) == [] || 10 * |AmountOutliers(events)| < Sum(MatchedOne, events)
  {
    if Sum(MatchedOne, events) >= MIN_SAMPLE_FOR_AMOUNT {
      AboveWeighs(events, 0);
      ThresholdNotNegative(Sum(MatchedAmount, events), Sum(MatchedOne, events));
      FewAbove(events, ThresholdOf(events));
    }
  }

  /** That is so for every total whose integer converts exactly. */
  lemma SmallTotalsUnreached(total: int, count: int)
    requires 5 <= count <= total < INT_LIMIT
    ensures Unreached(total, count, Threshold(total, count))
  {
    var q := total as real / count as real;
    ThresholdNotNegative(total, count);
    ThresholdClose(total, count, q);
    RatioTimes(total, count, q);
    NotReached(total, count, q, Threshold(total, count));
  }

  // ---- In reachable states ----

  predicate HasTotals(events: seq<SmsEvent>, total: int, count: int) {
    PositiveMatches(events) && Sum(MatchedAmount, events) == total && Sum(MatchedOne, events) == count
  }

  /** In every reachable state, then, fewer than a tenth of the matched messages are reported, and
      none with ten samples or fewer, although the rule admits five: always below 2^53, and beyond
      under that condition. */
  lemma OutliersOverRuns(run: seq<Protocol.Step>)
    requires var events := Protocol.Run(run).t.events;
             var total, count := Sum(MatchedAmount, events), Sum(MatchedOne, events);
             total < INT_LIMIT || count < 5 || Unreached(total, count, Threshold(total, count))
    ensures var events := Protocol.Run(run).t.events;
            && (AmountOutliers(events) == [] || 10 * |AmountOutliers(events)| < Sum(MatchedOne, events))
            && (Sum(MatchedOne, events) <= 10 ==> AmountOutliers(events) == [])
  {
    var events := Protocol.Run(run).t.events;
    var total, count := Sum(MatchedAmount, events), Sum(MatchedOne, events);
    MatchesArePositive(run);
    AboveWeighs(events, 0);
    if 5 <= count && total < INT_LIMIT { SmallTotalsUnreached(total, count); }
    OutlierBound(events);
  }

  lemma MatchesArePositive(run: seq<Protocol.Step>)
    ensures PositiveMatches(Protocol.Run(run).t.events)
  {
    var t := Protocol.Run(run).t;
    Protocol.Always(run);
    forall i | 0 <= i < |t.events| && t.events[i].matched ensures t.events[i].amountMinor > 0 {
      assert Protocol.EventOk(t, t.events[i]);
      assert Protocol.ChargeOk(t.charges[t.events[i].chargeId.value]);
    }
  }

  // ---- Two thresholds, worked out ----

  lemma LargeScales()
    ensures Scale(2) == 4.0 && Scale(5) == 32.0
  {
    var zero := 0;
    ScaleStep(zero); ScaleStep(zero + 1); ScaleStep(zero + 2); ScaleStep(zero + 3); ScaleStep(zero + 4);
  }

  lemma LargeTotal(total: int)
    requires total == 181584089245358825
    ensures OfInt(total) == Finite(181584089245358816.0)
  {
    LargeScales();
    FlIs(total as real, 5, 32.0, 5674502788917463);
  }

  lemma LargeQuotient(q: real)
    requires 18158408924535881.0 <= q < 18158408924535882.0
    ensures Fl(q) == Finite(18158408924535880.0)
  {
    LargeScales();
    FlIs(q, 2, 4.0, 4539602231133970);
  }

  lemma LargeProduct(p: real)
    requires p == 181584089245358800.0
    ensures Fl(p) == Finite(181584089245358784.0)
  {
    LargeScales();
    FlIs(p, 5, 32.0, 5674502788917462);
  }

  lemma LargeThreshold(total: int, count: int)
    requires total == 181584089245358825 && count == 10
    ensures Threshold(total, count) == 181584089245358784
  {
    var v, q, p := 181584089245358816.0, 18158408924535881.6, 181584089245358800.0;
    LargeTotal(total);
    LargeQuotient(q);
    DivIs(OfInt(total), v, 10.0, q, Finite(18158408924535880.0));
    LargeProduct(p);
    TimesIs(Average(total, count), 18158408924535880.0, p, Finite(181584089245358784.0));
    ThresholdIs(total, count, Average(total, count));
  }

  lemma TimesIs(x: F64, v: real, p: real, r: F64)
    requires x == Finite(v) && p == v * 10.0 && Fl(p) == r
    ensures MulConst(x, 10.0) == r
  {
  }

  lemma RatioBelow(total: int, count: int, q: real)
    requires 0 < count && total <= 92 * count && q * count as real == total as real
    ensures q <= 92.0
  {
    assert q > 92.0 ==> (q - 92.0) * count as real > 0.0;
  }

  lemma LowAverage(total: int, count: int)
    requires 5 <= count <= total < INT_LIMIT && total <= 92 * count
    ensures 1 <= Threshold(total, count) < 1000
  {
    var q := total as real / count as real;
    RatioTimes(total, count, q);
    RatioBelow(total, count, q);
    RatioAtLeastOne(total, count, q);
    ThresholdClose(total, count, q);
  }
}
