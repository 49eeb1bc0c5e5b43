/** What merchants read back, and that it agrees with the ledger after any run of requests. */
module Reports {
  import opened Rows
  import opened Store
  import opened Gateway
  import opened Float64
  import opened Money
  import opened ProtocolSafety
  import opened Handlers
  import Charge
  import Fraud
  import Checkout
  import Invoice
  import Ledger
  import Printing
  import Protocol
  import Sms
  import Text

  // ---- Reconciliation ----

  datatype Reconciliation = Reconciliation(
    gateway: Option<string>,
    totalSettledMinor: int,
    settledCount: int,
    pendingCharges: int)

  function NameOf(g: GatewayId): string { if g == Bkash then "bkash" else "nagad" }

  /** `matched = 1 AND (?1 IS NULL OR gateway = ?1)`. */
  predicate InScope(e: SmsEvent, gateway: Option<string>) {
    e.matched && (gateway.None? || NameOf(e.gateway) == gateway.value)
  }

  function ScopedAmount(gateway: Option<string>): SmsEvent -> int {
    (e: SmsEvent) => if InScope(e, gateway) then e.amountMinor else 0
  }

  function ScopedOne(gateway: Option<string>): SmsEvent -> int {
    (e: SmsEvent) => if InScope(e, gateway) then 1 else 0
  }

  function Reconcile(t: Tables, gateway: Option<string>): Reconciliation {
    Reconciliation(gateway, Sum(ScopedAmount(gateway), t.events), Sum(ScopedOne(gateway), t.events),
                   Sum(PendingOne, t.charges))
  }

  /** The events that settled a charge, from one gateway. */
  function SettledBy(g: GatewayId): SmsEvent -> int {
    (e: SmsEvent) => if e.matched && e.gateway == g then e.amountMinor else 0
  }

  function AwaitingOne(c: Store.Charge): int { if c.status == Pending then 1 else 0 }

  function CountedBy(g: GatewayId): SmsEvent -> int {
    (e: SmsEvent) => if e.matched && e.gateway == g then 1 else 0
  }

  /** The report named "bkash" totals and counts exactly the matched bKash events, that named
      "nagad" the matched Nagad ones, and each report carries the name it was asked for. */
  lemma ReportsByName(t: Tables)
    ensures var r := Reconcile(t, Some("bkash"));
            r.totalSettledMinor == Sum(SettledBy(Bkash), t.events) && r.settledCount == Sum(CountedBy(Bkash), t.events)
    ensures var r := Reconcile(t, Some("nagad"));
            r.totalSettledMinor == Sum(SettledBy(Nagad), t.events) && r.settledCount == Sum(CountedBy(Nagad), t.events)
    ensures forall name :: Reconcile(t, name).gateway == name
    ensures forall name :: Reconcile(t, name).pendingCharges == Sum(AwaitingOne, t.charges)
  {
    SumEqual(PendingOne, AwaitingOne, t.charges);
    assert "bkash"[0] != "nagad"[0];
    SumEqual(ScopedAmount(Some("bkash")), SettledBy(Bkash), t.events);
    SumEqual(ScopedOne(Some("bkash")), CountedBy(Bkash), t.events);
    SumEqual(ScopedAmount(Some("nagad")), SettledBy(Nagad), t.events);
    SumEqual(ScopedOne(Some("nagad")), CountedBy(Nagad), t.events);
  }

  /** Every message that settles a charge under the name of a gateway, in any case, is added to the
      report of that gateway, and to no other. */
  lemma IngestIsReported(t: Tables, name: string, body: string, ai: Option<ParsedTxn>, now: nat)
    requires IsBkash(name) || IsNagad(name)
    requires Parsed(name, body, ai).Some?
    requires var p := Parsed(name, body, ai).value;
             !Sms.Seen(t.events, p.gateway, p.txnId) && Sms.FindMatchingCharge(t.charges, p).Some?
    ensures var p, u := Parsed(name, body, ai).value, Apply(t, ReceiveSms(name, body, ai, now));
            var own, other := if IsBkash(name) then "bkash" else "nagad", if IsBkash(name) then "nagad" else "bkash";
            && Reconcile(u, Some(own)).totalSettledMinor == Reconcile(t, Some(own)).totalSettledMinor + p.amountMinor
            && Reconcile(u, Some(own)).settledCount == Reconcile(t, Some(own)).settledCount + 1
            && Reconcile(u, Some(other)).totalSettledMinor == Reconcile(t, Some(other)).totalSettledMinor
            && Reconcile(u, Some(other)).settledCount == Reconcile(t, Some(other)).settledCount
  {
    var p := Parsed(name, body, ai).value;
    GatewayByName(name, body, ai);
    MessageServed(t, name, body, ai, p, now);
    IngestMovesReports(t, p, now);
  }

  lemma GatewayByName(name: string, body: string, ai: Option<ParsedTxn>)
    requires (IsBkash(name) || IsNagad(name)) && Parsed(name, body, ai).Some?
    ensures IsBkash(name) <==> Parsed(name, body, ai).value.gateway == Bkash
  {
    ParsedByName(name, body, ai);
  }

  lemma IngestMovesReports(t: Tables, p: ParsedTxn, now: nat)
    requires !Sms.Seen(t.events, p.gateway, p.txnId) && Sms.FindMatchingCharge(t.charges, p).Some?
    ensures var u := Sms.IngestTables(t, p, now);
            var own := if p.gateway == Bkash then "bkash" else "nagad";
            var other := if p.gateway == Bkash then "nagad" else "bkash";
            && Reconcile(u, Some(own)).totalSettledMinor == Reconcile(t, Some(own)).totalSettledMinor + p.amountMinor
            && Reconcile(u, Some(own)).settledCount == Reconcile(t, Some(own)).settledCount + 1
            && Reconcile(u, Some(other)).totalSettledMinor == Reconcile(t, Some(other)).totalSettledMinor
            && Reconcile(u, Some(other)).settledCount == Reconcile(t, Some(other)).settledCount
  {
    var u := Sms.IngestTables(t, p, now);
    Sms.IngestColumns(t, p, now);
    Charge.MarkPaidColumns(t.(events := u.events), Sms.FindMatchingCharge(t.charges, p).value, now);
    ReportsByName(t);
    ReportsByName(u);
    var e := u.events[|t.events|];
    assert u.events == t.events + [e];
    SumAppend(SettledBy(Bkash), t.events, e);
    SumAppend(CountedBy(Bkash), t.events, e);
    SumAppend(SettledBy(Nagad), t.events, e);
    SumAppend(CountedBy(Nagad), t.events, e);
  }

  /** The report of the whole agrees with the ledger, the charges and their statuses. */
  lemma ReconcileAgrees(run: seq<Request>)
    ensures var t := After(run);
            var report := Reconcile(t, None);
            && report.totalSettledMinor == Ledger.AccountBalance(t.ledger, Ledger.MERCHANT_RECEIVABLE)
            && report.totalSettledMinor == -Ledger.AccountBalance(t.ledger, Ledger.CUSTOMER_CLEARING)
            && report.totalSettledMinor == Sum(PaidAmount, t.charges)
            && report.settledCount == Sum(PaidOne, t.charges)
            && report.settledCount + report.pendingCharges == |t.charges|
  {
    var t := After(run);
    AlwaysAgreed(run);
    SumEqual(ScopedAmount(None), MatchedAmount, t.events);
    SumEqual(ScopedOne(None), MatchedOne, t.events);
    LedgerMirrors(t);
  }

  lemma LedgerMirrors(t: Tables)
    requires RowsOk(t)
    ensures Ledger.AccountBalance(t.ledger, Ledger.CUSTOMER_CLEARING)
         == -Ledger.AccountBalance(t.ledger, Ledger.MERCHANT_RECEIVABLE)
  {
    var u := t.(deliveries := []);
    assert Protocol.TablesOk(u);
    ClearingMirrors(u);
  }

  lemma NamesDiffer()
    ensures NameOf(Bkash) != NameOf(Nagad)
  {
    assert NameOf(Bkash)[0] != NameOf(Nagad)[0];
  }

  /** The reports of the gateways add up to that of the whole, whatever the table holds; any
      other name reports nothing settled. */
  lemma GatewaysAddUp(t: Tables, other: string)
    ensures var all := Reconcile(t, None);
            var bkash, nagad := Reconcile(t, Some(NameOf(Bkash))), Reconcile(t, Some(NameOf(Nagad)));
            && all.totalSettledMinor == bkash.totalSettledMinor + nagad.totalSettledMinor
            && all.settledCount == bkash.settledCount + nagad.settledCount
            && all.pendingCharges == bkash.pendingCharges == nagad.pendingCharges
    ensures other != NameOf(Bkash) && other != NameOf(Nagad) ==>
              Reconcile(t, Some(other)).totalSettledMinor == 0 && Reconcile(t, Some(other)).settledCount == 0
  {
    var b, n := Some(NameOf(Bkash)), Some(NameOf(Nagad));
    NamesDiffer();
    SumAdd(ScopedAmount(b), ScopedAmount(n), ScopedAmount(None), t.events);
    SumAdd(ScopedOne(b), ScopedOne(n), ScopedOne(None), t.events);
    if other != NameOf(Bkash) && other != NameOf(Nagad) {
      SumZero(ScopedAmount(Some(other)), t.events);
      SumZero(ScopedOne(Some(other)), t.events);
    }
  }

  // ---- The sender rule ----

  lemma NoEventYet(run: seq<Request>, c: nat)
    requires c < |After(run).charges| && After(run).charges[c].status == Pending
    ensures forall e :: e in After(run).events ==> e.chargeId != Some(c)
  {
    var t := After(run);
    ChargeAgreement(run, c);
    forall e | e in t.events ensures e.chargeId != Some(c) {
      var i :| 0 <= i < |t.events| && t.events[i] == e;
      SumAtLeast(EventsOn(c), t.events, i);
    }
  }

  /** After any run, a new message that settles charge c makes the scan report c exactly if the
      message names its sender, the charge declares a number, and the two are not the same text. */
  lemma MismatchIsReportedIff(run: seq<Request>, name: string, body: string, ai: Option<ParsedTxn>, now: nat, c: nat)
    requires Parsed(name, body, ai).Some?
    requires var p := Parsed(name, body, ai).value;
             && !Sms.Seen(After(run).events, p.gateway, p.txnId)
             && Sms.FindMatchingCharge(After(run).charges, p) == Some(c)
    ensures var p, t, u := Parsed(name, body, ai).value, After(run), Apply(After(run), ReceiveSms(name, body, ai, now));
            && c < |t.charges|
            && (Fraud.Anomaly(Fraud.SenderMismatch, Fraud.Medium, None, Some(c)) in Fraud.SenderMismatches(u)
                <==> t.charges[c].customerMsisdn.Some? && p.senderMsisdn.Some?
                     && p.senderMsisdn.value != t.charges[c].customerMsisdn.value)
  {
    var p := Parsed(name, body, ai).value;
    Sms.MatchIsBySubscriber(After(run).charges, p, c);
    NoEventYet(run, c);
    MessageServed(After(run), name, body, ai, p, now);
    Fraud.IngestIsReportedIff(After(run), p, now, c);
  }

  // ---- References ----

  /** A public reference is the order id of its charge, and order ids differ. */
  predicate Keyed(charges: seq<Store.Charge>) {
    && (forall i :: 0 <= i < |charges| && charges[i].payRef.Some? ==> charges[i].orderId == charges[i].payRef.value)
    && (forall i, j :: 0 <= i < j < |charges| ==> charges[i].orderId != charges[j].orderId)
  }

  lemma InsertKeepsKeys(charges: seq<Store.Charge>, row: Store.Charge)
    requires Keyed(charges) && Charge.Inserted(charges, row).Ok?
    requires row.payRef.Some? ==> row.orderId == row.payRef.value
    ensures Keyed(Charge.Inserted(charges, row).value)
  {
  }

  lemma OpenKeepsKeys(charges: seq<Store.Charge>, req: Checkout.CreateCheckout, payRef: string, allowed: bool)
    requires Keyed(charges)
    ensures var r := Checkout.Opened(charges, req, payRef, allowed); r.Ok? ==> Keyed(r.value)
  {
    if Charge.Inserted(charges, Checkout.RowOf(req, payRef)).Ok? {
      InsertKeepsKeys(charges, Checkout.RowOf(req, payRef));
    }
  }

  /** Every charge keeps its keys. */
  predicate SameKeys(a: seq<Store.Charge>, b: seq<Store.Charge>) {
    |a| == |b| && forall i :: 0 <= i < |a| ==> a[i].orderId == b[i].orderId && a[i].payRef == b[i].payRef
  }

  lemma KeysKept(t: Tables, r: Request)
    requires Keyed(t.charges)
    ensures Keyed(Apply(t, r).charges)
  {
    var u := Apply(t, r);
    if r.CreateCharge? {
      if Charge.Inserted(t.charges, Charge.RowOf(r.charge)).Ok? {
        InsertKeepsKeys(t.charges, Charge.RowOf(r.charge));
      }
    } else if r.CreateCheckout? {
      OpenKeepsKeys(t.charges, r.checkout, r.payRef, r.allowed);
    } else if r.IssuePayment? {
      if r.invoiceId < |t.invoices| {
        OpenKeepsKeys(t.charges, Invoice.Checkoutify(t.invoices[r.invoiceId]), r.payRef, true);
      }
    } else {
      assert SameKeys(t.charges, u.charges);
    }
  }

  lemma {:induction false} AlwaysKeyed(run: seq<Request>)
    ensures Keyed(After(run).charges)
  {
    if run != [] {
      AlwaysKeyed(run[..|run| - 1]);
      KeysKept(After(run[..|run| - 1]), run[|run| - 1]);
    }
  }

  /** An amount some binary64 number of major units is stored as. */
  ghost predicate IsCheckoutAmount(m: int) { exists x: Double :: MinorUnits(x) == m }

  /** A charge with a public reference was opened by a checkout. */
  ghost predicate HeldByCheckouts(charges: seq<Store.Charge>) {
    forall i :: 0 <= i < |charges| && charges[i].payRef.Some? ==> IsCheckoutAmount(charges[i].amountMinor)
  }

  predicate SameReferences(a: seq<Store.Charge>, b: seq<Store.Charge>) {
    |a| == |b| && forall i :: 0 <= i < |a| ==> a[i].payRef == b[i].payRef && a[i].amountMinor == b[i].amountMinor
  }

  lemma OpenKeepsAmounts(charges: seq<Store.Charge>, req: Checkout.CreateCheckout, payRef: string, allowed: bool)
    requires HeldByCheckouts(charges)
    ensures var r := Checkout.Opened(charges, req, payRef, allowed); r.Ok? ==> HeldByCheckouts(r.value)
  {
    OpenedOpens(charges, req, payRef, allowed);
    assert IsCheckoutAmount(MinorUnits(req.amount));
  }

  lemma AmountsKept(t: Tables, r: Request)
    requires HeldByCheckouts(t.charges)
    ensures HeldByCheckouts(Apply(t, r).charges)
  {
    if r.CreateCheckout? {
      OpenKeepsAmounts(t.charges, r.checkout, r.payRef, r.allowed);
    } else if r.IssuePayment? {
      if r.invoiceId < |t.invoices| {
        OpenKeepsAmounts(t.charges, Invoice.Checkoutify(t.invoices[r.invoiceId]), r.payRef, true);
      }
    } else if !r.CreateCharge? {
      assert SameReferences(t.charges, Apply(t, r).charges);
    }
  }

  lemma {:induction false} AlwaysHeld(run: seq<Request>)
    ensures HeldByCheckouts(After(run).charges)
  {
    if run != [] {
      AlwaysHeld(run[..|run| - 1]);
      AmountsKept(After(run[..|run| - 1]), run[|run| - 1]);
    }
  }

  // ---- Verification ----

  /** Two rows that count make at least two. */
  lemma {:induction false} TwoCount(f: SmsEvent -> int, rows: seq<SmsEvent>, i: nat, j: nat)
    requires forall k :: 0 <= k < |rows| ==> 0 <= f(rows[k])
    requires i < j < |rows|
    ensures f(rows[i]) + f(rows[j]) <= Sum(f, rows)
  {
    if j == |rows| - 1 {
      SumAtLeast(f, rows[..j], i);
    } else {
      TwoCount(f, rows[..|rows| - 1], i, j);
    }
  }

  predicate SoleSettling(events: seq<SmsEvent>, c: nat, e: SmsEvent) {
    && e in events && Checkout.Settles(e, c)
    && forall x :: x in events && Checkout.Settles(x, c) ==> x == e
  }

  lemma OneEventSettles(t: Tables, c: nat)
    requires RowsOk(t)
    ensures Sum(EventsOn(c), t.events) == 0 ==> Checkout.NewestSettling(t.events, c) == None
    ensures Sum(EventsOn(c), t.events) == 1 ==>
              && Checkout.NewestSettling(t.events, c).Some?
              && SoleSettling(t.events, c, Checkout.NewestSettling(t.events, c).value)
  {
    var f, newest := EventsOn(c), Checkout.NewestSettling(t.events, c);
    forall k | 0 <= k < |t.events| ensures Checkout.Settles(t.events[k], c) <==> f(t.events[k]) == 1 {
      assert Protocol.EventOk(t, t.events[k]);
    }
    if Sum(f, t.events) == 1 {
      var i := SumWitness(f, t.events);
      assert Checkout.Settles(t.events[i], c);
    }
    if newest.Some? {
      var j :| 0 <= j < |t.events| && t.events[j] == newest.value;
      SumAtLeast(f, t.events, j);
      if Sum(f, t.events) == 1 {
        forall x | x in t.events && Checkout.Settles(x, c) ensures x == newest.value {
          var i :| 0 <= i < |t.events| && t.events[i] == x;
          if i < j { TwoCount(f, t.events, i, j); }
          if j < i { TwoCount(f, t.events, j, i); }
        }
      }
    }
  }

  /** `verify` finds the one charge with the reference, and reports it as the tables have it:
      completed if and only if settled, with the TrxID of the one message that settled it, else
      the customer's claim; the amount it prints is that of the charge, up to the limit of
      printing, and reads back, as far as reading does. */
  lemma VerifyAgrees(run: seq<Request>, payRef: string, id: nat)
    requires id < |After(run).charges| && After(run).charges[id].payRef == Some(payRef)
    ensures var t := After(run);
            var c, r := t.charges[id], Checkout.Verify(t, payRef);
            && r.Ok?
            && (r.value.status == Checkout.Completed <==> Sum(EventsOn(id), t.events) == 1)
            && (r.value.status == Checkout.PendingStatus <==> Sum(EventsOn(id), t.events) == 0)
            && (c.status == Paid ==>
                  exists e :: SoleSettling(t.events, id, e) && r.value.transactionId == Some(e.txnId))
            && (c.status == Pending ==> r.value.transactionId == c.claimedTrxId)
            && (0 < c.amountMinor <= Printing.PRINT_LIMIT ==> r.value.amount == Text.FixedText(c.amountMinor))
            && (c.amountMinor <= EXACT_LIMIT || Text.FORMAT_LIMIT < c.amountMinor < INT_LIMIT ==>
                  AmountToMinor(r.value.amount) == Ok(c.amountMinor))
  {
    var t := After(run);
    var c := t.charges[id];
    AlwaysKeyed(run);
    AlwaysAgreed(run);
    ChargeAgreement(run, id);
    OneEventSettles(t, id);
    assert Checkout.FindByPayRef(t.charges, payRef) == Some(id);
    AlwaysHeld(run);
    assert Protocol.ChargeOk(c) && IsCheckoutAmount(c.amountMinor);
    PrintedAmount(c.amountMinor);
  }

  lemma PrintedAmount(m: int)
    requires m >= 1 && IsCheckoutAmount(m)
    ensures m <= Printing.PRINT_LIMIT ==> Text.FormatTwo(Hundredths(m)) == Text.FixedText(m)
    ensures m <= EXACT_LIMIT || Text.FORMAT_LIMIT < m < INT_LIMIT ==>
              AmountToMinor(Text.FormatTwo(Hundredths(m))) == Ok(m)
  {
    var x: Double :| MinorUnits(x) == m;
    if m <= Printing.PRINT_LIMIT { Printing.CheckoutPrints(x, m); }
    if m <= EXACT_LIMIT || Text.FORMAT_LIMIT < m < INT_LIMIT { ReadsBack(x, m); }
  }

  lemma ReadsBack(x: Double, m: int)
    requires MinorUnits(x) == m && (1 <= m <= EXACT_LIMIT || Text.FORMAT_LIMIT < m < INT_LIMIT)
    ensures AmountToMinor(Text.FixedText(m)) == Ok(m)
  {
    PlainHasNoComma(m);
    FixedReadsAs(m, Text.FixedText(m));
    ReadBackIsPassage(m);
    if m <= EXACT_LIMIT { PassageIsExact(m); } else { Printing.LargePrints(x, m); }
  }
}
