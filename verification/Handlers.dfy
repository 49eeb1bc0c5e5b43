/** The handlers run one at a time: what every run of whole requests keeps. */
module Handlers {
  import opened Rows
  import opened Store
  import opened Gateway
  import opened ProtocolSafety
  import Charge
  import Checkout
  import Invoice
  import Ledger
  import Protocol
  import Sms
  import Webhook

  datatype Request =
    | CreateCharge(charge: Charge.CreateCharge)
    | CreateCheckout(checkout: Checkout.CreateCheckout, payRef: string, allowed: bool)
    | CreateInvoice(invoice: Invoice.CreateInvoice, defaultNumber: string)
    | IssuePayment(invoiceId: nat, payRef: string)
    | ReceiveSms(gateway: string, body: string, ai: Option<ParsedTxn>, now: nat)
    | SelectGateway(payRef: string, choice: string)
    | SubmitManual(payRef: string, trxId: string, sender: Option<string>)
    | DeliverWebhook(due: Webhook.Due, success: bool, at: nat)

  function Parsed(gateway: string, body: string, ai: Option<ParsedTxn>): Option<ParsedTxn> {
    match Resolve(gateway)
    case None => None
    case Some(g) =>
      match Sms.ParseBody(g, body, ai)
      case Err(_) => None
      case Ok(p) => Some(p)
  }

  function AfterCharges(t: Tables, r: Result<seq<Store.Charge>, Checkout.CheckoutError>): Tables {
    if r.Ok? then t.(charges := r.value) else t
  }

  /** The tables after a request has been served. */
  function Apply(t: Tables, r: Request): Tables {
    match r
    case CreateCharge(req) =>
      (match Charge.Inserted(t.charges, Charge.RowOf(req)) case Ok(charges) => t.(charges := charges) case Err(_) => t)
    case CreateCheckout(req, payRef, allowed) => AfterCharges(t, Checkout.Opened(t.charges, req, payRef, allowed))
    case CreateInvoice(req, number) => (match Invoice.Drafted(t, req, number) case Ok(u) => u case Err(_) => t)
    case IssuePayment(id, payRef) => (match Invoice.Issued(t, id, payRef) case Ok(u) => u case Err(_) => t)
    case ReceiveSms(gateway, body, ai, now) =>
      (match Parsed(gateway, body, ai) case Some(p) => Sms.IngestTables(t, p, now) case None => t)
    case SelectGateway(payRef, choice) => t.(charges := Checkout.Chosen(t.charges, payRef, choice))
    case SubmitManual(payRef, trxId, sender) => t.(charges := Checkout.Claimed(t.charges, payRef, trxId, sender))
    case DeliverWebhook(d, success, at) =>
      if d.id < |t.deliveries|
      then t.(deliveries := t.deliveries[d.id := Webhook.AfterPost(t.deliveries[d.id], d, success, at)]) else t
  }

  /** Serving a request on the open database. */
  method Serve(db: Database, r: Request)
    modifies db
    ensures db.Snapshot() == Apply(old(db.Snapshot()), r)
  {
    match r
    case CreateCharge(req) => var _ := Charge.Create(db, req);
    case CreateCheckout(req, payRef, allowed) => var _ := Checkout.Create(db, req, payRef, allowed);
    case CreateInvoice(req, number) => var _ := Invoice.Create(db, req, number);
    case IssuePayment(id, payRef) => var _ := Invoice.IssuePayment(db, id, payRef);
    case ReceiveSms(gateway, body, ai, now) => var _ := Sms.Ingest(db, gateway, body, ai, now);
    case SelectGateway(payRef, choice) => var _ := Checkout.SelectGateway(db, payRef, choice);
    case SubmitManual(payRef, trxId, sender) => var _ := Checkout.SubmitManual(db, payRef, trxId, sender);
    case DeliverWebhook(d, success, at) => Webhook.DeliverOne(db, d, success, at);
  }

  function After(run: seq<Request>): Tables {
    if run == [] then Empty() else Apply(After(run[..|run| - 1]), run[|run| - 1])
  }

  // ---- Messages by the name of their gateway ----

  predicate IsBkash(name: string) { IsCasing(name, "bkash", "BKASH") }
  predicate IsNagad(name: string) { IsCasing(name, "nagad", "NAGAD") }

  /** What a message is recorded as: what the patterns of the named gateway read, or else what the
      fallback extracted, under that gateway; nothing for any other name. */
  lemma ParsedByName(name: string, body: string, ai: Option<ParsedTxn>)
    ensures !IsBkash(name) && !IsNagad(name) ==> Parsed(name, body, ai) == None
    ensures IsBkash(name) || IsNagad(name) ==>
      var g := if IsBkash(name) then Bkash else Nagad;
      && (ParseSms(g, body).Ok? ==> Parsed(name, body, ai) == Some(ParseSms(g, body).value))
      && (ParseSms(g, body).Err? && ai.Some? ==>
            Parsed(name, body, ai) == Some(ParsedTxn(g, ai.value.txnId, ai.value.amountMinor, ai.value.senderMsisdn)))
      && (ParseSms(g, body).Err? && ai.None? ==> Parsed(name, body, ai) == None)
    ensures Parsed(name, body, ai).Some? && IsBkash(name) ==> Parsed(name, body, ai).value.gateway == Bkash
    ensures Parsed(name, body, ai).Some? && IsNagad(name) ==> Parsed(name, body, ai).value.gateway == Nagad
  {
    ResolveIsByName(name);
    NamesExclude(name);
    if Resolve(name).Some? {
      Sms.ParseBodyMeans(Resolve(name).value, body, ai);
      ParsesAsItself(Resolve(name).value, body);
    }
  }

  lemma NamesExclude(name: string)
    ensures !(IsBkash(name) && IsNagad(name))
  {
    ResolveIsByName(name);
  }

  lemma MessageServed(t: Tables, name: string, body: string, ai: Option<ParsedTxn>, p: ParsedTxn, now: nat)
    requires Parsed(name, body, ai) == Some(p)
    ensures Apply(t, ReceiveSms(name, body, ai, now)) == Sms.IngestTables(t, p, now)
  {
  }

  lemma ParsesAsItself(g: GatewayId, body: string)
    ensures ParseSms(g, body).Ok? ==> ParseSms(g, body).value.gateway == g
  {
  }

  // ---- The kinds of change ----

  /** Charges keep their terms, status and reference; new ones are pending. */
  predicate Opens(before: seq<Store.Charge>, after: seq<Store.Charge>) {
    && |before| <= |after|
    && (forall i :: 0 <= i < |before| ==>
          && Protocol.SameTerms(before[i], after[i]) && before[i].status == after[i].status
          && before[i].payRef == after[i].payRef)
    && (forall i :: |before| <= i < |after| ==> after[i].status == Pending && after[i].amountMinor > 0)
  }

  /** The queue holds the same notifications, whatever became of them. */
  predicate SameQueue(before: seq<Delivery>, after: seq<Delivery>) {
    |before| == |after| && forall i :: 0 <= i < |before| ==> before[i].chargeId == after[i].chargeId
  }

  /** No money moves. */
  predicate Quiet(t: Tables, u: Tables) {
    && u.events == t.events && u.ledger == t.ledger && Opens(t.charges, u.charges)
    && SameQueue(t.deliveries, u.deliveries)
  }

  /** A message is recorded without a match. */
  predicate RecordsOnly(t: Tables, u: Tables, p: ParsedTxn, now: nat) {
    u == t.(events := t.events + [Sms.EventRow(p, None, now)])
  }

  /** A message is recorded and settles charge c. */
  predicate Settles(t: Tables, u: Tables, p: ParsedTxn, c: nat, now: nat) {
    && c < |t.charges| && Sms.IsCandidate(t.charges[c], p.amountMinor)
    && u == Charge.MarkPaidTables(t.(events := t.events + [Sms.EventRow(p, Some(c), now)]), c, now)
  }

  ghost predicate Moves(t: Tables, u: Tables) {
    || Quiet(t, u)
    || (exists p, now: nat :: RecordsOnly(t, u, p, now))
    || (exists p, c: nat, now: nat :: Settles(t, u, p, c, now))
  }

  lemma IngestMoves(t: Tables, p: ParsedTxn, now: nat)
    ensures Moves(t, Sms.IngestTables(t, p, now))
  {
    var hit := Sms.FindMatchingCharge(t.charges, p);
    var u := Sms.IngestTables(t, p, now);
    if Sms.Recorded(t.events, p.gateway, p.txnId) {
      assert Quiet(t, u);
    } else if hit.Some? {
      Sms.MatchIsExact(t.charges, p, hit.value);
      assert Settles(t, u, p, hit.value, now);
    } else {
      assert RecordsOnly(t, u, p, now);
    }
  }

  lemma InsertedOpens(charges: seq<Store.Charge>, row: Store.Charge)
    requires row.status == Pending && Charge.Inserted(charges, row).Ok?
    ensures Opens(charges, Charge.Inserted(charges, row).value)
  {
  }

  /** Only an inbound message moves money. */
  lemma OthersAreQuiet(t: Tables, r: Request)
    requires !r.ReceiveSms?
    ensures Quiet(t, Apply(t, r))
  {
    if r.CreateCharge? && Charge.Inserted(t.charges, Charge.RowOf(r.charge)).Ok? {
      InsertedOpens(t.charges, Charge.RowOf(r.charge));
    }
    if r.CreateCheckout? {
      OpenedOpens(t.charges, r.checkout, r.payRef, r.allowed);
    }
    if r.IssuePayment? && r.invoiceId < |t.invoices| {
      OpenedOpens(t.charges, Invoice.Checkoutify(t.invoices[r.invoiceId]), r.payRef, true);
    }
  }

  lemma EveryRequestMoves(t: Tables, r: Request)
    ensures Moves(t, Apply(t, r))
  {
    if !r.ReceiveSms? {
      OthersAreQuiet(t, r);
    } else if Parsed(r.gateway, r.body, r.ai).Some? {
      IngestMoves(t, Parsed(r.gateway, r.body, r.ai).value, r.now);
    } else {
      assert Quiet(t, t);
    }
  }

  lemma OpenedOpens(charges: seq<Store.Charge>, req: Checkout.CreateCheckout, payRef: string, allowed: bool)
    ensures var r := Checkout.Opened(charges, req, payRef, allowed);
            && (r.Ok? ==> Opens(charges, r.value) && r.value == charges + [Checkout.RowOf(req, payRef)])
            && (r.Ok? ==> !Charge.OrderTaken(charges, payRef))
  {
    if Charge.Inserted(charges, Checkout.RowOf(req, payRef)).Ok? {
      InsertedOpens(charges, Checkout.RowOf(req, payRef));
    }
  }

  // ---- Agreement ----

  function Indicated(t: Tables, c: nat): int { if c < |t.charges| && t.charges[c].status == Paid then 1 else 0 }

  function PaidAmount(c: Store.Charge): int { if c.status == Paid then c.amountMinor else 0 }

  function PaidOne(c: Store.Charge): int { if c.status == Paid then 1 else 0 }

  function PendingOne(c: Store.Charge): int { if c.status == Pending then 1 else 0 }

  /** The rows refer to charges, with the amounts those charges have. */
  predicate RowsOk(t: Tables) {
    && (forall i :: 0 <= i < |t.charges| ==> Protocol.ChargeOk(t.charges[i]))
    && (forall i :: 0 <= i < |t.events| ==> Protocol.EventOk(t, t.events[i]))
    && (forall i :: 0 <= i < |t.ledger| ==> Protocol.TxnOk(t, t.ledger[i]))
    && (forall i :: 0 <= i < |t.deliveries| ==> t.deliveries[i].chargeId < |t.charges|)
  }

  predicate TalliedOn(t: Tables, c: nat) {
    && Sum(EventsOn(c), t.events) == Sum(TxnsOn(c), t.ledger) == Indicated(t, c)
    && Sum(NoticesOn(c), t.deliveries) == if HasCallback(t, c) then Indicated(t, c) else 0
  }

  /** Each charge has one event, one transaction, and one notification if it has a callback, if it
      is paid, and none if it is not. */
  ghost predicate Tallied(t: Tables) { forall c: nat :: TalliedOn(t, c) }

  predicate Totalled(t: Tables) {
    && Sum(MatchedAmount, t.events) == Sum(PaidAmount, t.charges)
    && Ledger.AccountBalance(t.ledger, Ledger.MERCHANT_RECEIVABLE) == Sum(PaidAmount, t.charges)
    && Sum(MatchedOne, t.events) == Sum(PaidOne, t.charges)
    && Sum(PaidOne, t.charges) + Sum(PendingOne, t.charges) == |t.charges|
  }

  ghost predicate Agreed(t: Tables) { RowsOk(t) && Tallied(t) && Totalled(t) }

  lemma RowsOkMoves(t: Tables, u: Tables)
    requires RowsOk(t) && Moves(t, u)
    ensures RowsOk(u) && Protocol.Grown(t.charges, u.charges)
  {
    assert Protocol.Grown(t.charges, u.charges);
    forall i | 0 <= i < |u.events| ensures Protocol.EventOk(u, u.events[i]) {
      assert i < |t.events| ==> u.events[i] == t.events[i];
    }
    forall i | 0 <= i < |u.ledger| ensures Protocol.TxnOk(u, u.ledger[i]) {
      assert i < |t.ledger| ==> u.ledger[i] == t.ledger[i];
    }
  }

  lemma QuietTally(t: Tables, u: Tables, c: nat)
    requires TalliedOn(t, c) && Quiet(t, u)
    ensures TalliedOn(u, c)
  {
    SumPointwise(NoticesOn(c), t.deliveries, u.deliveries);
  }

  lemma SettleTally(t: Tables, u: Tables, p: ParsedTxn, k: nat, now: nat, c: nat)
    requires TalliedOn(t, c) && Settles(t, u, p, k, now)
    ensures TalliedOn(u, c)
  {
    SumAppend(EventsOn(c), t.events, Sms.EventRow(p, Some(k), now));
    SumAppend(TxnsOn(c), t.ledger, Charge.SettlementTxn(k, t.charges[k]));
    NoticesQueued(t.deliveries, k, t.charges[k], now, c);
  }

  lemma TalliedMoves(t: Tables, u: Tables, c: nat)
    requires TalliedOn(t, c) && Moves(t, u)
    ensures TalliedOn(u, c)
  {
    if Quiet(t, u) {
      QuietTally(t, u, c);
    } else if exists p, now: nat :: RecordsOnly(t, u, p, now) {
      var p, now: nat :| RecordsOnly(t, u, p, now);
      SumAppend(EventsOn(c), t.events, Sms.EventRow(p, None, now));
    } else {
      var p, k: nat, now: nat :| Settles(t, u, p, k, now);
      SettleTally(t, u, p, k, now, c);
    }
  }

  lemma OpensKeepsSums(before: seq<Store.Charge>, after: seq<Store.Charge>, f: Store.Charge -> int)
    requires Opens(before, after)
    requires forall i :: 0 <= i < |before| ==> f(before[i]) == f(after[i])
    requires forall c: Store.Charge :: c.status == Pending ==> f(c) == 0
    ensures Sum(f, after) == Sum(f, before)
  {
    var n := |before|;
    SumPointwise(f, before, after[..n]);
    SumZero(f, after[n..]);
    assert after == after[..n] + after[n..];
    SumConcat(f, after[..n], after[n..]);
  }

  lemma QuietTotals(t: Tables, u: Tables)
    requires RowsOk(t) && Totalled(t) && Quiet(t, u)
    ensures Totalled(u)
  {
    OpensKeepsSums(t.charges, u.charges, PaidAmount);
    OpensKeepsSums(t.charges, u.charges, PaidOne);
    PaidOrPending(u.charges);
  }

  lemma {:induction false} PaidOrPending(charges: seq<Store.Charge>)
    requires forall i :: 0 <= i < |charges| ==> charges[i].status == Paid || charges[i].status == Pending
    ensures Sum(PaidOne, charges) + Sum(PendingOne, charges) == |charges|
  {
    if charges != [] {
      PaidOrPending(charges[..|charges| - 1]);
    }
  }

  lemma PayingMovesSums(charges: seq<Store.Charge>, c: nat, amount: int)
    requires c < |charges| && charges[c].status == Pending && charges[c].amountMinor == amount
    ensures Sum(PaidAmount, Charge.MarkedPaid(charges, c)) == Sum(PaidAmount, charges) + amount
    ensures Sum(PaidOne, Charge.MarkedPaid(charges, c)) == Sum(PaidOne, charges) + 1
    ensures Sum(PendingOne, Charge.MarkedPaid(charges, c)) == Sum(PendingOne, charges) - 1
  {
    var row := charges[c].(status := Paid);
    SumUpdate(PaidAmount, charges, c, row);
    SumUpdate(PaidOne, charges, c, row);
    SumUpdate(PendingOne, charges, c, row);
  }

  lemma RecordingMovesSums(events: seq<SmsEvent>, p: ParsedTxn, c: nat, now: nat)
    ensures Sum(MatchedAmount, events + [Sms.EventRow(p, Some(c), now)]) == Sum(MatchedAmount, events) + p.amountMinor
    ensures Sum(MatchedOne, events + [Sms.EventRow(p, Some(c), now)]) == Sum(MatchedOne, events) + 1
  {
    SumAppend(MatchedAmount, events, Sms.EventRow(p, Some(c), now));
    SumAppend(MatchedOne, events, Sms.EventRow(p, Some(c), now));
  }

  lemma PostingMovesBalance(ledger: seq<LedgerTxn>, c: nat, row: Store.Charge)
    ensures Ledger.AccountBalance(ledger + [Charge.SettlementTxn(c, row)], Ledger.MERCHANT_RECEIVABLE)
         == Ledger.AccountBalance(ledger, Ledger.MERCHANT_RECEIVABLE) + row.amountMinor
  {
    SumAppend(Ledger.TxnOn(Ledger.MERCHANT_RECEIVABLE), ledger, Charge.SettlementTxn(c, row));
    Charge.SettlementBalances(c, row);
  }

  lemma SettleTotals(t: Tables, u: Tables, p: ParsedTxn, c: nat, now: nat)
    requires Totalled(t) && Settles(t, u, p, c, now)
    ensures Totalled(u)
  {
    PayingMovesSums(t.charges, c, p.amountMinor);
    RecordingMovesSums(t.events, p, c, now);
    PostingMovesBalance(t.ledger, c, t.charges[c]);
  }

  lemma TotalsMove(t: Tables, u: Tables)
    requires RowsOk(t) && RowsOk(u) && Totalled(t) && Moves(t, u)
    ensures Totalled(u)
  {
    if Quiet(t, u) {
      QuietTotals(t, u);
    } else if exists p, now: nat :: RecordsOnly(t, u, p, now) {
      var p, now: nat :| RecordsOnly(t, u, p, now);
      SumAppend(MatchedAmount, t.events, Sms.EventRow(p, None, now));
      SumAppend(MatchedOne, t.events, Sms.EventRow(p, None, now));
    } else {
      var p, c: nat, now: nat :| Settles(t, u, p, c, now);
      SettleTotals(t, u, p, c, now);
    }
  }

  lemma AgreedKept(t: Tables, u: Tables)
    requires Agreed(t) && Moves(t, u)
    ensures Agreed(u)
  {
    RowsOkMoves(t, u);
    forall c: nat ensures TalliedOn(u, c) {
      assert TalliedOn(t, c);
      TalliedMoves(t, u, c);
    }
    TotalsMove(t, u);
  }

  lemma {:induction false} AlwaysAgreed(run: seq<Request>)
    ensures Agreed(After(run))
  {
    if run != [] {
      AlwaysAgreed(run[..|run| - 1]);
      EveryRequestMoves(After(run[..|run| - 1]), run[|run| - 1]);
      AgreedKept(After(run[..|run| - 1]), After(run));
    }
  }

  /** Full agreement, per charge: it is paid exactly when one matched event and one ledger
      transaction refer to it, unpaid exactly when none does, the amounts are its own, and its
      callback, if it has one, is notified exactly once. */
  lemma ChargeAgreement(run: seq<Request>, c: nat)
    requires c < |After(run).charges|
    ensures var t := After(run);
            && (t.charges[c].status == Paid
                <==> Sum(EventsOn(c), t.events) == 1 && Sum(TxnsOn(c), t.ledger) == 1)
            && (t.charges[c].status == Pending
                <==> Sum(EventsOn(c), t.events) == 0 && Sum(TxnsOn(c), t.ledger) == 0)
            && Sum(NoticesOn(c), t.deliveries) == (if t.charges[c].callbackUrl.Some? then PaidOne(t.charges[c]) else 0)
            && (forall i :: 0 <= i < |t.events| && t.events[i].chargeId == Some(c) ==>
                  t.events[i].amountMinor == t.charges[c].amountMinor)
            && (forall i :: 0 <= i < |t.ledger| && t.ledger[i].reference == c ==>
                  Ledger.TxnOn(Ledger.MERCHANT_RECEIVABLE)(t.ledger[i]) == t.charges[c].amountMinor)
  {
    var t := After(run);
    AlwaysAgreed(run);
    assert TalliedOn(t, c) && Protocol.ChargeOk(t.charges[c]);
    assert forall i :: 0 <= i < |t.events| ==> Protocol.EventOk(t, t.events[i]);
    forall i | 0 <= i < |t.ledger| && t.ledger[i].reference == c
      ensures Ledger.TxnOn(Ledger.MERCHANT_RECEIVABLE)(t.ledger[i]) == t.charges[c].amountMinor
    {
      assert Protocol.TxnOk(t, t.ledger[i]);
      Charge.SettlementBalances(c, t.charges[c]);
    }
  }
}
