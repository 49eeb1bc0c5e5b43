/** Charges: opening a payment intent, and settling it into the ledger. */
module Charge {
  import opened Rows
  import opened Store
  import opened Text
  import Ledger
  import Webhook
  import InvoiceSettlement

  datatype CreateCharge = CreateCharge(
    orderId: string,
    amountMinor: int,
    currency: string,
    customerName: Option<string>,
    customerMsisdn: Option<string>,
    callbackUrl: Option<string>)

  datatype ChargeError = InvalidAmount | DuplicateOrder(orderId: string) | NotFound | Db(cause: DbError)

  predicate OrderTaken(charges: seq<Store.Charge>, orderId: string) {
    exists i :: 0 <= i < |charges| && charges[i].orderId == orderId
  }

  /** INSERT INTO charges, with its CHECK on the amount and its UNIQUE order_id. */
  function Inserted(charges: seq<Store.Charge>, row: Store.Charge): Result<seq<Store.Charge>, DbError> {
    if row.amountMinor <= 0 then Err(CheckViolation)
    else if OrderTaken(charges, row.orderId) then Err(UniqueViolation)
    else Ok(charges + [row])
  }

  function RowOf(req: CreateCharge): Store.Charge {
    Charge(req.orderId, req.amountMinor, req.currency, req.customerName, req.customerMsisdn, req.callbackUrl,
           Pending, None, None, None, None)
  }

  method Create(db: Database, req: CreateCharge) returns (r: Result<nat, ChargeError>)
    modifies db`charges
    ensures req.amountMinor <= 0 <==> r == Err(InvalidAmount)
    ensures req.amountMinor > 0 ==>
      (r == Err(DuplicateOrder(req.orderId)) <==> OrderTaken(old(db.charges), req.orderId))
    ensures r.Ok? ==> r.value == |old(db.charges)| && db.charges == old(db.charges) + [RowOf(req)]
    ensures r.Err? ==> db.charges == old(db.charges)
    ensures r.Err? ==> r.error == InvalidAmount || r.error == DuplicateOrder(req.orderId)
  {
    if req.amountMinor <= 0 {
      return Err(InvalidAmount);
    }
    match Inserted(db.charges, RowOf(req)) {
      case Err(UniqueViolation) => return Err(DuplicateOrder(req.orderId));
      case Err(e) => return Err(Db(e));
      case Ok(charges) =>
        var id := |db.charges|;
        db.charges := charges;
        return Ok(id);
    }
  }

  /** A row is inserted if and only if its amount is positive and its order new. */
  lemma InsertedMeans(charges: seq<Store.Charge>, row: Store.Charge)
    ensures Inserted(charges, row) == Err(CheckViolation) <==> row.amountMinor <= 0
    ensures Inserted(charges, row) == Err(UniqueViolation)
       <==> row.amountMinor > 0 && exists c :: c in charges && c.orderId == row.orderId
    ensures Inserted(charges, row).Ok? <==> row.amountMinor > 0 && forall c :: c in charges ==> c.orderId != row.orderId
    ensures Inserted(charges, row).Ok? ==> Inserted(charges, row).value == charges + [row]
  {
    if OrderTaken(charges, row.orderId) {
      var i :| 0 <= i < |charges| && charges[i].orderId == row.orderId;
      assert charges[i] in charges;
    }
  }

  /** What the merchant asked for is what the row says. */
  lemma RowColumns(req: CreateCharge)
    ensures RowOf(req).orderId == req.orderId && RowOf(req).amountMinor == req.amountMinor
    ensures RowOf(req).currency == req.currency && RowOf(req).callbackUrl == req.callbackUrl
    ensures RowOf(req).customerName == req.customerName && RowOf(req).customerMsisdn == req.customerMsisdn
    ensures RowOf(req).status == Pending && RowOf(req).payRef == None && RowOf(req).gateway == None
    ensures RowOf(req).claimedTrxId == None && RowOf(req).claimedSender == None
  {
  }

  // ---- Settlement, statement by statement ----

  function Memo(id: nat, c: Store.Charge): string {
    "charge " + Decimal(id) + " settled for order " + c.orderId
  }

  /** The two entries of a settlement: receivable against clearing. */
  function SettlementEntries(c: Store.Charge): seq<Entry> {
    [Ledger.Debit(Ledger.MERCHANT_RECEIVABLE, c.amountMinor, c.currency),
     Ledger.Credit(Ledger.CUSTOMER_CLEARING, c.amountMinor, c.currency)]
  }

  function SettlementTxn(id: nat, c: Store.Charge): LedgerTxn {
    LedgerTxn(id, Memo(id, c), SettlementEntries(c))
  }

  /** A settlement balances, in total and in every currency, and moves exactly the amount of
      the charge from clearing to receivable. */
  lemma SettlementBalances(id: nat, c: Store.Charge)
    ensures Sum(Ledger.AmountOf, SettlementEntries(c)) == 0
    ensures forall cur :: Ledger.TxnIn(cur)(SettlementTxn(id, c)) == 0
    ensures Ledger.TxnOn(Ledger.MERCHANT_RECEIVABLE)(SettlementTxn(id, c)) == c.amountMinor
    ensures Ledger.TxnOn(Ledger.CUSTOMER_CLEARING)(SettlementTxn(id, c)) == -c.amountMinor
  {
    var entries := SettlementEntries(c);
    assert Ledger.MERCHANT_RECEIVABLE[0] != Ledger.CUSTOMER_CLEARING[0];
    Ledger.PairSum(Ledger.AmountOf, entries);
    Ledger.PairSum(Ledger.EntryOn(Ledger.MERCHANT_RECEIVABLE), entries);
    Ledger.PairSum(Ledger.EntryOn(Ledger.CUSTOMER_CLEARING), entries);
    forall cur ensures Ledger.TxnIn(cur)(SettlementTxn(id, c)) == 0 {
      Ledger.PairSum(Ledger.EntryIn(cur), entries);
    }
  }

  /** `UPDATE charges SET status = 'paid' WHERE id = ?`. */
  function MarkedPaid(charges: seq<Store.Charge>, id: nat): seq<Store.Charge>
    requires id < |charges|
  {
    charges[id := charges[id].(status := Paid)]
  }

  function PaidPayload(id: nat, c: Store.Charge): Payload {
    Payload("charge.paid", id, c.orderId, c.amountMinor, c.currency, "paid")
  }

  /** The delivery rows a settlement enqueues: one if the merchant gave a callback. */
  function Notifications(id: nat, c: Store.Charge, now: nat): seq<Delivery> {
    match c.callbackUrl
    case None => []
    case Some(url) => [Webhook.NewDelivery(id, url, "charge.paid", PaidPayload(id, c), now)]
  }

  /** The whole of `mark_paid`, its statements taken together. */
  function MarkPaidTables(t: Tables, id: nat, now: nat): Tables
    requires id < |t.charges|
  {
    var c := t.charges[id];
    t.(ledger := t.ledger + [SettlementTxn(id, c)],
       charges := MarkedPaid(t.charges, id),
       invoices := InvoiceSettlement.SettledFor(t.invoices, id),
       deliveries := t.deliveries + Notifications(id, c, now))
  }

  /** Settling charge c, column by column: its status becomes paid and nothing else of it changes;
      one transaction debits receivable and credits clearing; its unpaid invoices become paid; and
      its callback, if there is one, is told its own order, amount and currency. */
  lemma MarkPaidColumns(t: Tables, id: nat, now: nat)
    requires id < |t.charges|
    ensures var c, u := t.charges[id], MarkPaidTables(t, id, now);
            && |u.charges| == |t.charges| && u.charges[id].status == Paid && u.charges[id].(status := c.status) == c
            && (forall i :: 0 <= i < |t.charges| && i != id ==> u.charges[i] == t.charges[i])
            && u.events == t.events && u.items == t.items
    ensures var c, u := t.charges[id], MarkPaidTables(t, id, now);
            u.ledger == t.ledger + [LedgerTxn(
              reference := id,
              memo := "charge " + Decimal(id) + " settled for order " + c.orderId,
              entries := [
                Entry(account := "merchant:receivable", amountMinor := c.amountMinor, currency := c.currency),
                Entry(account := "customer:clearing", amountMinor := -c.amountMinor, currency := c.currency)])]
    ensures var c, u := t.charges[id], MarkPaidTables(t, id, now);
            && |u.invoices| == |t.invoices|
            && forall i :: 0 <= i < |t.invoices| ==>
                 u.invoices[i] == if t.invoices[i].chargeId == Some(id) && t.invoices[i].status == Unpaid
                                  then t.invoices[i].(status := Settled) else t.invoices[i]
    ensures var c, u := t.charges[id], MarkPaidTables(t, id, now);
            u.deliveries == if c.callbackUrl.None? then t.deliveries else t.deliveries + [Delivery(
              chargeId := id,
              url := c.callbackUrl.value,
              payload := Payload(event := "charge.paid", chargeId := id, orderId := c.orderId,
                                 amountMinor := c.amountMinor, currency := c.currency, status := "paid"),
              event := "charge.paid",
              status := Queued, attempts := 0, maxAttempts := 8, nextAttemptAt := now)]
  {
  }

  method MarkPaid(db: Database, id: nat, now: nat) returns (r: Result<(), ChargeError>)
    modifies db
    ensures id < |old(db.charges)| ==> r.Ok? && db.Snapshot() == MarkPaidTables(old(db.Snapshot()), id, now)
    ensures id >= |old(db.charges)| ==> r == Err(NotFound) && db.Snapshot() == old(db.Snapshot())
  {
    if id >= |db.charges| {
      return Err(NotFound);
    }
    var charge := db.charges[id];
    SettlementBalances(id, charge);
    var posted := Ledger.Post(db, id, Memo(id, charge), SettlementEntries(charge), None);
    db.charges := MarkedPaid(db.charges, id);
    InvoiceSettlement.SettleForCharge(db, id);
    if charge.callbackUrl.Some? {
      var _ := Webhook.Enqueue(db, id, charge.callbackUrl.value, "charge.paid", PaidPayload(id, charge), now);
    }
    return Ok(());
  }
}
