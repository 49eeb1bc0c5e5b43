/** Settling the invoices bound to a charge. Shared by charges, which call it, and by the
    invoice operations themselves. */
module InvoiceSettlement {
  import opened Rows
  import opened Store

  predicate BoundUnpaid(v: Invoice, chargeId: nat) { v.chargeId == Some(chargeId) && v.status == Unpaid }

  /** `UPDATE invoices SET status = 'paid' WHERE charge_id = ? AND status = 'unpaid'`. */
  function SettledFor(invoices: seq<Invoice>, chargeId: nat): (r: seq<Invoice>)
    ensures |r| == |invoices|
    ensures forall i :: 0 <= i < |r| ==> r[i].status == Settled || r[i] == invoices[i]
  {
    seq(|invoices|, i requires 0 <= i < |invoices| =>
      if BoundUnpaid(invoices[i], chargeId) then invoices[i].(status := Settled) else invoices[i])
  }

  /** Afterwards no invoice of the charge is unpaid; those that were are paid and otherwise as
      they were, and no other invoice is touched. */
  method SettleForCharge(db: Database, chargeId: nat)
    modifies db`invoices
    ensures |db.invoices| == |old(db.invoices)|
    ensures forall i :: 0 <= i < |db.invoices| ==> !BoundUnpaid(db.invoices[i], chargeId)
    ensures forall i :: 0 <= i < |db.invoices| && BoundUnpaid(old(db.invoices)[i], chargeId) ==>
              db.invoices[i].status == Settled && db.invoices[i].(status := Unpaid) == old(db.invoices)[i]
    ensures forall i :: 0 <= i < |db.invoices| && !BoundUnpaid(old(db.invoices)[i], chargeId) ==>
              db.invoices[i] == old(db.invoices)[i]
    ensures db.invoices == SettledFor(old(db.invoices), chargeId)
  {
    db.invoices := SettledFor(db.invoices, chargeId);
  }

  /** Settling twice is settling once, and the order in which two charges are settled does not
      matter. */
  lemma SettlingsCommute(invoices: seq<Invoice>, a: nat, b: nat)
    ensures SettledFor(SettledFor(invoices, a), a) == SettledFor(invoices, a)
    ensures SettledFor(SettledFor(invoices, a), b) == SettledFor(SettledFor(invoices, b), a)
  {
  }
}

/** Invoices: drafting one from line items, and opening a checkout that collects it. */
module Invoice {
  import opened Rows
  import opened Store
  import opened Float64
  import opened Money
  import Charge
  import Checkout

  datatype LineItem = LineItem(description: string, quantity: int, unitMinor: int)

  datatype CreateInvoice = CreateInvoice(
    number: Option<string>,
    customerId: Option<string>,
    currency: Option<string>,
    items: seq<LineItem>)

  datatype InvoiceError = InvalidAmount | NotFound | Db(cause: DbError)

  function LineTotal(i: LineItem): int { i.quantity * i.unitMinor }

  function ItemRow(invoiceId: nat, i: LineItem): InvoiceItem {
    InvoiceItem(invoiceId, i.description, i.quantity, i.unitMinor)
  }

  function ItemRows(invoiceId: nat, items: seq<LineItem>): seq<InvoiceItem> {
    seq(|items|, i requires 0 <= i < |items| => ItemRow(invoiceId, items[i]))
  }

  predicate NumberTaken(invoices: seq<Store.Invoice>, number: string) {
    exists i :: 0 <= i < |invoices| && invoices[i].number == number
  }

  function GetOr(o: Option<string>, default: string): string {
    if o.Some? then o.value else default
  }

  function RowOf(req: CreateInvoice, defaultNumber: string): Store.Invoice {
    Invoice(GetOr(req.number, defaultNumber), req.customerId, Sum(LineTotal, req.items), GetOr(req.currency, "BDT"),
            Unpaid, None, None)
  }

  /** The tables after `create`, or its error. `defaultNumber` is drawn from the fresh id. */
  function Drafted(t: Tables, req: CreateInvoice, defaultNumber: string): Result<Tables, InvoiceError> {
    if Sum(LineTotal, req.items) <= 0 then Err(InvalidAmount)
    else if NumberTaken(t.invoices, GetOr(req.number, defaultNumber)) then Err(Db(UniqueViolation))
    else Ok(t.(invoices := t.invoices + [RowOf(req, defaultNumber)],
               items := t.items + ItemRows(|t.invoices|, req.items)))
  }

  method Create(db: Database, req: CreateInvoice, defaultNumber: string) returns (r: Result<nat, InvoiceError>)
    modifies db`invoices, db`items
    ensures match Drafted(old(db.Snapshot()), req, defaultNumber)
            case Ok(t) => r == Ok(|old(db.invoices)|) && db.Snapshot() == t
            case Err(e) => r == Err(e) && db.Snapshot() == old(db.Snapshot())
  {
    var amountMinor := Sum(LineTotal, req.items);
    if amountMinor <= 0 {
      return Err(InvalidAmount);
    }
    var id := |db.invoices|;
    var row := RowOf(req, defaultNumber);
    if NumberTaken(db.invoices, row.number) {
      return Err(Db(UniqueViolation));
    }
    db.invoices := db.invoices + [row];
    for i := 0 to |req.items|
      invariant db.invoices == old(db.invoices) + [row]
      invariant db.items == old(db.items) + ItemRows(id, req.items[..i])
      invariant db.charges == old(db.charges) && db.events == old(db.events)
      invariant db.ledger == old(db.ledger) && db.deliveries == old(db.deliveries)
    {
      assert ItemRows(id, req.items[..i + 1]) == ItemRows(id, req.items[..i]) + [ItemRow(id, req.items[i])];
      db.items := db.items + [ItemRow(id, req.items[i])];
    }
    assert req.items[..|req.items|] == req.items;
    return Ok(id);
  }

  /** Which check refuses a draft, and what its rows say if none does. */
  lemma DraftedMeans(t: Tables, req: CreateInvoice, defaultNumber: string)
    ensures var r := Drafted(t, req, defaultNumber);
            var number := if req.number.Some? then req.number.value else defaultNumber;
            && (r == Err(InvalidAmount) <==> Sum(LineTotal, req.items) <= 0)
            && (r == Err(Db(UniqueViolation))
                <==> Sum(LineTotal, req.items) > 0 && exists v :: v in t.invoices && v.number == number)
            && (r.Err? ==> r.error == InvalidAmount || r.error == Db(UniqueViolation))
            && (r.Ok? ==>
                  && |r.value.invoices| == |t.invoices| + 1 && r.value.invoices[..|t.invoices|] == t.invoices
                  && var row := r.value.invoices[|t.invoices|];
                     (&& row.number == number && row.customerId == req.customerId
                      && row.amountMinor == Sum(LineTotal, req.items) && row.status == Unpaid
                      && row.currency == (if req.currency.Some? then req.currency.value else "BDT")
                      && row.chargeId == None && row.payRef == None))
    ensures var r := Drafted(t, req, defaultNumber);
            r.Ok? ==>
              && r.value == t.(invoices := r.value.invoices, items := r.value.items)
              && |r.value.items| == |t.items| + |req.items| && r.value.items[..|t.items|] == t.items
              && forall i :: 0 <= i < |req.items| ==>
                   var item := r.value.items[|t.items| + i];
                   (&& item.invoiceId == |t.invoices| && item.description == req.items[i].description
                    && item.quantity == req.items[i].quantity && item.unitMinor == req.items[i].unitMinor)
  {
    if NumberTaken(t.invoices, GetOr(req.number, defaultNumber)) {
      var i :| 0 <= i < |t.invoices| && t.invoices[i].number == GetOr(req.number, defaultNumber);
      assert t.invoices[i] in t.invoices;
    }
  }

  /** What the stored items of an invoice add up to. */
  function ItemOf(invoiceId: nat): InvoiceItem -> int {
    (i: InvoiceItem) => if i.invoiceId == invoiceId then i.quantity * i.unitMinor else 0
  }

  function ItemsTotal(items: seq<InvoiceItem>, invoiceId: nat): int { Sum(ItemOf(invoiceId), items) }

  /** The stored rows of a draft add up to what its lines do. */
  lemma {:induction false} ItemRowsTotal(id: nat, items: seq<LineItem>)
    ensures ItemsTotal(ItemRows(id, items), id) == Sum(LineTotal, items)
  {
    if items != [] {
      var front, last := items[..|items| - 1], items[|items| - 1];
      assert ItemRows(id, items) == ItemRows(id, front) + [ItemRow(id, last)];
      SumAppend(ItemOf(id), ItemRows(id, front), ItemRow(id, last));
      ItemRowsTotal(id, front);
    }
  }

  function Checkoutify(v: Store.Invoice): Checkout.CreateCheckout {
    Checkout.CreateCheckout(None, None, Hundredths(v.amountMinor), v.currency, None)
  }

  function FromCheckout(e: Checkout.CheckoutError): InvoiceError {
    match e
    case NotFound => NotFound
    case InvalidAmount => InvalidAmount
    case DomainNotAllowed => InvalidAmount
    case Db(cause) => Db(cause)
  }

  /** `UPDATE invoices SET pay_ref = ?, charge_id = ? WHERE id = ?`. */
  function Linked(invoices: seq<Store.Invoice>, id: nat, payRef: string, chargeId: Option<nat>): seq<Store.Invoice>
    requires id < |invoices|
  {
    invoices[id := invoices[id].(payRef := Some(payRef), chargeId := chargeId)]
  }

  /** The tables after `issue_payment`, or its error. The checkout carries no URLs, which the
      whitelist always allows. */
  function Issued(t: Tables, id: nat, payRef: string): Result<Tables, InvoiceError> {
    if id >= |t.invoices| then Err(NotFound) else
      match Checkout.Opened(t.charges, Checkoutify(t.invoices[id]), payRef, true)
      case Err(e) => Err(FromCheckout(e))
      case Ok(charges) =>
        Ok(t.(charges := charges, invoices := Linked(t.invoices, id, payRef, Checkout.FindByPayRef(charges, payRef))))
  }

  method IssuePayment(db: Database, id: nat, payRef: string) returns (r: Result<string, InvoiceError>)
    modifies db`charges, db`invoices
    ensures match Issued(old(db.Snapshot()), id, payRef)
            case Ok(t) => r == Ok(payRef) && db.Snapshot() == t
            case Err(e) => r == Err(e) && db.Snapshot() == old(db.Snapshot())
  {
    if id >= |db.invoices| {
      return Err(NotFound);
    }
    var invoice := db.invoices[id];
    var created := Checkout.Create(db, Checkoutify(invoice), payRef, true);
    match created {
      case Err(e) => return Err(FromCheckout(e));
      case Ok(ref) =>
        var chargeId := Checkout.FindByPayRef(db.charges, payRef);
        db.invoices := Linked(db.invoices, id, payRef, chargeId);
        return Ok(payRef);
    }
  }

  /** The charge an invoice opens is the new row, pending, and holds what the invoice's amount
      comes back as. */
  lemma IssuedChargeMatches(t: Tables, id: nat, payRef: string)
    requires Issued(t, id, payRef).Ok?
    ensures var after := Issued(t, id, payRef).value;
            && id < |t.invoices| == |after.invoices| && |after.charges| == |t.charges| + 1
            && after.invoices[id].chargeId == Some(|t.charges|)
            && after.charges[|t.charges|].amountMinor == Passage(t.invoices[id].amountMinor)
            && after.charges[|t.charges|].status == Pending
  {
    var req := Checkoutify(t.invoices[id]);
    var charges := Checkout.Opened(t.charges, req, payRef, true).value;
    OpenedAppends(t.charges, req, payRef);
    NewestIsFound(charges, payRef);
  }

  /** The checkout of an invoice asks for its amount and currency, and for nobody in particular;
      the invoice keeps the new reference, and everything else is as it was. */
  lemma IssuedColumns(t: Tables, id: nat, payRef: string)
    requires Issued(t, id, payRef).Ok?
    ensures var after := Issued(t, id, payRef).value;
            && id < |t.invoices| == |after.invoices|
            && after.invoices[id].payRef == Some(payRef)
            && after.invoices[id].(payRef := t.invoices[id].payRef, chargeId := t.invoices[id].chargeId)
               == t.invoices[id]
            && (forall i :: 0 <= i < |t.invoices| && i != id ==> after.invoices[i] == t.invoices[i])
            && after == t.(charges := after.charges, invoices := after.invoices)
            && |after.charges| == |t.charges| + 1 && after.charges[..|t.charges|] == t.charges
    ensures var row := Issued(t, id, payRef).value.charges[|t.charges|];
            && row.currency == t.invoices[id].currency && row.payRef == Some(payRef) && row.orderId == payRef
            && row.customerName == None && row.customerMsisdn == None && row.callbackUrl == None
  {
    Checkout.OpenedMeans(t.charges, Checkoutify(t.invoices[id]), payRef, true);
  }

  /** How an error of a checkout reads as one of issuing. */
  lemma ErrorsRead(cause: DbError)
    ensures FromCheckout(Checkout.NotFound) == NotFound && FromCheckout(Checkout.InvalidAmount) == InvalidAmount
    ensures FromCheckout(Checkout.DomainNotAllowed) == InvalidAmount && FromCheckout(Checkout.Db(cause)) == Db(cause)
  {
  }

  /** The errors of issuing: no such invoice, an amount a checkout does not accept, or the table's. */
  lemma IssueErrors(t: Tables, id: nat, payRef: string)
    ensures Issued(t, id, payRef) == Err(NotFound) <==> id >= |t.invoices|
    ensures id < |t.invoices| && Checkout.Opened(t.charges, Checkoutify(t.invoices[id]), payRef, true).Err? ==>
      match Checkout.Opened(t.charges, Checkoutify(t.invoices[id]), payRef, true).error
      case Db(cause) => Issued(t, id, payRef) == Err(Db(cause))
      case _ => Issued(t, id, payRef) == Err(InvalidAmount)
  {
    if id < |t.invoices| {
      Checkout.OpenedMeans(t.charges, Checkoutify(t.invoices[id]), payRef, true);
    }
  }

  lemma OpenedAppends(charges: seq<Store.Charge>, req: Checkout.CreateCheckout, payRef: string)
    requires Checkout.Opened(charges, req, payRef, true).Ok?
    ensures Checkout.Opened(charges, req, payRef, true).value == charges + [Checkout.RowOf(req, payRef)]
    ensures !Charge.OrderTaken(charges, payRef)
  {
  }

  lemma NewestIsFound(charges: seq<Store.Charge>, payRef: string)
    requires charges != [] && charges[|charges| - 1].payRef == Some(payRef)
    ensures Checkout.FindByPayRef(charges, payRef) == Some(|charges| - 1)
  {
  }

  /** Issuing succeeds for every amount whose integer converts exactly; up to the limit the charge
      is for exactly the invoice's amount. */
  lemma IssueSucceeds(t: Tables, id: nat, payRef: string)
    requires id < |t.invoices| && 1 <= t.invoices[id].amountMinor < INT_LIMIT
    requires !Charge.OrderTaken(t.charges, payRef)
    ensures Issued(t, id, payRef).Ok?
    ensures t.invoices[id].amountMinor <= EXACT_LIMIT ==>
              Passage(t.invoices[id].amountMinor) == t.invoices[id].amountMinor
  {
    Checkout.CheckoutHoldsAmount(t.charges, Checkoutify(t.invoices[id]), payRef, t.invoices[id].amountMinor);
  }
}
