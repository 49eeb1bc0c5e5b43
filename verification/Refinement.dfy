/** A run of whole requests is a run of statements in which nothing interrupts a request, so all
    that holds of interleavings holds of it. */
module Refinement {
  import opened Rows
  import opened Store
  import opened Gateway
  import opened Protocol
  import opened Commutation
  import Handlers
  import Charge
  import Checkout
  import Invoice
  import Sms

  function DraftItems(items: seq<InvoiceItem>): seq<Step> {
    seq(|items|, i requires 0 <= i < |items| => Elsewhere(DraftItem(items[i])))
  }

  /** The statements of a request served on tables t, when n messages have arrived before. */
  function StatementsOf(t: Tables, r: Handlers.Request, n: nat): seq<Step> {
    match r
    case CreateCharge(req) => [Elsewhere(OpenCharge(Charge.RowOf(req)))]
    case CreateCheckout(req, payRef, allowed) =>
      if Checkout.AcceptableAmount(req.amount) && allowed
      then [Elsewhere(OpenCharge(Checkout.RowOf(req, payRef)))] else []
    case CreateInvoice(req, number) =>
      if Invoice.Drafted(t, req, number).Ok?
      then [Elsewhere(DraftInvoice(Invoice.RowOf(req, number)))] + DraftItems(Invoice.ItemRows(|t.invoices|, req.items))
      else []
    case IssuePayment(id, payRef) =>
      if Invoice.Issued(t, id, payRef).Ok?
      then
        var charges := Invoice.Issued(t, id, payRef).value.charges;
        [Elsewhere(OpenCharge(Checkout.RowOf(Invoice.Checkoutify(t.invoices[id]), payRef))),
         Elsewhere(LinkInvoice(id, payRef, Checkout.FindByPayRef(charges, payRef)))]
      else []
    case ReceiveSms(gateway, body, ai, now) =>
      (match Handlers.Parsed(gateway, body, ai)
       case Some(p) => [Arrive(p)] + Times(Advance(n, now), STATEMENTS)
       case None => [])
    case SelectGateway(payRef, choice) => [Elsewhere(ChooseGateway(payRef, choice))]
    case SubmitManual(payRef, trxId, sender) => [Elsewhere(ClaimManually(payRef, trxId, sender))]
    case DeliverWebhook(d, success, at) => [Elsewhere(Deliver(d, success, at))]
  }

  lemma One(w: World, s: Step)
    ensures RunFrom(w, [s]) == Next(w, s)
  {
    RunFromStep(w, [], s);
    assert [] + [s] == [s];
  }

  lemma {:induction false} ItemsDrafted(w: World, items: seq<InvoiceItem>)
    ensures RunFrom(w, DraftItems(items)) == w.(t := w.t.(items := w.t.items + items))
  {
    if items == [] {
      assert w.t.items + items == w.t.items;
    } else {
      var front, last := items[..|items| - 1], items[|items| - 1];
      ItemsDrafted(w, front);
      assert DraftItems(items)[..|items| - 1] == DraftItems(front);
      assert w.t.items + items == (w.t.items + front) + [last];
    }
  }

  lemma IngestSimulated(w: World, p: ParsedTxn, now: nat)
    ensures RunFrom(w, [Arrive(p)] + Times(Advance(|w.ingests|, now), STATEMENTS)).t == Sms.IngestTables(w.t, p, now)
  {
    var v, s := Next(w, Arrive(p)), Advance(|w.ingests|, now);
    One(w, Arrive(p));
    RunTimes(w, [Arrive(p)], s, STATEMENTS);
    UninterruptedIsAtomic(v, |w.ingests|, now);
  }

  lemma DraftSimulated(w: World, req: Invoice.CreateInvoice, number: string)
    requires Invoice.Drafted(w.t, req, number).Ok?
    ensures RunFrom(w, [Elsewhere(DraftInvoice(Invoice.RowOf(req, number)))]
                       + DraftItems(Invoice.ItemRows(|w.t.invoices|, req.items))).t
         == Invoice.Drafted(w.t, req, number).value
  {
    var s, rows := Elsewhere(DraftInvoice(Invoice.RowOf(req, number))), Invoice.ItemRows(|w.t.invoices|, req.items);
    One(w, s);
    RunFromConcat(w, [s], DraftItems(rows));
    ItemsDrafted(Next(w, s), rows);
  }

  lemma Two(w: World, a: Step, b: Step)
    ensures RunFrom(w, [a, b]) == Next(Next(w, a), b)
  {
    One(w, a);
    RunFromStep(w, [a], b);
    assert [a, b] == [a] + [b];
  }

  lemma OpenSimulated(w: World, row: Store.Charge)
    requires row.status == Pending && Charge.Inserted(w.t.charges, row).Ok?
    ensures Next(w, Elsewhere(OpenCharge(row))) == w.(t := w.t.(charges := Charge.Inserted(w.t.charges, row).value))
  {
    assert row.(status := Pending) == row;
  }

  /** The statements of issuing, for whatever row the checkout inserts. */
  lemma LinkSimulated(w: World, row: Store.Charge, id: nat, payRef: string, charges: seq<Store.Charge>)
    requires row.status == Pending && Charge.Inserted(w.t.charges, row) == Ok(charges) && id < |w.t.invoices|
    ensures var c := Checkout.FindByPayRef(charges, payRef);
            RunFrom(w, [Elsewhere(OpenCharge(row)), Elsewhere(LinkInvoice(id, payRef, c))]).t
            == w.t.(charges := charges, invoices := Invoice.Linked(w.t.invoices, id, payRef, c))
  {
    OpenSimulated(w, row);
    Two(w, Elsewhere(OpenCharge(row)), Elsewhere(LinkInvoice(id, payRef, Checkout.FindByPayRef(charges, payRef))));
  }

  lemma IssuedParts(t: Tables, id: nat, payRef: string) returns (row: Store.Charge, charges: seq<Store.Charge>)
    requires Invoice.Issued(t, id, payRef).Ok?
    ensures id < |t.invoices| && row == Checkout.RowOf(Invoice.Checkoutify(t.invoices[id]), payRef)
    ensures row.status == Pending && Charge.Inserted(t.charges, row) == Ok(charges)
    ensures var c := Checkout.FindByPayRef(charges, payRef);
            Invoice.Issued(t, id, payRef).value
            == t.(charges := charges, invoices := Invoice.Linked(t.invoices, id, payRef, c))
  {
    row := Checkout.RowOf(Invoice.Checkoutify(t.invoices[id]), payRef);
    charges := Charge.Inserted(t.charges, row).value;
  }

  lemma IssueSimulated(w: World, id: nat, payRef: string)
    requires Invoice.Issued(w.t, id, payRef).Ok?
    ensures RunFrom(w, StatementsOf(w.t, Handlers.IssuePayment(id, payRef), |w.ingests|)).t
         == Invoice.Issued(w.t, id, payRef).value
  {
    var row, charges := IssuedParts(w.t, id, payRef);
    LinkSimulated(w, row, id, payRef, charges);
  }

  /** One request, as its statements. */
  lemma RequestSimulated(w: World, r: Handlers.Request)
    ensures RunFrom(w, StatementsOf(w.t, r, |w.ingests|)).t == Handlers.Apply(w.t, r)
  {
    var steps := StatementsOf(w.t, r, |w.ingests|);
    if |steps| == 1 { One(w, steps[0]); }
    match r
    case ReceiveSms(gateway, body, ai, now) =>
      if Handlers.Parsed(gateway, body, ai).Some? {
        IngestSimulated(w, Handlers.Parsed(gateway, body, ai).value, now);
      }
    case CreateInvoice(req, number) =>
      if Invoice.Drafted(w.t, req, number).Ok? { DraftSimulated(w, req, number); }
    case IssuePayment(id, payRef) =>
      if Invoice.Issued(w.t, id, payRef).Ok? { IssueSimulated(w, id, payRef); }
    case _ =>
  }

  /** The statements of a run of requests, one request after the other. */
  function Statements(run: seq<Handlers.Request>): seq<Step> {
    if run == [] then [] else
      var front := Statements(run[..|run| - 1]);
      front + StatementsOf(Run(front).t, run[|run| - 1], |Run(front).ingests|)
  }

  /** Every run of requests is the run of their statements, nothing in between. */
  lemma {:induction false} RequestsRefineStatements(run: seq<Handlers.Request>)
    ensures Run(Statements(run)).t == Handlers.After(run)
  {
    if run != [] {
      var front := Statements(run[..|run| - 1]);
      RequestsRefineStatements(run[..|run| - 1]);
      RequestSimulated(Run(front), run[|run| - 1]);
      RunFromConcat(Start(), front, StatementsOf(Run(front).t, run[|run| - 1], |Run(front).ingests|));
    }
  }
}
