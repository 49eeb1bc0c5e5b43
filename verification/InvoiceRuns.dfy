/** Invoices over runs of whole requests: what a paid invoice was paid with. */
module InvoiceRuns {
  import opened Rows
  import opened Store
  import opened Gateway
  import opened Money
  import opened ProtocolSafety
  import opened Handlers
  import Invoice
  import Ledger
  import Sms

  /** The charge an invoice is linked to exists, is for what its amount comes back as, and is
      unpaid if the invoice is. */
  predicate LinkOk(t: Tables, v: Store.Invoice) {
    v.chargeId.Some? ==>
      && v.chargeId.value < |t.charges|
      && t.charges[v.chargeId.value].amountMinor == Passage(v.amountMinor)
      && (v.status == Unpaid ==> t.charges[v.chargeId.value].status == Pending)
  }

  predicate LinksOk(t: Tables) {
    forall v :: 0 <= v < |t.invoices| ==> t.invoices[v].amountMinor > 0 && LinkOk(t, t.invoices[v])
  }

  predicate ItemsInTable(t: Tables) { forall i :: 0 <= i < |t.items| ==> t.items[i].invoiceId < |t.invoices| }

  /** Each invoice is for what its items add up to. */
  predicate Itemised(t: Tables) {
    && ItemsInTable(t)
    && forall v :: 0 <= v < |t.invoices| ==> Invoice.ItemsTotal(t.items, v) == t.invoices[v].amountMinor
  }

  // ---- Items ----

  lemma DraftKeepsItems(t: Tables, req: Invoice.CreateInvoice, number: string)
    requires Itemised(t) && Invoice.Drafted(t, req, number).Ok?
    ensures Itemised(Invoice.Drafted(t, req, number).value)
  {
    var u, id := Invoice.Drafted(t, req, number).value, |t.invoices|;
    var rows := Invoice.ItemRows(id, req.items);
    forall v | 0 <= v < |u.invoices| ensures Invoice.ItemsTotal(u.items, v) == u.invoices[v].amountMinor {
      SumConcat(Invoice.ItemOf(v), t.items, rows);
      if v == id {
        SumZero(Invoice.ItemOf(v), t.items);
        Invoice.ItemRowsTotal(id, req.items);
      } else {
        SumZero(Invoice.ItemOf(v), rows);
      }
    }
  }

  /** Invoices keep their amount, and none disappears. */
  predicate AmountsKept(before: seq<Store.Invoice>, after: seq<Store.Invoice>) {
    && |before| <= |after|
    && forall v :: 0 <= v < |before| ==> after[v].amountMinor == before[v].amountMinor
  }

  lemma AmountsKeptBy(t: Tables, r: Request)
    ensures AmountsKept(t.invoices, Apply(t, r).invoices)
    ensures !r.CreateInvoice? ==> |Apply(t, r).invoices| == |t.invoices| && Apply(t, r).items == t.items
  {
  }

  lemma ItemsKept(t: Tables, r: Request)
    requires Itemised(t)
    ensures Itemised(Apply(t, r))
  {
    AmountsKeptBy(t, r);
    if r.CreateInvoice? && Invoice.Drafted(t, r.invoice, r.defaultNumber).Ok? {
      DraftKeepsItems(t, r.invoice, r.defaultNumber);
    }
  }

  // ---- Links ----

  /** Issuing links a pending charge of the invoice's amount: the one it has just inserted. */
  lemma IssueLinks(t: Tables, id: nat, payRef: string)
    requires LinksOk(t) && id < |t.invoices| && Invoice.Issued(t, id, payRef).Ok?
    ensures LinkOk(Invoice.Issued(t, id, payRef).value, Invoice.Issued(t, id, payRef).value.invoices[id])
  {
    Invoice.IssuedChargeMatches(t, id, payRef);
  }

  lemma LinksUnderGrowth(t: Tables, u: Tables, v: Store.Invoice)
    requires LinkOk(t, v) && Opens(t.charges, u.charges)
    ensures LinkOk(u, v)
  {
  }

  lemma IssueKeepsLinks(t: Tables, id: nat, payRef: string)
    requires LinksOk(t) && id < |t.invoices| && Invoice.Issued(t, id, payRef).Ok?
    ensures LinksOk(Invoice.Issued(t, id, payRef).value)
  {
    var u := Invoice.Issued(t, id, payRef).value;
    IssueLinks(t, id, payRef);
    OpenedOpens(t.charges, Invoice.Checkoutify(t.invoices[id]), payRef, true);
    forall v | 0 <= v < |u.invoices| && v != id ensures u.invoices[v].amountMinor > 0 && LinkOk(u, u.invoices[v]) {
      LinksUnderGrowth(t, u, t.invoices[v]);
    }
  }

  lemma SettleKeepsLinks(t: Tables, u: Tables, p: ParsedTxn, c: nat, now: nat)
    requires LinksOk(t) && Settles(t, u, p, c, now)
    ensures LinksOk(u)
  {
    forall v | 0 <= v < |u.invoices| ensures u.invoices[v].amountMinor > 0 && LinkOk(u, u.invoices[v]) {
      assert LinkOk(t, t.invoices[v]);
    }
  }

  lemma DraftKeepsLinks(t: Tables, req: Invoice.CreateInvoice, number: string)
    requires LinksOk(t) && Invoice.Drafted(t, req, number).Ok?
    ensures LinksOk(Invoice.Drafted(t, req, number).value)
  {
    var u := Invoice.Drafted(t, req, number).value;
    forall v | 0 <= v < |t.invoices| ensures LinkOk(u, u.invoices[v]) {
      assert LinkOk(t, t.invoices[v]) && u.invoices[v] == t.invoices[v];
    }
  }

  lemma IngestKeepsLinks(t: Tables, p: ParsedTxn, now: nat)
    requires LinksOk(t)
    ensures LinksOk(Sms.IngestTables(t, p, now))
  {
    var u := Sms.IngestTables(t, p, now);
    IngestMoves(t, p, now);
    if exists p, c: nat, now: nat :: Settles(t, u, p, c, now) {
      var p, c: nat, now: nat :| Settles(t, u, p, c, now);
      SettleKeepsLinks(t, u, p, c, now);
    } else {
      assert u.invoices == t.invoices && u.charges == t.charges;
    }
  }

  lemma QuietKeepsLinks(t: Tables, r: Request)
    requires LinksOk(t) && !r.ReceiveSms? && !r.IssuePayment? && !r.CreateInvoice?
    ensures LinksOk(Apply(t, r))
  {
    var u := Apply(t, r);
    OthersAreQuiet(t, r);
    assert u.invoices == t.invoices;
    forall v | 0 <= v < |u.invoices| ensures LinkOk(u, u.invoices[v]) { LinksUnderGrowth(t, u, t.invoices[v]); }
  }

  lemma LinksKept(t: Tables, r: Request)
    requires LinksOk(t)
    ensures LinksOk(Apply(t, r))
  {
    match r
    case ReceiveSms(gateway, body, ai, now) =>
      if Parsed(gateway, body, ai).Some? { IngestKeepsLinks(t, Parsed(gateway, body, ai).value, now); }
    case IssuePayment(id, payRef) =>
      if Invoice.Issued(t, id, payRef).Ok? { IssueKeepsLinks(t, id, payRef); }
    case CreateInvoice(req, number) =>
      if Invoice.Drafted(t, req, number).Ok? { DraftKeepsLinks(t, req, number); }
    case _ => QuietKeepsLinks(t, r);
  }

  lemma {:induction false} AlwaysLinked(run: seq<Request>)
    ensures LinksOk(After(run)) && Itemised(After(run))
  {
    if run != [] {
      AlwaysLinked(run[..|run| - 1]);
      LinksKept(After(run[..|run| - 1]), run[|run| - 1]);
      ItemsKept(After(run[..|run| - 1]), run[|run| - 1]);
    }
  }

  // ---- Paid and unpaid ----

  /** Only a settling message turns an unpaid invoice into anything else, and it settles the
      charge the invoice is linked to. */
  lemma InvoiceTurns(t: Tables, r: Request, v: nat)
    requires LinksOk(t) && v < |t.invoices| && t.invoices[v].status == Unpaid
    requires Apply(t, r).invoices[v].status != Unpaid
    ensures t.invoices[v].chargeId.Some? && t.invoices[v].chargeId.value < |Apply(t, r).charges|
    ensures Apply(t, r).charges[t.invoices[v].chargeId.value].status == Paid
    ensures Apply(t, r).invoices[v].status == Settled
  {
    assert r.ReceiveSms? && Parsed(r.gateway, r.body, r.ai).Some?;
    IngestMoves(t, Parsed(r.gateway, r.body, r.ai).value, r.now);
    assert LinkOk(t, t.invoices[v]);
  }

  /** A paid invoice stays paid; a new one is unpaid. */
  lemma StatusStays(t: Tables, r: Request, v: nat)
    requires v < |Apply(t, r).invoices|
    ensures v < |t.invoices| && t.invoices[v].status != Unpaid ==>
              Apply(t, r).invoices[v].status == t.invoices[v].status
    ensures v >= |t.invoices| ==> Apply(t, r).invoices[v].status == Unpaid
  {
  }

  /** Charge c was linked to invoice v while it was unpaid, k requests into the run. */
  predicate LinkedAt(run: seq<Request>, k: nat, v: nat, c: nat) {
    && k <= |run| && v < |After(run[..k]).invoices|
    && After(run[..k]).invoices[v].chargeId == Some(c) && After(run[..k]).invoices[v].status == Unpaid
  }

  /** ... and c is now paid, on the terms it had then. */
  predicate PaidVia(run: seq<Request>, k: nat, v: nat, c: nat) {
    && LinkedAt(run, k, v, c) && v < |After(run).invoices| && c < |After(run).charges|
    && After(run).charges[c].status == Paid
    && After(run).charges[c].amountMinor == Passage(After(run).invoices[v].amountMinor)
  }

  lemma PaidViaGrows(run: seq<Request>, r: Request, k: nat, v: nat, c: nat)
    requires PaidVia(run, k, v, c)
    ensures PaidVia(run + [r], k, v, c)
  {
    assert (run + [r])[..|run|] == run;
    assert (run + [r])[..k] == run[..k];
    AlwaysAgreed(run);
    EveryRequestMoves(After(run), r);
    RowsOkMoves(After(run), Apply(After(run), r));
    AmountsKeptBy(After(run), r);
  }

  lemma JustPaid(run: seq<Request>, r: Request, v: nat) returns (c: nat)
    requires v < |After(run).invoices| && After(run).invoices[v].status == Unpaid
    requires Apply(After(run), r).invoices[v].status != Unpaid
    ensures PaidVia(run + [r], |run|, v, c)
  {
    var t := After(run);
    AlwaysLinked(run);
    InvoiceTurns(t, r, v);
    c := t.invoices[v].chargeId.value;
    assert (run + [r])[..|run|] == run;
    assert LinkOk(t, t.invoices[v]);
    AlwaysAgreed(run);
    EveryRequestMoves(t, r);
    RowsOkMoves(t, Apply(t, r));
    AmountsKeptBy(t, r);
  }

  lemma {:induction false} PaidInvoiceHistory(run: seq<Request>, v: nat) returns (k: nat, c: nat)
    requires v < |After(run).invoices| && After(run).invoices[v].status != Unpaid
    ensures PaidVia(run, k, v, c)
  {
    var front, r := run[..|run| - 1], run[|run| - 1];
    var t := After(front);
    assert front + [r] == run;
    StatusStays(t, r, v);
    if t.invoices[v].status == Unpaid {
      k := |front|;
      c := JustPaid(front, r, v);
    } else {
      k, c := PaidInvoiceHistory(front, v);
      PaidViaGrows(front, r, k, v, c);
    }
  }

  /** End to end: a paid invoice was, at some point of the run, linked while unpaid to a charge
      that is now paid, and the one ledger transaction of that charge debits receivable by what
      the items of the invoice add up to, after its passage through major units: exactly the sum
      up to the limit, and one poisha more at the first amount beyond. */
  lemma PaidInvoiceIsFunded(run: seq<Request>, v: nat) returns (k: nat, c: nat, x: nat)
    requires v < |After(run).invoices| && After(run).invoices[v].status != Unpaid
    ensures LinkedAt(run, k, v, c)
    ensures var t := After(run);
            && c < |t.charges| && t.charges[c].status == Paid
            && x < |t.ledger| && t.ledger[x].reference == c && Sum(TxnsOn(c), t.ledger) == 1
    ensures var total := Invoice.ItemsTotal(After(run).items, v);
            var debited := Ledger.TxnOn(Ledger.MERCHANT_RECEIVABLE)(After(run).ledger[x]);
            && debited == Passage(total)
            && (total <= EXACT_LIMIT ==> debited == total)
            && (total == EXACT_LIMIT + 1 ==> debited == total + 1)
  {
    var t := After(run);
    k, c := PaidInvoiceHistory(run, v);
    AlwaysLinked(run);
    ChargeAgreement(run, c);
    x := SumWitness(TxnsOn(c), t.ledger);
    PassageKnown(Invoice.ItemsTotal(t.items, v));
  }

  lemma PassageKnown(total: int)
    requires total >= 1
    ensures total <= EXACT_LIMIT ==> Passage(total) == total
    ensures total == EXACT_LIMIT + 1 ==> Passage(total) == total + 1
  {
    if total <= EXACT_LIMIT { PassageIsExact(total); }
    if total == EXACT_LIMIT + 1 { PassageFails(total); }
  }

  /** The charge an unpaid invoice is linked to is never paid, and nothing was posted for it. */
  lemma UnpaidInvoiceIsUnfunded(run: seq<Request>, v: nat)
    requires v < |After(run).invoices| && After(run).invoices[v].status == Unpaid
    requires After(run).invoices[v].chargeId.Some?
    ensures var t := After(run);
            var c := t.invoices[v].chargeId.value;
            && c < |t.charges| && t.charges[c].status == Pending
            && Sum(TxnsOn(c), t.ledger) == 0 && Sum(EventsOn(c), t.events) == 0
  {
    AlwaysLinked(run);
    assert LinkOk(After(run), After(run).invoices[v]);
    ChargeAgreement(run, After(run).invoices[v].chargeId.value);
  }
}
