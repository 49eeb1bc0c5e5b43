/** Invoices among interleaved statements. `issue_payment` opens a charge in one statement and links
    it to the invoice in a later one, and the charge can be settled in between. */
module InvoiceLinks {
  import opened Rows
  import opened Store
  import opened Gateway
  import opened Protocol
  import opened ProtocolSafety
  import opened Commutation
  import opened Refinement
  import Charge
  import Checkout
  import Handlers
  import Invoice
  import Sms

  /** Ingests that have settled the invoices of charge c. */
  function BilledOn(c: nat): Ingest -> int {
    (g: Ingest) => match g.stage
      case Queueing(k, _) => if k == c then 1 else 0
      case Finished(Some(k)) => if k == c then 1 else 0
      case _ => 0
  }

  /** Ingests, running or crashed, that paid c and have not settled its invoices. */
  function UnbilledOn(c: nat): Ingest -> int {
    (g: Ingest) => if g.stage.Settling? && g.stage.charge == c then 1 else 0
  }

  predicate BillsOn(v: World, s: Step, c: nat) { Moves(v, s) && Before(v, s).Settling? && Before(v, s).charge == c }

  lemma BilledAfter(v: World, s: Step, c: nat)
    ensures Sum(BilledOn(c), Next(v, s).ingests) == Sum(BilledOn(c), v.ingests) + Indicator(BillsOn(v, s, c))
  {
    IngestsAfter(v, s, BilledOn(c));
  }

  predicate Links(s: Step, id: nat) { s.Elsewhere? && s.other.LinkInvoice? && s.other.id == id }

  /** The last link of the invoice is that of step k. */
  predicate LastLink(run: seq<Step>, k: nat, id: nat, payRef: string, c: nat) {
    && k < |run| && run[k] == Elsewhere(LinkInvoice(id, payRef, Some(c)))
    && forall j :: k < j < |run| ==> !Links(run[j], id)
  }

  lemma InvoiceAfter(v: World, s: Step, id: nat, c: nat)
    requires id < |v.t.invoices| && v.t.invoices[id].chargeId == Some(c) && !Links(s, id)
    ensures id < |Next(v, s).t.invoices| && Next(v, s).t.invoices[id].chargeId == Some(c)
    ensures Next(v, s).t.invoices[id].status
         == if BillsOn(v, s, c) && v.t.invoices[id].status == Unpaid then Settled else v.t.invoices[id].status
  {
  }

  lemma LinkAfter(v: World, id: nat, payRef: string, c: nat)
    requires id < |v.t.invoices|
    ensures var u := Next(v, Elsewhere(LinkInvoice(id, payRef, Some(c))));
            && u.ingests == v.ingests && |u.t.invoices| == |v.t.invoices|
            && u.t.invoices[id].chargeId == Some(c) && u.t.invoices[id].status == v.t.invoices[id].status
  {
  }

  /** An invoice linked while unpaid is unpaid at the end if and only if no ingest has settled the
      invoices of its charge since. */
  lemma {:induction false} UnpaidIff(run: seq<Step>, k: nat, id: nat, payRef: string, c: nat)
    requires LastLink(run, k, id, payRef, c)
    requires id < |Run(run[..k]).t.invoices| && Run(run[..k]).t.invoices[id].status == Unpaid
    ensures var before, after := Run(run[..k]), Run(run);
            && id < |after.t.invoices| && after.t.invoices[id].chargeId == Some(c)
            && (after.t.invoices[id].status == Unpaid
                <==> Sum(BilledOn(c), after.ingests) == Sum(BilledOn(c), before.ingests))
            && Sum(BilledOn(c), after.ingests) >= Sum(BilledOn(c), before.ingests)
  {
    var front, s := run[..|run| - 1], run[|run| - 1];
    if k == |run| - 1 {
      LinkAfter(Run(front), id, payRef, c);
    } else {
      assert front[..k] == run[..k];
      UnpaidIff(front, k, id, payRef, c);
      assert !Links(s, id);
      InvoiceAfter(Run(front), s, id, c);
      BilledAfter(Run(front), s, c);
    }
  }

  /** Exactly when a payment misses its invoice: unless some ingest still stands between the status
      flip of the charge and its invoices, the charge is paid and the invoice linked to it is not if
      and only if the charge was settled before the link was written, and never again. */
  lemma PaymentMissesInvoiceIff(run: seq<Step>, k: nat, id: nat, payRef: string, c: nat)
    requires LastLink(run, k, id, payRef, c)
    requires id < |Run(run[..k]).t.invoices| && Run(run[..k]).t.invoices[id].status == Unpaid
    requires c < |Run(run).t.charges| && Sum(UnbilledOn(c), Run(run).ingests) == 0
    ensures var before, after := Run(run[..k]), Run(run);
            && id < |after.t.invoices| && after.t.invoices[id].chargeId == Some(c)
            && (after.t.charges[c].status == Paid && after.t.invoices[id].status == Unpaid
                <==> 1 <= Sum(BilledOn(c), before.ingests) == Sum(BilledOn(c), after.ingests))
  {
    UnpaidIff(run, k, id, payRef, c);
    ChargeCounts(run, c);
    SumAdd(BilledOn(c), UnbilledOn(c), MarkedOn(c), Run(run).ingests);
  }

  // ---- It does happen ----

  /** The tables between the two statements, once a message has settled the new charge. */
  function Between(t: Tables, row: Store.Charge, p: ParsedTxn, now: nat): Tables {
    var events := t.events + [Sms.EventRow(p, Some(|t.charges|), now)];
    Charge.MarkPaidTables(t.(charges := t.charges + [row], events := events), |t.charges|, now)
  }

  lemma SettledBetween(t: Tables, row: Store.Charge, p: ParsedTxn, now: nat)
    requires Sms.TheOne(t.charges + [row], p, |t.charges|) && !Sms.Recorded(t.events, p.gateway, p.txnId)
    ensures Sms.IngestTables(t.(charges := t.charges + [row]), p, now) == Between(t, row, p, now)
  {
    Sms.MatchIsExact(t.charges + [row], p, |t.charges|);
  }

  /** The invoice is not touched by the settlement, as it is not linked to the charge yet. */
  lemma NotYetLinked(t: Tables, row: Store.Charge, p: ParsedTxn, id: nat, now: nat)
    requires id < |t.invoices| && t.invoices[id].chargeId != Some(|t.charges|)
    ensures var u := Between(t, row, p, now);
            && |u.invoices| == |t.invoices| && u.invoices[id] == t.invoices[id]
            && |u.charges| == |t.charges| + 1 && u.charges[|t.charges|] == row.(status := Paid)
  {
  }

  /** The two statements of issuing with a whole ingest in between. */
  function Interrupted(w: World, row: Store.Charge, id: nat, payRef: string, p: ParsedTxn, now: nat): seq<Step> {
    [Elsewhere(OpenCharge(row))] + ([Arrive(p)] + Times(Advance(|w.ingests|, now), STATEMENTS))
    + [Elsewhere(LinkInvoice(id, payRef, Some(|w.t.charges|)))]
  }

  lemma InterruptedEnds(w: World, row: Store.Charge, id: nat, payRef: string, p: ParsedTxn, now: nat)
    requires row.status == Pending && Charge.Inserted(w.t.charges, row) == Ok(w.t.charges + [row])
    requires id < |w.t.invoices| && w.t.invoices[id].chargeId != Some(|w.t.charges|)
    requires Sms.TheOne(w.t.charges + [row], p, |w.t.charges|) && !Sms.Recorded(w.t.events, p.gateway, p.txnId)
    ensures var u, c := RunFrom(w, Interrupted(w, row, id, payRef, p, now)), |w.t.charges|;
            && c < |u.t.charges| && u.t.charges[c].status == Paid && id < |u.t.invoices|
            && u.t.invoices[id].chargeId == Some(c) && u.t.invoices[id].status == w.t.invoices[id].status
  {
    var open, link := Elsewhere(OpenCharge(row)), Elsewhere(LinkInvoice(id, payRef, Some(|w.t.charges|)));
    var ingest := [Arrive(p)] + Times(Advance(|w.ingests|, now), STATEMENTS);
    OpenSimulated(w, row);
    var w1 := Next(w, open);
    IngestSimulated(w1, p, now);
    SettledBetween(w.t, row, p, now);
    NotYetLinked(w.t, row, p, id, now);
    var w2 := RunFrom(w1, ingest);
    LinkAfter(w2, id, payRef, |w.t.charges|);
    LinkKeepsCharges(w2, link);
    Refinement.One(w, open);
    RunFromConcat(w, [open], ingest);
    RunFromStep(w, [open] + ingest, link);
  }

  lemma LinkKeepsCharges(w: World, s: Step)
    requires s.Elsewhere? && s.other.LinkInvoice?
    ensures Next(w, s).t.charges == w.t.charges
  {
  }

  /** Whenever an unpaid invoice can be issued and a message can mean the new charge, the message
      can arrive between the two statements. Then the charge is paid and linked, and its invoice
      stays unpaid. */
  lemma PaymentCanMissInvoice(w: World, id: nat, payRef: string, p: ParsedTxn, now: nat) returns (row: Store.Charge)
    requires Invoice.Issued(w.t, id, payRef).Ok?
    requires w.t.invoices[id].status == Unpaid && w.t.invoices[id].chargeId != Some(|w.t.charges|)
    requires Sms.TheOne(Invoice.Issued(w.t, id, payRef).value.charges, p, |w.t.charges|)
    requires !Sms.Recorded(w.t.events, p.gateway, p.txnId)
    ensures StatementsOf(w.t, Handlers.IssuePayment(id, payRef), |w.ingests|)
         == [Elsewhere(OpenCharge(row)), Elsewhere(LinkInvoice(id, payRef, Some(|w.t.charges|)))]
    ensures var u, c := RunFrom(w, Interrupted(w, row, id, payRef, p, now)), |w.t.charges|;
            && c < |u.t.charges| && u.t.charges[c].status == Paid && id < |u.t.invoices|
            && u.t.invoices[id].chargeId == Some(c) && u.t.invoices[id].status == Unpaid
  {
    var charges;
    row, charges := IssuedParts(w.t, id, payRef);
    IssueStatements(w, row, charges, id, payRef);
    InterruptedEnds(w, row, id, payRef, p, now);
  }

  lemma IssueIsTwo(t: Tables, id: nat, payRef: string, n: nat, row: Store.Charge, charges: seq<Store.Charge>)
    requires id < |t.invoices| && row == Checkout.RowOf(Invoice.Checkoutify(t.invoices[id]), payRef)
    requires Invoice.Issued(t, id, payRef).Ok? && Invoice.Issued(t, id, payRef).value.charges == charges
    ensures StatementsOf(t, Handlers.IssuePayment(id, payRef), n)
         == [Elsewhere(OpenCharge(row)), Elsewhere(LinkInvoice(id, payRef, Checkout.FindByPayRef(charges, payRef)))]
  {
  }

  lemma IssueStatements(w: World, row: Store.Charge, charges: seq<Store.Charge>, id: nat, payRef: string)
    requires id < |w.t.invoices| && Invoice.Issued(w.t, id, payRef).Ok? && row.payRef == Some(payRef)
    requires row == Checkout.RowOf(Invoice.Checkoutify(w.t.invoices[id]), payRef)
    requires Invoice.Issued(w.t, id, payRef).value.charges == charges == w.t.charges + [row]
    ensures StatementsOf(w.t, Handlers.IssuePayment(id, payRef), |w.ingests|)
         == [Elsewhere(OpenCharge(row)), Elsewhere(LinkInvoice(id, payRef, Some(|w.t.charges|)))]
  {
    Invoice.NewestIsFound(charges, payRef);
    IssueIsTwo(w.t, id, payRef, |w.ingests|, row, charges);
  }
}
