/** Settlement as it really runs: any number of ingests, each executing one statement at a time,
    interleaved with every other handler, replayed, and crashing between any two statements. */
module Protocol {
  import opened Rows
  import opened Store
  import opened Gateway
  import Charge
  import Checkout
  import Invoice
  import InvoiceSettlement
  import Sms
  import Webhook

  /** Where an ingest stands: the statement it executes next, or how it ended. */
  datatype Stage =
    | Reading
    | Inserting(hit: Option<nat>)
    | Loading(charge: nat)
    | Posting(charge: nat, row: Store.Charge)
    | Marking(charge: nat, row: Store.Charge)
    | Settling(charge: nat, row: Store.Charge)
    | Queueing(charge: nat, row: Store.Charge)
    | Finished(settled: Option<nat>)
    | Rejected

  /** One call of `ingest`, after parsing. A crashed call keeps the stage it had reached. */
  datatype Ingest = Ingest(parsed: ParsedTxn, stage: Stage, alive: bool)

  datatype World = World(t: Tables, ingests: seq<Ingest>)

  function Start(): World { World(Empty(), []) }

  /** One statement of one ingest: what it does to the tables, and the stage it leads to. */
  function Execute(t: Tables, g: Ingest, now: nat): (Tables, Stage) {
    match g.stage
    case Reading => (t, Inserting(Sms.FindMatchingCharge(t.charges, g.parsed)))
    case Inserting(hit) =>
      if Sms.Recorded(t.events, g.parsed.gateway, g.parsed.txnId) then (t, Rejected)
      else (t.(events := t.events + [Sms.EventRow(g.parsed, hit, now)]),
            if hit.Some? then Loading(hit.value) else Finished(None))
    case Loading(c) => (t, if c < |t.charges| then Posting(c, t.charges[c]) else g.stage)
    case Posting(c, row) => (t.(ledger := t.ledger + [Charge.SettlementTxn(c, row)]), Marking(c, row))
    case Marking(c, row) =>
      (if c < |t.charges| then t.(charges := Charge.MarkedPaid(t.charges, c)) else t, Settling(c, row))
    case Settling(c, row) => (t.(invoices := InvoiceSettlement.SettledFor(t.invoices, c)), Queueing(c, row))
    case Queueing(c, row) =>
      (t.(deliveries := t.deliveries + Charge.Notifications(c, row, now)), Finished(Some(c)))
    case _ => (t, g.stage)
  }

  /** A statement of any other handler. */
  datatype Other =
    | OpenCharge(row: Store.Charge)
    | DraftInvoice(invoice: Store.Invoice)
    | DraftItem(item: InvoiceItem)
    | LinkInvoice(id: nat, payRef: string, chargeId: Option<nat>)
    | ChooseGateway(payRef: string, gateway: string)
    | ClaimManually(payRef: string, trxId: string, sender: Option<string>)
    | Deliver(due: Webhook.Due, success: bool, now: nat)

  function Handle(t: Tables, o: Other): Tables {
    match o
    case OpenCharge(row) =>
      (match Charge.Inserted(t.charges, row.(status := Pending))
       case Ok(charges) => t.(charges := charges)
       case Err(_) => t)
    case DraftInvoice(v) => t.(invoices := t.invoices + [v])
    case DraftItem(item) => t.(items := t.items + [item])
    case LinkInvoice(id, payRef, chargeId) =>
      if id < |t.invoices| then t.(invoices := Invoice.Linked(t.invoices, id, payRef, chargeId)) else t
    case ChooseGateway(payRef, gateway) => t.(charges := Checkout.Chosen(t.charges, payRef, gateway))
    case ClaimManually(payRef, trxId, sender) => t.(charges := Checkout.Claimed(t.charges, payRef, trxId, sender))
    case Deliver(d, success, now) =>
      if d.id < |t.deliveries|
      then t.(deliveries := t.deliveries[d.id := Webhook.AfterPost(t.deliveries[d.id], d, success, now)]) else t
  }

  datatype Step =
    | Arrive(parsed: ParsedTxn)
    | Advance(i: nat, now: nat)
    | Crash(i: nat)
    | Elsewhere(other: Other)

  predicate Moves(w: World, s: Step) { s.Advance? && s.i < |w.ingests| && w.ingests[s.i].alive }

  function Next(w: World, s: Step): World {
    match s
    case Arrive(p) => w.(ingests := w.ingests + [Ingest(p, Reading, true)])
    case Crash(i) => if i < |w.ingests| then w.(ingests := w.ingests[i := w.ingests[i].(alive := false)]) else w
    case Advance(i, now) =>
      if Moves(w, s) then
        var (t, stage) := Execute(w.t, w.ingests[i], now);
        World(t, w.ingests[i := w.ingests[i].(stage := stage)])
      else w
    case Elsewhere(o) => w.(t := Handle(w.t, o))
  }

  function RunFrom(w: World, run: seq<Step>): World {
    if run == [] then w else Next(RunFrom(w, run[..|run| - 1]), run[|run| - 1])
  }

  function Run(run: seq<Step>): World { RunFrom(Start(), run) }

  lemma RunFromStep(w: World, run: seq<Step>, s: Step)
    ensures RunFrom(w, run + [s]) == Next(RunFrom(w, run), s)
  {
    assert (run + [s])[..|run|] == run;
  }

  lemma {:induction false} RunFromConcat(w: World, a: seq<Step>, b: seq<Step>)
    ensures RunFrom(w, a + b) == RunFrom(RunFrom(w, a), b)
  {
    if b == [] {
      assert a + b == a;
    } else {
      var front, s := b[..|b| - 1], b[|b| - 1];
      RunFromConcat(w, a, front);
      RunFromStep(w, a + front, s);
      assert a + b == (a + front) + [s];
    }
  }

  // ---- How a step changes totals ----

  function Before(w: World, s: Step): Stage
    requires Moves(w, s)
  {
    w.ingests[s.i].stage
  }

  function After(w: World, s: Step): Stage
    requires Moves(w, s)
  {
    Execute(w.t, w.ingests[s.i], s.now).1
  }

  predicate Inserts(w: World, s: Step) {
    && Moves(w, s) && Before(w, s).Inserting?
    && !Sms.Recorded(w.t.events, w.ingests[s.i].parsed.gateway, w.ingests[s.i].parsed.txnId)
  }

  predicate Posts(w: World, s: Step) { Moves(w, s) && Before(w, s).Posting? }

  /** A total over ingests that looks at their message and stage only. */
  lemma IngestsAfter(w: World, s: Step, f: Ingest -> int)
    requires forall g: Ingest :: f(g.(alive := false)) == f(g)
    ensures Sum(f, Next(w, s).ingests) == Sum(f, w.ingests)
      + (if s.Arrive? then f(Ingest(s.parsed, Reading, true))
         else if Moves(w, s) then f(w.ingests[s.i].(stage := After(w, s))) - f(w.ingests[s.i])
         else 0)
  {
    match s
    case Arrive(p) => SumAppend(f, w.ingests, Ingest(p, Reading, true));
    case Crash(i) => if i < |w.ingests| { SumUpdate(f, w.ingests, i, w.ingests[i].(alive := false)); }
    case Advance(i, now) => if Moves(w, s) { SumUpdate(f, w.ingests, i, w.ingests[i].(stage := After(w, s))); }
    case Elsewhere(_) =>
  }

  lemma EventsAfter(w: World, s: Step, f: SmsEvent -> int)
    ensures Sum(f, Next(w, s).t.events) == Sum(f, w.t.events)
      + if Inserts(w, s) then f(Sms.EventRow(w.ingests[s.i].parsed, Before(w, s).hit, s.now)) else 0
  {
    if Inserts(w, s) {
      SumAppend(f, w.t.events, Sms.EventRow(w.ingests[s.i].parsed, Before(w, s).hit, s.now));
    }
  }

  lemma LedgerAfter(w: World, s: Step, f: LedgerTxn -> int)
    ensures Sum(f, Next(w, s).t.ledger) == Sum(f, w.t.ledger)
      + if Posts(w, s) then f(Charge.SettlementTxn(Before(w, s).charge, Before(w, s).row)) else 0
  {
    if Posts(w, s) {
      SumAppend(f, w.t.ledger, Charge.SettlementTxn(Before(w, s).charge, Before(w, s).row));
    }
  }

  // ---- What every reachable state satisfies ----

  /** The columns a settlement reads. No statement ever changes them. */
  predicate SameTerms(a: Store.Charge, b: Store.Charge) {
    a.orderId == b.orderId && a.amountMinor == b.amountMinor && a.currency == b.currency
    && a.callbackUrl == b.callbackUrl
  }

  /** Charges are only added, keep their terms, and once paid stay paid. */
  predicate Grown(before: seq<Store.Charge>, after: seq<Store.Charge>) {
    && |before| <= |after|
    && forall i :: 0 <= i < |before| ==>
        SameTerms(before[i], after[i]) && (before[i].status == Paid ==> after[i].status == Paid)
  }

  predicate IngestOk(t: Tables, g: Ingest) {
    match g.stage
    case Inserting(Some(c)) => c < |t.charges| && t.charges[c].amountMinor == g.parsed.amountMinor
    case Loading(c) => c < |t.charges| && t.charges[c].amountMinor == g.parsed.amountMinor
    case Posting(c, row) =>
      c < |t.charges| && SameTerms(row, t.charges[c]) && row.amountMinor == g.parsed.amountMinor
    case Marking(c, row) =>
      c < |t.charges| && SameTerms(row, t.charges[c]) && row.amountMinor == g.parsed.amountMinor
    case Settling(c, row) => c < |t.charges| && SameTerms(row, t.charges[c]) && t.charges[c].status == Paid
    case Queueing(c, row) => c < |t.charges| && SameTerms(row, t.charges[c]) && t.charges[c].status == Paid
    case _ => true
  }

  predicate EventOk(t: Tables, e: SmsEvent) {
    && e.matched == e.chargeId.Some?
    && (e.matched ==> e.chargeId.value < |t.charges| && t.charges[e.chargeId.value].amountMinor == e.amountMinor)
  }

  predicate TxnOk(t: Tables, x: LedgerTxn) {
    x.reference < |t.charges| && x == Charge.SettlementTxn(x.reference, t.charges[x.reference])
  }

  predicate ChargeOk(c: Store.Charge) { c.amountMinor > 0 && (c.status == Pending || c.status == Paid) }

  /** A queued delivery tells the callback of a paid charge about that charge. */
  predicate DeliveryOk(t: Tables, d: Delivery) {
    && d.event == "charge.paid" && d.chargeId < |t.charges|
    && t.charges[d.chargeId].status == Paid && t.charges[d.chargeId].callbackUrl == Some(d.url)
    && d.payload == Charge.PaidPayload(d.chargeId, t.charges[d.chargeId])
  }

  predicate TablesOk(t: Tables) {
    && (forall i :: 0 <= i < |t.charges| ==> ChargeOk(t.charges[i]))
    && (forall i :: 0 <= i < |t.events| ==> EventOk(t, t.events[i]))
    && (forall i :: 0 <= i < |t.ledger| ==> TxnOk(t, t.ledger[i]))
    && (forall i :: 0 <= i < |t.deliveries| ==> DeliveryOk(t, t.deliveries[i]))
  }

  predicate Consistent(w: World) {
    && TablesOk(w.t)
    && forall i :: 0 <= i < |w.ingests| ==> IngestOk(w.t, w.ingests[i])
  }

  lemma ExecuteGrows(t: Tables, g: Ingest, now: nat)
    requires forall i :: 0 <= i < |t.charges| ==> ChargeOk(t.charges[i])
    ensures var after := Execute(t, g, now).0.charges;
            Grown(t.charges, after) && forall i :: 0 <= i < |after| ==> ChargeOk(after[i])
  {
  }

  lemma HandleGrows(t: Tables, o: Other)
    requires forall i :: 0 <= i < |t.charges| ==> ChargeOk(t.charges[i])
    ensures Grown(t.charges, Handle(t, o).charges)
    ensures forall i :: 0 <= i < |Handle(t, o).charges| ==> ChargeOk(Handle(t, o).charges[i])
  {
  }

  lemma ChargesGrow(w: World, s: Step)
    requires Consistent(w)
    ensures Grown(w.t.charges, Next(w, s).t.charges)
    ensures forall i :: 0 <= i < |Next(w, s).t.charges| ==> ChargeOk(Next(w, s).t.charges[i])
  {
    if Moves(w, s) { ExecuteGrows(w.t, w.ingests[s.i], s.now); }
    if s.Elsewhere? { HandleGrows(w.t, s.other); }
  }

  /** Facts about rows survive the growth of the charges table. */
  lemma OkUnderGrowth(t: Tables, u: Tables, g: Ingest)
    requires Grown(t.charges, u.charges)
    ensures IngestOk(t, g) ==> IngestOk(u, g)
    ensures forall e :: EventOk(t, e) ==> EventOk(u, e)
    ensures forall x :: TxnOk(t, x) ==> TxnOk(u, x)
    ensures forall d :: DeliveryOk(t, d) ==> DeliveryOk(u, d)
  {
  }

  lemma MoveKeepsOk(t: Tables, g: Ingest, now: nat)
    requires TablesOk(t) && IngestOk(t, g)
    ensures TablesOk(Execute(t, g, now).0)
    ensures IngestOk(Execute(t, g, now).0, g.(stage := Execute(t, g, now).1))
  {
    ExecuteGrows(t, g, now);
    OkUnderGrowth(t, Execute(t, g, now).0, g);
    var hit := Sms.FindMatchingCharge(t.charges, g.parsed);
    if g.stage.Reading? && hit.Some? {
      Sms.MatchIsExact(t.charges, g.parsed, hit.value);
    }
  }

  lemma HandleKeepsOk(t: Tables, o: Other)
    requires TablesOk(t)
    ensures TablesOk(Handle(t, o))
  {
    HandleGrows(t, o);
    OkUnderGrowth(t, Handle(t, o), Ingest(ParsedTxn(Bkash, "", 0, None), Reading, true));
  }

  lemma OkKept(w: World, s: Step)
    requires Consistent(w)
    ensures Consistent(Next(w, s))
  {
    var v := Next(w, s);
    ChargesGrow(w, s);
    if Moves(w, s) {
      MoveKeepsOk(w.t, w.ingests[s.i], s.now);
    }
    if s.Elsewhere? {
      HandleKeepsOk(w.t, s.other);
    }
    forall i | 0 <= i < |v.ingests| ensures IngestOk(v.t, v.ingests[i]) {
      if i < |w.ingests| && !(Moves(w, s) && i == s.i) {
        OkUnderGrowth(w.t, v.t, w.ingests[i]);
      }
    }
  }

  lemma {:induction false} Always(run: seq<Step>)
    ensures Consistent(Run(run))
  {
    if run != [] {
      Always(run[..|run| - 1]);
      OkKept(Run(run[..|run| - 1]), run[|run| - 1]);
    }
  }
}
