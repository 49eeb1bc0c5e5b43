/** Ingests of different amounts and different messages commute: every complete interleaving of
    their statements reaches the tables that handling them one after the other reaches. */
module Commutation {
  import opened Rows
  import opened Store
  import opened Gateway
  import opened Protocol
  import opened ProtocolSafety
  import Charge
  import InvoiceSettlement
  import Sms

  /** All the messages, each about to be handled. */
  function Fresh(t: Tables, ps: seq<ParsedTxn>): World {
    World(t, seq(|ps|, i requires 0 <= i < |ps| => Ingest(ps[i], Reading, true)))
  }

  predicate Different(ps: seq<ParsedTxn>) {
    forall i, j :: 0 <= i < j < |ps| ==>
      ps[i].amountMinor != ps[j].amountMinor && !HasKey(ps[i], ps[j].gateway, ps[j].txnId)
  }

  predicate OnlyAdvances(run: seq<Step>) { forall k :: 0 <= k < |run| ==> run[k].Advance? }

  predicate Ended(s: Stage) { s.Finished? || s.Rejected? }

  predicate Complete(w: World) {
    forall i :: 0 <= i < |w.ingests| ==> Ended(w.ingests[i].stage)
  }

  // ---- Equality up to row order and times ----

  /** How often a row occurs, the time it was written aside. */
  function EventCopies(e: SmsEvent): SmsEvent -> int {
    (x: SmsEvent) => if x.(receivedAt := e.receivedAt) == e then 1 else 0
  }

  function TxnCopies(x: LedgerTxn): LedgerTxn -> int { (y: LedgerTxn) => if y == x then 1 else 0 }

  function DeliveryCopies(d: Delivery): Delivery -> int {
    (x: Delivery) => if x.(nextAttemptAt := d.nextAttemptAt) == d then 1 else 0
  }

  /** The same charges, invoices and items; and every event, ledger transaction and queued
      delivery occurs equally often. */
  ghost predicate Equivalent(a: Tables, b: Tables) {
    && a.charges == b.charges && a.invoices == b.invoices && a.items == b.items
    && (forall e :: Sum(EventCopies(e), a.events) == Sum(EventCopies(e), b.events))
    && (forall x :: Sum(TxnCopies(x), a.ledger) == Sum(TxnCopies(x), b.ledger))
    && (forall d :: Sum(DeliveryCopies(d), a.deliveries) == Sum(DeliveryCopies(d), b.deliveries))
  }

  // ---- What each ingest contributes, by its stage ----

  function Hit(t: Tables, p: ParsedTxn): Option<nat> { Sms.FindMatchingCharge(t.charges, p) }

  predicate Known(t: Tables, p: ParsedTxn) { Sms.Recorded(t.events, p.gateway, p.txnId) }

  /** The stage is one the message reaches when handled on t alone. */
  predicate StageFits(t: Tables, p: ParsedTxn, s: Stage) {
    match s
    case Reading => true
    case Inserting(h) => h == Hit(t, p)
    case Loading(c) => !Known(t, p) && Hit(t, p) == Some(c)
    case Posting(c, row) => !Known(t, p) && Hit(t, p) == Some(c) && c < |t.charges| && row == t.charges[c]
    case Marking(c, row) => !Known(t, p) && Hit(t, p) == Some(c) && c < |t.charges| && row == t.charges[c]
    case Settling(c, row) => !Known(t, p) && Hit(t, p) == Some(c) && c < |t.charges| && row == t.charges[c]
    case Queueing(c, row) => !Known(t, p) && Hit(t, p) == Some(c) && c < |t.charges| && row == t.charges[c]
    case Finished(h) => !Known(t, p) && h == Hit(t, p)
    case Rejected => Known(t, p)
  }

  /** The copies of a row that an ingest has written by its stage. */
  function EventsBy(t: Tables, e: SmsEvent): Ingest -> int {
    (g: Ingest) => if IsRecorded(g.stage) then EventCopies(e)(Sms.EventRow(g.parsed, Hit(t, g.parsed), 0)) else 0
  }

  function TxnsBy(t: Tables, x: LedgerTxn): Ingest -> int {
    (g: Ingest) =>
      if IsPosted(g.stage) && HitRow(t, g.parsed).Some?
      then TxnCopies(x)(Charge.SettlementTxn(Hit(t, g.parsed).value, HitRow(t, g.parsed).value)) else 0
  }

  function DeliveriesBy(t: Tables, d: Delivery): Ingest -> int {
    (g: Ingest) =>
      if g.stage.Finished? && HitRow(t, g.parsed).Some?
      then NoticeCopies(d, Hit(t, g.parsed).value, HitRow(t, g.parsed).value) else 0
  }

  function HitRow(t: Tables, p: ParsedTxn): Option<Store.Charge> {
    match Hit(t, p)
    case Some(c) => if c < |t.charges| then Some(t.charges[c]) else None
    case None => None
  }

  function NoticeCopies(d: Delivery, c: nat, row: Store.Charge): int {
    Sum(DeliveryCopies(d), Charge.Notifications(c, row, 0))
  }

  predicate Flipped(s: Stage, c: nat) {
    match s
    case Settling(k, _) => k == c
    case Queueing(k, _) => k == c
    case Finished(h) => h == Some(c)
    case _ => false
  }

  predicate Billed(s: Stage, c: nat) {
    match s
    case Queueing(k, _) => k == c
    case Finished(h) => h == Some(c)
    case _ => false
  }

  predicate AnyFlipped(gs: seq<Ingest>, c: nat) { exists i :: 0 <= i < |gs| && Flipped(gs[i].stage, c) }

  predicate AnyBilled(gs: seq<Ingest>, v: Store.Invoice) {
    v.chargeId.Some? && exists i :: 0 <= i < |gs| && Billed(gs[i].stage, v.chargeId.value)
  }

  function PaidIf(flipped: bool, c: Store.Charge): Store.Charge { if flipped then c.(status := Paid) else c }

  function SettledIf(billed: bool, v: Store.Invoice): Store.Invoice {
    if billed && v.status == Unpaid then v.(status := Settled) else v
  }

  predicate ChargesFit(t: Tables, w: World) {
    && |w.t.charges| == |t.charges|
    && forall c :: 0 <= c < |t.charges| ==> w.t.charges[c] == PaidIf(AnyFlipped(w.ingests, c), t.charges[c])
  }

  predicate InvoicesFit(t: Tables, w: World) {
    && |w.t.invoices| == |t.invoices|
    && forall k :: 0 <= k < |t.invoices| ==>
         w.t.invoices[k] == SettledIf(AnyBilled(w.ingests, t.invoices[k]), t.invoices[k])
  }

  predicate EventsFit(t: Tables, w: World, e: SmsEvent) {
    Sum(EventCopies(e), w.t.events) == Sum(EventCopies(e), t.events) + Sum(EventsBy(t, e), w.ingests)
  }

  predicate TxnsFit(t: Tables, w: World, x: LedgerTxn) {
    Sum(TxnCopies(x), w.t.ledger) == Sum(TxnCopies(x), t.ledger) + Sum(TxnsBy(t, x), w.ingests)
  }

  predicate DeliveriesFit(t: Tables, w: World, d: Delivery) {
    Sum(DeliveryCopies(d), w.t.deliveries) == Sum(DeliveryCopies(d), t.deliveries) + Sum(DeliveriesBy(t, d), w.ingests)
  }

  ghost predicate RowsFit(t: Tables, w: World) {
    && (forall e :: EventsFit(t, w, e))
    && (forall x :: TxnsFit(t, w, x))
    && (forall d :: DeliveriesFit(t, w, d))
  }

  predicate IngestsFit(t: Tables, ps: seq<ParsedTxn>, w: World) {
    && |w.ingests| == |ps|
    && forall i :: 0 <= i < |ps| ==>
         w.ingests[i].parsed == ps[i] && w.ingests[i].alive && StageFits(t, ps[i], w.ingests[i].stage)
  }

  /** No message is recorded by anyone but its own ingest. */
  predicate KeysFit(t: Tables, ps: seq<ParsedTxn>, w: World) {
    forall i :: 0 <= i < |ps| && i < |w.ingests| ==>
      (Sms.Recorded(w.t.events, ps[i].gateway, ps[i].txnId) <==> Known(t, ps[i]) || IsRecorded(w.ingests[i].stage))
  }

  /** The tables are those of t changed by what each ingest has contributed so far, whatever the
      order. */
  ghost predicate Fits(t: Tables, ps: seq<ParsedTxn>, w: World) {
    && IngestsFit(t, ps, w) && KeysFit(t, ps, w) && ChargesFit(t, w) && InvoicesFit(t, w) && RowsFit(t, w)
    && w.t.items == t.items
  }

  // ---- The different ingests do not see each other ----

  lemma HitIsRow(t: Tables, p: ParsedTxn, c: nat)
    requires Hit(t, p) == Some(c)
    ensures c < |t.charges| && t.charges[c].amountMinor == p.amountMinor
  {
    Sms.MatchIsExact(t.charges, p, c);
  }

  lemma OwnCharge(t: Tables, ps: seq<ParsedTxn>, w: World, i: nat, j: nat, c: nat)
    requires Different(ps) && IngestsFit(t, ps, w) && i < |ps| && j < |ps|
    requires c < |t.charges| && t.charges[c].amountMinor == ps[i].amountMinor
    requires Flipped(w.ingests[j].stage, c)
    ensures i == j
  {
    HitIsRow(t, ps[j], c);
  }

  /** Matching returns what it would on the original tables, because the charges flipped meanwhile
      have other amounts. */
  lemma SameMatch(t: Tables, ps: seq<ParsedTxn>, w: World, i: nat)
    requires Different(ps) && IngestsFit(t, ps, w) && ChargesFit(t, w) && i < |ps|
    requires w.ingests[i].stage.Reading?
    ensures Hit(w.t, ps[i]) == Hit(t, ps[i])
  {
    var a := ps[i].amountMinor;
    forall c | 0 <= c < |t.charges|
      ensures w.t.charges[c] == t.charges[c] || (w.t.charges[c].amountMinor != a && t.charges[c].amountMinor != a)
    {
      if AnyFlipped(w.ingests, c) && t.charges[c].amountMinor == a {
        var j :| 0 <= j < |w.ingests| && Flipped(w.ingests[j].stage, c);
        OwnCharge(t, ps, w, i, j, c);
      }
    }
    MatchSeesAmount(w.t.charges, t.charges, ps[i]);
  }

  lemma MatchSeesAmount(x: seq<Store.Charge>, y: seq<Store.Charge>, p: ParsedTxn)
    requires |x| == |y|
    requires forall c :: 0 <= c < |x| ==>
      x[c] == y[c] || (x[c].amountMinor != p.amountMinor && y[c].amountMinor != p.amountMinor)
    ensures Sms.FindMatchingCharge(x, p) == Sms.FindMatchingCharge(y, p)
  {
    forall k: nat ensures Sms.TheOne(x, p, k) <==> Sms.TheOne(y, p, k) {
      var a := p.amountMinor;
      assert forall c :: 0 <= c < |x| ==> (Sms.IsCandidate(x[c], a) <==> Sms.IsCandidate(y[c], a));
      assert forall c :: 0 <= c < |x| && Sms.IsCandidate(x[c], p.amountMinor) ==> x[c] == y[c];
    }
    if Sms.FindMatchingCharge(x, p).Some? { Sms.MatchIsExact(x, p, Sms.FindMatchingCharge(x, p).value); }
    if Sms.FindMatchingCharge(y, p).Some? { Sms.MatchIsExact(y, p, Sms.FindMatchingCharge(y, p).value); }
    if Sms.FindMatchingCharge(x, p).Some? { Sms.MatchIsExact(y, p, Sms.FindMatchingCharge(x, p).value); }
    if Sms.FindMatchingCharge(y, p).Some? { Sms.MatchIsExact(x, p, Sms.FindMatchingCharge(y, p).value); }
  }

  lemma OwnRowUntouched(t: Tables, ps: seq<ParsedTxn>, w: World, i: nat, c: nat)
    requires Different(ps) && IngestsFit(t, ps, w) && ChargesFit(t, w) && i < |ps|
    requires Hit(t, ps[i]) == Some(c) && !Flipped(w.ingests[i].stage, c)
    ensures c < |w.t.charges| && w.t.charges[c] == t.charges[c]
  {
    HitIsRow(t, ps[i], c);
    if AnyFlipped(w.ingests, c) {
      var j :| 0 <= j < |w.ingests| && Flipped(w.ingests[j].stage, c);
      OwnCharge(t, ps, w, i, j, c);
    }
  }

  // ---- One step, seen from its own ingest ----

  /** The tables u look to g as t would: what it has yet to read is not changed by the others. */
  predicate Local(t: Tables, u: Tables, g: Ingest) {
    && StageFits(t, g.parsed, g.stage)
    && (Sms.Recorded(u.events, g.parsed.gateway, g.parsed.txnId) <==> Known(t, g.parsed) || IsRecorded(g.stage))
    && (g.stage.Reading? ==> Hit(u, g.parsed) == Hit(t, g.parsed))
    && (g.stage.Loading? ==>
          g.stage.charge < |t.charges| && g.stage.charge < |u.charges|
          && u.charges[g.stage.charge] == t.charges[g.stage.charge])
  }

  lemma IsLocal(t: Tables, ps: seq<ParsedTxn>, w: World, i: nat)
    requires Different(ps) && IngestsFit(t, ps, w) && KeysFit(t, ps, w) && ChargesFit(t, w) && i < |ps|
    ensures Local(t, w.t, w.ingests[i])
  {
    var g := w.ingests[i];
    if g.stage.Reading? { SameMatch(t, ps, w, i); }
    if g.stage.Loading? { OwnRowUntouched(t, ps, w, i, g.stage.charge); }
  }

  function Moved(u: Tables, g: Ingest, now: nat): Ingest { g.(stage := Execute(u, g, now).1) }

  lemma StageStep(t: Tables, u: Tables, g: Ingest, now: nat)
    requires Local(t, u, g)
    ensures StageFits(t, g.parsed, Moved(u, g, now).stage)
  {
  }

  lemma KeyStep(t: Tables, u: Tables, g: Ingest, now: nat, p: ParsedTxn)
    requires Local(t, u, g)
    ensures Sms.Recorded(Execute(u, g, now).0.events, p.gateway, p.txnId)
       <==> Sms.Recorded(u.events, p.gateway, p.txnId)
            || (HasKey(g.parsed, p.gateway, p.txnId) && IsRecorded(Moved(u, g, now).stage))
  {
    if g.stage.Inserting? {
      RecordedAppend(u.events, Sms.EventRow(g.parsed, g.stage.hit, now), p);
    } else {
      assert Execute(u, g, now).0.events == u.events;
    }
  }

  lemma RecordedAppend(events: seq<SmsEvent>, e: SmsEvent, p: ParsedTxn)
    ensures Sms.Recorded(events + [e], p.gateway, p.txnId)
       <==> Sms.Recorded(events, p.gateway, p.txnId) || (e.gateway == p.gateway && e.txnId == p.txnId)
  {
    assert (events + [e])[|events|] == e;
    assert forall i :: 0 <= i < |events| ==> (events + [e])[i] == events[i];
  }

  lemma ChargeStep(t: Tables, u: Tables, g: Ingest, now: nat, c: nat)
    requires Local(t, u, g) && c < |u.charges|
    ensures |Execute(u, g, now).0.charges| == |u.charges|
    ensures Flipped(g.stage, c) ==> Flipped(Moved(u, g, now).stage, c)
    ensures Execute(u, g, now).0.charges[c]
         == PaidIf(Flipped(Moved(u, g, now).stage, c) && !Flipped(g.stage, c), u.charges[c])
  {
  }

  lemma BillStep(t: Tables, u: Tables, g: Ingest, now: nat, k: nat, c: nat)
    requires Local(t, u, g) && k < |u.invoices| && u.invoices[k].chargeId == Some(c)
    ensures Billed(g.stage, c) ==> Billed(Moved(u, g, now).stage, c)
    ensures |Execute(u, g, now).0.invoices| == |u.invoices|
    ensures Execute(u, g, now).0.invoices[k]
         == SettledIf(Billed(Moved(u, g, now).stage, c) && !Billed(g.stage, c), u.invoices[k])
  {
  }

  lemma UnbilledStep(u: Tables, g: Ingest, now: nat, k: nat)
    requires k < |u.invoices| && u.invoices[k].chargeId.None?
    ensures |Execute(u, g, now).0.invoices| == |u.invoices|
    ensures Execute(u, g, now).0.invoices[k] == u.invoices[k]
  {
  }

  lemma AnyFlippedUpdate(gs: seq<Ingest>, i: nat, h: Ingest, c: nat)
    requires i < |gs| && (Flipped(gs[i].stage, c) ==> Flipped(h.stage, c))
    ensures AnyFlipped(gs[i := h], c) <==> AnyFlipped(gs, c) || Flipped(h.stage, c)
  {
    var hs := gs[i := h];
    if AnyFlipped(gs, c) {
      var j :| 0 <= j < |gs| && Flipped(gs[j].stage, c);
      assert Flipped(hs[j].stage, c);
    }
    assert hs[i] == h;
  }

  lemma AnyBilledUpdate(gs: seq<Ingest>, i: nat, h: Ingest, v: Store.Invoice, c: nat)
    requires v.chargeId == Some(c)
    requires i < |gs| && (Billed(gs[i].stage, c) ==> Billed(h.stage, c))
    ensures AnyBilled(gs[i := h], v) <==> AnyBilled(gs, v) || Billed(h.stage, c)
  {
    var hs := gs[i := h];
    if AnyBilled(gs, v) {
      var j :| 0 <= j < |gs| && Billed(gs[j].stage, c);
      assert Billed(hs[j].stage, c);
    }
    assert hs[i] == h;
  }

  // ---- One step, seen from all of them ----

  function Stepped(w: World, i: nat, now: nat): World
    requires i < |w.ingests|
  {
    World(Execute(w.t, w.ingests[i], now).0, w.ingests[i := Moved(w.t, w.ingests[i], now)])
  }

  lemma NextIsStepped(w: World, s: Step)
    requires Moves(w, s)
    ensures Next(w, s) == Stepped(w, s.i, s.now)
  {
  }

  lemma IngestsKept(t: Tables, ps: seq<ParsedTxn>, w: World, i: nat, now: nat)
    requires IngestsFit(t, ps, w) && i < |ps| && Local(t, w.t, w.ingests[i])
    ensures IngestsFit(t, ps, Stepped(w, i, now))
  {
    StageStep(t, w.t, w.ingests[i], now);
  }

  lemma KeysKept(t: Tables, ps: seq<ParsedTxn>, w: World, i: nat, now: nat)
    requires Different(ps) && IngestsFit(t, ps, w) && KeysFit(t, ps, w) && i < |ps| && Local(t, w.t, w.ingests[i])
    ensures KeysFit(t, ps, Stepped(w, i, now))
  {
    var v, g := Stepped(w, i, now), w.ingests[i];
    forall j | 0 <= j < |ps|
      ensures Sms.Recorded(v.t.events, ps[j].gateway, ps[j].txnId)
         <==> Known(t, ps[j]) || IsRecorded(v.ingests[j].stage)
    {
      KeyStep(t, w.t, g, now, ps[j]);
      assert j != i ==> !HasKey(ps[i], ps[j].gateway, ps[j].txnId) && v.ingests[j] == w.ingests[j];
      if j == i { StaysRecorded(w.t, g, now); }
    }
  }

  lemma StaysRecorded(u: Tables, g: Ingest, now: nat)
    ensures IsRecorded(g.stage) ==> IsRecorded(Moved(u, g, now).stage)
  {
  }

  lemma ChargesKept(t: Tables, w: World, i: nat, now: nat)
    requires ChargesFit(t, w) && i < |w.ingests| && Local(t, w.t, w.ingests[i])
    ensures ChargesFit(t, Stepped(w, i, now))
  {
    var v, g := Stepped(w, i, now), w.ingests[i];
    assert |v.t.charges| == |w.t.charges|;
    forall c | 0 <= c < |t.charges|
      ensures v.t.charges[c] == PaidIf(AnyFlipped(v.ingests, c), t.charges[c])
    {
      ChargeStep(t, w.t, g, now, c);
      AnyFlippedUpdate(w.ingests, i, Moved(w.t, g, now), c);
    }
  }

  lemma InvoicesKept(t: Tables, w: World, i: nat, now: nat)
    requires InvoicesFit(t, w) && i < |w.ingests| && Local(t, w.t, w.ingests[i])
    ensures InvoicesFit(t, Stepped(w, i, now))
  {
    var v, g := Stepped(w, i, now), w.ingests[i];
    assert |v.t.invoices| == |w.t.invoices|;
    forall k | 0 <= k < |t.invoices|
      ensures v.t.invoices[k] == SettledIf(AnyBilled(v.ingests, t.invoices[k]), t.invoices[k])
    {
      var row := t.invoices[k];
      assert w.t.invoices[k].chargeId == row.chargeId;
      if row.chargeId.Some? {
        BillStep(t, w.t, g, now, k, row.chargeId.value);
        AnyBilledUpdate(w.ingests, i, Moved(w.t, g, now), row, row.chargeId.value);
      } else {
        UnbilledStep(w.t, g, now, k);
      }
    }
  }

  lemma TimeAside(e: SmsEvent, p: ParsedTxn, hit: Option<nat>, now: nat)
    ensures EventCopies(e)(Sms.EventRow(p, hit, now)) == EventCopies(e)(Sms.EventRow(p, hit, 0))
  {
  }

  lemma EventsKept(t: Tables, w: World, s: Step, e: SmsEvent)
    requires Moves(w, s) && Local(t, w.t, w.ingests[s.i]) && EventsFit(t, w, e)
    ensures EventsFit(t, Next(w, s), e)
  {
    var g := w.ingests[s.i];
    EventsAfter(w, s, EventCopies(e));
    IngestsAfter(w, s, EventsBy(t, e));
    assert IsRecorded(After(w, s)) <==> IsRecorded(g.stage) || Inserts(w, s);
    if Inserts(w, s) {
      TimeAside(e, g.parsed, g.stage.hit, s.now);
    }
  }

  lemma TxnsByMoves(t: Tables, u: Tables, g: Ingest, now: nat, x: LedgerTxn)
    requires Local(t, u, g)
    ensures TxnsBy(t, x)(Moved(u, g, now)) == TxnsBy(t, x)(g)
      + if g.stage.Posting? then TxnCopies(x)(Charge.SettlementTxn(g.stage.charge, g.stage.row)) else 0
  {
    assert IsPosted(Moved(u, g, now).stage) <==> IsPosted(g.stage) || g.stage.Posting?;
    if g.stage.Posting? {
      assert HitRow(t, g.parsed) == Some(g.stage.row);
    }
  }

  lemma TxnsKept(t: Tables, w: World, s: Step, x: LedgerTxn)
    requires Moves(w, s) && Local(t, w.t, w.ingests[s.i]) && TxnsFit(t, w, x)
    ensures TxnsFit(t, Next(w, s), x)
  {
    var g := w.ingests[s.i];
    LedgerAfter(w, s, TxnCopies(x));
    IngestsAfter(w, s, TxnsBy(t, x));
    TxnsByMoves(t, w.t, g, s.now, x);
  }

  lemma NoticesAppend(rows: seq<Delivery>, c: nat, row: Store.Charge, now: nat, d: Delivery)
    ensures Sum(DeliveryCopies(d), rows + Charge.Notifications(c, row, now))
         == Sum(DeliveryCopies(d), rows) + NoticeCopies(d, c, row)
  {
    var more, zero := Charge.Notifications(c, row, now), Charge.Notifications(c, row, 0);
    if more == [] {
      assert rows + more == rows;
    } else {
      SumAppend(DeliveryCopies(d), rows, more[0]);
      SumAppend(DeliveryCopies(d), [], zero[0]);
      assert more == [more[0]] && zero == [] + [zero[0]];
    }
  }

  lemma DeliveriesByMoves(t: Tables, u: Tables, g: Ingest, now: nat, d: Delivery)
    requires Local(t, u, g)
    ensures DeliveriesBy(t, d)(Moved(u, g, now)) == DeliveriesBy(t, d)(g)
      + if g.stage.Queueing? then NoticeCopies(d, g.stage.charge, g.stage.row) else 0
  {
    if g.stage.Queueing? {
      assert HitRow(t, g.parsed) == Some(g.stage.row);
    }
  }

  lemma DeliveriesKept(t: Tables, w: World, s: Step, d: Delivery)
    requires Moves(w, s) && Local(t, w.t, w.ingests[s.i]) && DeliveriesFit(t, w, d)
    ensures DeliveriesFit(t, Next(w, s), d)
  {
    var g := w.ingests[s.i];
    IngestsAfter(w, s, DeliveriesBy(t, d));
    DeliveriesByMoves(t, w.t, g, s.now, d);
    if g.stage.Queueing? {
      NoticesAppend(w.t.deliveries, g.stage.charge, g.stage.row, s.now, d);
    }
  }

  lemma RowsKept(t: Tables, w: World, s: Step)
    requires Moves(w, s) && Local(t, w.t, w.ingests[s.i]) && RowsFit(t, w)
    ensures RowsFit(t, Next(w, s))
  {
    forall e ensures EventsFit(t, Next(w, s), e) { EventsKept(t, w, s, e); }
    forall x ensures TxnsFit(t, Next(w, s), x) { TxnsKept(t, w, s, x); }
    forall d ensures DeliveriesFit(t, Next(w, s), d) { DeliveriesKept(t, w, s, d); }
  }

  lemma FitsStep(t: Tables, ps: seq<ParsedTxn>, w: World, s: Step)
    requires Different(ps) && Fits(t, ps, w) && s.Advance?
    ensures Fits(t, ps, Next(w, s))
  {
    if Moves(w, s) {
      IsLocal(t, ps, w, s.i);
      NextIsStepped(w, s);
      IngestsKept(t, ps, w, s.i, s.now);
      KeysKept(t, ps, w, s.i, s.now);
      ChargesKept(t, w, s.i, s.now);
      InvoicesKept(t, w, s.i, s.now);
      RowsKept(t, w, s);
      ItemsKept(w.t, w.ingests[s.i], s.now);
    }
  }

  lemma ItemsKept(u: Tables, g: Ingest, now: nat)
    ensures Execute(u, g, now).0.items == u.items
  {
  }

  // ---- Whole runs ----

  predicate AllReading(gs: seq<Ingest>) { forall i :: 0 <= i < |gs| ==> gs[i].stage.Reading? }

  lemma FreshRowsFit(t: Tables, w: World)
    requires w.t == t && AllReading(w.ingests)
    ensures RowsFit(t, w)
  {
    assert forall g: Ingest :: g.stage.Reading? ==> !IsRecorded(g.stage) && !IsPosted(g.stage);
    forall e ensures EventsFit(t, w, e) { SumZero(EventsBy(t, e), w.ingests); }
    forall x ensures TxnsFit(t, w, x) { SumZero(TxnsBy(t, x), w.ingests); }
    forall d ensures DeliveriesFit(t, w, d) { SumZero(DeliveriesBy(t, d), w.ingests); }
  }

  lemma FreshChargesFit(t: Tables, w: World)
    requires w.t == t && AllReading(w.ingests)
    ensures ChargesFit(t, w)
  {
  }

  lemma FreshInvoicesFit(t: Tables, w: World)
    requires w.t == t && AllReading(w.ingests)
    ensures InvoicesFit(t, w)
  {
  }

  lemma FreshFits(t: Tables, ps: seq<ParsedTxn>)
    ensures Fits(t, ps, Fresh(t, ps))
  {
    var w := Fresh(t, ps);
    FreshRowsFit(t, w);
    FreshChargesFit(t, w);
    FreshInvoicesFit(t, w);
  }

  lemma {:induction false} RunFits(t: Tables, ps: seq<ParsedTxn>, run: seq<Step>)
    requires Different(ps) && OnlyAdvances(run)
    ensures Fits(t, ps, RunFrom(Fresh(t, ps), run))
  {
    if run == [] {
      FreshFits(t, ps);
    } else {
      RunFits(t, ps, run[..|run| - 1]);
      FitsStep(t, ps, RunFrom(Fresh(t, ps), run[..|run| - 1]), run[|run| - 1]);
    }
  }

  lemma IngestsDetermined(t: Tables, ps: seq<ParsedTxn>, v: World, w: World)
    requires IngestsFit(t, ps, v) && IngestsFit(t, ps, w) && Complete(v) && Complete(w)
    ensures v.ingests == w.ingests
  {
    forall i | 0 <= i < |ps| ensures v.ingests[i] == w.ingests[i] {
      SameEnd(t, v.ingests[i], w.ingests[i]);
    }
  }

  lemma SameEnd(t: Tables, g: Ingest, h: Ingest)
    requires StageFits(t, g.parsed, g.stage) && StageFits(t, h.parsed, h.stage)
    requires g.parsed == h.parsed && g.alive == h.alive
    requires Ended(g.stage) && Ended(h.stage)
    ensures g == h
  {
  }

  lemma SameCharges(t: Tables, v: World, w: World)
    requires ChargesFit(t, v) && ChargesFit(t, w) && v.ingests == w.ingests
    ensures v.t.charges == w.t.charges
  {
  }

  lemma SameInvoices(t: Tables, v: World, w: World)
    requires InvoicesFit(t, v) && InvoicesFit(t, w) && v.ingests == w.ingests
    ensures v.t.invoices == w.t.invoices
  {
  }

  lemma FitsDetermines(t: Tables, ps: seq<ParsedTxn>, v: World, w: World)
    requires Fits(t, ps, v) && Fits(t, ps, w) && Complete(v) && Complete(w)
    ensures Equivalent(v.t, w.t)
  {
    IngestsDetermined(t, ps, v, w);
    SameCharges(t, v, w);
    SameInvoices(t, v, w);
    forall e ensures Sum(EventCopies(e), v.t.events) == Sum(EventCopies(e), w.t.events) {
      assert EventsFit(t, v, e) && EventsFit(t, w, e);
    }
    forall x ensures Sum(TxnCopies(x), v.t.ledger) == Sum(TxnCopies(x), w.t.ledger) {
      assert TxnsFit(t, v, x) && TxnsFit(t, w, x);
    }
    forall d ensures Sum(DeliveryCopies(d), v.t.deliveries) == Sum(DeliveryCopies(d), w.t.deliveries) {
      assert DeliveriesFit(t, v, d) && DeliveriesFit(t, w, d);
    }
  }

  /** The order of statements does not matter: any two complete interleavings of any number of
      ingests with pairwise different amounts and keys, from any tables, end equivalent. */
  lemma InterleavingsAgree(t: Tables, ps: seq<ParsedTxn>, run: seq<Step>, other: seq<Step>)
    requires Different(ps) && OnlyAdvances(run) && OnlyAdvances(other)
    requires Complete(RunFrom(Fresh(t, ps), run)) && Complete(RunFrom(Fresh(t, ps), other))
    ensures Equivalent(RunFrom(Fresh(t, ps), run).t, RunFrom(Fresh(t, ps), other).t)
  {
    RunFits(t, ps, run);
    RunFits(t, ps, other);
    FitsDetermines(t, ps, RunFrom(Fresh(t, ps), run), RunFrom(Fresh(t, ps), other));
  }

  // ---- The atomic handler is the uninterrupted schedule ----

  function Stepper(s: Step): World -> World { (w: World) => Next(w, s) }

  function Repeatedly(w: World, s: Step, n: nat): World { Iterate(Stepper(s), w, n) }

  lemma OnceMore(w: World, s: Step, n: nat)
    ensures Repeatedly(w, s, n + 1) == Next(Repeatedly(w, s, n), s)
  {
  }

  const STATEMENTS: nat := 7

  predicate Put(w: World, i: nat, stage: Stage, u: World, t: Tables)
    requires i < |w.ingests|
  {
    u == World(t, w.ingests[i := w.ingests[i].(stage := stage)])
  }

  /** The seven statements of one ingest with nothing in between are the atomic handler. */
  lemma UninterruptedIsAtomic(w: World, i: nat, now: nat)
    requires i < |w.ingests| && w.ingests[i].stage.Reading? && w.ingests[i].alive
    ensures var u := Repeatedly(w, Advance(i, now), STATEMENTS);
            exists stage ::
              Ended(stage) && Put(w, i, stage, u, Sms.IngestTables(w.t, w.ingests[i].parsed, now))
  {
    var p, s := w.ingests[i].parsed, Advance(i, now);
    var hit := Hit(w.t, p);
    var w2 := Repeatedly(w, s, 2);
    ReadAndInsert(w, i, now);
    IterateAdds(Stepper(s), w, 2, 5);
    if !Known(w.t, p) && hit.Some? {
      HitIsRow(w.t, p, hit.value);
      MarkPaidIsFive(w2, i, now);
      var g := w.ingests[i].(stage := Finished(hit));
      assert w2.ingests[i := w2.ingests[i].(stage := Finished(hit))] == w.ingests[i := g];
      assert Put(w, i, Finished(hit), Repeatedly(w, s, STATEMENTS), Sms.IngestTables(w.t, p, now));
    } else {
      EndedStays(w2, i, now, 5);
      assert Put(w, i, w2.ingests[i].stage, Repeatedly(w, s, STATEMENTS), Sms.IngestTables(w.t, p, now));
    }
  }

  lemma {:induction false} EndedStays(w: World, i: nat, now: nat, n: nat)
    requires i < |w.ingests| && Ended(w.ingests[i].stage)
    ensures Repeatedly(w, Advance(i, now), n) == w
  {
    if n > 0 {
      EndedStays(w, i, now, n - 1);
      OnceMore(w, Advance(i, now), n - 1);
      assert w.ingests[i := w.ingests[i]] == w.ingests;
    }
  }

  lemma OneMore(w: World, i: nat, now: nat, n: nat, stage: Stage, t: Tables)
    requires i < |w.ingests| && w.ingests[i].alive && Put(w, i, stage, Repeatedly(w, Advance(i, now), n), t)
    ensures var (after, following) := Execute(t, w.ingests[i].(stage := stage), now);
            Put(w, i, following, Repeatedly(w, Advance(i, now), n + 1), after)
  {
    var u := Repeatedly(w, Advance(i, now), n);
    OnceMore(w, Advance(i, now), n);
    assert Moves(u, Advance(i, now));
    var g := w.ingests[i].(stage := stage);
    assert u.ingests[i] == g;
    var next := g.(stage := Execute(t, g, now).1);
    assert u.ingests[i := next] == w.ingests[i := next];
  }

  lemma ReadAndInsert(w: World, i: nat, now: nat)
    requires i < |w.ingests| && w.ingests[i].stage.Reading? && w.ingests[i].alive
    ensures var p, hit := w.ingests[i].parsed, Hit(w.t, w.ingests[i].parsed);
            Put(w, i, if Known(w.t, p) then Rejected else if hit.Some? then Loading(hit.value) else Finished(None),
                Repeatedly(w, Advance(i, now), 2),
                if Known(w.t, p) then w.t else w.t.(events := w.t.events + [Sms.EventRow(p, hit, now)]))
  {
    assert w.ingests[i := w.ingests[i].(stage := Reading)] == w.ingests;
    assert Repeatedly(w, Advance(i, now), 0) == w;
    OneMore(w, i, now, 0, Reading, w.t);
    OneMore(w, i, now, 1, Inserting(Hit(w.t, w.ingests[i].parsed)), w.t);
  }

  lemma MarkPaidIsFive(w: World, i: nat, now: nat)
    requires i < |w.ingests| && w.ingests[i].stage.Loading? && w.ingests[i].alive
    requires w.ingests[i].stage.charge < |w.t.charges|
    ensures var c := w.ingests[i].stage.charge;
            Put(w, i, Finished(Some(c)), Repeatedly(w, Advance(i, now), 5), Charge.MarkPaidTables(w.t, c, now))
  {
    var c := w.ingests[i].stage.charge;
    var row := w.t.charges[c];
    assert w.ingests[i := w.ingests[i].(stage := Loading(c))] == w.ingests;
    assert Repeatedly(w, Advance(i, now), 0) == w;
    OneMore(w, i, now, 0, Loading(c), w.t);
    OneMore(w, i, now, 1, Posting(c, row), w.t);
    var t2 := w.t.(ledger := w.t.ledger + [Charge.SettlementTxn(c, row)]);
    OneMore(w, i, now, 2, Marking(c, row), t2);
    var t3 := t2.(charges := Charge.MarkedPaid(t2.charges, c));
    OneMore(w, i, now, 3, Settling(c, row), t3);
    OneMore(w, i, now, 4, Queueing(c, row), t3.(invoices := InvoiceSettlement.SettledFor(t3.invoices, c)));
  }

  /** One after the other, each handled atomically. */
  function OneByOne(t: Tables, ps: seq<ParsedTxn>, now: nat): Tables {
    if ps == [] then t else Sms.IngestTables(OneByOne(t, ps[..|ps| - 1], now), ps[|ps| - 1], now)
  }

  function Times(s: Step, n: nat): seq<Step> { seq(n, _ => s) }

  function InTurn(n: nat, now: nat): seq<Step> {
    if n == 0 then [] else InTurn(n - 1, now) + Times(Advance(n - 1, now), STATEMENTS)
  }

  lemma {:induction false} RunTimes(w: World, run: seq<Step>, s: Step, n: nat)
    ensures RunFrom(w, run + Times(s, n)) == Repeatedly(RunFrom(w, run), s, n)
  {
    if n == 0 {
      assert run + Times(s, n) == run;
    } else {
      RunTimes(w, run, s, n - 1);
      assert run + Times(s, n) == (run + Times(s, n - 1)) + [s];
      RunFromStep(w, run + Times(s, n - 1), s);
      OnceMore(RunFrom(w, run), s, n - 1);
    }
  }

  /** The first n messages are handled, the rest not begun. */
  predicate HandledUpTo(t: Tables, ps: seq<ParsedTxn>, n: nat, now: nat, w: World)
    requires n <= |ps|
  {
    && w.t == OneByOne(t, ps[..n], now) && |w.ingests| == |ps|
    && (forall i :: 0 <= i < n ==> Ended(w.ingests[i].stage))
    && (forall i :: n <= i < |ps| ==> w.ingests[i] == Ingest(ps[i], Reading, true))
  }

  lemma HandleNext(t: Tables, ps: seq<ParsedTxn>, n: nat, now: nat, w: World)
    requires n < |ps| && HandledUpTo(t, ps, n, now, w)
    ensures HandledUpTo(t, ps, n + 1, now, Repeatedly(w, Advance(n, now), STATEMENTS))
  {
    UninterruptedIsAtomic(w, n, now);
    assert ps[..n + 1][..n] == ps[..n] && ps[..n + 1][n] == ps[n];
  }

  lemma {:induction false} InTurnIsOneByOne(t: Tables, ps: seq<ParsedTxn>, n: nat, now: nat)
    requires n <= |ps|
    ensures OnlyAdvances(InTurn(n, now))
    ensures HandledUpTo(t, ps, n, now, RunFrom(Fresh(t, ps), InTurn(n, now)))
  {
    if n > 0 {
      InTurnIsOneByOne(t, ps, n - 1, now);
      HandleNext(t, ps, n - 1, now, RunFrom(Fresh(t, ps), InTurn(n - 1, now)));
      RunTimes(Fresh(t, ps), InTurn(n - 1, now), Advance(n - 1, now), STATEMENTS);
    } else {
      assert ps[..0] == [];
    }
  }

  /** The concurrent system refines the atomic one: however the statements of ingests with
      different amounts and keys interleave, the outcome is that of handling the messages
      atomically one after the other. */
  lemma InterleavingRefinesAtomic(t: Tables, ps: seq<ParsedTxn>, run: seq<Step>, now: nat)
    requires Different(ps) && OnlyAdvances(run) && Complete(RunFrom(Fresh(t, ps), run))
    ensures Equivalent(RunFrom(Fresh(t, ps), run).t, OneByOne(t, ps, now))
  {
    InTurnIsOneByOne(t, ps, |ps|, now);
    assert ps[..|ps|] == ps;
    InterleavingsAgree(t, ps, run, InTurn(|ps|, now));
  }
}
