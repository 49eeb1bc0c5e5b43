/** Choosing a gateway and claiming a TrxID never move money, in any interleaving. */
module CustomerSteps {
  import opened Rows
  import opened Store
  import opened Protocol
  import Charge
  import Sms

  predicate IsCustomerStep(s: Step) { s.Elsewhere? && (s.other.ChooseGateway? || s.other.ClaimManually?) }

  function WithoutCustomer(run: seq<Step>): seq<Step> {
    if run == [] then [] else
      WithoutCustomer(run[..|run| - 1]) + if IsCustomerStep(run[|run| - 1]) then [] else [run[|run| - 1]]
  }

  /** The three columns a customer can write, blanked. */
  function Bare(c: Store.Charge): Store.Charge { c.(gateway := None, claimedTrxId := None, claimedSender := None) }

  function BareAll(charges: seq<Store.Charge>): seq<Store.Charge> {
    seq(|charges|, i requires 0 <= i < |charges| => Bare(charges[i]))
  }

  function BareTables(t: Tables): Tables { t.(charges := BareAll(t.charges)) }

  function BareStage(s: Stage): Stage {
    match s
    case Posting(c, row) => Posting(c, Bare(row))
    case Marking(c, row) => Marking(c, Bare(row))
    case Settling(c, row) => Settling(c, Bare(row))
    case Queueing(c, row) => Queueing(c, Bare(row))
    case _ => s
  }

  function BareIngest(g: Ingest): Ingest { g.(stage := BareStage(g.stage)) }

  function BareIngests(gs: seq<Ingest>): seq<Ingest> {
    seq(|gs|, i requires 0 <= i < |gs| => BareIngest(gs[i]))
  }

  function BareWorld(w: World): World { World(BareTables(w.t), BareIngests(w.ingests)) }

  lemma {:induction false} CandidatesSeeBare(charges: seq<Store.Charge>, amountMinor: int)
    ensures Sms.Candidates(BareAll(charges), amountMinor) == Sms.Candidates(charges, amountMinor)
  {
    if charges != [] {
      var last := |charges| - 1;
      CandidatesSeeBare(charges[..last], amountMinor);
      assert BareAll(charges)[..last] == BareAll(charges[..last]);
    }
  }

  lemma MarkSeesBare(charges: seq<Store.Charge>, c: nat)
    requires c < |charges|
    ensures BareAll(Charge.MarkedPaid(charges, c)) == BareAll(Charge.MarkedPaid(BareAll(charges), c))
  {
  }

  /** A statement of an ingest does the same, blanked columns or not. */
  lemma ExecuteSeesBare(t: Tables, g: Ingest, now: nat)
    ensures BareTables(Execute(t, g, now).0) == BareTables(Execute(BareTables(t), BareIngest(g), now).0)
    ensures BareStage(Execute(t, g, now).1) == BareStage(Execute(BareTables(t), BareIngest(g), now).1)
  {
    BareTwice(t);
    if g.stage.Reading? { CandidatesSeeBare(t.charges, g.parsed.amountMinor); }
    if g.stage.Marking? && g.stage.charge < |t.charges| { MarkSeesBare(t.charges, g.stage.charge); }
    if g.stage.Posting? || g.stage.Queueing? { RowSeesBare(g.stage.charge, g.stage.row, now); }
  }

  lemma RowSeesBare(c: nat, row: Store.Charge, now: nat)
    ensures Charge.SettlementTxn(c, row) == Charge.SettlementTxn(c, Bare(row))
    ensures Charge.Notifications(c, row, now) == Charge.Notifications(c, Bare(row), now)
  {
  }

  lemma BareTwice(t: Tables)
    ensures BareTables(BareTables(t)) == BareTables(t)
  {
  }

  lemma InsertSeesBare(charges: seq<Store.Charge>, row: Store.Charge)
    ensures var a, b := Charge.Inserted(charges, row), Charge.Inserted(BareAll(charges), row);
            && a.Ok? == b.Ok?
            && (a.Ok? ==> BareAll(a.value) == BareAll(b.value))
  {
    var bare := BareAll(charges);
    assert |bare| == |charges| && forall i :: 0 <= i < |charges| ==> bare[i].orderId == charges[i].orderId;
    assert Charge.OrderTaken(bare, row.orderId) <==> Charge.OrderTaken(charges, row.orderId);
    if Charge.Inserted(charges, row).Ok? {
      assert BareAll(charges + [row]) == BareAll(bare + [row]);
    }
  }

  lemma HandleSeesBare(t: Tables, o: Other)
    requires !o.ChooseGateway? && !o.ClaimManually?
    ensures BareTables(Handle(t, o)) == BareTables(Handle(BareTables(t), o))
  {
    BareTwice(t);
    if o.OpenCharge? {
      InsertSeesBare(t.charges, o.row.(status := Pending));
    }
  }

  lemma NextSeesBare(w: World, s: Step)
    requires !IsCustomerStep(s)
    ensures BareWorld(Next(w, s)) == BareWorld(Next(BareWorld(w), s))
  {
    BareTwice(w.t);
    match s
    case Elsewhere(o) => HandleSeesBare(w.t, o); BareIngestsTwice(w.ingests);
    case Advance(i, now) =>
      if Moves(w, s) {
        ExecuteSeesBare(w.t, w.ingests[i], now);
        BareUpdate(w.ingests, i, w.ingests[i].(stage := After(w, s)),
                   BareIngest(w.ingests[i]).(stage := After(BareWorld(w), s)));
      } else {
        BareIngestsTwice(w.ingests);
      }
    case Crash(i) =>
      if i < |w.ingests| {
        BareUpdate(w.ingests, i, w.ingests[i].(alive := false), BareIngest(w.ingests[i]).(alive := false));
      } else {
        BareIngestsTwice(w.ingests);
      }
    case Arrive(p) =>
      var g := Ingest(p, Reading, true);
      assert BareIngests(w.ingests + [g]) == BareIngests(BareIngests(w.ingests) + [g]);
  }

  lemma BareIngestsTwice(gs: seq<Ingest>)
    ensures BareIngests(BareIngests(gs)) == BareIngests(gs)
  {
  }

  lemma BareUpdate(gs: seq<Ingest>, i: nat, g: Ingest, h: Ingest)
    requires i < |gs| && BareIngest(g) == BareIngest(h)
    ensures BareIngests(gs[i := g]) == BareIngests(BareIngests(gs)[i := h])
  {
  }

  lemma CustomerStepIsBare(w: World, s: Step)
    requires IsCustomerStep(s)
    ensures BareWorld(Next(w, s)) == BareWorld(w)
  {
    assert BareAll(Next(w, s).t.charges) == BareAll(w.t.charges);
  }

  lemma {:induction false} BareRuns(run: seq<Step>)
    ensures BareWorld(Run(run)) == BareWorld(Run(WithoutCustomer(run)))
  {
    if run != [] {
      var front, s := run[..|run| - 1], run[|run| - 1];
      BareRuns(front);
      if IsCustomerStep(s) {
        assert WithoutCustomer(run) == WithoutCustomer(front);
        CustomerStepIsBare(Run(front), s);
      } else {
        var rest := WithoutCustomer(front);
        assert (rest + [s])[..|rest|] == rest;
        NextSeesBare(Run(front), s);
        NextSeesBare(Run(rest), s);
      }
    }
  }

  /** The charges as settlement sees them: amount, terms and status. */
  predicate SameButHints(a: Store.Charge, b: Store.Charge) { Bare(a) == Bare(b) }

  /** Deleting every customer step from any run, with any interleaving and crashes, leaves the
      same events, ledger, invoices, items and queue, and charges that differ at most in the
      customer's hints. */
  lemma CustomerStepsDoNotSettle(run: seq<Step>)
    ensures var t, u := Run(run).t, Run(WithoutCustomer(run)).t;
            && t.events == u.events && t.ledger == u.ledger && t.invoices == u.invoices
            && t.items == u.items && t.deliveries == u.deliveries && |t.charges| == |u.charges|
            && forall c :: 0 <= c < |t.charges| ==> SameButHints(t.charges[c], u.charges[c])
  {
    var t, u := Run(run).t, Run(WithoutCustomer(run)).t;
    BareRuns(run);
    assert BareAll(t.charges) == BareAll(u.charges);
    forall c | 0 <= c < |t.charges| ensures SameButHints(t.charges[c], u.charges[c]) {
      assert BareAll(t.charges)[c] == BareAll(u.charges)[c];
    }
  }
}
