/** When a charge settles at most once, and when it does not. */
module ProtocolOnce {
  import opened Rows
  import opened Store
  import opened Gateway
  import opened Protocol
  import opened ProtocolSafety
  import Charge
  import Sms

  // ---- At most one event ----

  /** The charge is pending, and no ingest, running or crashed, stands between its own event for it
      and the status flip. */
  predicate StillOpen(v: World, c: nat) {
    c < |v.t.charges| && v.t.charges[c].status == Pending && Sum(HolderOf(c), v.ingests) == 0
  }

  /** No step of the run records a stale hit on c. */
  predicate CleanRecords(run: seq<Step>, c: nat) {
    forall k :: 0 <= k < |run| && RecordsOn(Run(run[..k]), run[k], c) ==> StillOpen(Run(run[..k]), c)
  }

  lemma CleanRecordsFront(run: seq<Step>, c: nat)
    requires run != []
    ensures var front := run[..|run| - 1];
            CleanRecords(run, c) <==>
              CleanRecords(front, c) && (RecordsOn(Run(front), run[|run| - 1], c) ==> StillOpen(Run(front), c))
  {
    var front := run[..|run| - 1];
    assert forall k :: 0 <= k <= |front| ==> front[..k] == run[..k];
    assert forall k :: 0 <= k < |front| ==> front[k] == run[k];
  }

  lemma OpenMeansUncounted(v: World, c: nat)
    requires Counted(v, c) && c < |v.t.charges| && ChargeOk(v.t.charges[c])
    ensures StillOpen(v, c) <==> Sum(EventsOn(c), v.t.events) == 0
  {
    SumNonnegative(HolderOf(c), v.ingests);
    SumNonnegative(MarkedOn(c), v.ingests);
  }

  lemma RecordOnceStep(v: World, s: Step, c: nat)
    requires Consistent(v) && Counted(v, c)
    ensures Sum(EventsOn(c), Next(v, s).t.events) <= 1
       <==> Sum(EventsOn(c), v.t.events) <= 1 && (RecordsOn(v, s, c) ==> StillOpen(v, c))
  {
    RowsAfter(v, s, c);
    SumNonnegative(EventsOn(c), v.t.events);
    if RecordsOn(v, s, c) {
      assert IngestOk(v.t, v.ingests[s.i]);
      OpenMeansUncounted(v, c);
    }
  }

  /** Exactly when a charge gets at most one matched event, over every run with any crashes: when
      no hit on it was stale on being recorded. */
  lemma {:induction false} RecordsOnceIff(run: seq<Step>, c: nat)
    ensures Sum(EventsOn(c), Run(run).t.events) <= 1 <==> CleanRecords(run, c)
  {
    if run != [] {
      var front := run[..|run| - 1];
      RecordsOnceIff(front, c);
      CleanRecordsFront(run, c);
      Always(front);
      ChargeCounts(front, c);
      RecordOnceStep(Run(front), run[|run| - 1], c);
    }
  }

  // ---- At most one ledger transaction ----

  function MarkingOn(c: nat): Ingest -> int {
    (g: Ingest) => if g.stage.Marking? && g.stage.charge == c then 1 else 0
  }

  /** The charge is pending and no ingest, running or crashed, has posted for it and not yet
      flipped its status. */
  predicate Creditable(v: World, c: nat) {
    c < |v.t.charges| && v.t.charges[c].status == Pending && Sum(MarkingOn(c), v.ingests) == 0
  }

  /** Every posting for c finds it creditable: the check that `mark_paid` does not make. */
  predicate CleanPosts(run: seq<Step>, c: nat) {
    forall k :: 0 <= k < |run| && PostsOn(Run(run[..k]), run[k], c) ==> Creditable(Run(run[..k]), c)
  }

  lemma CleanPostsFront(run: seq<Step>, c: nat)
    requires run != []
    ensures var front := run[..|run| - 1];
            CleanPosts(run, c) <==>
              CleanPosts(front, c) && (PostsOn(Run(front), run[|run| - 1], c) ==> Creditable(Run(front), c))
  {
    var front := run[..|run| - 1];
    assert forall k :: 0 <= k <= |front| ==> front[..k] == run[..k];
    assert forall k :: 0 <= k < |front| ==> front[k] == run[k];
  }

  lemma CreditableMeansUnposted(v: World, c: nat)
    requires Counted(v, c) && c < |v.t.charges| && ChargeOk(v.t.charges[c])
    ensures Creditable(v, c) <==> Sum(TxnsOn(c), v.t.ledger) == 0
  {
    SumAdd(MarkingOn(c), MarkedOn(c), PostedOn(c), v.ingests);
    SumNonnegative(MarkingOn(c), v.ingests);
    SumNonnegative(MarkedOn(c), v.ingests);
  }

  lemma CreditOnceStep(v: World, s: Step, c: nat)
    requires Consistent(v) && Counted(v, c)
    ensures Sum(TxnsOn(c), Next(v, s).t.ledger) <= 1
       <==> Sum(TxnsOn(c), v.t.ledger) <= 1 && (PostsOn(v, s, c) ==> Creditable(v, c))
  {
    RowsAfter(v, s, c);
    SumNonnegative(TxnsOn(c), v.t.ledger);
    if PostsOn(v, s, c) {
      assert IngestOk(v.t, v.ingests[s.i]);
      CreditableMeansUnposted(v, c);
    }
  }

  /** Exactly when a charge is credited at most once, over every run with any crashes: when each
      posting for it found it pending, and nobody between posting and status flip. */
  lemma {:induction false} CreditsOnceIff(run: seq<Step>, c: nat)
    ensures Sum(TxnsOn(c), Run(run).t.ledger) <= 1 <==> CleanPosts(run, c)
  {
    if run != [] {
      var front := run[..|run| - 1];
      CreditsOnceIff(front, c);
      CleanPostsFront(run, c);
      Always(front);
      ChargeCounts(front, c);
      CreditOnceStep(Run(front), run[|run| - 1], c);
    }
  }

  /** Each charge's ledger transactions are at most its matched events, so a charge recorded once
      is credited at most once. */
  lemma TxnsWithinEvents(run: seq<Step>, c: nat)
    ensures Sum(TxnsOn(c), Run(run).t.ledger) <= Sum(EventsOn(c), Run(run).t.events)
  {
    var v := Run(run);
    ChargeCounts(run, c);
    SumAdd(HolderOf(c), MarkedOn(c), HeldOrMarked(c), v.ingests);
    SumMonotone(PostedOn(c), HeldOrMarked(c), v.ingests);
  }

  function HeldOrMarked(c: nat): Ingest -> int { (g: Ingest) => HolderOf(c)(g) + MarkedOn(c)(g) }

  // ---- Overlapping ingests of equal amount ----

  /** Between its candidate read and its status update. An ingest that crashed before recording
      anything has left the window, one that crashed later has not. */
  predicate InWindow(g: Ingest) {
    (g.alive && g.stage.Inserting?) || g.stage.Loading? || g.stage.Posting? || g.stage.Marking?
  }

  predicate AloneAt(v: World, amount: int) {
    forall i, j :: 0 <= i < j < |v.ingests| && InWindow(v.ingests[i]) && InWindow(v.ingests[j]) ==>
      v.ingests[i].parsed.amountMinor != amount || v.ingests[j].parsed.amountMinor != amount
  }

  /** No two ingests of this amount are ever in the window at once. */
  predicate NeverOverlapsAt(run: seq<Step>, amount: int) {
    forall k :: 0 <= k <= |run| ==> AloneAt(Run(run[..k]), amount)
  }

  /** A hit of this amount that has not been recorded yet. */
  predicate HasHit(g: Ingest, amount: int) {
    g.alive && g.parsed.amountMinor == amount && g.stage.Inserting? && g.stage.hit.Some?
  }

  /** Such a hit is still a pending charge. */
  predicate HitsPending(v: World, amount: int) {
    forall i :: 0 <= i < |v.ingests| && HasHit(v.ingests[i], amount) ==>
      && v.ingests[i].stage.hit.value < |v.t.charges|
      && v.t.charges[v.ingests[i].stage.hit.value].status == Pending
  }

  lemma HitsPendingStep(v: World, s: Step, amount: int)
    requires Consistent(v) && AloneAt(v, amount) && HitsPending(v, amount)
    ensures HitsPending(Next(v, s), amount)
  {
    var u := Next(v, s);
    forall i | 0 <= i < |u.ingests| && HasHit(u.ingests[i], amount)
      ensures u.ingests[i].stage.hit.value < |u.t.charges|
      ensures u.t.charges[u.ingests[i].stage.hit.value].status == Pending
    {
      var c := u.ingests[i].stage.hit.value;
      PaidAfter(v, s, c);
      if Moves(v, s) && s.i == i {
        Sms.MatchIsExact(v.t.charges, v.ingests[i].parsed, c);
      } else {
        assert v.ingests[i].stage == u.ingests[i].stage;
        assert IngestOk(v.t, v.ingests[i]);
        assert Moves(v, s) ==> IngestOk(v.t, v.ingests[s.i]);
      }
      PendingStays(v, s, c);
    }
  }

  lemma PendingStays(v: World, s: Step, c: nat)
    requires Consistent(v) && c < |v.t.charges| && v.t.charges[c].status == Pending && !MarksOn(v, s, c)
    ensures c < |Next(v, s).t.charges| && Next(v, s).t.charges[c].status == Pending
  {
    PaidAfter(v, s, c);
    ChargesGrow(v, s);
    assert ChargeOk(Next(v, s).t.charges[c]);
  }

  lemma NoHolderInWindow(v: World, i: nat, c: nat)
    requires i < |v.ingests| && v.ingests[i].alive && v.ingests[i].stage == Inserting(Some(c))
    requires Consistent(v) && AloneAt(v, v.ingests[i].parsed.amountMinor)
    ensures Sum(HolderOf(c), v.ingests) == 0
  {
    assert IngestOk(v.t, v.ingests[i]);
    forall j | 0 <= j < |v.ingests| ensures HolderOf(c)(v.ingests[j]) == 0 {
      assert IngestOk(v.t, v.ingests[j]);
    }
    SumZero(HolderOf(c), v.ingests);
  }

  /** The charge, once there is one, is for this amount. */
  predicate IsFor(v: World, c: nat, amount: int) { c < |v.t.charges| ==> v.t.charges[c].amountMinor == amount }

  lemma WindowIsClean(v: World, s: Step, c: nat, amount: int)
    requires Consistent(v) && AloneAt(v, amount) && HitsPending(v, amount) && IsFor(v, c, amount)
    ensures RecordsOn(v, s, c) ==> StillOpen(v, c)
  {
    if RecordsOn(v, s, c) {
      assert IngestOk(v.t, v.ingests[s.i]);
      NoHolderInWindow(v, s.i, c);
    }
  }

  lemma {:induction false} NoOverlapIsClean(run: seq<Step>, c: nat, amount: int)
    requires NeverOverlapsAt(run, amount) && IsFor(Run(run), c, amount)
    ensures CleanRecords(run, c) && HitsPending(Run(run), amount)
  {
    if run != [] {
      var front, s := run[..|run| - 1], run[|run| - 1];
      var v := Run(front);
      assert forall k :: 0 <= k <= |front| ==> front[..k] == run[..k];
      Always(front);
      ChargesGrow(v, s);
      NoOverlapIsClean(front, c, amount);
      assert AloneAt(Run(run[..|front|]), amount);
      HitsPendingStep(v, s, amount);
      CleanRecordsFront(run, c);
      WindowIsClean(v, s, c, amount);
    }
  }

  predicate SettledOnce(t: Tables, c: nat) { Sum(EventsOn(c), t.events) == 1 && Sum(TxnsOn(c), t.ledger) == 1 }

  /** If ingests of one amount never overlap between the read and the status update, then whatever
      ingests of other amounts do, every charge of that amount gets at most one matched event and
      at most one ledger transaction; and unless some ingest stands between its event for the
      charge and the status flip, the charge is paid exactly when it has one of each. */
  lemma NoOverlapSettlesOnce(run: seq<Step>, c: nat, amount: int)
    requires NeverOverlapsAt(run, amount) && IsFor(Run(run), c, amount)
    ensures var v := Run(run);
            && Sum(TxnsOn(c), v.t.ledger) <= Sum(EventsOn(c), v.t.events) <= 1
            && (Sum(HolderOf(c), v.ingests) == 0 && c < |v.t.charges| ==>
                  (v.t.charges[c].status == Paid <==> SettledOnce(v.t, c)))
  {
    NoOverlapIsClean(run, c, amount);
    RecordsOnceIff(run, c);
    TxnsWithinEvents(run, c);
    ChargeCounts(run, c);
    SumMonotone(MarkedOn(c), PostedOn(c), Run(run).ingests);
  }

  // ---- The unconditional claim is false ----

  lemma ReadOne(v: World, i: nat, hit: Option<nat>)
    requires i < |v.ingests| && v.ingests[i].alive && v.ingests[i].stage.Reading?
    requires Sms.FindMatchingCharge(v.t.charges, v.ingests[i].parsed) == hit
    ensures Next(v, Advance(i, 0)) == World(v.t, v.ingests[i := v.ingests[i].(stage := Inserting(hit))])
  {
  }

  lemma OpenOne(c: Store.Charge)
    requires c.amountMinor > 0 && c.status == Pending
    ensures Next(Start(), Elsewhere(OpenCharge(c))) == World(Empty().(charges := [c]), [])
  {
    assert [] + [c] == [c];
  }

  lemma SoleMatch(c: Store.Charge, p: ParsedTxn)
    requires c.status == Pending && p.amountMinor == c.amountMinor
    ensures Sms.FindMatchingCharge([c], p) == Some(0)
  {
    assert Sms.TheOne([c], p, 0);
    Sms.MatchIsExact([c], p, 0);
  }

  lemma ArriveBoth(v: World, p: ParsedTxn, q: ParsedTxn)
    requires v.ingests == []
    ensures Next(Next(v, Arrive(p)), Arrive(q)) == World(v.t, [Ingest(p, Reading, true), Ingest(q, Reading, true)])
  {
  }

  lemma ReadBoth(v: World, p: ParsedTxn, q: ParsedTxn, hit: Option<nat>)
    requires v.ingests == [Ingest(p, Reading, true), Ingest(q, Reading, true)]
    requires Sms.FindMatchingCharge(v.t.charges, p) == Sms.FindMatchingCharge(v.t.charges, q) == hit
    ensures Next(Next(v, Advance(0, 0)), Advance(1, 0))
         == World(v.t, [Ingest(p, Inserting(hit), true), Ingest(q, Inserting(hit), true)])
  {
    ReadOne(v, 0, hit);
    ReadOne(Next(v, Advance(0, 0)), 1, hit);
  }

  lemma FiveSteps(v: World, a: Step, b: Step, c: Step, d: Step, e: Step)
    ensures RunFrom(v, [a, b, c, d, e]) == Next(Next(Next(Next(Next(v, a), b), c), d), e)
  {
    RunFromStep(v, [], a);
    RunFromStep(v, [] + [a], b);
    RunFromStep(v, [] + [a] + [b], c);
    RunFromStep(v, [] + [a] + [b] + [c], d);
    RunFromStep(v, [] + [a] + [b] + [c] + [d], e);
    assert [a, b, c, d, e] == [] + [a] + [b] + [c] + [d] + [e];
  }

  /** Two payments of the amount of one charge, both reading before either records. */
  lemma Collision(c: Store.Charge, p: ParsedTxn, q: ParsedTxn) returns (run: seq<Step>)
    requires c.amountMinor > 0 && c.status == Pending && p.amountMinor == q.amountMinor == c.amountMinor
    ensures Run(run).t == Empty().(charges := [c])
    ensures Run(run).ingests == [Ingest(p, Inserting(Some(0)), true), Ingest(q, Inserting(Some(0)), true)]
  {
    var v := World(Empty().(charges := [c]), []);
    run := [Elsewhere(OpenCharge(c)), Arrive(p), Arrive(q), Advance(0, 0), Advance(1, 0)];
    OpenOne(c);
    ArriveBoth(v, p, q);
    SoleMatch(c, p);
    SoleMatch(c, q);
    ReadBoth(Next(Next(v, Arrive(p)), Arrive(q)), p, q, Some(0));
    FiveSteps(Start(), Elsewhere(OpenCharge(c)), Arrive(p), Arrive(q), Advance(0, 0), Advance(1, 0));
  }

  /** The ingest may still record a hit on c. */
  predicate AboutToRecord(v: World, i: nat, c: nat) {
    && i < |v.ingests| && v.ingests[i].alive && v.ingests[i].stage == Inserting(Some(c))
    && !Sms.Recorded(v.t.events, v.ingests[i].parsed.gateway, v.ingests[i].parsed.txnId)
  }

  predicate AboutToPost(v: World, i: nat, c: nat) {
    i < |v.ingests| && v.ingests[i].alive && v.ingests[i].stage == Loading(c) && c < |v.t.charges|
  }

  lemma RecordOne(v: World, i: nat, c: nat)
    requires AboutToRecord(v, i, c)
    ensures Next(v, Advance(i, 0)).t == v.t.(events := v.t.events + [Sms.EventRow(v.ingests[i].parsed, Some(c), 0)])
    ensures Next(v, Advance(i, 0)).ingests == v.ingests[i := v.ingests[i].(stage := Loading(c))]
  {
  }

  lemma LoadOne(v: World, i: nat, c: nat)
    requires AboutToPost(v, i, c)
    ensures Next(v, Advance(i, 0)) == World(v.t, v.ingests[i := v.ingests[i].(stage := Posting(c, v.t.charges[c]))])
  {
  }

  lemma PostOne(v: World, i: nat, c: nat, row: Store.Charge)
    requires i < |v.ingests| && v.ingests[i].alive && v.ingests[i].stage == Posting(c, row)
    ensures Next(v, Advance(i, 0)).t == v.t.(ledger := v.t.ledger + [Charge.SettlementTxn(c, row)])
    ensures Next(v, Advance(i, 0)).ingests == v.ingests[i := v.ingests[i].(stage := Marking(c, row))]
  {
  }

  lemma RecordBoth(v: World, i: nat, j: nat, c: nat)
    requires AboutToRecord(v, i, c) && AboutToRecord(v, j, c) && i != j && c < |v.t.charges|
    requires !HasKey(v.ingests[i].parsed, v.ingests[j].parsed.gateway, v.ingests[j].parsed.txnId)
    ensures var w := Next(Next(v, Advance(i, 0)), Advance(j, 0));
            && AboutToPost(w, i, c) && AboutToPost(w, j, c) && w.t.ledger == v.t.ledger
            && Sum(EventsOn(c), w.t.events) == Sum(EventsOn(c), v.t.events) + 2
  {
    var u := Next(v, Advance(i, 0));
    var e, f := Sms.EventRow(v.ingests[i].parsed, Some(c), 0), Sms.EventRow(v.ingests[j].parsed, Some(c), 0);
    RecordOne(v, i, c);
    assert AboutToRecord(u, j, c);
    RecordOne(u, j, c);
    SumAppend(EventsOn(c), v.t.events, e);
    SumAppend(EventsOn(c), v.t.events + [e], f);
  }

  lemma PostAfterLoad(v: World, i: nat, c: nat) returns (w: World)
    requires AboutToPost(v, i, c)
    ensures w == Next(Next(v, Advance(i, 0)), Advance(i, 0))
    ensures w.t == v.t.(ledger := v.t.ledger + [Charge.SettlementTxn(c, v.t.charges[c])])
    ensures |w.ingests| == |v.ingests| && forall j :: 0 <= j < |v.ingests| && j != i ==> w.ingests[j] == v.ingests[j]
  {
    LoadOne(v, i, c);
    var u := Next(v, Advance(i, 0));
    PostOne(u, i, c, v.t.charges[c]);
    w := Next(u, Advance(i, 0));
  }

  lemma PostBoth(v: World, i: nat, j: nat, c: nat)
    requires AboutToPost(v, i, c) && AboutToPost(v, j, c) && i != j
    ensures var a, b := Advance(i, 0), Advance(j, 0);
            var w := Next(Next(Next(Next(v, a), a), b), b);
            Sum(TxnsOn(c), w.t.ledger) == Sum(TxnsOn(c), v.t.ledger) + 2 && w.t.events == v.t.events
  {
    var x := Charge.SettlementTxn(c, v.t.charges[c]);
    var u := PostAfterLoad(v, i, c);
    assert AboutToPost(u, j, c);
    var w := PostAfterLoad(u, j, c);
    SumAppend(TxnsOn(c), v.t.ledger, x);
    SumAppend(TxnsOn(c), v.t.ledger + [x], x);
  }

  /** `mark_paid` does not look at the status again: any two messages with different keys that
      are about to record a hit on one charge will both be recorded against it, and both be
      posted. */
  lemma OverlapCreditsTwice(v: World, i: nat, j: nat, c: nat) returns (more: seq<Step>)
    requires AboutToRecord(v, i, c) && AboutToRecord(v, j, c) && i != j && c < |v.t.charges|
    requires !HasKey(v.ingests[i].parsed, v.ingests[j].parsed.gateway, v.ingests[j].parsed.txnId)
    ensures Sum(EventsOn(c), RunFrom(v, more).t.events) == Sum(EventsOn(c), v.t.events) + 2
    ensures Sum(TxnsOn(c), RunFrom(v, more).t.ledger) == Sum(TxnsOn(c), v.t.ledger) + 2
  {
    var a, b := Advance(i, 0), Advance(j, 0);
    RecordBoth(v, i, j, c);
    PostBoth(Next(Next(v, a), b), i, j, c);
    more := [a, b, a, a, b, b];
    SixSteps(v, a, b);
  }

  lemma SixSteps(v: World, a: Step, b: Step)
    ensures RunFrom(v, [a, b, a, a, b, b]) == Next(Next(Next(Next(Next(Next(v, a), b), a), a), b), b)
  {
    RunFromStep(v, [], a);
    RunFromStep(v, [] + [a], b);
    RunFromStep(v, [] + [a] + [b], a);
    RunFromStep(v, [] + [a] + [b] + [a], a);
    RunFromStep(v, [] + [a] + [b] + [a] + [a], b);
    RunFromStep(v, [] + [a] + [b] + [a] + [a] + [b], b);
    assert [a, b, a, a, b, b] == [] + [a] + [b] + [a] + [a] + [b] + [b];
  }

  /** For every charge there is such a run, so every charge can be settled twice. */
  lemma SettlesOnceCanFail(c: Store.Charge, p: ParsedTxn, q: ParsedTxn) returns (run: seq<Step>)
    requires c.amountMinor > 0 && c.status == Pending && p.amountMinor == q.amountMinor == c.amountMinor
    requires !HasKey(p, q.gateway, q.txnId)
    ensures Run(run).t.charges != [] && Run(run).t.charges[0].orderId == c.orderId
    ensures Sum(EventsOn(0), Run(run).t.events) == 2 && Sum(TxnsOn(0), Run(run).t.ledger) == 2
    ensures !CleanRecords(run, 0) && !CleanPosts(run, 0)
  {
    var front := Collision(c, p, q);
    var v := Run(front);
    assert AboutToRecord(v, 0, 0) && AboutToRecord(v, 1, 0);
    var more := OverlapCreditsTwice(v, 0, 1, 0);
    RunFromConcat(Start(), front, more);
    run := front + more;
    RecordsOnceIff(run, 0);
    CreditsOnceIff(run, 0);
    SameCharge(front, run);
  }

  lemma SameCharge(front: seq<Step>, run: seq<Step>)
    requires |front| <= |run| && run[..|front|] == front && Run(front).t.charges != []
    ensures Run(run).t.charges != [] && Run(run).t.charges[0].orderId == Run(front).t.charges[0].orderId
  {
    AppendOnly(run, |front|);
  }
}
