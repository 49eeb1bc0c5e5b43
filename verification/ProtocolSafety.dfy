/** What holds in every state of every run, mid-ingest and after any crash. */
module ProtocolSafety {
  import opened Rows
  import opened Store
  import opened Gateway
  import opened Protocol
  import Charge
  import Ledger
  import Sms

  // ---- Conservation ----

  /** A weight given to each matched event by its charge and amount. */
  function EventWeight(w: (nat, int) -> int): SmsEvent -> int {
    (e: SmsEvent) => if e.chargeId.Some? then w(e.chargeId.value, e.amountMinor) else 0
  }

  /** ... to each ledger transaction by its reference and what it debits to receivable, */
  function TxnWeight(w: (nat, int) -> int): LedgerTxn -> int {
    (x: LedgerTxn) => w(x.reference, Ledger.TxnOn(Ledger.MERCHANT_RECEIVABLE)(x))
  }

  /** ... and to each ingest, running or crashed, whose event is in but not its posting. */
  function ClaimWeight(w: (nat, int) -> int): Ingest -> int {
    (g: Ingest) => match g.stage
      case Loading(c) => w(c, g.parsed.amountMinor)
      case Posting(c, _) => w(c, g.parsed.amountMinor)
      case _ => 0
  }

  /** What a step adds to the matched events, and what it adds to the ledger. */
  function Recording(v: World, s: Step, w: (nat, int) -> int): int {
    if Inserts(v, s) && Before(v, s).hit.Some? then w(Before(v, s).hit.value, v.ingests[s.i].parsed.amountMinor) else 0
  }

  function PostingOf(v: World, s: Step, w: (nat, int) -> int): int {
    if Posts(v, s) then w(Before(v, s).charge, v.ingests[s.i].parsed.amountMinor) else 0
  }

  lemma RecordingAfter(v: World, s: Step, w: (nat, int) -> int)
    ensures Sum(EventWeight(w), Next(v, s).t.events) == Sum(EventWeight(w), v.t.events) + Recording(v, s, w)
  {
    EventsAfter(v, s, EventWeight(w));
  }

  lemma PostingAfter(v: World, s: Step, w: (nat, int) -> int)
    requires Posts(v, s) ==> Before(v, s).row.amountMinor == v.ingests[s.i].parsed.amountMinor
    ensures Sum(TxnWeight(w), Next(v, s).t.ledger) == Sum(TxnWeight(w), v.t.ledger) + PostingOf(v, s, w)
  {
    LedgerAfter(v, s, TxnWeight(w));
    if Posts(v, s) {
      Charge.SettlementBalances(Before(v, s).charge, Before(v, s).row);
    }
  }

  lemma ClaimsAfter(v: World, s: Step, w: (nat, int) -> int)
    ensures Sum(ClaimWeight(w), Next(v, s).ingests)
         == Sum(ClaimWeight(w), v.ingests) + Recording(v, s, w) - PostingOf(v, s, w)
  {
    IngestsAfter(v, s, ClaimWeight(w));
  }

  lemma ConservedStep(v: World, s: Step, w: (nat, int) -> int)
    requires Consistent(v)
    requires Sum(EventWeight(w), v.t.events) == Sum(TxnWeight(w), v.t.ledger) + Sum(ClaimWeight(w), v.ingests)
    ensures var u := Next(v, s);
            Sum(EventWeight(w), u.t.events) == Sum(TxnWeight(w), u.t.ledger) + Sum(ClaimWeight(w), u.ingests)
  {
    assert Moves(v, s) ==> IngestOk(v.t, v.ingests[s.i]);
    RecordingAfter(v, s, w);
    PostingAfter(v, s, w);
    ClaimsAfter(v, s, w);
  }

  /** Conservation under concurrency, for every weight at once: whatever interleaved, replayed or
      crashed, matched events are the ledger plus what was recorded and not yet posted. */
  lemma {:induction false} Conservation(run: seq<Step>, w: (nat, int) -> int)
    ensures var v := Run(run);
            Sum(EventWeight(w), v.t.events) == Sum(TxnWeight(w), v.t.ledger) + Sum(ClaimWeight(w), v.ingests)
  {
    if run != [] {
      var front := run[..|run| - 1];
      Conservation(front, w);
      Always(front);
      ConservedStep(Run(front), run[|run| - 1], w);
    }
  }

  function MatchedAmount(e: SmsEvent): int { if e.matched then e.amountMinor else 0 }

  function MatchedOne(e: SmsEvent): int { if e.matched then 1 else 0 }

  function UnpostedAmount(g: Ingest): int {
    if g.stage.Loading? || g.stage.Posting? then g.parsed.amountMinor else 0
  }

  function ByAmount(): (nat, int) -> int { (c, a) => a }

  /** In amounts: matched inflow is the receivable balance plus the recorded but unposted, and
      clearing mirrors receivable. */
  lemma ReceivableConservation(run: seq<Step>)
    ensures var v := Run(run);
            && Sum(MatchedAmount, v.t.events)
               == Ledger.AccountBalance(v.t.ledger, Ledger.MERCHANT_RECEIVABLE) + Sum(UnpostedAmount, v.ingests)
            && Ledger.AccountBalance(v.t.ledger, Ledger.CUSTOMER_CLEARING)
               == -Ledger.AccountBalance(v.t.ledger, Ledger.MERCHANT_RECEIVABLE)
  {
    var v := Run(run);
    Always(run);
    Conservation(run, ByAmount());
    SumEqual(EventWeight(ByAmount()), MatchedAmount, v.t.events);
    SumEqual(ClaimWeight(ByAmount()), UnpostedAmount, v.ingests);
    SumEqual(TxnWeight(ByAmount()), Ledger.TxnOn(Ledger.MERCHANT_RECEIVABLE), v.t.ledger);
    ClearingMirrors(v.t);
  }

  function Zero(x: LedgerTxn): int { 0 }

  lemma ClearingMirrors(t: Tables)
    requires TablesOk(t)
    ensures Ledger.AccountBalance(t.ledger, Ledger.CUSTOMER_CLEARING)
         == -Ledger.AccountBalance(t.ledger, Ledger.MERCHANT_RECEIVABLE)
  {
    var clearing := Ledger.TxnOn(Ledger.CUSTOMER_CLEARING);
    var receivable := Ledger.TxnOn(Ledger.MERCHANT_RECEIVABLE);
    forall i | 0 <= i < |t.ledger| ensures Zero(t.ledger[i]) == clearing(t.ledger[i]) + receivable(t.ledger[i]) {
      Charge.SettlementBalances(t.ledger[i].reference, t.charges[t.ledger[i].reference]);
    }
    SumAdd(clearing, receivable, Zero, t.ledger);
    SumZero(Zero, t.ledger);
  }

  /** No ingest stands between its event and its posting, running or crashed. */
  predicate NothingUnposted(w: World) {
    forall i :: 0 <= i < |w.ingests| ==> !w.ingests[i].stage.Loading? && !w.ingests[i].stage.Posting?
  }

  lemma UnpostedPositive(run: seq<Step>)
    ensures forall i :: 0 <= i < |Run(run).ingests| ==> UnpostedAmount(Run(run).ingests[i]) >= 0
    ensures Sum(UnpostedAmount, Run(run).ingests) == 0 <==> NothingUnposted(Run(run))
  {
    var v := Run(run);
    Always(run);
    forall i | 0 <= i < |v.ingests|
      ensures UnpostedAmount(v.ingests[i]) >= 0
      ensures v.ingests[i].stage.Loading? || v.ingests[i].stage.Posting? ==> UnpostedAmount(v.ingests[i]) > 0
    {
      assert IngestOk(v.t, v.ingests[i]);
    }
    if NothingUnposted(v) {
      SumZero(UnpostedAmount, v.ingests);
    } else {
      var i :| 0 <= i < |v.ingests| && (v.ingests[i].stage.Loading? || v.ingests[i].stage.Posting?);
      SumAtLeast(UnpostedAmount, v.ingests, i);
    }
  }

  /** The two totals agree exactly when nothing stands, or fell, between event and posting. */
  lemma QuiescentConservation(run: seq<Step>)
    ensures Sum(MatchedAmount, Run(run).t.events)
            == Ledger.AccountBalance(Run(run).t.ledger, Ledger.MERCHANT_RECEIVABLE)
       <==> NothingUnposted(Run(run))
  {
    ReceivableConservation(run);
    UnpostedPositive(run);
  }

  // ---- Idempotency ----

  predicate IsPosted(s: Stage) { s.Marking? || s.Settling? || s.Queueing? || (s.Finished? && s.settled.Some?) }

  predicate IsRecorded(s: Stage) { s.Loading? || s.Posting? || IsPosted(s) || s.Finished? }

  predicate HasKey(p: ParsedTxn, gateway: GatewayId, txnId: string) { p.gateway == gateway && p.txnId == txnId }

  function EventKey(gateway: GatewayId, txnId: string): SmsEvent -> int {
    (e: SmsEvent) => if e.gateway == gateway && e.txnId == txnId then 1 else 0
  }

  /** Ingests of the key that inserted an event. */
  function RecordedKey(gateway: GatewayId, txnId: string): Ingest -> int {
    (g: Ingest) => if HasKey(g.parsed, gateway, txnId) && IsRecorded(g.stage) then 1 else 0
  }

  /** Ingests of the key that posted to the ledger. */
  function PostedKey(gateway: GatewayId, txnId: string): Ingest -> int {
    (g: Ingest) => if HasKey(g.parsed, gateway, txnId) && IsPosted(g.stage) then 1 else 0
  }

  function PostedAny(g: Ingest): int { if IsPosted(g.stage) then 1 else 0 }

  lemma RecordedIsCounted(events: seq<SmsEvent>, gateway: GatewayId, txnId: string)
    ensures Sum(EventKey(gateway, txnId), events) >= 0
    ensures Sum(EventKey(gateway, txnId), events) > 0 <==> Sms.Recorded(events, gateway, txnId)
  {
    var f := EventKey(gateway, txnId);
    SumNonnegative(f, events);
    if Sum(f, events) > 0 {
      var i := SumWitness(f, events);
    }
    if Sms.Recorded(events, gateway, txnId) {
      var i :| 0 <= i < |events| && events[i].gateway == gateway && events[i].txnId == txnId;
      SumAtLeast(f, events, i);
    }
  }

  predicate RecordsKey(v: World, s: Step, gateway: GatewayId, txnId: string) {
    Inserts(v, s) && HasKey(v.ingests[s.i].parsed, gateway, txnId)
  }

  lemma RecordedIngestsAfter(v: World, s: Step, gateway: GatewayId, txnId: string)
    ensures Sum(RecordedKey(gateway, txnId), Next(v, s).ingests)
         == Sum(RecordedKey(gateway, txnId), v.ingests) + Indicator(RecordsKey(v, s, gateway, txnId))
  {
    IngestsAfter(v, s, RecordedKey(gateway, txnId));
  }

  lemma RecordedStep(v: World, s: Step, gateway: GatewayId, txnId: string)
    requires Sum(RecordedKey(gateway, txnId), v.ingests) == Sum(EventKey(gateway, txnId), v.t.events) <= 1
    ensures var u := Next(v, s);
            Sum(RecordedKey(gateway, txnId), u.ingests) == Sum(EventKey(gateway, txnId), u.t.events) <= 1
  {
    RecordedIngestsAfter(v, s, gateway, txnId);
    EventsAfter(v, s, EventKey(gateway, txnId));
    RecordedIsCounted(v.t.events, gateway, txnId);
  }

  lemma PostedIngestsAfter(v: World, s: Step)
    ensures Sum(PostedAny, Next(v, s).ingests) == Sum(PostedAny, v.ingests) + Indicator(Posts(v, s))
  {
    IngestsAfter(v, s, PostedAny);
  }

  lemma LedgerSizeAfter(v: World, s: Step)
    ensures |Next(v, s).t.ledger| == |v.t.ledger| + Indicator(Posts(v, s))
  {
  }

  lemma PostedStep(v: World, s: Step)
    requires |v.t.ledger| == Sum(PostedAny, v.ingests)
    ensures |Next(v, s).t.ledger| == Sum(PostedAny, Next(v, s).ingests)
  {
    PostedIngestsAfter(v, s);
    LedgerSizeAfter(v, s);
  }

  /** The ledger has exactly one transaction per ingest that posted, and each key has at most one
      event row and one ingest that recorded it. */
  lemma {:induction false} OnePerKey(run: seq<Step>, gateway: GatewayId, txnId: string)
    ensures var v := Run(run);
            && Sum(RecordedKey(gateway, txnId), v.ingests) == Sum(EventKey(gateway, txnId), v.t.events) <= 1
            && |v.t.ledger| == Sum(PostedAny, v.ingests)
  {
    if run != [] {
      var v, s := Run(run[..|run| - 1]), run[|run| - 1];
      OnePerKey(run[..|run| - 1], gateway, txnId);
      RecordedStep(v, s, gateway, txnId);
      PostedStep(v, s);
    }
  }

  /** A replayed SMS never credits twice: of all the ingests of one `(gateway, txn_id)`, however
      many, at most one ever posts, and every ledger transaction was posted by some ingest. */
  lemma ReplayNeverCreditsTwice(run: seq<Step>, gateway: GatewayId, txnId: string)
    ensures var v := Run(run);
            && Sum(EventKey(gateway, txnId), v.t.events) <= 1
            && Sum(PostedKey(gateway, txnId), v.ingests) <= Sum(EventKey(gateway, txnId), v.t.events)
            && |v.t.ledger| == Sum(PostedAny, v.ingests)
  {
    OnePerKey(run, gateway, txnId);
    SumMonotone(PostedKey(gateway, txnId), RecordedKey(gateway, txnId), Run(run).ingests);
  }

  // ---- What a crash costs ----

  lemma {:induction false} DeadStays(run: seq<Step>, k: nat, i: nat)
    requires k <= |run| && i < |Run(run[..k]).ingests| && !Run(run[..k]).ingests[i].alive
    ensures i < |Run(run).ingests| && Run(run).ingests[i] == Run(run[..k]).ingests[i]
  {
    if k == |run| {
      assert run[..k] == run;
    } else {
      var front := run[..|run| - 1];
      assert front[..k] == run[..k];
      DeadStays(front, k, i);
    }
  }

  /** A crash leaves the tables as they are and stops the ingest where it stands, for good. */
  lemma CrashStops(w: World, i: nat, now: nat)
    requires i < |w.ingests|
    ensures var u := Next(w, Crash(i));
            && u.t == w.t && |u.ingests| == |w.ingests| && !u.ingests[i].alive
            && u.ingests[i].stage == w.ingests[i].stage && u.ingests[i].parsed == w.ingests[i].parsed
            && (forall j :: 0 <= j < |w.ingests| && j != i ==> u.ingests[j] == w.ingests[j])
            && Next(u, Advance(i, now)) == u
  {
  }

  function RecordedOnly(gateway: GatewayId, txnId: string): Ingest -> int {
    (g: Ingest) => RecordedKey(gateway, txnId)(g) - PostedKey(gateway, txnId)(g)
  }

  lemma OnlyRecorder(gs: seq<Ingest>, i: nat, gateway: GatewayId, txnId: string)
    requires i < |gs| && HasKey(gs[i].parsed, gateway, txnId) && IsRecorded(gs[i].stage) && !IsPosted(gs[i].stage)
    requires Sum(RecordedKey(gateway, txnId), gs) <= 1
    ensures Sum(RecordedKey(gateway, txnId), gs) == 1 && Sum(PostedKey(gateway, txnId), gs) == 0
  {
    var recorded, posted := RecordedKey(gateway, txnId), PostedKey(gateway, txnId);
    var only := RecordedOnly(gateway, txnId);
    SumAdd(posted, only, recorded, gs);
    SumAtLeast(only, gs, i);
    SumNonnegative(posted, gs);
  }

  /** The other side of idempotency: a message whose ingest crashed after recording it and before
      posting is never credited. In every continuation its event is still there, so every replay
      is refused, and no ingest of its key ever posts. */
  lemma CrashStrandsPayment(run: seq<Step>, k: nat, i: nat, g: Ingest)
    requires k <= |run| && i < |Run(run[..k]).ingests| && Run(run[..k]).ingests[i] == g
    requires !g.alive && (g.stage.Loading? || g.stage.Posting?)
    ensures Sum(EventKey(g.parsed.gateway, g.parsed.txnId), Run(run).t.events) == 1
    ensures Sum(PostedKey(g.parsed.gateway, g.parsed.txnId), Run(run).ingests) == 0
  {
    DeadStays(run, k, i);
    OnePerKey(run, g.parsed.gateway, g.parsed.txnId);
    OnlyRecorder(Run(run).ingests, i, g.parsed.gateway, g.parsed.txnId);
  }

  /** The statements an ingest takes from its event to its posting. */
  function ToPosting(i: nat, s: Stage): seq<Step> {
    if s.Loading? then [Advance(i, 0), Advance(i, 0)] else [Advance(i, 0)]
  }

  lemma PostNext(v: World, i: nat, g: Ingest)
    requires i < |v.ingests| && v.ingests[i] == g && g.alive && g.stage.Posting?
    ensures var u := Next(v, Advance(i, 0));
            i < |u.ingests| && u.ingests[i].parsed == g.parsed && u.ingests[i].stage.Marking?
  {
  }

  lemma LoadNext(v: World, i: nat, g: Ingest)
    requires i < |v.ingests| && v.ingests[i] == g && g.alive && g.stage.Loading? && g.stage.charge < |v.t.charges|
    ensures var u := Next(v, Advance(i, 0));
            && i < |u.ingests| && u.ingests[i].parsed == g.parsed && u.ingests[i].alive && u.ingests[i].stage.Posting?
  {
  }

  lemma RunsToPosting(v: World, i: nat, g: Ingest)
    requires Consistent(v) && i < |v.ingests| && v.ingests[i] == g && g.alive
    requires g.stage.Loading? || g.stage.Posting?
    ensures var u := RunFrom(v, ToPosting(i, g.stage));
            i < |u.ingests| && u.ingests[i].parsed == g.parsed && u.ingests[i].stage.Marking?
  {
    var s := Advance(i, 0);
    RunFromStep(v, [], s);
    assert [] + [s] == [s];
    if g.stage.Loading? {
      assert IngestOk(v.t, g);
      LoadNext(v, i, g);
      RunFromStep(v, [s], s);
      assert [s] + [s] == [s, s];
      PostNext(Next(v, s), i, Next(v, s).ingests[i]);
    } else {
      PostNext(v, i, g);
    }
  }

  lemma PostedOnce(run: seq<Step>, i: nat, p: ParsedTxn)
    requires i < |Run(run).ingests| && Run(run).ingests[i].parsed == p && IsPosted(Run(run).ingests[i].stage)
    ensures Sum(PostedKey(p.gateway, p.txnId), Run(run).ingests) == 1
  {
    ReplayNeverCreditsTwice(run, p.gateway, p.txnId);
    SumAtLeast(PostedKey(p.gateway, p.txnId), Run(run).ingests, i);
  }

  /** Some continuation posts the key exactly once. */
  ghost predicate CanBeCredited(run: seq<Step>, p: ParsedTxn) {
    exists more: seq<Step> :: Sum(PostedKey(p.gateway, p.txnId), Run(run + more).ingests) == 1
  }

  /** A message that was recorded and not yet posted can still be credited if and only if the
      ingest that recorded it is alive. */
  lemma CreditableIffAlive(run: seq<Step>, i: nat, g: Ingest)
    requires i < |Run(run).ingests| && Run(run).ingests[i] == g && (g.stage.Loading? || g.stage.Posting?)
    ensures CanBeCredited(run, g.parsed) <==> g.alive
  {
    if g.alive {
      var more := ToPosting(i, g.stage);
      Always(run);
      RunsToPosting(Run(run), i, g);
      RunFromConcat(Start(), run, more);
      PostedOnce(run + more, i, g.parsed);
    } else {
      forall more: seq<Step> ensures Sum(PostedKey(g.parsed.gateway, g.parsed.txnId), Run(run + more).ingests) == 0 {
        assert (run + more)[..|run|] == run;
        CrashStrandsPayment(run + more, |run|, i, g);
      }
    }
  }

  // ---- Ledger safety ----

  /** A status flip is the trace of an ingest past its marking. */
  function MarkedOn(c: nat): Ingest -> int {
    (g: Ingest) => match g.stage
      case Settling(k, _) => if k == c then 1 else 0
      case Queueing(k, _) => if k == c then 1 else 0
      case Finished(Some(k)) => if k == c then 1 else 0
      case _ => 0
  }

  function PostedOn(c: nat): Ingest -> int {
    (g: Ingest) => match g.stage
      case Marking(k, _) => if k == c then 1 else 0
      case Settling(k, _) => if k == c then 1 else 0
      case Queueing(k, _) => if k == c then 1 else 0
      case Finished(Some(k)) => if k == c then 1 else 0
      case _ => 0
  }

  function TxnsOn(c: nat): LedgerTxn -> int { (x: LedgerTxn) => if x.reference == c then 1 else 0 }

  function EventsOn(c: nat): SmsEvent -> int { (e: SmsEvent) => if e.chargeId == Some(c) then 1 else 0 }

  /** Ingests, running or crashed, that recorded an event for c and have not flipped its status. */
  function HolderOf(c: nat): Ingest -> int {
    (g: Ingest) => match g.stage
      case Loading(k) => if k == c then 1 else 0
      case Posting(k, _) => if k == c then 1 else 0
      case Marking(k, _) => if k == c then 1 else 0
      case _ => 0
  }

  predicate RecordsOn(v: World, s: Step, c: nat) { Inserts(v, s) && Before(v, s).hit == Some(c) }
  predicate PostsOn(v: World, s: Step, c: nat) { Posts(v, s) && Before(v, s).charge == c }
  predicate MarksOn(v: World, s: Step, c: nat) { Moves(v, s) && Before(v, s).Marking? && Before(v, s).charge == c }

  function Indicator(b: bool): int { if b then 1 else 0 }

  lemma MarkedAfter(v: World, s: Step, c: nat)
    ensures Sum(MarkedOn(c), Next(v, s).ingests) == Sum(MarkedOn(c), v.ingests) + Indicator(MarksOn(v, s, c))
  {
    IngestsAfter(v, s, MarkedOn(c));
  }

  lemma HoldersAfter(v: World, s: Step, c: nat)
    ensures Sum(HolderOf(c), Next(v, s).ingests)
         == Sum(HolderOf(c), v.ingests) + Indicator(RecordsOn(v, s, c)) - Indicator(MarksOn(v, s, c))
  {
    IngestsAfter(v, s, HolderOf(c));
  }

  lemma PostedAfter(v: World, s: Step, c: nat)
    ensures Sum(PostedOn(c), Next(v, s).ingests) == Sum(PostedOn(c), v.ingests) + Indicator(PostsOn(v, s, c))
  {
    IngestsAfter(v, s, PostedOn(c));
  }

  lemma RowsAfter(v: World, s: Step, c: nat)
    ensures Sum(EventsOn(c), Next(v, s).t.events) == Sum(EventsOn(c), v.t.events) + Indicator(RecordsOn(v, s, c))
    ensures Sum(TxnsOn(c), Next(v, s).t.ledger) == Sum(TxnsOn(c), v.t.ledger) + Indicator(PostsOn(v, s, c))
  {
    EventsAfter(v, s, EventsOn(c));
    LedgerAfter(v, s, TxnsOn(c));
  }

  /** Only a marking pays a charge, and new charges are pending. */
  lemma PaidAfter(v: World, s: Step, c: nat)
    requires Consistent(v)
    ensures var u := Next(v, s);
            && |v.t.charges| <= |u.t.charges|
            && (c < |v.t.charges| ==>
                  (u.t.charges[c].status == Paid <==> v.t.charges[c].status == Paid || MarksOn(v, s, c)))
            && (|v.t.charges| <= c < |u.t.charges| ==> u.t.charges[c].status == Pending)
            && (MarksOn(v, s, c) ==> c < |v.t.charges|)
  {
  }

  /** The counts of a charge: its events are its holders plus its markings, its ledger
      transactions are the postings, and it is paid exactly when some ingest has marked it. */
  predicate Counted(v: World, c: nat) {
    && Sum(EventsOn(c), v.t.events) == Sum(HolderOf(c), v.ingests) + Sum(MarkedOn(c), v.ingests)
    && Sum(TxnsOn(c), v.t.ledger) == Sum(PostedOn(c), v.ingests)
    && (c < |v.t.charges| ==> (v.t.charges[c].status == Paid <==> Sum(MarkedOn(c), v.ingests) >= 1))
    && (c >= |v.t.charges| ==> Sum(MarkedOn(c), v.ingests) == 0)
  }

  lemma CountedStep(v: World, s: Step, c: nat)
    requires Consistent(v) && Counted(v, c)
    ensures Counted(Next(v, s), c)
  {
    SumNonnegative(MarkedOn(c), v.ingests);
    MarkedAfter(v, s, c);
    HoldersAfter(v, s, c);
    PostedAfter(v, s, c);
    RowsAfter(v, s, c);
    PaidAfter(v, s, c);
  }

  lemma {:induction false} ChargeCounts(run: seq<Step>, c: nat)
    ensures Counted(Run(run), c)
  {
    if run != [] {
      ChargeCounts(run[..|run| - 1], c);
      Always(run[..|run| - 1]);
      CountedStep(Run(run[..|run| - 1]), run[|run| - 1], c);
    }
  }

  /** Every transaction balances, every currency balances although `post` never checks it, a
      queued delivery speaks of a paid charge, and a paid charge has a ledger transaction. */
  lemma LedgerSafety(run: seq<Step>)
    ensures var t := Run(run).t;
            && Ledger.Balanced(t.ledger)
            && (forall cur :: Ledger.CurrencyTotal(t.ledger, cur) == 0)
            && (forall i :: 0 <= i < |t.deliveries| ==> DeliveryOk(t, t.deliveries[i]))
            && (forall c :: 0 <= c < |t.charges| && t.charges[c].status == Paid ==> Sum(TxnsOn(c), t.ledger) >= 1)
  {
    var v := Run(run);
    Always(run);
    forall i | 0 <= i < |v.t.ledger| ensures Sum(Ledger.AmountOf, v.t.ledger[i].entries) == 0 {
      Charge.SettlementBalances(v.t.ledger[i].reference, v.t.charges[v.t.ledger[i].reference]);
    }
    forall cur ensures Ledger.CurrencyTotal(v.t.ledger, cur) == 0 {
      forall i | 0 <= i < |v.t.ledger| ensures Ledger.TxnIn(cur)(v.t.ledger[i]) == 0 {
        Charge.SettlementBalances(v.t.ledger[i].reference, v.t.charges[v.t.ledger[i].reference]);
      }
      SumZero(Ledger.TxnIn(cur), v.t.ledger);
    }
    forall c | 0 <= c < |v.t.charges| && v.t.charges[c].status == Paid ensures Sum(TxnsOn(c), v.t.ledger) >= 1 {
      ChargeCounts(run, c);
      SumMonotone(MarkedOn(c), PostedOn(c), v.ingests);
    }
  }

  /** In every reachable state a queued delivery tells the callback of a paid charge that charge's
      own order, amount and currency. */
  lemma DeliveriesTell(run: seq<Step>, i: nat)
    requires i < |Run(run).t.deliveries|
    ensures var t, d := Run(run).t, Run(run).t.deliveries[i];
            && d.chargeId < |t.charges| && t.charges[d.chargeId].status == Paid
            && t.charges[d.chargeId].callbackUrl == Some(d.url) && d.event == "charge.paid"
            && d.payload.event == "charge.paid" && d.payload.status == "paid"
            && d.payload.chargeId == d.chargeId && d.payload.orderId == t.charges[d.chargeId].orderId
            && d.payload.amountMinor == t.charges[d.chargeId].amountMinor
            && d.payload.currency == t.charges[d.chargeId].currency
  {
    Always(run);
    assert DeliveryOk(Run(run).t, Run(run).t.deliveries[i]);
  }

  /** In every reachable state a ledger transaction refers to a charge, and debits its amount to
      receivable and credits it to clearing, in its currency. */
  lemma TransactionsTell(run: seq<Step>, i: nat)
    requires i < |Run(run).t.ledger|
    ensures var t, x := Run(run).t, Run(run).t.ledger[i];
            && x.reference < |t.charges| && |x.entries| == 2
            && x.entries[0].account == "merchant:receivable" && x.entries[1].account == "customer:clearing"
            && x.entries[0].amountMinor == t.charges[x.reference].amountMinor
            && x.entries[1].amountMinor == -t.charges[x.reference].amountMinor
            && x.entries[0].currency == x.entries[1].currency == t.charges[x.reference].currency
  {
    Always(run);
    assert TxnOk(Run(run).t, Run(run).t.ledger[i]);
  }

  // ---- Notifications ----

  function NoticesOn(c: nat): Delivery -> int { (d: Delivery) => if d.chargeId == c then 1 else 0 }

  predicate HasCallback(t: Tables, c: nat) { c < |t.charges| && t.charges[c].callbackUrl.Some? }

  /** Ingests that ran to the end for c. */
  function FinishedOn(c: nat): Ingest -> int {
    (g: Ingest) => if g.stage == Finished(Some(c)) then 1 else 0
  }

  /** Ingests, running or crashed, that flipped the status of c and have not enqueued. */
  function UnnotifiedOn(c: nat): Ingest -> int {
    (g: Ingest) => match g.stage
      case Settling(k, _) => if k == c then 1 else 0
      case Queueing(k, _) => if k == c then 1 else 0
      case _ => 0
  }

  lemma NoticesQueued(rows: seq<Delivery>, k: nat, row: Store.Charge, now: nat, c: nat)
    ensures Sum(NoticesOn(c), rows + Charge.Notifications(k, row, now))
         == Sum(NoticesOn(c), rows) + if row.callbackUrl.Some? && k == c then 1 else 0
  {
    var more := Charge.Notifications(k, row, now);
    if more == [] {
      assert rows + more == rows;
    } else {
      assert more == [more[0]];
      SumAppend(NoticesOn(c), rows, more[0]);
    }
  }

  lemma NoticesAfter(v: World, s: Step, c: nat)
    requires Consistent(v)
    ensures Sum(NoticesOn(c), Next(v, s).t.deliveries) == Sum(NoticesOn(c), v.t.deliveries)
      + Indicator(QueuesOn(v, s, c) && HasCallback(v.t, c))
  {
    if Moves(v, s) && Before(v, s).Queueing? {
      assert IngestOk(v.t, v.ingests[s.i]);
      NoticesQueued(v.t.deliveries, Before(v, s).charge, Before(v, s).row, s.now, c);
    } else if s.Elsewhere? {
      SumPointwise(NoticesOn(c), v.t.deliveries, Next(v, s).t.deliveries);
    }
  }

  predicate QueuesOn(v: World, s: Step, c: nat) { Moves(v, s) && Before(v, s).Queueing? && Before(v, s).charge == c }

  lemma FinishedAfter(v: World, s: Step, c: nat)
    ensures Sum(FinishedOn(c), Next(v, s).ingests) == Sum(FinishedOn(c), v.ingests) + Indicator(QueuesOn(v, s, c))
  {
    IngestsAfter(v, s, FinishedOn(c));
  }

  predicate NoticesMatch(v: World, c: nat) {
    Sum(NoticesOn(c), v.t.deliveries) == if HasCallback(v.t, c) then Sum(FinishedOn(c), v.ingests) else 0
  }

  lemma NoticesMatchStep(v: World, s: Step, c: nat)
    requires Consistent(v) && Counted(v, c) && NoticesMatch(v, c)
    ensures NoticesMatch(Next(v, s), c)
  {
    NoticesAfter(v, s, c);
    FinishedAfter(v, s, c);
    ChargesGrow(v, s);
    NoneFinishedEarly(v, c);
    assert QueuesOn(v, s, c) ==> IngestOk(v.t, v.ingests[s.i]);
  }

  lemma NoneFinishedEarly(v: World, c: nat)
    requires Counted(v, c)
    ensures c >= |v.t.charges| ==> Sum(FinishedOn(c), v.ingests) == 0
  {
    SumMonotone(FinishedOn(c), MarkedOn(c), v.ingests);
    SumNonnegative(FinishedOn(c), v.ingests);
  }

  /** A charge with a callback has exactly as many deliveries as ingests that ran to the end for it,
      so the markings without a delivery are exactly the ingests, running or crashed, between the
      status flip and the enqueue; and a charge without a callback has none. */
  lemma {:induction false} NotifiedExactly(run: seq<Step>, c: nat)
    ensures var v := Run(run);
            && NoticesMatch(v, c)
            && (HasCallback(v.t, c) ==>
                  Sum(MarkedOn(c), v.ingests) == Sum(NoticesOn(c), v.t.deliveries) + Sum(UnnotifiedOn(c), v.ingests))
  {
    if run != [] {
      NotifiedExactly(run[..|run| - 1], c);
      Always(run[..|run| - 1]);
      ChargeCounts(run[..|run| - 1], c);
      NoticesMatchStep(Run(run[..|run| - 1]), run[|run| - 1], c);
    }
    MarkedSplits(Run(run).ingests, c);
  }

  lemma MarkedSplits(gs: seq<Ingest>, c: nat)
    ensures Sum(MarkedOn(c), gs) == Sum(FinishedOn(c), gs) + Sum(UnnotifiedOn(c), gs)
  {
    SumAdd(FinishedOn(c), UnnotifiedOn(c), MarkedOn(c), gs);
  }

  // ---- History ----

  predicate IsPrefix<T(==)>(a: seq<T>, b: seq<T>) { |a| <= |b| && a == b[..|a|] }

  lemma Extends(w: World, s: Step)
    ensures IsPrefix(w.t.ledger, Next(w, s).t.ledger) && IsPrefix(w.t.events, Next(w, s).t.events)
  {
  }

  lemma PrefixTransitive<T>(a: seq<T>, b: seq<T>, c: seq<T>)
    requires IsPrefix(a, b) && IsPrefix(b, c)
    ensures IsPrefix(a, c)
  {
  }

  /** History is append-only: later states extend the ledger and the events of earlier ones, and
      what was paid stays paid on the same terms. */
  lemma {:induction false} AppendOnly(run: seq<Step>, k: nat)
    requires k <= |run|
    ensures IsPrefix(Run(run[..k]).t.ledger, Run(run).t.ledger)
    ensures IsPrefix(Run(run[..k]).t.events, Run(run).t.events)
    ensures Grown(Run(run[..k]).t.charges, Run(run).t.charges)
  {
    if k == |run| {
      assert run[..k] == run;
    } else {
      var front := run[..|run| - 1];
      AppendOnly(front, k);
      assert front[..k] == run[..k];
      Always(front);
      ChargesGrow(Run(front), run[|run| - 1]);
      Extends(Run(front), run[|run| - 1]);
      PrefixTransitive(Run(run[..k]).t.ledger, Run(front).t.ledger, Run(run).t.ledger);
      PrefixTransitive(Run(run[..k]).t.events, Run(front).t.events, Run(run).t.events);
    }
  }
}
