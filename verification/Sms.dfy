/** Inbound SMS: parse, match to the one charge it can settle, record once, settle. */
module Sms {
  import opened Rows
  import opened Store
  import opened Text
  import opened Gateway
  import Charge

  datatype IngestError = UnknownGateway | Parse(cause: ParseError) | Duplicate | ChargeFailed(error: Charge.ChargeError)

  datatype Ingested = Ingested(smsEventId: nat, txnId: string, matchedCharge: Option<nat>)

  // ---- Matching ----

  /** Digits only, the last ten. */
  function NormalizeMsisdn(raw: string): string {
    var digits := Filter(IsDigit, raw);
    if |digits| > 10 then digits[|digits| - 10..] else digits
  }

  lemma NormalizeIdempotent(raw: string)
    ensures NormalizeMsisdn(NormalizeMsisdn(raw)) == NormalizeMsisdn(raw)
  {
    FilterAll(IsDigit, NormalizeMsisdn(raw));
  }

  /** Separators never matter, and neither do digits put before a number of ten or more. */
  lemma NormalizeIgnoresFormat(raw: string, other: string, prefix: string)
    requires Filter(IsDigit, other) == Filter(IsDigit, raw)
    ensures NormalizeMsisdn(other) == NormalizeMsisdn(raw)
    ensures |Filter(IsDigit, raw)| >= 10 ==> NormalizeMsisdn(prefix + other) == NormalizeMsisdn(raw)
  {
    FilterConcat(IsDigit, prefix, other);
  }

  /** The k-th digit from the end. */
  function FromEnd(s: string, k: nat): char
    requires 1 <= k <= |s|
  {
    s[|s| - k]
  }

  /** The digits of two numbers agree on their last ten places, or, if one has fewer, altogether. */
  predicate SameSubscriber(a: string, b: string) {
    if |a| >= 10 && |b| >= 10 then forall k :: 1 <= k <= 10 ==> FromEnd(a, k) == FromEnd(b, k)
    else a == b
  }

  lemma TailsAgree(x: string, y: string)
    requires |x| >= 10 && |y| >= 10
    ensures x[|x| - 10..] == y[|y| - 10..] <==> SameSubscriber(x, y)
  {
    var u, v := x[|x| - 10..], y[|y| - 10..];
    forall k | 1 <= k <= 10 ensures u[10 - k] == FromEnd(x, k) && v[10 - k] == FromEnd(y, k) {}
    if SameSubscriber(x, y) {
      forall i | 0 <= i < 10 ensures u[i] == v[i] {
        var k := 10 - i;
        assert FromEnd(x, k) == FromEnd(y, k) && u[10 - k] == FromEnd(x, k) && v[10 - k] == FromEnd(y, k);
      }
    } else {
      var k :| 1 <= k <= 10 && FromEnd(x, k) != FromEnd(y, k);
      assert u[10 - k] != v[10 - k];
    }
  }

  lemma NormalIsTail(raw: string, digits: string)
    requires digits == Filter(IsDigit, raw)
    ensures NormalizeMsisdn(raw) == if |digits| >= 10 then digits[|digits| - 10..] else digits
  {
    assert |digits| == 10 ==> digits[|digits| - 10..] == digits;
  }

  /** Two numbers have one normal form exactly when they are the same subscriber's. */
  lemma NormalFormIff(a: string, b: string)
    ensures NormalizeMsisdn(a) == NormalizeMsisdn(b) <==> SameSubscriber(Filter(IsDigit, a), Filter(IsDigit, b))
  {
    var x, y := Filter(IsDigit, a), Filter(IsDigit, b);
    NormalIsTail(a, x);
    NormalIsTail(b, y);
    if |x| >= 10 && |y| >= 10 { TailsAgree(x, y); }
  }

  datatype Candidate = Candidate(id: nat, declared: Option<string>)

  predicate IsCandidate(c: Store.Charge, amountMinor: int) { c.amountMinor == amountMinor && c.status == Pending }

  /** `SELECT id, customer_msisdn FROM charges WHERE amount_minor = ? AND status = 'pending'`. */
  function Candidates(charges: seq<Store.Charge>, amountMinor: int): seq<Candidate> {
    if charges == [] then [] else
      var last := |charges| - 1;
      Candidates(charges[..last], amountMinor)
      + if IsCandidate(charges[last], amountMinor) then [Candidate(last, charges[last].customerMsisdn)] else []
  }

  predicate Hits(c: Candidate, sender: string) {
    c.declared.Some? && NormalizeMsisdn(c.declared.value) == sender
  }

  /** `hits.next()`: the next candidate whose number is the sender's. */
  function NextHit(cands: seq<Candidate>, sender: string, i: nat): (j: nat)
    requires i <= |cands|
    ensures i <= j <= |cands| && (j < |cands| ==> Hits(cands[j], sender))
    ensures forall k :: i <= k < j ==> !Hits(cands[k], sender)
    decreases |cands| - i
  {
    if i == |cands| || Hits(cands[i], sender) then i else NextHit(cands, sender, i + 1)
  }

  /** The match on the candidate slice. */
  function Pick(cands: seq<Candidate>, sender: Option<string>): Option<nat> {
    if |cands| == 0 then None
    else if |cands| == 1 then Some(cands[0].id)
    else if sender.None? then None
    else
      var s := NormalizeMsisdn(sender.value);
      var first := NextHit(cands, s, 0);
      if first == |cands| then None
      else if NextHit(cands, s, first + 1) < |cands| then None
      else Some(cands[first].id)
  }

  function FindMatchingCharge(charges: seq<Store.Charge>, parsed: ParsedTxn): Option<nat> {
    Pick(Candidates(charges, parsed.amountMinor), parsed.senderMsisdn)
  }

  /** Candidate i is chosen: it stands alone, or is the only one with the sender's number. */
  predicate Unambiguous(cands: seq<Candidate>, sender: Option<string>, i: nat)
    requires i < |cands|
  {
    || |cands| == 1
    || (sender.Some? && Hits(cands[i], NormalizeMsisdn(sender.value))
        && forall j :: 0 <= j < |cands| && j != i ==> !Hits(cands[j], NormalizeMsisdn(sender.value)))
  }

  lemma PickIsUnambiguous(cands: seq<Candidate>, sender: Option<string>, id: nat)
    ensures Pick(cands, sender) == Some(id)
       <==> exists i :: 0 <= i < |cands| && Unambiguous(cands, sender, i) && cands[i].id == id
  {
    if |cands| == 1 {
      assert Unambiguous(cands, sender, 0);
    } else if |cands| >= 2 && sender.Some? {
      var s := NormalizeMsisdn(sender.value);
      var first := NextHit(cands, s, 0);
      if first < |cands| && NextHit(cands, s, first + 1) == |cands| {
        assert Unambiguous(cands, sender, first);
      }
    }
  }

  predicate IsRow(charges: seq<Store.Charge>, amountMinor: int, c: Candidate) {
    c.id < |charges| && IsCandidate(charges[c.id], amountMinor) && c.declared == charges[c.id].customerMsisdn
  }

  lemma {:induction false} CandidatesSound(charges: seq<Store.Charge>, amountMinor: int)
    ensures forall c :: c in Candidates(charges, amountMinor) ==> IsRow(charges, amountMinor, c)
  {
    if charges != [] {
      var front := charges[..|charges| - 1];
      CandidatesSound(front, amountMinor);
      forall c | c in Candidates(front, amountMinor) ensures IsRow(charges, amountMinor, c) {
        assert IsRow(front, amountMinor, c);
      }
    }
  }

  predicate Ascending(cands: seq<Candidate>) {
    forall i, j :: 0 <= i < j < |cands| ==> cands[i].id < cands[j].id
  }

  lemma {:induction false} CandidatesAscend(charges: seq<Store.Charge>, amountMinor: int)
    ensures Ascending(Candidates(charges, amountMinor))
  {
    if charges != [] {
      var last := |charges| - 1;
      var front, cands := Candidates(charges[..last], amountMinor), Candidates(charges, amountMinor);
      CandidatesSound(charges[..last], amountMinor);
      CandidatesAscend(charges[..last], amountMinor);
      assert |front| <= |cands| <= |front| + 1 && cands[..|front|] == front;
      forall i, j | 0 <= i < j < |cands| ensures cands[i].id < cands[j].id {
        assert cands[i] == front[i] && IsRow(charges[..last], amountMinor, front[i]);
        if j < |front| { assert cands[j] == front[j]; } else { assert cands[j].id == last; }
      }
    }
  }

  lemma {:induction false} CandidateFound(charges: seq<Store.Charge>, amountMinor: int, k: nat) returns (i: nat)
    requires k < |charges| && IsCandidate(charges[k], amountMinor)
    ensures i < |Candidates(charges, amountMinor)| && Candidates(charges, amountMinor)[i].id == k
  {
    var last := |charges| - 1;
    if k == last {
      i := |Candidates(charges[..last], amountMinor)|;
    } else {
      i := CandidateFound(charges[..last], amountMinor, k);
    }
  }

  /** The candidate slice is exactly the pending charges of the amount, each once. */
  lemma CandidatesAreRows(charges: seq<Store.Charge>, amountMinor: int) returns (cands: seq<Candidate>)
    ensures cands == Candidates(charges, amountMinor) && Ascending(cands)
    ensures forall i :: 0 <= i < |cands| ==> IsRow(charges, amountMinor, cands[i])
    ensures forall k | 0 <= k < |charges| && IsCandidate(charges[k], amountMinor) ::
              exists i :: 0 <= i < |cands| && cands[i].id == k
  {
    cands := Candidates(charges, amountMinor);
    CandidatesSound(charges, amountMinor);
    CandidatesAscend(charges, amountMinor);
    forall i | 0 <= i < |cands| ensures IsRow(charges, amountMinor, cands[i]) { assert cands[i] in cands; }
    forall k | 0 <= k < |charges| && IsCandidate(charges[k], amountMinor)
      ensures exists i :: 0 <= i < |cands| && cands[i].id == k
    {
      var i := CandidateFound(charges, amountMinor, k);
      assert cands[i].id == k;
    }
  }

  predicate NumberMatches(c: Store.Charge, sender: Option<string>) {
    sender.Some? && c.customerMsisdn.Some?
    && NormalizeMsisdn(c.customerMsisdn.value) == NormalizeMsisdn(sender.value)
  }

  predicate SoleCandidate(charges: seq<Store.Charge>, amountMinor: int, k: nat) {
    forall j | 0 <= j < |charges| && IsCandidate(charges[j], amountMinor) :: j == k
  }

  predicate SoleNumber(charges: seq<Store.Charge>, parsed: ParsedTxn, k: nat)
    requires k < |charges|
  {
    && NumberMatches(charges[k], parsed.senderMsisdn)
    && forall j | 0 <= j < |charges| && IsCandidate(charges[j], parsed.amountMinor)
                  && NumberMatches(charges[j], parsed.senderMsisdn) :: j == k
  }

  /** Row k is the only pending charge of the amount, or the only one of them whose declared
      number is the sender's. */
  predicate TheOne(charges: seq<Store.Charge>, parsed: ParsedTxn, k: nat) {
    && k < |charges| && IsCandidate(charges[k], parsed.amountMinor)
    && (SoleCandidate(charges, parsed.amountMinor, k) || SoleNumber(charges, parsed, k))
  }

  /** Matching is exact: it returns a charge if and only if that charge is unambiguous. */
  lemma MatchIsExact(charges: seq<Store.Charge>, parsed: ParsedTxn, k: nat)
    ensures FindMatchingCharge(charges, parsed) == Some(k) <==> TheOne(charges, parsed, k)
  {
    if TheOne(charges, parsed, k) { TheOneIsPicked(charges, parsed, k); }
    if FindMatchingCharge(charges, parsed) == Some(k) { PickedIsTheOne(charges, parsed, k); }
  }

  lemma TheOneIsPicked(charges: seq<Store.Charge>, parsed: ParsedTxn, k: nat)
    requires TheOne(charges, parsed, k)
    ensures FindMatchingCharge(charges, parsed) == Some(k)
  {
    var cands := CandidatesAreRows(charges, parsed.amountMinor);
    var sender := parsed.senderMsisdn;
    PickIsUnambiguous(cands, sender, k);
    var i :| 0 <= i < |cands| && cands[i].id == k;
    if |cands| > 1 {
      var other := if i == 0 then 1 else 0;
      assert cands[other].id != k && IsCandidate(charges[cands[other].id], parsed.amountMinor);
      forall j | 0 <= j < |cands| && j != i ensures !Hits(cands[j], NormalizeMsisdn(sender.value)) {
        assert cands[j].id != k;
      }
    }
    assert Unambiguous(cands, sender, i);
  }

  /** No other candidate does what the chosen one does. */
  lemma ChosenAlone(cands: seq<Candidate>, sender: Option<string>, i: nat, n: nat)
    requires i < |cands| && n < |cands| && Unambiguous(cands, sender, i)
    requires |cands| == 1 || (sender.Some? && Hits(cands[n], NormalizeMsisdn(sender.value)))
    ensures n == i
  {
  }

  lemma PickedIsTheOne(charges: seq<Store.Charge>, parsed: ParsedTxn, k: nat)
    requires FindMatchingCharge(charges, parsed) == Some(k)
    ensures TheOne(charges, parsed, k)
  {
    var cands := CandidatesAreRows(charges, parsed.amountMinor);
    var sender := parsed.senderMsisdn;
    PickIsUnambiguous(cands, sender, k);
    var i :| 0 <= i < |cands| && Unambiguous(cands, sender, i) && cands[i].id == k;
    assert IsRow(charges, parsed.amountMinor, cands[i]);
    forall j | 0 <= j < |charges| && IsCandidate(charges[j], parsed.amountMinor)
      ensures |cands| == 1 || NumberMatches(charges[j], sender) ==> j == k
    {
      var n :| 0 <= n < |cands| && cands[n].id == j;
      assert IsRow(charges, parsed.amountMinor, cands[n]);
      if |cands| == 1 || NumberMatches(charges[j], sender) { ChosenAlone(cands, sender, i, n); }
    }
    if |cands| == 1 {
      assert SoleCandidate(charges, parsed.amountMinor, k);
    } else {
      assert SoleNumber(charges, parsed, k);
    }
  }

  // ---- Matching, in terms of the columns ----

  /** A pending charge of the amount. */
  predicate PendingFor(c: Store.Charge, parsed: ParsedTxn) {
    c.status == Pending && c.amountMinor == parsed.amountMinor
  }

  /** Its declared number and the sender's are the same subscriber's. */
  predicate DeclaredBySender(c: Store.Charge, parsed: ParsedTxn) {
    && c.customerMsisdn.Some? && parsed.senderMsisdn.Some?
    && SameSubscriber(Filter(IsDigit, c.customerMsisdn.value), Filter(IsDigit, parsed.senderMsisdn.value))
  }

  predicate DeclaredPending(c: Store.Charge, parsed: ParsedTxn) { PendingFor(c, parsed) && DeclaredBySender(c, parsed) }

  /** A charge is matched if and only if it is pending for the amount and no other such charge is,
      or no other such charge is declared by the sender and it is. */
  lemma MatchIsBySubscriber(charges: seq<Store.Charge>, parsed: ParsedTxn, k: nat)
    ensures FindMatchingCharge(charges, parsed) == Some(k) <==>
      && k < |charges| && PendingFor(charges[k], parsed)
      && ((forall j :: 0 <= j < |charges| && PendingFor(charges[j], parsed) ==> j == k)
          || (DeclaredBySender(charges[k], parsed)
              && forall j :: 0 <= j < |charges| && DeclaredPending(charges[j], parsed) ==> j == k))
  {
    MatchIsExact(charges, parsed, k);
    forall j | 0 <= j < |charges|
      ensures NumberMatches(charges[j], parsed.senderMsisdn) <==> DeclaredBySender(charges[j], parsed)
      ensures IsCandidate(charges[j], parsed.amountMinor) <==> PendingFor(charges[j], parsed)
    {
      if charges[j].customerMsisdn.Some? && parsed.senderMsisdn.Some? {
        NormalFormIff(charges[j].customerMsisdn.value, parsed.senderMsisdn.value);
      }
    }
  }

  /** With two pending charges of the amount, a sender whose number differs from every declared one
      in one of its last ten digits, or who is not known, settles nothing. */
  lemma StrangerSettlesNothing(charges: seq<Store.Charge>, parsed: ParsedTxn, i: nat, j: nat)
    requires i < j < |charges| && PendingFor(charges[i], parsed) && PendingFor(charges[j], parsed)
    requires forall c :: 0 <= c < |charges| && PendingFor(charges[c], parsed) ==> !DeclaredBySender(charges[c], parsed)
    ensures FindMatchingCharge(charges, parsed) == None
  {
    if FindMatchingCharge(charges, parsed).Some? {
      MatchIsBySubscriber(charges, parsed, FindMatchingCharge(charges, parsed).value);
    }
  }

  /** How many candidates carry the sender's number. */
  function HitOf(sender: string): Candidate -> int {
    (c: Candidate) => if Hits(c, sender) then 1 else 0
  }

  lemma UniqueHitIsCount(cands: seq<Candidate>, s: string, i: nat)
    requires i < |cands| && Hits(cands[i], s)
    ensures Sum(HitOf(s), cands) == 1 <==> forall j :: 0 <= j < |cands| && j != i ==> !Hits(cands[j], s)
  {
    var f := HitOf(s);
    var miss := Candidate(0, None);
    var rest := cands[i := miss];
    SumUpdate(f, cands, i, miss);
    if Sum(f, rest) == 0 {
      forall j | 0 <= j < |cands| && j != i ensures !Hits(cands[j], s) {
        SumAtLeast(f, rest, j);
      }
    } else {
      SumNonnegative(f, rest);
      var j := SumWitness(f, rest);
    }
  }

  /** The query has no ORDER BY, and needs none: the choice is a function of the bag of rows. */
  lemma MatchIsOrderFree(a: seq<Candidate>, b: seq<Candidate>, sender: Option<string>)
    requires multiset(a) == multiset(b)
    ensures Pick(a, sender) == Pick(b, sender)
  {
    PickStable(a, b, sender);
    PickStable(b, a, sender);
  }

  lemma PickStable(a: seq<Candidate>, b: seq<Candidate>, sender: Option<string>)
    requires multiset(a) == multiset(b)
    ensures Pick(a, sender).Some? ==> Pick(b, sender) == Pick(a, sender)
  {
    assert |a| == |multiset(a)| && |b| == |multiset(b)|;
    if Pick(a, sender).Some? {
      var id := Pick(a, sender).value;
      PickIsUnambiguous(a, sender, id);
      PickIsUnambiguous(b, sender, id);
      var i :| 0 <= i < |a| && Unambiguous(a, sender, i) && a[i].id == id;
      assert a[i] in multiset(b);
      var j :| 0 <= j < |b| && b[j] == a[i];
      if |a| > 1 {
        var s := NormalizeMsisdn(sender.value);
        UniqueHitIsCount(a, s, i);
        UniqueHitIsCount(b, s, j);
        SumPermutation(HitOf(s), a, b);
      }
      assert Unambiguous(b, sender, j);
    }
  }

  /** Nor does the way numbers are written matter. */
  lemma MatchIgnoresFormat(a: seq<Candidate>, b: seq<Candidate>, sender: Option<string>, other: Option<string>)
    requires |a| == |b| && forall i :: 0 <= i < |a| ==> a[i].id == b[i].id && SameNumber(a[i].declared, b[i].declared)
    requires SameNumber(sender, other)
    ensures Pick(a, sender) == Pick(b, other)
  {
    if |a| > 1 && sender.Some? {
      var s := NormalizeMsisdn(sender.value);
      assert forall i :: 0 <= i < |a| ==> (Hits(a[i], s) <==> Hits(b[i], s));
      var first := NextHit(a, s, 0);
      assert NextHit(b, s, 0) == first;
      if first < |a| {
        assert NextHit(a, s, first + 1) == NextHit(b, s, first + 1);
      }
    }
  }

  predicate SameNumber(a: Option<string>, b: Option<string>) {
    (a.None? && b.None?) || (a.Some? && b.Some? && NormalizeMsisdn(a.value) == NormalizeMsisdn(b.value))
  }

  // ---- Recording and settling ----

  predicate Recorded(events: seq<SmsEvent>, gateway: GatewayId, txnId: string) {
    exists i :: 0 <= i < |events| && events[i].gateway == gateway && events[i].txnId == txnId
  }

  function EventRow(p: ParsedTxn, hit: Option<nat>, now: nat): SmsEvent {
    SmsEvent(p.gateway, p.txnId, p.amountMinor, p.senderMsisdn, hit, hit.Some?, now)
  }

  /** The tables after a parsed message has been handled with nothing in between. */
  function IngestTables(t: Tables, p: ParsedTxn, now: nat): Tables {
    if Recorded(t.events, p.gateway, p.txnId) then t else
      var hit := FindMatchingCharge(t.charges, p);
      var recorded := t.(events := t.events + [EventRow(p, hit, now)]);
      if hit.None? || hit.value >= |t.charges| then recorded
      else Charge.MarkPaidTables(recorded, hit.value, now)
  }

  /** What the text parses to: the patterns first, then whatever the fallback extracted. */
  function ParseBody(g: GatewayId, body: string, ai: Option<ParsedTxn>): Result<ParsedTxn, ParseError> {
    match ParseSms(g, body)
    case Ok(p) => Ok(p)
    case Err(e) => if ai.Some? then Ok(ai.value.(gateway := g)) else Err(e)
  }

  /** What the patterns read stands; only where they read nothing does the fallback count, and then
      under the gateway that was asked. */
  lemma ParseBodyMeans(g: GatewayId, body: string, ai: Option<ParsedTxn>)
    ensures ParseSms(g, body).Ok? ==> ParseBody(g, body, ai) == ParseSms(g, body)
    ensures ParseSms(g, body).Err? && ai.Some? ==>
      ParseBody(g, body, ai) == Ok(ParsedTxn(g, ai.value.txnId, ai.value.amountMinor, ai.value.senderMsisdn))
    ensures ParseSms(g, body).Err? && ai.None? ==> ParseBody(g, body, ai) == Err(ParseSms(g, body).error)
  {
  }

  /** Whether some event has this gateway and TrxID. */
  predicate Seen(events: seq<SmsEvent>, gateway: GatewayId, txnId: string) {
    exists e :: e in events && e.gateway == gateway && e.txnId == txnId
  }

  /** The columns a message is recorded with; a message seen before changes nothing. */
  lemma IngestColumns(t: Tables, p: ParsedTxn, now: nat)
    ensures Seen(t.events, p.gateway, p.txnId) ==> IngestTables(t, p, now) == t
    ensures !Seen(t.events, p.gateway, p.txnId) ==>
      var u, n, hit := IngestTables(t, p, now), |t.events|, FindMatchingCharge(t.charges, p);
      && |u.events| == n + 1 && u.events[..n] == t.events
      && u.events[n].gateway == p.gateway && u.events[n].txnId == p.txnId
      && u.events[n].amountMinor == p.amountMinor && u.events[n].senderMsisdn == p.senderMsisdn
      && u.events[n].chargeId == hit && u.events[n].matched == hit.Some? && u.events[n].receivedAt == now
      && (hit.None? ==> u == t.(events := u.events))
      && (hit.Some? ==>
            hit.value < |t.charges|
            && u == Charge.MarkPaidTables(t.(events := u.events), hit.value, now))
  {
    assert Seen(t.events, p.gateway, p.txnId) <==> Recorded(t.events, p.gateway, p.txnId) by {
      if Recorded(t.events, p.gateway, p.txnId) {
        var i :| 0 <= i < |t.events| && t.events[i].gateway == p.gateway && t.events[i].txnId == p.txnId;
        assert t.events[i] in t.events;
      }
    }
    var hit := FindMatchingCharge(t.charges, p);
    if hit.Some? { MatchIsExact(t.charges, p, hit.value); }
  }

  method Ingest(db: Database, gw: string, body: string, ai: Option<ParsedTxn>, now: nat)
    returns (r: Result<Ingested, IngestError>)
    modifies db
    ensures Resolve(gw).None? ==> r == Err(UnknownGateway) && db.Snapshot() == old(db.Snapshot())
    ensures Resolve(gw).Some? ==>
      match ParseBody(Resolve(gw).value, body, ai)
      case Err(e) => r == Err(Parse(e)) && db.Snapshot() == old(db.Snapshot())
      case Ok(p) =>
        && db.Snapshot() == IngestTables(old(db.Snapshot()), p, now)
        && r == if Recorded(old(db.events), p.gateway, p.txnId) then Err(Duplicate)
                else Ok(Ingested(|old(db.events)|, p.txnId, FindMatchingCharge(old(db.charges), p)))
  {
    var gateway := Resolve(gw);
    if gateway.None? {
      return Err(UnknownGateway);
    }
    var outcome := ParseBody(gateway.value, body, ai);
    if outcome.Err? {
      return Err(Parse(outcome.error));
    }
    var parsed := outcome.value;
    var matched := FindMatchingCharge(db.charges, parsed);
    var eventId := |db.events|;
    if Recorded(db.events, parsed.gateway, parsed.txnId) {
      return Err(Duplicate);
    }
    db.events := db.events + [EventRow(parsed, matched, now)];
    if matched.Some? {
      MatchIsExact(db.charges, parsed, matched.value);
      var paid := Charge.MarkPaid(db, matched.value, now);
    }
    return Ok(Ingested(eventId, parsed.txnId, matched));
  }
}
