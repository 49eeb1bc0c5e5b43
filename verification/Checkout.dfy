/** Hosted checkout: opening a charge from a major-unit amount, the customer's hints, and the
    status a merchant reads back. */
module Checkout {
  import opened Rows
  import opened Store
  import opened Float64
  import opened Money
  import opened Text
  import Charge

  datatype CreateCheckout = CreateCheckout(
    fullName: Option<string>,
    mobileNumber: Option<string>,
    amount: Double,
    currency: string,
    webhookUrl: Option<string>)

  datatype CheckoutError = InvalidAmount | NotFound | DomainNotAllowed | Db(cause: DbError)

  /** Finite and positive. */
  predicate AcceptableAmount(amount: F64) { amount.Finite? && amount.value > 0.0 }

  function RowOf(req: CreateCheckout, payRef: string): Store.Charge {
    Charge(payRef, MinorUnits(req.amount), req.currency, req.fullName, req.mobileNumber, req.webhookUrl,
           Pending, Some(payRef), None, None, None)
  }

  /** The charges table after `create_checkout`, or the error it returns. `payRef` is the
      freshly drawn public reference, `allowed` the verdict of the domain whitelist. */
  function Opened(charges: seq<Store.Charge>, req: CreateCheckout, payRef: string, allowed: bool)
    : Result<seq<Store.Charge>, CheckoutError>
  {
    if !AcceptableAmount(req.amount) then Err(InvalidAmount)
    else if !allowed then Err(DomainNotAllowed)
    else match Charge.Inserted(charges, RowOf(req, payRef))
      case Err(e) => Err(Db(e))
      case Ok(after) => Ok(after)
  }

  method Create(db: Database, req: CreateCheckout, payRef: string, allowed: bool)
    returns (r: Result<string, CheckoutError>)
    modifies db`charges
    ensures match Opened(old(db.charges), req, payRef, allowed)
            case Ok(after) => r == Ok(payRef) && db.charges == after
            case Err(e) => r == Err(e) && db.charges == old(db.charges)
  {
    if !AcceptableAmount(req.amount) {
      return Err(InvalidAmount);
    }
    if !allowed {
      return Err(DomainNotAllowed);
    }
    match Charge.Inserted(db.charges, RowOf(req, payRef)) {
      case Err(e) => return Err(Db(e));
      case Ok(after) =>
        db.charges := after;
        return Ok(payRef);
    }
  }

  /** Which check refuses, and what the row says if none does. */
  lemma OpenedMeans(charges: seq<Store.Charge>, req: CreateCheckout, payRef: string, allowed: bool)
    ensures var r := Opened(charges, req, payRef, allowed);
            && (r == Err(InvalidAmount) <==> !req.amount.Finite? || req.amount.value <= 0.0)
            && (r == Err(DomainNotAllowed) <==> req.amount.Finite? && req.amount.value > 0.0 && !allowed)
            && (r.Err? ==> r.error == InvalidAmount || r.error == DomainNotAllowed || r.error == Db(CheckViolation)
                           || r.error == Db(UniqueViolation))
            && (r == Err(Db(UniqueViolation)) ==> exists c :: c in charges && c.orderId == payRef)
    ensures var r := Opened(charges, req, payRef, allowed);
            r.Ok? ==>
              && |r.value| == |charges| + 1 && r.value[..|charges|] == charges
              && var row := r.value[|charges|];
                 (&& row.orderId == payRef && row.payRef == Some(payRef) && row.status == Pending
                  && row.amountMinor == RoundToI64(MulConst(req.amount, 100.0)) && row.currency == req.currency
                  && row.customerName == req.fullName && row.customerMsisdn == req.mobileNumber
                  && row.callbackUrl == req.webhookUrl
                  && row.gateway == None && row.claimedTrxId == None && row.claimedSender == None)
  {
    Charge.InsertedMeans(charges, RowOf(req, payRef));
  }

  /** A positive amount below half a poisha passes the check in the code and is refused by the
      CHECK of the table instead: exactly the amounts whose product with 100 rounds below 1/2. */
  lemma TinyAmountsReachTheTable(charges: seq<Store.Charge>, req: CreateCheckout, payRef: string)
    ensures Opened(charges, req, payRef, true) == Err(Db(CheckViolation))
       <==> AcceptableAmount(req.amount) && TooSmall(MulConst(req.amount, 100.0))
  {
    if AcceptableAmount(req.amount) {
      ScaledSign(req.amount);
      RoundsToNothing(MulConst(req.amount, 100.0));
    }
  }

  predicate TooSmall(x: F64) { x.Finite? && x.value < 0.5 }

  lemma ScaledSign(x: F64)
    requires AcceptableAmount(x)
    ensures MulConst(x, 100.0).Finite? || MulConst(x, 100.0).PosInf?
  {
  }

  lemma RoundsToNothing(x: F64)
    requires x.Finite? || x.PosInf?
    ensures RoundToI64(x) <= 0 <==> TooSmall(x)
  {
  }

  /** A checkout opened for m / 100 holds what m comes back as: exactly m, up to the limit. */
  lemma CheckoutHoldsAmount(charges: seq<Store.Charge>, req: CreateCheckout, payRef: string, m: int)
    requires 1 <= m < INT_LIMIT && req.amount == Hundredths(m)
    requires !Charge.OrderTaken(charges, payRef)
    ensures Opened(charges, req, payRef, true) == Ok(charges + [RowOf(req, payRef)])
    ensures RowOf(req, payRef).amountMinor == Passage(m)
    ensures m <= EXACT_LIMIT ==> RowOf(req, payRef).amountMinor == m
  {
    HundredthsPositive(m);
    PassageIsNear(m);
    if m <= EXACT_LIMIT { PassageIsExact(m); }
  }

  // ---- The customer's steps ----

  predicate Refers(c: Store.Charge, payRef: string) { c.payRef == Some(payRef) && c.status == Pending }

  predicate AnyRefers(charges: seq<Store.Charge>, payRef: string) {
    exists i :: 0 <= i < |charges| && Refers(charges[i], payRef)
  }

  /** `UPDATE charges SET gateway = ? WHERE pay_ref = ? AND status = 'pending'`. */
  function Chosen(charges: seq<Store.Charge>, payRef: string, gateway: string): seq<Store.Charge> {
    seq(|charges|, i requires 0 <= i < |charges| =>
      if Refers(charges[i], payRef) then charges[i].(gateway := Some(gateway)) else charges[i])
  }

  /** `UPDATE charges SET claimed_trx_id = ?, claimed_sender = ? WHERE pay_ref = ? ...`. */
  function Claimed(charges: seq<Store.Charge>, payRef: string, trxId: string, sender: Option<string>)
    : seq<Store.Charge>
  {
    seq(|charges|, i requires 0 <= i < |charges| =>
      if Refers(charges[i], payRef)
      then charges[i].(claimedTrxId := Some(trxId), claimedSender := sender) else charges[i])
  }

  predicate PendingUnder(c: Store.Charge, payRef: string) { c.status == Pending && c.payRef == Some(payRef) }

  /** Choosing writes the gateway of the pending charges with the reference, and nothing else. */
  lemma ChosenColumns(charges: seq<Store.Charge>, payRef: string, gateway: string, i: nat)
    requires i < |charges|
    ensures |Chosen(charges, payRef, gateway)| == |charges|
    ensures var c, after := charges[i], Chosen(charges, payRef, gateway)[i];
            && (PendingUnder(c, payRef) ==> after.gateway == Some(gateway) && after.(gateway := c.gateway) == c)
            && (!PendingUnder(c, payRef) ==> after == c)
  {
  }

  /** Claiming writes their TrxID and sender, each in its column, and nothing else. */
  lemma ClaimedColumns(charges: seq<Store.Charge>, payRef: string, trxId: string, sender: Option<string>, i: nat)
    requires i < |charges|
    ensures |Claimed(charges, payRef, trxId, sender)| == |charges|
    ensures var c, after := charges[i], Claimed(charges, payRef, trxId, sender)[i];
            && (PendingUnder(c, payRef) ==>
                  && after.claimedTrxId == Some(trxId) && after.claimedSender == sender
                  && after.(claimedTrxId := c.claimedTrxId, claimedSender := c.claimedSender) == c)
            && (!PendingUnder(c, payRef) ==> after == c)
  {
  }

  /** The step is refused exactly when no pending charge has the reference. */
  lemma RefersMeans(charges: seq<Store.Charge>, payRef: string)
    ensures AnyRefers(charges, payRef) <==> exists c :: c in charges && PendingUnder(c, payRef)
  {
    if AnyRefers(charges, payRef) {
      var i :| 0 <= i < |charges| && Refers(charges[i], payRef);
      assert charges[i] in charges;
    }
  }

  method SelectGateway(db: Database, payRef: string, gateway: string) returns (r: Result<(), CheckoutError>)
    modifies db`charges
    ensures db.charges == Chosen(old(db.charges), payRef, gateway)
    ensures r == if AnyRefers(old(db.charges), payRef) then Ok(()) else Err(NotFound)
    ensures r.Err? ==> db.charges == old(db.charges)
  {
    var affected := AnyRefers(db.charges, payRef);
    db.charges := Chosen(db.charges, payRef, gateway);
    return if affected then Ok(()) else Err(NotFound);
  }

  method SubmitManual(db: Database, payRef: string, trxId: string, sender: Option<string>)
    returns (r: Result<(), CheckoutError>)
    modifies db`charges
    ensures db.charges == Claimed(old(db.charges), payRef, trxId, sender)
    ensures r == if AnyRefers(old(db.charges), payRef) then Ok(()) else Err(NotFound)
    ensures r.Err? ==> db.charges == old(db.charges)
  {
    var affected := AnyRefers(db.charges, payRef);
    db.charges := Claimed(db.charges, payRef, trxId, sender);
    return if affected then Ok(()) else Err(NotFound);
  }

  // ---- Verification ----

  /** `SELECT id FROM charges WHERE pay_ref = ?`. */
  function FindByPayRef(charges: seq<Store.Charge>, payRef: string): (r: Option<nat>)
    ensures r.Some? ==> r.value < |charges| && charges[r.value].payRef == Some(payRef)
    ensures r.None? ==> forall i :: 0 <= i < |charges| ==> charges[i].payRef != Some(payRef)
  {
    if charges == [] then None
    else if charges[|charges| - 1].payRef == Some(payRef) then Some(|charges| - 1)
    else FindByPayRef(charges[..|charges| - 1], payRef)
  }

  predicate Settles(e: SmsEvent, chargeId: nat) { e.chargeId == Some(chargeId) && e.matched }

  /** The newest matched event of the charge: ORDER BY received_at DESC LIMIT 1. */
  function NewestSettling(events: seq<SmsEvent>, chargeId: nat): (r: Option<SmsEvent>)
    ensures r.Some? ==> r.value in events && r.value.chargeId == Some(chargeId) && r.value.matched
    ensures r.Some? ==>
      forall e :: e in events && e.chargeId == Some(chargeId) && e.matched ==> e.receivedAt <= r.value.receivedAt
    ensures r.None? ==> forall e :: e in events ==> e.chargeId != Some(chargeId) || !e.matched
  {
    if events == [] then None else
      var rest, e := NewestSettling(events[..|events| - 1], chargeId), events[|events| - 1];
      assert events == events[..|events| - 1] + [e];
      if Settles(e, chargeId) && (rest.None? || rest.value.receivedAt <= e.receivedAt) then Some(e) else rest
  }

  datatype PublicStatus = PendingStatus | Completed | FailedStatus | ExpiredStatus

  datatype VerifyResult = VerifyResult(
    amount: string,
    currency: string,
    transactionId: Option<string>,
    sender: Option<string>,
    status: PublicStatus)

  function StatusOf(s: ChargeStatus): PublicStatus {
    match s
    case Pending => PendingStatus
    case Paid => Completed
    case Failed => FailedStatus
    case Expired => ExpiredStatus
  }

  function Verify(t: Tables, payRef: string): Result<VerifyResult, CheckoutError> {
    match FindByPayRef(t.charges, payRef)
    case None => Err(NotFound)
    case Some(id) =>
      var c := t.charges[id];
      var settled := NewestSettling(t.events, id);
      Ok(VerifyResult(
        FormatTwo(Hundredths(c.amountMinor)),
        c.currency,
        if settled.Some? then Some(settled.value.txnId) else c.claimedTrxId,
        c.claimedSender,
        StatusOf(c.status)))
  }

  /** What a merchant reads is what the row says, the TrxID of the newest settling message first. */
  lemma VerifyColumns(t: Tables, payRef: string)
    ensures Verify(t, payRef).Err? <==> forall c :: c in t.charges ==> c.payRef != Some(payRef)
    ensures Verify(t, payRef).Err? ==> Verify(t, payRef).error == NotFound
    ensures Verify(t, payRef).Ok? ==>
      exists id: nat ::
        && id < |t.charges| && t.charges[id].payRef == Some(payRef)
        && var c, r := t.charges[id], Verify(t, payRef).value;
           (&& r.currency == c.currency && r.sender == c.claimedSender
            && r.amount == FormatTwo(Hundredths(c.amountMinor))
            && (NewestSettling(t.events, id).Some? ==>
                  r.transactionId == Some(NewestSettling(t.events, id).value.txnId))
            && (NewestSettling(t.events, id).None? ==> r.transactionId == c.claimedTrxId)
            && (r.status == Completed <==> c.status == Paid) && (r.status == PendingStatus <==> c.status == Pending)
            && (r.status == FailedStatus <==> c.status == Failed)
            && (r.status == ExpiredStatus <==> c.status == Expired))
  {
    var found := FindByPayRef(t.charges, payRef);
    if found.Some? {
      assert t.charges[found.value] in t.charges;
    }
  }
}
