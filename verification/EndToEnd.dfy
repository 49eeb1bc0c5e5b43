/** From an amount in major units to a notified merchant, through every part of the engine. */
module EndToEnd {
  import opened Rows
  import opened Store
  import opened Gateway
  import opened Float64
  import opened Money
  import opened Handlers
  import Charge
  import Checkout
  import Ledger
  import Reports
  import Sms
  import Text
  import Webhook

  /** The text of a confirmation by its gateway, for an amount printed as a. */
  function Confirmation(g: GatewayId, a: string, sender: string, id: string): string {
    if g == Bkash then BkashText(a, sender, id) else NagadText(a, sender, id)
  }

  /** A printed payment of m. */
  ghost predicate Prints(m: int, a: string, sender: string, id: string) {
    && 1 <= m < INT_LIMIT && Text.Filter(NotComma, a) == Text.FixedText(m) && IsSender(sender) && IsTxnId(id)
    && exists whole, fraction :: IsAmountText(a, whole, fraction)
  }

  /** The name a gateway is addressed by, in any case. */
  predicate IsNameOf(name: string, g: GatewayId) {
    if g == Bkash then IsCasing(name, "bkash", "BKASH") else IsCasing(name, "nagad", "NAGAD")
  }

  lemma ConfirmationParses(g: GatewayId, name: string, m: int, a: string, sender: string, id: string,
                           ai: Option<ParsedTxn>)
    requires Prints(m, a, sender, id) && IsNameOf(name, g)
    ensures Parsed(name, Confirmation(g, a, sender, id), ai) == Some(ParsedTxn(g, id, Passage(m), Some(sender)))
  {
    var whole, fraction :| IsAmountText(a, whole, fraction);
    PrintParseRoundTrip(m, a, whole, fraction, sender, id);
    ReadBackIsPassage(m);
    ResolveIsByName(name);
  }

  /** The tables right after the checkout: one more pending charge. */
  lemma CheckoutOpens(t: Tables, req: Checkout.CreateCheckout, payRef: string, m: int)
    requires 1 <= m < INT_LIMIT && req.amount == Hundredths(m) && !Charge.OrderTaken(t.charges, payRef)
    ensures Apply(t, CreateCheckout(req, payRef, true)) == t.(charges := t.charges + [Checkout.RowOf(req, payRef)])
    ensures Checkout.RowOf(req, payRef).amountMinor == Passage(m)
  {
    Checkout.CheckoutHoldsAmount(t.charges, req, payRef, m);
  }

  lemma IngestSettles(t: Tables, p: ParsedTxn, c: nat, now: nat)
    requires !Sms.Recorded(t.events, p.gateway, p.txnId) && Sms.TheOne(t.charges, p, c)
    ensures Sms.IngestTables(t, p, now)
         == Charge.MarkPaidTables(t.(events := t.events + [Sms.EventRow(p, Some(c), now)]), c, now)
  {
    Sms.MatchIsExact(t.charges, p, c);
  }

  lemma MessageSettles(t: Tables, name: string, body: string, ai: Option<ParsedTxn>, p: ParsedTxn, c: nat, now: nat)
    requires Parsed(name, body, ai) == Some(p) && !Sms.Recorded(t.events, p.gateway, p.txnId)
    requires Sms.TheOne(t.charges, p, c)
    ensures Apply(t, ReceiveSms(name, body, ai, now))
         == Charge.MarkPaidTables(t.(events := t.events + [Sms.EventRow(p, Some(c), now)]), c, now)
  {
    MessageServed(t, name, body, ai, p, now);
    IngestSettles(t, p, c, now);
  }

  /** After any run, a checkout opened for m hundredths and then confirmed by a new message of
      either gateway, printed with or without commas, is paid: if the charge is the one the
      message can mean, the ledger moves to receivable what m comes back as, `verify` reports
      completed with that TrxID, and the webhook, if there is one, is due at once with the amount.
      Up to the limit all of it is exactly m, the amount `verify` prints included. */
  lemma CheckoutIsCollected(run: seq<Request>, req: Checkout.CreateCheckout, payRef: string, m: int,
                            g: GatewayId, name: string, a: string, sender: string, id: string,
                            ai: Option<ParsedTxn>, now: nat)
    requires req.amount == Hundredths(m) && !Charge.OrderTaken(After(run).charges, payRef)
    requires Prints(m, a, sender, id) && IsNameOf(name, g) && !Sms.Recorded(After(run).events, g, id)
    requires Sms.TheOne(After(run).charges + [Checkout.RowOf(req, payRef)],
                        ParsedTxn(g, id, Passage(m), Some(sender)), |After(run).charges|)
    ensures var t := After(run);
            var u := After(run + [CreateCheckout(req, payRef, true)]
                               + [ReceiveSms(name, Confirmation(g, a, sender, id), ai, now)]);
            && Ledger.AccountBalance(u.ledger, Ledger.MERCHANT_RECEIVABLE)
               == Ledger.AccountBalance(t.ledger, Ledger.MERCHANT_RECEIVABLE) + Passage(m)
            && Checkout.Verify(u, payRef).Ok?
            && Checkout.Verify(u, payRef).value.status == Checkout.Completed
            && Checkout.Verify(u, payRef).value.transactionId == Some(id)
            && (m <= EXACT_LIMIT ==>
                  Passage(m) == m && AmountToMinor(Checkout.Verify(u, payRef).value.amount) == Ok(m))
            && (req.webhookUrl.Some? ==>
                  && |u.deliveries| == |t.deliveries| + 1
                  && u.deliveries[|t.deliveries|].url == req.webhookUrl.value
                  && u.deliveries[|t.deliveries|].payload.amountMinor == Passage(m)
                  && u.deliveries[|t.deliveries|].payload.orderId == payRef
                  && u.deliveries[|t.deliveries|].payload.currency == req.currency
                  && Webhook.IsDue(u.deliveries[|t.deliveries|], now))
  {
    var t, c, p := After(run), |After(run).charges|, ParsedTxn(g, id, Passage(m), Some(sender));
    var first, second := CreateCheckout(req, payRef, true), ReceiveSms(name, Confirmation(g, a, sender, id), ai, now);
    var run1 := run + [first];
    var run2 := run1 + [second];
    assert run1[..|run|] == run && run2[..|run1|] == run1;
    CheckoutOpens(t, req, payRef, m);
    ConfirmationParses(g, name, m, a, sender, id, ai);
    MessageSettles(After(run1), name, second.body, ai, p, c, now);
    PostingMovesBalance(t.ledger, c, Checkout.RowOf(req, payRef));
    Collected(run2, payRef, c, p, now);
    if m <= EXACT_LIMIT { PassageIsExact(m); }
  }

  lemma Collected(run: seq<Request>, payRef: string, c: nat, p: ParsedTxn, now: nat)
    requires c < |After(run).charges| && After(run).charges[c].payRef == Some(payRef)
    requires After(run).charges[c].status == Paid && After(run).charges[c].amountMinor == p.amountMinor
    requires Sms.EventRow(p, Some(c), now) in After(run).events
    ensures Checkout.Verify(After(run), payRef).Ok?
    ensures var v := Checkout.Verify(After(run), payRef).value;
            v.status == Checkout.Completed && v.transactionId == Some(p.txnId)
            && (p.amountMinor <= EXACT_LIMIT ==> AmountToMinor(v.amount) == Ok(p.amountMinor))
  {
    Reports.VerifyAgrees(run, payRef, c);
    ChargeAgreement(run, c);
    assert Checkout.Settles(Sms.EventRow(p, Some(c), now), c);
  }
}
