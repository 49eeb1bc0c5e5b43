# Settlement engine of a self-hosted SMS payment gateway, verified in Dafny

The engine turns a confirmation SMS of a mobile wallet (bKash or Nagad) into a settled charge. A
message is parsed, matched to the one pending charge it can mean, recorded once under
`(gateway, txn_id)`, posted to a double-entry ledger, and the charge and its invoice become paid; a
durable queue then notifies the merchant. This project models that path and the money arithmetic
around it, and proves what it keeps.

The state is the database: `Store.Database` has a field per table, and the handlers are methods that
update those fields statement by statement. Each method is proved equal to a function on
`Store.Tables`, and the theorems are about those functions. A row's identifier is its position, so it is
fresh and never reused. `UNIQUE` and `CHECK` constraints are branches of the inserts.

The system is modelled at three grains.

* **Statements** (`Protocol`, `ProtocolSafety`, `ProtocolOnce`, `Commutation`, `CustomerSteps`, `InvoiceLinks`,
  `OutlierRuns`). An ingest is seven statements. Any number of ingests interleave with each other and with every other
  handler, messages are replayed, and a crash can come between any two statements. Conservation,
  idempotency, ledger safety and append-only history hold in every reachable state. Ingests of
  different amounts commute, and the interleaved system refines the atomic one.
* **Requests** (`Handlers`, `InvoiceRuns`, `Reports`, `EndToEnd`). Whole handlers run one at a time. Here
  the events, the ledger, the charges, the invoices, the queue and the reports agree exactly.
  `Refinement` shows that each such run is a run of statements.
* **Worker** (`Webhook`, `WebhookWorker`). Polls, POSTs, UPDATEs, passing time, and losing a result after
  the POST.

Some claims one could expect do not hold, and the project says exactly when they do.

* A charge is not credited at most once under every interleaving: `mark_paid` (`src/charge.rs:111-134`) does
  not look at the status again. `ProtocolOnce.CreditsOnceIff` gives the exact condition for each charge: every
  posting finds it pending, with no other ingest between posting and status flip. `RecordsOnceIff` is the same
  for the recorded messages, and `SettlesOnceCanFail` is a run that credits twice.
* A paid charge can leave its invoice unpaid: `issue_payment` (`src/invoice.rs:146-162`) writes the link in a
  statement of its own, and the charge can be settled before. `InvoiceLinks.PaymentMissesInvoiceIff` says when.
* `post` (`src/ledger.rs:58-61`) compares one overall sum, so it accepts a debit in one currency against a
  credit in another. `Ledger.PostKeepsCurrencies` says when every currency stays balanced. The only
  caller always passes one currency, so in reachable states they all do (`ProtocolSafety.LedgerSafety`).
* Amounts do not survive `/ 100.0` and `* 100.0` without limit. They do up to 3518437208883201 poisha, that is
  100 * 2^45 + 1; the next one comes back as 3518437208883203, so an invoice for 3518437208883202 is paid with one
  poisha more (`Money.ExactUpTo`, `InvoiceRuns.PaidInvoiceIsFunded`).
* `verify` prints every amount a checkout can hold up to 2^53 + 3 exactly, and 2^53 + 4 as one poisha less
  (`Printing.PrintsUpTo`). Not every integer is such an amount: it is the rounded product of a binary64 number.
* The outlier rule admits five samples (`src/fraud.rs:23`) but cannot fire with ten or fewer while the total is
  below 2^53. Beyond it can: a run that settles nine charges of 1 and one of 181584089245358816 poisha puts the
  binary64 threshold at 181584089245358784. `OutlierRuns.OutlierBoundIff` gives the exact condition on total and
  number, over reachable states.

Two more observations about the code came out of the proofs.

* The sender rule compares the text of the numbers and matching compares their last ten digits, so a
  number declared with a country code is matched and then reported.
* A message whose ingest crashes between its event and its posting is never credited: the replay is refused. A
  notification is lost exactly when an ingest stops between the status flip and the enqueue.

The regular expressions are matched by a small greedy matcher; `Patterns` proves that each of the six matches and
captures exactly what its expression says, character by character.

Binary64 values are reals, rounded as section 4.3.1 of IEEE 754-2019 (roundTiesToEven) defines it. The amount of
a checkout is of the subset type `Float64.Double`, which holds only values of the format.

The comment on `mark_paid` (`src/charge.rs:108-110`) names the status flip before the posting; the code posts
first, and the model follows the code.

## Model

| member | source | states |
|---|---|---|
| Float64.FlIsNearest | src/gateway.rs:50 | a finite rounded result, of either sign, is at least as close to the exact one as any binary64 number |
| Float64.FlInFormat | src/gateway.rs:50 | and is itself a binary64 number, of at most 53 significant bits |
| Float64.FlIsBinary64 | src/checkout.rs:90 | so every operation delivers an `f64`, as the amount of a checkout is |
| Float64.FlClose | src/invoice.rs:141 | for exact results from 0.001 to 2^63 the relative error is at most 2^-53 |
| Float64.FlWithin | src/invoice.rs:141 | and the absolute error at most half the last place |
| Float64.RoundMeans | src/gateway.rs:50 | `round() as i64` is the nearest integer, saturates at both ends, and sends NaN to zero |
| Float64.HalvesGoAway | src/gateway.rs:50 | `f64::round` sends ties away from zero |
| Float64.OfIntExact | src/invoice.rs:141 | integers of fewer than 53 bits, of either sign, convert to binary64 exactly |
| Money.PassageIsExact | src/checkout.rs:90 | for every 1 <= m <= 100 * 2^45 + 1, `(m as f64 / 100.0 * 100.0).round() as i64` is m |
| Money.ExactUpTo | src/checkout.rs:90 | that limit is sharp: all amounts up to a bound come back if and only if the bound is at most it |
| Money.PassageFails | src/invoice.rs:141 | the next amount, 35184372088832.02, comes back as one poisha more |
| Money.PassageIsNear | src/checkout.rs:90 | below 2^53 every amount comes back within one poisha, and positive |
| Text.FormatIsExact | src/checkout.rs:251 | for every integer 1 <= m <= 100 * 2^46, `{:.2}` of m / 100 prints the digits of m exactly |
| Text.FormatUpTo | src/checkout.rs:251 | as an expression over all integers, that limit is sharp: the next one, which no checkout can hold, would print as one poisha more |
| Printing.CheckoutPrints | src/checkout.rs:90-251 | every amount a checkout can hold, the rounded product of some `f64`, prints as itself up to 2^53 + 3 |
| Printing.PrintsUpTo | src/checkout.rs:90-251 | that limit is sharp: 90071992547409.953125 is held as 2^53 + 4 and prints as one poisha less |
| Gateway.CommasIgnored | src/gateway.rs:43-51 | commas anywhere in an amount do not change what it reads as |
| Gateway.ResolveIsByName | src/gateway.rs:34-40 | exactly the casings of b-k-a-s-h resolve to bKash, of n-a-g-a-d to Nagad, and no other name to anything |
| Gateway.AmountTextRoundTrip | src/gateway.rs:43-51 | reading back the two-decimal print of m, commas or not, gives m, for every 1 <= m <= 100 * 2^45 + 1 |
| Gateway.AmountTextUpTo | src/gateway.rs:43-51 | that limit is sharp |
| Gateway.WholeAmount | src/gateway.rs:42-51 | digits without decimals, commas or not, read as so many taka |
| Gateway.AmountFailsIff | src/gateway.rs:44-48 | an amount is refused exactly if its digits and dots hold two dots or no digit |
| Gateway.ReadBackIsPassage | src/gateway.rs:43-51 | below 2^53 text reads as what the amount itself comes back as |
| Gateway.SearchIsLeftmost | src/gateway.rs:56-59 | a search answers with the match at the first position where the pattern matches |
| Patterns.MatchIff | src/gateway.rs:56-93 | greedy reading that takes nothing back finds a field exactly where the text can be divided as the pattern says |
| Patterns.BkashTxidIff | src/gateway.rs:56 | the bKash id pattern matches exactly "TrxID" in any case, blanks or colons, and letters and digits as far as they go |
| Patterns.BkashAmountIff | src/gateway.rs:57-58 | the bKash amount pattern matches exactly the texts of its two alternatives, with blanks, k and dot optional and decimals as far as they go |
| Patterns.BkashSenderIff | src/gateway.rs:59 | the bKash sender pattern matches exactly "from" in any case, blanks, and 01 with nine digits |
| Patterns.NagadTxidIff | src/gateway.rs:89-90 | the Nagad id pattern, likewise, after "TxnID" or "TrxID" |
| Patterns.NagadAmountIff | src/gateway.rs:91-92 | the Nagad amount pattern, likewise, after "Amount", blanks or colons, "Tk" and an optional dot |
| Patterns.NagadSenderIff | src/gateway.rs:93 | the Nagad sender pattern, likewise, after "Sender" |
| Patterns.ParseMeans | src/gateway.rs:68-119 | a message is read as the leftmost id, the leftmost amount if readable, and the leftmost sender if any; without id or amount it does not match |
| Gateway.PrintParseRoundTrip | src/gateway.rs:56-119 | a printed bKash or Nagad confirmation of any amount parses to exactly the id and sender printed and the amount its text reads as, which is the amount printed up to 100 * 2^45 + 1 |
| Gateway.BkashParsed | src/gateway.rs:68-85 | the bKash half, for any amount text that denotes m |
| Gateway.NagadParsed | src/gateway.rs:102-119 | the Nagad half, for any amount text that denotes m |
| Ledger.Post | src/ledger.rs:48-86 | rows are written one by one and taken out again when a statement fails, so all of a transaction is written or none; unbalanced and short transactions are refused; the ledger stays balanced |
| Ledger.PostKeepsCurrencies | src/ledger.rs:55-61 | every currency still sums to zero if and only if the posted entries do so in every currency |
| Ledger.MixedCurrenciesAccepted | src/ledger.rs:58-61 | a debit in one currency against a credit in another is accepted |
| Charge.Create | src/charge.rs:57-87 | a positive amount under a new order id is inserted as a pending row; each error exactly when it should be, and then nothing changes |
| Charge.InsertedMeans | migrations/0002_charges_ledger.sql:9-24 | a charge row is inserted if and only if its amount is positive and no row has its order |
| Charge.RowColumns | src/charge.rs:64-77 | the row carries the requested order, amount, currency, name, number and callback, each in its column |
| Charge.SettlementBalances | src/charge.rs:114-123 | the entries of a settlement sum to zero, in total and in every currency, and debit receivable and credit clearing by the amount |
| Charge.MarkPaid | src/charge.rs:111-155 | ledger, status, invoices and queue change together as the statements say; an unknown charge changes nothing |
| Charge.MarkPaidColumns | src/charge.rs:111-155 | column by column: the status, the two ledger entries and the memo, the invoices, and a delivery with the order, amount and currency of the charge |
| InvoiceSettlement.SettleForCharge | src/invoice.rs:170-180 | afterwards no invoice of the charge is unpaid; those that were are paid and otherwise unchanged; no other invoice is touched |
| InvoiceSettlement.SettlingsCommute | src/invoice.rs:168-180 | settling a charge twice is settling it once; the order of two charges does not matter |
| Invoice.Create | src/invoice.rs:68-105 | the invoice for the sum of its lines and one item row per line, or an error and no change |
| Invoice.DraftedMeans | src/invoice.rs:68-105 | which check refuses a draft, and the columns of the invoice and of each item |
| Invoice.ItemRowsTotal | src/invoice.rs:69-102 | the stored items add up to what the invoice is for |
| Invoice.IssuePayment | src/invoice.rs:130-165 | opens a checkout for the invoice and links the charge found under its reference |
| Invoice.IssuedColumns | src/invoice.rs:136-162 | the issued charge has the currency and no customer; the invoice keeps the new reference and is otherwise unchanged |
| Invoice.ErrorsRead | src/invoice.rs:54-64 | how each error of a checkout reads as one of issuing |
| Invoice.IssueErrors | src/invoice.rs:130-146 | issuing fails on no such invoice, or as its checkout does |
| Invoice.IssuedChargeMatches | src/invoice.rs:136-162 | whatever the amount, that charge is the new, pending one, and holds what the invoice amount comes back as |
| Invoice.IssueSucceeds | src/invoice.rs:136-146 | issuing succeeds for every amount below 2^53 under a new reference; up to 100 * 2^45 + 1 the charge is for exactly the invoice amount |
| Checkout.Create | src/checkout.rs:75-127 | the checkout row, or the error of the first check that fails |
| Checkout.OpenedMeans | src/checkout.rs:80-121 | which check refuses, and the columns of the row: reference, amount, currency, name, number, callback |
| Checkout.TinyAmountsReachTheTable | src/checkout.rs:80-90 | a positive amount is refused by the CHECK of the table, not by the code, if and only if its product with 100 is below one half |
| Checkout.CheckoutHoldsAmount | src/checkout.rs:90-121 | a checkout of m hundredths, 1 <= m < 2^53, is accepted and holds what m comes back as: m itself up to 100 * 2^45 + 1 |
| Checkout.SelectGateway | src/checkout.rs:170-181 | only pending charges with the reference change; not found exactly when there is none |
| Checkout.ChosenColumns | src/checkout.rs:170-181 | the gateway of the pending charges with the reference is written, and no other column or row |
| Checkout.SubmitManual | src/checkout.rs:185-204 | likewise for the claimed TrxID and sender |
| Checkout.ClaimedColumns | src/checkout.rs:185-204 | the claimed TrxID and sender are written, each in its column, and no other column or row |
| Checkout.RefersMeans | src/checkout.rs:177-203 | not found exactly when no pending charge has the reference |
| Checkout.NewestSettling | src/checkout.rs:232-237 | a matched event of the charge received last, or none if there is none |
| Checkout.VerifyColumns | src/checkout.rs:224-262 | not found exactly without such a charge; else its currency, claimed sender, amount and status, and the TrxID of the newest settling message or the claim |
| Sms.NormalizeIdempotent | src/sms.rs:95-103 | normalising a number twice is normalising it once |
| Sms.NormalizeIgnoresFormat | src/sms.rs:92-103 | separators never matter, nor do digits before a number of ten or more |
| Sms.NormalFormIff | src/sms.rs:92-103 | two numbers have one normal form if and only if their digits agree on the last ten places, or, if one has fewer, altogether |
| Sms.CandidatesAreRows | src/sms.rs:114-120 | the candidates are exactly the pending charges of the amount, each once |
| Sms.MatchIsExact | src/sms.rs:113-143 | a charge is returned if and only if it is the only pending one of the amount, or the only one of them with the sender's number |
| Sms.MatchIsBySubscriber | src/sms.rs:113-143 | the same in terms of the columns: status, amount, and the last ten digits of the declared and the paying number |
| Sms.StrangerSettlesNothing | src/sms.rs:126-140 | with two pending charges of the amount, a sender who differs from every declared number in one of the last ten digits settles nothing |
| Sms.MatchIsOrderFree | src/sms.rs:114-143 | the order of the candidates does not matter |
| Sms.MatchIgnoresFormat | src/sms.rs:126-140 | nor does the way the numbers are written |
| Sms.Ingest | src/sms.rs:36-90 | the tables after a message, and the result: unknown gateway, unparsable, duplicate, or recorded with the match |
| Sms.ParseBodyMeans | src/sms.rs:39-52 | what the patterns read stands; else the fallback counts, under the gateway that was asked |
| Sms.IngestColumns | src/sms.rs:54-83 | the columns a message is recorded with; one seen before changes nothing |
| Protocol.Always | src/sms.rs:54-83 | in every reachable state events, transactions, queued deliveries and ingests agree with the charges they name |
| Protocol.OkKept | src/charge.rs:111-155 | every single step of any handler keeps that |
| ProtocolSafety.Conservation | src/sms.rs:54-83 | in every reachable state, for any weight of charge and amount, matched events weigh what the ledger does plus what is recorded and not yet posted |
| ProtocolSafety.ReceivableConservation | src/sms.rs:54-83 | matched inflow is the receivable balance plus recorded but unposted amounts; clearing is minus receivable |
| ProtocolSafety.QuiescentConservation | src/ledger.rs:88-97 | matched inflow is the receivable balance if and only if no ingest stands, or crashed, between event and posting |
| ProtocolSafety.OnePerKey | src/sms.rs:56-78 | each `(gateway, txn_id)` has at most one event, written by one ingest; the ledger has one transaction per ingest that posted |
| ProtocolSafety.ReplayNeverCreditsTwice | src/sms.rs:73-83 | of all ingests of one key, under any interleaving, replay or crash, at most one posts |
| ProtocolSafety.CrashStops | src/sms.rs:54-83 | a crash changes no table and stops the ingest where it stands, for good |
| ProtocolSafety.CrashStrandsPayment | src/sms.rs:73-83 | after a crash between event and posting no ingest of that key ever posts |
| ProtocolSafety.CreditableIffAlive | src/sms.rs:73-83 | a message recorded and not yet posted can still be credited if and only if the ingest that recorded it is alive |
| ProtocolSafety.ChargeCounts | src/charge.rs:111-134 | a charge's events are its unmarked holders plus its markings, its transactions are its postings, and it is paid exactly if it was marked |
| ProtocolSafety.LedgerSafety | src/ledger.rs:46-86 | every transaction and every currency balances; a queued delivery describes a paid charge; a paid charge has a transaction |
| ProtocolSafety.DeliveriesTell | src/charge.rs:139-153 | in every reachable state a queued delivery tells the callback of a paid charge its own order, amount and currency |
| ProtocolSafety.TransactionsTell | src/charge.rs:114-123 | in every reachable state a transaction debits merchant:receivable and credits customer:clearing by the amount of its charge |
| ProtocolSafety.NotifiedExactly | src/charge.rs:139-153 | a charge with a callback has as many deliveries as ingests that ran to the end for it, so a lost notification is exactly an ingest stopped between status flip and enqueue |
| ProtocolSafety.AppendOnly | src/ledger.rs:3-6 | later states extend ledger and events, and what is paid stays paid on the same terms |
| ProtocolOnce.RecordsOnceIff | src/sms.rs:54-83 | for each charge: at most one matched event if and only if every hit on it was, when recorded, still pending and held by no other ingest |
| ProtocolOnce.CreditsOnceIff | src/charge.rs:111-134 | for each charge: at most one ledger transaction if and only if every posting for it found it pending and no ingest between posting and status flip |
| ProtocolOnce.TxnsWithinEvents | src/charge.rs:114-123 | a charge never has more ledger transactions than matched events |
| ProtocolOnce.NoOverlapSettlesOnce | src/sms.rs:54-83 | if ingests of one amount do not overlap between read and status update, one that crashed before its event aside, each charge of that amount has at most one event and one transaction, and, unless some ingest stands between its event and the status flip, is paid exactly when it has both |
| ProtocolOnce.OverlapCreditsTwice | src/charge.rs:111-134 | in any state where two messages of different keys are about to record one charge, both can be recorded against it and both posted |
| ProtocolOnce.SettlesOnceCanFail | src/charge.rs:111-134 | for any charge and any two payments of its amount there is a run that posts both |
| Commutation.SameMatch | src/sms.rs:113-143 | an ingest matches as if the ingests of other amounts were not there |
| Commutation.InterleavingsAgree | src/sms.rs:54-83 | any two complete interleavings of ingests with different amounts and keys end with the same tables up to row order and times |
| Commutation.UninterruptedIsAtomic | src/sms.rs:36-90 | seven statements of one ingest with nothing between are the atomic handler |
| Commutation.InterleavingRefinesAtomic | src/sms.rs:36-90 | every such interleaving ends as handling the messages atomically one after the other |
| CustomerSteps.CustomerStepsDoNotSettle | src/checkout.rs:169-204 | deleting all customer steps from any run leaves events, ledger, invoices, queue and the terms and status of charges as they were |
| Refinement.RequestsRefineStatements | src/sms.rs:36-90 | a run of whole requests has the same tables as the run of their statements, one request after the other |
| Refinement.DraftSimulated | src/invoice.rs:78-102 | drafting an invoice is inserting it and then its items one by one |
| InvoiceLinks.UnpaidIff | src/invoice.rs:146-180 | an invoice linked while unpaid is unpaid at the end if and only if nothing has settled its charge since the link |
| InvoiceLinks.PaymentMissesInvoiceIff | src/invoice.rs:146-162 | a paid charge has its invoice unpaid if and only if it was settled before the link was written and not since, unless an ingest stands between status flip and invoices |
| InvoiceLinks.PaymentCanMissInvoice | src/invoice.rs:146-162 | whenever an invoice can be issued and a message can mean its new charge, that can happen |
| Handlers.Serve | src/sms.rs:36-90 | serving a request on the open database is the function the theorems are about |
| Handlers.ParsedByName | src/sms.rs:39-52 | which gateway reads a message, by the letters of the name it was sent under |
| Handlers.OthersAreQuiet | src/checkout.rs:183-204 | no request but an inbound message touches events, ledger or the status of a charge |
| Handlers.AlwaysAgreed | src/charge.rs:108-155 | after any run of requests counts and totals of events, ledger, charges and queue agree |
| Handlers.ChargeAgreement | src/charge.rs:108-155 | a charge is paid if and only if one event and one transaction refer to it, with its amount, and its callback is then queued exactly once |
| InvoiceRuns.AlwaysLinked | src/invoice.rs:69-165 | every invoice is for the sum of its items; its linked charge is for what that amount comes back as, and is unpaid while it is |
| InvoiceRuns.PaidInvoiceIsFunded | src/invoice.rs:123-180 | a paid invoice was linked, while unpaid, to a charge whose one transaction debits receivable by what the sum of the items comes back as: the sum itself up to 100 * 2^45 + 1, one poisha more at the next |
| InvoiceRuns.UnpaidInvoiceIsUnfunded | src/invoice.rs:168-180 | the charge an unpaid invoice is linked to is pending and nothing was posted for it |
| Reports.ReconcileAgrees | src/reconcile.rs:20-39 | settled total = receivable = minus clearing = sum of paid charges; settled plus pending is the number of charges |
| Reports.ReportsByName | src/reconcile.rs:20-39 | the report named "bkash" totals and counts exactly the matched bKash events, "nagad" the Nagad ones; and every report counts the pending charges |
| Reports.IngestIsReported | src/reconcile.rs:18-29 | a message that settles a charge under the name of a gateway is added to the report of that gateway and no other |
| Reports.GatewaysAddUp | src/reconcile.rs:21-27 | the reports by gateway add up to the unscoped one; any other name reports nothing |
| Reports.AlwaysKeyed | src/checkout.rs:96-121 | public references are unique because they are order ids |
| Reports.AlwaysHeld | src/checkout.rs:90-121 | every charge with a public reference is for the rounded product of some `f64` |
| Reports.VerifyAgrees | src/checkout.rs:224-262 | completed if and only if settled, with the TrxID of the one settling message, else the claim; the amount prints exactly up to 2^53 + 3, and reads back up to 100 * 2^45 + 1 and from 100 * 2^46 to 2^53 |
| EndToEnd.CheckoutIsCollected | src/checkout.rs:75-127 | a checkout of m hundredths, m < 2^53, confirmed by a printed message under the name of its gateway moves what m comes back as, m itself up to 100 * 2^45 + 1, verifies as completed with that TrxID, and queues its webhook, due at once, with the reference, amount and currency |
| Webhook.Enqueue | src/webhook.rs:19-38 | the queue grows by one row for that url and payload, pending, unattempted, and due from now on and not before |
| Webhook.EnqueuedIsTaken | src/webhook.rs:92-98 | such a row is in the next batch unless that is full of rows due no later |
| Webhook.BackoffIsCappedPower | src/webhook.rs:41-43 | clamp, cast and saturation are invisible: min(2^a, 3600), monotone |
| Webhook.ScheduleClosedForm | src/webhook.rs:41-43 | the delays before attempt m sum to 2^m - 2 up to 12, then 3600 more each |
| Webhook.DeliverOne | src/webhook.rs:106-172 | the one row changes as the outcome and the attempts say, no other |
| Webhook.AllDueSorted | src/webhook.rs:92-95 | exactly the due rows, each once, the longest due first |
| Webhook.DueBatchIsBatch | src/webhook.rs:92-98 | the first twenty of them answer the query |
| Webhook.DrainDue | src/webhook.rs:91-104 | the loop delivers the batch in order and stops at the first failing UPDATE |
| Webhook.DrainedRows | src/webhook.rs:91-104 | a full drain attempts every row of the batch once and changes no other row |
| WebhookWorker.DrainIsRun | src/webhook.rs:91-104 | the loop and the worker's steps leave the same table |
| WebhookWorker.DrainStops | src/webhook.rs:100-104 | a drain that stops changes no row; stopped after a POST, that POST was made and is not recorded |
| WebhookWorker.LifeOfDelivery | src/webhook.rs:106-172 | pending: attempts left and all failed; failed: exactly the maximum, all failed; delivered: one success, the last; attempts counts them |
| WebhookWorker.RetrySchedule | src/webhook.rs:156-168 | POST m, of at most eight, comes at least 2^m - 2 seconds after the first; a pending row is due exactly its backoff after its last |
| WebhookWorker.RowOverRun | src/webhook.rs:124-172 | a row changes only by being attempted; delivered and failed rows never change |
| WebhookWorker.BudgetStep | src/webhook.rs:113-172 | each delivery strictly lowers the attempts left over all pending rows |
| WebhookWorker.TotalWorkBounded | src/webhook.rs:144-172 | recorded POSTs plus attempts left never exceed eight per row |
| WebhookWorker.OverdueShrinks | src/webhook.rs:156-168 | once the clock has passed t no row joins those pending and due by t |
| WebhookWorker.BatchTakesOverdue | src/webhook.rs:92-98 | any answer of the query takes twenty of them, or all |
| WebhookWorker.NoStarvation | src/webhook.rs:91-104 | after c completed drains at most k - 20c of k overdue rows are left; after k/20, rounded up, all were attempted, whatever else happened |
| Fraud.Scan | src/fraud.rs:40-50 | the report holds exactly the anomalies there are, with kind, severity, TXID and charge: an event of each gateway for one TXID; paying and declared number known and different; an amount above the threshold among at least five; and how many |
| Fraud.DuplicatesAreExact | src/fraud.rs:54-72 | a TXID is reported, once, if and only if both gateways recorded it |
| Fraud.DuplicatesAreRepeats | src/fraud.rs:52-58 | in reachable states that is exactly when it has more than one row |
| Fraud.PrefixRaisesAlarm | src/fraud.rs:74-83 | a number declared with any prefix matches its payer and is reported all the same |
| Reports.MismatchIsReportedIff | src/fraud.rs:74-95 | after any run, a message that settles a charge has it reported exactly if sender and declared number are known and not the same text |
| Fraud.OutlierBoundExact | src/fraud.rs:97-116 | with the exact average fewer than a tenth of the matched rows are flagged, whatever the amounts |
| Fraud.ThresholdIsTenfold | src/fraud.rs:109 | when ten times the average is whole, the threshold is exactly that, for totals up to 2^49 |
| Fraud.OutlierBound | src/fraud.rs:98-116 | as computed in binary64: so too whenever a tenth of the rows above the computed threshold would exceed the total |
| Fraud.SmallTotalsUnreached | src/fraud.rs:98-116 | it holds for every total below 2^53 |
| Fraud.OutliersOverRuns | src/fraud.rs:98-116 | in reachable states with a total below 2^53, or under that condition, fewer than a tenth are flagged, and none with ten samples or fewer |
| OutlierRuns.SettleAll | src/sms.rs:36-90 | for any positive amounts some run opens and settles a charge of each, under different orders and TrxIDs |
| OutlierRuns.OutlierBoundIff | src/fraud.rs:98-116 | that condition is exact over reachable states: for any total and number, every run with them has fewer than a tenth flagged if and only if it holds |
| OutlierRuns.TenCanFire | src/fraud.rs:98-116 | beyond, a run of ten samples can fire: nine of 1 and one of 181584089245358816 |
| OutlierRuns.ElevenCanFire | src/fraud.rs:106-116 | a run with eleven samples, ten of 1 and one of 1000, has one flagged |
| Rows.SumPermutation | src/reconcile.rs:21-24 | a total over a table does not depend on the order of its rows |

## Left out

- HTTP routes, authentication, rate limits, pages, settings, customers, activity log and device pairing: no invariant of their own.
- The AI fallback is a parameter that returns some transaction or none; the domain whitelist is a boolean; fresh references and the clock are parameters.
- Payment links: they only call `create_checkout` with `amount_minor as f64 / 100.0`, which `Checkout.CheckoutHoldsAmount` covers; their quantity does not cap opens.
- Columns nothing here reads are dropped: timestamps other than `received_at` and `next_attempt_at`, the SMS fingerprint, `parse_source`, email, return URL, metadata, `last_error`. So are `get_public_charge` and the list queries, which only copy columns.
- The detail sentence of an anomaly is dropped; kind, severity, TXID and charge are kept.
- The signature and headers of a webhook POST: cryptography of a library. A payload is a record, not its JSON bytes.
- Text is ASCII: the case folding and digits of other scripts in the patterns are not modelled.
- Sums of amounts and counters are unbounded integers: an overflow of the 64-bit sums is not modelled. The saturating cast of amounts is.
- Each SQL statement is atomic, as is the ledger transaction. A statement that fails with anything but a constraint error is a crash at that point, except inside `post`.
- Rows with equal sort keys: `verify` and the due query may return any of them in SQL; `Checkout.NewestSettling` takes the last inserted, and `WebhookWorker` allows every order.
- WebhookWorker.LifeOfDelivery: when a POST is made and its UPDATE is lost, the counts are of the recorded POSTs only.
