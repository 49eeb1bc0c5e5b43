/** The tables of the engine. A row's identifier (a UUID in the database) is its position:
    fresh when the row is inserted, never reused, and stable, since no row is ever deleted. */
module Store {
  import opened Rows
  import opened Gateway

  datatype ChargeStatus = Pending | Paid | Failed | Expired

  datatype Charge = Charge(
    orderId: string,
    amountMinor: int,
    currency: string,
    customerName: Option<string>,
    customerMsisdn: Option<string>,
    callbackUrl: Option<string>,
    status: ChargeStatus,
    payRef: Option<string>,
    gateway: Option<string>,
    claimedTrxId: Option<string>,
    claimedSender: Option<string>)

  datatype SmsEvent = SmsEvent(
    gateway: GatewayId,
    txnId: string,
    amountMinor: int,
    senderMsisdn: Option<string>,
    chargeId: Option<nat>,
    matched: bool,
    receivedAt: nat)

  /** A signed entry: debits positive, credits negative. */
  datatype Entry = Entry(account: string, amountMinor: int, currency: string)

  /** A ledger_transactions row with its ledger_entries rows. */
  datatype LedgerTxn = LedgerTxn(reference: nat, memo: string, entries: seq<Entry>)

  datatype InvoiceStatus = Unpaid | Settled | Refunded | Canceled

  datatype Invoice = Invoice(
    number: string,
    customerId: Option<string>,
    amountMinor: int,
    currency: string,
    status: InvoiceStatus,
    chargeId: Option<nat>,
    payRef: Option<string>)

  datatype InvoiceItem = InvoiceItem(invoiceId: nat, description: string, quantity: int, unitMinor: int)

  datatype DeliveryStatus = Queued | Delivered | Exhausted

  datatype Payload = Payload(
    event: string,
    chargeId: nat,
    orderId: string,
    amountMinor: int,
    currency: string,
    status: string)

  datatype Delivery = Delivery(
    chargeId: nat,
    url: string,
    payload: Payload,
    event: string,
    status: DeliveryStatus,
    attempts: int,
    maxAttempts: int,
    nextAttemptAt: int)

  /** What a statement can fail with: UNIQUE, CHECK, or anything else the store reports. */
  datatype DbError = UniqueViolation | CheckViolation | Unavailable

  datatype Tables = Tables(
    charges: seq<Charge>,
    events: seq<SmsEvent>,
    ledger: seq<LedgerTxn>,
    invoices: seq<Invoice>,
    items: seq<InvoiceItem>,
    deliveries: seq<Delivery>)

  function Empty(): Tables { Tables([], [], [], [], [], []) }

  /** The open database: its tables are updated in place, statement by statement. */
  class Database {
    var charges: seq<Charge>
    var events: seq<SmsEvent>
    var ledger: seq<LedgerTxn>
    var invoices: seq<Invoice>
    var items: seq<InvoiceItem>
    var deliveries: seq<Delivery>

    constructor ()
      ensures Snapshot() == Empty()
    {
      charges, events, ledger, invoices, items, deliveries := [], [], [], [], [], [];
    }

    function Snapshot(): Tables
      reads this
    {
      Tables(charges, events, ledger, invoices, items, deliveries)
    }
  }
}
