/** Double-entry ledger: append-only transactions whose signed entries sum to zero. */
module Ledger {
  import opened Rows
  import opened Store

  const MERCHANT_RECEIVABLE: string := "merchant:receivable"
  const CUSTOMER_CLEARING: string := "customer:clearing"

  datatype LedgerError = Unbalanced(sum: int) | TooFewEntries | Db(cause: DbError)

  function Debit(account: string, amountMinor: int, currency: string): Entry {
    Entry(account, amountMinor, currency)
  }

  function Credit(account: string, amountMinor: int, currency: string): Entry {
    Entry(account, -amountMinor, currency)
  }

  function AmountOf(e: Entry): int { e.amountMinor }

  function EntryOn(account: string): Entry -> int {
    (e: Entry) => if e.account == account then e.amountMinor else 0
  }

  function EntryIn(currency: string): Entry -> int {
    (e: Entry) => if e.currency == currency then e.amountMinor else 0
  }

  function TxnOn(account: string): LedgerTxn -> int {
    (t: LedgerTxn) => Sum(EntryOn(account), t.entries)
  }

  function TxnIn(currency: string): LedgerTxn -> int {
    (t: LedgerTxn) => Sum(EntryIn(currency), t.entries)
  }

  /** Current balance of an account. */
  function AccountBalance(ledger: seq<LedgerTxn>, account: string): int {
    Sum(TxnOn(account), ledger)
  }

  function CurrencyTotal(ledger: seq<LedgerTxn>, currency: string): int {
    Sum(TxnIn(currency), ledger)
  }

  ghost predicate Balanced(ledger: seq<LedgerTxn>) {
    forall i :: 0 <= i < |ledger| ==> |ledger[i].entries| >= 2 && Sum(AmountOf, ledger[i].entries) == 0
  }

  /** What posting does to the ledger table when no statement fails. */
  function Posted(ledger: seq<LedgerTxn>, reference: nat, memo: string, entries: seq<Entry>)
    : Result<seq<LedgerTxn>, LedgerError>
  {
    if |entries| < 2 then Err(TooFewEntries)
    else if Sum(AmountOf, entries) != 0 then Err(Unbalanced(Sum(AmountOf, entries)))
    else Ok(ledger + [LedgerTxn(reference, memo, entries)])
  }

  /** INSERT INTO ledger_entries, for the transaction row just inserted. */
  function WithEntry(ledger: seq<LedgerTxn>, e: Entry): seq<LedgerTxn>
    requires ledger != []
  {
    var last := |ledger| - 1;
    ledger[last := ledger[last].(entries := ledger[last].entries + [e])]
  }

  /** Post a balanced transaction inside a database transaction, which is rolled back when one of
      its statements fails: the rows written so far are taken out again. `fault` names the statement
      that fails, if one does: 0 the transaction row, i + 1 the row of entry i, and beyond that
      the commit. */
  method Post(db: Database, reference: nat, memo: string, entries: seq<Entry>, fault: Option<nat>)
    returns (r: Result<(), LedgerError>)
    modifies db`ledger
    ensures fault.None? ==>
      match Posted(old(db.ledger), reference, memo, entries)
      case Ok(ledger) => r.Ok? && db.ledger == ledger
      case Err(e) => r == Err(e) && db.ledger == old(db.ledger)
    ensures fault.Some? ==> r.Err?
    ensures r.Err? ==> db.ledger == old(db.ledger)
    ensures r.Ok? ==> Posted(old(db.ledger), reference, memo, entries) == Ok(db.ledger)
    ensures Balanced(old(db.ledger)) ==> Balanced(db.ledger)
  {
    if |entries| < 2 {
      return Err(TooFewEntries);
    }
    var sum := Sum(AmountOf, entries);
    if sum != 0 {
      return Err(Unbalanced(sum));
    }
    var begun := db.ledger;
    if fault == Some(0) {
      return Err(Db(Unavailable));
    }
    db.ledger := begun + [LedgerTxn(reference, memo, [])];
    for i := 0 to |entries|
      invariant db.ledger == begun + [LedgerTxn(reference, memo, entries[..i])]
    {
      if fault == Some(i + 1) {
        db.ledger := begun;
        return Err(Db(Unavailable));
      }
      db.ledger := WithEntry(db.ledger, entries[i]);
      assert entries[..i + 1] == entries[..i] + [entries[i]];
    }
    if fault.Some? {
      db.ledger := begun;
      return Err(Db(Unavailable));
    }
    assert entries[..|entries|] == entries;
    return Ok(());
  }

  /** `post` compares only the overall sum, so the ledger stays balanced in every currency
      exactly when the entries themselves are. */
  lemma PostKeepsCurrencies(ledger: seq<LedgerTxn>, reference: nat, memo: string, entries: seq<Entry>)
    requires forall c :: CurrencyTotal(ledger, c) == 0
    requires Posted(ledger, reference, memo, entries).Ok?
    ensures (forall c :: CurrencyTotal(Posted(ledger, reference, memo, entries).value, c) == 0)
       <==> (forall c :: Sum(EntryIn(c), entries) == 0)
  {
    var after := Posted(ledger, reference, memo, entries).value;
    forall c ensures CurrencyTotal(after, c) == Sum(EntryIn(c), entries) {
      SumAppend(TxnIn(c), ledger, LedgerTxn(reference, memo, entries));
      assert CurrencyTotal(ledger, c) == 0;
    }
  }

  /** A debit in one currency against a credit in another is accepted. */
  lemma MixedCurrenciesAccepted()
    ensures var entries := [Debit(MERCHANT_RECEIVABLE, 5, "BDT"), Credit(CUSTOMER_CLEARING, 5, "USD")];
            var posted := Posted([], 0, "", entries);
            posted.Ok? && CurrencyTotal(posted.value, "BDT") == 5
  {
    var entries := [Debit(MERCHANT_RECEIVABLE, 5, "BDT"), Credit(CUSTOMER_CLEARING, 5, "USD")];
    PairSum(AmountOf, entries);
    PairSum(EntryIn("BDT"), entries);
    assert "USD"[0] != "BDT"[0];
    SumAppend(TxnIn("BDT"), [], LedgerTxn(0, "", entries));
    assert [] + [LedgerTxn(0, "", entries)] == [LedgerTxn(0, "", entries)];
  }

  lemma PairSum(f: Entry -> int, entries: seq<Entry>)
    requires |entries| == 2
    ensures Sum(f, entries) == f(entries[0]) + f(entries[1])
  {
    assert entries == [entries[0]] + [entries[1]];
    SumAppend(f, [entries[0]], entries[1]);
    SumAppend(f, [], entries[0]);
    assert [] + [entries[0]] == [entries[0]];
  }
}
