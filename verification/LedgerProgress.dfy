/** What one call of the ledger undoes of another. */
module LedgerProgress {
  import opened Common
  import opened Ledger
  import opened LedgerInvariant
  import opened LedgerMoney
  import opened LedgerSteps

  // ----------------------------------------------------------------------------------------- inverses

  /** The ledger with one more payment that was reversed: nothing else is different. */
  function WithReversedPayment(db: Db, target: Target, account: Id, amount: int, paidAt: Time, now: Time): Db {
    db.(payments := db.payments + [Payment(target, account, amount, paidAt, Some(now))],
        transactions := db.transactions
          + [Transaction(|db.payments|, target, account, KindOf(target), amount, paidAt, Some(now))])
  }

  /** Reversing the payment that was just posted. */
  lemma PostedReversed(db: Db, posted: Db, target: Target, account: Id, amount: int, paidAt: Time, now: Time)
    requires Paired(db.payments, db.transactions) && MatchingOk(db.entries, db.transactions)
    requires posted.payments == Posted(db, target, account, amount, paidAt).payments
    requires posted.transactions == Posted(db, target, account, amount, paidAt).transactions
    requires posted.entries == db.entries
    ensures Reversed(posted, |db.payments|, now).Ok?
    ensures var undone, expected := Reversed(posted, |db.payments|, now).value, WithReversedPayment(db, target, account, amount, paidAt, now);
            undone == posted.(payments := expected.payments, transactions := expected.transactions)
  {
  }

  /** A sale status that fits its receivables is found again from them. */
  lemma SyncedAgain(db: Db, sale: Id, status: SaleStatus)
    requires SalesOk(db.sales, db.receivables) && sale < |db.sales|
    requires status == Ativa || status == Quitada || status == db.sales[sale].status
    requires db.sales[sale].status == Ativa || db.sales[sale].status == Quitada || status == db.sales[sale].status
    ensures SyncSale(db.(sales := db.sales[sale := db.sales[sale].(status := status)]), sale) == db
  {
  }

  lemma PaymentOnSaleUndone(db: Db, id: Id, account: Id, amount: Positive, paidAt: Time, now: Time, later: Time)
    requires Paired(db.payments, db.transactions) && MatchingOk(db.entries, db.transactions)
    requires SalesOk(db.sales, db.receivables) && ReceivablesOk(db.receivables, |db.sales|)
    requires RecordReceivablePayment(db, id, account, amount, paidAt, now).Ok?
    ensures ReverseReceivablePayment(RecordReceivablePayment(db, id, account, amount, paidAt, now).value, id, |db.payments|, later)
         == Ok(WithReversedPayment(db, ReceivableTarget(id), account, amount, paidAt, later))
  {
    var row := db.receivables[id];
    var target := ReceivableTarget(id);
    assert ReceivableOk(row, |db.sales|);
    var paid := RecordReceivablePayment(db, id, account, amount, paidAt, now).value;
    PostedReversed(db, paid, target, account, amount, paidAt, later);
    assert ReceivableReopened(ReceivablePaid(row, amount, paidAt), row.paid) == row;
    assert paid.receivables[id := row] == db.receivables;
    SyncedAgain(db, row.sale, paid.sales[row.sale].status);
    SyncIgnoresPayments(db, paid, row.sale, WithReversedPayment(db, target, account, amount, paidAt, later));
  }

  /** Reversing a payment on a receivable restores everything but the history: the row, the sale, the reconciliation. */
  lemma ReceivablePaymentUndone(db: Db, id: Id, account: Id, amount: Positive, paidAt: Time, now: Time, later: Time)
    requires Inv(db) && RecordReceivablePayment(db, id, account, amount, paidAt, now).Ok?
    ensures ReverseReceivablePayment(RecordReceivablePayment(db, id, account, amount, paidAt, now).value, id, |db.payments|, later)
         == Ok(WithReversedPayment(db, ReceivableTarget(id), account, amount, paidAt, later))
  {
    PaymentOnSaleUndone(db, id, account, amount, paidAt, now, later);
  }

  lemma SyncIgnoresPayments(db: Db, paid: Db, sale: Id, expected: Db)
    requires sale < |db.sales| == |paid.sales| && paid.sales == db.sales[sale := db.sales[sale].(status := paid.sales[sale].status)]
    requires SyncSale(db.(sales := paid.sales), sale) == db
    requires expected == db.(payments := expected.payments, transactions := expected.transactions)
    ensures SyncSale(expected.(sales := paid.sales), sale) == expected
  {
  }

  /** The same for a payable: its commission is DEVIDA again, or its return unpaid; only a payment date is dropped. */
  lemma PayablePaymentUndone(db: Db, id: Id, account: Id, amount: Positive, paidAt: Time, now: Time, later: Time)
    requires Inv(db) && RecordPayablePayment(db, id, account, amount, paidAt, now).Ok?
    ensures ReversePayablePayment(RecordPayablePayment(db, id, account, amount, paidAt, now).value, id, |db.payments|, later)
         == Ok(WithReversedPayment(db.(payables := db.payables[id := db.payables[id].(paidAt := None)]),
                                   PayableTarget(id), account, amount, paidAt, later))
  {
    var row := db.payables[id];
    var undated := db.(payables := db.payables[id := row.(paidAt := None)]);
    var target := PayableTarget(id);
    assert PayableOk(row) && OriginOk(row, db.commissions, db.investorReturns);
    var paid := RecordPayablePayment(db, id, account, amount, paidAt, now).value;
    PostedReversed(db, paid, target, account, amount, paidAt, later);
    assert PayableReopened(PayablePaid(row, amount, paidAt), row.paid) == row.(paidAt := None);
    assert paid.payables[id := row.(paidAt := None)] == undated.payables;
    SourceRestored(undated, row.(paidAt := None), PayablePaid(row, amount, paidAt), paid,
                   WithReversedPayment(undated, target, account, amount, paidAt, later));
  }

  lemma SourceRestored(db: Db, row: Payable, settled: Payable, paid: Db, expected: Db)
    requires OriginOk(row, db.commissions, db.investorReturns) && row.status != Pago && row.status != Cancelado
    requires settled.source == row.source
    requires paid.commissions == SyncSource(db, settled).commissions && paid.investorReturns == SyncSource(db, settled).investorReturns
    requires expected == db.(payments := expected.payments, transactions := expected.transactions)
    ensures SyncSource(expected.(commissions := paid.commissions, investorReturns := paid.investorReturns), row) == expected
  {
  }

  /** Unmatching an entry that was just matched, and restoring one that was just ignored, give the ledger back as it was. */
  lemma EntryCallsUndone(db: Db, id: Id, transaction: Id, now: Time, later: Time)
    requires Inv(db) && id < |db.entries| && db.entries[id].status == EntryStatus.Pendente
    ensures Match(db, id, transaction, now).Ok? ==>
              ChangeStatus(Match(db, id, transaction, now).value, id, Conciliado, EntryStatus.Pendente, later) == Ok(db)
    ensures ChangeStatus(db, id, EntryStatus.Pendente, Ignorado, now).Ok?
    ensures ChangeStatus(ChangeStatus(db, id, EntryStatus.Pendente, Ignorado, now).value, id, Ignorado, EntryStatus.Pendente, later) == Ok(db)
  {
    var entry := db.entries[id];
    assert EntryOk(entry, db.transactions);
    RewrittenTwice(db.entries, id, entry.(status := Conciliado, matched := Some(transaction), reconciledAt := Some(now), ignoredAt := None));
    RewrittenTwice(db.entries, id, entry.(status := Ignorado, matched := None, reconciledAt := None, ignoredAt := Some(now)));
  }

  lemma RewrittenTwice(entries: seq<Entry>, id: Id, between: Entry)
    requires id < |entries|
    ensures entries[id := between][id := entries[id]] == entries
  {
  }
}
