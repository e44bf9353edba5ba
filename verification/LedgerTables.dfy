/** How the writes of the services act on one group of tables at a time. */
module LedgerTables {
  import opened Common
  import opened Sums
  import Installments
  import opened Ledger
  import opened LedgerInvariant
  import opened LedgerMoney

  // ------------------------------------------------------------------------------------------- money

  lemma PostReceivable(db: Db, id: Id, row: Receivable, account: Id, amount: Positive, date: Time)
    requires MoneyOk(db.receivables, db.payables, db.payments, db.transactions) && id < |db.receivables|
    requires row.paid == db.receivables[id].paid + amount
    ensures var posted := Posted(db, ReceivableTarget(id), account, amount, date);
            MoneyOk(db.receivables[id := row], db.payables, posted.payments, posted.transactions)
  {
  }

  lemma PostPayable(db: Db, id: Id, row: Payable, account: Id, amount: Positive, date: Time)
    requires MoneyOk(db.receivables, db.payables, db.payments, db.transactions) && id < |db.payables|
    requires row.paid == db.payables[id].paid + amount
    ensures var posted := Posted(db, PayableTarget(id), account, amount, date);
            MoneyOk(db.receivables, db.payables[id := row], posted.payments, posted.transactions)
  {
  }

  /** The reversed payment was part of what its target had received. */
  lemma ReversalCovered(db: Db, payment: Id)
    requires MoneyOk(db.receivables, db.payables, db.payments, db.transactions)
    requires payment < |db.payments| && db.payments[payment].reversedAt.None?
    ensures 0 < db.payments[payment].amount <= Live(db.payments, db.payments[payment].target)
  {
    LiveCovers(db.payments, payment, db.payments[payment].target);
    assert PaymentOk(db.payments[payment], |db.receivables|, |db.payables|);
  }

  lemma ReversalPays(db: Db, payment: Id, now: Time, receivables: seq<Receivable>, payables: seq<Payable>)
    requires MoneyOk(db.receivables, db.payables, db.payments, db.transactions)
    requires payment < |db.payments| && db.payments[payment].reversedAt.None?
    requires |receivables| == |db.receivables| && |payables| == |db.payables|
    requires forall i :: 0 <= i < |receivables| ==>
               receivables[i].paid == db.receivables[i].paid - LiveAmount(db.payments[payment], ReceivableTarget(i))
    requires forall i :: 0 <= i < |payables| ==>
               payables[i].paid == db.payables[i].paid - LiveAmount(db.payments[payment], PayableTarget(i))
    ensures Reversed(db, payment, now).Ok?
    ensures var db' := Reversed(db, payment, now).value;
            MoneyOk(receivables, payables, db'.payments, db'.transactions)
  {
    var db' := ReversedRows(db, payment, now);
    var p := db.payments[payment].(reversedAt := Some(now));
    forall i | 0 <= i < |receivables|
      ensures receivables[i].paid == Live(db'.payments, ReceivableTarget(i))
    {
      LiveUpdate(db.payments, payment, p, ReceivableTarget(i));
    }
    forall i | 0 <= i < |payables|
      ensures payables[i].paid == Live(db'.payments, PayableTarget(i))
    {
      LiveUpdate(db.payments, payment, p, PayableTarget(i));
    }
  }

  lemma NewReceivablesUnpaid(db: Db, rows: seq<Receivable>)
    requires MoneyOk(db.receivables, db.payables, db.payments, db.transactions)
    requires forall i :: 0 <= i < |rows| ==> rows[i].paid == 0
    ensures MoneyOk(db.receivables + rows, db.payables, db.payments, db.transactions)
  {
    forall i | |db.receivables| <= i < |db.receivables + rows|
      ensures (db.receivables + rows)[i].paid == Live(db.payments, ReceivableTarget(i))
    {
      LiveOfFresh(db.payments, |db.receivables|, |db.payables|, ReceivableTarget(i));
    }
    forall i | 0 <= i < |db.payments|
      ensures PaymentOk(db.payments[i], |db.receivables + rows|, |db.payables|)
    {
      assert PaymentOk(db.payments[i], |db.receivables|, |db.payables|);
    }
  }

  lemma NewPayableUnpaid(db: Db, row: Payable)
    requires MoneyOk(db.receivables, db.payables, db.payments, db.transactions) && row.paid == 0
    ensures MoneyOk(db.receivables, db.payables + [row], db.payments, db.transactions)
  {
    LiveOfFresh(db.payments, |db.receivables|, |db.payables|, PayableTarget(|db.payables|));
    forall i | 0 <= i < |db.payments|
      ensures PaymentOk(db.payments[i], |db.receivables|, |db.payables + [row]|)
    {
      assert PaymentOk(db.payments[i], |db.receivables|, |db.payables|);
    }
  }

  // ------------------------------------------------------------------------------------------- sales

  lemma SettledFrame(before: seq<Receivable>, after: seq<Receivable>, sale: Id)
    requires |before| == |after|
    requires forall i :: 0 <= i < |before| ==>
               (before[i].sale == sale <==> after[i].sale == sale)
               && (before[i].sale == sale ==> before[i].status == after[i].status)
    ensures Settled(before, sale) == Settled(after, sale)
  {
  }

  lemma {:induction false} SaleTotalFrame(before: seq<Receivable>, after: seq<Receivable>, sale: Id)
    requires |before| == |after|
    requires forall i :: 0 <= i < |before| ==> before[i].sale == after[i].sale && before[i].original == after[i].original
    ensures SaleTotal(before, sale) == SaleTotal(after, sale)
  {
    if before != [] {
      SaleTotalFrame(before[..|before| - 1], after[..|after| - 1], sale);
    }
  }

  /** A receivable changes and its sale is synchronised: every sale status is again the one its receivables call for. */
  lemma SyncKeeps(db: Db, id: Id, row: Receivable)
    requires SalesOk(db.sales, db.receivables) && id < |db.receivables|
    requires row.sale == db.receivables[id].sale < |db.sales| && row.original == db.receivables[id].original
    requires db.sales[row.sale].status == Distratada ==> row.status == Cancelado
    ensures var after := db.receivables[id := row];
            SalesOk(SyncSale(db.(receivables := after), row.sale).sales, after)
  {
    var after := db.receivables[id := row];
    var sales := SyncSale(db.(receivables := after), row.sale).sales;
    forall s | 0 <= s < |sales|
      ensures SaleOk(sales[s], s, after)
    {
      assert SaleOk(db.sales[s], s, db.receivables);
      SaleTotalFrame(db.receivables, after, s);
      if s != row.sale {
        SettledFrame(db.receivables, after, s);
      }
    }
  }

  /** The amounts and statuses of the receivables stay, so the sales stay as they should be. */
  lemma SalesFrame(sales: seq<Sale>, before: seq<Receivable>, after: seq<Receivable>)
    requires SalesOk(sales, before) && |before| == |after|
    requires forall i :: 0 <= i < |before| ==>
               before[i].sale == after[i].sale && before[i].original == after[i].original && before[i].status == after[i].status
    ensures SalesOk(sales, after)
  {
    forall s | 0 <= s < |sales|
      ensures SaleOk(sales[s], s, after)
    {
      assert SaleOk(sales[s], s, before);
      SaleTotalFrame(before, after, s);
      SettledFrame(before, after, s);
    }
  }

  lemma {:induction false} SaleTotalOfOthers(receivables: seq<Receivable>, sale: Id)
    requires forall i :: 0 <= i < |receivables| ==> receivables[i].sale != sale
    ensures SaleTotal(receivables, sale) == 0
  {
    if receivables != [] {
      SaleTotalOfOthers(receivables[..|receivables| - 1], sale);
    }
  }

  lemma {:induction false} SaleTotalConcat(receivables: seq<Receivable>, added: seq<Receivable>, sale: Id)
    ensures SaleTotal(receivables + added, sale) == SaleTotal(receivables, sale) + SaleTotal(added, sale)
  {
    if added == [] {
      assert receivables + added == receivables;
    } else {
      assert (receivables + added)[..|receivables + added| - 1] == receivables + added[..|added| - 1];
      SaleTotalConcat(receivables, added[..|added| - 1], sale);
    }
  }

  lemma {:induction false} SaleTotalOfNew(rows: seq<Installments.Row>, sale: Id)
    ensures SaleTotal(NewReceivables(sale, rows), sale) == Sum(Installments.Amounts(rows))
  {
    if rows != [] {
      var front := rows[..|rows| - 1];
      SaleTotalOfNew(front, sale);
      assert NewReceivables(sale, rows)[..|rows| - 1] == NewReceivables(sale, front);
      assert Installments.Amounts(rows)[..|rows| - 1] == Installments.Amounts(front);
    }
  }

  /** Rows of a new sale are appended: it is active and complete, and the other sales do not notice. */
  lemma NewSaleKeeps(sales: seq<Sale>, receivables: seq<Receivable>, net: int, rows: seq<Installments.Row>)
    requires SalesOk(sales, receivables)
    requires forall i :: 0 <= i < |receivables| ==> receivables[i].sale < |sales|
    requires 1 <= Sum(Installments.Amounts(rows)) == net
    ensures SalesOk(sales + [Sale(net, Ativa)], receivables + NewReceivables(|sales|, rows))
  {
    var n, added := |sales|, NewReceivables(|sales|, rows);
    forall s | 0 <= s < n
      ensures SaleOk(sales[s], s, receivables + added)
    {
      OtherSaleKeeps(sales[s], receivables, added, s);
    }
    SaleTotalOfOthers(receivables, n);
    SaleTotalOfNew(rows, n);
    SaleTotalConcat(receivables, added, n);
    UnpaidNotSettled(receivables + added, n);
  }

  lemma OtherSaleKeeps(row: Sale, receivables: seq<Receivable>, added: seq<Receivable>, sale: Id)
    requires SaleOk(row, sale, receivables)
    requires forall i :: 0 <= i < |added| ==> added[i].sale != sale
    ensures SaleOk(row, sale, receivables + added)
  {
    SaleTotalConcat(receivables, added, sale);
    SaleTotalOfOthers(added, sale);
    SettledAppend(receivables, added, sale);
  }

  lemma SettledAppend(receivables: seq<Receivable>, rows: seq<Receivable>, sale: Id)
    requires forall i :: 0 <= i < |rows| ==> rows[i].sale != sale
    ensures Settled(receivables + rows, sale) == Settled(receivables, sale)
    ensures AllCancelled(receivables + rows, sale) == AllCancelled(receivables, sale)
  {
    var after := receivables + rows;
    forall i | 0 <= i < |after| && after[i].sale == sale
      ensures i < |receivables| && after[i] == receivables[i]
    {
    }
    assert forall i :: 0 <= i < |receivables| ==> after[i] == receivables[i];
  }

  lemma UnpaidNotSettled(receivables: seq<Receivable>, sale: Id)
    requires forall i :: 0 <= i < |receivables| && receivables[i].sale == sale ==> receivables[i].status != Pago
    ensures !Settled(receivables, sale)
  {
  }

  // ---------------------------------------------------------------------------------------- matching

  /** Appending a transaction leaves every entry as it should be. */
  lemma PostedMatching(entries: seq<Entry>, transactions: seq<Transaction>, t: Transaction)
    requires MatchingOk(entries, transactions)
    ensures MatchingOk(entries, transactions + [t])
  {
  }

  /** A reversal frees the entry of the transaction, so no entry points to a reversed one. */
  lemma ReversedMatching(entries: seq<Entry>, transactions: seq<Transaction>, t: Id, now: Time)
    requires MatchingOk(entries, transactions) && t < |transactions|
    ensures MatchingOk(Unmatched(entries, t), transactions[t := transactions[t].(reversedAt := Some(now))])
  {
  }

  // ----------------------------------------------------------------------------------------- sources

  /** Payables keep their sources and the other tables of the group stay: only the origins are left to check. */
  lemma SourcesFrame(db: Db, payables: seq<Payable>)
    requires SourcesOk(db) && |db.payables| <= |payables|
    requires forall i :: 0 <= i < |db.payables| ==> db.payables[i].source == payables[i].source
    ensures CommissionsOk(db.commissions, db.sales, payables)
    ensures ReturnsOk(db.investorReturns, payables)
    ensures |payables| == |db.payables| ==> UniqueSources(payables)
  {
  }
}
