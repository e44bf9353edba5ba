/** What each call of the ledger does, on the columns it writes: when it is accepted, and every table afterwards. */
module LedgerEffects {
  import opened Common
  import opened Sums
  import opened Rounding
  import Installments
  import MonetaryAdjustment
  import opened Ledger
  import opened LedgerInvariant
  import opened LedgerMoney
  import opened LedgerTables
  import opened LedgerSteps
  import opened LedgerRuns

  // ------------------------------------------------------------------------------------- receivables

  /** What a receivable adds to the open balance of a sale. */
  function OpenOf(r: Receivable, sale: Id): int {
    if r.sale == sale && r.status != Cancelado then r.adjusted - r.paid else 0
  }

  lemma {:induction false} OpenBalanceUpdate(receivables: seq<Receivable>, id: Id, row: Receivable, sale: Id)
    requires id < |receivables|
    ensures OpenBalance(receivables[id := row], sale) == OpenBalance(receivables, sale) - OpenOf(receivables[id], sale) + OpenOf(row, sale)
  {
    var front, after := receivables[..|receivables| - 1], receivables[id := row];
    if id == |receivables| - 1 {
      assert after[..|after| - 1] == front;
    } else {
      assert after[..|after| - 1] == front[id := row];
      OpenBalanceUpdate(front, id, row, sale);
    }
  }

  /** The sale of a changed receivable: its status is the one the receivables now call for, no other sale is touched. */
  ghost predicate SaleFollows(db: Db, after: Db, sale: Id) {
    && OnlyRow(db.sales, after.sales, sale)
    && after.sales[sale].net == db.sales[sale].net
    && (db.sales[sale].status == Distratada ==> after.sales[sale] == db.sales[sale])
    && (db.sales[sale].status != Distratada ==>
          after.sales[sale].status == if FullyPaid(after.receivables, sale) then Quitada else Ativa)
  }

  lemma SyncFollows(db: Db, written: Db, sale: Id)
    requires SalesOk(db.sales, db.receivables) && sale < |db.sales| && written.sales == db.sales
    ensures SaleFollows(db, SyncSale(written, sale), sale)
  {
    assert SaleOk(db.sales[sale], sale, db.receivables);
  }

  lemma SaleOfRow(db: Db, id: Id)
    requires ReceivablesOk(db.receivables, |db.sales|) && id < |db.receivables|
    ensures db.receivables[id].sale < |db.sales|
  {
    assert ReceivableOk(db.receivables[id], |db.sales|);
  }

  /** The row is cancelled at this time, and what was open on it leaves the open balance of its sale. */
  ghost predicate Cancels(db: Db, id: Id, now: Time, after: Db) {
    && OnlyRow(db.receivables, after.receivables, id)
    && var row, cancelled := db.receivables[id], after.receivables[id];
       && cancelled.status == Cancelado && cancelled.cancelledAt == Some(now)
       && cancelled == row.(status := cancelled.status, cancelledAt := cancelled.cancelledAt)
       && OpenBalance(after.receivables, row.sale) == OpenBalance(db.receivables, row.sale) - row.adjusted
       && SaleFollows(db, after, row.sale)
       && after == db.(receivables := after.receivables, sales := after.sales)
  }

  lemma CancelEffect(db: Db, id: Id, now: Time)
    requires Inv(db) && id < |db.receivables|
    ensures Call(db, DoCancelReceivable(id, now)).Ok? <==> db.receivables[id].paid == 0
    ensures db.receivables[id].status != Cancelado && db.receivables[id].paid == 0 ==>
              Call(db, DoCancelReceivable(id, now)).Ok? && Cancels(db, id, now, Call(db, DoCancelReceivable(id, now)).value)
    ensures db.receivables[id].status == Cancelado ==> Call(db, DoCancelReceivable(id, now)) == Ok(db)
  {
    var row := db.receivables[id];
    SaleOfRow(db, id);
    assert ReceivableOk(row, |db.sales|);
    if row.status != Cancelado && row.paid == 0 {
      var cancelled := row.(status := Cancelado, cancelledAt := Some(now));
      OpenBalanceUpdate(db.receivables, id, cancelled, row.sale);
      SyncFollows(db, db.(receivables := db.receivables[id := cancelled]), row.sale);
    }
  }

  /** Another receivable of the sale is active, and all other active ones are PAGO. */
  ghost predicate OthersPaid(receivables: seq<Receivable>, sale: Id, id: Id) {
    && (exists i :: 0 <= i < |receivables| && i != id && receivables[i].sale == sale && receivables[i].status != Cancelado)
    && (forall i :: 0 <= i < |receivables| && i != id && receivables[i].sale == sale && receivables[i].status != Cancelado ==>
          receivables[i].status == Pago)
  }

  /**
   * In every reachable ledger: cancelling a receivable on which nothing is paid cancels it, and its sale is QUITADA
   * afterwards exactly when another receivable is active and all active ones are PAGO.
   */
  lemma CancellationCancels(accounts: set<Id>, steps: seq<Step>, id: Id, now: Time)
    requires var db := Run(Empty(accounts), steps);
             id < |db.receivables| && db.receivables[id].status != Cancelado && db.receivables[id].paid == 0
    ensures var db, after := Run(Empty(accounts), steps), Run(Empty(accounts), steps + [DoCancelReceivable(id, now)]);
            && Cancels(db, id, now, after)
            && (after.sales[db.receivables[id].sale].status == Quitada <==> OthersPaid(db.receivables, db.receivables[id].sale, id))
  {
    EmptyOk(accounts);
    RunKeeps(Empty(accounts), steps);
    assert (steps + [DoCancelReceivable(id, now)])[..|steps|] == steps;
    Cancelled(Run(Empty(accounts), steps), id, now);
  }

  lemma Cancelled(db: Db, id: Id, now: Time)
    requires Inv(db) && id < |db.receivables| && db.receivables[id].status != Cancelado && db.receivables[id].paid == 0
    ensures var after := Next(db, DoCancelReceivable(id, now));
            && Cancels(db, id, now, after)
            && (after.sales[db.receivables[id].sale].status == Quitada <==> OthersPaid(db.receivables, db.receivables[id].sale, id))
  {
    CancelEffect(db, id, now);
    var after, sale := CancelReceivable(db, id, now).value, db.receivables[id].sale;
    assert SaleOk(db.sales[sale], sale, db.receivables);
    CancelledRows(db.receivables, after.receivables, id, sale);
  }

  lemma CancelledRows(before: seq<Receivable>, after: seq<Receivable>, id: Id, sale: Id)
    requires OnlyRow(before, after, id) && after[id].status == Cancelado
    ensures FullyPaid(after, sale) <==> OthersPaid(before, sale, id)
  {
    if i :| 0 <= i < |before| && i != id && before[i].sale == sale && before[i].status != Cancelado {
      assert after[i] == before[i];
    }
  }

  /** What moves on an active row moves on the open balance of its sale, the other way. */
  lemma OpenMoves(receivables: seq<Receivable>, id: Id, row: Receivable)
    requires id < |receivables| && receivables[id].status != Cancelado && row.status != Cancelado
    requires row.sale == receivables[id].sale && row.adjusted == receivables[id].adjusted
    ensures OpenBalance(receivables[id := row], row.sale) == OpenBalance(receivables, row.sale) - (row.paid - receivables[id].paid)
  {
    OpenBalanceUpdate(receivables, id, row, row.sale);
  }

  /** The synchronisation writes the sale and nothing else. */
  lemma SyncWrites(db: Db, written: Db, sale: Id) returns (after: Db)
    requires SalesOk(db.sales, db.receivables) && sale < |db.sales| && written.sales == db.sales
    ensures after == SyncSale(written, sale) && after == written.(sales := after.sales)
    ensures SaleFollows(db, after, sale)
  {
    after := SyncSale(written, sale);
    SyncFollows(db, written, sale);
  }

  /** The amount is added to the row, with one payment and one transaction that enters the account. */
  ghost predicate Receives(db: Db, id: Id, account: Id, amount: int, paidAt: Time, after: Db) {
    && OnlyRow(db.receivables, after.receivables, id)
    && var row, settled := db.receivables[id], after.receivables[id];
       && settled.paid == row.paid + amount
       && (settled.status == Pago <==> settled.paid == row.adjusted) && (settled.status != Pago ==> settled.status == Parcial)
       && settled.paidAt == (if settled.paid == row.adjusted then Some(paidAt) else None)
       && settled == row.(paid := settled.paid, status := settled.status, paidAt := settled.paidAt)
       && after.payments == db.payments + [Payment(ReceivableTarget(id), account, amount, paidAt, None)]
       && after.transactions == db.transactions + [Transaction(|db.payments|, ReceivableTarget(id), account, Entrada, amount, paidAt, None)]
       && CashBalance(after.transactions) == CashBalance(db.transactions) + amount
       && OpenBalance(after.receivables, row.sale) == OpenBalance(db.receivables, row.sale) - amount
       && SaleFollows(db, after, row.sale)
       && after == db.(receivables := after.receivables, sales := after.sales, payments := after.payments, transactions := after.transactions)
  }

  /** A payment is accepted exactly when it is not in the future, the row is open, the amount fits and the account is known. */
  lemma PaymentEffect(db: Db, id: Id, account: Id, amount: Positive, paidAt: Time, now: Time)
    requires Inv(db) && id < |db.receivables|
    ensures Call(db, DoRecordReceivablePayment(id, account, amount, paidAt, now)).Ok? <==>
              && paidAt <= now && account in db.accounts
              && (db.receivables[id].status == Status.Pendente || db.receivables[id].status == Parcial)
              && db.receivables[id].paid + amount <= db.receivables[id].adjusted
    ensures Call(db, DoRecordReceivablePayment(id, account, amount, paidAt, now)).Ok? ==>
              Receives(db, id, account, amount, paidAt, Call(db, DoRecordReceivablePayment(id, account, amount, paidAt, now)).value)
  {
    var row := db.receivables[id];
    SaleOfRow(db, id);
    if RecordReceivablePayment(db, id, account, amount, paidAt, now).Ok? {
      Received(db, id, account, amount, paidAt, Posted(db, ReceivableTarget(id), account, amount, paidAt));
    }
  }

  lemma Received(db: Db, id: Id, account: Id, amount: Positive, paidAt: Time, posted: Db)
    requires SalesOk(db.sales, db.receivables) && id < |db.receivables| && db.receivables[id].sale < |db.sales|
    requires db.receivables[id].status != Cancelado && posted == Posted(db, ReceivableTarget(id), account, amount, paidAt)
    ensures var settled := ReceivablePaid(db.receivables[id], amount, paidAt);
            Receives(db, id, account, amount, paidAt, SyncSale(posted.(receivables := db.receivables[id := settled]), settled.sale))
  {
    var settled := ReceivablePaid(db.receivables[id], amount, paidAt);
    OpenMoves(db.receivables, id, settled);
    var after := SyncWrites(db, posted.(receivables := db.receivables[id := settled]), settled.sale);
  }

  /** A payment and its transaction are reversed at this time, and the entry matched with it is pending again. */
  ghost predicate TakesBack(db: Db, payment: Id, now: Time, after: Db) {
    && |db.payments| == |db.transactions|
    && OnlyRow(db.payments, after.payments, payment)
    && after.payments[payment] == db.payments[payment].(reversedAt := Some(now))
    && OnlyRow(db.transactions, after.transactions, payment)
    && after.transactions[payment] == db.transactions[payment].(reversedAt := Some(now))
    && |after.entries| == |db.entries|
    && forall e :: 0 <= e < |db.entries| ==>
         if db.entries[e].matched == Some(payment)
         then after.entries[e] == db.entries[e].(status := EntryStatus.Pendente, matched := None, reconciledAt := None)
         else after.entries[e] == db.entries[e]
  }

  ghost predicate GivesBack(db: Db, id: Id, payment: Id, now: Time, after: Db) {
    && TakesBack(db, payment, now, after)
    && OnlyRow(db.receivables, after.receivables, id)
    && var row, reopened := db.receivables[id], after.receivables[id];
       && reopened.paid == row.paid - db.payments[payment].amount
       && reopened.status == (if reopened.paid == 0 then Status.Pendente else Parcial) && reopened.paidAt == None
       && reopened == row.(paid := reopened.paid, status := reopened.status, paidAt := reopened.paidAt)
       && OpenBalance(after.receivables, row.sale) == OpenBalance(db.receivables, row.sale) + db.payments[payment].amount
       && SaleFollows(db, after, row.sale)
       && after == db.(receivables := after.receivables, sales := after.sales, payments := after.payments,
                       transactions := after.transactions, entries := after.entries)
  }

  lemma ReversedTakesBack(db: Db, payment: Id, now: Time) returns (reversed: Db)
    requires Paired(db.payments, db.transactions) && payment < |db.payments|
    ensures Reversed(db, payment, now) == Ok(reversed) && TakesBack(db, payment, now, reversed)
    ensures reversed == db.(payments := reversed.payments, transactions := reversed.transactions, entries := reversed.entries)
  {
    reversed := ReversedRows(db, payment, now);
  }

  lemma GivenBack(db: Db, id: Id, payment: Id, now: Time, reversed: Db)
    requires SalesOk(db.sales, db.receivables) && id < |db.receivables| && db.receivables[id].sale < |db.sales|
    requires db.receivables[id].status != Cancelado && payment < |db.payments| && TakesBack(db, payment, now, reversed)
    requires reversed == db.(payments := reversed.payments, transactions := reversed.transactions, entries := reversed.entries)
    ensures var reopened := ReceivableReopened(db.receivables[id], db.receivables[id].paid - db.payments[payment].amount);
            GivesBack(db, id, payment, now, SyncSale(reversed.(receivables := db.receivables[id := reopened]), reopened.sale))
  {
    var reopened := ReceivableReopened(db.receivables[id], db.receivables[id].paid - db.payments[payment].amount);
    OpenMoves(db.receivables, id, reopened);
    var after := SyncWrites(db, reversed.(receivables := db.receivables[id := reopened]), reopened.sale);
  }

  lemma LivePaid(db: Db, id: Id, payment: Id)
    requires MoneyOk(db.receivables, db.payables, db.payments, db.transactions) && ReceivablesOk(db.receivables, |db.sales|)
    requires id < |db.receivables| && payment < |db.payments|
    requires db.payments[payment].target == ReceivableTarget(id) && db.payments[payment].reversedAt.None?
    ensures db.receivables[id].status != Cancelado
  {
    ReversalCovered(db, payment);
    assert ReceivableOk(db.receivables[id], |db.sales|);
  }

  lemma ReversalResult(db: Db, id: Id, payment: Id, now: Time, reversed: Db)
    requires ReverseReceivablePayment(db, id, payment, now).Ok? && Reversed(db, payment, now) == Ok(reversed)
    ensures var reopened := ReceivableReopened(db.receivables[id], db.receivables[id].paid - db.payments[payment].amount);
            ReverseReceivablePayment(db, id, payment, now)
            == Ok(SyncSale(reversed.(receivables := db.receivables[id := reopened]), reopened.sale))
  {
  }

  lemma ReversedGivesBack(db: Db, id: Id, payment: Id, now: Time)
    requires MoneyOk(db.receivables, db.payables, db.payments, db.transactions) && SalesOk(db.sales, db.receivables)
    requires ReceivablesOk(db.receivables, |db.sales|) && ReverseReceivablePayment(db, id, payment, now).Ok?
    ensures GivesBack(db, id, payment, now, ReverseReceivablePayment(db, id, payment, now).value)
  {
    SaleOfRow(db, id);
    LivePaid(db, id, payment);
    var reversed := ReversedTakesBack(db, payment, now);
    ReversalResult(db, id, payment, now, reversed);
    GivenBack(db, id, payment, now, reversed);
  }

  /** A reversal is accepted exactly for a payment of the receivable that was not reversed before. */
  lemma ReversalEffect(db: Db, id: Id, payment: Id, now: Time)
    requires Inv(db) && id < |db.receivables| && payment < |db.payments|
    ensures Call(db, DoReverseReceivablePayment(id, payment, now)).Ok? <==>
              db.payments[payment].target == ReceivableTarget(id) && db.payments[payment].reversedAt.None?
    ensures Call(db, DoReverseReceivablePayment(id, payment, now)).Ok? ==>
              GivesBack(db, id, payment, now, Call(db, DoReverseReceivablePayment(id, payment, now)).value)
  {
    if db.payments[payment].target == ReceivableTarget(id) && db.payments[payment].reversedAt.None? {
      ReversalNeverInconsistent(db, id, payment, now);
      ReversedGivesBack(db, id, payment, now);
    }
  }

  /** Reversing takes the amount out of the cash again, with the sign it went in with. */
  lemma ReversalMovesCash(db: Db, payment: Id, now: Time, after: Db)
    requires Paired(db.payments, db.transactions) && payment < |db.payments| && db.payments[payment].reversedAt.None?
    requires TakesBack(db, payment, now, after)
    ensures CashBalance(after.transactions)
         == CashBalance(db.transactions)
            - (if db.payments[payment].target.ReceivableTarget? then db.payments[payment].amount else -db.payments[payment].amount)
  {
    assert IsTransactionOf(db.transactions[payment], db.payments[payment], payment);
    CashUpdate(db.transactions, payment, after.transactions[payment]);
    assert after.transactions == db.transactions[payment := after.transactions[payment]];
  }

  lemma {:induction false} CashUpdate(transactions: seq<Transaction>, i: nat, t: Transaction)
    requires i < |transactions|
    ensures CashBalance(transactions[i := t]) == CashBalance(transactions) - SignedAmount(transactions[i]) + SignedAmount(t)
  {
    var front, updated := transactions[..|transactions| - 1], transactions[i := t];
    if i == |transactions| - 1 {
      assert updated[..|updated| - 1] == front;
    } else {
      assert updated[..|updated| - 1] == front[i := t];
      CashUpdate(front, i, t);
    }
  }

  /** The index values of a period: from the later of its start and the base date of the policy to its end. */
  function ValuesOf(policy: MonetaryAdjustment.Policy, start: int, end: int): seq<MonetaryAdjustment.IndexValue> {
    MonetaryAdjustment.Window(policy.values, if start < policy.baseDate then policy.baseDate else start, end)
  }

  /** The row has the calculated amount, and one row of the adjustment table says what it was, is, and for which period. */
  ghost predicate Adjusts(db: Db, id: Id, adjusted: int, start: int, end: int, after: Db) {
    && OnlyRow(db.receivables, after.receivables, id)
    && var row := db.receivables[id];
       && after.receivables[id] == row.(adjusted := adjusted)
       && after.adjustments == db.adjustments + [Adjustment(id, row.adjusted, adjusted, adjusted - row.adjusted, start, end)]
       && after == db.(receivables := after.receivables, adjustments := after.adjustments)
  }

  /**
   * An adjustment is accepted exactly for a period that is new and not reversed, a row that is not cancelled, a policy
   * with index values in the period, and an amount that covers what was paid.
   */
  lemma AdjustmentEffect(db: Db, id: Id, policy: Option<MonetaryAdjustment.Policy>, start: int, end: int)
    requires id < |db.receivables|
    ensures Call(db, DoApplyAdjustment(id, policy, start, end)).Ok? <==>
              && (forall a :: 0 <= a < |db.adjustments| ==>
                    !(db.adjustments[a].receivable == id && db.adjustments[a].start == start && db.adjustments[a].end == end))
              && start <= end && db.receivables[id].status != Cancelado && policy.Some?
              && ValuesOf(policy.value, start, end) != []
              && db.receivables[id].paid <= MonetaryAdjustment.Adjusted(db.receivables[id].adjusted, ValuesOf(policy.value, start, end))
    ensures Call(db, DoApplyAdjustment(id, policy, start, end)).Ok? ==>
              Adjusts(db, id, MonetaryAdjustment.Adjusted(db.receivables[id].adjusted, ValuesOf(policy.value, start, end)), start, end,
                      Call(db, DoApplyAdjustment(id, policy, start, end)).value)
  {
  }

  // ------------------------------------------------------------------------------------------- sales

  /** A new sale, with unpaid receivables of its own that sum to its net amount and forecast commissions. */
  ghost predicate Registers(db: Db, net: int, commissions: seq<nat>, after: Db) {
    && after.sales == db.sales + [Sale(net, Ativa)]
    && |db.receivables| < |after.receivables| && after.receivables[..|db.receivables|] == db.receivables
    && (forall i :: |db.receivables| <= i < |after.receivables| ==>
          var row := after.receivables[i];
          && row.sale == |db.sales| && 1 <= row.original == row.adjusted && row.paid == 0 && row.status == Status.Pendente
          && row.paidAt.None? && row.cancelledAt.None?)
    && SaleTotal(after.receivables, |db.sales|) == net
    && |after.commissions| == |db.commissions| + |commissions| && after.commissions[..|db.commissions|] == db.commissions
    && (forall k :: 0 <= k < |commissions| ==>
          after.commissions[|db.commissions| + k] == Commission(|db.sales|, commissions[k], Prevista))
    && after == db.(sales := after.sales, receivables := after.receivables, commissions := after.commissions)
  }

  lemma RegisteredTables(db: Db, net: int, rows: seq<Installments.Row>, commissions: seq<nat>)
    requires ReceivablesOk(db.receivables, |db.sales|) && rows != [] && Sum(Installments.Amounts(rows)) == net
    requires forall i :: 0 <= i < |rows| ==> 1 <= rows[i].amount
    ensures Registers(db, net, commissions,
                      db.(sales := db.sales + [Sale(net, Ativa)], receivables := db.receivables + NewReceivables(|db.sales|, rows),
                          commissions := db.commissions + NewCommissions(|db.sales|, commissions)))
  {
    forall i | 0 <= i < |db.receivables|
      ensures db.receivables[i].sale != |db.sales|
    {
      SaleOfRow(db, i);
    }
    SaleTotalOfOthers(db.receivables, |db.sales|);
    SaleTotalOfNew(rows, |db.sales|);
    SaleTotalConcat(db.receivables, NewReceivables(|db.sales|, rows), |db.sales|);
  }

  /** A sale is registered exactly when its plans sum to its net amount and each leaves a cent for each installment. */
  lemma RegisterEffect(db: Db, net: int, plans: seq<Installments.Plan>, due: Installments.Schedule, commissions: seq<nat>)
    requires Inv(db)
    ensures Call(db, DoRegisterSale(net, plans, due, commissions)).Ok? <==>
              plans != [] && Sum(Installments.Totals(plans)) == net && forall plan :: plan in plans ==> Installments.Splittable(plan)
    ensures Call(db, DoRegisterSale(net, plans, due, commissions)).Ok? ==>
              Registers(db, net, commissions, Call(db, DoRegisterSale(net, plans, due, commissions)).value)
  {
    Installments.GenerateSucceeds({}, plans, due);
    if RegisterSale(db, net, plans, due, commissions).Ok? {
      var rows := Installments.Generate({}, plans, due).value;
      Installments.GenerateConserves(plans, due);
      PlansArePositive(plans, due);
      assert rows == [] ==> Sum(Installments.Amounts(rows)) == 0;
      RegisteredTables(db, net, rows, commissions);
    }
  }

  lemma AddCommissionEffect(db: Db, sale: Id, amount: nat)
    requires Inv(db) && sale < |db.sales|
    ensures Call(db, DoAddCommission(sale, amount)).Ok? <==> db.sales[sale].status == Ativa || db.sales[sale].status == Quitada
    ensures Call(db, DoAddCommission(sale, amount)).Ok? ==>
              Call(db, DoAddCommission(sale, amount)).value == db.(commissions := db.commissions + [Commission(sale, amount, Prevista)])
  {
    assert SaleOk(db.sales[sale], sale, db.receivables);
  }

  /** The payable pays a commission of the sale. */
  predicate CommissionPayableOf(db: Db, p: Id, sale: Id)
    requires p < |db.payables|
  {
    && db.payables[p].source.ForCommission? && db.payables[p].source.commission < |db.commissions|
    && db.commissions[db.payables[p].source.commission].sale == sale
  }

  /** Every row of the sale is closed, every other row is as it was. */
  ghost predicate Dissolves(db: Db, sale: Id, now: Time, after: Db) {
    && OnlyRow(db.sales, after.sales, sale) && after.sales[sale] == db.sales[sale].(status := Distratada)
    && |after.receivables| == |db.receivables| && |after.payables| == |db.payables| && |after.commissions| == |db.commissions|
    && (forall i :: 0 <= i < |db.receivables| ==>
          after.receivables[i] == if db.receivables[i].sale == sale
                                  then db.receivables[i].(status := Cancelado, cancelledAt := Some(now)) else db.receivables[i])
    && (forall p: Id :: p < |db.payables| ==>
          after.payables[p] == if CommissionPayableOf(db, p, sale)
                               then db.payables[p].(status := Cancelado, cancelledAt := Some(now)) else db.payables[p])
    && (forall c :: 0 <= c < |db.commissions| ==>
          after.commissions[c] == if db.commissions[c].sale == sale
                                  then db.commissions[c].(status := CommissionStatus.Cancelada) else db.commissions[c])
    && OpenBalance(after.receivables, sale) == 0
    && after == db.(sales := after.sales, receivables := after.receivables, payables := after.payables, commissions := after.commissions)
  }

  lemma {:induction false} NothingOpen(receivables: seq<Receivable>, sale: Id)
    requires forall i :: 0 <= i < |receivables| && receivables[i].sale == sale ==> receivables[i].status == Cancelado
    ensures OpenBalance(receivables, sale) == 0
  {
    if receivables != [] {
      NothingOpen(receivables[..|receivables| - 1], sale);
    }
  }

  /** A distrato is accepted exactly for an ATIVA sale on which nothing was received or paid out. */
  lemma DistratoEffect(db: Db, sale: Id, now: Time)
    requires Inv(db) && sale < |db.sales|
    ensures Call(db, DoCancelSale(sale, now)).Ok? <==>
              && db.sales[sale].status == Ativa
              && (forall i :: 0 <= i < |db.receivables| && db.receivables[i].sale == sale ==> db.receivables[i].paid == 0)
              && (forall c :: 0 <= c < |db.commissions| && db.commissions[c].sale == sale ==> db.commissions[c].status != Paga)
              && (forall p: Id :: p < |db.payables| && CommissionPayableOf(db, p, sale) ==> db.payables[p].paid == 0)
    ensures Call(db, DoCancelSale(sale, now)).Ok? ==> Dissolves(db, sale, now, Call(db, DoCancelSale(sale, now)).value)
  {
    if CancelSale(db, sale, now).Ok? {
      CancelSaleFromActive(db, sale, now);
      DissolvedRows(db, sale, now);
    }
  }

  lemma DissolvedRows(db: Db, sale: Id, now: Time)
    requires Inv(db) && CancelSale(db, sale, now).Ok?
    ensures Dissolves(db, sale, now, CancelSale(db, sale, now).value)
  {
    var after := CancelSale(db, sale, now).value;
    NothingOpen(after.receivables, sale);
    forall p: Id | p < |db.payables| && CommissionPayableOf(db, p, sale)
      ensures db.payables[p].status != Pago
    {
      assert PayableOk(db.payables[p]);
    }
  }

  // ---------------------------------------------------------------------------------------- payables

  lemma CreatePayableEffect(db: Db, amount: Positive)
    ensures Call(db, DoCreatePayable(amount))
         == Ok(db.(payables := db.payables + [Payable(Manual, amount, 0, Status.Pendente, None, None)]))
  {
  }

  /** The amount and the status it calls for; nothing else of the row. */
  ghost predicate Edits(db: Db, id: Id, original: int, after: Db) {
    && OnlyRow(db.payables, after.payables, id)
    && var row, edited := db.payables[id], after.payables[id];
       && edited.original == original
       && (edited.status == Pago <==> row.paid == original) && (edited.status == Parcial <==> 0 < row.paid < original)
       && (edited.status == Status.Pendente <==> row.paid == 0)
       && edited == row.(original := edited.original, status := edited.status)
       && after == db.(payables := after.payables)
  }

  /** An edit is accepted exactly for a manual payable whose new amount, if there is one, exceeds what was paid. */
  lemma UpdatePayableEffect(db: Db, id: Id, amount: Option<Positive>)
    requires Inv(db) && id < |db.payables|
    ensures Call(db, DoUpdatePayable(id, amount)).Ok? <==>
              db.payables[id].source == Manual
              && (amount.None? || amount.value == db.payables[id].original || db.payables[id].paid == 0 || db.payables[id].paid < amount.value)
    ensures Call(db, DoUpdatePayable(id, amount)).Ok? ==>
              Edits(db, id, if amount.Some? then amount.value else db.payables[id].original, Call(db, DoUpdatePayable(id, amount)).value)
  {
    assert PayableOk(db.payables[id]);
  }

  /** The origin of a payable: a commission is PAGA or DEVIDA, a return is paid with this amount or not at all. */
  ghost predicate OriginFollows(db: Db, settled: Payable, after: Db) {
    match settled.source
    case Manual => after.commissions == db.commissions && after.investorReturns == db.investorReturns
    case ForCommission(c) =>
      && after.investorReturns == db.investorReturns && OnlyRow(db.commissions, after.commissions, c)
      && after.commissions[c] == db.commissions[c].(status := if settled.paid == settled.original then Paga else Devida)
    case ForReturn(r) =>
      && after.commissions == db.commissions && OnlyRow(db.investorReturns, after.investorReturns, r)
      && after.investorReturns[r].expected == db.investorReturns[r].expected
      && (after.investorReturns[r].paid <==> settled.paid == settled.original)
      && after.investorReturns[r].realized == if settled.paid == settled.original then Some(settled.paid) else None
  }

  lemma SourceFollows(db: Db, settled: Payable, written: Db)
    requires Known(db, settled.source) && (settled.status == Pago <==> settled.paid == settled.original)
    requires written.commissions == db.commissions && written.investorReturns == db.investorReturns
    ensures OriginFollows(db, settled, SyncSource(written, settled))
    ensures SyncSource(written, settled)
         == written.(commissions := SyncSource(written, settled).commissions, investorReturns := SyncSource(written, settled).investorReturns)
  {
  }

  /** The origin of a payable exists. */
  predicate Known(db: Db, source: Source) {
    match source
    case Manual => true
    case ForCommission(c) => c < |db.commissions|
    case ForReturn(r) => r < |db.investorReturns|
  }

  ghost predicate PaysOut(db: Db, id: Id, account: Id, amount: int, paidAt: Time, after: Db) {
    && OnlyRow(db.payables, after.payables, id)
    && var row, settled := db.payables[id], after.payables[id];
       && settled.paid == row.paid + amount
       && (settled.status == Pago <==> settled.paid == row.original) && (settled.status != Pago ==> settled.status == Parcial)
       && settled.paidAt == (if settled.paid == row.original then Some(paidAt) else None)
       && settled == row.(paid := settled.paid, status := settled.status, paidAt := settled.paidAt)
       && after.payments == db.payments + [Payment(PayableTarget(id), account, amount, paidAt, None)]
       && after.transactions == db.transactions + [Transaction(|db.payments|, PayableTarget(id), account, Saida, amount, paidAt, None)]
       && CashBalance(after.transactions) == CashBalance(db.transactions) - amount
       && OriginFollows(db, settled, after)
       && after == db.(payables := after.payables, payments := after.payments, transactions := after.transactions,
                       commissions := after.commissions, investorReturns := after.investorReturns)
  }

  lemma PayablePaymentEffect(db: Db, id: Id, account: Id, amount: Positive, paidAt: Time, now: Time)
    requires Inv(db) && id < |db.payables|
    ensures Call(db, DoRecordPayablePayment(id, account, amount, paidAt, now)).Ok? <==>
              && paidAt <= now && account in db.accounts
              && (db.payables[id].status == Status.Pendente || db.payables[id].status == Parcial)
              && db.payables[id].paid + amount <= db.payables[id].original
    ensures Call(db, DoRecordPayablePayment(id, account, amount, paidAt, now)).Ok? ==>
              PaysOut(db, id, account, amount, paidAt, Call(db, DoRecordPayablePayment(id, account, amount, paidAt, now)).value)
  {
    assert OriginOk(db.payables[id], db.commissions, db.investorReturns);
    if RecordPayablePayment(db, id, account, amount, paidAt, now).Ok? {
      var settled := PayablePaid(db.payables[id], amount, paidAt);
      SourceFollows(db, settled, Posted(db, PayableTarget(id), account, amount, paidAt).(payables := db.payables[id := settled]));
    }
  }

  ghost predicate TakesBackPayable(db: Db, id: Id, payment: Id, now: Time, after: Db) {
    && TakesBack(db, payment, now, after)
    && OnlyRow(db.payables, after.payables, id)
    && var row, reopened := db.payables[id], after.payables[id];
       && reopened.paid == row.paid - db.payments[payment].amount
       && reopened.status == (if reopened.paid == 0 then Status.Pendente else Parcial) && reopened.paidAt == None
       && reopened == row.(paid := reopened.paid, status := reopened.status, paidAt := reopened.paidAt)
       && OriginFollows(db, reopened, after)
       && after == db.(payables := after.payables, payments := after.payments, transactions := after.transactions,
                       entries := after.entries, commissions := after.commissions, investorReturns := after.investorReturns)
  }

  lemma PayableReversalEffect(db: Db, id: Id, payment: Id, now: Time)
    requires Inv(db) && id < |db.payables| && payment < |db.payments|
    ensures Call(db, DoReversePayablePayment(id, payment, now)).Ok? <==>
              db.payments[payment].target == PayableTarget(id) && db.payments[payment].reversedAt.None?
    ensures Call(db, DoReversePayablePayment(id, payment, now)).Ok? ==>
              TakesBackPayable(db, id, payment, now, Call(db, DoReversePayablePayment(id, payment, now)).value)
  {
    if db.payments[payment].target == PayableTarget(id) && db.payments[payment].reversedAt.None? {
      PayableReversalNeverInconsistent(db, id, payment, now);
      TakenBack(db, id, payment, now);
    }
  }

  lemma TakenBack(db: Db, id: Id, payment: Id, now: Time)
    requires MoneyOk(db.receivables, db.payables, db.payments, db.transactions) && PayablesOk(db.payables)
    requires OriginsOk(db.payables, db.commissions, db.investorReturns) && ReversePayablePayment(db, id, payment, now).Ok?
    ensures TakesBackPayable(db, id, payment, now, ReversePayablePayment(db, id, payment, now).value)
  {
    ReversalCovered(db, payment);
    assert PayableOk(db.payables[id]) && OriginOk(db.payables[id], db.commissions, db.investorReturns);
    var reversed := ReversedTakesBack(db, payment, now);
    var reopened := PayableReopened(db.payables[id], db.payables[id].paid - db.payments[payment].amount);
    SourceFollows(db, reopened, reversed.(payables := db.payables[id := reopened]));
  }

  /** A cancellation is accepted exactly for a manual payable on which nothing is paid. */
  lemma CancelPayableEffect(db: Db, id: Id, now: Time)
    requires Inv(db) && id < |db.payables|
    ensures Call(db, DoCancelPayable(id, now)).Ok? <==> db.payables[id].source == Manual && db.payables[id].paid == 0
    ensures Call(db, DoCancelPayable(id, now)).Ok? ==>
              var after := Call(db, DoCancelPayable(id, now)).value;
              && OnlyRow(db.payables, after.payables, id) && after == db.(payables := after.payables)
              && after.payables[id].status == Cancelado
              && (db.payables[id].status != Cancelado ==>
                    after.payables[id] == db.payables[id].(status := Cancelado, cancelledAt := Some(now)))
              && (db.payables[id].status == Cancelado ==> after == db)
  {
  }

  /** The commission is DEVIDA and has one payable, of its amount: the one it had, or a new unpaid one. */
  lemma MarkDueEffect(db: Db, id: Id)
    requires Inv(db) && id < |db.commissions|
    ensures Call(db, DoMarkCommissionDue(id)).Ok? <==> db.commissions[id].status == Prevista || db.commissions[id].status == Devida
    ensures db.commissions[id].status == Devida ==> Call(db, DoMarkCommissionDue(id)) == Ok(db)
    ensures db.commissions[id].status == Prevista ==>
              var after := Call(db, DoMarkCommissionDue(id)).value;
              && OnlyRow(db.commissions, after.commissions, id)
              && after.commissions[id] == db.commissions[id].(status := Devida)
              && after.payables == db.payables + [Payable(ForCommission(id), db.commissions[id].amount, 0, Status.Pendente, None, None)]
              && after == db.(commissions := after.commissions, payables := after.payables)
  {
    var row := db.commissions[id];
    assert CommissionOk(row, id, db.sales, db.payables);
    var found := PayableOf(db.payables, ForCommission(id));
    if found.Some? {
      assert OriginOk(db.payables[found.value], db.commissions, db.investorReturns);
      assert db.commissions[id := row.(status := Devida)] == db.commissions || row.status != Devida;
    } else {
      assert !HasPayable(db.payables, ForCommission(id));
    }
  }

  lemma CreateReturnEffect(db: Db, expected: nat)
    ensures Call(db, DoCreateReturn(expected))
         == Ok(db.(investorReturns := db.investorReturns + [Return(expected, false, None)],
                   payables := db.payables + [Payable(ForReturn(|db.investorReturns|), expected, 0, Status.Pendente, None, None)]))
  {
  }

  /** New terms are accepted exactly while nothing was paid, and reach the return and its one payable together. */
  lemma UpdateReturnEffect(db: Db, id: Id, expected: nat, p: Id)
    requires Inv(db) && id < |db.investorReturns| && p < |db.payables| && db.payables[p].source == ForReturn(id)
    ensures Call(db, DoUpdateReturn(id, expected)).Ok? <==> db.payables[p].paid == 0
    ensures Call(db, DoUpdateReturn(id, expected)).Ok? ==>
              var after := Call(db, DoUpdateReturn(id, expected)).value;
              && OnlyRow(db.investorReturns, after.investorReturns, id) && OnlyRow(db.payables, after.payables, p)
              && after.investorReturns[id] == db.investorReturns[id].(expected := expected)
              && after.payables[p] == db.payables[p].(original := expected)
              && after == db.(investorReturns := after.investorReturns, payables := after.payables)
  {
    var found := PayableOf(db.payables, ForReturn(id));
    assert found == Some(p);
    assert PayableOk(db.payables[p]);
  }

  // ---------------------------------------------------------------------------------- reconciliation

  lemma ImportEffect(db: Db, account: Id, kind: Kind, amount: Positive)
    ensures Call(db, DoImportEntry(account, kind, amount)).Ok? <==> account in db.accounts
    ensures Call(db, DoImportEntry(account, kind, amount)).Ok? ==>
              Call(db, DoImportEntry(account, kind, amount)).value
              == db.(entries := db.entries + [Entry(account, kind, amount, EntryStatus.Pendente, None, None, None)])
  {
  }

  /** A match is accepted exactly for a pending entry and a live transaction of its account, nature and amount that no entry has. */
  lemma MatchEffect(db: Db, id: Id, transaction: Id, now: Time)
    requires id < |db.entries| && transaction < |db.transactions|
    ensures Call(db, DoMatch(id, transaction, now)).Ok? <==>
              var e, t := db.entries[id], db.transactions[transaction];
              && e.status == EntryStatus.Pendente && t.reversedAt.None?
              && t.account == e.account && t.kind == e.kind && t.amount == e.amount
              && forall i :: 0 <= i < |db.entries| ==> db.entries[i].matched != Some(transaction)
    ensures Call(db, DoMatch(id, transaction, now)).Ok? ==>
              var after := Call(db, DoMatch(id, transaction, now)).value;
              && OnlyRow(db.entries, after.entries, id) && after == db.(entries := after.entries)
              && after.entries[id] == db.entries[id].(status := Conciliado, matched := Some(transaction), reconciledAt := Some(now), ignoredAt := None)
  {
  }

  /** Unmatching, ignoring and restoring are accepted exactly from CONCILIADO, PENDENTE and IGNORADO, and drop the link. */
  lemma EntryEffects(db: Db, id: Id, now: Time)
    requires id < |db.entries|
    ensures Call(db, DoUnmatch(id, now)).Ok? <==> db.entries[id].status == Conciliado
    ensures Call(db, DoIgnore(id, now)).Ok? <==> db.entries[id].status == EntryStatus.Pendente
    ensures Call(db, DoRestore(id, now)).Ok? <==> db.entries[id].status == Ignorado
    ensures forall step :: step in {DoUnmatch(id, now), DoIgnore(id, now), DoRestore(id, now)} && Call(db, step).Ok? ==>
              var after := Call(db, step).value;
              && OnlyRow(db.entries, after.entries, id) && after == db.(entries := after.entries)
              && after.entries[id] == db.entries[id].(status := if step.DoIgnore? then Ignorado else EntryStatus.Pendente, matched := None,
                                                      reconciledAt := None, ignoredAt := if step.DoIgnore? then Some(now) else None)
  {
  }
}
