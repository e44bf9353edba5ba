/**
 * The CHECK constraints the migrations put on the ledger tables, beside the services that write them.  The services
 * respect them in all calls but a few; those are named exactly, and the database refuses them.
 */
module LedgerConstraints {
  import opened Common
  import Installments
  import MonetaryAdjustment
  import opened Ledger
  import opened LedgerInvariant
  import opened LedgerMoney
  import opened LedgerTables
  import opened LedgerSteps
  import opened LedgerRuns

  /** Receivable_amounts and Receivable_state. */
  predicate ReceivableCheck(r: Receivable) {
    && r.original >= 0 && r.adjusted >= 0 && 0 <= r.paid <= r.adjusted
    && match r.status
       case Pendente => r.paid == 0 && r.paidAt.None? && r.cancelledAt.None?
       case Parcial => 0 < r.paid < r.adjusted && r.paidAt.None? && r.cancelledAt.None?
       case Pago => r.paid == r.adjusted && r.paidAt.Some? && r.cancelledAt.None?
       case Cancelado => r.paid == 0 && r.paidAt.None? && r.cancelledAt.Some?
  }

  /** Payable_amounts and Payable_state. */
  predicate PayableCheck(p: Payable) {
    && p.original > 0 && 0 <= p.paid <= p.original
    && match p.status
       case Pendente => p.paid == 0 && p.paidAt.None? && p.cancelledAt.None?
       case Parcial => 0 < p.paid < p.original && p.paidAt.None? && p.cancelledAt.None?
       case Pago => p.paid == p.original && p.paidAt.Some? && p.cancelledAt.None?
       case Cancelado => p.paid == 0 && p.paidAt.None? && p.cancelledAt.Some?
  }

  /** BankStatementEntry_state_consistent. */
  predicate EntryCheck(e: Entry) {
    match e.status
    case Pendente => e.matched.None? && e.reconciledAt.None? && e.ignoredAt.None?
    case Conciliado => e.matched.Some? && e.reconciledAt.Some? && e.ignoredAt.None?
    case Ignorado => e.matched.None? && e.reconciledAt.None? && e.ignoredAt.Some?
  }

  /** FinancialPayment_positive_amount; the target columns exclude each other by construction. */
  predicate PaymentCheck(p: Payment) { p.amount > 0 }

  /** FinancialTransaction_positive_amount and FinancialTransaction_target. */
  predicate TransactionCheck(t: Transaction) { t.amount > 0 && t.kind == KindOf(t.target) }

  /** The part of Sale_nonnegative_amounts and of SaleCommission_nonnegative_amount the ledger writes. */
  predicate SaleCheck(s: Sale) { s.net >= 0 }

  predicate CommissionCheck(c: Commission) { c.amount >= 0 }

  predicate Checks(db: Db) {
    && (forall i | 0 <= i < |db.receivables| :: ReceivableCheck(db.receivables[i]))
    && (forall i | 0 <= i < |db.payables| :: PayableCheck(db.payables[i]))
    && (forall i | 0 <= i < |db.entries| :: EntryCheck(db.entries[i]))
    && (forall i | 0 <= i < |db.payments| :: PaymentCheck(db.payments[i]))
    && (forall i | 0 <= i < |db.transactions| :: TransactionCheck(db.transactions[i]))
    && (forall i | 0 <= i < |db.sales| :: SaleCheck(db.sales[i]))
    && (forall i | 0 <= i < |db.commissions| :: CommissionCheck(db.commissions[i]))
  }

  /**
   * The calls a service accepts and a constraint refuses: an adjustment that changes a PAGO receivable or brings a
   * PARCIAL one down to what it has received; an edit of a CANCELADO payable or one that raises a PAGO payable,
   * which leave an old timestamp behind; and an automatic payable of zero.
   */
  predicate Refused(db: Db, step: Step)
    requires Call(db, step).Ok?
  {
    match step
    case DoApplyAdjustment(id, policy, start, end) =>
      var row := db.receivables[id];
      var window := MonetaryAdjustment.Window(policy.value.values, MonetaryAdjustment.EffectiveStart(policy.value, start), end);
      var adjusted := MonetaryAdjustment.Adjusted(row.adjusted, window);
      (row.status == Pago && adjusted != row.adjusted) || (row.status == Parcial && adjusted == row.paid)
    case DoUpdatePayable(id, original) =>
      var row := db.payables[id];
      row.status == Cancelado || (row.status == Pago && original.Some? && original.value > row.original)
    case DoMarkCommissionDue(id) => db.commissions[id].status == Prevista && db.commissions[id].amount == 0
    case DoCreateReturn(expected) => expected == 0
    case DoUpdateReturn(id, expected) => expected == 0
    case _ => false
  }

  ghost predicate PayablesCheck(payables: seq<Payable>) {
    forall i :: 0 <= i < |payables| ==> PayableCheck(payables[i])
  }

  ghost predicate ReceivablesCheck(receivables: seq<Receivable>) {
    forall i :: 0 <= i < |receivables| ==> ReceivableCheck(receivables[i])
  }

  lemma ReceivableRewritten(before: seq<Receivable>, id: Id, row: Receivable)
    requires id < |before| && ReceivablesCheck(before)
    ensures ReceivablesCheck(before[id := row]) <==> ReceivableCheck(row)
  {
    assert before[id := row][id] == row;
  }

  lemma PayableRewritten(before: seq<Payable>, id: Id, row: Payable)
    requires id < |before| && PayablesCheck(before)
    ensures PayablesCheck(before[id := row]) <==> PayableCheck(row)
  {
    assert before[id := row][id] == row;
  }

  lemma PayableAppended(before: seq<Payable>, row: Payable)
    requires PayablesCheck(before)
    ensures PayablesCheck(before + [row]) <==> PayableCheck(row)
  {
    assert (before + [row])[|before|] == row;
  }

  lemma EntriesCheck(db: Db)
    requires Inv(db)
    ensures forall i :: 0 <= i < |db.entries| ==> EntryCheck(db.entries[i])
  {
  }

  /** Payments, transactions, sales and commissions meet their constraints in every state the services reach. */
  lemma MoneyTablesCheck(db: Db)
    requires Inv(db)
    ensures forall i :: 0 <= i < |db.payments| ==> PaymentCheck(db.payments[i])
    ensures forall i :: 0 <= i < |db.transactions| ==> TransactionCheck(db.transactions[i])
    ensures forall i :: 0 <= i < |db.sales| ==> SaleCheck(db.sales[i])
  {
    forall i | 0 <= i < |db.transactions|
      ensures TransactionCheck(db.transactions[i])
    {
      assert IsTransactionOf(db.transactions[i], db.payments[i], i) && PaymentOk(db.payments[i], |db.receivables|, |db.payables|);
    }
    forall i | 0 <= i < |db.sales|
      ensures SaleCheck(db.sales[i])
    {
      assert SaleOk(db.sales[i], i, db.receivables);
    }
  }

  /** The checks that are in question: the other tables are right in every state the services reach. */
  lemma ChecksOfRows(db: Db)
    requires Inv(db)
    ensures Checks(db) <==> ReceivablesCheck(db.receivables) && PayablesCheck(db.payables)
  {
    EntriesCheck(db);
    MoneyTablesCheck(db);
  }

  lemma AdjustmentChecks(db: Db, step: Step)
    requires Inv(db) && ReceivablesCheck(db.receivables) && step.DoApplyAdjustment? && Call(db, step).Ok?
    ensures var after := Call(db, step).value;
            && after.payables == db.payables
            && (ReceivablesCheck(after.receivables) <==> !Refused(db, step))
  {
    var id, after := step.receivable, Call(db, step).value;
    assert ReceivableCheck(db.receivables[id]);
    ReceivableRewritten(db.receivables, id, after.receivables[id]);
  }

  lemma SaleEditChecks(db: Db, step: Step)
    requires ReceivablesOk(db.receivables, |db.sales|) && PayablesOk(db.payables)
    requires ReceivablesCheck(db.receivables) && PayablesCheck(db.payables) && Call(db, step).Ok?
    requires !step.DoApplyAdjustment? && !OnPayables(step) && !OnEntries(step) && !MovesMoney(step)
    ensures ReceivablesCheck(Call(db, step).value.receivables) && PayablesCheck(Call(db, step).value.payables)
  {
    match step
    case DoRegisterSale(net, plans, due, commissions) =>
      Installments.GenerateConserves(plans, due);
    case _ =>
  }

  lemma UpdatePayableChecks(db: Db, id: Id, amount: Option<Positive>)
    requires Inv(db) && PayablesCheck(db.payables) && UpdatePayable(db, id, amount).Ok?
    ensures PayablesCheck(UpdatePayable(db, id, amount).value.payables) <==> !Refused(db, DoUpdatePayable(id, amount))
  {
    assert PayableCheck(db.payables[id]);
    PayableRewritten(db.payables, id, UpdatePayable(db, id, amount).value.payables[id]);
  }

  lemma MarkCommissionDueChecks(db: Db, id: Id)
    requires Inv(db) && PayablesCheck(db.payables) && MarkCommissionDue(db, id).Ok?
    ensures PayablesCheck(MarkCommissionDue(db, id).value.payables) <==> !Refused(db, DoMarkCommissionDue(id))
  {
    var row := db.commissions[id];
    assert CommissionOk(row, id, db.sales, db.payables);
    var found := PayableOf(db.payables, ForCommission(id));
    if found.Some? {
      assert OriginOk(db.payables[found.value], db.commissions, db.investorReturns);
    } else {
      PayableAppended(db.payables, NewPayable(ForCommission(id), row.amount));
    }
  }

  lemma UpdateReturnChecks(db: Db, id: Id, expected: nat)
    requires Inv(db) && PayablesCheck(db.payables) && UpdateReturn(db, id, expected).Ok?
    ensures PayablesCheck(UpdateReturn(db, id, expected).value.payables) <==> !Refused(db, DoUpdateReturn(id, expected))
  {
    assert HasPayable(db.payables, ForReturn(id));
    var p := PayableOf(db.payables, ForReturn(id)).value;
    assert PayableCheck(db.payables[p]);
    PayableRewritten(db.payables, p, db.payables[p].(original := expected));
  }

  lemma CancelPayableChecks(db: Db, id: Id, now: Time)
    requires Inv(db) && PayablesCheck(db.payables) && CancelPayable(db, id, now).Ok?
    ensures PayablesCheck(CancelPayable(db, id, now).value.payables)
  {
  }

  lemma NewPayableChecks(db: Db, step: Step)
    requires PayablesCheck(db.payables) && (step.DoCreatePayable? || step.DoCreateReturn?)
    ensures Call(db, step).Ok? && Call(db, step).value.receivables == db.receivables
    ensures PayablesCheck(Call(db, step).value.payables) <==> !Refused(db, step)
  {
    if step.DoCreatePayable? {
      PayableAppended(db.payables, NewPayable(Manual, step.amount));
    } else {
      PayableAppended(db.payables, NewPayable(ForReturn(|db.investorReturns|), step.expected));
    }
  }

  lemma ManualPayableChecks(db: Db, step: Step)
    requires Inv(db) && PayablesCheck(db.payables) && (step.DoUpdatePayable? || step.DoCancelPayable?) && Call(db, step).Ok?
    ensures Call(db, step).value.receivables == db.receivables
    ensures PayablesCheck(Call(db, step).value.payables) <==> !Refused(db, step)
  {
    if step.DoUpdatePayable? {
      UpdatePayableChecks(db, step.payable, step.original);
    } else {
      CancelPayableChecks(db, step.payable, step.now);
    }
  }

  lemma OriginChecks(db: Db, step: Step)
    requires Inv(db) && PayablesCheck(db.payables) && (step.DoMarkCommissionDue? || step.DoUpdateReturn?) && Call(db, step).Ok?
    ensures Call(db, step).value.receivables == db.receivables
    ensures PayablesCheck(Call(db, step).value.payables) <==> !Refused(db, step)
  {
    if step.DoMarkCommissionDue? {
      MarkCommissionDueChecks(db, step.commissionId);
    } else {
      UpdateReturnChecks(db, step.investorReturn, step.expected);
    }
  }

  lemma PayableEditChecks(db: Db, step: Step)
    requires Inv(db) && PayablesCheck(db.payables) && Call(db, step).Ok?
    requires OnPayables(step) && !MovesMoney(step)
    ensures var after := Call(db, step).value;
            && after.receivables == db.receivables
            && (PayablesCheck(after.payables) <==> !Refused(db, step))
  {
    if step.DoCreatePayable? || step.DoCreateReturn? {
      NewPayableChecks(db, step);
    } else if step.DoUpdatePayable? || step.DoCancelPayable? {
      ManualPayableChecks(db, step);
    } else {
      OriginChecks(db, step);
    }
  }

  lemma PaymentChecks(db: Db, id: Id, account: Id, amount: Positive, paidAt: Time, now: Time)
    requires ReceivablesCheck(db.receivables) && RecordReceivablePayment(db, id, account, amount, paidAt, now).Ok?
    ensures var after := RecordReceivablePayment(db, id, account, amount, paidAt, now).value;
            ReceivablesCheck(after.receivables) && after.payables == db.payables
  {
    assert ReceivableCheck(db.receivables[id]);
  }

  lemma ReversalChecks(db: Db, id: Id, payment: Id, now: Time)
    requires MoneyOk(db.receivables, db.payables, db.payments, db.transactions)
    requires ReceivablesCheck(db.receivables) && ReverseReceivablePayment(db, id, payment, now).Ok?
    ensures var after := ReverseReceivablePayment(db, id, payment, now).value;
            ReceivablesCheck(after.receivables) && after.payables == db.payables
  {
    ReversalCovered(db, payment);
    var reversed := ReversedRows(db, payment, now);
    assert ReceivableCheck(db.receivables[id]);
  }

  lemma ReceivableMoneyChecks(db: Db, step: Step)
    requires MoneyOk(db.receivables, db.payables, db.payments, db.transactions)
    requires ReceivablesCheck(db.receivables) && Call(db, step).Ok?
    requires MovesMoney(step) && !OnPayables(step)
    ensures ReceivablesCheck(Call(db, step).value.receivables) && Call(db, step).value.payables == db.payables
  {
    if step.DoRecordReceivablePayment? {
      PaymentChecks(db, step.receivable, step.account, step.amount, step.paidAt, step.now);
    } else {
      ReversalChecks(db, step.receivable, step.payment, step.now);
    }
  }

  lemma PayablePaymentChecks(db: Db, id: Id, account: Id, amount: Positive, paidAt: Time, now: Time)
    requires PayablesCheck(db.payables) && RecordPayablePayment(db, id, account, amount, paidAt, now).Ok?
    ensures var after := RecordPayablePayment(db, id, account, amount, paidAt, now).value;
            PayablesCheck(after.payables) && after.receivables == db.receivables
  {
    assert PayableCheck(db.payables[id]);
  }

  lemma PayableReversalChecks(db: Db, id: Id, payment: Id, now: Time)
    requires MoneyOk(db.receivables, db.payables, db.payments, db.transactions)
    requires PayablesCheck(db.payables) && ReversePayablePayment(db, id, payment, now).Ok?
    ensures var after := ReversePayablePayment(db, id, payment, now).value;
            PayablesCheck(after.payables) && after.receivables == db.receivables
  {
    ReversalCovered(db, payment);
    var reversed := ReversedRows(db, payment, now);
    assert PayableCheck(db.payables[id]);
  }

  lemma PayableMoneyChecks(db: Db, step: Step)
    requires MoneyOk(db.receivables, db.payables, db.payments, db.transactions)
    requires PayablesCheck(db.payables) && Call(db, step).Ok?
    requires MovesMoney(step) && OnPayables(step)
    ensures PayablesCheck(Call(db, step).value.payables) && Call(db, step).value.receivables == db.receivables
  {
    if step.DoRecordPayablePayment? {
      PayablePaymentChecks(db, step.payable, step.account, step.amount, step.paidAt, step.now);
    } else {
      PayableReversalChecks(db, step.payable, step.payment, step.now);
    }
  }

  lemma MoneyStepChecks(db: Db, step: Step)
    requires MoneyOk(db.receivables, db.payables, db.payments, db.transactions)
    requires ReceivablesCheck(db.receivables) && PayablesCheck(db.payables)
    requires MovesMoney(step) && Call(db, step).Ok?
    ensures ReceivablesCheck(Call(db, step).value.receivables) && PayablesCheck(Call(db, step).value.payables)
    ensures !Refused(db, step)
  {
    if OnPayables(step) {
      PayableMoneyChecks(db, step);
    } else {
      ReceivableMoneyChecks(db, step);
    }
  }

  lemma EditChecks(db: Db, step: Step)
    requires Inv(db) && ReceivablesCheck(db.receivables) && PayablesCheck(db.payables)
    requires !MovesMoney(step) && Call(db, step).Ok?
    ensures ReceivablesCheck(Call(db, step).value.receivables) && PayablesCheck(Call(db, step).value.payables) <==> !Refused(db, step)
  {
    if step.DoApplyAdjustment? {
      AdjustmentChecks(db, step);
    } else if OnPayables(step) {
      PayableEditChecks(db, step);
    } else if !OnEntries(step) {
      SaleEditChecks(db, step);
    }
  }

  /** A call from a reachable state breaks a constraint exactly when it is one of those listed. */
  lemma ChecksExactly(db: Db, step: Step)
    requires Inv(db) && Checks(db) && Call(db, step).Ok?
    ensures Checks(Call(db, step).value) <==> !Refused(db, step)
  {
    StepKeeps(db, step);
    ChecksOfRows(db);
    ChecksOfRows(Call(db, step).value);
    if MovesMoney(step) {
      MoneyStepChecks(db, step);
    } else {
      EditChecks(db, step);
    }
  }

  /** The committed state with the constraints in force: a write they refuse is rolled back like an exception. */
  function NextChecked(db: Db, step: Step): Db {
    if Checks(Next(db, step)) then Next(db, step) else db
  }

  function RunChecked(db: Db, steps: seq<Step>): Db {
    if steps == [] then db else NextChecked(RunChecked(db, steps[..|steps| - 1]), steps[|steps| - 1])
  }

  /**
   * With the constraints in force every run, adjustments included, keeps the invariant, and PAGO means exactly
   * that the adjusted amount was paid.
   */
  lemma {:induction false} CheckedRuns(accounts: set<Id>, steps: seq<Step>)
    ensures Inv(RunChecked(Empty(accounts), steps)) && Checks(RunChecked(Empty(accounts), steps))
    ensures var rows := RunChecked(Empty(accounts), steps).receivables;
            forall i :: 0 <= i < |rows| && rows[i].adjusted > 0 ==> (rows[i].status == Pago <==> rows[i].paid == rows[i].adjusted)
  {
    if steps == [] {
      EmptyOk(accounts);
    } else {
      CheckedRuns(accounts, steps[..|steps| - 1]);
      StepKeeps(RunChecked(Empty(accounts), steps[..|steps| - 1]), steps[|steps| - 1]);
    }
    var rows := RunChecked(Empty(accounts), steps).receivables;
    forall i | 0 <= i < |rows| && rows[i].adjusted > 0
      ensures rows[i].status == Pago <==> rows[i].paid == rows[i].adjusted
    {
      assert ReceivableCheck(rows[i]);
    }
  }
}
