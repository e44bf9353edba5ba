/** Safety over whole runs of the ledger: what holds in every reachable state. */
module LedgerRuns {
  import opened Common
  import opened Sums
  import Installments
  import MonetaryAdjustment
  import opened Ledger
  import opened LedgerInvariant
  import opened LedgerMoney
  import opened LedgerTables
  import opened LedgerSteps

  // --------------------------------------------------------------------------------------- invariant

  /** The steps of the payables service and of the returns. */
  predicate OnPayables(step: Step) {
    || step.DoCreatePayable? || step.DoUpdatePayable? || step.DoRecordPayablePayment? || step.DoReversePayablePayment?
    || step.DoCancelPayable? || step.DoMarkCommissionDue? || step.DoCreateReturn? || step.DoUpdateReturn?
  }

  /** The steps of the bank reconciliation. */
  predicate OnEntries(step: Step) {
    step.DoImportEntry? || step.DoMatch? || step.DoUnmatch? || step.DoIgnore? || step.DoRestore?
  }

  /** The steps that post or reverse a payment. */
  predicate MovesMoney(step: Step) {
    || step.DoRecordReceivablePayment? || step.DoReverseReceivablePayment?
    || step.DoRecordPayablePayment? || step.DoReversePayablePayment?
  }

  lemma SaleStepKeeps(db: Db, step: Step)
    requires Inv(db) && !OnPayables(step) && !OnEntries(step) && Call(db, step).Ok?
    ensures Inv(Call(db, step).value)
  {
    match step
    case DoRegisterSale(net, plans, due, commissions) => RegisterSaleKeeps(db, net, plans, due, commissions);
    case DoAddCommission(sale, commission) => AddCommissionKeeps(db, sale, commission);
    case DoCancelSale(sale, now) => CancelSaleKeeps(db, sale, now);
    case DoRecordReceivablePayment(id, account, amount, paidAt, now) => RecordReceivablePaymentKeeps(db, id, account, amount, paidAt, now);
    case DoReverseReceivablePayment(id, payment, now) => ReverseReceivablePaymentKeeps(db, id, payment, now);
    case DoCancelReceivable(id, now) => CancelReceivableKeeps(db, id, now);
    case DoApplyAdjustment(id, policy, start, end) => ApplyAdjustmentKeeps(db, id, policy, start, end);
  }

  lemma PayableMoneyStepKeeps(db: Db, step: Step)
    requires Inv(db) && OnPayables(step) && MovesMoney(step) && Call(db, step).Ok?
    ensures Inv(Call(db, step).value)
  {
    if step.DoRecordPayablePayment? {
      RecordPayablePaymentKeeps(db, step.payable, step.account, step.amount, step.paidAt, step.now);
    } else {
      ReversePayablePaymentKeeps(db, step.payable, step.payment, step.now);
    }
  }

  lemma OriginStepKeeps(db: Db, step: Step)
    requires Inv(db) && (step.DoMarkCommissionDue? || step.DoCreateReturn? || step.DoUpdateReturn?) && Call(db, step).Ok?
    ensures Inv(Call(db, step).value)
  {
    if step.DoMarkCommissionDue? {
      MarkCommissionDueKeeps(db, step.commissionId);
    } else if step.DoCreateReturn? {
      CreateReturnKeeps(db, step.expected);
    } else {
      UpdateReturnKeeps(db, step.investorReturn, step.expected);
    }
  }

  lemma PayableStepKeeps(db: Db, step: Step)
    requires Inv(db) && OnPayables(step) && Call(db, step).Ok?
    ensures Inv(Call(db, step).value)
  {
    if MovesMoney(step) {
      PayableMoneyStepKeeps(db, step);
    } else if step.DoCreatePayable? {
      CreatePayableKeeps(db, step.amount);
    } else if step.DoUpdatePayable? {
      UpdatePayableKeeps(db, step.payable, step.original);
    } else if step.DoCancelPayable? {
      CancelPayableKeeps(db, step.payable, step.now);
    } else {
      OriginStepKeeps(db, step);
    }
  }

  lemma EntryStepKeeps(db: Db, step: Step)
    requires Inv(db) && OnEntries(step) && Call(db, step).Ok?
    ensures Inv(Call(db, step).value)
  {
    match step
    case DoImportEntry(account, kind, amount) => ImportEntryKeeps(db, account, kind, amount);
    case DoMatch(entry, transaction, now) => MatchKeeps(db, entry, transaction, now);
    case DoUnmatch(entry, now) => ChangeStatusKeeps(db, entry, Conciliado, EntryStatus.Pendente, now);
    case DoIgnore(entry, now) => ChangeStatusKeeps(db, entry, EntryStatus.Pendente, Ignorado, now);
    case DoRestore(entry, now) => ChangeStatusKeeps(db, entry, Ignorado, EntryStatus.Pendente, now);
  }

  lemma StepKeeps(db: Db, step: Step)
    requires Inv(db)
    ensures Inv(Next(db, step))
  {
    if Call(db, step).Ok? {
      if OnPayables(step) {
        PayableStepKeeps(db, step);
      } else if OnEntries(step) {
        EntryStepKeeps(db, step);
      } else {
        SaleStepKeeps(db, step);
      }
    }
  }

  /** The invariant holds after every run from a state that has it, and an empty organisation has it. */
  lemma {:induction false} RunKeeps(db: Db, steps: seq<Step>)
    requires Inv(db)
    ensures Inv(Run(db, steps))
  {
    if steps != [] {
      RunKeeps(db, steps[..|steps| - 1]);
      StepKeeps(Run(db, steps[..|steps| - 1]), steps[|steps| - 1]);
    }
  }

  lemma EmptyOk(accounts: set<Id>)
    ensures Inv(Empty(accounts))
  {
  }

  /**
   * In every reachable state the paid amounts are the sums of the unreversed payments, between zero and the amount
   * due, and the cash balance is everything received minus everything paid out.
   */
  lemma MoneyAlwaysConserved(accounts: set<Id>, steps: seq<Step>)
    ensures var db := Run(Empty(accounts), steps);
            && CashBalance(db.transactions) == PaidIn(db.receivables) - PaidOut(db.payables)
            && (forall i :: 0 <= i < |db.receivables| ==>
                  0 <= db.receivables[i].paid == Live(db.payments, ReceivableTarget(i)) <= db.receivables[i].adjusted)
            && (forall i :: 0 <= i < |db.payables| ==>
                  0 <= db.payables[i].paid == Live(db.payments, PayableTarget(i)) <= db.payables[i].original)
            && Paired(db.payments, db.transactions)
  {
    EmptyOk(accounts);
    RunKeeps(Empty(accounts), steps);
    var db := Run(Empty(accounts), steps);
    CashConserved(db.receivables, db.payables, db.payments, db.transactions);
    forall i | 0 <= i < |db.receivables|
      ensures 0 <= db.receivables[i].paid <= db.receivables[i].adjusted
    {
      assert ReceivableOk(db.receivables[i], |db.sales|);
    }
    forall i | 0 <= i < |db.payables|
      ensures 0 <= db.payables[i].paid <= db.payables[i].original
    {
      assert PayableOk(db.payables[i]);
    }
  }

  /** Reconciliation over every run: a partial injection between entries and live corresponding transactions. */
  lemma MatchingAlwaysInjective(accounts: set<Id>, steps: seq<Step>)
    ensures var db := Run(Empty(accounts), steps);
            && (forall i :: 0 <= i < |db.entries| ==> (db.entries[i].status == Conciliado <==> db.entries[i].matched.Some?))
            && (forall i :: 0 <= i < |db.entries| && db.entries[i].matched.Some? ==>
                  && db.entries[i].matched.value < |db.transactions|
                  && var t := db.transactions[db.entries[i].matched.value];
                     t.reversedAt.None? && t.account == db.entries[i].account && t.kind == db.entries[i].kind && t.amount == db.entries[i].amount)
            && (forall i, j :: 0 <= i < j < |db.entries| && db.entries[i].matched.Some? ==> db.entries[i].matched != db.entries[j].matched)
  {
    EmptyOk(accounts);
    RunKeeps(Empty(accounts), steps);
    var db := Run(Empty(accounts), steps);
    forall i | 0 <= i < |db.entries|
      ensures EntryOk(db.entries[i], db.transactions)
    {
    }
  }

  /** The sale has an active receivable, and every active one is PAGO. */
  ghost predicate FullyPaid(receivables: seq<Receivable>, sale: Id) {
    && (exists i :: 0 <= i < |receivables| && receivables[i].sale == sale && receivables[i].status != Cancelado)
    && (forall i :: 0 <= i < |receivables| && receivables[i].sale == sale && receivables[i].status != Cancelado ==>
          receivables[i].status == Pago)
  }

  /** In every run: a sale in force is QUITADA exactly when it has an uncancelled receivable and all of them are PAGO. */
  lemma SaleStatusAlwaysSynced(accounts: set<Id>, steps: seq<Step>, sale: Id)
    requires sale < |Run(Empty(accounts), steps).sales|
    ensures var db := Run(Empty(accounts), steps);
            && db.sales[sale].status != SaleStatus.Cancelada
            && (db.sales[sale].status != Distratada ==> (db.sales[sale].status == Quitada <==> FullyPaid(db.receivables, sale)))
            && (db.sales[sale].status == Distratada ==>
                  forall i :: 0 <= i < |db.receivables| && db.receivables[i].sale == sale ==> db.receivables[i].status == Cancelado)
  {
    EmptyOk(accounts);
    RunKeeps(Empty(accounts), steps);
    var db := Run(Empty(accounts), steps);
    assert SaleOk(db.sales[sale], sale, db.receivables);
  }

  // ------------------------------------------------------------------------------------- outstanding

  lemma {:induction false} OpenBalanceOfUntouched(receivables: seq<Receivable>, sale: Id)
    requires forall i :: 0 <= i < |receivables| && receivables[i].sale == sale ==>
               receivables[i].status != Cancelado && receivables[i].adjusted == receivables[i].original
    ensures OpenBalance(receivables, sale) == SaleTotal(receivables, sale) - SalePaid(receivables, sale)
  {
    if receivables != [] {
      OpenBalanceOfUntouched(receivables[..|receivables| - 1], sale);
    }
  }

  /** A sale is worth something, so it has a receivable. */
  lemma HasReceivable(db: Db, sale: Id)
    requires SalesOk(db.sales, db.receivables) && sale < |db.sales|
    ensures exists i :: 0 <= i < |db.receivables| && db.receivables[i].sale == sale
  {
    assert SaleOk(db.sales[sale], sale, db.receivables);
    if forall i :: 0 <= i < |db.receivables| ==> db.receivables[i].sale != sale {
      SaleTotalOfOthers(db.receivables, sale);
    }
  }

  /**
   * While no receivable of the sale is cancelled or adjusted, the outstanding balance it is presented with is its
   * net amount minus the live payments on its receivables.
   */
  lemma OutstandingIsNetMinusPaid(accounts: set<Id>, steps: seq<Step>, sale: Id)
    requires sale < |Run(Empty(accounts), steps).sales|
    requires var db := Run(Empty(accounts), steps);
             forall i :: 0 <= i < |db.receivables| && db.receivables[i].sale == sale ==>
               db.receivables[i].status != Cancelado && db.receivables[i].adjusted == db.receivables[i].original
    ensures var db := Run(Empty(accounts), steps);
            Outstanding(db, sale) == db.sales[sale].net - LiveOn(db.payments, SaleTargets(db.receivables, sale))
  {
    EmptyOk(accounts);
    RunKeeps(Empty(accounts), steps);
    OutstandingOfUntouched(Run(Empty(accounts), steps), sale);
  }

  lemma OutstandingOfUntouched(db: Db, sale: Id)
    requires Inv(db) && sale < |db.sales|
    requires forall i :: 0 <= i < |db.receivables| && db.receivables[i].sale == sale ==>
               db.receivables[i].status != Cancelado && db.receivables[i].adjusted == db.receivables[i].original
    ensures Outstanding(db, sale) == db.sales[sale].net - LiveOn(db.payments, SaleTargets(db.receivables, sale))
  {
    assert SaleOk(db.sales[sale], sale, db.receivables);
    OpenBalanceOfUntouched(db.receivables, sale);
    SalePaidIsLive(db.receivables, db.payments, sale);
    HasReceivable(db, sale);
  }

  /** In every run, with or without adjustment: nothing paid means PENDENTE or CANCELADO, something paid PARCIAL or PAGO. */
  lemma StatusFollowsPaid(accounts: set<Id>, steps: seq<Step>, id: Id)
    requires id < |Run(Empty(accounts), steps).receivables|
    ensures var r := Run(Empty(accounts), steps).receivables[id];
            && (r.status == Status.Pendente || r.status == Cancelado <==> r.paid == 0)
            && (r.status == Parcial || r.status == Pago <==> 0 < r.paid)
  {
    EmptyOk(accounts);
    RunKeeps(Empty(accounts), steps);
    assert ReceivableOk(Run(Empty(accounts), steps).receivables[id], |Run(Empty(accounts), steps).sales|);
  }

  /** In every run the adjusted amount is the original amount plus the recorded differences, and covers what was paid. */
  lemma AdjustedIsOriginalPlusDifferences(accounts: set<Id>, steps: seq<Step>, id: Id)
    requires id < |Run(Empty(accounts), steps).receivables|
    ensures var db := Run(Empty(accounts), steps);
            && db.receivables[id].adjusted == db.receivables[id].original + Differences(db.adjustments, id)
            && db.receivables[id].paid <= db.receivables[id].adjusted
  {
    EmptyOk(accounts);
    RunKeeps(Empty(accounts), steps);
    assert ReceivableOk(Run(Empty(accounts), steps).receivables[id], |Run(Empty(accounts), steps).sales|);
  }

  /**
   * In every run a payable and its origin agree: an automatic payable carries the amount of its commission or
   * return, and is PAGO or CANCELADO exactly when the origin is.
   */
  lemma OriginsAlwaysAgree(accounts: set<Id>, steps: seq<Step>, p: Id)
    requires p < |Run(Empty(accounts), steps).payables|
    ensures var db := Run(Empty(accounts), steps);
            OriginOk(db.payables[p], db.commissions, db.investorReturns)
  {
    EmptyOk(accounts);
    RunKeeps(Empty(accounts), steps);
  }
}
