/** What no run of the ledger undoes: closed rows, the payment history, and the distrato of a sale. */
module LedgerHistory {
  import opened Common
  import Installments
  import opened Ledger
  import opened LedgerInvariant
  import opened LedgerMoney
  import opened LedgerTables
  import opened LedgerSteps
  import opened LedgerRuns

  // ----------------------------------------------------------------------------------- never undone

  predicate ReceivableLater(r: Receivable, r': Receivable) {
    && r'.sale == r.sale && r'.original == r.original
    && (r.status == Cancelado ==> r'.status == Cancelado && r'.paid == r.paid && r'.adjusted == r.adjusted)
  }

  predicate SaleLater(s: Sale, s': Sale) {
    s'.net == s.net && (s.status == Distratada ==> s'.status == Distratada)
  }

  predicate CommissionLater(c: Commission, c': Commission) {
    c'.sale == c.sale && c'.amount == c.amount && (c.status == CommissionStatus.Cancelada ==> c' == c)
  }

  predicate PayableLater(p: Payable, p': Payable) {
    p'.source == p.source && (p.source.ForCommission? && p.status == Cancelado ==> p'.status == Cancelado && p'.paid == p.paid)
  }

  /** A payment row is immutable but for its single reversal. */
  predicate PaymentLater(p: Payment, p': Payment) {
    p' == p || (p.reversedAt.None? && p'.reversedAt.Some? && p' == p.(reversedAt := p'.reversedAt))
  }

  /** Targets on which no money moves any more. */
  predicate Closed(db: Db, target: Target) {
    match target
    case ReceivableTarget(i) => i < |db.receivables| && db.receivables[i].status == Cancelado
    case PayableTarget(i) => i < |db.payables| && db.payables[i].source.ForCommission? && db.payables[i].status == Cancelado
  }

  ghost predicate FrozenPayments(a: Db, payments: seq<Payment>) {
    forall k :: 0 <= k < |payments| && Closed(a, payments[k].target) ==> k < |a.payments| && payments[k] == a.payments[k]
  }

  ghost predicate RowsLater(a: Db, b: Db) {
    && |a.receivables| <= |b.receivables|
    && (forall i :: 0 <= i < |a.receivables| ==> ReceivableLater(a.receivables[i], b.receivables[i]))
    && |a.sales| <= |b.sales|
    && (forall i :: 0 <= i < |a.sales| ==> SaleLater(a.sales[i], b.sales[i]))
    && |a.commissions| <= |b.commissions|
    && (forall i :: 0 <= i < |a.commissions| ==> CommissionLater(a.commissions[i], b.commissions[i]))
    && |a.payables| <= |b.payables|
    && (forall i :: 0 <= i < |a.payables| ==> PayableLater(a.payables[i], b.payables[i]))
  }

  ghost predicate PaymentsLater(a: Db, payments: seq<Payment>) {
    && |a.payments| <= |payments|
    && (forall i :: 0 <= i < |a.payments| ==> PaymentLater(a.payments[i], payments[i]))
    && FrozenPayments(a, payments)
  }

  /** b can come after a: nothing closed is reopened, no history is rewritten. */
  ghost predicate Later(a: Db, b: Db) {
    RowsLater(a, b) && PaymentsLater(a, b.payments)
  }

  lemma LaterTransitive(a: Db, b: Db, c: Db)
    requires Later(a, b) && Later(b, c)
    ensures Later(a, c)
  {
  }

  lemma PostedLater(db: Db, p: Payment)
    requires !Closed(db, p.target)
    ensures PaymentsLater(db, db.payments + [p])
  {
  }

  lemma ReversedLater(db: Db, payment: Id, now: Time)
    requires payment < |db.payments| && db.payments[payment].reversedAt.None? && !Closed(db, db.payments[payment].target)
    ensures PaymentsLater(db, db.payments[payment := db.payments[payment].(reversedAt := Some(now))])
  {
  }

  lemma ReversalLater(db: Db, id: Id, payment: Id, now: Time)
    requires Inv(db) && ReverseReceivablePayment(db, id, payment, now).Ok?
    ensures Later(db, ReverseReceivablePayment(db, id, payment, now).value)
  {
    ReversalNeverInconsistent(db, id, payment, now);
    ReversedLater(db, payment, now);
    var reversed := ReversedRows(db, payment, now);
  }

  lemma PayableReversalLater(db: Db, id: Id, payment: Id, now: Time)
    requires Inv(db) && ReversePayablePayment(db, id, payment, now).Ok?
    ensures Later(db, ReversePayablePayment(db, id, payment, now).value)
  {
    PayableReversalNeverInconsistent(db, id, payment, now);
    ReversedLater(db, payment, now);
    var reversed := ReversedRows(db, payment, now);
    assert OriginOk(db.payables[id], db.commissions, db.investorReturns);
  }

  lemma PaymentLaterOfReceivable(db: Db, id: Id, account: Id, amount: Positive, paidAt: Time, now: Time)
    requires Inv(db) && RecordReceivablePayment(db, id, account, amount, paidAt, now).Ok?
    ensures Later(db, RecordReceivablePayment(db, id, account, amount, paidAt, now).value)
  {
    PostedLater(db, Payment(ReceivableTarget(id), account, amount, paidAt, None));
  }

  lemma PaymentLaterOfPayable(db: Db, id: Id, account: Id, amount: Positive, paidAt: Time, now: Time)
    requires Inv(db) && RecordPayablePayment(db, id, account, amount, paidAt, now).Ok?
    ensures Later(db, RecordPayablePayment(db, id, account, amount, paidAt, now).value)
  {
    PostedLater(db, Payment(PayableTarget(id), account, amount, paidAt, None));
    OriginNotCancelled(db, id);
    SettledRowsLater(db, id, PayablePaid(db.payables[id], amount, paidAt),
                     Posted(db, PayableTarget(id), account, amount, paidAt));
  }

  lemma OriginNotCancelled(db: Db, id: Id)
    requires OriginsOk(db.payables, db.commissions, db.investorReturns) && id < |db.payables| && db.payables[id].status != Cancelado
    ensures db.payables[id].source.ForCommission? ==>
              db.payables[id].source.commission < |db.commissions|
              && db.commissions[db.payables[id].source.commission].status != CommissionStatus.Cancelada
  {
    assert OriginOk(db.payables[id], db.commissions, db.investorReturns);
  }

  /** A payable that is not cancelled is paid and its origin follows; the other tables are as they were. */
  lemma SettledRowsLater(db: Db, id: Id, settled: Payable, posted: Db)
    requires id < |db.payables| && db.payables[id].status != Cancelado
    requires settled.source == db.payables[id].source
    requires settled.source.ForCommission? ==>
               settled.source.commission < |db.commissions|
               && db.commissions[settled.source.commission].status != CommissionStatus.Cancelada
    requires posted.receivables == db.receivables && posted.sales == db.sales && posted.commissions == db.commissions
    ensures RowsLater(db, SyncSource(posted.(payables := db.payables[id := settled]), settled))
  {
  }

  lemma SaleTablesLater(db: Db, step: Step)
    requires (step.DoRegisterSale? || step.DoAddCommission? || step.DoCancelSale?) && Call(db, step).Ok?
    ensures RowsLater(db, Call(db, step).value) && Call(db, step).value.payments == db.payments
  {
  }

  lemma ReceivableEditLater(db: Db, step: Step)
    requires (step.DoCancelReceivable? || step.DoApplyAdjustment?) && Call(db, step).Ok?
    ensures RowsLater(db, Call(db, step).value) && Call(db, step).value.payments == db.payments
  {
  }

  lemma SaleEditLater(db: Db, step: Step)
    requires !OnPayables(step) && !OnEntries(step) && !MovesMoney(step) && Call(db, step).Ok?
    ensures RowsLater(db, Call(db, step).value) && Call(db, step).value.payments == db.payments
  {
    if step.DoCancelReceivable? || step.DoApplyAdjustment? {
      ReceivableEditLater(db, step);
    } else {
      SaleTablesLater(db, step);
    }
  }

  lemma ManualPayableLater(db: Db, step: Step)
    requires (step.DoCreatePayable? || step.DoUpdatePayable? || step.DoCancelPayable?) && Call(db, step).Ok?
    ensures RowsLater(db, Call(db, step).value) && Call(db, step).value.payments == db.payments
  {
  }

  lemma OriginEditLater(db: Db, step: Step)
    requires (step.DoMarkCommissionDue? || step.DoCreateReturn? || step.DoUpdateReturn?) && Call(db, step).Ok?
    ensures RowsLater(db, Call(db, step).value) && Call(db, step).value.payments == db.payments
  {
  }

  lemma PayableEditLater(db: Db, step: Step)
    requires OnPayables(step) && !MovesMoney(step) && Call(db, step).Ok?
    ensures RowsLater(db, Call(db, step).value) && Call(db, step).value.payments == db.payments
  {
    if step.DoMarkCommissionDue? || step.DoCreateReturn? || step.DoUpdateReturn? {
      OriginEditLater(db, step);
    } else {
      ManualPayableLater(db, step);
    }
  }

  lemma MoneyStepLater(db: Db, step: Step)
    requires Inv(db) && MovesMoney(step) && Call(db, step).Ok?
    ensures Later(db, Call(db, step).value)
  {
    match step
    case DoRecordReceivablePayment(id, account, amount, paidAt, now) => PaymentLaterOfReceivable(db, id, account, amount, paidAt, now);
    case DoReverseReceivablePayment(id, payment, now) => ReversalLater(db, id, payment, now);
    case DoRecordPayablePayment(id, account, amount, paidAt, now) => PaymentLaterOfPayable(db, id, account, amount, paidAt, now);
    case DoReversePayablePayment(id, payment, now) => PayableReversalLater(db, id, payment, now);
  }

  lemma EditLater(db: Db, step: Step)
    requires !MovesMoney(step) && Call(db, step).Ok?
    ensures RowsLater(db, Call(db, step).value) && Call(db, step).value.payments == db.payments
  {
    if OnPayables(step) {
      PayableEditLater(db, step);
    } else if !OnEntries(step) {
      SaleEditLater(db, step);
    }
  }

  lemma SamePaymentsLater(a: Db, b: Db)
    requires RowsLater(a, b) && a.payments == b.payments
    ensures Later(a, b)
  {
  }

  lemma StepLater(db: Db, step: Step)
    requires Inv(db)
    ensures Later(db, Next(db, step))
  {
    match Call(db, step)
    case Err(_) =>
      SamePaymentsLater(db, db);
    case Ok(after) =>
      if MovesMoney(step) {
        MoneyStepLater(db, step);
      } else {
        EditLater(db, step);
        SamePaymentsLater(db, after);
      }
  }

  lemma {:induction false} RunLater(db: Db, steps: seq<Step>)
    requires Inv(db)
    ensures Later(db, Run(db, steps))
  {
    if steps != [] {
      var before := Run(db, steps[..|steps| - 1]);
      RunLater(db, steps[..|steps| - 1]);
      RunKeeps(db, steps[..|steps| - 1]);
      StepLater(before, steps[|steps| - 1]);
      LaterTransitive(db, before, Next(before, steps[|steps| - 1]));
    }
  }

  /** The reachable state after some steps, and the one more steps lead to from there. */
  lemma {:induction false} RunConcat(db: Db, before: seq<Step>, after: seq<Step>)
    ensures Run(db, before + after) == Run(Run(db, before), after)
  {
    if after == [] {
      assert before + after == before;
    } else {
      assert (before + after)[..|before + after| - 1] == before + after[..|after| - 1];
      RunConcat(db, before, after[..|after| - 1]);
    }
  }

  lemma ReachableLater(accounts: set<Id>, before: seq<Step>, after: seq<Step>)
    ensures var now, later := Run(Empty(accounts), before), Run(Empty(accounts), before + after);
            Inv(now) && Inv(later) && Later(now, later)
  {
    EmptyOk(accounts);
    RunKeeps(Empty(accounts), before);
    RunConcat(Empty(accounts), before, after);
    RunKeeps(Run(Empty(accounts), before), after);
    RunLater(Run(Empty(accounts), before), after);
  }

  /**
   * A cancelled receivable never leaves CANCELADO, whatever runs afterwards: its amounts stay and no payment is
   * posted on it or reversed, although the reversal does not check the status.
   */
  lemma CancelledForever(accounts: set<Id>, before: seq<Step>, after: seq<Step>, id: Id)
    requires var now := Run(Empty(accounts), before);
             id < |now.receivables| && now.receivables[id].status == Cancelado
    ensures var now, later := Run(Empty(accounts), before), Run(Empty(accounts), before + after);
            && id < |later.receivables|
            && later.receivables[id].status == Cancelado
            && later.receivables[id].paid == now.receivables[id].paid == 0
            && later.receivables[id].adjusted == now.receivables[id].adjusted
            && forall k :: 0 <= k < |later.payments| && later.payments[k].target == ReceivableTarget(id) ==>
                 k < |now.payments| && later.payments[k] == now.payments[k]
  {
    ReachableLater(accounts, before, after);
    var now, later := Run(Empty(accounts), before), Run(Empty(accounts), before + after);
    assert ReceivableOk(now.receivables[id], |now.sales|);
    assert ReceivableLater(now.receivables[id], later.receivables[id]);
  }

  /** A target that belongs to a sale: one of its receivables, or a payable of one of its commissions. */
  predicate OnSale(db: Db, target: Target, sale: Id) {
    match target
    case ReceivableTarget(i) => i < |db.receivables| && db.receivables[i].sale == sale
    case PayableTarget(i) => i < |db.payables| && PaysCommissionOf(db.commissions, db.payables[i], sale)
  }

  lemma CommissionPayableCancelled(db: Db, p: Id, sale: Id)
    requires Inv(db) && sale < |db.sales| && db.sales[sale].status == Distratada
    requires p < |db.payables| && PaysCommissionOf(db.commissions, db.payables[p], sale)
    ensures db.payables[p].status == Cancelado && db.payables[p].paid == 0
  {
  }

  /** No payment on a row of the sale is new in b, or different. */
  ghost predicate FrozenSale(a: Db, b: Db, sale: Id) {
    forall k :: 0 <= k < |b.payments| && OnSale(b, b.payments[k].target, sale) ==> k < |a.payments| && b.payments[k] == a.payments[k]
  }

  /** The rows of a distratada sale are closed. */
  lemma DistratoCloses(db: Db, target: Target, sale: Id)
    requires Inv(db) && sale < |db.sales| && db.sales[sale].status == Distratada
    requires OnSale(db, target, sale)
    ensures Closed(db, target)
  {
  }

  /** A row keeps its sale. */
  lemma OnSaleBefore(a: Db, b: Db, target: Target, sale: Id)
    requires Inv(a) && RowsLater(a, b) && OnSale(b, target, sale)
    requires target.id < if target.ReceivableTarget? then |a.receivables| else |a.payables|
    ensures OnSale(a, target, sale)
  {
  }

  lemma ReversalKeepsRows(db: Db, step: Step)
    requires Inv(db) && (step.DoReverseReceivablePayment? || step.DoReversePayablePayment?) && Call(db, step).Ok?
    ensures |Call(db, step).value.receivables| == |db.receivables| && |Call(db, step).value.payables| == |db.payables|
  {
    var reversed := ReversedRows(db, step.payment, step.now);
  }

  lemma PaymentKeepsRows(db: Db, step: Step)
    requires (step.DoRecordReceivablePayment? || step.DoRecordPayablePayment?) && Call(db, step).Ok?
    ensures |Call(db, step).value.receivables| == |db.receivables| && |Call(db, step).value.payables| == |db.payables|
  {
  }

  lemma MoneyStepRows(db: Db, step: Step)
    requires Inv(db) && MovesMoney(step) && Call(db, step).Ok?
    ensures |Call(db, step).value.receivables| == |db.receivables| && |Call(db, step).value.payables| == |db.payables|
  {
    if step.DoReverseReceivablePayment? || step.DoReversePayablePayment? {
      ReversalKeepsRows(db, step);
    } else {
      PaymentKeepsRows(db, step);
    }
  }

  /** One call writes payments of rows that were there before it. */
  lemma StepTargets(db: Db, step: Step)
    requires Inv(db)
    ensures PaymentsOk(Next(db, step).payments, |db.receivables|, |db.payables|)
  {
    match Call(db, step)
    case Err(_) =>
    case Ok(after) =>
      if MovesMoney(step) {
        StepKeeps(db, step);
        MoneyStepRows(db, step);
      } else {
        EditLater(db, step);
      }
  }

  lemma StepFreezes(db: Db, step: Step, sale: Id)
    requires Inv(db) && sale < |db.sales| && db.sales[sale].status == Distratada
    ensures FrozenSale(db, Next(db, step), sale)
  {
    var after := Next(db, step);
    StepLater(db, step);
    StepTargets(db, step);
    forall k | 0 <= k < |after.payments| && OnSale(after, after.payments[k].target, sale)
      ensures k < |db.payments| && after.payments[k] == db.payments[k]
    {
      assert PaymentOk(after.payments[k], |db.receivables|, |db.payables|);
      OnSaleBefore(db, after, after.payments[k].target, sale);
      DistratoCloses(db, after.payments[k].target, sale);
    }
  }

  lemma {:induction false} RunFreezes(db: Db, steps: seq<Step>, sale: Id)
    requires Inv(db) && sale < |db.sales| && db.sales[sale].status == Distratada
    ensures FrozenSale(db, Run(db, steps), sale)
  {
    if steps != [] {
      var front, last := steps[..|steps| - 1], steps[|steps| - 1];
      var middle := Run(db, front);
      RunFreezes(db, front, sale);
      RunKeeps(db, front);
      RunLater(db, front);
      assert SaleLater(db.sales[sale], middle.sales[sale]);
      StepFreezes(middle, last, sale);
      StepTargets(middle, last);
      StepLater(middle, last);
      FrozenTransitive(db, middle, Next(middle, last), sale);
    }
  }

  lemma FrozenTransitive(a: Db, b: Db, c: Db, sale: Id)
    requires Inv(b) && RowsLater(b, c) && PaymentsOk(c.payments, |b.receivables|, |b.payables|)
    requires FrozenSale(a, b, sale) && FrozenSale(b, c, sale)
    ensures FrozenSale(a, c, sale)
  {
  }

  /**
   * DISTRATADA is never left.  From the distrato on, every receivable of the sale and every payable of its
   * commissions is CANCELADO, and no later step moves money on them.
   */
  lemma DistratoIsFinal(accounts: set<Id>, before: seq<Step>, after: seq<Step>, sale: Id)
    requires var now := Run(Empty(accounts), before);
             sale < |now.sales| && now.sales[sale].status == Distratada
    ensures var now, later := Run(Empty(accounts), before), Run(Empty(accounts), before + after);
            && sale < |later.sales| && later.sales[sale].status == Distratada
            && AllCancelled(later.receivables, sale)
            && (forall p :: 0 <= p < |later.payables| && PaysCommissionOf(later.commissions, later.payables[p], sale) ==>
                  later.payables[p].status == Cancelado)
            && FrozenSale(now, later, sale)
  {
    ReachableLater(accounts, before, after);
    var now, later := Run(Empty(accounts), before), Run(Empty(accounts), before + after);
    assert SaleLater(now.sales[sale], later.sales[sale]);
    assert SaleOk(later.sales[sale], sale, later.receivables);
    forall p | 0 <= p < |later.payables| && PaysCommissionOf(later.commissions, later.payables[p], sale)
      ensures later.payables[p].status == Cancelado
    {
      CommissionPayableCancelled(later, p, sale);
    }
    RunConcat(Empty(accounts), before, after);
    RunFreezes(now, after, sale);
  }

  // --------------------------------------------------------------------------- without monetary adjustment

  /** PAGO means fully paid, and the amounts are the original ones. */
  ghost predicate PaidInFull(receivables: seq<Receivable>) {
    forall i :: 0 <= i < |receivables| ==>
      receivables[i].adjusted == receivables[i].original
      && (receivables[i].status == Pago <==> receivables[i].paid == receivables[i].adjusted)
  }

  lemma StepPaysInFull(db: Db, step: Step)
    requires Inv(db) && PaidInFull(db.receivables) && !step.DoApplyAdjustment?
    ensures PaidInFull(Next(db, step).receivables)
  {
    StepKeeps(db, step);
    match Call(db, step)
    case Err(_) =>
    case Ok(after) =>
      if MovesMoney(step) {
        MoneyPaysInFull(db, step);
      } else if !OnPayables(step) && !OnEntries(step) {
        SaleEditPaysInFull(db, step);
      } else {
        OtherReceivablesSame(db, step);
      }
  }

  lemma OtherReceivablesSame(db: Db, step: Step)
    requires (OnPayables(step) || OnEntries(step)) && !MovesMoney(step) && Call(db, step).Ok?
    ensures Call(db, step).value.receivables == db.receivables
  {
  }

  lemma ReversalPaysInFull(db: Db, id: Id, payment: Id, now: Time)
    requires Inv(db) && PaidInFull(db.receivables) && ReverseReceivablePayment(db, id, payment, now).Ok?
    ensures PaidInFull(ReverseReceivablePayment(db, id, payment, now).value.receivables)
  {
  }

  lemma PaymentPaysInFull(db: Db, id: Id, account: Id, amount: Positive, paidAt: Time, now: Time)
    requires PaidInFull(db.receivables) && RecordReceivablePayment(db, id, account, amount, paidAt, now).Ok?
    ensures PaidInFull(RecordReceivablePayment(db, id, account, amount, paidAt, now).value.receivables)
  {
  }

  lemma PayableMoneyLeavesReceivables(db: Db, step: Step)
    requires Inv(db) && (step.DoRecordPayablePayment? || step.DoReversePayablePayment?) && Call(db, step).Ok?
    ensures Call(db, step).value.receivables == db.receivables
  {
    if step.DoReversePayablePayment? {
      var reversed := ReversedRows(db, step.payment, step.now);
    }
  }

  lemma MoneyPaysInFull(db: Db, step: Step)
    requires Inv(db) && PaidInFull(db.receivables) && MovesMoney(step) && Call(db, step).Ok?
    ensures PaidInFull(Call(db, step).value.receivables)
  {
    if step.DoReverseReceivablePayment? {
      ReversalPaysInFull(db, step.receivable, step.payment, step.now);
    } else if step.DoRecordReceivablePayment? {
      PaymentPaysInFull(db, step.receivable, step.account, step.amount, step.paidAt, step.now);
    } else {
      PayableMoneyLeavesReceivables(db, step);
    }
  }

  lemma CancelSalePaysInFull(db: Db, sale: Id, now: Time)
    requires ReceivablesOk(db.receivables, |db.sales|) && PaidInFull(db.receivables) && CancelSale(db, sale, now).Ok?
    ensures PaidInFull(CancelSale(db, sale, now).value.receivables)
  {
  }

  lemma SaleEditPaysInFull(db: Db, step: Step)
    requires ReceivablesOk(db.receivables, |db.sales|) && PaidInFull(db.receivables)
    requires !step.DoApplyAdjustment? && Call(db, step).Ok?
    requires !OnPayables(step) && !OnEntries(step) && !MovesMoney(step)
    ensures PaidInFull(Call(db, step).value.receivables)
  {
    match step
    case DoRegisterSale(net, plans, due, commissions) =>
      Installments.GenerateConserves(plans, due);
    case DoCancelSale(sale, now) =>
      CancelSalePaysInFull(db, sale, now);
    case DoCancelReceivable(id, now) =>
      assert ReceivableOk(db.receivables[id], |db.sales|);
    case _ =>
  }

  /** In runs without monetary adjustment a receivable is PAGO exactly when its paid amount is the adjusted amount. */
  lemma {:induction false} PagoMeansPaidInFull(accounts: set<Id>, steps: seq<Step>)
    requires forall k :: 0 <= k < |steps| ==> !steps[k].DoApplyAdjustment?
    ensures PaidInFull(Run(Empty(accounts), steps).receivables)
  {
    if steps != [] {
      var front := steps[..|steps| - 1];
      PagoMeansPaidInFull(accounts, front);
      EmptyOk(accounts);
      RunKeeps(Empty(accounts), front);
      StepPaysInFull(Run(Empty(accounts), front), steps[|steps| - 1]);
    }
  }
}
