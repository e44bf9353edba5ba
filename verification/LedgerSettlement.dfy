/** Which sales payments alone can bring to QUITADA, from every reachable state, adjustments included. */
module LedgerSettlement {
  import opened Common
  import opened Sums
  import opened Rounding
  import Installments
  import MonetaryAdjustment
  import opened Ledger
  import opened LedgerInvariant
  import opened LedgerRuns
  import opened LedgerHistory
  import opened LedgerConstraints

  // ---------------------------------------------------------------------------------------- condition

  /** A row payments cannot change any more: cancelled, paid, or with nothing left to pay. */
  predicate Finished(r: Receivable) {
    r.status == Cancelado || r.status == Pago || r.adjusted <= r.paid
  }

  /** A row that does not keep its sale from QUITADA: cancelled, paid, or with something left to pay. */
  predicate Unblocked(r: Receivable) {
    r.status == Cancelado || r.status == Pago || r.paid < r.adjusted
  }

  ghost predicate AllUnblocked(receivables: seq<Receivable>, sale: Id) {
    forall i :: 0 <= i < |receivables| && receivables[i].sale == sale ==> Unblocked(receivables[i])
  }

  /** The sale has a receivable that is not cancelled, and each of those is PAGO or has something left to pay. */
  ghost predicate Settleable(receivables: seq<Receivable>, sale: Id) {
    && (exists i :: 0 <= i < |receivables| && receivables[i].sale == sale && receivables[i].status != Cancelado)
    && AllUnblocked(receivables, sale)
  }

  ghost predicate OnlyPayments(steps: seq<Step>) {
    forall k :: 0 <= k < |steps| ==> steps[k].DoRecordReceivablePayment?
  }

  ghost predicate SettledBy(db: Db, sale: Id, payments: seq<Step>) {
    OnlyPayments(payments) && sale < |Run(db, payments).sales| && Run(db, payments).sales[sale].status == Quitada
  }

  ghost predicate CanBeSettled(db: Db, sale: Id) {
    exists payments :: SettledBy(db, sale, payments)
  }

  // ---------------------------------------------------------------------------------- what payments do

  /** Payments leave finished rows as they are, and every row with its sale. */
  ghost predicate OnlyPaid(before: seq<Receivable>, after: seq<Receivable>) {
    && |after| == |before|
    && forall i :: 0 <= i < |before| ==>
         after[i].sale == before[i].sale && (Finished(before[i]) ==> after[i] == before[i])
  }

  lemma PaymentOnlyPays(db: Db, step: Step)
    requires step.DoRecordReceivablePayment?
    ensures OnlyPaid(db.receivables, Next(db, step).receivables)
  {
  }

  lemma {:induction false} PaymentsOnlyPay(db: Db, payments: seq<Step>)
    requires OnlyPayments(payments)
    ensures OnlyPaid(db.receivables, Run(db, payments).receivables)
  {
    if payments != [] {
      PaymentsOnlyPay(db, payments[..|payments| - 1]);
      PaymentOnlyPays(Run(db, payments[..|payments| - 1]), payments[|payments| - 1]);
    }
  }

  /** A sale that is not settleable has a row that blocks it, and payments do not move that row. */
  lemma NotSettleableStays(before: seq<Receivable>, after: seq<Receivable>, sale: Id)
    requires OnlyPaid(before, after) && !Settleable(before, sale)
    ensures !Settled(after, sale)
  {
    if i :| 0 <= i < |before| && before[i].sale == sale && !Unblocked(before[i]) {
      assert Finished(before[i]) && after[i] == before[i];
    }
  }

  // -------------------------------------------------------------------------------------- paying rows

  ghost predicate PaidUpTo(receivables: seq<Receivable>, sale: Id, n: nat)
    requires n <= |receivables|
  {
    forall i :: 0 <= i < n && receivables[i].sale == sale && receivables[i].status != Cancelado ==> receivables[i].status == Pago
  }

  /** One row is paid in full, the others are as they were. */
  ghost predicate PaysRow(before: seq<Receivable>, after: seq<Receivable>, id: Id) {
    && id < |before| == |after| && after[id].status == Pago && after[id].sale == before[id].sale && before[id].status != Cancelado
    && forall i :: 0 <= i < |before| && i != id ==> after[i] == before[i]
  }

  /** The balance of a row with something left to pay is a payment it accepts, and pays it in full. */
  lemma BalanceSettles(db: Db, id: Id, account: Id, now: Time) returns (step: Step)
    requires id < |db.receivables| && account in db.accounts
    requires !Finished(db.receivables[id])
    ensures step.DoRecordReceivablePayment? && PaysRow(db.receivables, Next(db, step).receivables, id)
    ensures Next(db, step).accounts == db.accounts
  {
    step := DoRecordReceivablePayment(id, account, db.receivables[id].adjusted - db.receivables[id].paid, now, now);
  }

  lemma PaidOneMore(before: seq<Receivable>, after: seq<Receivable>, sale: Id, n: nat)
    requires PaysRow(before, after, n) && AllUnblocked(before, sale) && PaidUpTo(before, sale, n)
    ensures AllUnblocked(after, sale) && PaidUpTo(after, sale, n + 1)
  {
  }

  lemma {:induction false} PayRows(db: Db, sale: Id, n: nat, account: Id, now: Time) returns (payments: seq<Step>)
    requires AllUnblocked(db.receivables, sale) && n <= |db.receivables| && account in db.accounts
    ensures OnlyPayments(payments)
    ensures var after := Run(db, payments);
            && after.accounts == db.accounts && |after.receivables| == |db.receivables|
            && AllUnblocked(after.receivables, sale) && PaidUpTo(after.receivables, sale, n)
  {
    payments := [];
    if n > 0 {
      payments := PayRows(db, sale, n - 1, account, now);
      var before := Run(db, payments);
      if before.receivables[n - 1].sale == sale && !Finished(before.receivables[n - 1]) {
        var step := BalanceSettles(before, n - 1, account, now);
        PaidOneMore(before.receivables, Next(before, step).receivables, sale, n - 1);
        assert (payments + [step])[..|payments|] == payments;
        payments := payments + [step];
      }
    }
  }

  lemma PaidIsSettled(before: seq<Receivable>, after: seq<Receivable>, sale: Id)
    requires Settleable(before, sale) && OnlyPaid(before, after) && PaidUpTo(after, sale, |after|)
    requires forall i :: 0 <= i < |before| && before[i].status != Cancelado ==> after[i].status != Cancelado
    ensures Settled(after, sale)
  {
    var i :| 0 <= i < |before| && before[i].sale == sale && before[i].status != Cancelado;
    assert after[i].sale == sale && after[i].status != Cancelado;
  }

  /** Payments cancel no receivable. */
  lemma {:induction false} PaymentsCancelNone(db: Db, payments: seq<Step>)
    requires OnlyPayments(payments)
    ensures |Run(db, payments).receivables| == |db.receivables|
    ensures forall i :: 0 <= i < |db.receivables| && db.receivables[i].status != Cancelado ==> Run(db, payments).receivables[i].status != Cancelado
  {
    if payments != [] {
      PaymentsCancelNone(db, payments[..|payments| - 1]);
    }
  }

  lemma SaleStays(db: Db, payments: seq<Step>, sale: Id)
    requires Inv(db) && sale < |db.sales|
    ensures Inv(Run(db, payments)) && sale < |Run(db, payments).sales|
    ensures Run(db, payments).sales[sale].status == Quitada <==>
              Settled(Run(db, payments).receivables, sale) && Run(db, payments).sales[sale].status != Distratada
  {
    RunKeeps(db, payments);
    RunLater(db, payments);
    assert SaleOk(Run(db, payments).sales[sale], sale, Run(db, payments).receivables);
  }

  lemma SettleableSettles(db: Db, sale: Id, account: Id, now: Time) returns (payments: seq<Step>)
    requires Inv(db) && sale < |db.sales| && account in db.accounts && Settleable(db.receivables, sale)
    ensures SettledBy(db, sale, payments)
  {
    payments := PayRows(db, sale, |db.receivables|, account, now);
    PaymentsOnlyPay(db, payments);
    PaymentsCancelNone(db, payments);
    PaidIsSettled(db.receivables, Run(db, payments).receivables, sale);
    SaleStays(db, payments, sale);
    SettledIsOpen(Run(db, payments), sale);
  }

  lemma SettledIsOpen(db: Db, sale: Id)
    requires Inv(db) && sale < |db.sales| && Settled(db.receivables, sale)
    ensures db.sales[sale].status != Distratada
  {
    assert SaleOk(db.sales[sale], sale, db.receivables);
  }

  /**
   * From every reachable state, adjustments included: payments alone bring a sale to QUITADA exactly when it has a
   * receivable that is not cancelled and each of those is PAGO or has something left to pay.
   */
  lemma SettledExactly(accounts: set<Id>, before: seq<Step>, sale: Id, account: Id, now: Time)
    requires sale < |Run(Empty(accounts), before).sales| && account in Run(Empty(accounts), before).accounts
    ensures CanBeSettled(Run(Empty(accounts), before), sale) <==> Settleable(Run(Empty(accounts), before).receivables, sale)
  {
    EmptyOk(accounts);
    RunKeeps(Empty(accounts), before);
    SettlesExactly(Run(Empty(accounts), before), sale, account, now);
  }

  lemma SettlesExactly(db: Db, sale: Id, account: Id, now: Time)
    requires Inv(db) && sale < |db.sales| && account in db.accounts
    ensures CanBeSettled(db, sale) <==> Settleable(db.receivables, sale)
  {
    if Settleable(db.receivables, sale) {
      var payments := SettleableSettles(db, sale, account, now);
    }
    if CanBeSettled(db, sale) {
      var payments :| SettledBy(db, sale, payments);
      PaymentsOnlyPay(db, payments);
      SaleStays(db, payments, sale);
      if !Settleable(db.receivables, sale) {
        NotSettleableStays(db.receivables, Run(db, payments).receivables, sale);
      }
    }
  }

  // ------------------------------------------------------------------------- with the constraints in force

  ghost predicate SettledByChecked(db: Db, sale: Id, payments: seq<Step>) {
    OnlyPayments(payments) && sale < |RunChecked(db, payments).sales| && RunChecked(db, payments).sales[sale].status == Quitada
  }

  /** A payment is never refused by a constraint. */
  lemma {:induction false} PaymentsPassChecks(db: Db, payments: seq<Step>)
    requires Inv(db) && Checks(db) && OnlyPayments(payments)
    ensures RunChecked(db, payments) == Run(db, payments) && Checks(Run(db, payments))
  {
    if payments != [] {
      var front, last := payments[..|payments| - 1], payments[|payments| - 1];
      PaymentsPassChecks(db, front);
      RunKeeps(db, front);
      if Call(Run(db, front), last).Ok? {
        ChecksExactly(Run(db, front), last);
      }
    }
  }

  /** Under the constraints a receivable that is not cancelled can be paid unless it was adjusted to nothing. */
  lemma PayableUnderChecks(db: Db, sale: Id)
    requires Inv(db) && Checks(db)
    ensures Settleable(db.receivables, sale) <==>
              && (exists i :: 0 <= i < |db.receivables| && db.receivables[i].sale == sale && db.receivables[i].status != Cancelado)
              && (forall i :: 0 <= i < |db.receivables| && db.receivables[i].sale == sale && db.receivables[i].status != Cancelado ==>
                    0 < db.receivables[i].adjusted)
  {
    forall i | 0 <= i < |db.receivables| && db.receivables[i].status != Cancelado
      ensures Unblocked(db.receivables[i]) <==> 0 < db.receivables[i].adjusted
    {
      assert ReceivableCheck(db.receivables[i]) && ReceivableOk(db.receivables[i], |db.sales|);
    }
  }

  /**
   * With the constraints in force the condition is that the sale has a receivable that is not cancelled and none of
   * those was adjusted down to nothing.
   */
  lemma CheckedSettledExactly(accounts: set<Id>, before: seq<Step>, sale: Id, account: Id, now: Time)
    requires var db := RunChecked(Empty(accounts), before); sale < |db.sales| && account in db.accounts
    ensures var db := RunChecked(Empty(accounts), before);
            (exists payments :: SettledByChecked(db, sale, payments)) <==>
              && (exists i :: 0 <= i < |db.receivables| && db.receivables[i].sale == sale && db.receivables[i].status != Cancelado)
              && (forall i :: 0 <= i < |db.receivables| && db.receivables[i].sale == sale && db.receivables[i].status != Cancelado ==>
                    0 < db.receivables[i].adjusted)
  {
    var db := RunChecked(Empty(accounts), before);
    CheckedRuns(accounts, before);
    PayableUnderChecks(db, sale);
    if Settleable(db.receivables, sale) {
      var payments := SettleableSettles(db, sale, account, now);
      PaymentsPassChecks(db, payments);
      assert SettledByChecked(db, sale, payments);
    }
    if payments :| SettledByChecked(db, sale, payments) {
      PaymentsPassChecks(db, payments);
      assert SettledBy(db, sale, payments);
      SettlesExactly(db, sale, account, now);
    }
  }

  // ----------------------------------------------------------------------------------------- examples

  /** One receivable of a new sale, with its amount. */
  function Plan(amount: int): Installments.Plan {
    Installments.Plan(0, Installments.Entrada, amount, None, None, None)
  }

  lemma Registers(db: Db, net: int, plans: seq<Installments.Plan>, due: Installments.Schedule, rows: seq<Installments.Row>)
    requires plans != [] && Sum(Installments.Totals(plans)) == net && Installments.Generate({}, plans, due) == Ok(rows)
    requires db.sales == [] && db.receivables == []
    ensures RegisterSale(db, net, plans, due, [])
         == Ok(db.(sales := [Sale(net, Ativa)], receivables := NewReceivables(0, rows)))
  {
    assert NewCommissions(0, []) == [] && db.commissions + [] == db.commissions;
    assert [] + [Sale(net, Ativa)] == [Sale(net, Ativa)] && [] + NewReceivables(0, rows) == NewReceivables(0, rows);
  }

  lemma OneTotal(plan: Installments.Plan)
    ensures Sum(Installments.Totals([plan])) == plan.amount
  {
    assert Installments.Totals([plan]) == [] + [plan.amount];
    SumAppend([], plan.amount);
  }

  lemma SoldInOne(accounts: set<Id>, amount: int, due: Installments.Schedule)
    requires 1 <= amount
    ensures RegisterSale(Empty(accounts), amount, [Plan(amount)], due, [])
         == Ok(Empty(accounts).(sales := [Sale(amount, Ativa)], receivables := [NewReceivable(0, amount)]))
  {
    OneInstallment(amount, due);
    OneTotal(Plan(amount));
    var rows := Installments.Generate({}, [Plan(amount)], due).value;
    Registers(Empty(accounts), amount, [Plan(amount)], due, rows);
    assert NewReceivables(0, rows) == [NewReceivable(0, amount)];
  }

  lemma OneInstallment(amount: int, due: Installments.Schedule)
    requires 1 <= amount
    ensures var rows := Installments.Generate({}, [Plan(amount)], due);
            rows.Ok? && |rows.value| == 1 && rows.value[0].amount == amount
  {
    var plans := [Plan(amount)];
    Installments.GenerateSucceeds({}, plans, due);
    var front, last, before, parts, rows := Installments.LastPlan({}, plans, due);
    assert front == [] && before == [] && last == Plan(amount);
    assert parts == [amount];
    assert rows == [] + [Installments.Installment(last, due(last), parts, 0)];
  }

  /** A period with one index value. */
  function OneMonth(percentage: MonetaryAdjustment.Percentage): Option<MonetaryAdjustment.Policy> {
    Some(MonetaryAdjustment.Policy(0, [MonetaryAdjustment.IndexValue(0, percentage)]))
  }

  lemma AdjustedByOne(previous: int, percentage: MonetaryAdjustment.Percentage)
    ensures MonetaryAdjustment.Calculate(previous, OneMonth(percentage).value, 0, 0).Ok?
    ensures MonetaryAdjustment.Calculate(previous, OneMonth(percentage).value, 0, 0).value.adjusted
         == RoundHalfUp(previous as real * (1.0 + percentage))
  {
    var values := OneMonth(percentage).value.values;
    assert values[1..] == [] && values[..0] == [];
    assert MonetaryAdjustment.Window(values, 0, 0) == values;
    assert MonetaryAdjustment.Factor(values) == 1.0 + percentage;
  }

  lemma AdjustsRow(db: Db, row: Receivable, percentage: MonetaryAdjustment.Percentage, adjusted: int)
    requires db.receivables == [row] && db.adjustments == [] && row.status != Cancelado && row.paid <= adjusted
    requires adjusted == RoundHalfUp(row.adjusted as real * (1.0 + percentage))
    ensures Call(db, DoApplyAdjustment(0, OneMonth(percentage), 0, 0)).Ok?
    ensures var after := Next(db, DoApplyAdjustment(0, OneMonth(percentage), 0, 0));
            after.receivables == [row.(adjusted := adjusted)] && after.sales == db.sales && after.accounts == db.accounts
  {
    AdjustedByOne(row.adjusted, percentage);
  }

  lemma RunOfThree(db: Db, a: Step, b: Step, c: Step)
    ensures Run(db, [a] + [b] + [c]) == Next(Next(Next(db, a), b), c)
  {
    RunConcat(db, [a] + [b], [c]);
    RunConcat(db, [a], [b]);
    RunOne(db, a);
    RunOne(Next(db, a), b);
    RunOne(Next(Next(db, a), b), c);
  }

  lemma RunOne(db: Db, step: Step)
    ensures Run(db, [step]) == Next(db, step)
  {
    assert [step][..0] == [];
  }

  lemma HalvedRow(account: Id, due: Installments.Schedule, now: Time)
    ensures var db := Run(Empty({account}), HalvedRun(account, due, now));
            && db.receivables == [NewReceivable(0, 200).(paid := 100, status := Parcial, adjusted := 100)]
            && |db.sales| == 1 && account in db.accounts
  {
    var register := DoRegisterSale(200, [Plan(200)], due, []);
    var pay := DoRecordReceivablePayment(0, account, 100, now, now);
    RunOfThree(Empty({account}), register, pay, DoApplyAdjustment(0, OneMonth(-0.5), 0, 0));
    SoldInOne({account}, 200, due);
    var sold := Next(Empty({account}), register);
    HalfPaid(sold, account, now);
    RoundExact(100);
    AdjustsRow(Next(sold, pay), NewReceivable(0, 200).(paid := 100, status := Parcial), -0.5, 100);
  }

  /** Half of a receivable is paid, then it is adjusted down to the half: a run after which no payment settles the sale. */
  lemma HalvedNeverSettles(account: Id, due: Installments.Schedule, now: Time)
    ensures var db := Run(Empty({account}), HalvedRun(account, due, now));
            && |db.sales| == |db.receivables| == 1 && db.receivables[0].status == Parcial
            && db.receivables[0].paid == db.receivables[0].adjusted == 100
            && !CanBeSettled(db, 0)
  {
    HalvedRow(account, due, now);
    SettledExactly({account}, HalvedRun(account, due, now), 0, account, now);
    var rows := Run(Empty({account}), HalvedRun(account, due, now)).receivables;
    assert rows[0].sale == 0 && !Unblocked(rows[0]);
  }

  function HalvedRun(account: Id, due: Installments.Schedule, now: Time): seq<Step> {
    [DoRegisterSale(200, [Plan(200)], due, [])] + [DoRecordReceivablePayment(0, account, 100, now, now)]
    + [DoApplyAdjustment(0, OneMonth(-0.5), 0, 0)]
  }

  lemma HalfPaid(db: Db, account: Id, now: Time)
    requires db.receivables == [NewReceivable(0, 200)] && |db.sales| == 1 && account in db.accounts && db.adjustments == []
    ensures var paid := Next(db, DoRecordReceivablePayment(0, account, 100, now, now));
            && paid.receivables == [NewReceivable(0, 200).(paid := 100, status := Parcial)]
            && |paid.sales| == 1 && paid.adjustments == [] && paid.accounts == db.accounts
  {
  }

  lemma CentRow(account: Id, due: Installments.Schedule)
    ensures var db := RunChecked(Empty({account}), CentRun(due));
            && db.receivables == [NewReceivable(0, 1).(adjusted := 0)] && |db.sales| == 1 && account in db.accounts
  {
    var register := DoRegisterSale(1, [Plan(1)], due, []);
    var empty := Empty({account});
    EmptyOk({account});
    SoldInOne({account}, 1, due);
    CheckedOne(empty, register);
    var sold := Next(empty, register);
    RoundsToNothing();
    AdjustsRow(sold, NewReceivable(0, 1), -0.9, 0);
    CheckedOne(sold, DoApplyAdjustment(0, OneMonth(-0.9), 0, 0));
    CheckedPair(empty, register, DoApplyAdjustment(0, OneMonth(-0.9), 0, 0));
  }

  lemma CheckedAppend(db: Db, steps: seq<Step>, step: Step)
    ensures RunChecked(db, steps + [step]) == NextChecked(RunChecked(db, steps), step)
  {
    assert (steps + [step])[..|steps|] == steps;
  }

  lemma CheckedPair(db: Db, a: Step, b: Step)
    ensures RunChecked(db, [a] + [b]) == NextChecked(NextChecked(db, a), b)
  {
    CheckedAppend(db, [], a);
    assert [] + [a] == [a];
    CheckedAppend(db, [a], b);
  }

  /** A cent adjusted by minus nine tenths rounds to nothing: the constraints admit it, and no payment settles the sale. */
  lemma CentVanishes(account: Id, due: Installments.Schedule, now: Time)
    ensures var db := RunChecked(Empty({account}), CentRun(due));
            && |db.sales| == |db.receivables| == 1 && db.receivables[0].status == Status.Pendente && db.receivables[0].adjusted == 0
            && !exists payments :: SettledByChecked(db, 0, payments)
  {
    CentRow(account, due);
    CheckedSettledExactly({account}, CentRun(due), 0, account, now);
    var rows := RunChecked(Empty({account}), CentRun(due)).receivables;
    assert rows[0].sale == 0 && rows[0].adjusted == 0;
  }

  function CentRun(due: Installments.Schedule): seq<Step> {
    [DoRegisterSale(1, [Plan(1)], due, [])] + [DoApplyAdjustment(0, OneMonth(-0.9), 0, 0)]
  }

  lemma RoundsToNothing()
    ensures RoundHalfUp(1 as real * (1.0 + -0.9)) == 0
  {
  }

  lemma CheckedOne(db: Db, step: Step)
    requires Inv(db) && Checks(db) && Call(db, step).Ok? && !Refused(db, step)
    ensures NextChecked(db, step) == Next(db, step) && Inv(Next(db, step)) && Checks(Next(db, step))
  {
    StepKeeps(db, step);
    ChecksExactly(db, step);
  }
}
