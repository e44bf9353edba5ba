/** Every service transaction keeps the ledger invariant. */
module LedgerSteps {
  import opened Common
  import opened Sums
  import Installments
  import MonetaryAdjustment
  import opened Ledger
  import opened LedgerInvariant
  import opened LedgerMoney
  import opened LedgerTables

  // ------------------------------------------------------------------------------------- receivables

  lemma SyncKeepsSources(db: Db, sale: Id)
    requires SourcesOk(db)
    ensures SourcesOk(SyncSale(db, sale)) && |SyncSale(db, sale).sales| == |db.sales|
    ensures SyncSale(db, sale) == db.(sales := SyncSale(db, sale).sales)
  {
  }

  /** A changed receivable, its payments and its synchronised sale, in one state. */
  lemma ReceivableWritten(db: Db, id: Id, row: Receivable, written: Db)
    requires Inv(db) && id < |db.receivables|
    requires written.receivables == db.receivables[id := row]
    requires ReceivableOk(row, |db.sales|)
    requires row.sale == db.receivables[id].sale && row.original == db.receivables[id].original && row.adjusted == db.receivables[id].adjusted
    requires db.sales[row.sale].status == Distratada ==> row.status == Cancelado
    requires written == db.(receivables := written.receivables, payments := written.payments,
                            transactions := written.transactions, entries := written.entries)
    requires MoneyOk(written.receivables, db.payables, written.payments, written.transactions)
    requires MatchingOk(written.entries, written.transactions)
    ensures Inv(SyncSale(written, row.sale))
  {
    SyncKeeps(db, id, row);
    SyncKeepsSources(written, row.sale);
  }

  lemma ReceivablePosted(db: Db, id: Id, settled: Receivable, account: Id, amount: Positive, paidAt: Time, written: Db)
    requires Inv(db) && id < |db.receivables|
    requires ReceivableOk(settled, |db.sales|) && settled.paid == db.receivables[id].paid + amount
    requires settled.sale == db.receivables[id].sale && settled.original == db.receivables[id].original
    requires settled.adjusted == db.receivables[id].adjusted
    requires db.sales[settled.sale].status != Distratada
    requires written == Posted(db, ReceivableTarget(id), account, amount, paidAt).(receivables := db.receivables[id := settled])
    ensures Inv(SyncSale(written, settled.sale))
  {
    PostReceivable(db, id, settled, account, amount, paidAt);
    PostedMatching(db.entries, db.transactions, written.transactions[|db.transactions|]);
    ReceivableWritten(db, id, settled, written);
  }

  lemma RecordReceivablePaymentKeeps(db: Db, id: Id, account: Id, amount: Positive, paidAt: Time, now: Time)
    requires Inv(db) && RecordReceivablePayment(db, id, account, amount, paidAt, now).Ok?
    ensures Inv(RecordReceivablePayment(db, id, account, amount, paidAt, now).value)
  {
    var row := db.receivables[id];
    var settled := ReceivablePaid(row, amount, paidAt);
    var written := Posted(db, ReceivableTarget(id), account, amount, paidAt).(receivables := db.receivables[id := settled]);
    assert ReceivableOk(row, |db.sales|) && SaleOk(db.sales[row.sale], row.sale, db.receivables);
    ReceivablePosted(db, id, settled, account, amount, paidAt, written);
  }

  lemma ReverseReceivablePaymentKeeps(db: Db, id: Id, payment: Id, now: Time)
    requires Inv(db) && ReverseReceivablePayment(db, id, payment, now).Ok?
    ensures Inv(ReverseReceivablePayment(db, id, payment, now).value)
  {
    var row := db.receivables[id];
    var reopened := ReceivableReopened(row, row.paid - db.payments[payment].amount);
    ReversalCovered(db, payment);
    assert ReceivableOk(row, |db.sales|) && SaleOk(db.sales[row.sale], row.sale, db.receivables);
    ReversalPays(db, payment, now, db.receivables[id := reopened], db.payables);
    var reversed := ReversedRows(db, payment, now);
    ReversedMatching(db.entries, db.transactions, payment, now);
    ReceivableWritten(db, id, reopened, reversed.(receivables := db.receivables[id := reopened]));
  }

  /** The guard against an inconsistent history never fires: an unreversed payment is covered by what was paid. */
  lemma ReversalNeverInconsistent(db: Db, id: Id, payment: Id, now: Time)
    requires Inv(db) && id < |db.receivables|
    requires payment < |db.payments| && db.payments[payment].target == ReceivableTarget(id) && db.payments[payment].reversedAt.None?
    ensures db.receivables[id].status != Cancelado
    ensures ReverseReceivablePayment(db, id, payment, now).Ok?
  {
    ReversalCovered(db, payment);
    assert ReceivableOk(db.receivables[id], |db.sales|);
    var reversed := ReversedRows(db, payment, now);
  }

  lemma PayableReversalNeverInconsistent(db: Db, id: Id, payment: Id, now: Time)
    requires Inv(db) && id < |db.payables|
    requires payment < |db.payments| && db.payments[payment].target == PayableTarget(id) && db.payments[payment].reversedAt.None?
    ensures db.payables[id].status != Cancelado
    ensures ReversePayablePayment(db, id, payment, now).Ok?
  {
    ReversalCovered(db, payment);
    assert PayableOk(db.payables[id]);
    var reversed := ReversedRows(db, payment, now);
  }

  lemma CancelReceivableKeeps(db: Db, id: Id, now: Time)
    requires Inv(db) && CancelReceivable(db, id, now).Ok?
    ensures Inv(CancelReceivable(db, id, now).value)
  {
    var row := db.receivables[id];
    assert ReceivableOk(row, |db.sales|);
    if row.status != Cancelado {
      var cancelled := row.(status := Cancelado, cancelledAt := Some(now));
      ReceivableWritten(db, id, cancelled, db.(receivables := db.receivables[id := cancelled]));
    }
  }

  lemma DifferencesAppend(adjustments: seq<Adjustment>, a: Adjustment, receivable: Id)
    ensures Differences(adjustments + [a], receivable)
         == Differences(adjustments, receivable) + if a.receivable == receivable then a.difference else 0
  {
  }

  lemma {:induction false} DifferencesOfFresh(adjustments: seq<Adjustment>, receivable: Id)
    requires forall k :: 0 <= k < |adjustments| ==> adjustments[k].receivable != receivable
    ensures Differences(adjustments, receivable) == 0
  {
    if adjustments != [] {
      DifferencesOfFresh(adjustments[..|adjustments| - 1], receivable);
    }
  }

  lemma ApplyAdjustmentKeeps(db: Db, id: Id, policy: Option<MonetaryAdjustment.Policy>, start: int, end: int)
    requires Inv(db) && ApplyAdjustment(db, id, policy, start, end).Ok?
    ensures Inv(ApplyAdjustment(db, id, policy, start, end).value)
  {
    var row := db.receivables[id];
    var c := MonetaryAdjustment.Calculate(row.adjusted, policy.value, start, end).value;
    assert c.previous == row.adjusted && c.difference == c.adjusted - c.previous;
    AdjustedRow(db, id, c.adjusted, Adjustment(id, c.previous, c.adjusted, c.difference, start, end));
  }

  lemma AdjustedRow(db: Db, id: Id, adjusted: int, a: Adjustment)
    requires Inv(db) && id < |db.receivables| && db.receivables[id].paid <= adjusted
    requires a.receivable == id && a.difference == adjusted - db.receivables[id].adjusted
    ensures Inv(db.(receivables := db.receivables[id := db.receivables[id].(adjusted := adjusted)],
                    adjustments := db.adjustments + [a]))
  {
    var after := db.receivables[id := db.receivables[id].(adjusted := adjusted)];
    assert ReceivableOk(db.receivables[id], |db.sales|);
    SalesFrame(db.sales, db.receivables, after);
    forall i | 0 <= i < |after|
      ensures after[i].adjusted == after[i].original + Differences(db.adjustments + [a], i)
    {
      DifferencesAppend(db.adjustments, a, i);
    }
  }

  /**
   * Adjusting a receivable up to a competence and then on from the next one leaves it within half a cent, carried through
   * the factor of the second period, plus one cent of what one adjustment over both periods calculates.
   */
  lemma ConsecutiveAdjustments(db: Db, id: Id, policy: MonetaryAdjustment.Policy, start: int, middle: int, end: int)
    requires MonetaryAdjustment.Ascending(policy.values)
    requires ApplyAdjustment(db, id, Some(policy), start, middle).Ok?
    requires ApplyAdjustment(ApplyAdjustment(db, id, Some(policy), start, middle).value, id, Some(policy), middle + 1, end).Ok?
    ensures var first := ApplyAdjustment(db, id, Some(policy), start, middle).value;
            var second := ApplyAdjustment(first, id, Some(policy), middle + 1, end).value;
            var once := MonetaryAdjustment.Calculate(db.receivables[id].adjusted, policy, start, end);
            && once.Ok?
            && var bound := 0.5 * MonetaryAdjustment.Factor(MonetaryAdjustment.Window(policy.values, middle + 1, end)) + 1.0;
               -bound <= second.receivables[id].adjusted as real - once.value.adjusted as real <= bound
  {
    var previous := db.receivables[id].adjusted;
    MonetaryAdjustment.ConsecutiveCalculations(previous, policy, start, middle, end);
    var first := MonetaryAdjustment.Window(policy.values, MonetaryAdjustment.EffectiveStart(policy, start), middle);
    assert first[0] in first && policy.baseDate <= middle;
  }

  // ------------------------------------------------------------------------------------------- sales

  lemma RegisterSaleKeeps(db: Db, net: int, plans: seq<Installments.Plan>, due: Installments.Schedule, commissions: seq<nat>)
    requires Inv(db) && RegisterSale(db, net, plans, due, commissions).Ok?
    ensures Inv(RegisterSale(db, net, plans, due, commissions).value)
  {
    var rows := Installments.Generate({}, plans, due).value;
    Installments.GenerateConserves(plans, due);
    PlansArePositive(plans, due);
    SoldKeeps(db, net, rows, commissions);
  }

  /** A plan that can be split is not worth nothing. */
  lemma PlansArePositive(plans: seq<Installments.Plan>, due: Installments.Schedule)
    requires plans != [] && Installments.Generate({}, plans, due).Ok?
    ensures 1 <= Sum(Installments.Totals(plans))
  {
    Installments.GenerateSucceeds({}, plans, due);
    forall i | 0 <= i < |plans|
      ensures 1 <= Installments.Totals(plans)[i]
    {
      assert Installments.Splittable(plans[i]);
    }
    SumAtLeast(Installments.Totals(plans));
  }

  lemma SoldKeeps(db: Db, net: int, rows: seq<Installments.Row>, commissions: seq<nat>)
    requires Inv(db) && 1 <= Sum(Installments.Amounts(rows)) == net
    requires forall i :: 0 <= i < |rows| ==> 1 <= rows[i].amount
    ensures Inv(db.(sales := db.sales + [Sale(net, Ativa)],
                    receivables := db.receivables + NewReceivables(|db.sales|, rows),
                    commissions := db.commissions + NewCommissions(|db.sales|, commissions)))
  {
    var n := |db.sales|;
    forall i | 0 <= i < |db.receivables|
      ensures db.receivables[i].sale < n && ReceivableOk(db.receivables[i], n + 1)
    {
      assert ReceivableOk(db.receivables[i], n);
    }
    NewReceivablesUnpaid(db, NewReceivables(n, rows));
    NewSaleKeeps(db.sales, db.receivables, net, rows);
    NewCommissionsKeep(db.(sales := db.sales + [Sale(net, Ativa)]), db.sales, NewCommissions(n, commissions));
    NewAdjustable(db.receivables, NewReceivables(n, rows), db.adjustments);
  }

  lemma NewAdjustable(receivables: seq<Receivable>, rows: seq<Receivable>, adjustments: seq<Adjustment>)
    requires AdjustmentsOk(receivables, adjustments)
    requires forall i :: 0 <= i < |rows| ==> rows[i].adjusted == rows[i].original
    ensures AdjustmentsOk(receivables + rows, adjustments)
  {
    forall i | |receivables| <= i < |receivables + rows|
      ensures Differences(adjustments, i) == 0
    {
      DifferencesOfFresh(adjustments, i);
    }
  }

  /** New forecast commissions of a sale that is not distratada. */
  lemma NewCommissionsKeep(db: Db, sales: seq<Sale>, commissions: seq<Commission>)
    requires SourcesOk(db.(sales := sales)) && sales <= db.sales
    requires forall i :: 0 <= i < |commissions| ==>
               commissions[i].status == Prevista && commissions[i].sale < |db.sales| && db.sales[commissions[i].sale].status != Distratada
    ensures SourcesOk(db.(commissions := db.commissions + commissions))
  {
  }

  lemma AddCommissionKeeps(db: Db, sale: Id, amount: nat)
    requires Inv(db) && AddCommission(db, sale, amount).Ok?
    ensures Inv(AddCommission(db, sale, amount).value)
  {
  }

  /** A distrato is only ever made of a sale that is ATIVA: a QUITADA one has paid receivables, which stop it. */
  lemma CancelSaleFromActive(db: Db, sale: Id, now: Time)
    requires Inv(db) && CancelSale(db, sale, now).Ok?
    ensures db.sales[sale].status == Ativa
  {
  }

  lemma CancelledReceivablesKeep(db: Db, sale: Id, now: Time)
    requires Inv(db) && sale < |db.sales|
    requires forall i :: 0 <= i < |db.receivables| && db.receivables[i].sale == sale ==> db.receivables[i].paid == 0
    ensures var after := CancelledReceivables(db.receivables, sale, now);
            && ReceivablesOk(after, |db.sales|)
            && AdjustmentsOk(after, db.adjustments)
            && MoneyOk(after, db.payables, db.payments, db.transactions)
            && SalesOk(db.sales[sale := db.sales[sale].(status := Distratada)], after)
  {
    var after := CancelledReceivables(db.receivables, sale, now);
    forall i | 0 <= i < |after|
      ensures ReceivableOk(after[i], |db.sales|)
    {
      assert ReceivableOk(db.receivables[i], |db.sales|);
    }
    var sales := db.sales[sale := db.sales[sale].(status := Distratada)];
    forall s | 0 <= s < |sales|
      ensures SaleOk(sales[s], s, after)
    {
      assert SaleOk(db.sales[s], s, db.receivables);
      SaleTotalFrame(db.receivables, after, s);
      if s != sale {
        SettledFrame(db.receivables, after, s);
      }
    }
  }

  lemma CancelledPayablesKeep(db: Db, sale: Id, now: Time)
    requires Inv(db)
    requires forall i :: 0 <= i < |db.payables| && PaysCommissionOf(db.commissions, db.payables[i], sale) ==> db.payables[i].paid == 0
    ensures var after := CancelledPayables(db.payables, db.commissions, sale, now);
            && PayablesOk(after)
            && |after| == |db.payables|
            && (forall i :: 0 <= i < |after| ==> after[i].paid == db.payables[i].paid && after[i].source == db.payables[i].source)
            && (forall i :: 0 <= i < |after| ==>
                  OriginOk(after[i], CancelledCommissions(db.commissions, sale), db.investorReturns))
  {
  }

  lemma CancelledCommissionsKeep(db: Db, sale: Id, payables: seq<Payable>)
    requires SourcesOk(db) && sale < |db.sales| && |payables| == |db.payables|
    requires forall i :: 0 <= i < |payables| ==> payables[i].source == db.payables[i].source
    ensures CommissionsOk(CancelledCommissions(db.commissions, sale), db.sales[sale := db.sales[sale].(status := Distratada)], payables)
  {
  }

  lemma CancelSaleKeeps(db: Db, sale: Id, now: Time)
    requires Inv(db) && CancelSale(db, sale, now).Ok?
    ensures Inv(CancelSale(db, sale, now).value)
  {
    CancelledReceivablesKeep(db, sale, now);
    CancelledPayablesKeep(db, sale, now);
    CancelledCommissionsKeep(db, sale, CancelledPayables(db.payables, db.commissions, sale, now));
    SourcesFrame(db, CancelledPayables(db.payables, db.commissions, sale, now));
  }

  // ---------------------------------------------------------------------------------------- payables

  /** A payable is appended for an origin that has none, or for no origin. */
  lemma PayableAdded(db: Db, row: Payable)
    requires Inv(db) && PayableOk(row) && row.paid == 0
    requires OriginOk(row, db.commissions, db.investorReturns)
    requires row.source == Manual || forall i :: 0 <= i < |db.payables| ==> db.payables[i].source != row.source
    ensures Inv(db.(payables := db.payables + [row]))
  {
    NewPayableUnpaid(db, row);
    SourcesFrame(db, db.payables + [row]);
  }

  /** A payable is rewritten with the same source. */
  lemma PayableWritten(db: Db, id: Id, row: Payable)
    requires Inv(db) && id < |db.payables|
    requires PayableOk(row) && row.source == db.payables[id].source && row.paid == db.payables[id].paid
    requires OriginOk(row, db.commissions, db.investorReturns)
    ensures Inv(db.(payables := db.payables[id := row]))
  {
    SourcesFrame(db, db.payables[id := row]);
  }

  lemma UpdatePayableKeeps(db: Db, id: Id, amount: Option<Positive>)
    requires Inv(db) && UpdatePayable(db, id, amount).Ok?
    ensures Inv(UpdatePayable(db, id, amount).value)
  {
    assert PayableOk(db.payables[id]);
    PayableWritten(db, id, UpdatePayable(db, id, amount).value.payables[id]);
  }

  lemma CancelPayableKeeps(db: Db, id: Id, now: Time)
    requires Inv(db) && CancelPayable(db, id, now).Ok?
    ensures Inv(CancelPayable(db, id, now).value)
  {
    assert PayableOk(db.payables[id]);
    PayableWritten(db, id, db.payables[id].(status := Cancelado, cancelledAt := Some(now)));
  }

  /** A payment or reversal of a payable, carried to its origin. */
  lemma SourceSynced(db: Db, id: Id, row: Payable)
    requires Inv(db) && id < |db.payables|
    requires row.source == db.payables[id].source && row.original == db.payables[id].original
    requires db.payables[id].status != Cancelado && row.status != Cancelado
    ensures SourcesOk(SyncSource(db.(payables := db.payables[id := row]), row))
  {
    var after := db.payables[id := row];
    var synced := SyncSource(db.(payables := after), row);
    SourcesFrame(db, after);
    assert OriginOk(db.payables[id], db.commissions, db.investorReturns);
    forall p | 0 <= p < |after|
      ensures OriginOk(after[p], synced.commissions, synced.investorReturns)
    {
      assert OriginOk(db.payables[p], db.commissions, db.investorReturns);
      assert p != id ==> db.payables[p].source != db.payables[id].source || db.payables[p].source == Manual;
    }
    SyncedCommissions(db, after, id, synced);
  }

  lemma SyncedCommissions(db: Db, after: seq<Payable>, id: Id, synced: Db)
    requires id < |after| == |db.payables| && after[id].status != Cancelado && db.payables[id].status != Cancelado
    requires after[id].source == db.payables[id].source
    requires OriginOk(db.payables[id], db.commissions, db.investorReturns)
    requires CommissionsOk(db.commissions, db.sales, after)
    requires synced == SyncSource(db.(payables := after), after[id])
    ensures CommissionsOk(synced.commissions, synced.sales, synced.payables)
  {
  }

  lemma PayableSettled(db: Db, id: Id, row: Payable, written: Db)
    requires Inv(db) && id < |db.payables|
    requires PayableOk(row) && row.source == db.payables[id].source && row.original == db.payables[id].original
    requires db.payables[id].status != Cancelado && row.status != Cancelado
    requires written.payables == db.payables[id := row]
    requires written == db.(payables := written.payables, payments := written.payments,
                            transactions := written.transactions, entries := written.entries)
    requires MoneyOk(db.receivables, written.payables, written.payments, written.transactions)
    requires MatchingOk(written.entries, written.transactions)
    ensures Inv(SyncSource(written, row))
  {
    SourceSynced(db, id, row);
  }

  lemma PayablePosted(db: Db, id: Id, settled: Payable, account: Id, amount: Positive, paidAt: Time, written: Db)
    requires Inv(db) && id < |db.payables|
    requires PayableOk(settled) && settled.source == db.payables[id].source && settled.original == db.payables[id].original
    requires db.payables[id].status != Cancelado && settled.status != Cancelado
    requires settled.paid == db.payables[id].paid + amount
    requires written == Posted(db, PayableTarget(id), account, amount, paidAt).(payables := db.payables[id := settled])
    ensures Inv(SyncSource(written, settled))
  {
    PostPayable(db, id, settled, account, amount, paidAt);
    PostedMatching(db.entries, db.transactions, written.transactions[|db.transactions|]);
    PayableSettled(db, id, settled, written);
  }

  lemma RecordPayablePaymentKeeps(db: Db, id: Id, account: Id, amount: Positive, paidAt: Time, now: Time)
    requires Inv(db) && RecordPayablePayment(db, id, account, amount, paidAt, now).Ok?
    ensures Inv(RecordPayablePayment(db, id, account, amount, paidAt, now).value)
  {
    var row := db.payables[id];
    var settled := PayablePaid(row, amount, paidAt);
    var written := Posted(db, PayableTarget(id), account, amount, paidAt).(payables := db.payables[id := settled]);
    assert PayableOk(row);
    PayablePosted(db, id, settled, account, amount, paidAt, written);
  }

  lemma ReversePayablePaymentKeeps(db: Db, id: Id, payment: Id, now: Time)
    requires Inv(db) && ReversePayablePayment(db, id, payment, now).Ok?
    ensures Inv(ReversePayablePayment(db, id, payment, now).value)
  {
    var row := db.payables[id];
    var reopened := PayableReopened(row, row.paid - db.payments[payment].amount);
    ReversalCovered(db, payment);
    assert PayableOk(row);
    ReversalPays(db, payment, now, db.receivables, db.payables[id := reopened]);
    var reversed := ReversedRows(db, payment, now);
    ReversedMatching(db.entries, db.transactions, payment, now);
    PayableSettled(db, id, reopened, reversed.(payables := db.payables[id := reopened]));
  }

  lemma CreatePayableKeeps(db: Db, amount: Positive)
    requires Inv(db)
    ensures Inv(CreatePayable(db, amount).value)
  {
    PayableAdded(db, NewPayable(Manual, amount));
  }

  /** A commission that already has a payable is DEVIDA already, so only a forecast one is changed. */
  lemma MarkCommissionDueKeeps(db: Db, id: Id)
    requires Inv(db) && MarkCommissionDue(db, id).Ok?
    ensures Inv(MarkCommissionDue(db, id).value)
  {
    var row := db.commissions[id];
    assert CommissionOk(row, id, db.sales, db.payables);
    var found := PayableOf(db.payables, ForCommission(id));
    if found.Some? {
      assert OriginOk(db.payables[found.value], db.commissions, db.investorReturns);
      assert db.commissions[id := row.(status := Devida)] == db.commissions;
    } else {
      assert !HasPayable(db.payables, ForCommission(id));
      DueKeeps(db, id);
    }
  }

  lemma DueKeeps(db: Db, id: Id)
    requires Inv(db) && id < |db.commissions| && db.commissions[id].status == Prevista
    requires forall i :: 0 <= i < |db.payables| ==> db.payables[i].source != ForCommission(id)
    ensures Inv(db.(commissions := db.commissions[id := db.commissions[id].(status := Devida)],
                    payables := db.payables + [NewPayable(ForCommission(id), db.commissions[id].amount)]))
  {
    var row := NewPayable(ForCommission(id), db.commissions[id].amount);
    var after, payables := db.commissions[id := db.commissions[id].(status := Devida)], db.payables + [row];
    NewPayableUnpaid(db, row);
    SourcesFrame(db, payables);
    assert payables[|db.payables|] == row && PayableOk(row);
    forall c | 0 <= c < |after|
      ensures CommissionOk(after[c], c, db.sales, payables)
    {
      assert CommissionOk(db.commissions[c], c, db.sales, payables);
    }
    forall p | 0 <= p < |db.payables|
      ensures OriginOk(db.payables[p], after, db.investorReturns)
    {
      assert OriginOk(db.payables[p], db.commissions, db.investorReturns);
    }
  }

  lemma CreateReturnKeeps(db: Db, expected: nat)
    requires Inv(db)
    ensures Inv(CreateReturn(db, expected).value)
  {
    var n := |db.investorReturns|;
    var row := NewPayable(ForReturn(n), expected);
    var payables, after := db.payables + [row], db.investorReturns + [Return(expected, false, None)];
    NewPayableUnpaid(db, row);
    SourcesFrame(db, payables);
    assert payables[|db.payables|].source == ForReturn(n);
    forall p | 0 <= p < |db.payables|
      ensures OriginOk(db.payables[p], db.commissions, after) && db.payables[p].source != ForReturn(n)
    {
      assert OriginOk(db.payables[p], db.commissions, db.investorReturns);
    }
  }

  lemma UpdateReturnKeeps(db: Db, id: Id, expected: nat)
    requires Inv(db) && UpdateReturn(db, id, expected).Ok?
    ensures Inv(UpdateReturn(db, id, expected).value)
  {
    assert HasPayable(db.payables, ForReturn(id));
    var p := PayableOf(db.payables, ForReturn(id)).value;
    var row := db.payables[p].(original := expected);
    var after := db.investorReturns[id := db.investorReturns[id].(expected := expected)];
    assert PayableOk(db.payables[p]);
    var payables := db.payables[p := row];
    SourcesFrame(db, payables);
    forall i | 0 <= i < |payables|
      ensures OriginOk(payables[i], db.commissions, after)
    {
      assert OriginOk(db.payables[i], db.commissions, db.investorReturns);
      assert i != p ==> db.payables[i].source != ForReturn(id);
    }
  }

  // ---------------------------------------------------------------------------------- reconciliation

  lemma ImportEntryKeeps(db: Db, account: Id, kind: Kind, amount: Positive)
    requires Inv(db) && ImportEntry(db, account, kind, amount).Ok?
    ensures Inv(ImportEntry(db, account, kind, amount).value)
  {
  }

  lemma MatchKeeps(db: Db, id: Id, transaction: Id, now: Time)
    requires Inv(db) && Match(db, id, transaction, now).Ok?
    ensures Inv(Match(db, id, transaction, now).value)
  {
  }

  lemma ChangeStatusKeeps(db: Db, id: Id, expected: EntryStatus, target: EntryStatus, now: Time)
    requires Inv(db) && target != Conciliado && ChangeStatus(db, id, expected, target, now).Ok?
    ensures Inv(ChangeStatus(db, id, expected, target, now).value)
  {
  }
}
