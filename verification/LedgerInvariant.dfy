/** What every reachable ledger state satisfies, one predicate for each group of tables. */
module LedgerInvariant {
  import opened Common
  import opened Ledger

  // ------------------------------------------------------------------------------------------- money

  /** Each payment has one transaction, equal in amount, account and target, and reversed with it. */
  ghost predicate Paired(payments: seq<Payment>, transactions: seq<Transaction>) {
    && |transactions| == |payments|
    && forall i :: 0 <= i < |payments| ==> IsTransactionOf(transactions[i], payments[i], i)
  }

  predicate IsTransactionOf(t: Transaction, p: Payment, i: Id) {
    && t.payment == i
    && t.target == p.target
    && t.account == p.account
    && t.kind == KindOf(p.target)
    && t.amount == p.amount
    && t.date == p.paidAt
    && t.reversedAt == p.reversedAt
  }

  predicate PaymentOk(p: Payment, receivables: nat, payables: nat) {
    0 < p.amount && p.target.id < if p.target.ReceivableTarget? then receivables else payables
  }

  ghost predicate PaymentsOk(payments: seq<Payment>, receivables: nat, payables: nat) {
    forall i :: 0 <= i < |payments| ==> PaymentOk(payments[i], receivables, payables)
  }

  /** The denormalised paid amounts are the sums of the unreversed payments. */
  ghost predicate ReceivablesPaid(receivables: seq<Receivable>, payments: seq<Payment>) {
    forall i :: 0 <= i < |receivables| ==> receivables[i].paid == Live(payments, ReceivableTarget(i))
  }

  ghost predicate PayablesPaid(payables: seq<Payable>, payments: seq<Payment>) {
    forall i :: 0 <= i < |payables| ==> payables[i].paid == Live(payments, PayableTarget(i))
  }

  ghost predicate MoneyOk(receivables: seq<Receivable>, payables: seq<Payable>, payments: seq<Payment>, transactions: seq<Transaction>) {
    && Paired(payments, transactions)
    && PaymentsOk(payments, |receivables|, |payables|)
    && ReceivablesPaid(receivables, payments)
    && PayablesPaid(payables, payments)
  }

  // -------------------------------------------------------------------------------------------- rows

  predicate ReceivableOk(r: Receivable, sales: nat) {
    && r.sale < sales
    && 1 <= r.original
    && 0 <= r.paid <= r.adjusted
    && (r.paid == 0 <==> r.status == Status.Pendente || r.status == Cancelado)
    && (r.paidAt.Some? <==> r.status == Pago)
    && (r.cancelledAt.Some? <==> r.status == Cancelado)
  }

  predicate PayableOk(p: Payable) {
    && 0 <= p.paid <= p.original
    && (p.paid == 0 <==> p.status == Status.Pendente || p.status == Cancelado)
    && (p.status == Pago <==> 0 < p.paid == p.original)
    && (p.source == Manual ==> 1 <= p.original)
  }

  ghost predicate ReceivablesOk(receivables: seq<Receivable>, sales: nat) {
    forall i :: 0 <= i < |receivables| ==> ReceivableOk(receivables[i], sales)
  }

  ghost predicate PayablesOk(payables: seq<Payable>) {
    forall i :: 0 <= i < |payables| ==> PayableOk(payables[i])
  }

  // ------------------------------------------------------------------------------------------- sales

  /** Every receivable of the sale is cancelled. */
  ghost predicate AllCancelled(receivables: seq<Receivable>, sale: Id) {
    forall i :: 0 <= i < |receivables| && receivables[i].sale == sale ==> receivables[i].status == Cancelado
  }

  ghost predicate SaleOk(row: Sale, sale: Id, receivables: seq<Receivable>) {
    && row.status != SaleStatus.Cancelada
    && (row.status == Quitada ==> Settled(receivables, sale))
    && (row.status == Ativa ==> !Settled(receivables, sale))
    && (row.status == Distratada ==> AllCancelled(receivables, sale))
    && 1 <= SaleTotal(receivables, sale) == row.net
  }

  ghost predicate SalesOk(sales: seq<Sale>, receivables: seq<Receivable>) {
    forall s :: 0 <= s < |sales| ==> SaleOk(sales[s], s, receivables)
  }

  // ----------------------------------------------------------------------------------------- sources

  ghost predicate HasPayable(payables: seq<Payable>, source: Source) {
    exists p :: 0 <= p < |payables| && payables[p].source == source
  }

  /** A commission is cancelled with its sale, and one that is due or paid has a payable. */
  ghost predicate CommissionOk(c: Commission, id: Id, sales: seq<Sale>, payables: seq<Payable>) {
    && c.sale < |sales|
    && (c.status == CommissionStatus.Cancelada <==> sales[c.sale].status == Distratada)
    && (c.status == Devida || c.status == Paga ==> HasPayable(payables, ForCommission(id)))
  }

  ghost predicate CommissionsOk(commissions: seq<Commission>, sales: seq<Sale>, payables: seq<Payable>) {
    forall c :: 0 <= c < |commissions| ==> CommissionOk(commissions[c], c, sales, payables)
  }

  ghost predicate ReturnsOk(investorReturns: seq<Return>, payables: seq<Payable>) {
    forall r :: 0 <= r < |investorReturns| ==> HasPayable(payables, ForReturn(r))
  }

  /** A payable and its origin agree on the amount and on what was paid and cancelled. */
  predicate OriginOk(p: Payable, commissions: seq<Commission>, investorReturns: seq<Return>) {
    match p.source
    case Manual => true
    case ForCommission(c) =>
      && c < |commissions|
      && p.original == commissions[c].amount
      && (p.status == Pago <==> commissions[c].status == Paga)
      && (p.status == Cancelado <==> commissions[c].status == CommissionStatus.Cancelada)
      && commissions[c].status != Prevista
    case ForReturn(r) =>
      && r < |investorReturns|
      && p.original == investorReturns[r].expected
      && (p.status == Pago <==> investorReturns[r].paid)
      && p.status != Cancelado
      && investorReturns[r].realized == if p.status == Pago then Some(p.paid) else None
  }

  ghost predicate OriginsOk(payables: seq<Payable>, commissions: seq<Commission>, investorReturns: seq<Return>) {
    forall p :: 0 <= p < |payables| ==> OriginOk(payables[p], commissions, investorReturns)
  }

  ghost predicate UniqueSources(payables: seq<Payable>) {
    forall i, j :: 0 <= i < j < |payables| && payables[i].source == payables[j].source ==> payables[i].source == Manual
  }

  ghost predicate SourcesOk(db: Db) {
    && CommissionsOk(db.commissions, db.sales, db.payables)
    && ReturnsOk(db.investorReturns, db.payables)
    && OriginsOk(db.payables, db.commissions, db.investorReturns)
    && UniqueSources(db.payables)
  }

  // ---------------------------------------------------------------------------------------- matching

  /** The state of one entry: reconciled exactly when it points to a transaction that corresponds to it. */
  predicate EntryOk(e: Entry, transactions: seq<Transaction>) {
    && (e.status == Conciliado <==> e.matched.Some?)
    && (e.status == Conciliado <==> e.reconciledAt.Some?)
    && (e.status == Ignorado <==> e.ignoredAt.Some?)
    && (e.matched.Some? ==> e.matched.value < |transactions| && Corresponds(e, transactions[e.matched.value]))
  }

  ghost predicate Injective(entries: seq<Entry>) {
    forall i, j :: 0 <= i < j < |entries| && entries[i].matched.Some? ==> entries[i].matched != entries[j].matched
  }

  /** Matching is a partial injection from entries to corresponding live transactions. */
  ghost predicate MatchingOk(entries: seq<Entry>, transactions: seq<Transaction>) {
    (forall i :: 0 <= i < |entries| ==> EntryOk(entries[i], transactions)) && Injective(entries)
  }

  // ------------------------------------------------------------------------------------- adjustments

  /** An adjusted amount is the original amount plus the recorded differences. */
  ghost predicate AdjustmentsOk(receivables: seq<Receivable>, adjustments: seq<Adjustment>) {
    && (forall i :: 0 <= i < |receivables| ==>
          receivables[i].adjusted == receivables[i].original + Differences(adjustments, i))
    && (forall k :: 0 <= k < |adjustments| ==> adjustments[k].receivable < |receivables|)
  }

  ghost predicate Inv(db: Db) {
    && MoneyOk(db.receivables, db.payables, db.payments, db.transactions)
    && ReceivablesOk(db.receivables, |db.sales|)
    && PayablesOk(db.payables)
    && SalesOk(db.sales, db.receivables)
    && SourcesOk(db)
    && MatchingOk(db.entries, db.transactions)
    && AdjustmentsOk(db.receivables, db.adjustments)
  }
}
