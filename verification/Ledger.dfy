/**
 * The money ledger as a value: its tables, and the state every service transaction leaves.  A table is a sequence
 * whose row numbers are the ids (rows are never deleted); amounts are integer cents.  An exception rolls back, so
 * an Err outcome carries no state.
 */
module Ledger {
  import opened Common
  import opened Sums
  import MonetaryAdjustment
  import Installments

  type Id = nat
  type Time = int

  /** ReceivableStatus and PayableStatus: the two enumerations have the same four members. */
  datatype Status = Pendente | Parcial | Pago | Cancelado

  datatype SaleStatus = Ativa | Quitada | Cancelada | Distratada

  datatype CommissionStatus = Prevista | Devida | Paga | Cancelada

  datatype EntryStatus = Pendente | Conciliado | Ignorado

  /** ENTRADA and SAIDA of a transaction; CREDITO and DEBITO of a statement entry correspond to them. */
  datatype Kind = Entrada | Saida

  datatype Receivable = Receivable(sale: Id, original: int, adjusted: int, paid: int, status: Status,
                                   paidAt: Option<Time>, cancelledAt: Option<Time>)

  /** Where a payable comes from; only a manual one has no sourceType. */
  datatype Source = Manual | ForCommission(commission: Id) | ForReturn(investorReturn: Id)

  datatype Payable = Payable(source: Source, original: int, paid: int, status: Status,
                             paidAt: Option<Time>, cancelledAt: Option<Time>)

  datatype Target = ReceivableTarget(id: Id) | PayableTarget(id: Id)

  datatype Payment = Payment(target: Target, account: Id, amount: int, paidAt: Time, reversedAt: Option<Time>)

  datatype Transaction = Transaction(payment: Id, target: Target, account: Id, kind: Kind, amount: int, date: Time,
                                     reversedAt: Option<Time>)

  datatype Entry = Entry(account: Id, kind: Kind, amount: int, status: EntryStatus, matched: Option<Id>,
                         reconciledAt: Option<Time>, ignoredAt: Option<Time>)

  datatype Sale = Sale(net: int, status: SaleStatus)

  datatype Commission = Commission(sale: Id, amount: nat, status: CommissionStatus)

  /** The return of an investor; `realized` is the realised amount and is present only while it is PAGO. */
  datatype Return = Return(expected: nat, paid: bool, realized: Option<int>)

  datatype Adjustment = Adjustment(receivable: Id, previous: int, adjusted: int, difference: int, start: int, end: int)

  datatype Db = Db(
    accounts: set<Id>,
    sales: seq<Sale>,
    receivables: seq<Receivable>,
    commissions: seq<Commission>,
    investorReturns: seq<Return>,
    payables: seq<Payable>,
    payments: seq<Payment>,
    transactions: seq<Transaction>,
    entries: seq<Entry>,
    adjustments: seq<Adjustment>)

  // ---------------------------------------------------------------------------------------- payments

  function KindOf(target: Target): Kind {
    if target.ReceivableTarget? then Entrada else Saida
  }

  /** The payment row and its transaction row, created together. */
  function Posted(db: Db, target: Target, account: Id, amount: int, date: Time): Db {
    db.(payments := db.payments + [Payment(target, account, amount, date, None)],
        transactions := db.transactions
          + [Transaction(|db.payments|, target, account, KindOf(target), amount, date, None)])
  }

  /** The transaction of a payment: the column is unique, so the first match is the only one. */
  function TransactionOf(transactions: seq<Transaction>, payment: Id): (t: Option<Id>)
    ensures t.Some? ==> t.value < |transactions| && transactions[t.value].payment == payment
    ensures t.None? ==> forall i :: 0 <= i < |transactions| ==> transactions[i].payment != payment
  {
    if transactions == [] then None
    else
      var last := |transactions| - 1;
      if transactions[last].payment == payment then Some(last) else TransactionOf(transactions[..last], payment)
  }

  /** updateMany over the statement entries that point to a transaction. */
  function Unmatched(entries: seq<Entry>, transaction: Id): seq<Entry> {
    seq(|entries|, i requires 0 <= i < |entries| =>
      if entries[i].matched == Some(transaction)
      then entries[i].(status := EntryStatus.Pendente, matched := None, reconciledAt := None)
      else entries[i])
  }

  /** Marks a payment and its transaction reversed and frees the entries reconciled with it. */
  function Reversed(db: Db, payment: Id, now: Time): Outcome<Db>
    requires payment < |db.payments|
  {
    match TransactionOf(db.transactions, payment)
    case None => Err(NotFound)
    case Some(t) =>
      Ok(db.(payments := db.payments[payment := db.payments[payment].(reversedAt := Some(now))],
             transactions := db.transactions[t := db.transactions[t].(reversedAt := Some(now))],
             entries := Unmatched(db.entries, t)))
  }

  // ------------------------------------------------------------------------------------- receivables

  /** Every receivable of the sale that is not cancelled is paid, and there is one. */
  predicate Settled(receivables: seq<Receivable>, sale: Id) {
    && (exists i | 0 <= i < |receivables| :: receivables[i].sale == sale && receivables[i].status != Cancelado)
    && (forall i | 0 <= i < |receivables| ::
          receivables[i].sale == sale && receivables[i].status != Cancelado ==> receivables[i].status == Pago)
  }

  function SyncedStatus(receivables: seq<Receivable>, sale: Id, status: SaleStatus): SaleStatus {
    if status != Ativa && status != Quitada then status
    else if Settled(receivables, sale) then Quitada
    else Ativa
  }

  function SyncSale(db: Db, sale: Id): Db {
    if sale >= |db.sales| then db
    else
      var row := db.sales[sale];
      db.(sales := db.sales[sale := row.(status := SyncedStatus(db.receivables, sale, row.status))])
  }

  /** A receivable after a payment. */
  function ReceivablePaid(row: Receivable, amount: int, paidAt: Time): Receivable {
    var paid := row.paid + amount;
    if paid == row.adjusted then row.(paid := paid, status := Pago, paidAt := Some(paidAt))
    else row.(paid := paid, status := Parcial, paidAt := None)
  }

  /** A receivable after a reversal that leaves `paid`. */
  function ReceivableReopened(row: Receivable, paid: int): Receivable {
    row.(paid := paid, status := if paid == 0 then Status.Pendente else Parcial, paidAt := None)
  }

  function RecordReceivablePayment(db: Db, id: Id, account: Id, amount: Positive, paidAt: Time, now: Time): Outcome<Db> {
    if paidAt > now then Err(BadRequest)
    else if id >= |db.receivables| then Err(NotFound)
    else
      var row := db.receivables[id];
      if row.status == Cancelado || row.status == Pago then Err(Conflict)
      else if amount > row.adjusted - row.paid then Err(BadRequest)
      else if account !in db.accounts then Err(BadRequest)
      else
        var posted := Posted(db, ReceivableTarget(id), account, amount, paidAt);
        Ok(SyncSale(posted.(receivables := db.receivables[id := ReceivablePaid(row, amount, paidAt)]), row.sale))
  }

  function ReverseReceivablePayment(db: Db, id: Id, payment: Id, now: Time): Outcome<Db> {
    if id >= |db.receivables| then Err(NotFound)
    else if payment >= |db.payments| || db.payments[payment].target != ReceivableTarget(id) then Err(NotFound)
    else if db.payments[payment].reversedAt.Some? then Err(Conflict)
    else
      var row := db.receivables[id];
      var paid := row.paid - db.payments[payment].amount;
      if paid < 0 then Err(Conflict)
      else
        match Reversed(db, payment, now)
        case Err(e) => Err(e)
        case Ok(reversed) =>
          Ok(SyncSale(reversed.(receivables := db.receivables[id := ReceivableReopened(row, paid)]), row.sale))
  }

  function CancelReceivable(db: Db, id: Id, now: Time): Outcome<Db> {
    if id >= |db.receivables| then Err(NotFound)
    else
      var row := db.receivables[id];
      if row.status == Cancelado then Ok(db)
      else if row.paid != 0 then Err(Conflict)
      else
        var cancelled := row.(status := Cancelado, cancelledAt := Some(now));
        Ok(SyncSale(db.(receivables := db.receivables[id := cancelled]), row.sale))
  }

  /** Applying an index period.  The status is not part of the update. */
  function ApplyAdjustment(db: Db, id: Id, policy: Option<MonetaryAdjustment.Policy>, start: int, end: int): Outcome<Db> {
    if exists i | 0 <= i < |db.adjustments| ::
         db.adjustments[i].receivable == id && db.adjustments[i].start == start && db.adjustments[i].end == end
    then Err(Conflict)
    else if start > end then Err(BadRequest)
    else if id >= |db.receivables| then Err(NotFound)
    else
      var row := db.receivables[id];
      if row.status == Cancelado then Err(Conflict)
      else if policy.None? then Err(Conflict)
      else
        match MonetaryAdjustment.Calculate(row.adjusted, policy.value, start, end)
        case Err(e) => Err(e)
        case Ok(c) =>
          if c.adjusted < row.paid then Err(Conflict)
          else
            Ok(db.(receivables := db.receivables[id := row.(adjusted := c.adjusted)],
                   adjustments := db.adjustments + [Adjustment(id, c.previous, c.adjusted, c.difference, start, end)]))
  }

  // ------------------------------------------------------------------------------------------- sales

  function NewReceivable(sale: Id, amount: int): Receivable {
    Receivable(sale, amount, amount, 0, Status.Pendente, None, None)
  }

  function NewReceivables(sale: Id, rows: seq<Installments.Row>): seq<Receivable> {
    seq(|rows|, i requires 0 <= i < |rows| => NewReceivable(sale, rows[i].amount))
  }

  function NewCommissions(sale: Id, amounts: seq<nat>): seq<Commission> {
    seq(|amounts|, i requires 0 <= i < |amounts| => Commission(sale, amounts[i], Prevista))
  }

  /** The financial part of a conversion: the sale, its receivables and its commissions. */
  function RegisterSale(db: Db, net: int, plans: seq<Installments.Plan>, due: Installments.Schedule, commissions: seq<nat>): Outcome<Db> {
    if plans == [] then Err(Conflict)
    else if Sum(Installments.Totals(plans)) != net then Err(Conflict)
    else
      match Installments.Generate({}, plans, due)
      case Err(e) => Err(e)
      case Ok(rows) =>
        Ok(db.(sales := db.sales + [Sale(net, Ativa)],
               receivables := db.receivables + NewReceivables(|db.sales|, rows),
               commissions := db.commissions + NewCommissions(|db.sales|, commissions)))
  }

  function AddCommission(db: Db, sale: Id, amount: nat): Outcome<Db> {
    if sale >= |db.sales| then Err(NotFound)
    else if db.sales[sale].status == SaleStatus.Cancelada || db.sales[sale].status == Distratada then Err(Conflict)
    else Ok(db.(commissions := db.commissions + [Commission(sale, amount, Prevista)]))
  }

  /** The commission a payable pays belongs to the sale. */
  predicate PaysCommissionOf(commissions: seq<Commission>, payable: Payable, sale: Id) {
    && payable.source.ForCommission?
    && payable.source.commission < |commissions|
    && commissions[payable.source.commission].sale == sale
  }

  function CancelledReceivables(receivables: seq<Receivable>, sale: Id, now: Time): seq<Receivable> {
    seq(|receivables|, i requires 0 <= i < |receivables| =>
      if receivables[i].sale == sale then receivables[i].(status := Cancelado, cancelledAt := Some(now)) else receivables[i])
  }

  function CancelledPayables(payables: seq<Payable>, commissions: seq<Commission>, sale: Id, now: Time): seq<Payable> {
    seq(|payables|, i requires 0 <= i < |payables| =>
      if PaysCommissionOf(commissions, payables[i], sale) && payables[i].status != Pago
      then payables[i].(status := Cancelado, cancelledAt := Some(now))
      else payables[i])
  }

  function CancelledCommissions(commissions: seq<Commission>, sale: Id): seq<Commission> {
    seq(|commissions|, i requires 0 <= i < |commissions| =>
      if commissions[i].sale == sale then commissions[i].(status := CommissionStatus.Cancelada) else commissions[i])
  }

  /** The distrato of a sale. */
  function CancelSale(db: Db, sale: Id, now: Time): Outcome<Db> {
    if sale >= |db.sales| then Err(NotFound)
    else if db.sales[sale].status == Distratada || db.sales[sale].status == SaleStatus.Cancelada then Err(Conflict)
    else if exists i | 0 <= i < |db.receivables| :: db.receivables[i].sale == sale && db.receivables[i].paid != 0 then Err(Conflict)
    else if exists i | 0 <= i < |db.commissions| :: db.commissions[i].sale == sale && db.commissions[i].status == Paga then Err(Conflict)
    else if exists i | 0 <= i < |db.payables| :: PaysCommissionOf(db.commissions, db.payables[i], sale) && db.payables[i].paid != 0 then Err(Conflict)
    else
      Ok(db.(receivables := CancelledReceivables(db.receivables, sale, now),
             payables := CancelledPayables(db.payables, db.commissions, sale, now),
             commissions := CancelledCommissions(db.commissions, sale),
             sales := db.sales[sale := db.sales[sale].(status := Distratada)]))
  }

  // ---------------------------------------------------------------------------------------- payables

  /** The payable of a source: both source columns are unique. */
  function PayableOf(payables: seq<Payable>, source: Source): (p: Option<Id>)
    ensures p.Some? ==> p.value < |payables| && payables[p.value].source == source
    ensures p.None? ==> forall i :: 0 <= i < |payables| ==> payables[i].source != source
  {
    if payables == [] then None
    else
      var last := |payables| - 1;
      if payables[last].source == source then Some(last) else PayableOf(payables[..last], source)
  }

  function NewPayable(source: Source, amount: int): Payable {
    Payable(source, amount, 0, Status.Pendente, None, None)
  }

  function CreatePayable(db: Db, amount: Positive): Outcome<Db> {
    Ok(db.(payables := db.payables + [NewPayable(Manual, amount)]))
  }

  function UpdatePayable(db: Db, id: Id, amount: Option<Positive>): Outcome<Db> {
    if id >= |db.payables| then Err(NotFound)
    else
      var row := db.payables[id];
      var original := if amount.Some? then amount.value else row.original;
      if row.source != Manual then Err(Conflict)
      else if original < row.paid then Err(BadRequest)
      else if row.paid > 0 && amount.Some? && original <= row.paid && original != row.original then Err(BadRequest)
      else
        var status := if original == row.paid then Pago else if row.paid > 0 then Parcial else Status.Pendente;
        Ok(db.(payables := db.payables[id := row.(original := original, status := status)]))
  }

  /** What a payment or a reversal of a payable writes on its origin. */
  function SyncSource(db: Db, payable: Payable): Db {
    var isPaid := payable.status == Pago;
    match payable.source
    case Manual => db
    case ForReturn(r) =>
      if r >= |db.investorReturns| then db
      else
        var row := db.investorReturns[r].(paid := isPaid, realized := if isPaid then Some(payable.paid) else None);
        db.(investorReturns := db.investorReturns[r := row])
    case ForCommission(c) =>
      if c >= |db.commissions| then db
      else db.(commissions := db.commissions[c := db.commissions[c].(status := if isPaid then Paga else Devida)])
  }

  /** A payable after a payment. */
  function PayablePaid(row: Payable, amount: int, paidAt: Time): Payable {
    var paid := row.paid + amount;
    if paid == row.original then row.(paid := paid, status := Pago, paidAt := Some(paidAt))
    else row.(paid := paid, status := Parcial, paidAt := None)
  }

  /** A payable after a reversal that leaves `paid`. */
  function PayableReopened(row: Payable, paid: int): Payable {
    row.(paid := paid, status := if paid == 0 then Status.Pendente else Parcial, paidAt := None)
  }

  function RecordPayablePayment(db: Db, id: Id, account: Id, amount: Positive, paidAt: Time, now: Time): Outcome<Db> {
    if paidAt > now then Err(BadRequest)
    else if id >= |db.payables| then Err(NotFound)
    else
      var row := db.payables[id];
      if row.status == Cancelado || row.status == Pago then Err(Conflict)
      else if amount > row.original - row.paid then Err(BadRequest)
      else if account !in db.accounts then Err(BadRequest)
      else
        var settled := PayablePaid(row, amount, paidAt);
        var posted := Posted(db, PayableTarget(id), account, amount, paidAt);
        Ok(SyncSource(posted.(payables := db.payables[id := settled]), settled))
  }

  function ReversePayablePayment(db: Db, id: Id, payment: Id, now: Time): Outcome<Db> {
    if id >= |db.payables| then Err(NotFound)
    else if payment >= |db.payments| || db.payments[payment].target != PayableTarget(id) then Err(NotFound)
    else if db.payments[payment].reversedAt.Some? then Err(Conflict)
    else
      var row := db.payables[id];
      var paid := row.paid - db.payments[payment].amount;
      if paid < 0 then Err(Conflict)
      else
        match Reversed(db, payment, now)
        case Err(e) => Err(e)
        case Ok(reversed) =>
          var reopened := PayableReopened(row, paid);
          Ok(SyncSource(reversed.(payables := db.payables[id := reopened]), reopened))
  }

  function CancelPayable(db: Db, id: Id, now: Time): Outcome<Db> {
    if id >= |db.payables| then Err(NotFound)
    else
      var row := db.payables[id];
      if row.source != Manual then Err(Conflict)
      else if row.paid != 0 then Err(Conflict)
      else if row.status == Cancelado then Ok(db)
      else Ok(db.(payables := db.payables[id := row.(status := Cancelado, cancelledAt := Some(now))]))
  }

  function MarkCommissionDue(db: Db, id: Id): Outcome<Db> {
    if id >= |db.commissions| then Err(NotFound)
    else
      var row := db.commissions[id];
      if row.status == Paga || row.status == CommissionStatus.Cancelada then Err(Conflict)
      else
        var marked := db.(commissions := db.commissions[id := row.(status := Devida)]);
        if PayableOf(db.payables, ForCommission(id)).Some? then Ok(marked)
        else Ok(marked.(payables := db.payables + [NewPayable(ForCommission(id), row.amount)]))
  }

  /** A return and, through createForInvestorReturn, its payable.  A fresh return has no payable to update. */
  function CreateReturn(db: Db, expected: nat): Outcome<Db> {
    Ok(db.(investorReturns := db.investorReturns + [Return(expected, false, None)],
           payables := db.payables + [NewPayable(ForReturn(|db.investorReturns|), expected)]))
  }

  /** New terms of a return; syncInvestorReturnTerms refuses them once money was paid. */
  function UpdateReturn(db: Db, id: Id, expected: nat): Outcome<Db> {
    if id >= |db.investorReturns| then Err(NotFound)
    else
      var updated := db.(investorReturns := db.investorReturns[id := db.investorReturns[id].(expected := expected)]);
      match PayableOf(db.payables, ForReturn(id))
      case None => Ok(updated)
      case Some(p) =>
        if db.payables[p].paid > 0 then Err(Conflict)
        else Ok(updated.(payables := db.payables[p := db.payables[p].(original := expected)]))
  }

  // ---------------------------------------------------------------------------------- reconciliation

  function ImportEntry(db: Db, account: Id, kind: Kind, amount: Positive): Outcome<Db> {
    if account !in db.accounts then Err(BadRequest)
    else Ok(db.(entries := db.entries + [Entry(account, kind, amount, EntryStatus.Pendente, None, None, None)]))
  }

  /** The transaction corresponds to the entry in account, nature and amount. */
  predicate Corresponds(entry: Entry, transaction: Transaction) {
    && transaction.reversedAt.None?
    && transaction.account == entry.account
    && transaction.kind == entry.kind
    && transaction.amount == entry.amount
  }

  function Match(db: Db, id: Id, transaction: Id, now: Time): Outcome<Db> {
    if id >= |db.entries| then Err(NotFound)
    else if db.entries[id].status != EntryStatus.Pendente then Err(Conflict)
    else if transaction >= |db.transactions| then Err(NotFound)
    else if !Corresponds(db.entries[id], db.transactions[transaction]) then Err(BadRequest)
    else if exists i | 0 <= i < |db.entries| :: db.entries[i].matched == Some(transaction) then Err(Conflict)
    else
      var entry := db.entries[id].(status := Conciliado, matched := Some(transaction), reconciledAt := Some(now), ignoredAt := None);
      Ok(db.(entries := db.entries[id := entry]))
  }

  /** unmatch, ignore and restore: an expected status, a target status, and the link dropped. */
  function ChangeStatus(db: Db, id: Id, expected: EntryStatus, target: EntryStatus, now: Time): Outcome<Db> {
    if id >= |db.entries| then Err(NotFound)
    else if db.entries[id].status != expected then Err(Conflict)
    else
      var entry := db.entries[id].(status := target, matched := None, reconciledAt := None,
                                   ignoredAt := if target == Ignorado then Some(now) else None);
      Ok(db.(entries := db.entries[id := entry]))
  }

  // ------------------------------------------------------------------------------------ derived sums

  /** What a payment still counts for. */
  function LiveAmount(payment: Payment, target: Target): int {
    if payment.target == target && payment.reversedAt.None? then payment.amount else 0
  }

  /** The sum of the unreversed payments of a target. */
  function Live(payments: seq<Payment>, target: Target): int {
    if payments == [] then 0
    else Live(payments[..|payments| - 1], target) + LiveAmount(payments[|payments| - 1], target)
  }

  function SignedAmount(t: Transaction): int {
    if t.reversedAt.Some? then 0 else if t.kind == Entrada then t.amount else -t.amount
  }

  /** The cash balance of the financial summary, without filters. */
  function CashBalance(transactions: seq<Transaction>): int {
    if transactions == [] then 0
    else CashBalance(transactions[..|transactions| - 1]) + SignedAmount(transactions[|transactions| - 1])
  }

  function PaidIn(receivables: seq<Receivable>): int {
    if receivables == [] then 0 else PaidIn(receivables[..|receivables| - 1]) + receivables[|receivables| - 1].paid
  }

  function PaidOut(payables: seq<Payable>): int {
    if payables == [] then 0 else PaidOut(payables[..|payables| - 1]) + payables[|payables| - 1].paid
  }

  /** The original amounts of the receivables of a sale. */
  function SaleTotal(receivables: seq<Receivable>, sale: Id): int {
    if receivables == [] then 0
    else
      var last := receivables[|receivables| - 1];
      SaleTotal(receivables[..|receivables| - 1], sale) + if last.sale == sale then last.original else 0
  }

  /** What the receivables of a sale have received. */
  function SalePaid(receivables: seq<Receivable>, sale: Id): int {
    if receivables == [] then 0
    else
      var last := receivables[|receivables| - 1];
      SalePaid(receivables[..|receivables| - 1], sale) + if last.sale == sale then last.paid else 0
  }

  /** The open balance of the active receivables of a sale. */
  function OpenBalance(receivables: seq<Receivable>, sale: Id): int {
    if receivables == [] then 0
    else
      var last := receivables[|receivables| - 1];
      OpenBalance(receivables[..|receivables| - 1], sale)
      + if last.sale == sale && last.status != Cancelado then last.adjusted - last.paid else 0
  }

  /** The outstanding balance a sale is presented with. */
  function Outstanding(db: Db, sale: Id): int
    requires sale < |db.sales|
  {
    if exists i | 0 <= i < |db.receivables| :: db.receivables[i].sale == sale then OpenBalance(db.receivables, sale)
    else if db.sales[sale].status == Ativa then db.sales[sale].net
    else 0
  }

  /** The differences recorded for a receivable. */
  function Differences(adjustments: seq<Adjustment>, receivable: Id): int {
    if adjustments == [] then 0
    else
      var last := adjustments[|adjustments| - 1];
      Differences(adjustments[..|adjustments| - 1], receivable) + if last.receivable == receivable then last.difference else 0
  }

  // -------------------------------------------------------------------------------------------- runs

  /** One committed or refused service call. */
  datatype Step =
    | DoRegisterSale(net: int, plans: seq<Installments.Plan>, due: Installments.Schedule, commissions: seq<nat>)
    | DoAddCommission(sale: Id, commission: nat)
    | DoCancelSale(sale: Id, now: Time)
    | DoRecordReceivablePayment(receivable: Id, account: Id, amount: Positive, paidAt: Time, now: Time)
    | DoReverseReceivablePayment(receivable: Id, payment: Id, now: Time)
    | DoCancelReceivable(receivable: Id, now: Time)
    | DoApplyAdjustment(receivable: Id, policy: Option<MonetaryAdjustment.Policy>, start: int, end: int)
    | DoCreatePayable(amount: Positive)
    | DoUpdatePayable(payable: Id, original: Option<Positive>)
    | DoRecordPayablePayment(payable: Id, account: Id, amount: Positive, paidAt: Time, now: Time)
    | DoReversePayablePayment(payable: Id, payment: Id, now: Time)
    | DoCancelPayable(payable: Id, now: Time)
    | DoMarkCommissionDue(commissionId: Id)
    | DoCreateReturn(expected: nat)
    | DoUpdateReturn(investorReturn: Id, expected: nat)
    | DoImportEntry(account: Id, kind: Kind, amount: Positive)
    | DoMatch(entry: Id, transaction: Id, now: Time)
    | DoUnmatch(entry: Id, now: Time)
    | DoIgnore(entry: Id, now: Time)
    | DoRestore(entry: Id, now: Time)

  function Call(db: Db, step: Step): Outcome<Db> {
    match step
    case DoRegisterSale(net, plans, due, commissions) => RegisterSale(db, net, plans, due, commissions)
    case DoAddCommission(sale, commission) => AddCommission(db, sale, commission)
    case DoCancelSale(sale, now) => CancelSale(db, sale, now)
    case DoRecordReceivablePayment(id, account, amount, paidAt, now) => RecordReceivablePayment(db, id, account, amount, paidAt, now)
    case DoReverseReceivablePayment(id, payment, now) => ReverseReceivablePayment(db, id, payment, now)
    case DoCancelReceivable(id, now) => CancelReceivable(db, id, now)
    case DoApplyAdjustment(id, policy, start, end) => ApplyAdjustment(db, id, policy, start, end)
    case DoCreatePayable(amount) => CreatePayable(db, amount)
    case DoUpdatePayable(id, original) => UpdatePayable(db, id, original)
    case DoRecordPayablePayment(id, account, amount, paidAt, now) => RecordPayablePayment(db, id, account, amount, paidAt, now)
    case DoReversePayablePayment(id, payment, now) => ReversePayablePayment(db, id, payment, now)
    case DoCancelPayable(id, now) => CancelPayable(db, id, now)
    case DoMarkCommissionDue(id) => MarkCommissionDue(db, id)
    case DoCreateReturn(expected) => CreateReturn(db, expected)
    case DoUpdateReturn(id, expected) => UpdateReturn(db, id, expected)
    case DoImportEntry(account, kind, amount) => ImportEntry(db, account, kind, amount)
    case DoMatch(entry, transaction, now) => Match(db, entry, transaction, now)
    case DoUnmatch(entry, now) => ChangeStatus(db, entry, Conciliado, EntryStatus.Pendente, now)
    case DoIgnore(entry, now) => ChangeStatus(db, entry, EntryStatus.Pendente, Ignorado, now)
    case DoRestore(entry, now) => ChangeStatus(db, entry, Ignorado, EntryStatus.Pendente, now)
  }

  /** The committed state after a call: an exception leaves the state as it was. */
  function Next(db: Db, step: Step): Db {
    match Call(db, step)
    case Ok(db') => db'
    case Err(_) => db
  }

  function Run(db: Db, steps: seq<Step>): Db {
    if steps == [] then db else Next(Run(db, steps[..|steps| - 1]), steps[|steps| - 1])
  }

  /** An organisation before its first operation; bank accounts are given. */
  function Empty(accounts: set<Id>): Db {
    Db(accounts, [], [], [], [], [], [], [], [], [])
  }
}
