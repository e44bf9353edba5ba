/**
 * The ledger tables as mutable state and one method for each service transaction, written statement by statement in
 * the order of the services.  Every transaction commits exactly the state its specification in module Ledger gives, or
 * leaves the tables untouched and reports the exception, and either way leaves them valid.  The queries and bulk updates
 * inside a transaction are loops over the rows; while one runs the tables need not be valid.
 */
module LedgerService {
  import opened Common
  import opened Sums
  import opened Rounding
  import Installments
  import MonetaryAdjustment
  import opened Ledger
  import opened LedgerInvariant
  import LedgerRuns
  import LedgerSteps

  type Reply = Option<Error>

  /** The reply and the tables after a call, as the specified outcome tells: a commit, or an exception and a rollback. */
  ghost predicate Follows(before: Db, outcome: Outcome<Db>, reply: Reply, after: Db) {
    match outcome
    case Ok(committed) => reply == None && after == committed
    case Err(e) => reply == Some(e) && after == before
  }

  class Tables {
    var accounts: set<Id>
    var sales: seq<Sale>
    var receivables: seq<Receivable>
    var commissions: seq<Commission>
    var investorReturns: seq<Return>
    var payables: seq<Payable>
    var payments: seq<Payment>
    var transactions: seq<Transaction>
    var entries: seq<Entry>
    var adjustments: seq<Adjustment>

    ghost function State(): Db
      reads this
    {
      Db(accounts, sales, receivables, commissions, investorReturns, payables, payments, transactions, entries, adjustments)
    }

    /** The ledger invariant, which every transaction may rely on and has to keep. */
    ghost predicate Valid()
      reads this
    {
      Inv(State())
    }

    constructor (accounts: set<Id>)
      ensures State() == Empty(accounts) && Valid()
    {
      this.accounts := accounts;
      sales, receivables, commissions, investorReturns := [], [], [], [];
      payables, payments, transactions, entries, adjustments := [], [], [], [], [];
      new;
      LedgerRuns.EmptyOk(accounts);
    }

    // --------------------------------------------------------------------------------------- queries

    /** The transaction of a payment, searched from the newest. */
    method FindTransaction(payment: Id) returns (found: Option<Id>)
      ensures found == TransactionOf(transactions, payment)
    {
      var n := |transactions|;
      assert transactions[..n] == transactions;
      while n > 0
        invariant 0 <= n <= |transactions|
        invariant TransactionOf(transactions, payment) == TransactionOf(transactions[..n], payment)
      {
        assert transactions[..n][..n - 1] == transactions[..n - 1];
        if transactions[n - 1].payment == payment { return Some(n - 1); }
        n := n - 1;
      }
      found := None;
    }

    /** The payable of a source. */
    method FindPayable(source: Source) returns (found: Option<Id>)
      ensures found == PayableOf(payables, source)
    {
      var n := |payables|;
      assert payables[..n] == payables;
      while n > 0
        invariant 0 <= n <= |payables|
        invariant PayableOf(payables, source) == PayableOf(payables[..n], source)
      {
        assert payables[..n][..n - 1] == payables[..n - 1];
        if payables[n - 1].source == source { return Some(n - 1); }
        n := n - 1;
      }
      found := None;
    }

    /** Whether the active receivables of the sale exist and are all paid. */
    method EveryReceivablePaid(sale: Id) returns (settled: bool)
      ensures settled == Settled(receivables, sale)
    {
      var anyActive := false;
      for i := 0 to |receivables|
        invariant anyActive == exists k | 0 <= k < i :: receivables[k].sale == sale && receivables[k].status != Cancelado
        invariant forall k | 0 <= k < i :: receivables[k].sale == sale && receivables[k].status != Cancelado ==> receivables[k].status == Pago
      {
        if receivables[i].sale == sale && receivables[i].status != Cancelado {
          if receivables[i].status != Pago { return false; }
          anyActive := true;
        }
      }
      settled := anyActive;
    }

    method AdjustmentExists(id: Id, start: int, end: int) returns (found: bool)
      ensures found == exists i | 0 <= i < |adjustments| ::
                adjustments[i].receivable == id && adjustments[i].start == start && adjustments[i].end == end
    {
      for i := 0 to |adjustments|
        invariant !(exists k | 0 <= k < i :: adjustments[k].receivable == id && adjustments[k].start == start && adjustments[k].end == end)
      {
        if adjustments[i].receivable == id && adjustments[i].start == start && adjustments[i].end == end { return true; }
      }
      found := false;
    }

    method EntryMatched(transaction: Id) returns (found: bool)
      ensures found == exists i | 0 <= i < |entries| :: entries[i].matched == Some(transaction)
    {
      for i := 0 to |entries|
        invariant !(exists k | 0 <= k < i :: entries[k].matched == Some(transaction))
      {
        if entries[i].matched == Some(transaction) { return true; }
      }
      found := false;
    }

    method ReceivablePaidOf(sale: Id) returns (found: bool)
      ensures found == exists i | 0 <= i < |receivables| :: receivables[i].sale == sale && receivables[i].paid != 0
    {
      for i := 0 to |receivables|
        invariant !(exists k | 0 <= k < i :: receivables[k].sale == sale && receivables[k].paid != 0)
      {
        if receivables[i].sale == sale && receivables[i].paid != 0 { return true; }
      }
      found := false;
    }

    method CommissionPaidOf(sale: Id) returns (found: bool)
      ensures found == exists i | 0 <= i < |commissions| :: commissions[i].sale == sale && commissions[i].status == Paga
    {
      for i := 0 to |commissions|
        invariant !(exists k | 0 <= k < i :: commissions[k].sale == sale && commissions[k].status == Paga)
      {
        if commissions[i].sale == sale && commissions[i].status == Paga { return true; }
      }
      found := false;
    }

    method CommissionPayablePaidOf(sale: Id) returns (found: bool)
      ensures found == exists i | 0 <= i < |payables| :: PaysCommissionOf(commissions, payables[i], sale) && payables[i].paid != 0
    {
      for i := 0 to |payables|
        invariant !(exists k | 0 <= k < i :: PaysCommissionOf(commissions, payables[k], sale) && payables[k].paid != 0)
      {
        if payables[i].source.ForCommission? && payables[i].source.commission < |commissions|
           && commissions[payables[i].source.commission].sale == sale && payables[i].paid != 0 {
          return true;
        }
      }
      found := false;
    }

    // ---------------------------------------------------------------------------------- shared writes

    /** The payment and its transaction. */
    method Post(target: Target, account: Id, amount: int, date: Time)
      modifies this`payments, this`transactions
      ensures State() == Posted(old(State()), target, account, amount, date)
    {
      var payment := |payments|;
      payments := payments + [Payment(target, account, amount, date, None)];
      transactions := transactions + [Transaction(payment, target, account, KindOf(target), amount, date, None)];
    }

    /** Frees the statement entries matched with a transaction, one by one. */
    method UnmatchEntries(transaction: Id)
      modifies this`entries
      ensures entries == Unmatched(old(entries), transaction)
    {
      for i := 0 to |entries|
        invariant |entries| == |old(entries)|
        invariant forall k :: 0 <= k < i ==> entries[k] == Unmatched(old(entries), transaction)[k]
        invariant forall k :: i <= k < |entries| ==> entries[k] == old(entries)[k]
      {
        if entries[i].matched == Some(transaction) {
          entries := entries[i := entries[i].(status := EntryStatus.Pendente, matched := None, reconciledAt := None)];
        }
      }
    }

    /** Marks the payment and its transaction reversed and frees the statement entries matched with it. */
    method Reverse(payment: Id, now: Time) returns (reply: Reply)
      requires payment < |payments|
      modifies this`payments, this`transactions, this`entries
      ensures Follows(old(State()), Reversed(old(State()), payment, now), reply, State())
    {
      var found := FindTransaction(payment);
      if found.None? {
        return Some(NotFound);
      }
      payments := payments[payment := payments[payment].(reversedAt := Some(now))];
      transactions := transactions[found.value := transactions[found.value].(reversedAt := Some(now))];
      UnmatchEntries(found.value);
      reply := None;
    }

    method SyncSaleStatus(sale: Id)
      modifies this`sales
      ensures State() == SyncSale(old(State()), sale)
    {
      if sale >= |sales| {
        return;
      }
      var row := sales[sale];
      assert sales[sale := row] == sales;
      if row.status != Ativa && row.status != Quitada {
        return;
      }
      var settled := EveryReceivablePaid(sale);
      var next := if settled then Quitada else Ativa;
      if row.status != next {
        sales := sales[sale := row.(status := next)];
      }
    }

    // ----------------------------------------------------------------------------------- receivables

    /** The writes of an accepted payment: payment, transaction, receivable, sale. */
    method PayReceivable(id: Id, account: Id, amount: Positive, paidAt: Time)
      requires id < |receivables|
      modifies this
      ensures var db, row := old(State()), old(receivables[id]);
              State() == SyncSale(Posted(db, ReceivableTarget(id), account, amount, paidAt)
                                    .(receivables := db.receivables[id := ReceivablePaid(row, amount, paidAt)]), row.sale)
    {
      var row := receivables[id];
      Post(ReceivableTarget(id), account, amount, paidAt);
      var paidAmount := row.paid + amount;
      var status := if paidAmount == row.adjusted then Pago else Parcial;
      row := row.(paid := paidAmount, status := status, paidAt := if status == Pago then Some(paidAt) else None);
      receivables := receivables[id := row];
      SyncSaleStatus(row.sale);
    }

    method RecordReceivablePayment(id: Id, account: Id, amount: Positive, paidAt: Time, now: Time) returns (reply: Reply)
      requires Valid()
      modifies this
      ensures Valid()
      ensures Follows(old(State()), Ledger.RecordReceivablePayment(old(State()), id, account, amount, paidAt, now), reply, State())
    {
      if paidAt > now { return Some(BadRequest); }
      if id >= |receivables| { return Some(NotFound); }
      var row := receivables[id];
      if row.status == Cancelado { return Some(Conflict); }
      if row.status == Pago { return Some(Conflict); }
      var balance := row.adjusted - row.paid;
      if amount > balance { return Some(BadRequest); }
      if account !in accounts { return Some(BadRequest); }
      PayReceivable(id, account, amount, paidAt);
      reply := None;
      LedgerSteps.RecordReceivablePaymentKeeps(old(State()), id, account, amount, paidAt, now);
    }

    /** The writes of a reversal: payment, transaction, entries, receivable, sale. */
    method ReopenReceivable(id: Id, payment: Id, paidAmount: int, now: Time) returns (reply: Reply)
      requires id < |receivables| && payment < |payments|
      modifies this
      ensures var db, row := old(State()), old(receivables[id]);
              match Reversed(db, payment, now)
              case Err(e) => reply == Some(e) && State() == db
              case Ok(reversed) =>
                && reply == None
                && State() == SyncSale(reversed.(receivables := db.receivables[id := ReceivableReopened(row, paidAmount)]), row.sale)
    {
      reply := Reverse(payment, now);
      if reply.Some? { return; }
      var row := receivables[id];
      row := row.(paid := paidAmount, status := if paidAmount == 0 then Status.Pendente else Parcial, paidAt := None);
      receivables := receivables[id := row];
      SyncSaleStatus(row.sale);
    }

    method ReverseReceivablePayment(id: Id, payment: Id, now: Time) returns (reply: Reply)
      requires Valid()
      modifies this
      ensures Valid()
      ensures Follows(old(State()), Ledger.ReverseReceivablePayment(old(State()), id, payment, now), reply, State())
    {
      if id >= |receivables| { return Some(NotFound); }
      if payment >= |payments| || payments[payment].target != ReceivableTarget(id) { return Some(NotFound); }
      if payments[payment].reversedAt.Some? { return Some(Conflict); }
      var row := receivables[id];
      var paidAmount := row.paid - payments[payment].amount;
      if paidAmount < 0 { return Some(Conflict); }
      reply := ReopenReceivable(id, payment, paidAmount, now);
      if reply.Some? { return; }
      LedgerSteps.ReverseReceivablePaymentKeeps(old(State()), id, payment, now);
    }

    method CancelReceivable(id: Id, now: Time) returns (reply: Reply)
      requires Valid()
      modifies this
      ensures Valid()
      ensures Follows(old(State()), Ledger.CancelReceivable(old(State()), id, now), reply, State())
      ensures reply.None? ==> id < |receivables| == |old(receivables)| && receivables[id].status == Cancelado
      ensures reply.None? && old(receivables)[id].status != Cancelado ==> receivables[id].cancelledAt == Some(now)
    {
      if id >= |receivables| { return Some(NotFound); }
      var row := receivables[id];
      if row.status == Cancelado { return None; }
      if row.paid != 0 { return Some(Conflict); }
      receivables := receivables[id := row.(status := Cancelado, cancelledAt := Some(now))];
      SyncSaleStatus(row.sale);
      reply := None;
      LedgerSteps.CancelReceivableKeeps(old(State()), id, now);
    }

    /** calculate: the factor of the period, multiplied up value by value, and the rounded amount. */
    method Calculate(previous: int, policy: MonetaryAdjustment.Policy, start: int, end: int) returns (c: Outcome<MonetaryAdjustment.Calculation>)
      ensures c == MonetaryAdjustment.Calculate(previous, policy, start, end)
    {
      if start > end { return Err(BadRequest); }
      var values := MonetaryAdjustment.Window(policy.values, MonetaryAdjustment.EffectiveStart(policy, start), end);
      if values == [] { return Err(BadRequest); }
      var factor := MonetaryAdjustment.AccumulateFactor(values);
      var adjusted := RoundHalfUp(Times(previous as real, factor));
      c := Ok(MonetaryAdjustment.Calculation(previous, adjusted, adjusted - previous, factor));
    }

    method ApplyAdjustment(id: Id, policy: Option<MonetaryAdjustment.Policy>, start: int, end: int) returns (reply: Reply)
      requires Valid()
      modifies this
      ensures Valid()
      ensures Follows(old(State()), Ledger.ApplyAdjustment(old(State()), id, policy, start, end), reply, State())
    {
      var existing := AdjustmentExists(id, start, end);
      if existing { return Some(Conflict); }
      if start > end { return Some(BadRequest); }
      if id >= |receivables| { return Some(NotFound); }
      var row := receivables[id];
      if row.status == Cancelado { return Some(Conflict); }
      if policy.None? { return Some(Conflict); }
      var calculation := Calculate(row.adjusted, policy.value, start, end);
      if calculation.Err? { return Some(calculation.error); }
      var c := calculation.value;
      if c.adjusted < row.paid { return Some(Conflict); }
      receivables := receivables[id := row.(adjusted := c.adjusted)];
      adjustments := adjustments + [Adjustment(id, c.previous, c.adjusted, c.difference, start, end)];
      reply := None;
      LedgerSteps.ApplyAdjustmentKeeps(old(State()), id, policy, start, end);
    }

    // ----------------------------------------------------------------------------------------- sales

    method RegisterSale(net: int, plans: seq<Installments.Plan>, due: Installments.Schedule, amounts: seq<nat>) returns (reply: Reply)
      requires Valid()
      modifies this
      ensures Valid()
      ensures Follows(old(State()), Ledger.RegisterSale(old(State()), net, plans, due, amounts), reply, State())
    {
      if plans == [] { return Some(Conflict); }
      if Sum(Installments.Totals(plans)) != net { return Some(Conflict); }
      var sale := |sales|;
      var table := new Installments.ReceivableTable();
      assert Installments.Keys(table.rows) == {};
      var created := table.GenerateForSale(plans, due);
      if created.Err? { return Some(created.error); }
      sales := sales + [Sale(net, Ativa)];
      InsertCommissions(sale, amounts);
      InsertReceivables(sale, created.value);
      reply := None;
      LedgerSteps.RegisterSaleKeeps(old(State()), net, plans, due, amounts);
    }

    method InsertCommissions(sale: Id, amounts: seq<nat>)
      modifies this`commissions
      ensures commissions == old(commissions) + NewCommissions(sale, amounts)
    {
      for i := 0 to |amounts|
        invariant commissions == old(commissions) + NewCommissions(sale, amounts)[..i]
      {
        commissions := commissions + [Commission(sale, amounts[i], Prevista)];
      }
    }

    method InsertReceivables(sale: Id, rows: seq<Installments.Row>)
      modifies this`receivables
      ensures receivables == old(receivables) + NewReceivables(sale, rows)
    {
      for i := 0 to |rows|
        invariant receivables == old(receivables) + NewReceivables(sale, rows)[..i]
      {
        receivables := receivables + [NewReceivable(sale, rows[i].amount)];
      }
    }

    method AddCommission(sale: Id, amount: nat) returns (reply: Reply)
      requires Valid()
      modifies this
      ensures Valid()
      ensures Follows(old(State()), Ledger.AddCommission(old(State()), sale, amount), reply, State())
    {
      if sale >= |sales| { return Some(NotFound); }
      if sales[sale].status == SaleStatus.Cancelada || sales[sale].status == Distratada { return Some(Conflict); }
      commissions := commissions + [Commission(sale, amount, Prevista)];
      reply := None;
      LedgerSteps.AddCommissionKeeps(old(State()), sale, amount);
    }

    /** The three guards of the distrato: money on a receivable, a paid commission, money on the payable of one. */
    method MoneyMovedOn(sale: Id) returns (moved: bool)
      ensures moved <==>
                || (exists i | 0 <= i < |receivables| :: receivables[i].sale == sale && receivables[i].paid != 0)
                || (exists i | 0 <= i < |commissions| :: commissions[i].sale == sale && commissions[i].status == Paga)
                || (exists i | 0 <= i < |payables| :: PaysCommissionOf(commissions, payables[i], sale) && payables[i].paid != 0)
    {
      moved := ReceivablePaidOf(sale);
      if moved { return; }
      moved := CommissionPaidOf(sale);
      if moved { return; }
      moved := CommissionPayablePaidOf(sale);
    }

    method CancelReceivablesOf(sale: Id, now: Time)
      modifies this`receivables
      ensures receivables == CancelledReceivables(old(receivables), sale, now)
    {
      for i := 0 to |receivables|
        invariant |receivables| == |old(receivables)|
        invariant forall k :: 0 <= k < i ==> receivables[k] == CancelledReceivables(old(receivables), sale, now)[k]
        invariant forall k :: i <= k < |receivables| ==> receivables[k] == old(receivables)[k]
      {
        if receivables[i].sale == sale {
          receivables := receivables[i := receivables[i].(status := Cancelado, cancelledAt := Some(now))];
        }
      }
    }

    method CancelPayablesOf(sale: Id, now: Time)
      modifies this`payables
      ensures payables == CancelledPayables(old(payables), commissions, sale, now)
    {
      for i := 0 to |payables|
        invariant |payables| == |old(payables)|
        invariant forall k :: 0 <= k < i ==> payables[k] == CancelledPayables(old(payables), commissions, sale, now)[k]
        invariant forall k :: i <= k < |payables| ==> payables[k] == old(payables)[k]
      {
        if PaysCommissionOf(commissions, payables[i], sale) && payables[i].status != Pago {
          payables := payables[i := payables[i].(status := Cancelado, cancelledAt := Some(now))];
        }
      }
    }

    method CancelCommissionsOf(sale: Id)
      modifies this`commissions
      ensures commissions == CancelledCommissions(old(commissions), sale)
    {
      for i := 0 to |commissions|
        invariant |commissions| == |old(commissions)|
        invariant forall k :: 0 <= k < i ==> commissions[k] == CancelledCommissions(old(commissions), sale)[k]
        invariant forall k :: i <= k < |commissions| ==> commissions[k] == old(commissions)[k]
      {
        if commissions[i].sale == sale {
          commissions := commissions[i := commissions[i].(status := CommissionStatus.Cancelada)];
        }
      }
    }

    /** The bulk updates of the distrato in their order, the sale row last. */
    method CloseSale(sale: Id, now: Time)
      requires sale < |sales|
      modifies this
      ensures var db := old(State());
              State() == db.(receivables := CancelledReceivables(db.receivables, sale, now),
                             payables := CancelledPayables(db.payables, db.commissions, sale, now),
                             commissions := CancelledCommissions(db.commissions, sale),
                             sales := db.sales[sale := db.sales[sale].(status := Distratada)])
    {
      CancelReceivablesOf(sale, now);
      CancelPayablesOf(sale, now);
      CancelCommissionsOf(sale);
      sales := sales[sale := sales[sale].(status := Distratada)];
    }

    method CancelSale(sale: Id, now: Time) returns (reply: Reply)
      requires Valid()
      modifies this
      ensures Valid()
      ensures Follows(old(State()), Ledger.CancelSale(old(State()), sale, now), reply, State())
    {
      if sale >= |sales| { return Some(NotFound); }
      if sales[sale].status == Distratada || sales[sale].status == SaleStatus.Cancelada { return Some(Conflict); }
      var paid := MoneyMovedOn(sale);
      if paid { return Some(Conflict); }
      CloseSale(sale, now);
      reply := None;
      LedgerSteps.CancelSaleKeeps(old(State()), sale, now);
    }

    // -------------------------------------------------------------------------------------- payables

    method CreatePayable(amount: Positive)
      requires Valid()
      modifies this
      ensures Valid()
      ensures Follows(old(State()), Ledger.CreatePayable(old(State()), amount), None, State())
    {
      payables := payables + [NewPayable(Manual, amount)];
      LedgerSteps.CreatePayableKeeps(old(State()), amount);
    }

    method UpdatePayable(id: Id, amount: Option<Positive>) returns (reply: Reply)
      requires Valid()
      modifies this
      ensures Valid()
      ensures Follows(old(State()), Ledger.UpdatePayable(old(State()), id, amount), reply, State())
    {
      if id >= |payables| { return Some(NotFound); }
      var existing := payables[id];
      if existing.source != Manual { return Some(Conflict); }
      var original := if amount.Some? then amount.value else existing.original;
      if original < existing.paid { return Some(BadRequest); }
      if existing.paid > 0 && amount.Some? && original <= existing.paid && original != existing.original {
        return Some(BadRequest);
      }
      var status := if original == existing.paid then Pago else if existing.paid > 0 then Parcial else Status.Pendente;
      payables := payables[id := existing.(original := original, status := status)];
      reply := None;
      LedgerSteps.UpdatePayableKeeps(old(State()), id, amount);
    }

    method SyncSourceOf(payable: Payable)
      modifies this`investorReturns, this`commissions
      ensures State() == SyncSource(old(State()), payable)
    {
      if payable.source.ForReturn? && payable.source.investorReturn < |investorReturns| {
        var r, isPaid := payable.source.investorReturn, payable.status == Pago;
        investorReturns := investorReturns[r := investorReturns[r].(paid := isPaid,
                                                                    realized := if isPaid then Some(payable.paid) else None)];
      }
      if payable.source.ForCommission? && payable.source.commission < |commissions| {
        var c := payable.source.commission;
        commissions := commissions[c := commissions[c].(status := if payable.status == Pago then Paga else Devida)];
      }
    }

    /** The writes of an accepted payment: payment, transaction, payable, origin. */
    method PayPayable(id: Id, account: Id, amount: Positive, paidAt: Time)
      requires id < |payables|
      modifies this
      ensures var db, settled := old(State()), PayablePaid(old(payables[id]), amount, paidAt);
              State() == SyncSource(Posted(db, PayableTarget(id), account, amount, paidAt).(payables := db.payables[id := settled]), settled)
    {
      var row := payables[id];
      Post(PayableTarget(id), account, amount, paidAt);
      var paidAmount := row.paid + amount;
      var status := if paidAmount == row.original then Pago else Parcial;
      row := row.(paid := paidAmount, status := status, paidAt := if status == Pago then Some(paidAt) else None);
      payables := payables[id := row];
      SyncSourceOf(row);
    }

    method RecordPayablePayment(id: Id, account: Id, amount: Positive, paidAt: Time, now: Time) returns (reply: Reply)
      requires Valid()
      modifies this
      ensures Valid()
      ensures Follows(old(State()), Ledger.RecordPayablePayment(old(State()), id, account, amount, paidAt, now), reply, State())
    {
      if paidAt > now { return Some(BadRequest); }
      if id >= |payables| { return Some(NotFound); }
      var row := payables[id];
      if row.status == Cancelado { return Some(Conflict); }
      if row.status == Pago { return Some(Conflict); }
      var balance := row.original - row.paid;
      if amount > balance { return Some(BadRequest); }
      if account !in accounts { return Some(BadRequest); }
      PayPayable(id, account, amount, paidAt);
      reply := None;
      LedgerSteps.RecordPayablePaymentKeeps(old(State()), id, account, amount, paidAt, now);
    }

    method ReversePayablePayment(id: Id, payment: Id, now: Time) returns (reply: Reply)
      requires Valid()
      modifies this
      ensures Valid()
      ensures Follows(old(State()), Ledger.ReversePayablePayment(old(State()), id, payment, now), reply, State())
    {
      if id >= |payables| { return Some(NotFound); }
      if payment >= |payments| || payments[payment].target != PayableTarget(id) { return Some(NotFound); }
      if payments[payment].reversedAt.Some? { return Some(Conflict); }
      var row := payables[id];
      var paidAmount := row.paid - payments[payment].amount;
      if paidAmount < 0 { return Some(Conflict); }
      reply := Reverse(payment, now);
      if reply.Some? { return; }
      row := row.(paid := paidAmount, status := if paidAmount == 0 then Status.Pendente else Parcial, paidAt := None);
      payables := payables[id := row];
      SyncSourceOf(row);
      LedgerSteps.ReversePayablePaymentKeeps(old(State()), id, payment, now);
    }

    method CancelPayable(id: Id, now: Time) returns (reply: Reply)
      requires Valid()
      modifies this
      ensures Valid()
      ensures Follows(old(State()), Ledger.CancelPayable(old(State()), id, now), reply, State())
    {
      if id >= |payables| { return Some(NotFound); }
      var row := payables[id];
      if row.source != Manual { return Some(Conflict); }
      if row.paid != 0 { return Some(Conflict); }
      if row.status == Cancelado { return None; }
      payables := payables[id := row.(status := Cancelado, cancelledAt := Some(now))];
      reply := None;
      LedgerSteps.CancelPayableKeeps(old(State()), id, now);
    }

    /** The payable of an origin, if it has none yet. */
    method CreateMissingPayable(source: Source, amount: int)
      modifies this`payables
      ensures payables == if PayableOf(old(payables), source).Some? then old(payables) else old(payables) + [NewPayable(source, amount)]
    {
      var found := FindPayable(source);
      if found.None? {
        payables := payables + [NewPayable(source, amount)];
      }
    }

    method MarkDue(id: Id)
      requires id < |commissions|
      modifies this`commissions, this`payables
      ensures var db, row := old(State()), old(commissions[id]);
              var marked := db.(commissions := db.commissions[id := row.(status := Devida)]);
              State() == if PayableOf(db.payables, ForCommission(id)).Some? then marked
                         else marked.(payables := db.payables + [NewPayable(ForCommission(id), row.amount)])
    {
      var row := commissions[id];
      commissions := commissions[id := row.(status := Devida)];
      CreateMissingPayable(ForCommission(id), row.amount);
    }

    method MarkCommissionDue(id: Id) returns (reply: Reply)
      requires Valid()
      modifies this
      ensures Valid()
      ensures Follows(old(State()), Ledger.MarkCommissionDue(old(State()), id), reply, State())
    {
      if id >= |commissions| { return Some(NotFound); }
      var row := commissions[id];
      if row.status == Paga || row.status == CommissionStatus.Cancelada { return Some(Conflict); }
      MarkDue(id);
      reply := None;
      LedgerSteps.MarkCommissionDueKeeps(old(State()), id);
    }

    method CreateReturn(expected: nat)
      requires Valid()
      modifies this
      ensures Valid()
      ensures Follows(old(State()), Ledger.CreateReturn(old(State()), expected), None, State())
    {
      var created := |investorReturns|;
      investorReturns := investorReturns + [Return(expected, false, None)];
      payables := payables + [NewPayable(ForReturn(created), expected)];
      LedgerSteps.CreateReturnKeeps(old(State()), expected);
    }

    /** syncInvestorReturnTerms: the payable of the return follows while nothing was paid on it. */
    method SyncReturnTerms(id: Id, expected: nat) returns (reply: Reply)
      modifies this`payables
      ensures match PayableOf(old(payables), ForReturn(id))
              case None => reply == None && payables == old(payables)
              case Some(p) =>
                if old(payables)[p].paid > 0 then reply == Some(Conflict) && payables == old(payables)
                else reply == None && payables == old(payables)[p := old(payables)[p].(original := expected)]
    {
      var found := FindPayable(ForReturn(id));
      if found.None? { return None; }
      if payables[found.value].paid > 0 { return Some(Conflict); }
      payables := payables[found.value := payables[found.value].(original := expected)];
      reply := None;
    }

    /** The return row is written before the payable is looked at; its exception rolls the row back. */
    method WriteReturnTerms(id: Id, expected: nat) returns (reply: Reply)
      requires id < |investorReturns|
      modifies this`investorReturns, this`payables
      ensures Follows(old(State()), Ledger.UpdateReturn(old(State()), id, expected), reply, State())
    {
      var snapshot := investorReturns;
      investorReturns := investorReturns[id := investorReturns[id].(expected := expected)];
      reply := SyncReturnTerms(id, expected);
      if reply.Some? {
        investorReturns := snapshot;
      }
    }

    method UpdateReturn(id: Id, expected: nat) returns (reply: Reply)
      requires Valid()
      modifies this
      ensures Valid()
      ensures Follows(old(State()), Ledger.UpdateReturn(old(State()), id, expected), reply, State())
    {
      if id >= |investorReturns| { return Some(NotFound); }
      reply := WriteReturnTerms(id, expected);
      if reply.None? {
        LedgerSteps.UpdateReturnKeeps(old(State()), id, expected);
      }
    }

    // -------------------------------------------------------------------------------- reconciliation

    method ImportEntry(account: Id, kind: Kind, amount: Positive) returns (reply: Reply)
      requires Valid()
      modifies this
      ensures Valid()
      ensures Follows(old(State()), Ledger.ImportEntry(old(State()), account, kind, amount), reply, State())
    {
      if account !in accounts { return Some(BadRequest); }
      entries := entries + [Entry(account, kind, amount, EntryStatus.Pendente, None, None, None)];
      reply := None;
      LedgerSteps.ImportEntryKeeps(old(State()), account, kind, amount);
    }

    method Match(id: Id, transaction: Id, now: Time) returns (reply: Reply)
      requires Valid()
      modifies this
      ensures Valid()
      ensures Follows(old(State()), Ledger.Match(old(State()), id, transaction, now), reply, State())
    {
      if id >= |entries| { return Some(NotFound); }
      var entry := entries[id];
      if entry.status != EntryStatus.Pendente { return Some(Conflict); }
      if transaction >= |transactions| { return Some(NotFound); }
      var found := transactions[transaction];
      if found.reversedAt.Some? || found.account != entry.account || found.kind != entry.kind || found.amount != entry.amount {
        return Some(BadRequest);
      }
      var reconciled := EntryMatched(transaction);
      if reconciled { return Some(Conflict); }
      entries := entries[id := entry.(status := Conciliado, matched := Some(transaction), reconciledAt := Some(now), ignoredAt := None)];
      reply := None;
      LedgerSteps.MatchKeeps(old(State()), id, transaction, now);
    }

    method ChangeStatus(id: Id, expected: EntryStatus, target: EntryStatus, now: Time) returns (reply: Reply)
      requires Valid() && target != Conciliado
      modifies this
      ensures Valid()
      ensures Follows(old(State()), Ledger.ChangeStatus(old(State()), id, expected, target, now), reply, State())
    {
      if id >= |entries| { return Some(NotFound); }
      var entry := entries[id];
      if entry.status != expected { return Some(Conflict); }
      entries := entries[id := entry.(status := target, matched := None, reconciledAt := None,
                                      ignoredAt := if target == Ignorado then Some(now) else None)];
      reply := None;
      LedgerSteps.ChangeStatusKeeps(old(State()), id, expected, target, now);
    }
  }
}
