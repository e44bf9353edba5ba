/** The payment history: what a posting and a reversal do to the paid amounts, and where the cash went. */
module LedgerMoney {
  import opened Common
  import opened Ledger
  import opened LedgerInvariant

  lemma {:induction false} LiveUpdate(payments: seq<Payment>, i: nat, p: Payment, target: Target)
    requires i < |payments|
    ensures Live(payments[i := p], target) == Live(payments, target) - LiveAmount(payments[i], target) + LiveAmount(p, target)
  {
    var front, updated := payments[..|payments| - 1], payments[i := p];
    if i == |payments| - 1 {
      assert updated[..|updated| - 1] == front;
    } else {
      assert updated[..|updated| - 1] == front[i := p];
      LiveUpdate(front, i, p, target);
    }
  }

  /** A live payment is part of the sum: the paid amount covers it. */
  lemma {:induction false} LiveCovers(payments: seq<Payment>, i: nat, target: Target)
    requires forall k :: 0 <= k < |payments| ==> 0 < payments[k].amount
    ensures 0 <= Live(payments, target)
    ensures i < |payments| ==> LiveAmount(payments[i], target) <= Live(payments, target)
  {
    if payments != [] {
      LiveCovers(payments[..|payments| - 1], i, target);
    }
  }

  /** With transactions paired, the one found for a payment is the one written beside it. */
  lemma {:induction false} TransactionFound(transactions: seq<Transaction>, payment: Id)
    requires forall i :: 0 <= i < |transactions| ==> transactions[i].payment == i
    requires payment < |transactions|
    ensures TransactionOf(transactions, payment) == Some(payment)
  {
    if payment < |transactions| - 1 {
      TransactionFound(transactions[..|transactions| - 1], payment);
    }
  }

  lemma ReversedRows(db: Db, payment: Id, now: Time) returns (db': Db)
    requires Paired(db.payments, db.transactions) && payment < |db.payments|
    ensures Reversed(db, payment, now) == Ok(db')
    ensures db' == db.(payments := db.payments[payment := db.payments[payment].(reversedAt := Some(now))],
                       transactions := db.transactions[payment := db.transactions[payment].(reversedAt := Some(now))],
                       entries := Unmatched(db.entries, payment))
    ensures Paired(db'.payments, db'.transactions)
  {
    TransactionFound(db.transactions, payment);
    db' := Reversed(db, payment, now).value;
  }

  /** No payment has a target beyond the tables, so a new row starts with nothing paid. */
  lemma {:induction false} LiveOfFresh(payments: seq<Payment>, receivables: nat, payables: nat, target: Target)
    requires PaymentsOk(payments, receivables, payables)
    requires target.id >= if target.ReceivableTarget? then receivables else payables
    ensures Live(payments, target) == 0
  {
    if payments != [] {
      LiveOfFresh(payments[..|payments| - 1], receivables, payables, target);
    }
  }

  // ------------------------------------------------------------------------------------ conservation

  /** The unreversed payments whose target is in the set. */
  ghost function LiveOn(payments: seq<Payment>, targets: set<Target>): int {
    if payments == [] then 0
    else
      var last := payments[|payments| - 1];
      LiveOn(payments[..|payments| - 1], targets)
      + if last.target in targets && last.reversedAt.None? then last.amount else 0
  }

  lemma {:induction false} LiveOnEmpty(payments: seq<Payment>)
    ensures LiveOn(payments, {}) == 0
  {
    if payments != [] {
      LiveOnEmpty(payments[..|payments| - 1]);
    }
  }

  lemma {:induction false} LiveOnInsert(payments: seq<Payment>, targets: set<Target>, target: Target)
    requires target !in targets
    ensures LiveOn(payments, targets + {target}) == LiveOn(payments, targets) + Live(payments, target)
  {
    if payments != [] {
      LiveOnInsert(payments[..|payments| - 1], targets, target);
    }
  }

  ghost function ReceivableTargets(n: nat): set<Target> {
    set i: nat | i < n :: ReceivableTarget(i)
  }

  ghost function PayableTargets(n: nat): set<Target> {
    set i: nat | i < n :: PayableTarget(i)
  }

  /** The receivables of a sale among the first n. */
  ghost function SaleTargets(receivables: seq<Receivable>, sale: Id): set<Target> {
    set i: nat | i < |receivables| && receivables[i].sale == sale :: ReceivableTarget(i)
  }

  lemma {:induction false} PaidInIsLive(receivables: seq<Receivable>, payments: seq<Payment>)
    requires ReceivablesPaid(receivables, payments)
    ensures PaidIn(receivables) == LiveOn(payments, ReceivableTargets(|receivables|))
  {
    if receivables == [] {
      LiveOnEmpty(payments);
      assert ReceivableTargets(0) == {};
    } else {
      var n := |receivables| - 1;
      PaidInIsLive(receivables[..n], payments);
      LiveOnInsert(payments, ReceivableTargets(n), ReceivableTarget(n));
      assert ReceivableTargets(n + 1) == ReceivableTargets(n) + {ReceivableTarget(n)};
    }
  }

  lemma {:induction false} PaidOutIsLive(payables: seq<Payable>, payments: seq<Payment>)
    requires PayablesPaid(payables, payments)
    ensures PaidOut(payables) == LiveOn(payments, PayableTargets(|payables|))
  {
    if payables == [] {
      LiveOnEmpty(payments);
      assert PayableTargets(0) == {};
    } else {
      var n := |payables| - 1;
      PaidOutIsLive(payables[..n], payments);
      LiveOnInsert(payments, PayableTargets(n), PayableTarget(n));
      assert PayableTargets(n + 1) == PayableTargets(n) + {PayableTarget(n)};
    }
  }

  /** What a sale has received is the sum of the live payments on its receivables. */
  lemma {:induction false} SalePaidIsLive(receivables: seq<Receivable>, payments: seq<Payment>, sale: Id)
    requires ReceivablesPaid(receivables, payments)
    ensures SalePaid(receivables, sale) == LiveOn(payments, SaleTargets(receivables, sale))
  {
    if receivables == [] {
      LiveOnEmpty(payments);
      assert SaleTargets(receivables, sale) == {};
    } else {
      var front, n := receivables[..|receivables| - 1], |receivables| - 1;
      SalePaidIsLive(front, payments, sale);
      if receivables[n].sale == sale {
        LiveOnInsert(payments, SaleTargets(front, sale), ReceivableTarget(n));
        assert SaleTargets(receivables, sale) == SaleTargets(front, sale) + {ReceivableTarget(n)};
      } else {
        assert SaleTargets(receivables, sale) == SaleTargets(front, sale);
      }
    }
  }

  /** Every transaction counts once, for or against, with its payment. */
  lemma {:induction false} CashIsLive(payments: seq<Payment>, transactions: seq<Transaction>, receivables: nat, payables: nat)
    requires Paired(payments, transactions) && PaymentsOk(payments, receivables, payables)
    ensures CashBalance(transactions) == LiveOn(payments, ReceivableTargets(receivables)) - LiveOn(payments, PayableTargets(payables))
  {
    if payments != [] {
      CashIsLive(payments[..|payments| - 1], transactions[..|transactions| - 1], receivables, payables);
      assert PaymentOk(payments[|payments| - 1], receivables, payables);
      assert IsTransactionOf(transactions[|payments| - 1], payments[|payments| - 1], |payments| - 1);
    }
  }

  /** The cash balance is everything received minus everything paid out. */
  lemma CashConserved(receivables: seq<Receivable>, payables: seq<Payable>, payments: seq<Payment>, transactions: seq<Transaction>)
    requires MoneyOk(receivables, payables, payments, transactions)
    ensures CashBalance(transactions) == PaidIn(receivables) - PaidOut(payables)
  {
    CashIsLive(payments, transactions, |receivables|, |payables|);
    PaidInIsLive(receivables, payments);
    PaidOutIsLive(payables, payments);
  }
}
