/** The balance a sale is presented with, in every run: cancellations, adjustments and reversals included. */
module LedgerBalance {
  import opened Common
  import opened Ledger
  import opened LedgerInvariant
  import opened LedgerMoney
  import opened LedgerRuns

  /** What the cancelled receivables of a sale were due. */
  function CancelledAmount(receivables: seq<Receivable>, sale: Id): int {
    if receivables == [] then 0
    else
      var last := receivables[|receivables| - 1];
      CancelledAmount(receivables[..|receivables| - 1], sale) + if last.sale == sale && last.status == Cancelado then last.adjusted else 0
  }

  /** The recorded differences of all receivables of a sale. */
  function SaleDifferences(adjustments: seq<Adjustment>, receivables: seq<Receivable>, sale: Id): int {
    if adjustments == [] then 0
    else
      var last := adjustments[|adjustments| - 1];
      SaleDifferences(adjustments[..|adjustments| - 1], receivables, sale)
      + if last.receivable < |receivables| && receivables[last.receivable].sale == sale then last.difference else 0
  }

  /** The same, receivable by receivable. */
  function RowDifferences(adjustments: seq<Adjustment>, receivables: seq<Receivable>, sale: Id): int {
    if receivables == [] then 0
    else
      var last := |receivables| - 1;
      RowDifferences(adjustments, receivables[..last], sale) + if receivables[last].sale == sale then Differences(adjustments, last) else 0
  }

  lemma {:induction false} NoDifferences(receivables: seq<Receivable>, sale: Id)
    ensures RowDifferences([], receivables, sale) == 0
  {
    if receivables != [] {
      NoDifferences(receivables[..|receivables| - 1], sale);
    }
  }

  lemma DifferencesSplit(adjustments: seq<Adjustment>, receivable: Id)
    requires adjustments != []
    ensures var last := adjustments[|adjustments| - 1];
            Differences(adjustments, receivable)
            == Differences(adjustments[..|adjustments| - 1], receivable) + if last.receivable == receivable then last.difference else 0
  {
  }

  /** One more adjustment counts for the one row it is of. */
  lemma {:induction false} RowsOneMore(adjustments: seq<Adjustment>, receivables: seq<Receivable>, sale: Id)
    requires adjustments != []
    ensures var front, last := adjustments[..|adjustments| - 1], adjustments[|adjustments| - 1];
            RowDifferences(adjustments, receivables, sale)
            == RowDifferences(front, receivables, sale)
               + if last.receivable < |receivables| && receivables[last.receivable].sale == sale then last.difference else 0
  {
    if receivables != [] {
      RowsOneMore(adjustments, receivables[..|receivables| - 1], sale);
      DifferencesSplit(adjustments, |receivables| - 1);
    }
  }

  /** Adding up the differences by adjustment or by receivable is the same. */
  lemma {:induction false} DifferencesExchange(adjustments: seq<Adjustment>, receivables: seq<Receivable>, sale: Id)
    ensures SaleDifferences(adjustments, receivables, sale) == RowDifferences(adjustments, receivables, sale)
  {
    if adjustments == [] {
      NoDifferences(receivables, sale);
    } else {
      DifferencesExchange(adjustments[..|adjustments| - 1], receivables, sale);
      RowsOneMore(adjustments, receivables, sale);
    }
  }

  lemma {:induction false} OpenBalanceSplits(adjustments: seq<Adjustment>, receivables: seq<Receivable>, sale: Id)
    requires forall i :: 0 <= i < |receivables| ==> receivables[i].adjusted == receivables[i].original + Differences(adjustments, i)
    requires forall i :: 0 <= i < |receivables| && receivables[i].status == Cancelado ==> receivables[i].paid == 0
    ensures OpenBalance(receivables, sale)
         == SaleTotal(receivables, sale) + RowDifferences(adjustments, receivables, sale)
            - CancelledAmount(receivables, sale) - SalePaid(receivables, sale)
  {
    if receivables != [] {
      OpenBalanceSplits(adjustments, receivables[..|receivables| - 1], sale);
    }
  }

  lemma BalanceOf(db: Db, sale: Id)
    requires Inv(db) && sale < |db.sales|
    ensures Outstanding(db, sale)
         == db.sales[sale].net + SaleDifferences(db.adjustments, db.receivables, sale) - CancelledAmount(db.receivables, sale)
            - LiveOn(db.payments, SaleTargets(db.receivables, sale))
  {
    HasReceivable(db, sale);
    assert SaleOk(db.sales[sale], sale, db.receivables);
    forall i | 0 <= i < |db.receivables| && db.receivables[i].status == Cancelado
      ensures db.receivables[i].paid == 0
    {
      assert ReceivableOk(db.receivables[i], |db.sales|);
    }
    OpenBalanceSplits(db.adjustments, db.receivables, sale);
    DifferencesExchange(db.adjustments, db.receivables, sale);
    SalePaidIsLive(db.receivables, db.payments, sale);
  }

  /**
   * In every run the presented outstanding balance of a sale is its net amount plus the recorded differences minus what
   * its cancelled receivables were due minus the live payments.
   */
  lemma BalanceAlways(accounts: set<Id>, steps: seq<Step>, sale: Id)
    requires sale < |Run(Empty(accounts), steps).sales|
    ensures var db := Run(Empty(accounts), steps);
            Outstanding(db, sale)
            == db.sales[sale].net + SaleDifferences(db.adjustments, db.receivables, sale) - CancelledAmount(db.receivables, sale)
               - LiveOn(db.payments, SaleTargets(db.receivables, sale))
  {
    EmptyOk(accounts);
    RunKeeps(Empty(accounts), steps);
    BalanceOf(Run(Empty(accounts), steps), sale);
  }
}
