/**
 * The commercial protocol and the ledger as one system: the conversion of a proposal registers the sale in both, the
 * distrato closes it in both, and the status of a sale is the one its receivables call for.  It carries money from the
 * accepted proposal to the outstanding balance of its sale.
 */
module Office {
  import opened Common
  import opened Sums
  import Installments
  import Pricing
  import C = Commercial
  import CommercialSteps
  import CommercialRuns
  import CommercialHistory
  import L = Ledger
  import LedgerInvariant
  import LedgerMoney
  import LedgerTables
  import LedgerSteps
  import LedgerRuns
  import LedgerHistory

  type Id = nat

  datatype Office = Office(c: C.Db, l: L.Db)

  datatype Step =
    | Commercial(deal: C.Step)
    | Finance(booking: L.Step)
    | Convert(proposal: Id, dates: Installments.SaleTerms, commissions: seq<nat>, now: int)
    | Distrato(sale: Id, now: int)

  /** The calls that write neither the sale nor its receivables. */
  predicate DealOnly(step: C.Step) {
    !step.DoConvertProposal? && !step.DoSyncSale? && !step.DoCancelSale?
  }

  predicate BookingOnly(step: L.Step) {
    !step.DoRegisterSale? && !step.DoCancelSale?
  }

  /** The receivable whose sale a call synchronises. */
  function ReceivableOf(step: L.Step): Option<Id> {
    match step
    case DoRecordReceivablePayment(id, _, _, _, _) => Some(id)
    case DoReverseReceivablePayment(id, _, _) => Some(id)
    case DoCancelReceivable(id, _) => Some(id)
    case _ => None
  }

  /** The status column of the sale, written through syncSaleStatus, as the commercial services read it. */
  function Synchronised(c: C.Db, before: L.Db, after: L.Db, step: L.Step): C.Db {
    var id := ReceivableOf(step);
    if id.Some? && id.value < |before.receivables| && L.Call(before, step).Ok? then
      var sale := before.receivables[id.value].sale;
      C.Next(c, C.DoSyncSale(sale, L.Settled(after.receivables, sale)))
    else c
  }

  function Book(o: Office, booking: L.Step): Office {
    var l := L.Next(o.l, booking);
    Office(Synchronised(o.c, o.l, l, booking), l)
  }

  function Sell(o: Office, proposal: Id, dates: Installments.SaleTerms, commissions: seq<nat>, now: int): Office {
    SoldTo(o, C.Next(o.c, C.DoConvertProposal(proposal, dates, now)), commissions)
  }

  /** The commercial side has converted a proposal; the ledger follows if that made a sale. */
  function SoldTo(o: Office, c: C.Db, commissions: seq<nat>): Office {
    if |c.sales| <= |o.c.sales| then o
    else
      var l := Registered(o.l, c.proposals, c.sales[|o.c.sales|], commissions);
      if l.Err? then o else Office(c, l.value)
  }

  function Close(o: Office, sale: Id, now: int): Office {
    match L.CancelSale(o.l, sale, now)
    case Err(_) => o
    case Ok(l) => Office(C.Next(o.c, C.DoCancelSale(sale, false)), l)
  }

  function Next(o: Office, step: Step): Office {
    match step
    case Commercial(deal) => if DealOnly(deal) then o.(c := C.Next(o.c, deal)) else o
    case Finance(booking) => if BookingOnly(booking) then Book(o, booking) else o
    case Convert(proposal, dates, commissions, now) => Sell(o, proposal, dates, commissions, now)
    case Distrato(sale, now) => Close(o, sale, now)
  }

  /** The receivables and commissions of a new sale. */
  function Registered(l: L.Db, proposals: seq<C.Proposal>, s: C.Sale, commissions: seq<nat>): Outcome<L.Db> {
    if s.proposal >= |proposals| then Err(NotFound)
    else
      var version := proposals[s.proposal].version;
      if |version.price.amounts| != |version.conditions| then Err(Conflict)
      else L.RegisterSale(l, s.net, CommercialHistory.PlanOf(version), Installments.SaleSchedule(s.dates), commissions)
  }

  function Run(o: Office, steps: seq<Step>): Office {
    if steps == [] then o else Next(Run(o, steps[..|steps| - 1]), steps[|steps| - 1])
  }

  function Empty(accounts: set<Id>): Office { Office(C.EMPTY, L.Empty(accounts)) }

  // ------------------------------------------------------------------------------------------ joined

  function StatusOf(status: L.SaleStatus): C.SaleStatus {
    match status
    case Ativa => C.SaleStatus.Ativa
    case Quitada => C.SaleStatus.Quitada
    case Cancelada => C.SaleStatus.Cancelada
    case Distratada => C.SaleStatus.Distratada
  }

  /** The original amounts of the receivables of a sale, in their order. */
  function Originals(receivables: seq<L.Receivable>, sale: Id): seq<int> {
    if receivables == [] then []
    else
      var last := receivables[|receivables| - 1];
      Originals(receivables[..|receivables| - 1], sale) + if last.sale == sale then [last.original] else []
  }

  /** One sale, seen from both sides: the same net amount, the same status, the same receivables. */
  ghost predicate SameSale(s: C.Sale, t: L.Sale, receivables: seq<L.Receivable>, id: Id) {
    s.net == t.net && s.status == StatusOf(t.status) && Originals(receivables, id) == Installments.Amounts(s.installments)
  }

  ghost predicate Joined(sold: seq<C.Sale>, booked: seq<L.Sale>, receivables: seq<L.Receivable>) {
    |sold| == |booked| && forall s :: 0 <= s < |sold| ==> SameSale(sold[s], booked[s], receivables, s)
  }

  ghost predicate DealsOk(c: C.Db) {
    CommercialSteps.Inv(c) && CommercialHistory.AllMirror(c)
  }

  ghost predicate Inv(o: Office) {
    DealsOk(o.c) && LedgerInvariant.Inv(o.l) && Joined(o.c.sales, o.l.sales, o.l.receivables)
  }

  lemma DealStepKeeps(c: C.Db, deal: C.Step)
    requires DealsOk(c)
    ensures DealsOk(C.Next(c, deal))
  {
    CommercialRuns.StepKeeps(c, deal);
    CommercialHistory.StepMirrors(c, deal);
  }

  lemma {:induction false} OriginalsFrame(before: seq<L.Receivable>, after: seq<L.Receivable>, sale: Id)
    requires |before| == |after|
    requires forall i :: 0 <= i < |before| ==> after[i].sale == before[i].sale && after[i].original == before[i].original
    ensures Originals(after, sale) == Originals(before, sale)
  {
    if before != [] {
      OriginalsFrame(before[..|before| - 1], after[..|after| - 1], sale);
    }
  }

  lemma {:induction false} OriginalsConcat(receivables: seq<L.Receivable>, added: seq<L.Receivable>, sale: Id)
    ensures Originals(receivables + added, sale) == Originals(receivables, sale) + Originals(added, sale)
  {
    if added == [] {
      assert receivables + added == receivables;
    } else {
      assert (receivables + added)[..|receivables + added| - 1] == receivables + added[..|added| - 1];
      OriginalsConcat(receivables, added[..|added| - 1], sale);
    }
  }

  lemma OriginalsAppend(receivables: seq<L.Receivable>, row: L.Receivable, sale: Id)
    ensures Originals(receivables + [row], sale) == Originals(receivables, sale) + if row.sale == sale then [row.original] else []
  {
  }

  lemma NewAppend(rows: seq<Installments.Row>, row: Installments.Row, sale: Id)
    ensures L.NewReceivables(sale, rows + [row]) == L.NewReceivables(sale, rows) + [L.NewReceivable(sale, row.amount)]
  {
  }

  lemma {:induction false} OriginalsOfNew(rows: seq<Installments.Row>, sale: Id, other: Id)
    ensures Originals(L.NewReceivables(sale, rows), other) == if sale == other then Installments.Amounts(rows) else []
  {
    if rows != [] {
      var front, last := rows[..|rows| - 1], rows[|rows| - 1];
      assert rows == front + [last];
      OriginalsOfNew(front, sale, other);
      NewAppend(front, last, sale);
      OriginalsAppend(L.NewReceivables(sale, front), L.NewReceivable(sale, last.amount), other);
      Installments.AmountsAppend(front, last);
    }
  }

  lemma {:induction false} OriginalsOfFresh(receivables: seq<L.Receivable>, sale: Id)
    requires forall i :: 0 <= i < |receivables| ==> receivables[i].sale != sale
    ensures Originals(receivables, sale) == []
  {
    if receivables != [] {
      OriginalsOfFresh(receivables[..|receivables| - 1], sale);
    }
  }

  // --------------------------------------------------------------------------------------- conversion

  /** A conversion that makes a sale is registered by the ledger with the receivables the sale was made with. */
  lemma ConversionRegisters(l: L.Db, c: C.Db, s: C.Sale, commissions: seq<nat>)
    requires CommercialHistory.Mirrors(s, c.proposals) && CommercialSteps.VersionsOk(c.proposals)
    ensures Registered(l, c.proposals, s, commissions)
         == Ok(l.(sales := l.sales + [L.Sale(s.net, L.Ativa)],
                  receivables := l.receivables + L.NewReceivables(|l.sales|, s.installments),
                  commissions := l.commissions + L.NewCommissions(|l.sales|, commissions)))
  {
    var version := c.proposals[s.proposal].version;
    assert CommercialSteps.VersionOk(version);
    var due := CommercialHistory.SoldIsGenerated(version, s.dates);
    assert Installments.Totals(CommercialHistory.PlanOf(version)) == version.price.amounts;
    SoldHasConditions(version, s.dates);
  }

  lemma SoldHasConditions(version: C.Version, dates: Installments.SaleTerms)
    requires C.Sold(version, dates).Ok?
    ensures version.conditions != []
  {
  }

  lemma OriginalsAfterSale(receivables: seq<L.Receivable>, sales: nat, rows: seq<Installments.Row>, id: Id)
    requires LedgerInvariant.ReceivablesOk(receivables, sales) && id <= sales
    ensures Originals(receivables + L.NewReceivables(sales, rows), id)
         == if id == sales then Installments.Amounts(rows) else Originals(receivables, id)
  {
    OriginalsConcat(receivables, L.NewReceivables(sales, rows), id);
    OriginalsOfNew(rows, sales, id);
    if id == sales {
      forall i | 0 <= i < |receivables|
        ensures receivables[i].sale != sales
      {
        assert LedgerInvariant.ReceivableOk(receivables[i], sales);
      }
      OriginalsOfFresh(receivables, sales);
    }
  }

  lemma NewSaleJoins(sold: seq<C.Sale>, booked: seq<L.Sale>, receivables: seq<L.Receivable>, s: C.Sale)
    requires Joined(sold, booked, receivables) && s.status == C.SaleStatus.Ativa
    requires LedgerInvariant.ReceivablesOk(receivables, |booked|)
    ensures Joined(sold + [s], booked + [L.Sale(s.net, L.Ativa)], receivables + L.NewReceivables(|booked|, s.installments))
  {
    var after := receivables + L.NewReceivables(|booked|, s.installments);
    forall id: nat | id <= |booked|
      ensures SameSale((sold + [s])[id], (booked + [L.Sale(s.net, L.Ativa)])[id], after, id)
    {
      OriginalsAfterSale(receivables, |booked|, s.installments, id);
      if id < |booked| {
        assert SameSale(sold[id], booked[id], receivables, id);
      }
    }
  }

  lemma ConvertedSale(c: C.Db, proposal: Id, dates: Installments.SaleTerms, now: int)
    ensures var after := C.Next(c, C.DoConvertProposal(proposal, dates, now));
            && (|after.sales| > |c.sales| ==>
                  after.sales == c.sales + [after.sales[|c.sales|]] && after.sales[|c.sales|].status == C.SaleStatus.Ativa)
  {
  }

  /** The conversion in both: the ledger never refuses what the commercial side sold. */
  lemma ConvertRegistered(o: Office, c: C.Db, commissions: seq<nat>)
    requires Inv(o) && DealsOk(c) && |c.sales| == |o.c.sales| + 1 && c.sales == o.c.sales + [c.sales[|o.c.sales|]]
    requires c.sales[|o.c.sales|].status == C.SaleStatus.Ativa
    ensures var l := Registered(o.l, c.proposals, c.sales[|o.c.sales|], commissions);
            l.Ok? && LedgerInvariant.Inv(l.value) && Joined(c.sales, l.value.sales, l.value.receivables)
  {
    var s := c.sales[|o.c.sales|];
    assert CommercialHistory.Mirrors(s, c.proposals);
    ConversionRegisters(o.l, c, s, commissions);
    RegisteredKeeps(o.l, c, s, commissions);
    NewSaleJoins(o.c.sales, o.l.sales, o.l.receivables, s);
  }

  lemma SoldToKeeps(o: Office, c: C.Db, commissions: seq<nat>)
    requires Inv(o) && DealsOk(c)
    requires |c.sales| > |o.c.sales| ==>
               c.sales == o.c.sales + [c.sales[|o.c.sales|]] && c.sales[|o.c.sales|].status == C.SaleStatus.Ativa
    ensures Inv(SoldTo(o, c, commissions))
    ensures |c.sales| > |o.c.sales| ==> SoldTo(o, c, commissions).c == c
  {
    if |c.sales| > |o.c.sales| {
      ConvertRegistered(o, c, commissions);
    }
  }

  lemma SellKeeps(o: Office, proposal: Id, dates: Installments.SaleTerms, commissions: seq<nat>, now: int)
    requires Inv(o)
    ensures Inv(Sell(o, proposal, dates, commissions, now))
  {
    DealStepKeeps(o.c, C.DoConvertProposal(proposal, dates, now));
    ConvertedSale(o.c, proposal, dates, now);
    SoldToKeeps(o, C.Next(o.c, C.DoConvertProposal(proposal, dates, now)), commissions);
  }

  lemma RegisteredKeeps(l: L.Db, c: C.Db, s: C.Sale, commissions: seq<nat>)
    requires LedgerInvariant.Inv(l) && Registered(l, c.proposals, s, commissions).Ok?
    ensures LedgerInvariant.Inv(Registered(l, c.proposals, s, commissions).value)
  {
    var version := c.proposals[s.proposal].version;
    LedgerSteps.RegisterSaleKeeps(l, s.net, CommercialHistory.PlanOf(version), Installments.SaleSchedule(s.dates), commissions);
  }

  // ---------------------------------------------------------------------------------------- the others

  /** Deals that make no sale leave the sales alone. */
  lemma DealLeavesSales(c: C.Db, step: C.Step)
    requires DealOnly(step)
    ensures C.Next(c, step).sales == c.sales
  {
  }

  lemma DealKeeps(o: Office, deal: C.Step)
    requires Inv(o) && DealOnly(deal)
    ensures Inv(o.(c := C.Next(o.c, deal)))
  {
    DealStepKeeps(o.c, deal);
    DealLeavesSales(o.c, deal);
  }

  lemma JoinedFrame(sold: seq<C.Sale>, booked: seq<L.Sale>, before: seq<L.Receivable>, after: seq<L.Receivable>)
    requires Joined(sold, booked, before) && |after| == |before|
    requires forall i :: 0 <= i < |before| ==> after[i].sale == before[i].sale && after[i].original == before[i].original
    ensures Joined(sold, booked, after)
  {
    forall s | 0 <= s < |sold|
      ensures SameSale(sold[s], booked[s], after, s)
    {
      OriginalsFrame(before, after, s);
      assert SameSale(sold[s], booked[s], before, s);
    }
  }

  lemma StatusJoins(sold: seq<C.Sale>, booked: seq<L.Sale>, receivables: seq<L.Receivable>, sale: Id, status: L.SaleStatus)
    requires Joined(sold, booked, receivables) && sale < |booked|
    ensures Joined(sold[sale := sold[sale].(status := StatusOf(status))], booked[sale := booked[sale].(status := status)], receivables)
  {
    var sold', booked' := sold[sale := sold[sale].(status := StatusOf(status))], booked[sale := booked[sale].(status := status)];
    forall s | 0 <= s < |sold|
      ensures SameSale(sold'[s], booked'[s], receivables, s)
    {
      assert SameSale(sold[s], booked[s], receivables, s);
    }
  }

  lemma DistratoOfLedger(l: L.Db, sale: Id, now: int)
    requires L.CancelSale(l, sale, now).Ok?
    ensures sale < |l.sales| && (l.sales[sale].status == L.Ativa || l.sales[sale].status == L.Quitada)
    ensures var after := L.CancelSale(l, sale, now).value;
            && after.sales == l.sales[sale := l.sales[sale].(status := L.Distratada)]
            && after.receivables == L.CancelledReceivables(l.receivables, sale, now)
  {
  }

  lemma DistratoOfDeal(c: C.Db, sale: Id)
    requires sale < |c.sales| && C.InForce(c.sales[sale].status)
    ensures C.Next(c, C.DoCancelSale(sale, false)).sales == c.sales[sale := c.sales[sale].(status := C.SaleStatus.Distratada)]
  {
  }

  lemma DistratoJoins(sold: seq<C.Sale>, booked: seq<L.Sale>, receivables: seq<L.Receivable>, sale: Id, now: int)
    requires Joined(sold, booked, receivables) && sale < |booked|
    ensures Joined(sold[sale := sold[sale].(status := C.SaleStatus.Distratada)], booked[sale := booked[sale].(status := L.Distratada)],
                   L.CancelledReceivables(receivables, sale, now))
  {
    StatusJoins(sold, booked, receivables, sale, L.Distratada);
    JoinedFrame(sold[sale := sold[sale].(status := C.SaleStatus.Distratada)], booked[sale := booked[sale].(status := L.Distratada)],
                receivables, L.CancelledReceivables(receivables, sale, now));
  }

  lemma CloseJoins(o: Office, sale: Id, now: int)
    requires Joined(o.c.sales, o.l.sales, o.l.receivables)
    ensures var after := Close(o, sale, now); Joined(after.c.sales, after.l.sales, after.l.receivables)
  {
    if L.CancelSale(o.l, sale, now).Ok? {
      DistratoOfLedger(o.l, sale, now);
      assert SameSale(o.c.sales[sale], o.l.sales[sale], o.l.receivables, sale);
      DistratoOfDeal(o.c, sale);
      DistratoJoins(o.c.sales, o.l.sales, o.l.receivables, sale, now);
    }
  }

  /** The distrato of a sale the ledger can close closes it on the commercial side too. */
  lemma CloseKeeps(o: Office, sale: Id, now: int)
    requires Inv(o)
    ensures Inv(Close(o, sale, now))
  {
    CloseJoins(o, sale, now);
    if L.CancelSale(o.l, sale, now).Ok? {
      LedgerSteps.CancelSaleKeeps(o.l, sale, now);
      DealStepKeeps(o.c, C.DoCancelSale(sale, false));
    }
  }

  /** A booking adds no receivable. */
  lemma BookingKeepsRows(l: L.Db, step: L.Step)
    requires LedgerInvariant.Inv(l) && BookingOnly(step)
    ensures |L.Next(l, step).receivables| == |l.receivables|
  {
    if L.Call(l, step).Ok? {
      if LedgerRuns.MovesMoney(step) {
        LedgerHistory.MoneyStepRows(l, step);
      }
    }
  }

  /** What a booking does to the sales: it synchronises the one of its receivable, or nothing. */
  ghost predicate Syncs(before: L.Db, step: L.Step, after: L.Db) {
    var id := ReceivableOf(step);
    if id.Some? && id.value < |before.receivables| && L.Call(before, step).Ok? && before.receivables[id.value].sale < |before.sales| then
      var sale := before.receivables[id.value].sale;
      var status := L.SyncedStatus(after.receivables, sale, before.sales[sale].status);
      after.sales == before.sales[sale := before.sales[sale].(status := status)]
    else after.sales == before.sales
  }

  /** Cancelling a cancelled receivable again changes nothing, and its sale is synchronised already. */
  lemma CancelSyncs(l: L.Db, id: Id, now: int)
    requires LedgerInvariant.Inv(l)
    ensures Syncs(l, L.DoCancelReceivable(id, now), L.Next(l, L.DoCancelReceivable(id, now)))
  {
    if id < |l.receivables| && l.receivables[id].status == L.Cancelado {
      var sale := l.receivables[id].sale;
      assert LedgerInvariant.ReceivableOk(l.receivables[id], |l.sales|);
      assert LedgerInvariant.SaleOk(l.sales[sale], sale, l.receivables);
    }
  }

  lemma ReversalSyncs(l: L.Db, id: Id, payment: Id, now: int)
    ensures Syncs(l, L.DoReverseReceivablePayment(id, payment, now), L.Next(l, L.DoReverseReceivablePayment(id, payment, now)))
  {
  }

  lemma PaymentSyncs(l: L.Db, id: Id, account: Id, amount: Positive, paidAt: int, now: int)
    ensures var step := L.DoRecordReceivablePayment(id, account, amount, paidAt, now); Syncs(l, step, L.Next(l, step))
  {
  }

  lemma PayableMoneyLeavesSales(l: L.Db, step: L.Step)
    requires step.DoRecordPayablePayment? || step.DoReversePayablePayment?
    ensures L.Next(l, step).sales == l.sales
  {
  }

  lemma OthersLeaveSales(l: L.Db, step: L.Step)
    requires BookingOnly(step) && ReceivableOf(step).None? && !step.DoRecordPayablePayment? && !step.DoReversePayablePayment?
    ensures L.Next(l, step).sales == l.sales
  {
  }

  lemma BookingSyncs(l: L.Db, step: L.Step)
    requires BookingOnly(step) && LedgerInvariant.Inv(l)
    ensures Syncs(l, step, L.Next(l, step))
  {
    if step.DoCancelReceivable? {
      CancelSyncs(l, step.receivable, step.now);
    } else if step.DoReverseReceivablePayment? {
      ReversalSyncs(l, step.receivable, step.payment, step.now);
    } else if step.DoRecordReceivablePayment? {
      PaymentSyncs(l, step.receivable, step.account, step.amount, step.paidAt, step.now);
    } else if step.DoRecordPayablePayment? || step.DoReversePayablePayment? {
      PayableMoneyLeavesSales(l, step);
    } else {
      OthersLeaveSales(l, step);
    }
  }

  /** The status the commercial side reads is the one the ledger wrote. */
  lemma SyncedAlike(c: C.Db, sale: Id, status: L.SaleStatus, receivables: seq<L.Receivable>)
    requires sale < |c.sales| && c.sales[sale].status == StatusOf(status)
    ensures C.Next(c, C.DoSyncSale(sale, L.Settled(receivables, sale))).sales
         == c.sales[sale := c.sales[sale].(status := StatusOf(L.SyncedStatus(receivables, sale, status)))]
  {
  }

  /** What is said of a receivable in a ledger that is in order. */
  lemma SaleOfReceivable(l: L.Db, id: Id)
    requires LedgerInvariant.ReceivablesOk(l.receivables, |l.sales|) && id < |l.receivables|
    ensures l.receivables[id].sale < |l.sales|
  {
    assert LedgerInvariant.ReceivableOk(l.receivables[id], |l.sales|);
  }

  lemma SynchronisedJoins(o: Office, booking: L.Step, l: L.Db)
    requires Joined(o.c.sales, o.l.sales, o.l.receivables) && LedgerInvariant.ReceivablesOk(o.l.receivables, |o.l.sales|)
    requires Syncs(o.l, booking, l)
    ensures Joined(Synchronised(o.c, o.l, l, booking).sales, l.sales, o.l.receivables)
  {
    var id := ReceivableOf(booking);
    if id.Some? && id.value < |o.l.receivables| && L.Call(o.l, booking).Ok? {
      SaleOfReceivable(o.l, id.value);
      var sale := o.l.receivables[id.value].sale;
      assert SameSale(o.c.sales[sale], o.l.sales[sale], o.l.receivables, sale);
      SyncedAlike(o.c, sale, o.l.sales[sale].status, l.receivables);
      StatusJoins(o.c.sales, o.l.sales, o.l.receivables, sale, L.SyncedStatus(l.receivables, sale, o.l.sales[sale].status));
    }
  }

  lemma SynchronisedKeeps(o: Office, booking: L.Step, l: L.Db)
    requires DealsOk(o.c)
    ensures DealsOk(Synchronised(o.c, o.l, l, booking))
  {
    var id := ReceivableOf(booking);
    if id.Some? && id.value < |o.l.receivables| && L.Call(o.l, booking).Ok? {
      var sale := o.l.receivables[id.value].sale;
      DealStepKeeps(o.c, C.DoSyncSale(sale, L.Settled(l.receivables, sale)));
    }
  }

  lemma BookingFrame(l: L.Db, step: L.Step)
    requires LedgerInvariant.Inv(l) && BookingOnly(step)
    ensures var after := L.Next(l, step);
            && LedgerInvariant.Inv(after) && |after.receivables| == |l.receivables|
            && forall i :: 0 <= i < |l.receivables| ==>
                 after.receivables[i].sale == l.receivables[i].sale && after.receivables[i].original == l.receivables[i].original
  {
    LedgerRuns.StepKeeps(l, step);
    BookingKeepsRows(l, step);
    LedgerHistory.StepLater(l, step);
  }

  lemma BookKeeps(o: Office, booking: L.Step)
    requires Inv(o) && BookingOnly(booking)
    ensures Inv(Book(o, booking))
  {
    var l := L.Next(o.l, booking);
    BookingFrame(o.l, booking);
    BookingSyncs(o.l, booking);
    SynchronisedJoins(o, booking, l);
    SynchronisedKeeps(o, booking, l);
    JoinedFrame(Synchronised(o.c, o.l, l, booking).sales, l.sales, o.l.receivables, l.receivables);
  }

  // -------------------------------------------------------------------------------------------- runs

  lemma StepKeeps(o: Office, step: Step)
    requires Inv(o)
    ensures Inv(Next(o, step))
  {
    match step
    case Commercial(deal) => if DealOnly(deal) { DealKeeps(o, deal); }
    case Finance(booking) => if BookingOnly(booking) { BookKeeps(o, booking); }
    case Convert(proposal, dates, commissions, now) => SellKeeps(o, proposal, dates, commissions, now);
    case Distrato(sale, now) => CloseKeeps(o, sale, now);
  }

  lemma EmptyOffice(accounts: set<Id>)
    ensures Inv(Empty(accounts))
  {
    LedgerRuns.EmptyOk(accounts);
  }

  lemma {:induction false} RunKeeps(accounts: set<Id>, steps: seq<Step>)
    ensures Inv(Run(Empty(accounts), steps))
  {
    if steps == [] {
      EmptyOffice(accounts);
    } else {
      RunKeeps(accounts, steps[..|steps| - 1]);
      StepKeeps(Run(Empty(accounts), steps[..|steps| - 1]), steps[|steps| - 1]);
    }
  }

  /**
   * A sale in every run of the whole office: it is QUITADA exactly when its receivables call for it, DISTRATADA only with
   * all of them cancelled, and its receivables are the installments of the accepted version, which sum to its final price.
   */
  lemma SaleIsOne(accounts: set<Id>, steps: seq<Step>, sale: Id)
    requires sale < |Run(Empty(accounts), steps).c.sales|
    ensures var o := Run(Empty(accounts), steps);
            && sale < |o.l.sales|
            && var s := o.c.sales[sale];
               && s.proposal < |o.c.proposals|
               && Originals(o.l.receivables, sale) == Installments.Amounts(s.installments)
               && Sum(Originals(o.l.receivables, sale)) == o.c.proposals[s.proposal].version.price.finalPrice == o.l.sales[sale].net
               && (C.InForce(s.status) ==> (s.status == C.SaleStatus.Quitada <==> L.Settled(o.l.receivables, sale)))
               && (s.status == C.SaleStatus.Distratada ==> LedgerInvariant.AllCancelled(o.l.receivables, sale))
  {
    RunKeeps(accounts, steps);
    SaleOfOffice(Run(Empty(accounts), steps), sale);
  }

  lemma SaleOfOffice(o: Office, sale: Id)
    requires CommercialSteps.SalesOk(o.c.sales, o.c.proposals) && CommercialHistory.AllMirror(o.c)
    requires LedgerInvariant.SalesOk(o.l.sales, o.l.receivables) && Joined(o.c.sales, o.l.sales, o.l.receivables)
    requires sale < |o.c.sales|
    ensures var s := o.c.sales[sale];
            && sale < |o.l.sales| && s.proposal < |o.c.proposals|
            && Originals(o.l.receivables, sale) == Installments.Amounts(s.installments)
            && Sum(Originals(o.l.receivables, sale)) == o.c.proposals[s.proposal].version.price.finalPrice == o.l.sales[sale].net
            && (C.InForce(s.status) ==> (s.status == C.SaleStatus.Quitada <==> L.Settled(o.l.receivables, sale)))
            && (s.status == C.SaleStatus.Distratada ==> LedgerInvariant.AllCancelled(o.l.receivables, sale))
  {
    assert SameSale(o.c.sales[sale], o.l.sales[sale], o.l.receivables, sale);
    assert CommercialSteps.SaleOk(o.c.sales[sale], o.c.proposals) && CommercialHistory.Mirrors(o.c.sales[sale], o.c.proposals);
    assert LedgerInvariant.SaleOk(o.l.sales[sale], sale, o.l.receivables);
  }

  /**
   * From the proposal to the balance: while no receivable of a sale is cancelled or adjusted, the outstanding balance it
   * is presented with is the base price of its proposal minus the discount minus what was paid and not reversed.
   */
  lemma ProposalToBalance(accounts: set<Id>, steps: seq<Step>, sale: Id)
    requires var o := Run(Empty(accounts), steps);
             && sale < |o.c.sales|
             && forall i :: 0 <= i < |o.l.receivables| && o.l.receivables[i].sale == sale ==>
                  o.l.receivables[i].status != L.Cancelado && o.l.receivables[i].adjusted == o.l.receivables[i].original
    ensures var o := Run(Empty(accounts), steps);
            && sale < |o.l.sales| && o.c.sales[sale].proposal < |o.c.proposals|
            && var price := o.c.proposals[o.c.sales[sale].proposal].version.price;
               L.Outstanding(o.l, sale)
               == price.basePrice - price.discount - LedgerMoney.LiveOn(o.l.payments, LedgerMoney.SaleTargets(o.l.receivables, sale))
  {
    var o := Run(Empty(accounts), steps);
    RunKeeps(accounts, steps);
    SaleOfOffice(o, sale);
    VersionOfSale(o.c, sale);
    LedgerRuns.OutstandingOfUntouched(o.l, sale);
  }

  lemma VersionOfSale(c: C.Db, sale: Id)
    requires CommercialSteps.VersionsOk(c.proposals) && CommercialHistory.AllMirror(c) && sale < |c.sales|
    ensures var price := c.proposals[c.sales[sale].proposal].version.price; price.finalPrice == price.basePrice - price.discount
  {
    assert CommercialHistory.Mirrors(c.sales[sale], c.proposals);
    assert CommercialSteps.VersionOk(c.proposals[c.sales[sale].proposal].version);
  }
}
