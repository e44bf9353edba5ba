/** What a conversion and a distrato do to both sides of the office at once. */
module OfficeEffects {
  import opened Common
  import Installments
  import C = Commercial
  import CommercialConversion
  import CommercialEffects
  import CommercialHistory
  import L = Ledger
  import LedgerEffects
  import LedgerInvariant
  import opened Office

  /** The conversion is possible: both sides have one sale more, at the price of the proposal. */
  ghost predicate SellsInBoth(o: Office, proposal: Id, dates: Installments.SaleTerms, commissions: seq<nat>, after: Office)
    requires proposal < |o.c.proposals|
  {
    var version := o.c.proposals[proposal].version;
    && C.Sold(version, dates).Ok?
    && CommercialEffects.Sells(o.c, proposal, dates, C.Sold(version, dates).value, after.c)
    && LedgerEffects.Registers(o.l, version.price.finalPrice, commissions, after.l)
  }

  /** The receivables of a sale in the ledger: the registration of its plan. */
  lemma RegisteredSale(l: L.Db, proposals: seq<C.Proposal>, s: C.Sale, commissions: seq<nat>)
    requires LedgerInvariant.Inv(l) && Registered(l, proposals, s, commissions).Ok?
    ensures LedgerEffects.Registers(l, s.net, commissions, Registered(l, proposals, s, commissions).value)
  {
    var version := proposals[s.proposal].version;
    LedgerEffects.RegisterEffect(l, s.net, CommercialHistory.PlanOf(version), Installments.SaleSchedule(s.dates), commissions);
  }

  lemma LastSale(sold: seq<C.Sale>, after: seq<C.Sale>)
    requires |after| == |sold| + 1 && sold <= after
    ensures after == sold + [after[|sold|]]
  {
  }

  lemma SoldInBoth(o: Office, c: C.Db, s: C.Sale, commissions: seq<nat>)
    requires Inv(o) && DealsOk(c) && c.sales == o.c.sales + [s] && s.status == C.SaleStatus.Ativa
    ensures SoldTo(o, c, commissions).c == c && LedgerEffects.Registers(o.l, s.net, commissions, SoldTo(o, c, commissions).l)
  {
    ConvertRegistered(o, c, commissions);
    RegisteredSale(o.l, c.proposals, s, commissions);
  }

  /** The commercial side of a conversion: what it sells, or nothing. */
  lemma SoldSide(o: Office, proposal: Id, dates: Installments.SaleTerms, rows: seq<Installments.Row>, c: C.Db, commissions: seq<nat>)
    requires Inv(o) && DealsOk(c) && CommercialEffects.Sells(o.c, proposal, dates, rows, c)
    ensures var net := o.c.proposals[proposal].version.price.finalPrice;
            SoldTo(o, c, commissions).c == c && LedgerEffects.Registers(o.l, net, commissions, SoldTo(o, c, commissions).l)
  {
    LastSale(o.c.sales, c.sales);
    SoldInBoth(o, c, c.sales[|o.c.sales|], commissions);
  }

  lemma SellEffect(o: Office, proposal: Id, dates: Installments.SaleTerms, commissions: seq<nat>, now: int)
    requires Inv(o) && proposal < |o.c.proposals|
    requires o.c.proposals[proposal].status == C.Aceita && !o.c.proposals[proposal].converted
    ensures var after := Sell(o, proposal, dates, commissions, now);
            if CommercialConversion.Convertible(o.c, o.c.proposals[proposal])
            then SellsInBoth(o, proposal, dates, commissions, after) else after == o
  {
    var c := C.Next(o.c, C.DoConvertProposal(proposal, dates, now));
    CommercialEffects.ConvertProposalEffect(o.c, proposal, dates, now);
    if CommercialConversion.Convertible(o.c, o.c.proposals[proposal]) {
      DealStepKeeps(o.c, C.DoConvertProposal(proposal, dates, now));
      SoldSide(o, proposal, dates, C.Sold(o.c.proposals[proposal].version, dates).value, c, commissions);
    }
  }

  /**
   * A conversion of an accepted proposal sells in both or changes neither: it makes the sale and registers it in the
   * ledger exactly when the proposal is convertible.
   */
  lemma ConvertEffect(o: Office, step: Step)
    requires Inv(o) && step.Convert? && step.proposal < |o.c.proposals|
    requires o.c.proposals[step.proposal].status == C.Aceita && !o.c.proposals[step.proposal].converted
    ensures if CommercialConversion.Convertible(o.c, o.c.proposals[step.proposal])
            then SellsInBoth(o, step.proposal, step.dates, step.commissions, Next(o, step)) else Next(o, step) == o
  {
    SellEffect(o, step.proposal, step.dates, step.commissions, step.now);
    assert Next(o, step) == Sell(o, step.proposal, step.dates, step.commissions, step.now);
  }

  /** The distrato is possible: both sides close the sale, and a unit that was sold is DISTRATADA. */
  ghost predicate ClosesInBoth(o: Office, sale: Id, now: int, after: Office)
    requires sale < |o.c.sales|
  {
    var unit := o.c.sales[sale].unit;
    && LedgerEffects.Dissolves(o.l, sale, now, after.l)
    && OnlyRow(o.c.sales, after.c.sales, sale) && after.c.sales[sale] == o.c.sales[sale].(status := C.SaleStatus.Distratada)
    && OnlyRow(o.c.units, after.c.units, unit)
    && after.c.units[unit].status
       == (if o.c.units[unit].status == C.Vendida || o.c.units[unit].status == C.UnitStatus.Quitada
           then C.UnitStatus.Distratada else o.c.units[unit].status)
  }

  lemma CloseEffect(o: Office, sale: Id, now: int)
    requires Inv(o) && sale < |o.l.sales|
    ensures sale < |o.c.sales|
    ensures if L.CancelSale(o.l, sale, now).Ok? then ClosesInBoth(o, sale, now, Close(o, sale, now)) else Close(o, sale, now) == o
  {
    assert SameSale(o.c.sales[sale], o.l.sales[sale], o.l.receivables, sale);
    if L.CancelSale(o.l, sale, now).Ok? {
      LedgerEffects.DissolvedRows(o.l, sale, now);
      DistratoOfLedger(o.l, sale, now);
      CommercialEffects.CancelSaleEffect(o.c, sale, false);
    }
  }

  /** A distrato closes the sale in both or changes neither; the ledger says which. */
  lemma DistratoEffect(o: Office, step: Step)
    requires Inv(o) && step.Distrato? && step.sale < |o.l.sales|
    ensures step.sale < |o.c.sales|
    ensures if L.CancelSale(o.l, step.sale, step.now).Ok? then ClosesInBoth(o, step.sale, step.now, Next(o, step)) else Next(o, step) == o
  {
    CloseEffect(o, step.sale, step.now);
    assert Next(o, step) == Close(o, step.sale, step.now);
  }
}
