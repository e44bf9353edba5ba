/** What no run of the commercial protocol undoes, and what it carries unchanged from an accepted proposal into its sale. */
module CommercialHistory {
  import opened Common
  import opened OpportunityStage
  import Installments
  import Pricing
  import Rounding
  import opened Sums
  import opened Commercial
  import opened CommercialSteps
  import opened CommercialRuns

  // ------------------------------------------------------------------------------------------- later

  predicate UnitLater(u: Unit, u': Unit) { u'.development == u.development }

  /** Only the status of a reservation changes, and only once, from ATIVA. */
  predicate ReservationLater(r: Reservation, r': Reservation) {
    r' == r.(status := r'.status) && (r.status != ReservationStatus.Ativa ==> r' == r)
  }

  /** Statuses in which a proposal takes no further version. */
  predicate Final(status: ProposalStatus) {
    status == Aceita || status == Recusada || status == ProposalStatus.Expirada || status == ProposalStatus.Cancelada
  }

  /** A version is immutable under its number, and new ones keep the base price. */
  predicate VersionLater(v: Version, v': Version) {
    && v.number <= v'.number
    && v'.price.basePrice == v.price.basePrice
    && (v'.number == v.number ==> v' == v)
  }

  /**
   * A proposal keeps its unit, person and opportunity and the reservation it once has; it never returns to RASCUNHO,
   * and once its status is final nothing but the conversion changes it.
   */
  predicate ProposalLater(p: Proposal, p': Proposal) {
    && p'.unit == p.unit && p'.person == p.person && p'.opportunity == p.opportunity
    && (p.reservation.Some? ==> p'.reservation == p.reservation)
    && VersionLater(p.version, p'.version)
    && (p.status != Rascunho ==> p'.status != Rascunho)
    && (p.converted ==> p'.converted)
    && (Final(p.status) ==> p' == p.(converted := p'.converted))
  }

  /** The amounts and installments of a sale are fixed; CANCELADA and DISTRATADA are never left. */
  predicate SaleLater(s: Sale, s': Sale) {
    s' == s.(status := s'.status) && (!InForce(s.status) ==> s' == s)
  }

  predicate OpportunityLater(o: Opportunity, o': Opportunity) { o'.pipeline == o.pipeline }

  ghost predicate Rows<T(!new)>(a: seq<T>, b: seq<T>, later: (T, T) -> bool) {
    |a| <= |b| && forall i :: 0 <= i < |a| ==> later(a[i], b[i])
  }

  ghost predicate CrmLater(a: Crm, b: Crm) {
    && a.pipelines <= b.pipelines && a.stages <= b.stages && a.history <= b.history
    && Rows(a.opportunities, b.opportunities, OpportunityLater)
  }

  ghost predicate Later(a: Db, b: Db) {
    && a.people <= b.people
    && Rows(a.units, b.units, UnitLater)
    && Rows(a.reservations, b.reservations, ReservationLater)
    && Rows(a.proposals, b.proposals, ProposalLater)
    && Rows(a.sales, b.sales, SaleLater)
    && CrmLater(a.crm, b.crm)
  }

  lemma RowsTransitive<T(!new)>(a: seq<T>, b: seq<T>, c: seq<T>, later: (T, T) -> bool)
    requires Rows(a, b, later) && Rows(b, c, later)
    requires forall x, y, z :: later(x, y) && later(y, z) ==> later(x, z)
    ensures Rows(a, c, later)
  {
  }

  lemma LaterTransitive(a: Db, b: Db, c: Db)
    requires Later(a, b) && Later(b, c)
    ensures Later(a, c)
  {
    RowsTransitive(a.units, b.units, c.units, UnitLater);
    RowsTransitive(a.reservations, b.reservations, c.reservations, ReservationLater);
    RowsTransitive(a.proposals, b.proposals, c.proposals, ProposalLater);
    RowsTransitive(a.sales, b.sales, c.sales, SaleLater);
    RowsTransitive(a.crm.opportunities, b.crm.opportunities, c.crm.opportunities, OpportunityLater);
  }

  // ------------------------------------------------------------------------------------------- steps

  lemma ExpireUnitLater(db: Db, unit: Id, now: Time)
    requires unit < |db.units|
    ensures Later(db, ExpireUnit(db, unit, now))
  {
  }

  lemma ReservationStepLater(db: Db, step: Step)
    requires OnReservations(step) && Call(db, step).Ok?
    ensures Later(db, Call(db, step).value)
  {
    match step
    case DoNormalizeUnit(unit, now) => ExpireUnitLater(db, unit, now);
    case DoCreateReservation(unit, person, opportunity, expiresAt, now) => ExpireUnitLater(db, unit, now);
    case DoCancelReservation(id, now) => ExpireUnitLater(db, db.reservations[id].unit, now);
    case DoConvertReservation(id, now) => ExpireUnitLater(db, db.reservations[id].unit, now);
  }

  /** A base price in cents survives the way through the decimal of the version row and back. */
  lemma BasePriceKept(cents: int)
    ensures Pricing.Money(cents as real / 100.0) == cents
  {
    assert cents as real / 100.0 * 100.0 == cents as real;
    Rounding.RoundExact(cents);
  }

  lemma VersionStepLater(db: Db, id: Id, terms: Terms, now: Time)
    requires CreateVersion(db, id, terms, now).Ok?
    ensures Later(db, CreateVersion(db, id, terms, now).value)
  {
    BasePriceKept(db.proposals[id].version.price.basePrice);
  }

  lemma ProposalAddedLater(db: Db, row: Proposal)
    ensures Later(db, db.(proposals := db.proposals + [row]))
  {
  }

  lemma ProposalWrittenLater(db: Db, id: Id, row: Proposal)
    requires id < |db.proposals| && ProposalLater(db.proposals[id], row)
    ensures Later(db, db.(proposals := db.proposals[id := row]))
  {
  }

  lemma StatusStepLater(db: Db, step: Step)
    requires (step.DoSendProposal? || step.DoRejectProposal? || step.DoExpireProposal?) && Call(db, step).Ok?
    ensures Later(db, Call(db, step).value)
  {
    var id, after := step.proposal, Call(db, step).value;
    ProposalWrittenLater(db, id, after.proposals[id]);
    assert after.proposals == db.proposals[id := after.proposals[id]];
  }

  lemma CreateStepLater(db: Db, step: Step)
    requires step.DoCreateProposal? && Call(db, step).Ok?
    ensures Later(db, Call(db, step).value)
  {
    ProposalAddedLater(db, Call(db, step).value.proposals[|db.proposals|]);
  }

  lemma ProposalStepLater(db: Db, step: Step)
    requires OnProposals(step) && Call(db, step).Ok?
    ensures Later(db, Call(db, step).value)
  {
    if step.DoCreateVersion? {
      VersionStepLater(db, step.proposal, step.terms, step.now);
    } else if step.DoAcceptProposal? {
      AcceptLater(db, step.proposal, step.now);
    } else if step.DoConvertProposal? {
      ConvertLater(db, step.proposal, step.dates, step.now);
    } else if step.DoCreateProposal? {
      CreateStepLater(db, step);
    } else {
      StatusStepLater(db, step);
    }
  }

  lemma WonLater(crm: Crm, id: Id, person: Id, unit: Id, development: Id)
    ensures WinOpportunity(crm, id, person, unit).Ok? ==> CrmLater(crm, WinOpportunity(crm, id, person, unit).value)
    ensures EnsureOpportunityWon(crm, id, person, unit, development).Ok? ==>
              CrmLater(crm, EnsureOpportunityWon(crm, id, person, unit, development).value)
  {
  }

  lemma AcceptLater(db: Db, id: Id, now: Time)
    requires AcceptProposal(db, id, now).Ok?
    ensures Later(db, AcceptProposal(db, id, now).value)
  {
    var row := db.proposals[id];
    if row.opportunity.Some? {
      WonLater(db.crm, row.opportunity.value, row.person, row.unit, 0);
    }
  }

  lemma ConvertLater(db: Db, id: Id, dates: Installments.SaleTerms, now: Time)
    requires ConvertProposal(db, id, dates, now).Ok?
    ensures Later(db, ConvertProposal(db, id, dates, now).value)
  {
    ConvertToLater(db, id, dates, Sold(db.proposals[id].version, dates), now);
  }

  lemma ConvertToLater(db: Db, id: Id, dates: Installments.SaleTerms, sold: Outcome<seq<Installments.Row>>, now: Time)
    requires id < |db.proposals| && ConvertTo(db, id, dates, sold, now).Ok?
    ensures Later(db, ConvertTo(db, id, dates, sold, now).value)
  {
    var row, after := db.proposals[id], ConvertTo(db, id, dates, sold, now).value;
    if row.opportunity.Some? {
      WonLater(db.crm, row.opportunity.value, row.person, row.unit, db.units[row.unit].development);
    }
    assert CrmLater(db.crm, after.crm);
    assert Rows(db.units, after.units, UnitLater);
    assert Rows(db.reservations, after.reservations, ReservationLater);
  }

  lemma StepLater(db: Db, step: Step)
    ensures Later(db, Next(db, step))
  {
    if Call(db, step).Ok? {
      if OnReservations(step) {
        ReservationStepLater(db, step);
      } else if OnProposals(step) {
        ProposalStepLater(db, step);
      } else if OnOpportunities(step) {
        OpportunityStepLater(db, step);
      }
    }
  }

  lemma CrmWrittenLater(db: Db, crm: Crm)
    requires CrmLater(db.crm, crm)
    ensures Later(db, db.(crm := crm))
  {
  }

  lemma OpportunityStepLater(db: Db, step: Step)
    requires OnOpportunities(step) && Call(db, step).Ok?
    ensures Later(db, Call(db, step).value)
  {
    var crm := Call(db, step).value.crm;
    OpportunityCrmLater(db, step);
    CrmWrittenLater(db, crm);
  }

  lemma OpportunityCrmLater(db: Db, step: Step)
    requires OnOpportunities(step) && Call(db, step).Ok?
    ensures Call(db, step).value == db.(crm := Call(db, step).value.crm) && CrmLater(db.crm, Call(db, step).value.crm)
  {
  }

  /** The two-state property of every run. */
  lemma {:induction false} RunLater(db: Db, steps: seq<Step>)
    ensures Later(db, Run(db, steps))
  {
    if steps != [] {
      var before := Run(db, steps[..|steps| - 1]);
      RunLater(db, steps[..|steps| - 1]);
      StepLater(before, steps[|steps| - 1]);
      LaterTransitive(db, before, Run(db, steps));
    }
  }

  // --------------------------------------------------------------------------- from acceptance to sale

  /** A sale has the unit, the prices and the payment plan of the version its proposal was accepted with. */
  predicate Mirrors(s: Sale, proposals: seq<Proposal>) {
    && s.proposal < |proposals|
    && var p := proposals[s.proposal];
       && p.status == Aceita && p.converted && s.unit == p.unit
       && s.gross == p.version.price.basePrice && s.discount == p.version.price.discount
       && s.net == p.version.price.finalPrice
       && Sold(p.version, s.dates) == Ok(s.installments)
  }

  ghost predicate AllMirror(db: Db) {
    forall s :: 0 <= s < |db.sales| ==> Mirrors(db.sales[s], db.proposals)
  }

  lemma MirrorsLater(s: Sale, s': Sale, a: seq<Proposal>, b: seq<Proposal>)
    requires Mirrors(s, a) && SaleLater(s, s') && Rows(a, b, ProposalLater)
    ensures Mirrors(s', b)
  {
    assert ProposalLater(a[s.proposal], b[s.proposal]);
  }

  ghost predicate NewMirror(db: Db, after: Db) {
    forall s :: |db.sales| <= s < |after.sales| ==> Mirrors(after.sales[s], after.proposals)
  }

  /** The one call that adds a sale. */
  lemma NewSaleMirrors(db: Db, step: Step)
    ensures NewMirror(db, Next(db, step))
  {
  }

  lemma TablesMirror(db: Db, after: Db)
    requires AllMirror(db) && Later(db, after) && NewMirror(db, after)
    ensures AllMirror(after)
  {
    forall s | 0 <= s < |db.sales|
      ensures Mirrors(after.sales[s], after.proposals)
    {
      MirrorsLater(db.sales[s], after.sales[s], db.proposals, after.proposals);
    }
  }

  lemma StepMirrors(db: Db, step: Step)
    requires AllMirror(db)
    ensures AllMirror(Next(db, step))
  {
    StepLater(db, step);
    NewSaleMirrors(db, step);
    TablesMirror(db, Next(db, step));
  }

  lemma {:induction false} RunMirrors(db: Db, steps: seq<Step>)
    requires AllMirror(db)
    ensures AllMirror(Run(db, steps))
  {
    if steps != [] {
      RunMirrors(db, steps[..|steps| - 1]);
      StepMirrors(Run(db, steps[..|steps| - 1]), steps[|steps| - 1]);
    }
  }

  /**
   * What was accepted is what is sold: from any reachable state in which a proposal is accepted, every run that ends
   * with a sale of it has sold its unit at the prices it was accepted with, in installments that sum to them.
   */
  lemma AcceptedTermsAreSold(before: seq<Step>, steps: seq<Step>, id: Id, sale: Id)
    requires var db := Run(EMPTY, before); id < |db.proposals| && db.proposals[id].status == Aceita
    requires var after := Run(Run(EMPTY, before), steps); sale < |after.sales| && after.sales[sale].proposal == id
    ensures var p, s := Run(EMPTY, before).proposals[id], Run(Run(EMPTY, before), steps).sales[sale];
            && s.unit == p.unit && s.gross == p.version.price.basePrice && s.discount == p.version.price.discount
            && Sum(Installments.Amounts(s.installments)) == s.net == p.version.price.finalPrice
  {
    RunMirrors(EMPTY, before);
    RunKeeps(EMPTY, before);
    ReachedLater(Run(EMPTY, before), steps);
    AcceptedSold(Run(EMPTY, before), Run(Run(EMPTY, before), steps), id, sale);
  }

  lemma ReachedLater(db: Db, steps: seq<Step>)
    requires Inv(db) && AllMirror(db)
    ensures var after := Run(db, steps);
            Rows(db.proposals, after.proposals, ProposalLater) && AllMirror(after) && SalesOk(after.sales, after.proposals)
  {
    RunMirrors(db, steps);
    RunLater(db, steps);
    RunKeeps(db, steps);
  }

  lemma AcceptedSold(db: Db, after: Db, id: Id, sale: Id)
    requires Rows(db.proposals, after.proposals, ProposalLater) && AllMirror(after) && SalesOk(after.sales, after.proposals)
    requires id < |db.proposals| && db.proposals[id].status == Aceita
    requires sale < |after.sales| && after.sales[sale].proposal == id
    ensures var p, s := db.proposals[id], after.sales[sale];
            && s.unit == p.unit && s.gross == p.version.price.basePrice && s.discount == p.version.price.discount
            && Sum(Installments.Amounts(s.installments)) == s.net == p.version.price.finalPrice
  {
    assert ProposalLater(db.proposals[id], after.proposals[id]);
    assert SaleOk(after.sales[sale], after.proposals);
  }

  // ---------------------------------------------------------------------------------------- due dates

  /** The payment plan a version is sold with. */
  function PlanOf(version: Version): seq<Installments.Plan>
    requires |version.price.amounts| == |version.conditions|
  {
    Pricing.PlansOf(version.conditions, version.price.amounts, 0)
  }

  /** The row of that plan for one condition, column by column. */
  function PlanRow(version: Version, k: Id): Installments.Plan
    requires k < |version.conditions| == |version.price.amounts|
  {
    var c := version.conditions[k];
    Installments.Plan(k, c.kind, version.price.amounts[k], c.installments, c.firstDueDate, c.intervalMonths)
  }

  /** What sold receivables are: the generation of the plan of their version, on the schedule of the sale. */
  lemma SoldIsGenerated(version: Version, dates: Installments.SaleTerms) returns (due: Installments.Schedule)
    requires Sold(version, dates).Ok?
    ensures due == Installments.SaleSchedule(dates)
    ensures |version.price.amounts| == |version.conditions| && Installments.DistinctIds(PlanOf(version))
    ensures Installments.Generate({}, PlanOf(version), due) == Sold(version, dates)
  {
    due := Installments.SaleSchedule(dates);
  }

  lemma ReachableSale(steps: seq<Step>, sale: Id)
    requires sale < |Run(EMPTY, steps).sales|
    ensures Mirrors(Run(EMPTY, steps).sales[sale], Run(EMPTY, steps).proposals)
  {
    RunMirrors(EMPTY, steps);
  }

  /** A condition of the version asks for this installment. */
  ghost predicate AsksFor(version: Version, key: Installments.Key) {
    key.0 < |version.conditions| == |version.price.amounts| && Installments.HasInstallment(PlanRow(version, key.0), key.1)
  }

  lemma WantedByCondition(version: Version, key: Installments.Key)
    requires |version.price.amounts| == |version.conditions|
    ensures Installments.Wanted(PlanOf(version), key) <==> AsksFor(version, key)
  {
    var plans := PlanOf(version);
    assert forall k: Id :: k < |plans| ==> plans[k] == PlanRow(version, k) && plans[k] in plans;
  }

  lemma CompleteRows(version: Version, plans: seq<Installments.Plan>, due: Installments.Schedule, rows: seq<Installments.Row>)
    requires |version.price.amounts| == |version.conditions| && plans == PlanOf(version) && Installments.DistinctIds(plans)
    requires Installments.Generate({}, plans, due) == Ok(rows)
    ensures Installments.DistinctKeys(rows) && forall key :: key in Installments.Keys(rows) <==> AsksFor(version, key)
  {
    Installments.GenerateCompletes({}, plans, due);
    forall key
      ensures key in Installments.Keys(rows) <==> AsksFor(version, key)
    {
      WantedByCondition(version, key);
    }
  }

  /** The installments of a sale are those its conditions ask for, 1 to the count of each, every one once. */
  lemma InstallmentsAreComplete(version: Version, dates: Installments.SaleTerms)
    requires Sold(version, dates).Ok?
    ensures Installments.DistinctKeys(Sold(version, dates).value)
    ensures forall key :: key in Installments.Keys(Sold(version, dates).value) <==> AsksFor(version, key)
  {
    var due := SoldIsGenerated(version, dates);
    CompleteRows(version, PlanOf(version), due, Sold(version, dates).value);
  }

  lemma PlanOfRow(version: Version, dates: Installments.SaleTerms, row: Installments.Row)
    requires Sold(version, dates).Ok? && row in Sold(version, dates).value
    ensures row.planId < |version.conditions| == |version.price.amounts|
    ensures var plan := PlanRow(version, row.planId); plan in PlanOf(version) && plan.id == row.planId
  {
    var due := SoldIsGenerated(version, dates);
    Installments.GenerateOnlyWanted({}, PlanOf(version), due, row);
    assert PlanOf(version)[row.planId] == PlanRow(version, row.planId);
  }

  lemma SoldOnSchedule(version: Version, dates: Installments.SaleTerms, row: Installments.Row)
    requires Sold(version, dates).Ok? && row in Sold(version, dates).value
    ensures row.planId < |version.conditions| == |version.price.amounts|
    ensures Installments.OnSchedule(PlanRow(version, row.planId), dates, row)
  {
    var due := SoldIsGenerated(version, dates);
    PlanOfRow(version, dates, row);
    Installments.CreatedOnSchedule(PlanOf(version), dates, due, PlanRow(version, row.planId), row);
  }

  lemma SoldAmount(version: Version, dates: Installments.SaleTerms, row: Installments.Row)
    requires Sold(version, dates).Ok? && row in Sold(version, dates).value
    ensures row.planId < |version.conditions| == |version.price.amounts|
    ensures Installments.AmountOf(PlanRow(version, row.planId), row)
  {
    var due := SoldIsGenerated(version, dates);
    PlanOfRow(version, dates, row);
    Installments.CreatedAmount(PlanOf(version), due, PlanRow(version, row.planId), row);
  }

  /** In every run each receivable of a sale has its share of the amount of its condition. */
  lemma InstallmentsShareCondition(steps: seq<Step>, sale: Id, row: Installments.Row)
    requires sale < |Run(EMPTY, steps).sales| && row in Run(EMPTY, steps).sales[sale].installments
    ensures var db := Run(EMPTY, steps);
            var s := db.sales[sale];
            && s.proposal < |db.proposals|
            && var version := db.proposals[s.proposal].version;
               && row.planId < |version.conditions| == |version.price.amounts|
               && Installments.AmountOf(PlanRow(version, row.planId), row)
  {
    ReachableSale(steps, sale);
    var s := Run(EMPTY, steps).sales[sale];
    SoldAmount(Run(EMPTY, steps).proposals[s.proposal].version, s.dates, row);
  }

  /** In every run each receivable of a sale is due on the schedule of its condition. */
  lemma InstallmentsOnSchedule(steps: seq<Step>, sale: Id, row: Installments.Row)
    requires sale < |Run(EMPTY, steps).sales| && row in Run(EMPTY, steps).sales[sale].installments
    ensures var db := Run(EMPTY, steps);
            var s := db.sales[sale];
            && s.proposal < |db.proposals|
            && var version := db.proposals[s.proposal].version;
               && row.planId < |version.conditions| == |version.price.amounts|
               && Installments.OnSchedule(PlanRow(version, row.planId), s.dates, row)
  {
    ReachableSale(steps, sale);
    var s := Run(EMPTY, steps).sales[sale];
    SoldOnSchedule(Run(EMPTY, steps).proposals[s.proposal].version, s.dates, row);
  }

  /**
   * In every run, of two receivables of a sale that pay one condition, installments i and j counted from 0, the later
   * one is due on a later day, j - i intervals in months after the earlier one.
   */
  lemma InstallmentsInOrder(steps: seq<Step>, sale: Id, a: Installments.Row, b: Installments.Row, i: int, j: int)
    requires sale < |Run(EMPTY, steps).sales|
    requires var rows := Run(EMPTY, steps).sales[sale].installments; a in rows && b in rows
    requires a.planId == b.planId && a.sequence == i + 1 && b.sequence == j + 1 && i < j
    ensures var db := Run(EMPTY, steps);
            var s := db.sales[sale];
            && s.proposal < |db.proposals|
            && var version := db.proposals[s.proposal].version;
               && a.planId < |version.conditions| == |version.price.amounts|
               && var plan := PlanRow(version, a.planId);
                  Installments.Forward(plan) ==> Installments.DueAfter(plan, a, b, j - i)
  {
    ReachableSale(steps, sale);
    var s := Run(EMPTY, steps).sales[sale];
    var version := Run(EMPTY, steps).proposals[s.proposal].version;
    PlanOfRow(version, s.dates, a);
    if Installments.Forward(PlanRow(version, a.planId)) {
      var due := SoldIsGenerated(version, s.dates);
      Installments.CreatedInOrder(PlanOf(version), s.dates, due, PlanRow(version, a.planId), a, b, i, j);
    }
  }
}
