/**
 * When an accepted proposal converts into a sale, in columns a caller can read, and what an acceptance leaves behind that
 * never converts.
 */
module CommercialConversion {
  import opened Common
  import opened Sums
  import opened OpportunityStage
  import Installments
  import Pricing
  import opened Commercial
  import opened CommercialSteps
  import opened CommercialRuns
  import opened CommercialHistory

  // -------------------------------------------------------------------------------------- conditions

  /** How many installments a condition is split into. */
  function Count(c: Pricing.Condition): int {
    if c.kind == Installments.Parcelas && c.installments.Some? then c.installments.value else 1
  }

  /** Each installment of the condition can get a cent. */
  predicate CentEach(c: Pricing.Condition, amount: int) {
    1 <= Count(c) <= 600 && Count(c) <= amount
  }

  /** The version has conditions, and each leaves a cent for each of its installments. */
  ghost predicate PlanSplits(v: Version) {
    && v.conditions != [] && |v.price.amounts| == |v.conditions|
    && forall i :: 0 <= i < |v.conditions| ==> CentEach(v.conditions[i], v.price.amounts[i])
  }

  /** What the conversion asks of the opportunity of a proposal. */
  predicate OpportunityFits(crm: Crm, id: Id, person: Id, unit: Id, development: Id) {
    && id < |crm.opportunities|
    && var o := crm.opportunities[id];
       && o.person == person && o.development == Some(development) && (o.unit.None? || o.unit == Some(unit))
       && o.stage < |crm.stages| && !crm.stages[o.stage].spec.isLost
  }

  /** The columns that decide whether an accepted proposal converts. */
  ghost predicate Convertible(db: Db, row: Proposal) {
    && (forall s :: 0 <= s < |db.sales| && db.sales[s].unit == row.unit ==>
             db.sales[s].status != SaleStatus.Ativa && db.sales[s].status != SaleStatus.Quitada)
    && PlanSplits(row.version)
    && (row.opportunity.Some? ==>
          row.unit < |db.units| && OpportunityFits(db.crm, row.opportunity.value, row.person, row.unit, db.units[row.unit].development))
  }

  lemma CountIsInstallmentCount(v: Version, i: nat)
    requires |v.price.amounts| == |v.conditions| && i < |v.conditions|
    ensures Installments.Splittable(PlanOf(v)[i]) <==> CentEach(v.conditions[i], v.price.amounts[i])
  {
  }

  /** The receivables of a version can be generated exactly when its plan splits. */
  lemma SoldExactly(v: Version, dates: Installments.SaleTerms)
    requires VersionOk(v)
    ensures Sold(v, dates).Ok? <==> PlanSplits(v)
  {
    GeneratedExactly(v, Installments.SaleSchedule(dates));
  }

  lemma GeneratedExactly(v: Version, due: Installments.Schedule)
    requires VersionOk(v)
    ensures Pricing.Convert(v.price, v.conditions, 0, due).Ok? <==> PlanSplits(v)
  {
    var plans := PlanOf(v);
    Installments.GenerateSucceeds({}, plans, due);
    forall i: nat | i < |plans|
      ensures plans[i] in plans && (Installments.Splittable(plans[i]) <==> CentEach(v.conditions[i], v.price.amounts[i]))
    {
      CountIsInstallmentCount(v, i);
    }
  }

  /** The opportunity is won or can be, exactly when it fits: a missing won stage never stands in the way. */
  lemma WonExactly(crm: Crm, id: Id, person: Id, unit: Id, development: Id)
    requires CrmInv(crm)
    ensures EnsureOpportunityWon(crm, id, person, unit, development).Ok? <==> OpportunityFits(crm, id, person, unit, development)
  {
    if id < |crm.opportunities| {
      MoveToWonKeeps(crm, id, unit);
      assert OpportunityOk(crm.opportunities[id], HistoryOf(crm.history, id), crm.stages);
    }
  }

  lemma ConvertsToExactly(db: Db, id: Id, dates: Installments.SaleTerms, sold: Outcome<seq<Installments.Row>>, now: Time)
    requires Inv(db) && id < |db.proposals| && Pending(db.proposals[id])
    ensures var row := db.proposals[id];
            ConvertTo(db, id, dates, sold, now).Ok? <==>
              && (forall s :: 0 <= s < |db.sales| && db.sales[s].unit == row.unit ==>
                       db.sales[s].status != SaleStatus.Ativa && db.sales[s].status != SaleStatus.Quitada)
              && sold.Ok?
              && (row.opportunity.Some? ==>
                    row.unit < |db.units|
                    && EnsureOpportunityWon(db.crm, row.opportunity.value, row.person, row.unit, db.units[row.unit].development).Ok?)
  {
    PendingConvertible(db, id, now);
  }

  lemma ConvertsExactly(db: Db, id: Id, dates: Installments.SaleTerms, now: Time)
    requires Inv(db) && id < |db.proposals| && Pending(db.proposals[id])
    ensures ConvertProposal(db, id, dates, now).Ok? <==> Convertible(db, db.proposals[id])
  {
    var row := db.proposals[id];
    ConvertsToExactly(db, id, dates, Sold(row.version, dates), now);
    SoldExactly(row.version, dates);
    if row.opportunity.Some? && row.unit < |db.units| {
      WonExactly(db.crm, row.opportunity.value, row.person, row.unit, db.units[row.unit].development);
    }
  }

  /**
   * When a reachable accepted proposal converts, exactly: no sale of its unit is in force, its conditions leave a cent
   * for each installment, and its opportunity, if it has one, has its person, the development of the unit, no other
   * unit, and is not lost.  Unit and reservation never stop it.
   */
  lemma PendingConvertsExactly(steps: seq<Step>, id: Id, dates: Installments.SaleTerms, now: Time)
    requires var db := Run(EMPTY, steps); id < |db.proposals| && Pending(db.proposals[id])
    ensures var db := Run(EMPTY, steps);
            ConvertProposal(db, id, dates, now).Ok? <==> Convertible(db, db.proposals[id])
  {
    RunKeeps(EMPTY, steps);
    ConvertsExactly(Run(EMPTY, steps), id, dates, now);
  }

  // -------------------------------------------------------------------------------------- acceptance

  /** What an acceptance leaves of the opportunity: won, with its person and unit, the development as it was. */
  lemma WinLeaves(crm: Crm, id: Id, person: Id, unit: Id)
    requires CrmInv(crm) && WinOpportunity(crm, id, person, unit).Ok?
    ensures var after := WinOpportunity(crm, id, person, unit).value;
            && id < |crm.opportunities| == |after.opportunities|
            && var o := after.opportunities[id];
               && o.person == person && (o.unit.None? || o.unit == Some(unit))
               && o.development == crm.opportunities[id].development
               && o.stage < |after.stages| && !after.stages[o.stage].spec.isLost
  {
    assert OpportunityOk(crm.opportunities[id], HistoryOf(crm.history, id), crm.stages);
  }

  /** What an acceptance leaves of everything a conversion looks at. */
  lemma AcceptLeaves(db: Db, id: Id, now: Time)
    requires Inv(db) && AcceptProposal(db, id, now).Ok?
    ensures var row, after := db.proposals[id], AcceptProposal(db, id, now).value;
            && row.unit < |db.units| == |after.units| && after.units[row.unit].development == db.units[row.unit].development
            && id < |after.proposals| && Pending(after.proposals[id]) && after.sales == db.sales
            && after.proposals[id] == row.(status := Aceita, reservation := after.proposals[id].reservation)
            && (row.opportunity.Some? ==>
                  WinOpportunity(db.crm, row.opportunity.value, row.person, row.unit) == Ok(after.crm))
  {
    assert ProposalOk(db.proposals[id], db.reservations, db.units);
  }

  /**
   * Which accepted proposals convert, seen before the acceptance: beside the sales of the unit and the plan, only the
   * development of the opportunity is left, which the acceptance does not test.
   */
  lemma AcceptedConvertsExactly(db: Db, id: Id, now: Time, dates: Installments.SaleTerms, later: Time)
    requires Inv(db) && AcceptProposal(db, id, now).Ok?
    ensures var row := db.proposals[id];
            ConvertProposal(AcceptProposal(db, id, now).value, id, dates, later).Ok? <==>
              && (forall s :: 0 <= s < |db.sales| && db.sales[s].unit == row.unit ==>
                       db.sales[s].status != SaleStatus.Ativa && db.sales[s].status != SaleStatus.Quitada)
              && PlanSplits(row.version)
              && (row.opportunity.Some? ==>
                    row.opportunity.value < |db.crm.opportunities| && row.unit < |db.units|
                    && db.crm.opportunities[row.opportunity.value].development == Some(db.units[row.unit].development))
  {
    var row, after := db.proposals[id], AcceptProposal(db, id, now).value;
    AcceptLeaves(db, id, now);
    AcceptProposalKeeps(db, id, now);
    ConvertsExactly(after, id, dates, later);
    if row.opportunity.Some? {
      WinLeaves(db.crm, row.opportunity.value, row.person, row.unit);
    }
  }

  // -------------------------------------------------------------------------------------------- stuck

  /** The opportunity of the proposal does not have the development of its unit. */
  predicate WrongDevelopment(db: Db, row: Proposal) {
    && row.opportunity.Some? && row.opportunity.value < |db.crm.opportunities| && row.unit < |db.units|
    && db.crm.opportunities[row.opportunity.value].development != Some(db.units[row.unit].development)
  }

  /** Accepted, and the conversion is refused for the plan or for the development. */
  ghost predicate Stuck(db: Db, id: Id) {
    && id < |db.proposals| && Pending(db.proposals[id])
    && (!PlanSplits(db.proposals[id].version) || WrongDevelopment(db, db.proposals[id]))
  }

  lemma StuckRefused(db: Db, id: Id, dates: Installments.SaleTerms, now: Time)
    requires Inv(db) && Stuck(db, id)
    ensures ConvertProposal(db, id, dates, now).Err?
  {
    ConvertsExactly(db, id, dates, now);
  }

  /** Only an accepted conversion of the proposal itself takes it out of the pending ones. */
  lemma OnlyConversionEndsPending(db: Db, step: Step, id: Id)
    requires Inv(db) && id < |db.proposals| && Pending(db.proposals[id])
    requires step.DoConvertProposal? && step.proposal == id ==> Call(db, step).Err?
    ensures id < |Next(db, step).proposals| && Next(db, step).proposals[id] == db.proposals[id]
  {
    StepLater(db, step);
    if step.DoConvertProposal? && Call(db, step).Ok? {
      OtherConversion(db, step.proposal, step.dates, Sold(db.proposals[step.proposal].version, step.dates), step.now, id);
    } else if Call(db, step).Ok? {
      NotConverted(db, step, id);
    }
  }

  lemma OtherConversion(db: Db, other: Id, dates: Installments.SaleTerms, sold: Outcome<seq<Installments.Row>>, now: Time, id: Id)
    requires other < |db.proposals| && id < |db.proposals| && id != other && ConvertTo(db, other, dates, sold, now).Ok?
    ensures ConvertTo(db, other, dates, sold, now).value.proposals[id] == db.proposals[id]
  {
  }

  lemma NotConverted(db: Db, step: Step, id: Id)
    requires !step.DoConvertProposal? && Call(db, step).Ok?
    requires id < |db.proposals| && Pending(db.proposals[id])
    ensures id < |Call(db, step).value.proposals| && Call(db, step).value.proposals[id] == db.proposals[id]
  {
  }

  /** Only an edit of the opportunity changes its development. */
  lemma DevelopmentStays(db: Db, step: Step, o: Id)
    requires o < |db.crm.opportunities| && !(step.DoUpdateOpportunity? && step.moved == o)
    ensures o < |Next(db, step).crm.opportunities|
    ensures Next(db, step).crm.opportunities[o].development == db.crm.opportunities[o].development
  {
    if step.DoConvertProposal? && Call(db, step).Ok? {
      ConversionKeepsDevelopment(db, step.proposal, step.dates, Sold(db.proposals[step.proposal].version, step.dates), step.now, o);
    }
  }

  lemma ConversionKeepsDevelopment(db: Db, id: Id, dates: Installments.SaleTerms, sold: Outcome<seq<Installments.Row>>, now: Time, o: Id)
    requires id < |db.proposals| && o < |db.crm.opportunities| && ConvertTo(db, id, dates, sold, now).Ok?
    ensures var after := ConvertTo(db, id, dates, sold, now).value.crm;
            o < |after.opportunities| && after.opportunities[o].development == db.crm.opportunities[o].development
  {
  }

  /** No step of the run edits the opportunity of the proposal. */
  predicate Unedited(steps: seq<Step>, opportunity: Option<Id>) {
    forall k | 0 <= k < |steps| :: steps[k].DoUpdateOpportunity? ==> Some(steps[k].moved) != opportunity
  }

  lemma StepStuck(db: Db, step: Step, id: Id)
    requires Inv(db) && Stuck(db, id)
    requires PlanSplits(db.proposals[id].version) ==> Unedited([step], db.proposals[id].opportunity)
    ensures Stuck(Next(db, step), id) && Next(db, step).proposals[id] == db.proposals[id]
  {
    var row := db.proposals[id];
    if step.DoConvertProposal? && step.proposal == id {
      StuckRefused(db, id, step.dates, step.now);
    }
    OnlyConversionEndsPending(db, step, id);
    if PlanSplits(row.version) {
      assert [step][0] == step;
      DevelopmentStays(db, step, row.opportunity.value);
      StepLater(db, step);
      assert UnitLater(db.units[row.unit], Next(db, step).units[row.unit]);
    }
  }

  lemma {:induction false} RunStuck(db: Db, steps: seq<Step>, id: Id)
    requires Inv(db) && Stuck(db, id)
    requires PlanSplits(db.proposals[id].version) ==> Unedited(steps, db.proposals[id].opportunity)
    ensures Stuck(Run(db, steps), id) && Run(db, steps).proposals[id] == db.proposals[id]
  {
    if steps != [] {
      var front, last := steps[..|steps| - 1], steps[|steps| - 1];
      assert PlanSplits(db.proposals[id].version) ==> Unedited(front, db.proposals[id].opportunity);
      RunStuck(db, front, id);
      RunKeeps(db, front);
      StepStuck(Run(db, front), last, id);
    }
  }

  /**
   * An accepted proposal whose plan cannot be split never converts, whatever runs afterwards: its terms are frozen, so it
   * stays pending and its unit RESERVADA for it.
   */
  lemma UnsplittableForever(before: seq<Step>, steps: seq<Step>, id: Id)
    requires var db := Run(EMPTY, before); id < |db.proposals| && Pending(db.proposals[id]) && !PlanSplits(db.proposals[id].version)
    ensures var db, after := Run(EMPTY, before), Run(Run(EMPTY, before), steps);
            && id < |after.proposals| && after.proposals[id] == db.proposals[id]
            && after.proposals[id].unit < |after.units| && after.units[after.proposals[id].unit].status == Reservada
  {
    StuckHoldsUnit(before, steps, id);
  }

  lemma StuckHoldsUnit(before: seq<Step>, steps: seq<Step>, id: Id)
    requires var db := Run(EMPTY, before);
             Stuck(db, id) && (PlanSplits(db.proposals[id].version) ==> Unedited(steps, db.proposals[id].opportunity))
    ensures var db, after := Run(EMPTY, before), Run(Run(EMPTY, before), steps);
            && Stuck(after, id) && after.proposals[id] == db.proposals[id]
            && after.proposals[id].unit < |after.units| && after.units[after.proposals[id].unit].status == Reservada
  {
    RunKeeps(EMPTY, before);
    RunStuck(Run(EMPTY, before), steps, id);
    RunKeeps(Run(EMPTY, before), steps);
    var after := Run(Run(EMPTY, before), steps);
    assert ProposalOk(after.proposals[id], after.reservations, after.units);
  }

  /**
   * An accepted proposal whose opportunity lacks the development of its unit stays pending, and its unit RESERVADA, in
   * every run that does not edit that opportunity.
   */
  lemma WrongDevelopmentWaits(before: seq<Step>, steps: seq<Step>, id: Id)
    requires var db := Run(EMPTY, before);
             && id < |db.proposals| && Pending(db.proposals[id]) && WrongDevelopment(db, db.proposals[id])
             && Unedited(steps, db.proposals[id].opportunity)
    ensures var db, after := Run(EMPTY, before), Run(Run(EMPTY, before), steps);
            && id < |after.proposals| && after.proposals[id] == db.proposals[id]
            && after.proposals[id].unit < |after.units| && after.units[after.proposals[id].unit].status == Reservada
  {
    StuckHoldsUnit(before, steps, id);
  }

  // ----------------------------------------------------------------------------------------- examples

  const STAGES := [StageSpec("NOVO", 0, false, false), StageSpec("GANHO", 1, true, false), StageSpec("PERDIDO", 2, false, true)]

  /** A price of one currency unit, to be paid by one condition. */
  function OneCondition(condition: Pricing.Condition): Terms { Terms(0.0, [condition], None) }

  const CASH := Pricing.Condition(Installments.Entrada, 1.0, None, None, None)

  /** One currency unit in two hundred installments. */
  const TOO_MANY := Pricing.Condition(Installments.Parcelas, 1.0, Some(200), None, None)

  lemma OneConditionPriced(condition: Pricing.Condition) returns (price: Pricing.Priced)
    requires condition.amount == 1.0
    ensures Pricing.ValidatePricing(1.0, 0.0, [condition]) == Ok(price) && price.amounts == [100]
  {
    assert Pricing.Money(1.0) == 100 && Pricing.Money(0.0) == 0;
    assert Pricing.MoneyOf([condition]) == [100];
    SumAppend([], 100);
    assert [] + [100] == [100];
    price := Pricing.ValidatePricing(1.0, 0.0, [condition]).value;
  }

  /** A proposal of a free unit, created, sent and accepted. */
  function Accepted(opportunity: Option<Id>, condition: Pricing.Condition, now: Time): seq<Step> {
    [DoCreateProposal(0, 0, opportunity, None, Some(1.0), OneCondition(condition), now)] + [DoSendProposal(0, now)] + [DoAcceptProposal(0, now)]
  }

  lemma RunThree(db: Db, a: Step, b: Step, c: Step)
    ensures Run(db, [a] + [b] + [c]) == Next(Next(Next(db, a), b), c)
  {
    RunConcat(db, [a] + [b], [c]);
    RunConcat(db, [a], [b]);
    RunOne(db, a);
    RunOne(Next(db, a), b);
    RunOne(Next(Next(db, a), b), c);
  }

  /** A free unit, somebody to buy it, and an opportunity of his that a proposal may name. */
  ghost predicate Ready(db: Db, opportunity: Option<Id>) {
    && 0 in db.people && db.proposals == [] && |db.units| == 1 && db.units[0].status == Disponivel
    && (opportunity.Some? ==>
          CheckOpportunity(db.crm, opportunity.value, 0, 0, db.units[0].development).Ok?
          && WinOpportunity(db.crm, opportunity.value, 0, 0).Ok?)
  }

  lemma AcceptedFromReady(db: Db, opportunity: Option<Id>, condition: Pricing.Condition, now: Time)
    requires Ready(db, opportunity) && condition.amount == 1.0
    ensures var after := Run(db, Accepted(opportunity, condition, now));
            && |after.proposals| == 1 && Pending(after.proposals[0])
            && after.proposals[0].opportunity == opportunity && after.proposals[0].unit == 0
            && after.proposals[0].version.conditions == [condition] && after.proposals[0].version.price.amounts == [100]
            && |after.units| == 1 && after.units[0].development == db.units[0].development
            && (opportunity.Some? ==> WinOpportunity(db.crm, opportunity.value, 0, 0) == Ok(after.crm))
  {
    var price := OneConditionPriced(condition);
    var create := DoCreateProposal(0, 0, opportunity, None, Some(1.0), OneCondition(condition), now);
    var row := Proposal(0, 0, opportunity, None, Rascunho, false, None, Version(1, price, [condition]));
    RunThree(db, create, DoSendProposal(0, now), DoAcceptProposal(0, now));
    CreatesFirst(db, opportunity, condition, price, now);
    SendsFirst(db.(proposals := [row]), row, now);
    AcceptsSent(db.(proposals := [row.(status := Enviada)]), row.(status := Enviada), now);
  }

  lemma CreatesFirst(db: Db, opportunity: Option<Id>, condition: Pricing.Condition, price: Pricing.Priced, now: Time)
    requires Ready(db, opportunity) && Pricing.ValidatePricing(1.0, 0.0, [condition]) == Ok(price)
    ensures var row := Proposal(0, 0, opportunity, None, Rascunho, false, None, Version(1, price, [condition]));
            Next(db, DoCreateProposal(0, 0, opportunity, None, Some(1.0), OneCondition(condition), now)) == db.(proposals := [row])
  {
  }

  lemma SendsFirst(db: Db, row: Proposal, now: Time)
    requires db.proposals == [row] && row.status == Rascunho && row.validUntil.None?
    ensures Next(db, DoSendProposal(0, now)) == db.(proposals := [row.(status := Enviada)])
  {
  }

  lemma AcceptsSent(db: Db, row: Proposal, now: Time)
    requires db.proposals == [row] && row.unit == 0 && row.person == 0 && row.reservation.None? && row.status == Enviada && row.validUntil.None?
    requires |db.units| == 1 && db.units[0].status == Disponivel
    requires row.opportunity.Some? ==> WinOpportunity(db.crm, row.opportunity.value, 0, 0).Ok?
    ensures var after := Next(db, DoAcceptProposal(0, now));
            && |after.proposals| == 1 && after.proposals[0] == row.(status := Aceita, reservation := after.proposals[0].reservation)
            && |after.units| == 1 && after.units[0].development == db.units[0].development
            && (row.opportunity.Some? ==> WinOpportunity(db.crm, row.opportunity.value, 0, 0) == Ok(after.crm))
  {
  }

  /** A person and a unit. */
  function FreeUnit(): seq<Step> { [DoAddPerson(0)] + [DoCreateUnit(0, None)] }

  const FREE := EMPTY.(people := {0}, units := [Unit(0, Disponivel)])

  lemma FreeUnitReached()
    ensures Run(EMPTY, FreeUnit()) == FREE && Inv(FREE)
  {
    RunConcat(EMPTY, [DoAddPerson(0)], [DoCreateUnit(0, None)]);
    RunOne(EMPTY, DoAddPerson(0));
    RunOne(Next(EMPTY, DoAddPerson(0)), DoCreateUnit(0, None));
    RunKeeps(EMPTY, FreeUnit());
  }

  /** A run that accepts a plan of more installments than cents: by UnsplittableForever the unit is lost to it. */
  lemma UnsplittableReached(now: Time)
    ensures var db := Run(EMPTY, FreeUnit() + Accepted(None, TOO_MANY, now));
            0 < |db.proposals| && Pending(db.proposals[0]) && !PlanSplits(db.proposals[0].version)
  {
    FreeUnitReached();
    RunConcat(EMPTY, FreeUnit(), Accepted(None, TOO_MANY, now));
    AcceptedFromReady(FREE, None, TOO_MANY, now);
    var row := Run(EMPTY, FreeUnit() + Accepted(None, TOO_MANY, now)).proposals[0];
    assert !CentEach(row.version.conditions[0], row.version.price.amounts[0]);
  }

  /** A person, a unit, a pipeline and an opportunity without a development. */
  function OpenDeal(): seq<Step> {
    FreeUnit() + ([DoCreatePipeline(Some(STAGES))] + [DoOpenOpportunity(0, 0, None, None, None)])
  }

  lemma StagesValid()
    ensures ValidPipelineStages(STAGES)
  {
    assert STAGES[..2][..1] == STAGES[..1] && STAGES[..1][..0] == [];
    assert WonCount(STAGES[..1]) == 0 && LostCount(STAGES[..1]) == 0;
    assert WonCount(STAGES[..2]) == 1 && LostCount(STAGES[..2]) == 0;
  }

  const PIPED := FREE.(crm := Crm(1, StageRows(0, STAGES), [], []))

  lemma DealOpened() returns (db: Db)
    ensures db == Run(EMPTY, OpenDeal()) && Inv(db)
    ensures db == FREE.(crm := db.crm)
    ensures |db.crm.opportunities| == 1 && db.crm.opportunities[0] == Opportunity(0, 0, 0, None, None, None)
    ensures |db.crm.stages| == 3 && db.crm.stages[0].spec == STAGES[0]
  {
    FreeUnitReached();
    RunConcat(EMPTY, FreeUnit(), [DoCreatePipeline(Some(STAGES))] + [DoOpenOpportunity(0, 0, None, None, None)]);
    RunConcat(FREE, [DoCreatePipeline(Some(STAGES))], [DoOpenOpportunity(0, 0, None, None, None)]);
    RunOne(FREE, DoCreatePipeline(Some(STAGES)));
    PipelineCreated();
    RunOne(PIPED, DoOpenOpportunity(0, 0, None, None, None));
    db := Next(PIPED, DoOpenOpportunity(0, 0, None, None, None));
    OpportunityOpened();
    RunKeeps(EMPTY, OpenDeal());
  }

  lemma PipelineCreated()
    ensures Next(FREE, DoCreatePipeline(Some(STAGES))) == PIPED
  {
    StagesValid();
    assert [] + StageRows(0, STAGES) == StageRows(0, STAGES);
  }

  lemma OpportunityOpened()
    ensures var db := Next(PIPED, DoOpenOpportunity(0, 0, None, None, None));
            && db == FREE.(crm := db.crm)
            && |db.crm.opportunities| == 1 && db.crm.opportunities[0] == Opportunity(0, 0, 0, None, None, None)
            && |db.crm.stages| == 3 && db.crm.stages[0].spec == STAGES[0]
  {
    FirstOfThree();
  }

  lemma FirstOfThree()
    ensures FirstStage(StageRows(0, STAGES), 0) == Some(0)
  {
    var rows := StageRows(0, STAGES);
    assert rows[0].pipeline == 0 && rows[0].spec.position == 0 && rows[1].spec.position == 1 && rows[2].spec.position == 2;
  }

  /** A run that accepts a proposal for an opportunity without development: the conversion is refused until it is edited. */
  lemma WrongDevelopmentReached(now: Time)
    ensures var db := Run(EMPTY, OpenDeal() + Accepted(Some(0), CASH, now));
            && 0 < |db.proposals| && Pending(db.proposals[0])
            && WrongDevelopment(db, db.proposals[0]) && PlanSplits(db.proposals[0].version)
  {
    var db := DealOpened();
    RunConcat(EMPTY, OpenDeal(), Accepted(Some(0), CASH, now));
    MoveToWonKeeps(db.crm, 0, 0);
    AcceptedFromReady(db, Some(0), CASH, now);
    WinLeaves(db.crm, 0, 0, 0);
    var row := Run(EMPTY, OpenDeal() + Accepted(Some(0), CASH, now)).proposals[0];
    assert CentEach(row.version.conditions[0], row.version.price.amounts[0]);
  }
}
