/** The commercial protocol over whole runs: safety in every reachable state, and what can never happen again. */
module CommercialRuns {
  import opened Common
  import opened Sums
  import opened OpportunityStage
  import Installments
  import Pricing
  import opened Commercial
  import opened CommercialSteps

  predicate OnReservations(step: Step) {
    step.DoNormalizeUnit? || step.DoCreateReservation? || step.DoCancelReservation? || step.DoConvertReservation?
  }

  predicate OnProposals(step: Step) {
    || step.DoCreateProposal? || step.DoCreateVersion? || step.DoSendProposal? || step.DoRejectProposal?
    || step.DoExpireProposal? || step.DoAcceptProposal? || step.DoConvertProposal?
  }

  predicate OnOpportunities(step: Step) {
    step.DoCreatePipeline? || step.DoOpenOpportunity? || step.DoMoveOpportunity? || step.DoUpdateOpportunity?
  }

  lemma ReservationStepKeeps(db: Db, step: Step)
    requires Inv(db) && OnReservations(step) && Call(db, step).Ok?
    ensures Inv(Call(db, step).value)
  {
    match step
    case DoNormalizeUnit(unit, now) => ExpireUnitKeeps(db, unit, now);
    case DoCreateReservation(unit, person, opportunity, expiresAt, now) => CreateReservationKeeps(db, unit, person, opportunity, expiresAt, now);
    case DoCancelReservation(id, now) => CancelReservationKeeps(db, id, now);
    case DoConvertReservation(id, now) => ConvertReservationKeeps(db, id, now);
  }

  lemma ProposalStepKeeps(db: Db, step: Step)
    requires Inv(db) && OnProposals(step) && Call(db, step).Ok?
    ensures Inv(Call(db, step).value)
  {
    match step
    case DoCreateProposal(unit, person, opportunity, reservation, price, terms, now) =>
      CreateProposalKeeps(db, unit, person, opportunity, reservation, price, terms, now);
    case DoCreateVersion(id, terms, now) => CreateVersionKeeps(db, id, terms, now);
    case DoSendProposal(id, now) => StatusKeeps(db, id, Enviada);
    case DoRejectProposal(id) => StatusKeeps(db, id, Recusada);
    case DoExpireProposal(id, now) =>
      if Call(db, step).value != db {
        StatusKeeps(db, id, ProposalStatus.Expirada);
      }
    case DoAcceptProposal(id, now) => AcceptProposalKeeps(db, id, now);
    case DoConvertProposal(id, dates, now) => ConvertProposalKeeps(db, id, dates, now);
  }

  lemma CrmStepKeeps(db: Db, step: Step)
    requires Inv(db) && (step.DoCreatePipeline? || step.DoMoveOpportunity?) && Call(db, step).Ok?
    ensures Inv(Call(db, step).value)
  {
    if step.DoCreatePipeline? {
      CreatePipelineKeeps(db.crm, step.specs);
    } else {
      MoveOpportunityKeeps(db.crm, step.moved, step.to, step.reason);
    }
  }

  lemma OpportunityStepKeeps(db: Db, step: Step)
    requires Inv(db) && OnOpportunities(step) && Call(db, step).Ok?
    ensures Inv(Call(db, step).value)
  {
    if step.DoOpenOpportunity? {
      OpenOpportunityKeeps(db, step.person, step.pipeline, step.stage, step.at, step.unitOf);
    } else if step.DoUpdateOpportunity? {
      UpdateOpportunityKeeps(db, step.moved, step.newPerson, step.newDevelopment, step.newUnit, step.offered);
    } else {
      CrmStepKeeps(db, step);
    }
  }

  lemma OtherStepKeeps(db: Db, step: Step)
    requires Inv(db) && !OnReservations(step) && !OnProposals(step) && !OnOpportunities(step) && Call(db, step).Ok?
    ensures Inv(Call(db, step).value)
  {
    match step
    case DoAddPerson(person) =>
    case DoCreateUnit(development, status) => CreateUnitKeeps(db, development, status);
    case DoUpdateUnit(id, status) => UnitWritten(db, id, Call(db, step).value.units[id]);
    case DoSyncSale(sale, settled) => SyncSaleKeeps(db, sale, settled);
    case DoCancelSale(sale, paid) => CancelSaleKeeps(db, sale, paid);
  }

  lemma StepKeeps(db: Db, step: Step)
    requires Inv(db)
    ensures Inv(Next(db, step))
  {
    if Call(db, step).Ok? {
      if OnReservations(step) {
        ReservationStepKeeps(db, step);
      } else if OnProposals(step) {
        ProposalStepKeeps(db, step);
      } else if OnOpportunities(step) {
        OpportunityStepKeeps(db, step);
      } else {
        OtherStepKeeps(db, step);
      }
    }
  }

  lemma {:induction false} RunKeeps(db: Db, steps: seq<Step>)
    requires Inv(db)
    ensures Inv(Run(db, steps))
  {
    if steps != [] {
      RunKeeps(db, steps[..|steps| - 1]);
      StepKeeps(Run(db, steps[..|steps| - 1]), steps[|steps| - 1]);
    }
  }

  lemma {:induction false} RunConcat(db: Db, before: seq<Step>, after: seq<Step>)
    ensures Run(db, before + after) == Run(Run(db, before), after)
  {
    if after == [] {
      assert before + after == before;
    } else {
      assert (before + after)[..|before + after| - 1] == before + after[..|after| - 1];
      RunConcat(db, before, after[..|after| - 1]);
    }
  }

  lemma RunOne(db: Db, a: Step)
    ensures Run(db, [a]) == Next(db, a)
  {
    assert [a][..0] == [];
  }

  /** In every reachable state a unit has at most one ATIVA reservation, and is then RESERVADA. */
  lemma OneReservation(steps: seq<Step>, i: Id, j: Id)
    requires var db := Run(EMPTY, steps);
             i < |db.reservations| && j < |db.reservations|
             && db.reservations[i].status == db.reservations[j].status == ReservationStatus.Ativa
             && db.reservations[i].unit == db.reservations[j].unit
    ensures var db := Run(EMPTY, steps);
            i == j && db.reservations[i].unit < |db.units| && db.units[db.reservations[i].unit].status == Reservada
  {
    RunKeeps(EMPTY, steps);
    OneActive(Run(EMPTY, steps), i, j);
    assert ReservationOk(Run(EMPTY, steps).reservations[i], Run(EMPTY, steps).units);
  }

  /** In every reachable state a unit has at most one sale in ATIVA or QUITADA, sold through a converted proposal of it. */
  lemma OneSale(steps: seq<Step>, s: Id, t: Id)
    requires var db := Run(EMPTY, steps);
             && s < |db.sales| && t < |db.sales| && db.sales[s].unit == db.sales[t].unit
             && (db.sales[s].status == SaleStatus.Ativa || db.sales[s].status == SaleStatus.Quitada)
             && (db.sales[t].status == SaleStatus.Ativa || db.sales[t].status == SaleStatus.Quitada)
    ensures var db := Run(EMPTY, steps);
            && s == t && db.sales[s].proposal < |db.proposals|
            && var p := db.proposals[db.sales[s].proposal]; p.converted && p.unit == db.sales[s].unit && p.status == Aceita
  {
    RunKeeps(EMPTY, steps);
    var db := Run(EMPTY, steps);
    assert SaleOk(db.sales[s], db.proposals);
    assert ProposalOk(db.proposals[db.sales[s].proposal], db.reservations, db.units);
  }

  /**
   * What an accepted proposal holds until its conversion, in every reachable state: no other accepted and unconverted
   * proposal has its unit, which is RESERVADA without an ATIVA reservation; its reservation is CONVERTIDA, for the same
   * unit, person and opportunity.
   */
  lemma ProtocolSafety(steps: seq<Step>, p: Id, q: Id, i: Id)
    requires var db := Run(EMPTY, steps);
             && p < |db.proposals| && db.proposals[p].status == Aceita && !db.proposals[p].converted
             && q < |db.proposals| && db.proposals[q].status == Aceita && !db.proposals[q].converted
             && db.proposals[p].unit == db.proposals[q].unit
    ensures var db := Run(EMPTY, steps);
            var row := db.proposals[p];
            && p == q && row.unit < |db.units| && db.units[row.unit].status == Reservada
            && (i < |db.reservations| && db.reservations[i].unit == row.unit ==> db.reservations[i].status != ReservationStatus.Ativa)
            && row.reservation.Some? && row.reservation.value < |db.reservations|
            && var r := db.reservations[row.reservation.value];
               r.status == Convertida && r.unit == row.unit && r.person == row.person && r.opportunity == row.opportunity
  {
    RunKeeps(EMPTY, steps);
    var db := Run(EMPTY, steps);
    assert ProposalOk(db.proposals[p], db.reservations, db.units);
    if i < |db.reservations| {
      assert !Active(db.reservations[i], db.proposals[p].unit);
    }
  }

  /**
   * The history of every opportunity is a path of stages from no origin to its current stage, and its loss reason is
   * present exactly in a lost stage, equal to the one of the last entry.
   */
  lemma StageHistoryIsPath(steps: seq<Step>, id: Id)
    requires id < |Run(EMPTY, steps).crm.opportunities|
    ensures var crm := Run(EMPTY, steps).crm;
            var row, rows := crm.opportunities[id], HistoryOf(crm.history, id);
            && IsPath(rows)
            && rows[|rows| - 1].to == row.stage < |crm.stages|
            && rows[|rows| - 1].lostReason == row.lostReason
            && (row.lostReason.Some? <==> crm.stages[row.stage].spec.isLost)
  {
    RunKeeps(EMPTY, steps);
    var crm := Run(EMPTY, steps).crm;
    assert OpportunityOk(crm.opportunities[id], HistoryOf(crm.history, id), crm.stages);
  }

  /** In every reachable state each pipeline has exactly one won and one lost stage, never the same. */
  lemma PipelinesAlwaysComplete(steps: seq<Step>, pipeline: Id)
    requires pipeline < Run(EMPTY, steps).crm.pipelines
    ensures HasWonAndLost(Run(EMPTY, steps).crm.stages, pipeline)
    ensures WonStage(Run(EMPTY, steps).crm.stages, pipeline).Some?
  {
    RunKeeps(EMPTY, steps);
    var stages := Run(EMPTY, steps).crm.stages;
    assert HasWonAndLost(stages, pipeline);
    var w: Id :| OnlyWon(stages, pipeline, w);
    assert stages[w].spec.isWon;
  }

  // -------------------------------------------------------------------------------------- conversion

  /** Converting again returns the sale there is: nothing is written twice. */
  lemma ConvertTwice(db: Db, id: Id, dates: Installments.SaleTerms, now: Time, again: Installments.SaleTerms, later: Time)
    requires Inv(db) && ConvertProposal(db, id, dates, now).Ok?
    ensures var once := ConvertProposal(db, id, dates, now).value;
            ConvertProposal(once, id, again, later) == Ok(once)
  {
    var once := ConvertProposal(db, id, dates, now).value;
    ConvertProposalKeeps(db, id, dates, now);
    assert ProposalOk(once.proposals[id], once.reservations, once.units);
    if !(exists s | 0 <= s < |db.sales| :: db.sales[s].proposal == id) {
      assert once.sales[|db.sales|].proposal == id;
    }
  }

  /** Money is conserved from the proposal to the receivables of its sale, whatever runs in between. */
  lemma SaleAmountsConserved(steps: seq<Step>, sale: Id)
    requires sale < |Run(EMPTY, steps).sales|
    ensures var s := Run(EMPTY, steps).sales[sale];
            && Sum(Installments.Amounts(s.installments)) == s.net == s.gross - s.discount
            && forall i :: 0 <= i < |s.installments| ==> 1 <= s.installments[i].amount
  {
    RunKeeps(EMPTY, steps);
    assert SaleOk(Run(EMPTY, steps).sales[sale], Run(EMPTY, steps).proposals);
  }

  // ----------------------------------------------------------------------------------------- inverse

  /** Cancelling a reservation before it expires gives the unit back as it was taken; the cancelled row stays. */
  lemma ReservationUndone(db: Db, unit: Id, person: Id, opportunity: Option<Id>, expiresAt: Time, now: Time, later: Time)
    requires Inv(db) && CreateReservation(db, unit, person, opportunity, expiresAt, now).Ok? && later < expiresAt
    ensures var created := CreateReservation(db, unit, person, opportunity, expiresAt, now).value;
            var expired := ExpireUnit(db, unit, now);
            CancelReservation(created, |db.reservations|, later)
            == Ok(expired.(reservations := expired.reservations
                             + [Reservation(unit, person, opportunity, ReservationStatus.Cancelada, expiresAt)]))
  {
    var created, expired := CreateReservation(db, unit, person, opportunity, expiresAt, now).value, ExpireUnit(db, unit, now);
    var id := |db.reservations|;
    CreateReservationKeeps(db, unit, person, opportunity, expiresAt, now);
    forall i | 0 <= i < |created.reservations|
      ensures !Due(created.reservations[i], unit, later)
    {
      if Active(created.reservations[i], unit) {
        OneActive(created, i, id);
      }
    }
    assert ExpireUnit(created, unit, later) == created;
    assert created.units[unit := created.units[unit].(status := Disponivel)] == expired.units;
    var ended := created.reservations[id].(status := ReservationStatus.Cancelada);
    assert created.reservations[id := ended] == expired.reservations + [ended];
  }

  // ----------------------------------------------------------------------------------------- history

  ghost predicate Appends(before: Crm, after: Crm) {
    before.history <= after.history && |after.history| <= |before.history| + 1
  }

  lemma ConversionAppends(db: Db, id: Id, dates: Installments.SaleTerms, sold: Outcome<seq<Installments.Row>>, now: Time)
    requires id < |db.proposals| && ConvertTo(db, id, dates, sold, now).Ok?
    ensures Appends(db.crm, ConvertTo(db, id, dates, sold, now).value.crm)
  {
  }

  lemma AcceptanceAppends(db: Db, id: Id, now: Time)
    requires AcceptProposal(db, id, now).Ok?
    ensures Appends(db.crm, AcceptProposal(db, id, now).value.crm)
  {
  }

  lemma OpportunityStepAppends(db: Db, step: Step)
    requires OnOpportunities(step) && Call(db, step).Ok?
    ensures Appends(db.crm, Call(db, step).value.crm)
  {
  }

  lemma OthersLeaveCrm(db: Db, step: Step)
    requires !OnOpportunities(step) && !step.DoAcceptProposal? && !step.DoConvertProposal? && Call(db, step).Ok?
    ensures Call(db, step).value.crm == db.crm
  {
  }

  /** A call only appends to the stage history, at most one row. */
  lemma StepAppends(db: Db, step: Step)
    ensures Appends(db.crm, Next(db, step).crm)
  {
    if Call(db, step).Ok? {
      if step.DoConvertProposal? {
        ConversionAppends(db, step.proposal, step.dates, Sold(db.proposals[step.proposal].version, step.dates), step.now);
      } else if step.DoAcceptProposal? {
        AcceptanceAppends(db, step.proposal, step.now);
      } else if OnOpportunities(step) {
        OpportunityStepAppends(db, step);
      } else {
        OthersLeaveCrm(db, step);
      }
    }
  }

  /** No later step rewrites a stage history: the losses and their reasons stay recoverable. */
  lemma {:induction false} HistoryNeverRewritten(db: Db, steps: seq<Step>)
    ensures db.crm.history <= Run(db, steps).crm.history
  {
    if steps != [] {
      HistoryNeverRewritten(db, steps[..|steps| - 1]);
      StepAppends(Run(db, steps[..|steps| - 1]), steps[|steps| - 1]);
    }
  }
}
