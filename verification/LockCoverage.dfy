/** The locks of a commercial transaction cover the rows it writes. */
module LockCoverage {
  import opened Common
  import OpportunityStage
  import Commercial
  import CommercialSteps
  import CommercialEffects
  import Installments
  import opened LockOrder

  /** The transaction a call runs in, with the rows it finds on its way; other calls lock none of the four tables first. */
  function OperationOf(db: Commercial.Db, step: Commercial.Step): Option<Operation> {
    match step
    case DoUpdateUnit(unit, _) => Some(UpdateUnit(unit))
    case DoNormalizeUnit(unit, _) => Some(NormalizeUnit(unit))
    case DoCreateReservation(unit, _, _, _, _) => Some(CreateReservation(unit))
    case DoCancelReservation(id, _) =>
      if id < |db.reservations| then Some(TransitionReservation(db.reservations[id].unit, id)) else None
    case DoConvertReservation(id, _) =>
      if id < |db.reservations| then Some(TransitionReservation(db.reservations[id].unit, id)) else None
    case DoCreateProposal(unit, _, _, source, _, _, _) => Some(CreateProposal(unit, source))
    case DoCreateVersion(id, _, _) => Some(ChangeProposal(id))
    case DoSendProposal(id, _) => Some(ChangeProposal(id))
    case DoRejectProposal(id) => Some(ChangeProposal(id))
    case DoExpireProposal(id, _) => Some(ChangeProposal(id))
    case DoAcceptProposal(id, _) =>
      if id < |db.proposals| then
        var row := db.proposals[id]; Some(AcceptProposal(row.unit, row.reservation, id, row.opportunity))
      else None
    case DoConvertProposal(id, _, _) =>
      if id < |db.proposals| then
        var row := db.proposals[id]; Some(ConvertProposal(row.unit, row.reservation, id, row.opportunity))
      else None
    case DoUpdateOpportunity(id, _, _, unit, _) => Some(UpdateOpportunity(if unit.Some? then unit.value else None, id))
    case DoMoveOpportunity(id, _, _) => Some(MoveOpportunity(id))
    case DoAddPerson(_) => None
    case DoCreateUnit(_, _) => None
    case DoSyncSale(_, _) => None
    case DoCancelSale(_, _) => None
    case DoCreatePipeline(_) => None
    case DoOpenOpportunity(_, _, _, _, _) => None
  }

  ghost predicate UnitsCovered(db: Commercial.Db, after: Commercial.Db, locks: seq<Lock>) {
    |db.units| <= |after.units|
    && forall u: nat :: u < |db.units| && after.units[u] != db.units[u] ==> Lock(UnitRow, u) in locks
  }

  /** A reservation is written under its own lock or, when it expires, under the lock of its unit. */
  ghost predicate ReservationsCovered(db: Commercial.Db, after: Commercial.Db, locks: seq<Lock>) {
    |db.reservations| <= |after.reservations|
    && forall r: nat :: r < |db.reservations| && after.reservations[r] != db.reservations[r] ==>
         Lock(ReservationRow, r) in locks || Lock(UnitRow, db.reservations[r].unit) in locks
  }

  ghost predicate ProposalsCovered(db: Commercial.Db, after: Commercial.Db, locks: seq<Lock>) {
    |db.proposals| <= |after.proposals|
    && forall p: nat :: p < |db.proposals| && after.proposals[p] != db.proposals[p] ==> Lock(ProposalRow, p) in locks
  }

  ghost predicate OpportunitiesCovered(db: Commercial.Db, after: Commercial.Db, locks: seq<Lock>) {
    |db.crm.opportunities| <= |after.crm.opportunities|
    && forall o: nat :: o < |db.crm.opportunities| && after.crm.opportunities[o] != db.crm.opportunities[o] ==>
         Lock(OpportunityRow, o) in locks
  }

  ghost predicate Covered(db: Commercial.Db, after: Commercial.Db, op: Operation) {
    && UnitsCovered(db, after, Locks(op)) && ReservationsCovered(db, after, Locks(op))
    && ProposalsCovered(db, after, Locks(op)) && OpportunitiesCovered(db, after, Locks(op))
  }

  lemma UnitCallsCovered(db: Commercial.Db, step: Commercial.Step)
    requires CommercialSteps.Inv(db) && (step.DoUpdateUnit? || step.DoNormalizeUnit?) && Commercial.Call(db, step).Ok?
    ensures Covered(db, Commercial.Call(db, step).value, OperationOf(db, step).value)
  {
    if step.DoUpdateUnit? {
      CommercialEffects.UpdateUnitEffect(db, step.unit, step.status);
    } else {
      CommercialEffects.NormalizeUnitEffect(db, step.unit, step.now);
    }
  }

  lemma ReservationCallsCovered(db: Commercial.Db, step: Commercial.Step)
    requires CommercialSteps.Inv(db) && (step.DoCreateReservation? || step.DoCancelReservation? || step.DoConvertReservation?)
    requires Commercial.Call(db, step).Ok?
    ensures OperationOf(db, step).Some? && Covered(db, Commercial.Call(db, step).value, OperationOf(db, step).value)
  {
    if step.DoCreateReservation? {
      CommercialEffects.CreateReservationEffect(db, step.unit, step.person, step.opportunity, step.expiresAt, step.now);
    } else if step.DoCancelReservation? {
      CommercialEffects.CancelReservationEffect(db, step.reservation, step.now);
    } else {
      CommercialEffects.ConvertReservationEffect(db, step.reservation, step.now);
    }
  }

  lemma ProposalCallsCovered(db: Commercial.Db, step: Commercial.Step)
    requires step.DoCreateVersion? || step.DoSendProposal? || step.DoRejectProposal? || step.DoExpireProposal?
    requires Commercial.Call(db, step).Ok?
    ensures Covered(db, Commercial.Call(db, step).value, OperationOf(db, step).value)
  {
    match step
    case DoCreateVersion(id, terms, now) => CommercialEffects.CreateVersionEffect(db, id, terms, now);
    case DoSendProposal(id, now) => CommercialEffects.SendProposalEffect(db, id, now);
    case DoRejectProposal(id) => CommercialEffects.RejectProposalEffect(db, id);
    case DoExpireProposal(id, now) => CommercialEffects.ExpireProposalEffect(db, id, now);
  }

  lemma NewProposalCovered(db: Commercial.Db, step: Commercial.Step)
    requires CommercialSteps.Inv(db) && step.DoCreateProposal? && Commercial.Call(db, step).Ok?
    ensures Covered(db, Commercial.Call(db, step).value, OperationOf(db, step).value)
  {
    CommercialEffects.CreateProposalEffect(db, step.unit, step.person, step.opportunity, step.source, step.activePrice, step.terms, step.now);
  }

  /** The locks of an acceptance and of a conversion: the unit, the reservation, the proposal, the opportunity. */
  lemma FourLocks(op: Operation, row: Commercial.Proposal, id: Id)
    requires || op == AcceptProposal(row.unit, row.reservation, id, row.opportunity)
             || op == ConvertProposal(row.unit, row.reservation, id, row.opportunity)
    ensures Lock(UnitRow, row.unit) in Locks(op) && Lock(ProposalRow, id) in Locks(op)
    ensures row.reservation.Some? ==> Lock(ReservationRow, row.reservation.value) in Locks(op)
    ensures row.opportunity.Some? ==> Lock(OpportunityRow, row.opportunity.value) in Locks(op)
  {
  }

  lemma AcceptanceCovered(db: Commercial.Db, id: Id, now: int)
    requires CommercialSteps.Inv(db) && Commercial.Call(db, Commercial.DoAcceptProposal(id, now)).Ok?
    ensures id < |db.proposals|
    ensures var row := db.proposals[id];
            Covered(db, Commercial.Call(db, Commercial.DoAcceptProposal(id, now)).value,
                    AcceptProposal(row.unit, row.reservation, id, row.opportunity))
  {
    CommercialEffects.AcceptProposalEffect(db, id, now);
    var row := db.proposals[id];
    var op := AcceptProposal(row.unit, row.reservation, id, row.opportunity);
    FourLocks(op, row, id);
    AcceptsCovered(db, id, now, Commercial.Call(db, Commercial.DoAcceptProposal(id, now)).value, op);
  }

  lemma AcceptsCovered(db: Commercial.Db, id: Id, now: int, after: Commercial.Db, op: Operation)
    requires CommercialEffects.Accepts(db, id, now, after)
    requires var row := db.proposals[id];
             && Lock(UnitRow, row.unit) in Locks(op) && Lock(ProposalRow, id) in Locks(op)
             && (row.reservation.Some? ==> Lock(ReservationRow, row.reservation.value) in Locks(op))
             && (row.opportunity.Some? ==> Lock(OpportunityRow, row.opportunity.value) in Locks(op))
    ensures Covered(db, after, op)
  {
  }

  lemma SellsCovered(db: Commercial.Db, id: Id, dates: Installments.SaleTerms, rows: seq<Installments.Row>, after: Commercial.Db, op: Operation)
    requires CommercialEffects.Sells(db, id, dates, rows, after)
    requires var row := db.proposals[id];
             && Lock(UnitRow, row.unit) in Locks(op) && Lock(ProposalRow, id) in Locks(op)
             && (row.opportunity.Some? ==> Lock(OpportunityRow, row.opportunity.value) in Locks(op))
    ensures Covered(db, after, op)
  {
  }

  lemma ConversionCovered(db: Commercial.Db, id: Id, dates: Installments.SaleTerms, now: int)
    requires CommercialSteps.Inv(db) && Commercial.Call(db, Commercial.DoConvertProposal(id, dates, now)).Ok?
    ensures id < |db.proposals|
    ensures var row := db.proposals[id];
            Covered(db, Commercial.Call(db, Commercial.DoConvertProposal(id, dates, now)).value,
                    ConvertProposal(row.unit, row.reservation, id, row.opportunity))
  {
    CommercialEffects.ConvertProposalEffect(db, id, dates, now);
    var row, after := db.proposals[id], Commercial.Call(db, Commercial.DoConvertProposal(id, dates, now)).value;
    var op := ConvertProposal(row.unit, row.reservation, id, row.opportunity);
    FourLocks(op, row, id);
    if row.status == Commercial.Aceita && !row.converted {
      SellsCovered(db, id, dates, Commercial.Sold(row.version, dates).value, after, op);
    }
  }

  lemma OpportunityCallsCovered(db: Commercial.Db, step: Commercial.Step)
    requires (step.DoUpdateOpportunity? || step.DoMoveOpportunity?) && Commercial.Call(db, step).Ok?
    ensures Covered(db, Commercial.Call(db, step).value, OperationOf(db, step).value)
  {
    if step.DoUpdateOpportunity? {
      CommercialEffects.UpdateOpportunityEffect(db, step.moved, step.newPerson, step.newDevelopment, step.newUnit, step.offered);
    } else {
      CommercialEffects.MoveOpportunityEffect(db, step.moved, step.to, step.reason);
    }
  }

  /** Every row of the four tables that an accepted call changes is one its transaction has locked before. */
  lemma WritesAreLocked(db: Commercial.Db, step: Commercial.Step)
    requires CommercialSteps.Inv(db) && Commercial.Call(db, step).Ok? && OperationOf(db, step).Some?
    ensures Covered(db, Commercial.Call(db, step).value, OperationOf(db, step).value)
  {
    if step.DoUpdateUnit? || step.DoNormalizeUnit? {
      UnitCallsCovered(db, step);
    } else if step.DoCreateReservation? || step.DoCancelReservation? || step.DoConvertReservation? {
      ReservationCallsCovered(db, step);
    } else if step.DoCreateProposal? {
      NewProposalCovered(db, step);
    } else if step.DoAcceptProposal? {
      AcceptanceCovered(db, step.proposal, step.now);
    } else if step.DoConvertProposal? {
      ConversionCovered(db, step.proposal, step.dates, step.now);
    } else if step.DoUpdateOpportunity? || step.DoMoveOpportunity? {
      OpportunityCallsCovered(db, step);
    } else {
      ProposalCallsCovered(db, step);
    }
  }
}
