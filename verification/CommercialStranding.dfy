/** Units that stay RESERVADA for nobody: exactly which runs leave one, and that no later run frees it. */
module CommercialStranding {
  import opened Common
  import opened OpportunityStage
  import Installments
  import opened Commercial
  import opened CommercialSteps
  import opened CommercialRuns

  // ----------------------------------------------------------------------------------------- forever

  /** RESERVADA with nothing that could ever release or sell it: no ATIVA reservation and no pending proposal. */
  ghost predicate Stranded(db: Db, unit: Id) {
    && unit < |db.units| && db.units[unit].status == Reservada
    && NoneActive(db.reservations, unit)
    && forall p :: 0 <= p < |db.proposals| && Pending(db.proposals[p]) ==> db.proposals[p].unit != unit
  }

  /** Converting a reservation by hand strands its unit: the conversion is for a proposal that was never accepted. */
  lemma ManualConversionStrands(db: Db, id: Id, now: Time)
    requires Inv(db) && ConvertReservation(db, id, now).Ok?
    ensures Stranded(ConvertReservation(db, id, now).value, db.reservations[id].unit)
  {
  }

  lemma ReservationStepStrands(db: Db, step: Step, unit: Id)
    requires Inv(db) && Stranded(db, unit) && OnReservations(step) && Call(db, step).Ok?
    ensures Stranded(Call(db, step).value, unit)
  {
    match step
    case DoNormalizeUnit(u, now) =>
      ExpiryPassesBy(db, u, now, unit);
    case DoCreateReservation(u, person, opportunity, expiresAt, now) =>
      ExpiryPassesBy(db, u, now, unit);
    case DoCancelReservation(id, now) =>
      StillActive(db, id, now);
      assert !Active(db.reservations[id], unit);
    case DoConvertReservation(id, now) =>
      StillActive(db, id, now);
  }

  lemma ExpiryPassesBy(db: Db, u: Id, now: Time, unit: Id)
    requires Stranded(db, unit) && u < |db.units|
    ensures Stranded(ExpireUnit(db, u, now), unit)
    ensures ExpireUnit(db, u, now).units[u].status == Disponivel ==> u != unit
  {
  }

  predicate EditsProposals(step: Step) {
    OnProposals(step) && !step.DoAcceptProposal? && !step.DoConvertProposal?
  }

  /** Creating, versioning, sending, rejecting and expiring proposals leaves the pending ones and all other tables alone. */
  lemma EditsLeavePending(db: Db, step: Step)
    requires EditsProposals(step) && Call(db, step).Ok?
    ensures var after := Call(db, step).value;
            && after == db.(proposals := after.proposals) && |db.proposals| <= |after.proposals|
            && (forall p :: 0 <= p < |db.proposals| && Pending(db.proposals[p]) ==> after.proposals[p] == db.proposals[p])
            && (forall p :: 0 <= p < |after.proposals| && Pending(after.proposals[p]) ==>
                  p < |db.proposals| && Pending(db.proposals[p]) && after.proposals[p].unit == db.proposals[p].unit)
  {
  }

  lemma ConvertStrands(db: Db, id: Id, dates: Installments.SaleTerms, sold: Outcome<seq<Installments.Row>>, now: Time, unit: Id)
    requires Stranded(db, unit) && id < |db.proposals| && ConvertTo(db, id, dates, sold, now).Ok?
    ensures Stranded(ConvertTo(db, id, dates, sold, now).value, unit)
  {
  }

  lemma ProposalStepStrands(db: Db, step: Step, unit: Id)
    requires Inv(db) && Stranded(db, unit) && OnProposals(step) && Call(db, step).Ok?
    ensures Stranded(Call(db, step).value, unit)
  {
    if EditsProposals(step) {
      EditsLeavePending(db, step);
    } else if step.DoAcceptProposal? {
      AcceptStrands(db, step.proposal, step.now, unit);
    } else {
      ConvertStrands(db, step.proposal, step.dates, Sold(db.proposals[step.proposal].version, step.dates), step.now, unit);
    }
  }

  lemma AcceptStrands(db: Db, id: Id, now: Time, unit: Id)
    requires Inv(db) && Stranded(db, unit) && AcceptProposal(db, id, now).Ok?
    ensures Stranded(AcceptProposal(db, id, now).value, unit)
  {
    var row := db.proposals[id];
    if row.reservation.Some? {
      assert !Active(db.reservations[row.reservation.value], unit);
    }
    assert row.unit != unit;
  }

  lemma StepStrands(db: Db, step: Step, unit: Id)
    requires Inv(db) && Stranded(db, unit)
    ensures Stranded(Next(db, step), unit)
  {
    if Call(db, step).Ok? {
      if OnReservations(step) {
        ReservationStepStrands(db, step, unit);
      } else if OnProposals(step) {
        ProposalStepStrands(db, step, unit);
      }
    }
  }

  /**
   * A stranded unit stays RESERVADA through every later run: no reservation, acceptance, conversion, distrato or
   * manual edit moves it.
   */
  lemma {:induction false} StrandedForever(db: Db, steps: seq<Step>, unit: Id)
    requires Inv(db) && Stranded(db, unit)
    ensures Stranded(Run(db, steps), unit)
  {
    if steps != [] {
      StrandedForever(db, steps[..|steps| - 1], unit);
      RunKeeps(db, steps[..|steps| - 1]);
      StepStrands(Run(db, steps[..|steps| - 1]), steps[|steps| - 1], unit);
    }
  }

  // ------------------------------------------------------------------------------------------- cause

  /** The call converts a reservation of the unit by hand, and is accepted. */
  predicate ConvertsByHand(db: Db, step: Step, unit: Id) {
    step.DoConvertReservation? && Call(db, step).Ok? && db.reservations[step.reservation].unit == unit
  }

  /** Something can still release or sell the unit, or it is not RESERVADA. */
  ghost predicate Free(db: Db, unit: Id) { !Stranded(db, unit) }

  lemma ExpiryLeavesFree(db: Db, u: Id, now: Time, unit: Id)
    requires Inv(db) && Free(db, unit) && u < |db.units|
    ensures Free(ExpireUnit(db, u, now), unit)
  {
    ExpiryExact(db, u, now);
    var after := ExpireUnit(db, u, now);
    if unit < |db.units| && unit != u && !NoneActive(db.reservations, unit) {
      var i :| 0 <= i < |db.reservations| && Active(db.reservations[i], unit);
      assert Active(after.reservations[i], unit);
    }
    if unit == u && db.units[u].status == Reservada && !NoneActive(db.reservations, unit) {
      var i :| 0 <= i < |db.reservations| && Active(db.reservations[i], unit);
      assert Due(db.reservations[i], u, now) || Active(after.reservations[i], unit);
    }
  }

  lemma ReservationCreatedFree(db: Db, u: Id, person: Id, opportunity: Option<Id>, expiresAt: Time, now: Time, unit: Id)
    requires Inv(db) && Free(db, unit) && CreateReservation(db, u, person, opportunity, expiresAt, now).Ok?
    ensures Free(CreateReservation(db, u, person, opportunity, expiresAt, now).value, unit)
  {
    ExpiryLeavesFree(db, u, now, unit);
    var expired, after := ExpireUnit(db, u, now), CreateReservation(db, u, person, opportunity, expiresAt, now).value;
    assert Active(after.reservations[|expired.reservations|], u);
    if unit < |db.units| && !NoneActive(expired.reservations, unit) {
      var i :| 0 <= i < |expired.reservations| && Active(expired.reservations[i], unit);
      assert Active(after.reservations[i], unit);
    }
  }

  /** A reservation ends and its own unit is released, or belongs to another unit. */
  lemma ReservationEndedFree(db: Db, id: Id, status: ReservationStatus, units: seq<Unit>, unit: Id)
    requires Free(db, unit) && id < |db.reservations| && |units| == |db.units|
    requires forall u :: 0 <= u < |units| && u != db.reservations[id].unit ==> units[u] == db.units[u]
    requires db.reservations[id].unit == unit && unit < |units| ==> units[unit].status != Reservada
    ensures Free(db.(reservations := db.reservations[id := db.reservations[id].(status := status)], units := units), unit)
  {
    if unit < |db.units| && unit != db.reservations[id].unit && !NoneActive(db.reservations, unit) {
      var i :| 0 <= i < |db.reservations| && Active(db.reservations[i], unit);
      assert Active(db.reservations[id := db.reservations[id].(status := status)][i], unit);
    }
  }

  lemma ReservationStepFree(db: Db, step: Step, unit: Id)
    requires Inv(db) && Free(db, unit) && OnReservations(step) && Call(db, step).Ok? && !ConvertsByHand(db, step, unit)
    ensures Free(Call(db, step).value, unit)
  {
    match step
    case DoNormalizeUnit(u, now) => ExpiryLeavesFree(db, u, now, unit);
    case DoCreateReservation(u, person, opportunity, expiresAt, now) =>
      ReservationCreatedFree(db, u, person, opportunity, expiresAt, now, unit);
    case DoCancelReservation(id, now) =>
      StillActive(db, id, now);
      var u := db.reservations[id].unit;
      ReservationEndedFree(db, id, ReservationStatus.Cancelada, db.units[u := db.units[u].(status := Disponivel)], unit);
    case DoConvertReservation(id, now) =>
      StillActive(db, id, now);
      ReservationEndedFree(db, id, Convertida, db.units, unit);
  }

  /** A pending proposal of the unit. */
  ghost predicate HasPending(proposals: seq<Proposal>, unit: Id) {
    exists p :: 0 <= p < |proposals| && Pending(proposals[p]) && proposals[p].unit == unit
  }

  lemma PendingKept(before: seq<Proposal>, after: seq<Proposal>, unit: Id)
    requires |before| <= |after| && HasPending(before, unit)
    requires forall p :: 0 <= p < |before| && Pending(before[p]) ==> after[p] == before[p]
    ensures HasPending(after, unit)
  {
    var p :| 0 <= p < |before| && Pending(before[p]) && before[p].unit == unit;
    assert Pending(after[p]) && after[p].unit == unit;
  }

  lemma FreeByPending(db: Db, unit: Id)
    ensures HasPending(db.proposals, unit) ==> Free(db, unit)
    ensures Free(db, unit) && unit < |db.units| && db.units[unit].status == Reservada && NoneActive(db.reservations, unit) ==>
              HasPending(db.proposals, unit)
  {
  }

  /** Proposals are written, the pending ones not: units and reservations as they were. */
  lemma ProposalsWrittenFree(db: Db, proposals: seq<Proposal>, unit: Id)
    requires Free(db, unit) && |db.proposals| <= |proposals|
    requires forall p :: 0 <= p < |db.proposals| && Pending(db.proposals[p]) ==> proposals[p] == db.proposals[p]
    ensures Free(db.(proposals := proposals), unit)
  {
    if HasPending(db.proposals, unit) {
      PendingKept(db.proposals, proposals, unit);
    }
  }

  /** An acceptance takes its unit for the accepted proposal, and touches no other unit. */
  lemma AcceptFree(db: Db, id: Id, now: Time, unit: Id)
    requires Inv(db) && Free(db, unit) && AcceptProposal(db, id, now).Ok?
    ensures Free(AcceptProposal(db, id, now).value, unit)
  {
    AcceptProposalKeeps(db, id, now);
    var after := AcceptProposal(db, id, now).value;
    if unit == db.proposals[id].unit {
      assert ProposalOk(db.proposals[id], db.reservations, db.units) && Pending(after.proposals[id]);
      FreeByPending(after, unit);
    } else if HasPending(db.proposals, unit) {
      PendingKept(db.proposals, after.proposals, unit);
      FreeByPending(after, unit);
    } else if unit < |db.units| && !NoneActive(db.reservations, unit) {
      var i :| 0 <= i < |db.reservations| && Active(db.reservations[i], unit);
      assert Active(after.reservations[i], unit);
    }
  }

  lemma ConvertFree(db: Db, id: Id, dates: Installments.SaleTerms, now: Time, unit: Id)
    requires Inv(db) && Free(db, unit) && ConvertProposal(db, id, dates, now).Ok?
    ensures Free(ConvertProposal(db, id, dates, now).value, unit)
  {
    if !(exists s | 0 <= s < |db.sales| :: db.sales[s].proposal == id) && unit != db.proposals[id].unit {
      PendingConvertible(db, id, now);
      ProposalsWrittenFreeElsewhere(db, ConvertProposal(db, id, dates, now).value, id, unit);
    }
  }

  lemma ProposalsWrittenFreeElsewhere(db: Db, after: Db, id: Id, unit: Id)
    requires Free(db, unit) && id < |db.proposals| == |after.proposals| && unit != db.proposals[id].unit
    requires forall p :: 0 <= p < |db.proposals| && p != id ==> after.proposals[p] == db.proposals[p]
    requires after.reservations == db.reservations && |after.units| == |db.units| && (unit < |db.units| ==> after.units[unit] == db.units[unit])
    ensures Free(after, unit)
  {
    if HasPending(db.proposals, unit) {
      var p :| 0 <= p < |db.proposals| && Pending(db.proposals[p]) && db.proposals[p].unit == unit;
      assert Pending(after.proposals[p]) && after.proposals[p].unit == unit;
    }
  }

  lemma ProposalStepFree(db: Db, step: Step, unit: Id)
    requires Inv(db) && Free(db, unit) && OnProposals(step) && Call(db, step).Ok?
    ensures Free(Call(db, step).value, unit)
  {
    if EditsProposals(step) {
      EditsLeavePending(db, step);
      ProposalsWrittenFree(db, Call(db, step).value.proposals, unit);
    } else if step.DoAcceptProposal? {
      AcceptFree(db, step.proposal, step.now, unit);
    } else {
      ConvertFree(db, step.proposal, step.dates, step.now, unit);
    }
  }

  lemma OtherStepFree(db: Db, step: Step, unit: Id)
    requires Free(db, unit) && !OnReservations(step) && !OnProposals(step) && Call(db, step).Ok?
    ensures Free(Call(db, step).value, unit)
  {
  }

  /** No call but a conversion by hand strands a unit. */
  lemma StepFree(db: Db, step: Step, unit: Id)
    requires Inv(db) && Free(db, unit) && !ConvertsByHand(db, step, unit)
    ensures Free(Next(db, step), unit)
  {
    if Call(db, step).Ok? {
      if OnReservations(step) {
        ReservationStepFree(db, step, unit);
      } else if OnProposals(step) {
        ProposalStepFree(db, step, unit);
      } else {
        OtherStepFree(db, step, unit);
      }
    }
  }

  /** Somewhere in the run a reservation of the unit is converted by hand. */
  ghost predicate EverConvertedByHand(steps: seq<Step>, unit: Id) {
    exists k :: 0 <= k < |steps| && ConvertsByHand(Run(EMPTY, steps[..k]), steps[k], unit)
  }

  lemma StrandedByStep(db: Db, step: Step, unit: Id)
    requires Inv(db)
    ensures Stranded(Next(db, step), unit) <==> Stranded(db, unit) || ConvertsByHand(db, step, unit)
  {
    if Stranded(db, unit) {
      StepStrands(db, step, unit);
    } else if ConvertsByHand(db, step, unit) {
      ManualConversionStrands(db, step.reservation, step.now);
    } else {
      StepFree(db, step, unit);
    }
  }

  /** Which runs leave the unit RESERVADA for nobody: exactly those that convert a reservation of it by hand. */
  lemma {:induction false} StrandedExactly(steps: seq<Step>, unit: Id)
    ensures Stranded(Run(EMPTY, steps), unit) <==> EverConvertedByHand(steps, unit)
  {
    if steps != [] {
      var front, last := steps[..|steps| - 1], steps[|steps| - 1];
      StrandedExactly(front, unit);
      RunKeeps(EMPTY, front);
      EverSplit(front, last, unit);
      assert steps == front + [last];
      StrandedByStep(Run(EMPTY, front), last, unit);
    }
  }

  lemma EverSplit(front: seq<Step>, last: Step, unit: Id)
    ensures EverConvertedByHand(front + [last], unit)
       <==> EverConvertedByHand(front, unit) || ConvertsByHand(Run(EMPTY, front), last, unit)
  {
    var steps := front + [last];
    assert forall k :: 0 <= k < |front| ==> steps[..k] == front[..k] && steps[k] == front[k];
    assert steps[..|front|] == front;
    if EverConvertedByHand(front, unit) {
      var k :| 0 <= k < |front| && ConvertsByHand(Run(EMPTY, front[..k]), front[k], unit);
      assert ConvertsByHand(Run(EMPTY, steps[..k]), steps[k], unit);
    }
    if ConvertsByHand(Run(EMPTY, front), last, unit) {
      assert ConvertsByHand(Run(EMPTY, steps[..|front|]), steps[|front|], unit);
    }
  }

  predicate AcceptedByHand(db: Db, step: Step) {
    step.DoConvertReservation? && Call(db, step).Ok?
  }

  ghost predicate EverByHand(steps: seq<Step>) {
    exists k :: 0 <= k < |steps| && AcceptedByHand(Run(EMPTY, steps[..k]), steps[k])
  }

  lemma ByHandOfUnit(steps: seq<Step>) returns (unit: Id)
    requires EverByHand(steps)
    ensures EverConvertedByHand(steps, unit)
  {
    var k :| 0 <= k < |steps| && AcceptedByHand(Run(EMPTY, steps[..k]), steps[k]);
    unit := Run(EMPTY, steps[..k]).reservations[steps[k].reservation].unit;
    assert ConvertsByHand(Run(EMPTY, steps[..k]), steps[k], unit);
  }

  lemma UnitByHand(steps: seq<Step>, unit: Id)
    requires EverConvertedByHand(steps, unit)
    ensures EverByHand(steps)
  {
    var k :| 0 <= k < |steps| && ConvertsByHand(Run(EMPTY, steps[..k]), steps[k], unit);
    assert AcceptedByHand(Run(EMPTY, steps[..k]), steps[k]);
  }

  ghost predicate SomeStranded(db: Db) {
    exists unit: Id :: Stranded(db, unit)
  }

  /** A run strands some unit exactly when one of its conversions of a reservation by hand is accepted. */
  lemma SomeStrandedExactly(steps: seq<Step>)
    ensures SomeStranded(Run(EMPTY, steps)) <==> EverByHand(steps)
  {
    if EverByHand(steps) {
      var unit := ByHandOfUnit(steps);
      StrandedExactly(steps, unit);
    }
    if SomeStranded(Run(EMPTY, steps)) {
      var unit: Id :| Stranded(Run(EMPTY, steps), unit);
      StrandedExactly(steps, unit);
      UnitByHand(steps, unit);
    }
  }

  // ------------------------------------------------------------------------------------------ example

  /** A person, a unit, a reservation of it, and the conversion of that reservation by hand. */
  function ByHandRun(now: Time): seq<Step> {
    [DoAddPerson(0)] + [DoCreateUnit(0, None)] + [DoCreateReservation(0, 0, None, now + 1, now)] + [DoConvertReservation(0, now)]
  }

  lemma RunOfFour(a: Step, b: Step, c: Step, d: Step)
    ensures Run(EMPTY, [a] + [b] + [c] + [d]) == Next(Next(Next(Next(EMPTY, a), b), c), d)
  {
    RunConcat(EMPTY, [a] + [b] + [c], [d]);
    RunConcat(EMPTY, [a] + [b], [c]);
    RunConcat(EMPTY, [a], [b]);
    RunOne(EMPTY, a);
    RunOne(Next(EMPTY, a), b);
    RunOne(Next(Next(EMPTY, a), b), c);
    RunOne(Next(Next(Next(EMPTY, a), b), c), d);
  }

  lemma ReservedByThree(now: Time)
    ensures var db := Next(Next(Next(EMPTY, DoAddPerson(0)), DoCreateUnit(0, None)), DoCreateReservation(0, 0, None, now + 1, now));
            db.units == [Unit(0, Reservada)] && db.proposals == []
            && db.reservations == [Reservation(0, 0, None, ReservationStatus.Ativa, now + 1)]
  {
    var open := Next(Next(EMPTY, DoAddPerson(0)), DoCreateUnit(0, None));
    assert open == EMPTY.(people := {0}, units := [Unit(0, Disponivel)]);
  }

  /** The shortest run that strands a unit. */
  lemma ByHandStrands(now: Time)
    ensures Stranded(Run(EMPTY, ByHandRun(now)), 0)
  {
    RunOfFour(DoAddPerson(0), DoCreateUnit(0, None), DoCreateReservation(0, 0, None, now + 1, now), DoConvertReservation(0, now));
    ReservedByThree(now);
  }
}
