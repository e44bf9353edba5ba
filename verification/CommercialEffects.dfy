/** What each call on units, reservations, proposals and sales does, on the columns: when it is accepted, and every table afterwards. */
module CommercialEffects {
  import opened Common
  import opened OpportunityStage
  import StageEffects
  import Installments
  import Pricing
  import opened Commercial
  import opened CommercialSteps
  import opened CommercialRuns
  import opened CommercialConversion

  // ------------------------------------------------------------------------------------------- units

  /** RESERVADA is never written by hand; a new unit is free unless its status is given. */
  lemma CreateUnitEffect(db: Db, development: Id, status: Option<UnitStatus>)
    ensures Call(db, DoCreateUnit(development, status)).Ok? <==> status != Some(Reservada)
    ensures Call(db, DoCreateUnit(development, status)).Ok? ==>
              var after := Call(db, DoCreateUnit(development, status)).value;
              && |after.units| == |db.units| + 1 && db.units <= after.units
              && after.units[|db.units|].development == development
              && (status.None? ==> after.units[|db.units|].status == Disponivel)
              && (status.Some? ==> after.units[|db.units|].status == status.value)
              && after == db.(units := after.units)
  {
  }

  /** A reserved unit keeps its status until what reserved it ends. */
  lemma UpdateUnitEffect(db: Db, id: Id, status: Option<UnitStatus>)
    ensures Call(db, DoUpdateUnit(id, status)).Ok? <==>
              id < |db.units| && (status.None? || (status.value != Reservada && db.units[id].status != Reservada))
    ensures Call(db, DoUpdateUnit(id, status)).Ok? ==>
              var after := Call(db, DoUpdateUnit(id, status)).value;
              && OnlyRow(db.units, after.units, id)
              && after.units[id].development == db.units[id].development
              && (status.Some? ==> after.units[id].status == status.value)
              && (status.None? ==> after.units[id].status == db.units[id].status)
              && after == db.(units := after.units)
  {
  }

  // ------------------------------------------------------------------------------------ reservations

  /** The unit is free now, or a reservation that is over holds it. */
  ghost predicate FreeAt(db: Db, unit: Id, now: Time) {
    && unit < |db.units|
    && (db.units[unit].status == Disponivel
        || exists i :: 0 <= i < |db.reservations| && db.reservations[i].unit == unit
                       && db.reservations[i].status == ReservationStatus.Ativa && db.reservations[i].expiresAt <= now)
  }

  /** The opportunity is open, of this person, and not for another development or unit. */
  predicate OpenFor(crm: Crm, id: Id, person: Id, unit: Id, development: Id) {
    && id < |crm.opportunities|
    && var o := crm.opportunities[id];
       && o.person == person
       && (o.development.Some? ==> o.development.value == development)
       && (o.unit.Some? ==> o.unit.value == unit)
       && (o.stage < |crm.stages| ==> !crm.stages[o.stage].spec.isWon && !crm.stages[o.stage].spec.isLost)
  }

  lemma CheckedOpportunity(crm: Crm, id: Id, person: Id, unit: Id, development: Id)
    ensures CheckOpportunity(crm, id, person, unit, development).Ok? <==> OpenFor(crm, id, person, unit, development)
  {
  }

  /** The reservations of a unit that are over by now become EXPIRADA, the others stay as they are. */
  ghost predicate Expires(before: seq<Reservation>, after: seq<Reservation>, unit: Id, now: Time) {
    && |before| <= |after|
    && forall i :: 0 <= i < |before| ==>
         after[i] == if before[i].unit == unit && before[i].status == ReservationStatus.Ativa && before[i].expiresAt <= now
                     then before[i].(status := ReservationStatus.Expirada) else before[i]
  }

  lemma ExpiryOf(db: Db, unit: Id, now: Time)
    requires Inv(db) && unit < |db.units|
    ensures var after := ExpireUnit(db, unit, now);
            && |after.reservations| == |db.reservations| && Expires(db.reservations, after.reservations, unit, now)
            && (after.units[unit].status == Disponivel <==> FreeAt(db, unit, now))
            && OnlyRow(db.units, after.units, unit) && after.units[unit].development == db.units[unit].development
            && after == db.(reservations := after.reservations, units := after.units)
  {
    ExpiryExact(db, unit, now);
  }

  /** Normalising a unit expires what is over and frees the unit; nothing else changes. */
  lemma NormalizeUnitEffect(db: Db, unit: Id, now: Time)
    requires Inv(db)
    ensures Call(db, DoNormalizeUnit(unit, now)).Ok? <==> unit < |db.units|
    ensures Call(db, DoNormalizeUnit(unit, now)).Ok? ==>
              var after := Call(db, DoNormalizeUnit(unit, now)).value;
              && |after.reservations| == |db.reservations| && Expires(db.reservations, after.reservations, unit, now)
              && OnlyRow(db.units, after.units, unit) && after.units[unit].development == db.units[unit].development
              && (after.units[unit].status == Disponivel <==> FreeAt(db, unit, now))
              && (after.units[unit].status != Disponivel ==> after.units[unit].status == db.units[unit].status)
              && after == db.(reservations := after.reservations, units := after.units)
  {
    if unit < |db.units| {
      ExpiryOf(db, unit, now);
    }
  }

  /** One ATIVA reservation more, and its unit is RESERVADA. */
  ghost predicate Reserves(db: Db, unit: Id, person: Id, opportunity: Option<Id>, expiresAt: Time, now: Time, after: Db) {
    && |after.reservations| == |db.reservations| + 1 && Expires(db.reservations, after.reservations, unit, now)
    && after.reservations[|db.reservations|] == Reservation(unit, person, opportunity, ReservationStatus.Ativa, expiresAt)
    && OnlyRow(db.units, after.units, unit) && after.units[unit] == db.units[unit].(status := Reservada)
    && after == db.(reservations := after.reservations, units := after.units)
  }

  /**
   * A reservation is accepted exactly for a known person, a unit that is free or held by one that is over, an end in the
   * future, and an opportunity that is open for them.
   */
  lemma CreateReservationEffect(db: Db, unit: Id, person: Id, opportunity: Option<Id>, expiresAt: Time, now: Time)
    requires Inv(db)
    ensures Call(db, DoCreateReservation(unit, person, opportunity, expiresAt, now)).Ok? <==>
              && expiresAt > now && person in db.people && FreeAt(db, unit, now)
              && (opportunity.Some? ==> OpenFor(db.crm, opportunity.value, person, unit, db.units[unit].development))
    ensures Call(db, DoCreateReservation(unit, person, opportunity, expiresAt, now)).Ok? ==>
              Reserves(db, unit, person, opportunity, expiresAt, now,
                       Call(db, DoCreateReservation(unit, person, opportunity, expiresAt, now)).value)
  {
    if unit < |db.units| {
      ExpiryOf(db, unit, now);
      if opportunity.Some? {
        CheckedOpportunity(db.crm, opportunity.value, person, unit, db.units[unit].development);
      }
    }
  }

  /** A reservation ends by hand exactly while it is ATIVA and not over. */
  predicate Endable(db: Db, id: Id, now: Time) {
    id < |db.reservations| && db.reservations[id].status == ReservationStatus.Ativa && db.reservations[id].expiresAt > now
  }

  lemma EndableExactly(db: Db, id: Id, now: Time)
    requires Inv(db) && id < |db.reservations|
    ensures var unit := db.reservations[id].unit;
            && unit < |db.units|
            && (ExpireUnit(db, unit, now).reservations[id].status == ReservationStatus.Ativa <==> Endable(db, id, now))
            && (Endable(db, id, now) ==> ExpireUnit(db, unit, now) == db && db.units[unit].status == Reservada)
  {
    var unit := db.reservations[id].unit;
    assert ReservationOk(db.reservations[id], db.units);
    ExpiryExact(db, unit, now);
    if Endable(db, id, now) {
      StillActive(db, id, now);
    }
  }

  /** Cancelling frees the unit. */
  lemma CancelReservationEffect(db: Db, id: Id, now: Time)
    requires Inv(db)
    ensures Call(db, DoCancelReservation(id, now)).Ok? <==> Endable(db, id, now)
    ensures Call(db, DoCancelReservation(id, now)).Ok? ==>
              var after, unit := Call(db, DoCancelReservation(id, now)).value, db.reservations[id].unit;
              && OnlyRow(db.reservations, after.reservations, id)
              && after.reservations[id] == db.reservations[id].(status := ReservationStatus.Cancelada)
              && OnlyRow(db.units, after.units, unit) && after.units[unit] == db.units[unit].(status := Disponivel)
              && after == db.(reservations := after.reservations, units := after.units)
  {
    if id < |db.reservations| {
      EndableExactly(db, id, now);
    }
  }

  /** Converting by hand leaves the unit RESERVADA. */
  lemma ConvertReservationEffect(db: Db, id: Id, now: Time)
    requires Inv(db)
    ensures Call(db, DoConvertReservation(id, now)).Ok? <==> Endable(db, id, now)
    ensures Call(db, DoConvertReservation(id, now)).Ok? ==>
              var after := Call(db, DoConvertReservation(id, now)).value;
              && OnlyRow(db.reservations, after.reservations, id)
              && after.reservations[id] == db.reservations[id].(status := Convertida)
              && db.units[db.reservations[id].unit].status == Reservada
              && after == db.(reservations := after.reservations)
  {
    if id < |db.reservations| {
      EndableExactly(db, id, now);
    }
  }

  // --------------------------------------------------------------------------------------- proposals

  /** What holds the unit for a proposal: its own ATIVA reservation that is not over, or nothing if it is free. */
  ghost predicate HeldFor(db: Db, reservation: Option<Id>, unit: Id, person: Id, opportunity: Option<Id>, now: Time) {
    if reservation.None? then unit < |db.units| && db.units[unit].status == Disponivel
    else
      && reservation.value < |db.reservations|
      && var r := db.reservations[reservation.value];
         && r.status == ReservationStatus.Ativa && r.expiresAt > now
         && r.unit == unit && r.person == person && r.opportunity == opportunity
  }

  lemma CheckedReservation(db: Db, reservation: Option<Id>, unit: Id, person: Id, opportunity: Option<Id>, now: Time)
    requires Inv(db) && unit < |db.units|
    ensures CheckReservation(db, reservation, unit, person, opportunity, now).Ok?
       <==> HeldFor(db, reservation, unit, person, opportunity, now)
  {
    if reservation.Some? && reservation.value < |db.reservations| {
      assert ReservationOk(db.reservations[reservation.value], db.units);
    }
  }

  /** A proposal starts as RASCUNHO in version 1, priced from the active price of the unit. */
  lemma CreateProposalEffect(db: Db, unit: Id, person: Id, opportunity: Option<Id>, reservation: Option<Id>,
                             activePrice: Option<real>, terms: Terms, now: Time)
    requires Inv(db)
    ensures Call(db, DoCreateProposal(unit, person, opportunity, reservation, activePrice, terms, now)).Ok? <==>
              && (terms.validUntil.Some? ==> terms.validUntil.value > now)
              && unit < |db.units| && person in db.people && HeldFor(db, reservation, unit, person, opportunity, now)
              && (opportunity.Some? ==> OpenFor(db.crm, opportunity.value, person, unit, db.units[unit].development))
              && activePrice.Some? && Pricing.ValidatePricing(activePrice.value, terms.discount, terms.conditions).Ok?
    ensures Call(db, DoCreateProposal(unit, person, opportunity, reservation, activePrice, terms, now)).Ok? ==>
              var after := Call(db, DoCreateProposal(unit, person, opportunity, reservation, activePrice, terms, now)).value;
              && |after.proposals| == |db.proposals| + 1 && db.proposals <= after.proposals
              && after == db.(proposals := after.proposals)
              && Pricing.ValidatePricing(activePrice.value, terms.discount, terms.conditions)
                 == Ok(after.proposals[|db.proposals|].version.price)
              && after.proposals[|db.proposals|]
                 == Proposal(unit, person, opportunity, reservation, Rascunho, false, terms.validUntil,
                             Version(1, after.proposals[|db.proposals|].version.price, terms.conditions))
  {
    if unit < |db.units| {
      CheckedReservation(db, reservation, unit, person, opportunity, now);
      if opportunity.Some? {
        CheckedOpportunity(db.crm, opportunity.value, person, unit, db.units[unit].development);
      }
    }
  }

  /** The row is changed, and nothing else. */
  ghost predicate ProposalBecomes(db: Db, id: Id, row: Proposal, after: Db) {
    OnlyRow(db.proposals, after.proposals, id) && after.proposals[id] == row && after == db.(proposals := after.proposals)
  }

  /** A new version keeps the base price; a proposal that was sent is negotiated from then on. */
  lemma CreateVersionEffect(db: Db, id: Id, terms: Terms, now: Time)
    requires id < |db.proposals|
    ensures var row := db.proposals[id];
            Call(db, DoCreateVersion(id, terms, now)).Ok? <==>
              && (terms.validUntil.Some? ==> terms.validUntil.value > now)
              && (row.status == Rascunho || row.status == Enviada || row.status == EmNegociacao)
              && Pricing.ValidatePricing(row.version.price.basePrice as real / 100.0, terms.discount, terms.conditions).Ok?
    ensures Call(db, DoCreateVersion(id, terms, now)).Ok? ==>
              var row, after := db.proposals[id], Call(db, DoCreateVersion(id, terms, now)).value;
              var price := Pricing.ValidatePricing(row.version.price.basePrice as real / 100.0, terms.discount, terms.conditions).value;
              && price.basePrice == row.version.price.basePrice
              && ProposalBecomes(db, id, row.(version := Version(row.version.number + 1, price, terms.conditions),
                                              validUntil := terms.validUntil,
                                              status := if row.status == Rascunho then Rascunho else EmNegociacao), after)
  {
    CentsKept(db.proposals[id].version.price.basePrice);
  }

  lemma CentsKept(cents: int)
    ensures Pricing.Money(cents as real / 100.0) == cents
  {
    assert cents as real / 100.0 * 100.0 == cents as real;
  }

  /** Sent: from RASCUNHO or the negotiation, while its validity is not over. */
  lemma SendProposalEffect(db: Db, id: Id, now: Time)
    requires id < |db.proposals|
    ensures var row := db.proposals[id];
            Call(db, DoSendProposal(id, now)).Ok? <==>
              (row.status == Rascunho || row.status == EmNegociacao) && (row.validUntil.Some? ==> row.validUntil.value > now)
    ensures Call(db, DoSendProposal(id, now)).Ok? ==>
              ProposalBecomes(db, id, db.proposals[id].(status := Enviada), Call(db, DoSendProposal(id, now)).value)
  {
  }

  lemma RejectProposalEffect(db: Db, id: Id)
    requires id < |db.proposals|
    ensures Call(db, DoRejectProposal(id)).Ok? <==> db.proposals[id].status == Enviada || db.proposals[id].status == EmNegociacao
    ensures Call(db, DoRejectProposal(id)).Ok? ==>
              ProposalBecomes(db, id, db.proposals[id].(status := Recusada), Call(db, DoRejectProposal(id)).value)
  {
  }

  /** Expired: sent or negotiated, and valid until a time before now. */
  lemma ExpireProposalEffect(db: Db, id: Id, now: Time)
    requires id < |db.proposals|
    ensures Call(db, DoExpireProposal(id, now)).Ok?
    ensures var row, after := db.proposals[id], Call(db, DoExpireProposal(id, now)).value;
            if (row.status == Enviada || row.status == EmNegociacao) && row.validUntil.Some? && row.validUntil.value < now
            then ProposalBecomes(db, id, row.(status := ProposalStatus.Expirada), after)
            else after == db
  {
  }

  // -------------------------------------------------------------------------------------- acceptance

  /** The reservation of an accepted proposal: its own, or a new one for a day, and CONVERTIDA either way. */
  ghost predicate HandsOver(db: Db, row: Proposal, now: Time, after: Db, used: Id) {
    if row.reservation.Some? then
      && used == row.reservation.value
      && OnlyRow(db.reservations, after.reservations, used)
      && after.reservations[used] == db.reservations[used].(status := Convertida)
      && after.units == db.units
    else
      && used == |db.reservations|
      && |after.reservations| == |db.reservations| + 1 && db.reservations <= after.reservations
      && after.reservations[used] == Reservation(row.unit, row.person, row.opportunity, Convertida, now + 24 * 60 * 60 * 1000)
      && OnlyRow(db.units, after.units, row.unit) && after.units[row.unit] == db.units[row.unit].(status := Reservada)
  }

  lemma AcceptReservationEffect(db: Db, row: Proposal, now: Time)
    requires Inv(db) && row.unit < |db.units|
    ensures AcceptReservation(db, row, now).Ok? <==> HeldFor(db, row.reservation, row.unit, row.person, row.opportunity, now)
    ensures AcceptReservation(db, row, now).Ok? ==>
              var after := AcceptReservation(db, row, now).value;
              && HandsOver(db, row, now, after, if row.reservation.Some? then row.reservation.value else |db.reservations|)
              && after == db.(reservations := after.reservations, units := after.units)
  {
    if row.reservation.Some? && row.reservation.value < |db.reservations| {
      assert ReservationOk(db.reservations[row.reservation.value], db.units);
    }
  }

  /** What an acceptance asks of the opportunity: its person, no other unit, and not lost. */
  predicate Winnable(crm: Crm, id: Id, person: Id, unit: Id) {
    && id < |crm.opportunities|
    && var o := crm.opportunities[id];
       && o.person == person && (o.unit.Some? ==> o.unit.value == unit)
       && o.stage < |crm.stages| && !crm.stages[o.stage].spec.isLost
  }

  /** The opportunity is won: it was already, or moves to the won stage of its pipeline with this unit. */
  ghost predicate WonBy(crm: Crm, id: Id, unit: Id, after: Crm) {
    && id < |crm.opportunities| && crm.opportunities[id].stage < |crm.stages|
    && if crm.stages[crm.opportunities[id].stage].spec.isWon then after == crm else StageEffects.Wins(crm, id, unit, after)
  }

  lemma WinEffect(crm: Crm, id: Id, person: Id, unit: Id)
    requires CrmInv(crm)
    ensures WinOpportunity(crm, id, person, unit).Ok? <==> Winnable(crm, id, person, unit)
    ensures WinOpportunity(crm, id, person, unit).Ok? ==> WonBy(crm, id, unit, WinOpportunity(crm, id, person, unit).value)
  {
    if id < |crm.opportunities| {
      StageEffects.WinEffect(crm, id, person, unit);
    }
  }

  /** ACEITA with its reservation, the unit RESERVADA, and the opportunity won. */
  ghost predicate Accepts(db: Db, id: Id, now: Time, after: Db) {
    && OnlyRow(db.proposals, after.proposals, id)
    && var row, accepted := db.proposals[id], after.proposals[id];
       && accepted.reservation.Some? && accepted == row.(status := Aceita, reservation := accepted.reservation)
       && HandsOver(db, row, now, after, accepted.reservation.value)
       && (if row.opportunity.Some? then WonBy(db.crm, row.opportunity.value, row.unit, after.crm) else after.crm == db.crm)
       && after == db.(proposals := after.proposals, reservations := after.reservations, units := after.units, crm := after.crm)
  }

  lemma AcceptedResult(db: Db, id: Id, now: Time)
    requires id < |db.proposals|
    requires var row := db.proposals[id]; row.unit < |db.units| && (row.reservation.Some? ==> row.reservation.value < |db.reservations|)
    ensures var row := db.proposals[id];
            var reserved := AcceptReservation(db, row, now);
            var won := if row.opportunity.Some? then WinOpportunity(db.crm, row.opportunity.value, row.person, row.unit) else Ok(db.crm);
            && (AcceptProposal(db, id, now).Ok? <==>
                  && (row.status == Enviada || row.status == EmNegociacao) && (row.validUntil.Some? ==> row.validUntil.value > now)
                  && reserved.Ok? && won.Ok?)
            && (AcceptProposal(db, id, now).Ok? ==>
                  var used := if row.reservation.Some? then row.reservation.value else |db.reservations|;
                  AcceptProposal(db, id, now).value
                  == reserved.value.(proposals := db.proposals[id := row.(status := Aceita, reservation := Some(used))], crm := won.value))
  {
  }

  /**
   * An acceptance is possible exactly for a proposal that was sent or is negotiated, while it is valid, its unit is held
   * for it or free, and its opportunity, if it has one, can be won.
   */
  lemma AcceptProposalEffect(db: Db, id: Id, now: Time)
    requires Inv(db) && id < |db.proposals|
    ensures var row := db.proposals[id];
            Call(db, DoAcceptProposal(id, now)).Ok? <==>
              && (row.status == Enviada || row.status == EmNegociacao) && (row.validUntil.Some? ==> row.validUntil.value > now)
              && HeldFor(db, row.reservation, row.unit, row.person, row.opportunity, now)
              && (row.opportunity.Some? ==> Winnable(db.crm, row.opportunity.value, row.person, row.unit))
    ensures Call(db, DoAcceptProposal(id, now)).Ok? ==> Accepts(db, id, now, Call(db, DoAcceptProposal(id, now)).value)
  {
    var row := db.proposals[id];
    assert ProposalOk(row, db.reservations, db.units);
    AcceptedResult(db, id, now);
    AcceptReservationEffect(db, row, now);
    if row.opportunity.Some? {
      WinEffect(db.crm, row.opportunity.value, row.person, row.unit);
    }
  }

  // ------------------------------------------------------------------------------------------- sales

  /** The opportunity is won by the sale: moved to the won stage, or there already, and with this unit either way. */
  ghost predicate SoldTo(crm: Crm, id: Id, unit: Id, after: Crm) {
    && id < |crm.opportunities| && crm.opportunities[id].stage < |crm.stages|
    && if crm.stages[crm.opportunities[id].stage].spec.isWon then
         && OnlyRow(crm.opportunities, after.opportunities, id)
         && after.opportunities[id] == crm.opportunities[id].(unit := Some(unit))
         && after == crm.(opportunities := after.opportunities)
       else StageEffects.Wins(crm, id, unit, after)
  }

  lemma SoldToOpportunity(crm: Crm, id: Id, person: Id, unit: Id, development: Id)
    requires CrmInv(crm) && EnsureOpportunityWon(crm, id, person, unit, development).Ok?
    ensures SoldTo(crm, id, unit, EnsureOpportunityWon(crm, id, person, unit, development).value)
  {
    StageEffects.EnsureWonEffect(crm, id, person, unit, development);
  }

  /** One sale more in ATIVA, at the prices of the version; the unit VENDIDA, the proposal converted. */
  ghost predicate Sells(db: Db, id: Id, dates: Installments.SaleTerms, rows: seq<Installments.Row>, after: Db) {
    && OnlyRow(db.proposals, after.proposals, id)
    && var row := db.proposals[id];
       && after.proposals[id] == row.(converted := true)
       && |after.sales| == |db.sales| + 1 && db.sales <= after.sales
       && after.sales[|db.sales|]
          == Sale(row.unit, id, SaleStatus.Ativa, row.version.price.basePrice, row.version.price.discount,
                  row.version.price.finalPrice, dates, rows)
       && OnlyRow(db.units, after.units, row.unit) && after.units[row.unit] == db.units[row.unit].(status := Vendida)
       && (if row.opportunity.Some? then SoldTo(db.crm, row.opportunity.value, row.unit, after.crm) else after.crm == db.crm)
       && after == db.(proposals := after.proposals, sales := after.sales, units := after.units, crm := after.crm)
  }

  lemma ConvertedResult(db: Db, id: Id, dates: Installments.SaleTerms, sold: Outcome<seq<Installments.Row>>, now: Time)
    requires id < |db.proposals| && ConvertTo(db, id, dates, sold, now).Ok?
    requires var row := db.proposals[id];
             && row.unit < |db.units| && row.reservation.Some? && row.reservation.value < |db.reservations|
             && db.reservations[row.reservation.value].status == Convertida
    requires forall s :: 0 <= s < |db.sales| ==> db.sales[s].proposal != id
    ensures var row := db.proposals[id];
            var won := if row.opportunity.Some?
              then EnsureOpportunityWon(db.crm, row.opportunity.value, row.person, row.unit, db.units[row.unit].development) else Ok(db.crm);
            && sold.Ok? && won.Ok?
            && ConvertTo(db, id, dates, sold, now).value
               == db.(crm := won.value, sales := db.sales + [NewSale(row, id, dates, sold.value)],
                      proposals := db.proposals[id := row.(converted := true)],
                      units := db.units[row.unit := db.units[row.unit].(status := Vendida)])
  {
  }

  lemma ConvertsTo(db: Db, id: Id, dates: Installments.SaleTerms, sold: Outcome<seq<Installments.Row>>, now: Time)
    requires Inv(db) && id < |db.proposals| && Pending(db.proposals[id]) && ConvertTo(db, id, dates, sold, now).Ok?
    ensures sold.Ok? && Sells(db, id, dates, sold.value, ConvertTo(db, id, dates, sold, now).value)
  {
    var row := db.proposals[id];
    PendingConvertible(db, id, now);
    ConvertedResult(db, id, dates, sold, now);
    if row.opportunity.Some? {
      SoldToOpportunity(db.crm, row.opportunity.value, row.person, row.unit, db.units[row.unit].development);
    }
  }

  lemma NotPending(db: Db, id: Id, dates: Installments.SaleTerms, sold: Outcome<seq<Installments.Row>>, now: Time)
    requires Inv(db) && id < |db.proposals| && !(db.proposals[id].status == Aceita && !db.proposals[id].converted)
    ensures ConvertTo(db, id, dates, sold, now).Ok? <==> exists s :: 0 <= s < |db.sales| && db.sales[s].proposal == id
    ensures ConvertTo(db, id, dates, sold, now).Ok? ==> ConvertTo(db, id, dates, sold, now) == Ok(db)
  {
    assert ProposalOk(db.proposals[id], db.reservations, db.units);
  }

  /**
   * A conversion of an accepted proposal not converted yet makes its sale, with the receivables of its plan; of any other
   * proposal it is accepted exactly when that one has a sale, and changes nothing.
   */
  lemma ConvertProposalEffect(db: Db, id: Id, dates: Installments.SaleTerms, now: Time)
    requires Inv(db) && id < |db.proposals|
    ensures var row := db.proposals[id];
            if row.status == Aceita && !row.converted then
              && (Call(db, DoConvertProposal(id, dates, now)).Ok? <==> Convertible(db, row))
              && (Call(db, DoConvertProposal(id, dates, now)).Ok? ==>
                    && Sold(row.version, dates).Ok?
                    && Sells(db, id, dates, Sold(row.version, dates).value, Call(db, DoConvertProposal(id, dates, now)).value))
            else
              && (Call(db, DoConvertProposal(id, dates, now)).Ok? <==> exists s :: 0 <= s < |db.sales| && db.sales[s].proposal == id)
              && (Call(db, DoConvertProposal(id, dates, now)).Ok? ==> Call(db, DoConvertProposal(id, dates, now)) == Ok(db))
  {
    var row := db.proposals[id];
    var sold := Sold(row.version, dates);
    if row.status == Aceita && !row.converted {
      ConvertsExactly(db, id, dates, now);
      if ConvertTo(db, id, dates, sold, now).Ok? {
        ConvertsTo(db, id, dates, sold, now);
      }
    } else {
      NotPending(db, id, dates, sold, now);
    }
  }

  /** A distrato is possible exactly for an ATIVA or QUITADA sale without payments; a unit that was sold is DISTRATADA with it. */
  lemma CancelSaleEffect(db: Db, sale: Id, paid: bool)
    requires Inv(db) && sale < |db.sales|
    ensures Call(db, DoCancelSale(sale, paid)).Ok? <==>
              (db.sales[sale].status == SaleStatus.Ativa || db.sales[sale].status == SaleStatus.Quitada) && !paid
    ensures Call(db, DoCancelSale(sale, paid)).Ok? ==>
              var after, unit := Call(db, DoCancelSale(sale, paid)).value, db.sales[sale].unit;
              && OnlyRow(db.sales, after.sales, sale)
              && after.sales[sale] == db.sales[sale].(status := SaleStatus.Distratada)
              && OnlyRow(db.units, after.units, unit)
              && after.units[unit].development == db.units[unit].development
              && after.units[unit].status
                 == (if db.units[unit].status == Vendida || db.units[unit].status == UnitStatus.Quitada
                     then UnitStatus.Distratada else db.units[unit].status)
              && after == db.(sales := after.sales, units := after.units)
  {
    assert SaleOk(db.sales[sale], db.proposals);
    assert ProposalOk(db.proposals[db.sales[sale].proposal], db.reservations, db.units);
  }

  /** The synchronisation writes QUITADA or ATIVA, and never over a sale that ended. */
  lemma SyncSaleEffect(db: Db, sale: Id, settled: bool)
    requires sale < |db.sales|
    ensures Call(db, DoSyncSale(sale, settled)).Ok?
    ensures var after := Call(db, DoSyncSale(sale, settled)).value;
            && OnlyRow(db.sales, after.sales, sale) && after == db.(sales := after.sales)
            && after.sales[sale] == db.sales[sale].(status := after.sales[sale].status)
            && (db.sales[sale].status == SaleStatus.Cancelada || db.sales[sale].status == SaleStatus.Distratada ==>
                  after.sales[sale].status == db.sales[sale].status)
            && (db.sales[sale].status == SaleStatus.Ativa || db.sales[sale].status == SaleStatus.Quitada ==>
                  after.sales[sale].status == if settled then SaleStatus.Quitada else SaleStatus.Ativa)
  {
  }

  // ------------------------------------------------------------------------------------ opportunities

  /** A unit an opportunity may newly choose: free, offered, without an ATIVA reservation or a sale in force. */
  ghost predicate MayChoose(db: Db, unit: Id, offered: bool) {
    && unit < |db.units| && db.units[unit].status == Disponivel && offered
    && (forall i :: 0 <= i < |db.reservations| && db.reservations[i].unit == unit ==>
          db.reservations[i].status != ReservationStatus.Ativa)
    && (forall s :: 0 <= s < |db.sales| && db.sales[s].unit == unit ==>
          db.sales[s].status != SaleStatus.Ativa && db.sales[s].status != SaleStatus.Quitada)
  }

  /** A unit and a development of its own, or none; together they name the development of the opportunity. */
  predicate Consistent(db: Db, development: Option<Id>, unit: Option<Id>) {
    unit.Some? ==> unit.value < |db.units| && (development.Some? ==> development.value == db.units[unit.value].development)
  }

  predicate TargetIs(db: Db, development: Option<Id>, unit: Option<Id>, target: Option<Id>) {
    && (unit.None? ==> target == development)
    && (unit.Some? ==> unit.value < |db.units| && target == Some(db.units[unit.value].development))
  }

  lemma SalesTargetIs(db: Db, development: Option<Id>, unit: Option<Id>)
    ensures SalesTarget(db, development, unit).Ok? <==> Consistent(db, development, unit)
    ensures SalesTarget(db, development, unit).Ok? ==> TargetIs(db, development, unit, SalesTarget(db, development, unit).value)
  {
  }

  lemma SelectableIs(db: Db, unit: Id, offered: bool)
    requires unit < |db.units|
    ensures Selectable(db, unit, offered) <==> MayChoose(db, unit, offered)
  {
    if Selectable(db, unit, offered) {
      forall i | 0 <= i < |db.reservations| && db.reservations[i].unit == unit
        ensures db.reservations[i].status != ReservationStatus.Ativa
      {
        assert !Active(db.reservations[i], unit);
      }
    }
  }

  /** A new opportunity has its person, and the unit with its development; its stage is as the stage tables say. */
  lemma OpenOpportunityEffect(db: Db, person: Id, pipeline: Id, stage: Option<Id>, development: Option<Id>, unit: Option<Id>)
    ensures Call(db, DoOpenOpportunity(person, pipeline, stage, development, unit)).Ok? <==>
              && person in db.people && Consistent(db, development, unit)
              && CreateOpportunity(db.crm, person, pipeline, stage, development, unit).Ok?
    ensures Call(db, DoOpenOpportunity(person, pipeline, stage, development, unit)).Ok? ==>
              var after := Call(db, DoOpenOpportunity(person, pipeline, stage, development, unit)).value;
              && |after.crm.opportunities| == |db.crm.opportunities| + 1 && after == db.(crm := after.crm)
              && var row := after.crm.opportunities[|db.crm.opportunities|];
                 && StageEffects.Opens(db.crm, row, after.crm)
                 && row.person == person && row.pipeline == pipeline && row.unit == unit && row.lostReason == None
                 && TargetIs(db, development, unit, row.development)
                 && (stage.Some? ==> row.stage == stage.value)
                 && row.stage < |db.crm.stages| && !db.crm.stages[row.stage].spec.isWon && !db.crm.stages[row.stage].spec.isLost
  {
    SalesTargetIs(db, development, unit);
    if CreateOpportunity(db.crm, person, pipeline, stage, development, unit).Ok? {
      StageEffects.OpenEffect(db.crm, person, pipeline, stage, development, unit);
    }
  }

  /** An edit keeps stage, pipeline and history; a unit newly chosen must be one that may be chosen. */
  lemma UpdateOpportunityEffect(db: Db, id: Id, person: Option<Id>, development: Option<Option<Id>>, unit: Option<Option<Id>>, offered: bool)
    requires id < |db.crm.opportunities|
    ensures var row := db.crm.opportunities[id];
            var newPerson := if person.Some? then person.value else row.person;
            var newUnit := if unit.Some? then unit.value else row.unit;
            var asked := if development.Some? then development.value else row.development;
            && (Call(db, DoUpdateOpportunity(id, person, development, unit, offered)).Ok? <==>
                  && newPerson in db.people && Consistent(db, asked, newUnit)
                  && (newUnit.Some? && newUnit != row.unit ==> MayChoose(db, newUnit.value, offered)))
            && (Call(db, DoUpdateOpportunity(id, person, development, unit, offered)).Ok? ==>
                  var after := Call(db, DoUpdateOpportunity(id, person, development, unit, offered)).value;
                  && OnlyRow(db.crm.opportunities, after.crm.opportunities, id)
                  && after == db.(crm := db.crm.(opportunities := after.crm.opportunities))
                  && var written := after.crm.opportunities[id];
                     && written == row.(person := newPerson, unit := newUnit, development := written.development)
                     && TargetIs(db, asked, newUnit, written.development))
  {
    var row := db.crm.opportunities[id];
    var newUnit := if unit.Some? then unit.value else row.unit;
    SalesTargetIs(db, if development.Some? then development.value else row.development, newUnit);
    if newUnit.Some? && newUnit.value < |db.units| {
      SelectableIs(db, newUnit.value, offered);
    }
  }

  /**
   * A move is accepted exactly for a stage of the pipeline of the opportunity, and into the lost stage only with a reason
   * that has a visible character; it writes the opportunity and one row of history, or nothing if it is there already.
   */
  lemma MoveOpportunityEffect(db: Db, id: Id, stage: Id, reason: Option<string>)
    requires id < |db.crm.opportunities|
    ensures Call(db, DoMoveOpportunity(id, stage, reason)).Ok? <==>
              && stage < |db.crm.stages| && db.crm.stages[stage].pipeline == db.crm.opportunities[id].pipeline
              && (stage == db.crm.opportunities[id].stage || !db.crm.stages[stage].spec.isLost || StageEffects.HasText(reason))
    ensures Call(db, DoMoveOpportunity(id, stage, reason)).Ok? ==>
              var after := Call(db, DoMoveOpportunity(id, stage, reason)).value;
              if stage == db.crm.opportunities[id].stage then after == db
              else StageEffects.Moves(db.crm, id, stage, reason, after.crm) && after == db.(crm := after.crm)
  {
    StageEffects.MoveEffect(db.crm, id, stage, reason);
  }

  /** A pipeline is created exactly with complete stages, which are appended for it in order. */
  lemma CreatePipelineEffect(db: Db, specs: seq<StageSpec>)
    ensures Call(db, DoCreatePipeline(Some(specs))).Ok? <==> StageEffects.Complete(specs)
    ensures Call(db, DoCreatePipeline(Some(specs))).Ok? ==>
              var after := Call(db, DoCreatePipeline(Some(specs))).value;
              StageEffects.Adds(db.crm, specs, after.crm) && after == db.(crm := after.crm)
  {
    PipelineCall(db, Some(specs));
    StageEffects.PipelineEffect(db.crm, specs);
    OnCrmAdds(db, specs, CreatePipeline(db.crm, Some(specs)));
  }

  lemma PipelineCall(db: Db, specs: Option<seq<StageSpec>>)
    ensures Call(db, DoCreatePipeline(specs)) == OnCrm(db, CreatePipeline(db.crm, specs))
  {
  }

  lemma OnCrmAdds(db: Db, specs: seq<StageSpec>, outcome: Outcome<Crm>)
    requires outcome.Ok? <==> StageEffects.Complete(specs)
    requires outcome.Ok? ==> StageEffects.Adds(db.crm, specs, outcome.value)
    ensures OnCrm(db, outcome).Ok? <==> StageEffects.Complete(specs)
    ensures OnCrm(db, outcome).Ok? ==>
              var after := OnCrm(db, outcome).value;
              StageEffects.Adds(db.crm, specs, after.crm) && after == db.(crm := after.crm)
  {
  }
}
