/** The invariant of the commercial protocol, which no single service states, and that every transaction keeps it. */
module CommercialSteps {
  import opened Common
  import opened Sums
  import opened OpportunityStage
  import Installments
  import Pricing
  import opened Commercial

  // --------------------------------------------------------------------------------------- invariant

  /** A unit has at most one ATIVA reservation, and is RESERVADA while it has one. */
  ghost predicate ReservationsOk(reservations: seq<Reservation>, units: seq<Unit>) {
    && (forall i :: 0 <= i < |reservations| ==> ReservationOk(reservations[i], units))
    && (forall i, j :: 0 <= i < j < |reservations| && reservations[i].status == reservations[j].status == ReservationStatus.Ativa ==>
          reservations[i].unit != reservations[j].unit)
  }

  predicate ReservationOk(r: Reservation, units: seq<Unit>) {
    r.unit < |units| && (r.status == ReservationStatus.Ativa ==> units[r.unit].status == Reservada)
  }

  /** Accepted and not yet converted into a sale. */
  predicate Pending(p: Proposal) { p.status == Aceita && !p.converted }

  ghost predicate NoneActive(reservations: seq<Reservation>, unit: Id) {
    forall i :: 0 <= i < |reservations| ==> !Active(reservations[i], unit)
  }

  /** The reservation of an accepted proposal: CONVERTIDA, for the same unit, person and opportunity. */
  predicate Handoff(p: Proposal, reservations: seq<Reservation>) {
    && p.reservation.Some? && p.reservation.value < |reservations|
    && var r := reservations[p.reservation.value];
       r.status == Convertida && r.unit == p.unit && r.person == p.person && r.opportunity == p.opportunity
  }

  /** A unit of a pending proposal is RESERVADA for it alone. */
  ghost predicate ProposalOk(p: Proposal, reservations: seq<Reservation>, units: seq<Unit>) {
    && p.unit < |units|
    && (p.reservation.Some? ==> p.reservation.value < |reservations|)
    && (p.converted ==> p.status == Aceita)
    && (Pending(p) ==> units[p.unit].status == Reservada && NoneActive(reservations, p.unit) && Handoff(p, reservations))
  }

  ghost predicate OnePending(proposals: seq<Proposal>) {
    forall i, j :: 0 <= i < j < |proposals| && Pending(proposals[i]) && Pending(proposals[j]) ==> proposals[i].unit != proposals[j].unit
  }

  ghost predicate ProposalsOk(proposals: seq<Proposal>, reservations: seq<Reservation>, units: seq<Unit>) {
    (forall i :: 0 <= i < |proposals| ==> ProposalOk(proposals[i], reservations, units)) && OnePending(proposals)
  }

  /** What the pricing rules leave in a version. */
  ghost predicate VersionOk(v: Version) {
    && |v.price.amounts| == |v.conditions|
    && Sum(v.price.amounts) == v.price.finalPrice == v.price.basePrice - v.price.discount
    && 0 <= v.price.discount <= v.price.basePrice
  }

  ghost predicate VersionsOk(proposals: seq<Proposal>) {
    forall i :: 0 <= i < |proposals| ==> VersionOk(proposals[i].version)
  }

  /** The amounts of a sale: its receivables sum to the net amount, each at least one cent. */
  ghost predicate AmountsOk(s: Sale) {
    && s.net == s.gross - s.discount && 0 <= s.discount <= s.gross
    && Sum(Installments.Amounts(s.installments)) == s.net
    && forall i :: 0 <= i < |s.installments| ==> 1 <= s.installments[i].amount
  }

  /** A sale belongs to a converted proposal of its unit. */
  ghost predicate SaleOk(s: Sale, proposals: seq<Proposal>) {
    s.proposal < |proposals| && proposals[s.proposal].converted && proposals[s.proposal].unit == s.unit && AmountsOk(s)
  }

  /** A unit has at most one sale in ATIVA or QUITADA, and a proposal at most one sale. */
  ghost predicate SalesOk(sales: seq<Sale>, proposals: seq<Proposal>) {
    && (forall s :: 0 <= s < |sales| ==> SaleOk(sales[s], proposals))
    && (forall s, t :: 0 <= s < t < |sales| ==> sales[s].proposal != sales[t].proposal)
    && (forall s, t :: 0 <= s < t < |sales| && InForce(sales[s].status) && InForce(sales[t].status) ==> sales[s].unit != sales[t].unit)
  }

  ghost predicate Inv(db: Db) {
    && ReservationsOk(db.reservations, db.units)
    && ProposalsOk(db.proposals, db.reservations, db.units)
    && VersionsOk(db.proposals)
    && SalesOk(db.sales, db.proposals)
    && CrmInv(db.crm)
  }

  // ------------------------------------------------------------------------------------------- units

  /** A unit that nothing holds may change to any status but by a reservation. */
  lemma UnitWritten(db: Db, id: Id, row: Unit)
    requires Inv(db) && id < |db.units|
    requires row.status == db.units[id].status || db.units[id].status != Reservada
    ensures Inv(db.(units := db.units[id := row]))
  {
  }

  lemma CreateUnitKeeps(db: Db, development: Id, status: Option<UnitStatus>)
    requires Inv(db) && CreateUnit(db, development, status).Ok?
    ensures Inv(CreateUnit(db, development, status).value)
  {
  }

  // ------------------------------------------------------------------------------------ reservations

  /** A unit with an ATIVA reservation has no pending proposal. */
  lemma HeldNotPending(db: Db, i: Id, p: Id)
    requires Inv(db) && i < |db.reservations| && db.reservations[i].status == ReservationStatus.Ativa
    requires p < |db.proposals| && Pending(db.proposals[p])
    ensures db.proposals[p].unit != db.reservations[i].unit
  {
  }

  /** The reservations of a unit end: none is ATIVA any more, the others are as they were, the unit is free or not. */
  lemma UnitReleased(db: Db, unit: Id, reservations: seq<Reservation>, units: seq<Unit>)
    requires Inv(db) && unit < |db.units| && |reservations| == |db.reservations|
    requires exists i :: 0 <= i < |db.reservations| && Active(db.reservations[i], unit)
    requires forall i :: 0 <= i < |reservations| ==>
               if Active(db.reservations[i], unit)
               then reservations[i].status != ReservationStatus.Ativa && reservations[i].unit == unit
               else reservations[i] == db.reservations[i]
    requires |units| == |db.units| && forall u :: 0 <= u < |units| && u != unit ==> units[u] == db.units[u]
    ensures Inv(db.(reservations := reservations, units := units))
  {
  }

  /** Two ATIVA reservations of a unit are the same one. */
  lemma OneActive(db: Db, i: Id, j: Id)
    requires ReservationsOk(db.reservations, db.units) && i < |db.reservations| && j < |db.reservations|
    requires db.reservations[i].status == db.reservations[j].status == ReservationStatus.Ativa
    requires db.reservations[i].unit == db.reservations[j].unit
    ensures i == j
  {
  }

  lemma ExpireUnitKeeps(db: Db, unit: Id, now: Time)
    requires Inv(db) && unit < |db.units|
    ensures Inv(ExpireUnit(db, unit, now)) && |ExpireUnit(db, unit, now).units| == |db.units|
  {
    if d :| 0 <= d < |db.reservations| && Due(db.reservations[d], unit, now) {
      forall i | 0 <= i < |db.reservations| && Active(db.reservations[i], unit)
        ensures i == d
      {
        OneActive(db, i, d);
      }
      UnitReleased(db, unit, ExpiredRows(db.reservations, unit, now), Released(db.units, unit));
    }
  }

  /**
   * What an expiry does: exactly the due reservations of the unit become EXPIRADA, afterwards none is due, and the unit
   * is free exactly when it was free before or one of them held it.
   */
  lemma ExpiryExact(db: Db, unit: Id, now: Time)
    requires Inv(db) && unit < |db.units|
    ensures var after := ExpireUnit(db, unit, now);
            && |after.reservations| == |db.reservations|
            && (forall i :: 0 <= i < |db.reservations| ==>
                  var r := db.reservations[i];
                  after.reservations[i] == if r.unit == unit && r.status == ReservationStatus.Ativa && r.expiresAt <= now
                                           then r.(status := ReservationStatus.Expirada) else r)
            && (after.units[unit].status == Disponivel
                <==> db.units[unit].status == Disponivel
                     || exists i :: 0 <= i < |db.reservations| && db.reservations[i].unit == unit
                                    && db.reservations[i].status == ReservationStatus.Ativa && db.reservations[i].expiresAt <= now)
            && (forall u :: 0 <= u < |db.units| && u != unit ==> after.units[u] == db.units[u])
            && after == db.(reservations := after.reservations, units := after.units)
  {
    if d :| 0 <= d < |db.reservations| && Due(db.reservations[d], unit, now) {
      assert ReservationOk(db.reservations[d], db.units);
    }
  }

  /** A reservation that is still ATIVA after the expiry of its unit means that nothing expired. */
  lemma StillActive(db: Db, id: Id, now: Time)
    requires Inv(db) && id < |db.reservations| && db.reservations[id].unit < |db.units|
    requires ExpireUnit(db, db.reservations[id].unit, now).reservations[id].status == ReservationStatus.Ativa
    ensures ExpireUnit(db, db.reservations[id].unit, now) == db
    ensures db.units[db.reservations[id].unit].status == Reservada
  {
  }

  lemma FreeUnit(db: Db, unit: Id)
    requires Inv(db) && unit < |db.units| && db.units[unit].status != Reservada
    ensures NoneActive(db.reservations, unit)
    ensures forall p :: 0 <= p < |db.proposals| && Pending(db.proposals[p]) ==> db.proposals[p].unit != unit
  {
  }

  /** A free unit becomes RESERVADA with a new reservation, ATIVA or already CONVERTIDA. */
  lemma UnitTaken(db: Db, unit: Id, r: Reservation)
    requires Inv(db) && unit < |db.units| && db.units[unit].status != Reservada && r.unit == unit
    ensures Inv(db.(reservations := db.reservations + [r], units := db.units[unit := db.units[unit].(status := Reservada)]))
  {
  }

  lemma CreateReservationKeeps(db: Db, unit: Id, person: Id, opportunity: Option<Id>, expiresAt: Time, now: Time)
    requires Inv(db) && CreateReservation(db, unit, person, opportunity, expiresAt, now).Ok?
    ensures Inv(CreateReservation(db, unit, person, opportunity, expiresAt, now).value)
  {
    ExpireUnitKeeps(db, unit, now);
    UnitTaken(ExpireUnit(db, unit, now), unit, Reservation(unit, person, opportunity, ReservationStatus.Ativa, expiresAt));
  }

  /** An ATIVA reservation ends, whatever becomes of its unit. */
  lemma ReservationEnded(db: Db, id: Id, status: ReservationStatus, units: seq<Unit>)
    requires Inv(db) && id < |db.reservations| && db.reservations[id].status == ReservationStatus.Ativa
    requires status != ReservationStatus.Ativa
    requires |units| == |db.units| && forall u :: 0 <= u < |units| && u != db.reservations[id].unit ==> units[u] == db.units[u]
    ensures Inv(db.(reservations := db.reservations[id := db.reservations[id].(status := status)], units := units))
  {
  }

  lemma CancelReservationKeeps(db: Db, id: Id, now: Time)
    requires Inv(db) && CancelReservation(db, id, now).Ok?
    ensures Inv(CancelReservation(db, id, now).value)
  {
    var unit := db.reservations[id].unit;
    StillActive(db, id, now);
    ReservationEnded(db, id, ReservationStatus.Cancelada, db.units[unit := db.units[unit].(status := Disponivel)]);
  }

  lemma ConvertReservationKeeps(db: Db, id: Id, now: Time)
    requires Inv(db) && ConvertReservation(db, id, now).Ok?
    ensures Inv(ConvertReservation(db, id, now).value)
  {
    StillActive(db, id, now);
    ReservationEnded(db, id, Convertida, db.units);
  }

  // --------------------------------------------------------------------------------------- proposals

  lemma PricingLeavesVersion(base: real, terms: Terms, number: nat)
    requires Pricing.ValidatePricing(base, terms.discount, terms.conditions).Ok?
    ensures VersionOk(Version(number, Pricing.ValidatePricing(base, terms.discount, terms.conditions).value, terms.conditions))
  {
  }

  /** A proposal row that is not accepted and does not become accepted. */
  lemma ProposalWritten(db: Db, id: Id, row: Proposal)
    requires Inv(db) && id < |db.proposals| && db.proposals[id].status != Aceita && row.status != Aceita
    requires row.unit == db.proposals[id].unit && row.reservation == db.proposals[id].reservation && !row.converted
    requires VersionOk(row.version)
    ensures Inv(db.(proposals := db.proposals[id := row]))
  {
  }

  lemma ProposalAdded(db: Db, row: Proposal)
    requires Inv(db) && row.status != Aceita && !row.converted && row.unit < |db.units|
    requires row.reservation.Some? ==> row.reservation.value < |db.reservations|
    requires VersionOk(row.version)
    ensures Inv(db.(proposals := db.proposals + [row]))
  {
  }

  lemma CreateProposalKeeps(db: Db, unit: Id, person: Id, opportunity: Option<Id>, reservation: Option<Id>,
                            activePrice: Option<real>, terms: Terms, now: Time)
    requires Inv(db) && CreateProposal(db, unit, person, opportunity, reservation, activePrice, terms, now).Ok?
    ensures Inv(CreateProposal(db, unit, person, opportunity, reservation, activePrice, terms, now).value)
  {
    PricingLeavesVersion(activePrice.value, terms, 1);
    var after := CreateProposal(db, unit, person, opportunity, reservation, activePrice, terms, now).value;
    ProposalAdded(db, after.proposals[|db.proposals|]);
  }

  lemma CreateVersionKeeps(db: Db, id: Id, terms: Terms, now: Time)
    requires Inv(db) && CreateVersion(db, id, terms, now).Ok?
    ensures Inv(CreateVersion(db, id, terms, now).value)
  {
    var row := db.proposals[id];
    assert ProposalOk(row, db.reservations, db.units);
    PricingLeavesVersion(row.version.price.basePrice as real / 100.0, terms, row.version.number + 1);
    ProposalWritten(db, id, CreateVersion(db, id, terms, now).value.proposals[id]);
  }

  lemma StatusKeeps(db: Db, id: Id, status: ProposalStatus)
    requires Inv(db) && id < |db.proposals| && db.proposals[id].status != Aceita && status != Aceita
    ensures Inv(db.(proposals := db.proposals[id := db.proposals[id].(status := status)]))
  {
  }

  /** The acceptance: its unit and reservation are in order, and no other pending proposal has the unit. */
  lemma ProposalAccepted(db: Db, id: Id, row: Proposal, crm: Crm)
    requires Inv(db) && id < |db.proposals| && db.proposals[id].status != Aceita && CrmInv(crm)
    requires row.status == Aceita && row.unit == db.proposals[id].unit && row.version == db.proposals[id].version
    requires ProposalOk(row, db.reservations, db.units)
    requires forall p :: 0 <= p < |db.proposals| && Pending(db.proposals[p]) ==> db.proposals[p].unit != row.unit
    ensures Inv(db.(proposals := db.proposals[id := row], crm := crm))
  {
  }

  lemma AcceptWithReservation(db: Db, id: Id, now: Time, crm: Crm)
    requires Inv(db) && id < |db.proposals| && db.proposals[id].status != Aceita && CrmInv(crm)
    requires var row := db.proposals[id]; row.reservation.Some? && row.unit < |db.units| && AcceptReservation(db, row, now).Ok?
    ensures var row := db.proposals[id];
            Inv(AcceptReservation(db, row, now).value.(proposals := db.proposals[id := row.(status := Aceita)], crm := crm))
  {
    var row := db.proposals[id];
    var r := row.reservation.value;
    assert ProposalOk(row, db.reservations, db.units);
    var reserved := AcceptReservation(db, row, now).value;
    ReservationEnded(db, r, Convertida, db.units);
    forall p | 0 <= p < |db.proposals| && Pending(db.proposals[p])
      ensures db.proposals[p].unit != row.unit
    {
      HeldNotPending(db, r, p);
    }
    forall i | 0 <= i < |db.reservations|
      ensures !Active(reserved.reservations[i], row.unit)
    {
      if Active(db.reservations[i], row.unit) {
        OneActive(db, i, r);
      }
    }
    ProposalAccepted(reserved, id, row.(status := Aceita), crm);
  }

  lemma AcceptWithoutReservation(db: Db, id: Id, now: Time, crm: Crm)
    requires Inv(db) && id < |db.proposals| && db.proposals[id].status != Aceita && CrmInv(crm)
    requires var row := db.proposals[id]; row.reservation.None? && row.unit < |db.units| && AcceptReservation(db, row, now).Ok?
    ensures var row := db.proposals[id];
            Inv(AcceptReservation(db, row, now).value.(proposals := db.proposals[id := row.(status := Aceita, reservation := Some(|db.reservations|))], crm := crm))
  {
    var row := db.proposals[id];
    assert ProposalOk(row, db.reservations, db.units);
    var reserved := AcceptReservation(db, row, now).value;
    UnitTaken(db, row.unit, Reservation(row.unit, row.person, row.opportunity, Convertida, now + 86400000));
    FreeUnit(db, row.unit);
    forall i | 0 <= i < |reserved.reservations|
      ensures !Active(reserved.reservations[i], row.unit)
    {
      if i < |db.reservations| {
        assert !Active(db.reservations[i], row.unit);
      }
    }
    ProposalAccepted(reserved, id, row.(status := Aceita, reservation := Some(|db.reservations|)), crm);
  }

  lemma AcceptProposalKeeps(db: Db, id: Id, now: Time)
    requires Inv(db) && AcceptProposal(db, id, now).Ok?
    ensures Inv(AcceptProposal(db, id, now).value)
  {
    var row := db.proposals[id];
    if row.opportunity.Some? {
      WinOpportunityKeeps(db.crm, row.opportunity.value, row.person, row.unit);
    }
    var crm := AcceptProposal(db, id, now).value.crm;
    if row.reservation.Some? {
      AcceptWithReservation(db, id, now, crm);
    } else {
      AcceptWithoutReservation(db, id, now, crm);
    }
  }

  // ------------------------------------------------------------------------------------------- sales

  /** The receivables of a version in order sum to its final price. */
  lemma SoldConserves(version: Version, dates: Installments.SaleTerms)
    requires VersionOk(version) && Sold(version, dates).Ok?
    ensures var rows := Sold(version, dates).value;
            Sum(Installments.Amounts(rows)) == version.price.finalPrice
            && forall i :: 0 <= i < |rows| ==> 1 <= rows[i].amount
  {
    var plans := Pricing.PlansOf(version.conditions, version.price.amounts, 0);
    Installments.GenerateConserves(plans, Installments.SaleSchedule(dates));
    assert Installments.Totals(plans) == version.price.amounts;
  }

  /**
   * For a pending proposal the checks on its unit and its reservation always pass, and the reservation is already
   * CONVERTIDA: the branch that would convert an ATIVA one is never taken.
   */
  lemma PendingConvertible(db: Db, id: Id, now: Time)
    requires Inv(db) && id < |db.proposals| && Pending(db.proposals[id])
    ensures var row := db.proposals[id];
            && row.unit < |db.units| && db.units[row.unit].status == Reservada
            && row.reservation.Some? && row.reservation.value < |db.reservations|
            && db.reservations[row.reservation.value].status == Convertida
            && ReservationConvertible(db.reservations[row.reservation.value], row, now)
            && forall s :: 0 <= s < |db.sales| ==> db.sales[s].proposal != id
  {
  }

  lemma Converted(db: Db, id: Id, crm: Crm, sale: Sale)
    requires Inv(db) && id < |db.proposals| && Pending(db.proposals[id]) && CrmInv(crm)
    requires sale.unit == db.proposals[id].unit && sale.proposal == id && AmountsOk(sale)
    requires db.proposals[id].unit < |db.units|
    requires forall s :: 0 <= s < |db.sales| ==> db.sales[s].proposal != id
    requires forall s :: 0 <= s < |db.sales| && InForce(db.sales[s].status) ==> db.sales[s].unit != sale.unit
    ensures Inv(db.(crm := crm, sales := db.sales + [sale], proposals := db.proposals[id := db.proposals[id].(converted := true)],
                    units := db.units[sale.unit := db.units[sale.unit].(status := Vendida)]))
  {
    var row := db.proposals[id];
    var proposals := db.proposals[id := row.(converted := true)];
    var units := db.units[sale.unit := db.units[sale.unit].(status := Vendida)];
    assert ProposalOk(row, db.reservations, db.units);
    forall i | 0 <= i < |db.reservations|
      ensures ReservationOk(db.reservations[i], units)
    {
      assert ReservationOk(db.reservations[i], db.units) && !Active(db.reservations[i], row.unit);
    }
    forall p | 0 <= p < |proposals|
      ensures ProposalOk(proposals[p], db.reservations, units)
    {
      assert ProposalOk(db.proposals[p], db.reservations, db.units);
    }
    forall s | 0 <= s < |db.sales|
      ensures SaleOk(db.sales[s], proposals)
    {
      assert SaleOk(db.sales[s], db.proposals);
    }
  }

  lemma ConvertProposalKeeps(db: Db, id: Id, dates: Installments.SaleTerms, now: Time)
    requires Inv(db) && ConvertProposal(db, id, dates, now).Ok?
    ensures Inv(ConvertProposal(db, id, dates, now).value)
  {
    var row := db.proposals[id];
    if !(exists s | 0 <= s < |db.sales| :: db.sales[s].proposal == id) {
      PendingConvertible(db, id, now);
      SoldConserves(row.version, dates);
      if row.opportunity.Some? {
        EnsureOpportunityWonKeeps(db.crm, row.opportunity.value, row.person, row.unit, db.units[row.unit].development);
      }
      Converted(db, id, ConvertProposal(db, id, dates, now).value.crm, NewSale(row, id, dates, Sold(row.version, dates).value));
    }
  }

  lemma SyncSaleKeeps(db: Db, sale: Id, settled: bool)
    requires Inv(db) && SyncSale(db, sale, settled).Ok?
    ensures Inv(SyncSale(db, sale, settled).value)
  {
    assert SaleOk(db.sales[sale], db.proposals);
  }

  lemma CancelSaleKeeps(db: Db, sale: Id, paid: bool)
    requires Inv(db) && CancelSale(db, sale, paid).Ok?
    ensures Inv(CancelSale(db, sale, paid).value)
  {
    assert SaleOk(db.sales[sale], db.proposals);
    var closed := db.(sales := db.sales[sale := db.sales[sale].(status := SaleStatus.Distratada)]);
    var unit := db.sales[sale].unit;
    if unit < |db.units| && db.units[unit].status != Reservada {
      UnitWritten(closed, unit, db.units[unit].(status := UnitStatus.Distratada));
    }
  }

  // ------------------------------------------------------------------------------------ opportunities

  lemma OpenOpportunityKeeps(db: Db, person: Id, pipeline: Id, stage: Option<Id>, development: Option<Id>, unit: Option<Id>)
    requires Inv(db) && OpenOpportunity(db, person, pipeline, stage, development, unit).Ok?
    ensures Inv(OpenOpportunity(db, person, pipeline, stage, development, unit).value)
  {
    CreateOpportunityKeeps(db.crm, person, pipeline, stage, development, unit);
    var crm := CreateOpportunity(db.crm, person, pipeline, stage, development, unit).value;
    OtherColumnsKeep(crm, |db.crm.opportunities|,
                     OpenOpportunity(db, person, pipeline, stage, development, unit).value.crm.opportunities[|db.crm.opportunities|]);
  }

  lemma UpdateOpportunityKeeps(db: Db, id: Id, person: Option<Id>, development: Option<Option<Id>>, unit: Option<Option<Id>>, offered: bool)
    requires Inv(db) && UpdateOpportunity(db, id, person, development, unit, offered).Ok?
    ensures Inv(UpdateOpportunity(db, id, person, development, unit, offered).value)
  {
    OtherColumnsKeep(db.crm, id, UpdateOpportunity(db, id, person, development, unit, offered).value.crm.opportunities[id]);
  }
}
