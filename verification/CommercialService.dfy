/**
 * The commercial tables as mutable state and one method for each service transaction, statement by statement.  Every
 * transaction commits exactly the state its specification in module Commercial gives and keeps the protocol invariant; an
 * exception after a write restores the rows, as the rollback does.  Queries and bulk updates are loops over the rows.
 */
module CommercialService {
  import opened Common
  import opened OpportunityStage
  import Installments
  import Pricing
  import opened Commercial
  import opened CommercialSteps

  type Reply = Option<Error>

  /** The reply and the tables after a call, as the specified outcome tells. */
  ghost predicate Follows(before: Db, outcome: Outcome<Db>, reply: Reply, after: Db) {
    match outcome
    case Ok(committed) => reply == None && after == committed
    case Err(e) => reply == Some(e) && after == before
  }

  class Tables {
    var people: set<Id>
    var units: seq<Unit>
    var reservations: seq<Reservation>
    var proposals: seq<Proposal>
    var sales: seq<Sale>
    var pipelines: nat
    var stages: seq<Stage>
    var opportunities: seq<Opportunity>
    var history: seq<HistoryRow>

    ghost function State(): Db
      reads this
    {
      Db(people, units, reservations, proposals, sales, Crm(pipelines, stages, opportunities, history))
    }

    /** The protocol invariant, which every transaction may rely on and has to keep. */
    ghost predicate Valid()
      reads this
    {
      Inv(State())
    }

    constructor ()
      ensures State() == EMPTY && Valid()
    {
      people, units, reservations, proposals, sales := {}, [], [], [], [];
      pipelines, stages, opportunities, history := 0, [], [], [];
    }

    // --------------------------------------------------------------------------------------- queries

    method SomeDue(unit: Id, now: Time) returns (found: bool)
      ensures found == exists i | 0 <= i < |reservations| :: Due(reservations[i], unit, now)
    {
      for i := 0 to |reservations|
        invariant !(exists k | 0 <= k < i :: Due(reservations[k], unit, now))
      {
        if Due(reservations[i], unit, now) { return true; }
      }
      found := false;
    }

    method SomeActive(unit: Id) returns (found: bool)
      ensures found == exists i | 0 <= i < |reservations| :: Active(reservations[i], unit)
    {
      for i := 0 to |reservations|
        invariant !(exists k | 0 <= k < i :: Active(reservations[k], unit))
      {
        if Active(reservations[i], unit) { return true; }
      }
      found := false;
    }

    method SaleInForce(unit: Id) returns (found: bool)
      ensures found == exists s | 0 <= s < |sales| :: sales[s].unit == unit && InForce(sales[s].status)
    {
      for s := 0 to |sales|
        invariant !(exists k | 0 <= k < s :: sales[k].unit == unit && InForce(sales[k].status))
      {
        if sales[s].unit == unit && (sales[s].status == SaleStatus.Ativa || sales[s].status == SaleStatus.Quitada) { return true; }
      }
      found := false;
    }

    method SaleOfProposal(id: Id) returns (found: bool)
      ensures found == exists s | 0 <= s < |sales| :: sales[s].proposal == id
    {
      for s := 0 to |sales|
        invariant !(exists k | 0 <= k < s :: sales[k].proposal == id)
      {
        if sales[s].proposal == id { return true; }
      }
      found := false;
    }

    /** The won stage of the pipeline with the lowest position, the oldest first. */
    method FindWonStage(pipeline: Id) returns (found: Option<Id>)
      ensures found == WonStage(stages, pipeline)
    {
      found := None;
      for i := 0 to |stages|
        invariant found == WonStage(stages[..i], pipeline)
      {
        assert stages[..i + 1][..i] == stages[..i];
        if stages[i].pipeline == pipeline && stages[i].spec.isWon
           && (found.None? || stages[i].spec.position < stages[found.value].spec.position) {
          found := Some(i);
        }
      }
      assert stages[..|stages|] == stages;
    }

    /** The stage of the pipeline with the lowest position. */
    method FindFirstStage(pipeline: Id) returns (found: Option<Id>)
      ensures found == FirstStage(stages, pipeline)
    {
      found := None;
      for i := 0 to |stages|
        invariant found == FirstStage(stages[..i], pipeline)
      {
        assert stages[..i + 1][..i] == stages[..i];
        if stages[i].pipeline == pipeline && (found.None? || stages[i].spec.position < stages[found.value].spec.position) {
          found := Some(i);
        }
      }
      assert stages[..|stages|] == stages;
    }

    // ---------------------------------------------------------------------------------------- units

    method CreateUnit(development: Id, status: Option<UnitStatus>) returns (reply: Reply)
      requires Valid()
      modifies this
      ensures Valid()
      ensures Follows(old(State()), Commercial.CreateUnit(old(State()), development, status), reply, State())
    {
      if status == Some(Reservada) { return Some(BadRequest); }
      units := units + [Unit(development, if status.Some? then status.value else Disponivel)];
      reply := None;
      CreateUnitKeeps(old(State()), development, status);
    }

    method UpdateUnit(id: Id, status: Option<UnitStatus>) returns (reply: Reply)
      requires Valid()
      modifies this
      ensures Valid()
      ensures Follows(old(State()), Commercial.UpdateUnit(old(State()), id, status), reply, State())
    {
      if status == Some(Reservada) { return Some(BadRequest); }
      if id >= |units| { return Some(NotFound); }
      var unit := units[id];
      if unit.status == Reservada && status.Some? { return Some(Conflict); }
      if status.Some? {
        units := units[id := unit.(status := status.value)];
      } else {
        assert units[id := unit] == units;
      }
      reply := None;
      UnitWritten(old(State()), id, units[id]);
    }

    // --------------------------------------------------------------------------------- reservations

    method ExpireRows(unit: Id, now: Time)
      modifies this`reservations
      ensures reservations == ExpiredRows(old(reservations), unit, now)
    {
      for i := 0 to |reservations|
        invariant |reservations| == |old(reservations)|
        invariant forall k :: 0 <= k < i ==> reservations[k] == ExpiredRows(old(reservations), unit, now)[k]
        invariant forall k :: i <= k < |reservations| ==> reservations[k] == old(reservations)[k]
      {
        if Due(reservations[i], unit, now) {
          reservations := reservations[i := reservations[i].(status := ReservationStatus.Expirada)];
        }
      }
    }

    /** Expires the due reservations of a locked unit and releases it. */
    method ExpireLockedUnit(id: Id, now: Time) returns (resulting: UnitStatus)
      requires id < |units|
      modifies this`reservations, this`units
      ensures State() == ExpireUnit(old(State()), id, now) && |units| == old(|units|) && |reservations| == old(|reservations|)
      ensures resulting == units[id].status
    {
      var expired := SomeDue(id, now);
      if !expired {
        return units[id].status;
      }
      ExpireRows(id, now);
      resulting := units[id].status;
      if resulting == Reservada {
        resulting := Disponivel;
        units := units[id := units[id].(status := resulting)];
      }
    }

    method NormalizeUnit(id: Id, now: Time) returns (reply: Reply)
      requires Valid()
      modifies this
      ensures Valid()
      ensures Follows(old(State()), Commercial.NormalizeUnit(old(State()), id, now), reply, State())
    {
      if id >= |units| { return Some(NotFound); }
      var resulting := ExpireLockedUnit(id, now);
      reply := None;
      ExpireUnitKeeps(old(State()), id, now);
    }

    /** The checks of a reservation and of a proposal on their opportunity. */
    method ValidateOpportunity(id: Id, person: Id, unit: Id, development: Id) returns (reply: Reply)
      ensures reply == None <==> CheckOpportunity(State().crm, id, person, unit, development).Ok?
      ensures reply.Some? ==> CheckOpportunity(State().crm, id, person, unit, development) == Err(reply.value)
    {
      if id >= |opportunities| { return Some(BadRequest); }
      var opportunity := opportunities[id];
      var stage := StageFlags(stages, opportunity.stage);
      if stage.Some? && (stage.value.isWon || stage.value.isLost) { return Some(Conflict); }
      if opportunity.person != person { return Some(BadRequest); }
      if opportunity.development.Some? && opportunity.development.value != development { return Some(BadRequest); }
      if opportunity.unit.Some? && opportunity.unit.value != unit { return Some(BadRequest); }
      reply := None;
    }

    method CreateReservation(unit: Id, person: Id, opportunity: Option<Id>, expiresAt: Time, now: Time) returns (reply: Reply)
      requires Valid()
      modifies this
      ensures Valid()
      ensures Follows(old(State()), Commercial.CreateReservation(old(State()), unit, person, opportunity, expiresAt, now), reply, State())
    {
      if expiresAt <= now { return Some(BadRequest); }
      if unit >= |units| { return Some(NotFound); }
      var unitsBefore, reservationsBefore := units, reservations;
      var currentStatus := ExpireLockedUnit(unit, now);
      reply := None;
      if currentStatus != Disponivel {
        reply := Some(Conflict);
      } else if person !in people {
        reply := Some(BadRequest);
      } else if opportunity.Some? {
        reply := ValidateOpportunity(opportunity.value, person, unit, unitsBefore[unit].development);
      }
      if reply.Some? {
        units, reservations := unitsBefore, reservationsBefore;
        return;
      }
      reservations := reservations + [Reservation(unit, person, opportunity, ReservationStatus.Ativa, expiresAt)];
      units := units[unit := units[unit].(status := Reservada)];
      CreateReservationKeeps(old(State()), unit, person, opportunity, expiresAt, now);
    }

    method CancelReservation(id: Id, now: Time) returns (reply: Reply)
      requires Valid()
      modifies this
      ensures Valid()
      ensures Follows(old(State()), Commercial.CancelReservation(old(State()), id, now), reply, State())
    {
      if id >= |reservations| { return Some(NotFound); }
      var unitId := reservations[id].unit;
      if unitId >= |units| { return Some(NotFound); }
      var unitsBefore, reservationsBefore := units, reservations;
      var unit := units[unitId];
      var resulting := ExpireLockedUnit(unitId, now);
      var reservation := reservations[id];
      if reservation.status != ReservationStatus.Ativa {
        units, reservations := unitsBefore, reservationsBefore;
        return Some(Conflict);
      }
      reservations := reservations[id := reservation.(status := ReservationStatus.Cancelada)];
      if unit.status == Reservada {
        units := units[unitId := units[unitId].(status := Disponivel)];
      }
      reply := None;
      CancelReservationKeeps(old(State()), id, now);
    }

    method ConvertReservation(id: Id, now: Time) returns (reply: Reply)
      requires Valid()
      modifies this
      ensures Valid()
      ensures Follows(old(State()), Commercial.ConvertReservation(old(State()), id, now), reply, State())
    {
      if id >= |reservations| { return Some(NotFound); }
      var unitId := reservations[id].unit;
      if unitId >= |units| { return Some(NotFound); }
      var unitsBefore, reservationsBefore := units, reservations;
      var resulting := ExpireLockedUnit(unitId, now);
      var reservation := reservations[id];
      if reservation.status != ReservationStatus.Ativa {
        units, reservations := unitsBefore, reservationsBefore;
        return Some(Conflict);
      }
      reservations := reservations[id := reservation.(status := Convertida)];
      reply := None;
      ConvertReservationKeeps(old(State()), id, now);
    }

    // ------------------------------------------------------------------------------------ proposals

    /** The reservation a proposal comes with, or the availability of the unit without one. */
    method ValidateReservation(reservation: Option<Id>, unit: Id, person: Id, opportunity: Option<Id>, now: Time) returns (reply: Reply)
      requires unit < |units|
      ensures reply == None <==> CheckReservation(State(), reservation, unit, person, opportunity, now).Ok?
      ensures reply.Some? ==> CheckReservation(State(), reservation, unit, person, opportunity, now) == Err(reply.value)
    {
      if reservation.None? {
        return if units[unit].status != Disponivel then Some(Conflict) else None;
      }
      if reservation.value >= |reservations| { return Some(NotFound); }
      var found := reservations[reservation.value];
      if found.status != ReservationStatus.Ativa || found.expiresAt <= now { return Some(Conflict); }
      if found.unit != unit || found.person != person || found.opportunity != opportunity { return Some(BadRequest); }
      if units[unit].status != Reservada { return Some(Conflict); }
      reply := None;
    }

    method CreateProposal(unit: Id, person: Id, opportunity: Option<Id>, reservation: Option<Id>,
                          activePrice: Option<real>, terms: Terms, now: Time) returns (reply: Reply)
      requires Valid()
      modifies this
      ensures Valid()
      ensures Follows(old(State()), Commercial.CreateProposal(old(State()), unit, person, opportunity, reservation, activePrice, terms, now),
                      reply, State())
    {
      if terms.validUntil.Some? && terms.validUntil.value <= now { return Some(BadRequest); }
      if unit >= |units| { return Some(NotFound); }
      reply := ValidateReservation(reservation, unit, person, opportunity, now);
      if reply.Some? { return; }
      if person !in people { return Some(BadRequest); }
      if opportunity.Some? {
        reply := ValidateOpportunity(opportunity.value, person, unit, units[unit].development);
        if reply.Some? { return; }
      }
      if activePrice.None? { return Some(BadRequest); }
      var pricing := Pricing.ValidatePricing(activePrice.value, terms.discount, terms.conditions);
      if pricing.Err? { return Some(pricing.error); }
      var version := Version(1, pricing.value, terms.conditions);
      proposals := proposals
        + [Proposal(unit, person, opportunity, reservation, Rascunho, false, terms.validUntil, version)];
      reply := None;
      CreateProposalKeeps(old(State()), unit, person, opportunity, reservation, activePrice, terms, now);
    }

    /** The new current version; a proposal that was sent is under negotiation again. */
    method WriteVersion(id: Id, version: Version, validUntil: Option<Time>)
      requires id < |proposals|
      modifies this`proposals
      ensures proposals == old(proposals)[id := old(proposals[id]).(version := version, validUntil := validUntil,
                             status := if old(proposals[id]).status == Rascunho then Rascunho else EmNegociacao)]
    {
      var proposal := proposals[id];
      var status := if proposal.status == Rascunho then Rascunho else EmNegociacao;
      proposals := proposals[id := proposal.(version := version, validUntil := validUntil, status := status)];
    }

    /** The new version over the base price of the current one, or the exception of the pricing. */
    method PriceVersion(id: Id, terms: Terms) returns (reply: Reply)
      requires id < |proposals|
      modifies this`proposals
      ensures var row := old(proposals[id]);
              match Pricing.ValidatePricing(row.version.price.basePrice as real / 100.0, terms.discount, terms.conditions)
              case Err(e) => reply == Some(e) && proposals == old(proposals)
              case Ok(price) =>
                && reply == None
                && proposals == old(proposals)[id := row.(version := Version(row.version.number + 1, price, terms.conditions),
                     validUntil := terms.validUntil, status := if row.status == Rascunho then Rascunho else EmNegociacao)]
    {
      var current := proposals[id].version;
      var pricing := Pricing.ValidatePricing(current.price.basePrice as real / 100.0, terms.discount, terms.conditions);
      if pricing.Err? { return Some(pricing.error); }
      WriteVersion(id, Version(current.number + 1, pricing.value, terms.conditions), terms.validUntil);
      reply := None;
    }

    /** The checks of a new version and its writes. */
    method Revise(id: Id, terms: Terms, now: Time) returns (reply: Reply)
      modifies this`proposals
      ensures Follows(old(State()), Commercial.CreateVersion(old(State()), id, terms, now), reply, State())
    {
      if terms.validUntil.Some? && terms.validUntil.value <= now { return Some(BadRequest); }
      if id >= |proposals| { return Some(NotFound); }
      var status := proposals[id].status;
      if status != Rascunho && status != Enviada && status != EmNegociacao { return Some(Conflict); }
      reply := PriceVersion(id, terms);
    }

    method CreateVersion(id: Id, terms: Terms, now: Time) returns (reply: Reply)
      requires Valid()
      modifies this
      ensures Valid()
      ensures Follows(old(State()), Commercial.CreateVersion(old(State()), id, terms, now), reply, State())
    {
      reply := Revise(id, terms, now);
      if reply.None? {
        CreateVersionKeeps(old(State()), id, terms, now);
      }
    }

    method SendProposal(id: Id, now: Time) returns (reply: Reply)
      requires Valid()
      modifies this
      ensures Valid()
      ensures Follows(old(State()), Commercial.SendProposal(old(State()), id, now), reply, State())
    {
      if id >= |proposals| { return Some(NotFound); }
      var proposal := proposals[id];
      if proposal.status != Rascunho && proposal.status != EmNegociacao { return Some(Conflict); }
      if proposal.validUntil.Some? && proposal.validUntil.value <= now { return Some(Conflict); }
      proposals := proposals[id := proposal.(status := Enviada)];
      reply := None;
      StatusKeeps(old(State()), id, Enviada);
    }

    method RejectProposal(id: Id) returns (reply: Reply)
      requires Valid()
      modifies this
      ensures Valid()
      ensures Follows(old(State()), Commercial.RejectProposal(old(State()), id), reply, State())
    {
      if id >= |proposals| { return Some(NotFound); }
      var proposal := proposals[id];
      if proposal.status != Enviada && proposal.status != EmNegociacao { return Some(Conflict); }
      proposals := proposals[id := proposal.(status := Recusada)];
      reply := None;
      StatusKeeps(old(State()), id, Recusada);
    }

    method ExpireProposal(id: Id, now: Time) returns (reply: Reply)
      requires Valid()
      modifies this
      ensures Valid()
      ensures Follows(old(State()), Commercial.ExpireProposal(old(State()), id, now), reply, State())
    {
      if id >= |proposals| { return Some(NotFound); }
      var proposal := proposals[id];
      if (proposal.status == Enviada || proposal.status == EmNegociacao)
         && proposal.validUntil.Some? && proposal.validUntil.value < now {
        proposals := proposals[id := proposal.(status := ProposalStatus.Expirada)];
      }
      reply := None;
      if State() != old(State()) {
        StatusKeeps(old(State()), id, ProposalStatus.Expirada);
      }
    }

    /** The handoff reservation of a proposal that came without one, or the conversion of the one it came with. */
    method HandOver(proposal: Proposal, now: Time) returns (reply: Reply, effective: Option<Id>)
      requires proposal.unit < |units|
      modifies this`reservations, this`units
      ensures Follows(old(State()), AcceptReservation(old(State()), proposal, now), reply, State())
      ensures reply == None ==> effective == if proposal.reservation.Some? then proposal.reservation else Some(old(|reservations|))
    {
      effective := proposal.reservation;
      var unit := units[proposal.unit];
      if effective.Some? {
        if effective.value >= |reservations| { return Some(NotFound), None; }
        var reservation := reservations[effective.value];
        if reservation.status != ReservationStatus.Ativa || reservation.expiresAt <= now { return Some(Conflict), None; }
        if reservation.unit != proposal.unit || reservation.person != proposal.person
           || reservation.opportunity != proposal.opportunity { return Some(Conflict), None; }
        if unit.status != Reservada { return Some(Conflict), None; }
        reservations := reservations[effective.value := reservation.(status := Convertida)];
      } else {
        if unit.status != Disponivel { return Some(Conflict), None; }
        effective := Some(|reservations|);
        reservations := reservations
          + [Reservation(proposal.unit, proposal.person, proposal.opportunity, Convertida, now + 24 * 60 * 60 * 1000)];
        units := units[proposal.unit := unit.(status := Reservada)];
      }
      reply := None;
    }

    /** The writes of an acceptance: reservation and unit, opportunity, proposal; an exception restores them. */
    method AcceptLocked(id: Id, now: Time) returns (reply: Reply)
      requires id < |proposals| && proposals[id].unit < |units|
      modifies this
      ensures var db := old(State());
              var row := db.proposals[id];
              var reserved := AcceptReservation(db, row, now);
              var won := if row.opportunity.Some? then OpportunityStage.WinOpportunity(db.crm, row.opportunity.value, row.person, row.unit) else Ok(db.crm);
              if reserved.Err? then reply == Some(reserved.error) && State() == db
              else if won.Err? then reply == Some(won.error) && State() == db
              else
                && reply == None
                && State() == reserved.value.(
                     proposals := db.proposals[id := row.(status := Aceita,
                       reservation := if row.reservation.Some? then row.reservation else Some(|db.reservations|))],
                     crm := won.value)
    {
      var proposal := proposals[id];
      var unitsBefore, reservationsBefore := units, reservations;
      var effective;
      reply, effective := HandOver(proposal, now);
      if reply.Some? { return; }
      if proposal.opportunity.Some? {
        reply := WinOpportunity(proposal.opportunity.value, proposal.person, proposal.unit);
        if reply.Some? {
          units, reservations := unitsBefore, reservationsBefore;
          return;
        }
      }
      proposals := proposals[id := proposal.(status := Aceita, reservation := effective)];
    }

    method AcceptProposal(id: Id, now: Time) returns (reply: Reply)
      requires Valid()
      modifies this
      ensures Valid()
      ensures Follows(old(State()), Commercial.AcceptProposal(old(State()), id, now), reply, State())
    {
      if id >= |proposals| { return Some(NotFound); }
      var proposal := proposals[id];
      if proposal.unit >= |units| { return Some(NotFound); }
      if proposal.reservation.Some? && proposal.reservation.value >= |reservations| { return Some(NotFound); }
      if proposal.status != Enviada && proposal.status != EmNegociacao { return Some(Conflict); }
      if proposal.validUntil.Some? && proposal.validUntil.value <= now { return Some(Conflict); }
      reply := AcceptLocked(id, now);
      if reply.None? {
        AcceptProposalKeeps(old(State()), id, now);
      }
    }

    // ---------------------------------------------------------------------------------------- sales

    method ConvertProposal(id: Id, dates: Installments.SaleTerms, now: Time) returns (reply: Reply)
      requires Valid()
      modifies this
      ensures Valid()
      ensures Follows(old(State()), Commercial.ConvertProposal(old(State()), id, dates, now), reply, State())
    {
      if id >= |proposals| { return Some(NotFound); }
      var proposal := proposals[id];
      if proposal.unit >= |units| { return Some(NotFound); }
      if proposal.reservation.Some? && proposal.reservation.value >= |reservations| { return Some(NotFound); }
      var existing := SaleOfProposal(id);
      if existing { return None; }
      if proposal.status != Aceita { return Some(Conflict); }
      if proposal.converted { return Some(Conflict); }
      var unit := units[proposal.unit];
      if unit.status != Reservada { return Some(Conflict); }
      if proposal.reservation.None? { return Some(Conflict); }
      var reservation := reservations[proposal.reservation.value];
      if !ReservationConvertible(reservation, proposal, now) { return Some(Conflict); }
      var sold := SaleInForce(proposal.unit);
      if sold { return Some(Conflict); }
      var installments := Sold(proposal.version, dates);
      if installments.Err? { return Some(installments.error); }
      reply := WinAndSell(id, dates, installments.value);
      if reply.None? {
        ConvertProposalKeeps(old(State()), id, dates, now);
      }
    }

    /** The writes of a conversion: reservation, opportunity and sale, or the exception of the opportunity with none of them. */
    method WinAndSell(id: Id, dates: Installments.SaleTerms, installments: seq<Installments.Row>) returns (reply: Reply)
      requires id < |proposals| && proposals[id].unit < |units|
      requires proposals[id].reservation.Some? && proposals[id].reservation.value < |reservations|
      modifies this
      ensures var db := old(State());
              var row, r := db.proposals[id], db.reservations[db.proposals[id].reservation.value];
              var won := if row.opportunity.Some?
                then OpportunityStage.EnsureOpportunityWon(db.crm, row.opportunity.value, row.person, row.unit, db.units[row.unit].development)
                else Ok(db.crm);
              if won.Err? then reply == Some(won.error) && State() == db
              else
                && reply == None
                && State() == db.(reservations := if r.status == ReservationStatus.Ativa
                                    then db.reservations[row.reservation.value := r.(status := Convertida)] else db.reservations,
                                  crm := won.value, sales := db.sales + [NewSale(row, id, dates, installments)],
                                  proposals := db.proposals[id := row.(converted := true)],
                                  units := db.units[row.unit := db.units[row.unit].(status := Vendida)])
    {
      var proposal := proposals[id];
      var reservationsBefore := reservations;
      var reservation := reservations[proposal.reservation.value];
      if reservation.status == ReservationStatus.Ativa {
        reservations := reservations[proposal.reservation.value := reservation.(status := Convertida)];
      }
      if proposal.opportunity.Some? {
        reply := EnsureOpportunityWon(proposal.opportunity.value, proposal.person, proposal.unit, units[proposal.unit].development);
        if reply.Some? {
          reservations := reservationsBefore;
          return;
        }
      }
      RecordSale(id, dates, installments);
      reply := None;
    }

    /** The sale with its receivables, the mark on the proposal and the status of the unit. */
    method RecordSale(id: Id, dates: Installments.SaleTerms, installments: seq<Installments.Row>)
      requires id < |proposals| && proposals[id].unit < |units|
      modifies this`sales, this`proposals, this`units
      ensures sales == old(sales) + [NewSale(old(proposals[id]), id, dates, installments)]
      ensures proposals == old(proposals)[id := old(proposals[id]).(converted := true)]
      ensures units == old(units)[old(proposals[id]).unit := old(units[proposals[id].unit]).(status := Vendida)]
    {
      var proposal := proposals[id];
      var price := proposal.version.price;
      var sale := Sale(proposal.unit, id, SaleStatus.Ativa, price.basePrice, price.discount, price.finalPrice, dates, installments);
      sales := sales + [sale];
      proposals := proposals[id := proposal.(converted := true)];
      units := units[proposal.unit := units[proposal.unit].(status := Vendida)];
    }

    method CancelSale(sale: Id, paid: bool) returns (reply: Reply)
      requires Valid()
      modifies this
      ensures Valid()
      ensures Follows(old(State()), Commercial.CancelSale(old(State()), sale, paid), reply, State())
    {
      if sale >= |sales| { return Some(NotFound); }
      if sales[sale].status == SaleStatus.Distratada || sales[sale].status == SaleStatus.Cancelada { return Some(Conflict); }
      if paid { return Some(Conflict); }
      var unit := sales[sale].unit;
      sales := sales[sale := sales[sale].(status := SaleStatus.Distratada)];
      if unit < |units| && (units[unit].status == Vendida || units[unit].status == UnitStatus.Quitada) {
        units := units[unit := units[unit].(status := UnitStatus.Distratada)];
      }
      reply := None;
      CancelSaleKeeps(old(State()), sale, paid);
    }

    // -------------------------------------------------------------------------------- opportunities

    ghost function OnlyCrm(crm: Outcome<Crm>): Outcome<Db>
      reads this
    {
      OnCrm(State(), crm)
    }

    /** The set of codes is as large as the list: no two are equal. */
    method DistinctCodes(specs: seq<StageSpec>) returns (distinct: bool)
      ensures distinct == forall j, k | 0 <= j < k < |specs| :: specs[j].code != specs[k].code
    {
      var codes: set<string> := {};
      for i := 0 to |specs|
        invariant codes == set k | 0 <= k < i :: specs[k].code
        invariant |codes| <= i && (|codes| == i <==> forall j, k | 0 <= j < k < i :: specs[j].code != specs[k].code)
      {
        codes := codes + {specs[i].code};
      }
      distinct := |codes| == |specs|;
    }

    method DistinctPositions(specs: seq<StageSpec>) returns (distinct: bool)
      ensures distinct == forall j, k | 0 <= j < k < |specs| :: specs[j].position != specs[k].position
    {
      var positions: set<int> := {};
      for i := 0 to |specs|
        invariant positions == set k | 0 <= k < i :: specs[k].position
        invariant |positions| <= i && (|positions| == i <==> forall j, k | 0 <= j < k < i :: specs[j].position != specs[k].position)
      {
        positions := positions + {specs[i].position};
      }
      distinct := |positions| == |specs|;
    }

    method CountFlags(specs: seq<StageSpec>) returns (won: nat, lost: nat, both: bool)
      ensures won == WonCount(specs) && lost == LostCount(specs)
      ensures both == exists i | 0 <= i < |specs| :: specs[i].isWon && specs[i].isLost
    {
      both, won, lost := false, 0, 0;
      for i := 0 to |specs|
        invariant both == exists k | 0 <= k < i :: specs[k].isWon && specs[k].isLost
        invariant won == WonCount(specs[..i]) && lost == LostCount(specs[..i])
      {
        assert specs[..i + 1][..i] == specs[..i];
        both := both || (specs[i].isWon && specs[i].isLost);
        won := won + if specs[i].isWon then 1 else 0;
        lost := lost + if specs[i].isLost then 1 else 0;
      }
      assert specs[..|specs|] == specs;
    }

    /** validatePipelineStages: codes and positions are unique, no stage is both, and each flag is set once. */
    method ValidateStages(specs: seq<StageSpec>) returns (valid: bool)
      ensures valid == ValidPipelineStages(specs)
    {
      var codes := DistinctCodes(specs);
      var positions := DistinctPositions(specs);
      var won, lost, both := CountFlags(specs);
      valid := codes && positions && !both && won == 1 && lost == 1;
    }

    method InsertStages(pipeline: Id, specs: seq<StageSpec>)
      modifies this`stages
      ensures stages == old(stages) + StageRows(pipeline, specs)
    {
      for i := 0 to |specs|
        invariant stages == old(stages) + StageRows(pipeline, specs)[..i]
      {
        stages := stages + [Stage(pipeline, specs[i])];
      }
    }

    method CreatePipeline(specs: Option<seq<StageSpec>>) returns (reply: Reply)
      requires Valid()
      modifies this
      ensures Valid()
      ensures Follows(old(State()), old(OnlyCrm(OpportunityStage.CreatePipeline(State().crm, specs))), reply, State())
    {
      var created := if specs.Some? then specs.value else DEFAULT_STAGES;
      var valid := ValidateStages(created);
      if !valid { return Some(BadRequest); }
      InsertStages(pipelines, created);
      pipelines := pipelines + 1;
      reply := None;
      CreatePipelineKeeps(old(State()).crm, specs);
    }

    /** The stage a new opportunity starts in: the chosen one or the first one, if it is not terminal. */
    method ResolveInitialStage(pipeline: Id, stage: Option<Id>) returns (found: Option<Id>)
      ensures var start := if stage.None? then FirstStage(stages, pipeline)
                           else if stage.value < |stages| && stages[stage.value].pipeline == pipeline then stage else None;
              found == if start.None? || stages[start.value].spec.isWon || stages[start.value].spec.isLost then None else start
    {
      found := FindFirstStage(pipeline);
      if stage.Some? {
        found := if stage.value < |stages| && stages[stage.value].pipeline == pipeline then stage else None;
      }
      if found.Some? && (stages[found.value].spec.isWon || stages[found.value].spec.isLost) {
        found := None;
      }
    }

    method InsertOpportunity(row: Opportunity)
      modifies this`opportunities, this`history
      ensures opportunities == old(opportunities) + [row]
      ensures history == old(history) + [HistoryRow(old(|opportunities|), None, row.stage, None)]
    {
      var id := |opportunities|;
      opportunities := opportunities + [row];
      history := history + [HistoryRow(id, None, row.stage, None)];
    }

    method OpenIn(person: Id, pipeline: Id, stage: Option<Id>, development: Option<Id>, unit: Option<Id>) returns (reply: Reply)
      requires person in people
      modifies this`opportunities, this`history
      ensures Follows(old(State()), Commercial.OpenOpportunity(old(State()), person, pipeline, stage, development, unit), reply, State())
    {
      if pipeline >= pipelines { return Some(BadRequest); }
      var found := ResolveInitialStage(pipeline, stage);
      if found.None? { return Some(BadRequest); }
      var target := ResolveSalesTarget(development, unit);
      if target.Err? { return Some(target.error); }
      InsertOpportunity(Opportunity(person, pipeline, found.value, target.value, unit, None));
      reply := None;
    }

    method CreateOpportunity(person: Id, pipeline: Id, stage: Option<Id>, development: Option<Id>, unit: Option<Id>) returns (reply: Reply)
      requires Valid()
      modifies this
      ensures Valid()
      ensures Follows(old(State()), Commercial.OpenOpportunity(old(State()), person, pipeline, stage, development, unit), reply, State())
    {
      if person !in people { return Some(BadRequest); }
      reply := OpenIn(person, pipeline, stage, development, unit);
      if reply.None? {
        OpenOpportunityKeeps(old(State()), person, pipeline, stage, development, unit);
      }
    }

    method ResolveSalesTarget(development: Option<Id>, unit: Option<Id>) returns (target: Outcome<Option<Id>>)
      ensures target == SalesTarget(State(), development, unit)
    {
      if unit.Some? {
        if unit.value >= |units| { return Err(BadRequest); }
        if development.Some? && development.value != units[unit.value].development { return Err(BadRequest); }
        return Ok(Some(units[unit.value].development));
      }
      target := Ok(development);
    }

    /** The unit a new selection may choose. */
    method CheckSelection(unit: Id, offered: bool) returns (reply: Reply)
      ensures reply == if unit >= |units| then Some(BadRequest) else if Selectable(State(), unit, offered) then None else Some(Conflict)
    {
      if unit >= |units| { return Some(BadRequest); }
      if units[unit].status != Disponivel || !offered { return Some(Conflict); }
      var held := SomeActive(unit);
      if held { return Some(Conflict); }
      var sold := SaleInForce(unit);
      if sold { return Some(Conflict); }
      reply := None;
    }

    method UpdateOpportunity(id: Id, person: Option<Id>, development: Option<Option<Id>>, unit: Option<Option<Id>>, offered: bool)
      returns (reply: Reply)
      requires Valid()
      modifies this
      ensures Valid()
      ensures Follows(old(State()), Commercial.UpdateOpportunity(old(State()), id, person, development, unit, offered), reply, State())
    {
      var selected := if unit.Some? then unit.value else None;
      if id >= |opportunities| { return Some(NotFound); }
      var current := opportunities[id];
      var personId := if person.Some? then person.value else current.person;
      if personId !in people { return Some(BadRequest); }
      if selected.Some? && selected != current.unit {
        reply := CheckSelection(selected.value, offered);
        if reply.Some? { return; }
      }
      var unitId := if unit.Some? then unit.value else current.unit;
      var target := ResolveSalesTarget(if development.Some? then development.value else current.development, unitId);
      if target.Err? { return Some(target.error); }
      opportunities := opportunities[id := current.(person := personId, development := target.value, unit := unitId)];
      reply := None;
      UpdateOpportunityKeeps(old(State()), id, person, development, unit, offered);
    }

    /** applyOpportunityStageChange: the opportunity row, then the history row. */
    method ApplyStageChange(id: Id, to: StageTarget, reason: Option<string>, unit: Option<Id>) returns (reply: Reply)
      requires id < |opportunities|
      modifies this`opportunities, this`history
      ensures Follows(old(State()), old(OnlyCrm(OpportunityStage.ApplyStageChange(State().crm, id, to, reason, unit))), reply, State())
    {
      var opportunity := opportunities[id];
      if to.id == opportunity.stage { return None; }
      var lostReason := if to.isLost then NormalizeLostReason(reason) else None;
      if to.isLost && lostReason.None? { return Some(BadRequest); }
      var moved := opportunity.(stage := to.id, lostReason := lostReason);
      if unit.Some? { moved := moved.(unit := unit); }
      opportunities := opportunities[id := moved];
      history := history + [HistoryRow(id, Some(opportunity.stage), to.id, lostReason)];
      reply := None;
    }

    method MoveOpportunity(id: Id, stage: Id, reason: Option<string>) returns (reply: Reply)
      requires Valid()
      modifies this`opportunities, this`history
      ensures Valid()
      ensures Follows(old(State()), old(OnlyCrm(OpportunityStage.MoveOpportunity(State().crm, id, stage, reason))), reply, State())
      ensures reply.None? ==> id < |opportunities| == |old(opportunities)| && opportunities[id].stage == stage
      ensures reply.None? && old(opportunities)[id].stage != stage ==> |history| == |old(history)| + 1 && old(history) <= history
    {
      if id >= |opportunities| { return Some(NotFound); }
      if stage >= |stages| || stages[stage].pipeline != opportunities[id].pipeline { return Some(BadRequest); }
      if stage == opportunities[id].stage { return None; }
      reply := ApplyStageChange(id, StageTarget(stage, stages[stage].spec.isWon, stages[stage].spec.isLost), reason, None);
      if reply.None? {
        MoveOpportunityKeeps(old(State()).crm, id, stage, reason);
      }
    }

    method WinOpportunity(id: Id, person: Id, unit: Id) returns (reply: Reply)
      modifies this`opportunities, this`history
      ensures Follows(old(State()), old(OnlyCrm(OpportunityStage.WinOpportunity(State().crm, id, person, unit))), reply, State())
    {
      if id >= |opportunities| { return Some(NotFound); }
      var opportunity := opportunities[id];
      if opportunity.person != person || (opportunity.unit.Some? && opportunity.unit.value != unit) { return Some(Conflict); }
      var current := StageFlags(stages, opportunity.stage);
      if current.Some? && current.value.isLost { return Some(Conflict); }
      if current.Some? && current.value.isWon { return None; }
      var won := FindWonStage(opportunity.pipeline);
      if won.None? { return Some(Conflict); }
      var target := if opportunity.unit.Some? then opportunity.unit else Some(unit);
      reply := ApplyStageChange(id, StageTarget(won.value, true, false), None, target);
    }

    method EnsureOpportunityWon(id: Id, person: Id, unit: Id, development: Id) returns (reply: Reply)
      modifies this`opportunities, this`history
      ensures Follows(old(State()),
                      old(OnlyCrm(OpportunityStage.EnsureOpportunityWon(State().crm, id, person, unit, development))), reply, State())
    {
      if id >= |opportunities| { return Some(NotFound); }
      var opportunity := opportunities[id];
      if opportunity.person != person || opportunity.development != Some(development)
         || (opportunity.unit.Some? && opportunity.unit.value != unit) { return Some(Conflict); }
      var current := StageFlags(stages, opportunity.stage);
      if current.Some? && current.value.isLost { return Some(Conflict); }
      if current.Some? && current.value.isWon {
        if opportunity.unit.None? {
          opportunities := opportunities[id := opportunity.(unit := Some(unit))];
        }
        return None;
      }
      var won := FindWonStage(opportunity.pipeline);
      if won.None? { return Some(Conflict); }
      reply := ApplyStageChange(id, StageTarget(won.value, true, false), None, Some(unit));
    }
  }
}
