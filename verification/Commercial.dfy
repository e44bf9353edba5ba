/**
 * The commercial protocol as a value: units, reservations, proposals and sales with the opportunity they belong to,
 * and the state every transaction of the five services leaves.  Row numbers are ids; an Err outcome is a rollback.
 */
module Commercial {
  import opened Common
  import opened OpportunityStage
  import Installments
  import Pricing

  type Time = int

  datatype UnitStatus = Disponivel | Reservada | Vendida | Quitada | Distratada | Bloqueada | Permutada

  datatype ReservationStatus = Ativa | Cancelada | Expirada | Convertida

  datatype ProposalStatus = Rascunho | Enviada | EmNegociacao | Aceita | Recusada | Expirada | Cancelada

  datatype SaleStatus = Ativa | Quitada | Cancelada | Distratada

  datatype Unit = Unit(development: Id, status: UnitStatus)

  datatype Reservation = Reservation(unit: Id, person: Id, opportunity: Option<Id>, status: ReservationStatus, expiresAt: Time)

  /** The current version of a proposal: its number, its validated pricing and its payment conditions. */
  datatype Version = Version(number: nat, price: Pricing.Priced, conditions: seq<Pricing.Condition>)

  datatype Proposal = Proposal(unit: Id, person: Id, opportunity: Option<Id>, reservation: Option<Id>,
                               status: ProposalStatus, converted: bool, validUntil: Option<Time>, version: Version)

  /** A sale with its dates and the receivables generated for it; later changes of those belong to the ledger. */
  datatype Sale = Sale(unit: Id, proposal: Id, status: SaleStatus, gross: int, discount: int, net: int,
                       dates: Installments.SaleTerms, installments: seq<Installments.Row>)

  datatype Db = Db(people: set<Id>, units: seq<Unit>, reservations: seq<Reservation>, proposals: seq<Proposal>,
                   sales: seq<Sale>, crm: Crm)

  // ------------------------------------------------------------------------------------------- units

  function CreateUnit(db: Db, development: Id, status: Option<UnitStatus>): Outcome<Db> {
    if status == Some(Reservada) then Err(BadRequest)
    else Ok(db.(units := db.units + [Unit(development, if status.Some? then status.value else Disponivel)]))
  }

  function UpdateUnit(db: Db, id: Id, status: Option<UnitStatus>): Outcome<Db> {
    if status == Some(Reservada) then Err(BadRequest)
    else if id >= |db.units| then Err(NotFound)
    else if db.units[id].status == Reservada && status.Some? then Err(Conflict)
    else Ok(db.(units := db.units[id := db.units[id].(status := if status.Some? then status.value else db.units[id].status)]))
  }

  // ------------------------------------------------------------------------------------ reservations

  predicate Active(r: Reservation, unit: Id) {
    r.unit == unit && r.status == ReservationStatus.Ativa
  }

  predicate Due(r: Reservation, unit: Id, now: Time) {
    Active(r, unit) && r.expiresAt <= now
  }

  function ExpiredRows(reservations: seq<Reservation>, unit: Id, now: Time): seq<Reservation> {
    seq(|reservations|, i requires 0 <= i < |reservations| =>
      if Due(reservations[i], unit, now) then reservations[i].(status := ReservationStatus.Expirada) else reservations[i])
  }

  function Released(units: seq<Unit>, id: Id): seq<Unit>
    requires id < |units|
  {
    if units[id].status == Reservada then units[id := units[id].(status := Disponivel)] else units
  }

  /** expireLockedUnit. */
  function ExpireUnit(db: Db, unit: Id, now: Time): Db
    requires unit < |db.units|
  {
    if !(exists i | 0 <= i < |db.reservations| :: Due(db.reservations[i], unit, now)) then db
    else db.(reservations := ExpiredRows(db.reservations, unit, now), units := Released(db.units, unit))
  }

  function NormalizeUnit(db: Db, unit: Id, now: Time): Outcome<Db> {
    if unit >= |db.units| then Err(NotFound) else Ok(ExpireUnit(db, unit, now))
  }

  /** The checks a reservation and a proposal make on the opportunity they are for. */
  function CheckOpportunity(crm: Crm, id: Id, person: Id, unit: Id, development: Id): Outcome<()> {
    if id >= |crm.opportunities| then Err(BadRequest)
    else
      var row := crm.opportunities[id];
      if row.stage < |crm.stages| && (crm.stages[row.stage].spec.isWon || crm.stages[row.stage].spec.isLost) then Err(Conflict)
      else if row.person != person then Err(BadRequest)
      else if (row.development.Some? && row.development.value != development) || (row.unit.Some? && row.unit.value != unit) then Err(BadRequest)
      else Ok(())
  }

  function CreateReservation(db: Db, unit: Id, person: Id, opportunity: Option<Id>, expiresAt: Time, now: Time): Outcome<Db> {
    if expiresAt <= now then Err(BadRequest)
    else if unit >= |db.units| then Err(NotFound)
    else
      var expired := ExpireUnit(db, unit, now);
      if expired.units[unit].status != Disponivel then Err(Conflict)
      else if person !in db.people then Err(BadRequest)
      else if opportunity.Some? && CheckOpportunity(db.crm, opportunity.value, person, unit, db.units[unit].development).Err? then
        Err(CheckOpportunity(db.crm, opportunity.value, person, unit, db.units[unit].development).error)
      else
        Ok(expired.(reservations := expired.reservations + [Reservation(unit, person, opportunity, ReservationStatus.Ativa, expiresAt)],
                    units := expired.units[unit := expired.units[unit].(status := Reservada)]))
  }

  /** cancel: the status test uses the unit row as it was locked, before the expiry. */
  function CancelReservation(db: Db, id: Id, now: Time): Outcome<Db> {
    if id >= |db.reservations| then Err(NotFound)
    else
      var unit := db.reservations[id].unit;
      if unit >= |db.units| then Err(NotFound)
      else
        var expired := ExpireUnit(db, unit, now);
        var row := expired.reservations[id];
        if row.status != ReservationStatus.Ativa then Err(Conflict)
        else
          Ok(expired.(reservations := expired.reservations[id := row.(status := ReservationStatus.Cancelada)],
                      units := if db.units[unit].status == Reservada
                               then expired.units[unit := expired.units[unit].(status := Disponivel)] else expired.units))
  }

  /** convert: the reservation is marked, the unit row is not touched. */
  function ConvertReservation(db: Db, id: Id, now: Time): Outcome<Db> {
    if id >= |db.reservations| then Err(NotFound)
    else
      var unit := db.reservations[id].unit;
      if unit >= |db.units| then Err(NotFound)
      else
        var expired := ExpireUnit(db, unit, now);
        var row := expired.reservations[id];
        if row.status != ReservationStatus.Ativa then Err(Conflict)
        else Ok(expired.(reservations := expired.reservations[id := row.(status := Convertida)]))
  }

  // --------------------------------------------------------------------------------------- proposals

  datatype Terms = Terms(discount: real, conditions: seq<Pricing.Condition>, validUntil: Option<Time>)

  predicate Future(validUntil: Option<Time>, now: Time) {
    validUntil.None? || validUntil.value > now
  }

  /** validateReservation of a new proposal, and the availability of the unit without one. */
  function CheckReservation(db: Db, reservation: Option<Id>, unit: Id, person: Id, opportunity: Option<Id>, now: Time): Outcome<()>
    requires unit < |db.units|
  {
    if reservation.None? then
      if db.units[unit].status != Disponivel then Err(Conflict) else Ok(())
    else if reservation.value >= |db.reservations| then Err(NotFound)
    else
      var row := db.reservations[reservation.value];
      if row.status != ReservationStatus.Ativa || row.expiresAt <= now then Err(Conflict)
      else if row.unit != unit || row.person != person || row.opportunity != opportunity then Err(BadRequest)
      else if db.units[unit].status != Reservada then Err(Conflict)
      else Ok(())
  }

  /** create; the expiry it runs before, in a transaction of its own, is the step NormalizeUnit. */
  function CreateProposal(db: Db, unit: Id, person: Id, opportunity: Option<Id>, reservation: Option<Id>,
                          activePrice: Option<real>, terms: Terms, now: Time): Outcome<Db> {
    if !Future(terms.validUntil, now) then Err(BadRequest)
    else if unit >= |db.units| then Err(NotFound)
    else
      match CheckReservation(db, reservation, unit, person, opportunity, now)
      case Err(e) => Err(e)
      case Ok(_) =>
        if person !in db.people then Err(BadRequest)
        else if opportunity.Some? && CheckOpportunity(db.crm, opportunity.value, person, unit, db.units[unit].development).Err? then
          Err(CheckOpportunity(db.crm, opportunity.value, person, unit, db.units[unit].development).error)
        else if activePrice.None? then Err(BadRequest)
        else
          match Pricing.ValidatePricing(activePrice.value, terms.discount, terms.conditions)
          case Err(e) => Err(e)
          case Ok(price) =>
            Ok(db.(proposals := db.proposals
                     + [Proposal(unit, person, opportunity, reservation, Rascunho, false, terms.validUntil,
                                 Version(1, price, terms.conditions))]))
  }

  /** createVersion: the base price of the current version is kept. */
  function CreateVersion(db: Db, id: Id, terms: Terms, now: Time): Outcome<Db> {
    if !Future(terms.validUntil, now) then Err(BadRequest)
    else if id >= |db.proposals| then Err(NotFound)
    else
      var row := db.proposals[id];
      if row.status != Rascunho && row.status != Enviada && row.status != EmNegociacao then Err(Conflict)
      else
        match Pricing.ValidatePricing(row.version.price.basePrice as real / 100.0, terms.discount, terms.conditions)
        case Err(e) => Err(e)
        case Ok(price) =>
          Ok(db.(proposals := db.proposals[id := row.(
            version := Version(row.version.number + 1, price, terms.conditions), validUntil := terms.validUntil,
            status := if row.status == Rascunho then Rascunho else EmNegociacao)]))
  }

  function SendProposal(db: Db, id: Id, now: Time): Outcome<Db> {
    if id >= |db.proposals| then Err(NotFound)
    else
      var row := db.proposals[id];
      if row.status != Rascunho && row.status != EmNegociacao then Err(Conflict)
      else if !Future(row.validUntil, now) then Err(Conflict)
      else Ok(db.(proposals := db.proposals[id := row.(status := Enviada)]))
  }

  function RejectProposal(db: Db, id: Id): Outcome<Db> {
    if id >= |db.proposals| then Err(NotFound)
    else
      var row := db.proposals[id];
      if row.status != Enviada && row.status != EmNegociacao then Err(Conflict)
      else Ok(db.(proposals := db.proposals[id := row.(status := Recusada)]))
  }

  /** normalizeExpired of one proposal. */
  function ExpireProposal(db: Db, id: Id, now: Time): Outcome<Db> {
    if id >= |db.proposals| then Err(NotFound)
    else
      var row := db.proposals[id];
      if (row.status == Enviada || row.status == EmNegociacao) && row.validUntil.Some? && row.validUntil.value < now
      then Ok(db.(proposals := db.proposals[id := row.(status := ProposalStatus.Expirada)]))
      else Ok(db)
  }

  /** The reservation of an accepted proposal: the one it came with, or a handoff reservation made for it. */
  function AcceptReservation(db: Db, row: Proposal, now: Time): Outcome<Db>
    requires row.unit < |db.units|
  {
    if row.reservation.None? then
      if db.units[row.unit].status != Disponivel then Err(Conflict)
      else
        Ok(db.(reservations := db.reservations
                 + [Reservation(row.unit, row.person, row.opportunity, Convertida, now + 86400000)],
               units := db.units[row.unit := db.units[row.unit].(status := Reservada)]))
    else if row.reservation.value >= |db.reservations| then Err(NotFound)
    else
      var r := db.reservations[row.reservation.value];
      if r.status != ReservationStatus.Ativa || r.expiresAt <= now then Err(Conflict)
      else if r.unit != row.unit || r.person != row.person || r.opportunity != row.opportunity then Err(Conflict)
      else if db.units[row.unit].status != Reservada then Err(Conflict)
      else Ok(db.(reservations := db.reservations[row.reservation.value := r.(status := Convertida)]))
  }

  /** accept; the expiry it runs before, in a transaction of its own, is the step NormalizeUnit. */
  function AcceptProposal(db: Db, id: Id, now: Time): Outcome<Db> {
    if id >= |db.proposals| then Err(NotFound)
    else
      var row := db.proposals[id];
      if row.unit >= |db.units| then Err(NotFound)
      else if row.reservation.Some? && row.reservation.value >= |db.reservations| then Err(NotFound)
      else if row.status != Enviada && row.status != EmNegociacao then Err(Conflict)
      else if !Future(row.validUntil, now) then Err(Conflict)
      else
        match AcceptReservation(db, row, now)
        case Err(e) => Err(e)
        case Ok(reserved) =>
          var won := if row.opportunity.Some? then WinOpportunity(db.crm, row.opportunity.value, row.person, row.unit) else Ok(db.crm);
          if won.Err? then Err(won.error)
          else
            var reservation := if row.reservation.Some? then row.reservation else Some(|db.reservations|);
            Ok(reserved.(proposals := db.proposals[id := row.(status := Aceita, reservation := reservation)], crm := won.value))
  }

  // ------------------------------------------------------------------------------------------- sales

  predicate InForce(s: SaleStatus) { s == SaleStatus.Ativa || s == SaleStatus.Quitada }

  /** validateReservation of the conversion. */
  predicate ReservationConvertible(r: Reservation, row: Proposal, now: Time) {
    && r.unit == row.unit && r.person == row.person && r.opportunity == row.opportunity
    && (r.status == Convertida || (r.status == ReservationStatus.Ativa && r.expiresAt > now))
  }

  /** convertProposal. */
  function ConvertProposal(db: Db, id: Id, dates: Installments.SaleTerms, now: Time): Outcome<Db> {
    if id >= |db.proposals| then Err(NotFound)
    else ConvertTo(db, id, dates, Sold(db.proposals[id].version, dates), now)
  }

  /** The conversion into a sale with these receivables, or with the exception their generation raises when its turn comes. */
  function ConvertTo(db: Db, id: Id, dates: Installments.SaleTerms, sold: Outcome<seq<Installments.Row>>, now: Time): Outcome<Db>
    requires id < |db.proposals|
  {
    var row := db.proposals[id];
    if row.unit >= |db.units| then Err(NotFound)
    else if row.reservation.Some? && row.reservation.value >= |db.reservations| then Err(NotFound)
    else if exists s | 0 <= s < |db.sales| :: db.sales[s].proposal == id then Ok(db)
    else if row.status != Aceita then Err(Conflict)
    else if row.converted then Err(Conflict)
    else if db.units[row.unit].status != Reservada then Err(Conflict)
    else if row.reservation.None? then Err(Conflict)
    else if !ReservationConvertible(db.reservations[row.reservation.value], row, now) then Err(Conflict)
    else if exists s | 0 <= s < |db.sales| :: db.sales[s].unit == row.unit && InForce(db.sales[s].status) then Err(Conflict)
    else
      match sold
      case Err(e) => Err(e)
      case Ok(installments) =>
        var won := if row.opportunity.Some?
          then EnsureOpportunityWon(db.crm, row.opportunity.value, row.person, row.unit, db.units[row.unit].development) else Ok(db.crm);
        if won.Err? then Err(won.error)
        else
          var r := db.reservations[row.reservation.value];
          Ok(db.(reservations := if r.status == ReservationStatus.Ativa
                                 then db.reservations[row.reservation.value := r.(status := Convertida)] else db.reservations,
                 crm := won.value,
                 sales := db.sales + [NewSale(row, id, dates, installments)],
                 proposals := db.proposals[id := row.(converted := true)],
                 units := db.units[row.unit := db.units[row.unit].(status := Vendida)]))
  }

  /**
   * The receivables of a version, or the exception of the payment plan or of the split.  A version has one amount for
   * each condition, so the first test never decides.
   */
  function Sold(version: Version, dates: Installments.SaleTerms): Outcome<seq<Installments.Row>> {
    if |version.price.amounts| != |version.conditions| then Err(Conflict)
    else Pricing.Convert(version.price, version.conditions, 0, Installments.SaleSchedule(dates))
  }

  function NewSale(row: Proposal, id: Id, dates: Installments.SaleTerms, installments: seq<Installments.Row>): Sale {
    Sale(row.unit, id, SaleStatus.Ativa, row.version.price.basePrice, row.version.price.discount,
         row.version.price.finalPrice, dates, installments)
  }

  /** syncSaleStatus as the receivables call it; which of the two statuses they call for is theirs to say. */
  function SyncSale(db: Db, sale: Id, settled: bool): Outcome<Db> {
    if sale >= |db.sales| then Err(NotFound)
    else if !InForce(db.sales[sale].status) then Ok(db)
    else Ok(db.(sales := db.sales[sale := db.sales[sale].(status := if settled then SaleStatus.Quitada else SaleStatus.Ativa)]))
  }

  /** The distrato on the sale and its unit; whether payments stand in its way is the ledger's to say. */
  function CancelSale(db: Db, sale: Id, paid: bool): Outcome<Db> {
    if sale >= |db.sales| then Err(NotFound)
    else if !InForce(db.sales[sale].status) then Err(Conflict)
    else if paid then Err(Conflict)
    else
      var unit := db.sales[sale].unit;
      Ok(db.(sales := db.sales[sale := db.sales[sale].(status := SaleStatus.Distratada)],
             units := if unit < |db.units| && (db.units[unit].status == Vendida || db.units[unit].status == UnitStatus.Quitada)
                      then db.units[unit := db.units[unit].(status := UnitStatus.Distratada)] else db.units))
  }

  // ------------------------------------------------------------------------------------ opportunities

  /** The unit a new selection may choose; whether it is offered (development, active price) is an input. */
  predicate Selectable(db: Db, unit: Id, offered: bool)
    requires unit < |db.units|
  {
    && db.units[unit].status == Disponivel
    && offered
    && !(exists i | 0 <= i < |db.reservations| :: Active(db.reservations[i], unit))
    && !(exists s | 0 <= s < |db.sales| :: db.sales[s].unit == unit && InForce(db.sales[s].status))
  }

  /** resolveSalesTarget: a unit brings its development with it. */
  function SalesTarget(db: Db, development: Option<Id>, unit: Option<Id>): Outcome<Option<Id>> {
    if unit.None? then Ok(development)
    else if unit.value >= |db.units| then Err(BadRequest)
    else if development.Some? && development.value != db.units[unit.value].development then Err(BadRequest)
    else Ok(Some(db.units[unit.value].development))
  }

  function OpenOpportunity(db: Db, person: Id, pipeline: Id, stage: Option<Id>, development: Option<Id>, unit: Option<Id>): Outcome<Db> {
    if person !in db.people then Err(BadRequest)
    else
      match CreateOpportunity(db.crm, person, pipeline, stage, development, unit)
      case Err(e) => Err(e)
      case Ok(crm) =>
        match SalesTarget(db, development, unit)
        case Err(e) => Err(e)
        case Ok(target) =>
          var last := |db.crm.opportunities|;
          Ok(db.(crm := crm.(opportunities := crm.opportunities[last := crm.opportunities[last].(development := target)])))
  }

  function UpdateOpportunity(db: Db, id: Id, person: Option<Id>, development: Option<Option<Id>>, unit: Option<Option<Id>>, offered: bool): Outcome<Db> {
    if id >= |db.crm.opportunities| then Err(NotFound)
    else
      var row := db.crm.opportunities[id];
      var newPerson := if person.Some? then person.value else row.person;
      var newUnit := if unit.Some? then unit.value else row.unit;
      if newPerson !in db.people then Err(BadRequest)
      else if newUnit.Some? && newUnit != row.unit && newUnit.value >= |db.units| then Err(BadRequest)
      else if newUnit.Some? && newUnit != row.unit && !Selectable(db, newUnit.value, offered) then Err(Conflict)
      else
        match SalesTarget(db, if development.Some? then development.value else row.development, newUnit)
        case Err(e) => Err(e)
        case Ok(target) =>
          var updated := row.(person := newPerson, development := target, unit := newUnit);
          Ok(db.(crm := db.crm.(opportunities := db.crm.opportunities[id := updated])))
  }

  // -------------------------------------------------------------------------------------------- runs

  datatype Step =
    | DoAddPerson(person: Id)
    | DoCreateUnit(development: Id, status: Option<UnitStatus>)
    | DoUpdateUnit(unit: Id, status: Option<UnitStatus>)
    | DoNormalizeUnit(unit: Id, now: Time)
    | DoCreateReservation(unit: Id, person: Id, opportunity: Option<Id>, expiresAt: Time, now: Time)
    | DoCancelReservation(reservation: Id, now: Time)
    | DoConvertReservation(reservation: Id, now: Time)
    | DoCreateProposal(unit: Id, person: Id, opportunity: Option<Id>, source: Option<Id>, activePrice: Option<real>, terms: Terms, now: Time)
    | DoCreateVersion(proposal: Id, terms: Terms, now: Time)
    | DoSendProposal(proposal: Id, now: Time)
    | DoRejectProposal(proposal: Id)
    | DoExpireProposal(proposal: Id, now: Time)
    | DoAcceptProposal(proposal: Id, now: Time)
    | DoConvertProposal(proposal: Id, dates: Installments.SaleTerms, now: Time)
    | DoSyncSale(sale: Id, settled: bool)
    | DoCancelSale(sale: Id, paid: bool)
    | DoCreatePipeline(specs: Option<seq<StageSpec>>)
    | DoOpenOpportunity(person: Id, pipeline: Id, stage: Option<Id>, at: Option<Id>, unitOf: Option<Id>)
    | DoMoveOpportunity(moved: Id, to: Id, reason: Option<string>)
    | DoUpdateOpportunity(moved: Id, newPerson: Option<Id>, newDevelopment: Option<Option<Id>>, newUnit: Option<Option<Id>>, offered: bool)

  function Call(db: Db, step: Step): Outcome<Db> {
    match step
    case DoAddPerson(person) => Ok(db.(people := db.people + {person}))
    case DoCreateUnit(development, status) => CreateUnit(db, development, status)
    case DoUpdateUnit(unit, status) => UpdateUnit(db, unit, status)
    case DoNormalizeUnit(unit, now) => NormalizeUnit(db, unit, now)
    case DoCreateReservation(unit, person, opportunity, expiresAt, now) => CreateReservation(db, unit, person, opportunity, expiresAt, now)
    case DoCancelReservation(id, now) => CancelReservation(db, id, now)
    case DoConvertReservation(id, now) => ConvertReservation(db, id, now)
    case DoCreateProposal(unit, person, opportunity, reservation, price, terms, now) =>
      CreateProposal(db, unit, person, opportunity, reservation, price, terms, now)
    case DoCreateVersion(id, terms, now) => CreateVersion(db, id, terms, now)
    case DoSendProposal(id, now) => SendProposal(db, id, now)
    case DoRejectProposal(id) => RejectProposal(db, id)
    case DoExpireProposal(id, now) => ExpireProposal(db, id, now)
    case DoAcceptProposal(id, now) => AcceptProposal(db, id, now)
    case DoConvertProposal(id, dates, now) => ConvertProposal(db, id, dates, now)
    case DoSyncSale(sale, settled) => SyncSale(db, sale, settled)
    case DoCancelSale(sale, paid) => CancelSale(db, sale, paid)
    case DoCreatePipeline(specs) => OnCrm(db, CreatePipeline(db.crm, specs))
    case DoOpenOpportunity(person, pipeline, stage, development, unit) => OpenOpportunity(db, person, pipeline, stage, development, unit)
    case DoMoveOpportunity(id, stage, reason) => OnCrm(db, MoveOpportunity(db.crm, id, stage, reason))
    case DoUpdateOpportunity(id, person, development, unit, offered) => UpdateOpportunity(db, id, person, development, unit, offered)
  }

  function OnCrm(db: Db, outcome: Outcome<Crm>): Outcome<Db> {
    match outcome
    case Err(e) => Err(e)
    case Ok(crm) => Ok(db.(crm := crm))
  }

  function Next(db: Db, step: Step): Db {
    match Call(db, step)
    case Ok(after) => after
    case Err(_) => db
  }

  function Run(db: Db, steps: seq<Step>): Db {
    if steps == [] then db else Next(Run(db, steps[..|steps| - 1]), steps[|steps| - 1])
  }

  const EMPTY := Db({}, [], [], [], [], Crm(0, [], [], []))
}
