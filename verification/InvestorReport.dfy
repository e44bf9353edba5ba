/**
 * The investor position report: loops over indexes of allocations and returns, proved equal to nested filters over the
 * tables.  Amounts are integer cents.
 */
module InvestorReport {
  import opened Common

  type Id = nat

  datatype ReturnStatus = Pendente | Pago | Atrasado

  datatype Investment = Investment(id: Id, investor: Id, amount: int)

  datatype Development = Development(id: Id, name: string)

  datatype Allocation = Allocation(id: Id, investment: Id, amount: int, development: Option<Development>)

  datatype Return = Return(allocation: Id, expected: int, expectedDate: int, realized: Option<int>, status: ReturnStatus)

  /** The accumulator of one investor. */
  datatype Position = Position(invested: int, inDevelopments: int, general: int, unassigned: int,
                               expected: int, paid: int, pending: int, overdue: int, developments: set<string>)

  const NOTHING := Position(0, 0, 0, 0, 0, 0, 0, 0, {})

  function ComputedStatus(status: ReturnStatus, expectedDate: int, now: int): ReturnStatus {
    if status == Pendente && expectedDate < now then Atrasado else status
  }

  // -------------------------------------------------------------------------------- nested filters

  function AllocationsOf(allocations: seq<Allocation>, investment: Id): seq<Allocation> {
    if allocations == [] then []
    else
      var last := allocations[|allocations| - 1];
      AllocationsOf(allocations[..|allocations| - 1], investment) + if last.investment == investment then [last] else []
  }

  function ReturnsOf(records: seq<Return>, allocation: Id): seq<Return> {
    if records == [] then []
    else
      var last := records[|records| - 1];
      ReturnsOf(records[..|records| - 1], allocation) + if last.allocation == allocation then [last] else []
  }

  /** The filters keep the rows that refer to the id, each as often as it is there. */
  lemma {:induction false} AllocationsOfCounts(allocations: seq<Allocation>, investment: Id, a: Allocation)
    ensures multiset(AllocationsOf(allocations, investment))[a] == if a.investment == investment then multiset(allocations)[a] else 0
  {
    if allocations != [] {
      AllocationsOfCounts(allocations[..|allocations| - 1], investment, a);
      assert allocations == allocations[..|allocations| - 1] + [allocations[|allocations| - 1]];
    }
  }

  lemma {:induction false} ReturnsOfCounts(records: seq<Return>, allocation: Id, r: Return)
    ensures multiset(ReturnsOf(records, allocation))[r] == if r.allocation == allocation then multiset(records)[r] else 0
  {
    if records != [] {
      ReturnsOfCounts(records[..|records| - 1], allocation, r);
      assert records == records[..|records| - 1] + [records[|records| - 1]];
    }
  }

  function Plus(p: Position, q: Position): Position {
    Position(p.invested + q.invested, p.inDevelopments + q.inDevelopments, p.general + q.general, p.unassigned + q.unassigned,
             p.expected + q.expected, p.paid + q.paid, p.pending + q.pending, p.overdue + q.overdue,
             p.developments + q.developments)
  }

  /** What one return counts for. */
  function ReturnPart(r: Return, now: int): Position {
    var status := ComputedStatus(r.status, r.expectedDate, now);
    NOTHING.(expected := r.expected,
             paid := if status == Pago then (if r.realized.Some? then r.realized.value else 0) else 0,
             pending := if status == Pendente then r.expected else 0,
             overdue := if status == Atrasado then r.expected else 0)
  }

  function ReturnsPart(records: seq<Return>, now: int): Position {
    if records == [] then NOTHING
    else Plus(ReturnsPart(records[..|records| - 1], now), ReturnPart(records[|records| - 1], now))
  }

  /** What one allocation counts for, without its returns. */
  function AllocationPart(a: Allocation): Position {
    if a.development.Some? then NOTHING.(inDevelopments := a.amount, developments := {a.development.value.name})
    else NOTHING.(general := a.amount)
  }

  function AllocationsPart(allocations: seq<Allocation>, records: seq<Return>, now: int): Position {
    if allocations == [] then NOTHING
    else
      var a := allocations[|allocations| - 1];
      Plus(AllocationsPart(allocations[..|allocations| - 1], records, now),
           Plus(AllocationPart(a), ReturnsPart(ReturnsOf(records, a.id), now)))
  }

  function Total(allocations: seq<Allocation>): int {
    if allocations == [] then 0 else Total(allocations[..|allocations| - 1]) + allocations[|allocations| - 1].amount
  }

  /** What one investment with these allocations counts for: its own capital, or with a development filter the capital allocated there. */
  function OwnPart(i: Investment, own: seq<Allocation>, records: seq<Return>, now: int, filtered: bool): Position {
    Plus(NOTHING.(invested := if filtered then Total(own) else i.amount,
                  unassigned := if filtered then 0 else i.amount - Total(own)),
         AllocationsPart(own, records, now))
  }

  function InvestmentPart(i: Investment, allocations: seq<Allocation>, records: seq<Return>, now: int, filtered: bool): Position {
    OwnPart(i, AllocationsOf(allocations, i.id), records, now, filtered)
  }

  /** The position of an investor as a sum over the investments that are his. */
  function PositionOf(investments: seq<Investment>, allocations: seq<Allocation>, records: seq<Return>, now: int, filtered: bool,
                      investor: Id): Position {
    if investments == [] then NOTHING
    else
      var last := investments[|investments| - 1];
      var before := PositionOf(investments[..|investments| - 1], allocations, records, now, filtered, investor);
      if last.investor == investor then Plus(before, InvestmentPart(last, allocations, records, now, filtered)) else before
  }

  // ------------------------------------------------------------------------------------------- loops

  type Index<T> = map<Id, seq<T>>

  function Get<T>(index: Index<T>, id: Id): seq<T> {
    if id in index then index[id] else []
  }

  method IndexAllocations(allocations: seq<Allocation>) returns (byInvestment: Index<Allocation>)
    ensures forall id :: Get(byInvestment, id) == AllocationsOf(allocations, id)
  {
    byInvestment := map[];
    for k := 0 to |allocations|
      invariant forall id :: Get(byInvestment, id) == AllocationsOf(allocations[..k], id)
    {
      var allocation := allocations[k];
      assert allocations[..k + 1][..k] == allocations[..k];
      var current := Get(byInvestment, allocation.investment);
      byInvestment := byInvestment[allocation.investment := current + [allocation]];
    }
    assert allocations[..|allocations|] == allocations;
  }

  method IndexReturns(records: seq<Return>) returns (byAllocation: Index<Return>)
    ensures forall id :: Get(byAllocation, id) == ReturnsOf(records, id)
  {
    byAllocation := map[];
    for k := 0 to |records|
      invariant forall id :: Get(byAllocation, id) == ReturnsOf(records[..k], id)
    {
      var item := records[k];
      assert records[..k + 1][..k] == records[..k];
      var current := Get(byAllocation, item.allocation);
      byAllocation := byAllocation[item.allocation := current + [item]];
    }
    assert records[..|records|] == records;
  }

  method AddReturn(start: Position, item: Return, now: int) returns (position: Position)
    ensures position == Plus(start, ReturnPart(item, now))
  {
    position := start;
    var status := ComputedStatus(item.status, item.expectedDate, now);
    position := position.(expected := position.expected + item.expected);
    if status == Pago {
      position := position.(paid := position.paid + if item.realized.Some? then item.realized.value else 0);
    } else if status == Atrasado {
      position := position.(overdue := position.overdue + item.expected);
    } else {
      position := position.(pending := position.pending + item.expected);
    }
  }

  /** The innermost loop: the returns of one allocation. */
  method AddReturns(start: Position, records: seq<Return>, now: int) returns (position: Position)
    ensures position == Plus(start, ReturnsPart(records, now))
  {
    position := start;
    for k := 0 to |records|
      invariant position == Plus(start, ReturnsPart(records[..k], now))
    {
      assert records[..k + 1][..k] == records[..k];
      PlusAssociates(start, ReturnsPart(records[..k], now), ReturnPart(records[k], now));
      position := AddReturn(position, records[k], now);
    }
    assert records[..|records|] == records;
  }

  method AddAllocation(start: Position, allocation: Allocation) returns (position: Position)
    ensures position == Plus(start, AllocationPart(allocation))
  {
    position := start;
    if allocation.development.Some? {
      position := position.(inDevelopments := position.inDevelopments + allocation.amount,
                            developments := position.developments + {allocation.development.value.name});
    } else {
      position := position.(general := position.general + allocation.amount);
    }
  }

  /** The loop over the allocations of one investment. */
  method AddAllocations(start: Position, own: seq<Allocation>, records: seq<Return>, byAllocation: Index<Return>, now: int)
    returns (position: Position, allocationCents: int)
    requires forall id :: Get(byAllocation, id) == ReturnsOf(records, id)
    ensures position == Plus(start, AllocationsPart(own, records, now)) && allocationCents == Total(own)
  {
    position, allocationCents := start, 0;
    for k := 0 to |own|
      invariant position == Plus(start, AllocationsPart(own[..k], records, now)) && allocationCents == Total(own[..k])
    {
      var allocation := own[k];
      assert own[..k + 1][..k] == own[..k];
      ghost var before, direct := position, AllocationPart(allocation);
      ghost var ofReturns := ReturnsPart(ReturnsOf(records, allocation.id), now);
      PlusAssociates(before, direct, ofReturns);
      PlusAssociates(start, AllocationsPart(own[..k], records, now), Plus(direct, ofReturns));
      allocationCents := allocationCents + allocation.amount;
      position := AddAllocation(position, allocation);
      position := AddReturns(position, Get(byAllocation, allocation.id), now);
    }
    assert own[..|own|] == own;
  }

  lemma PlusAssociates(p: Position, q: Position, r: Position)
    ensures Plus(Plus(p, q), r) == Plus(p, Plus(q, r))
  {
  }

  function Investors(investments: seq<Investment>): set<Id> {
    set i | i in investments :: i.investor
  }

  /** The outer loop: one accumulator for each investor, kept in a map. */
  method InvestorPositions(investments: seq<Investment>, allocations: seq<Allocation>, records: seq<Return>, now: int, filtered: bool)
    returns (positions: map<Id, Position>)
    ensures positions.Keys == Investors(investments)
    ensures forall v :: v in positions ==> positions[v] == PositionOf(investments, allocations, records, now, filtered, v)
  {
    var byInvestment := IndexAllocations(allocations);
    var byAllocation := IndexReturns(records);
    positions := map[];
    for k := 0 to |investments|
      invariant positions.Keys == Investors(investments[..k])
      invariant forall v :: v in positions ==> positions[v] == PositionOf(investments[..k], allocations, records, now, filtered, v)
    {
      var investment := investments[k];
      assert investments[..k + 1] == investments[..k] + [investment];
      var investor := investment.investor;
      NobodyYet(investments[..k], allocations, records, now, filtered, investor);
      var position := if investor in positions then positions[investor] else NOTHING;
      position := AddInvestment(position, investment, Get(byInvestment, investment.id), records, byAllocation, now, filtered);
      OneInvestor(positions, position, investments[..k], investment, allocations, records, now, filtered);
      positions := positions[investor := position];
    }
    assert investments[..|investments|] == investments;
  }

  /** The map after one more investment. */
  lemma OneInvestor(positions: map<Id, Position>, position: Position, front: seq<Investment>, investment: Investment,
                    allocations: seq<Allocation>, records: seq<Return>, now: int, filtered: bool)
    requires positions.Keys == Investors(front)
    requires forall v :: v in positions ==> positions[v] == PositionOf(front, allocations, records, now, filtered, v)
    requires position == Plus(PositionOf(front, allocations, records, now, filtered, investment.investor),
                              InvestmentPart(investment, allocations, records, now, filtered))
    ensures var after := positions[investment.investor := position];
            && after.Keys == Investors(front + [investment])
            && forall v :: v in after ==> after[v] == PositionOf(front + [investment], allocations, records, now, filtered, v)
  {
    var after := positions[investment.investor := position];
    OneMoreInvestor(front, investment);
    forall v | v in after
      ensures after[v] == PositionOf(front + [investment], allocations, records, now, filtered, v)
    {
      OneMore(front, investment, allocations, records, now, filtered, v);
    }
  }

  lemma OneMoreInvestor(front: seq<Investment>, investment: Investment)
    ensures Investors(front + [investment]) == Investors(front) + {investment.investor}
  {
    assert investment in front + [investment];
    forall i | i in front
      ensures i in front + [investment]
    {
    }
  }

  method AddInvestment(start: Position, investment: Investment, own: seq<Allocation>, records: seq<Return>,
                       byAllocation: Index<Return>, now: int, filtered: bool) returns (position: Position)
    requires forall id :: Get(byAllocation, id) == ReturnsOf(records, id)
    ensures position == Plus(start, OwnPart(investment, own, records, now, filtered))
  {
    position := Invest(start, if filtered then Total(own) else investment.amount);
    ghost var part := AllocationsPart(own, records, now);
    var allocationCents;
    position, allocationCents := AddAllocations(position, own, records, byAllocation, now);
    position := Unassign(position, if filtered then 0 else investment.amount - allocationCents);
    OwnAround(start, part, if filtered then Total(own) else investment.amount, if filtered then 0 else investment.amount - Total(own));
  }

  function Invest(p: Position, amount: int): Position { p.(invested := p.invested + amount) }

  function Unassign(p: Position, amount: int): Position { p.(unassigned := p.unassigned + amount) }

  /** The capital counted before the allocations and the rest counted after them are counted with them. */
  lemma OwnAround(start: Position, part: Position, invested: int, rest: int)
    ensures Unassign(Plus(Invest(start, invested), part), rest)
         == Plus(start, Plus(NOTHING.(invested := invested, unassigned := rest), part))
  {
    assert start.developments + ({} + part.developments) == start.developments + part.developments;
  }

  lemma OneMore(investments: seq<Investment>, i: Investment, allocations: seq<Allocation>, records: seq<Return>, now: int, filtered: bool,
                investor: Id)
    ensures PositionOf(investments + [i], allocations, records, now, filtered, investor)
         == if i.investor == investor
            then Plus(PositionOf(investments, allocations, records, now, filtered, investor),
                      InvestmentPart(i, allocations, records, now, filtered))
            else PositionOf(investments, allocations, records, now, filtered, investor)
  {
  }

  lemma {:induction false} NobodyYet(investments: seq<Investment>, allocations: seq<Allocation>, records: seq<Return>, now: int, filtered: bool,
                                     investor: Id)
    ensures investor !in Investors(investments) ==> PositionOf(investments, allocations, records, now, filtered, investor) == NOTHING
  {
    if investments != [] && investor !in Investors(investments) {
      var front, last := investments[..|investments| - 1], investments[|investments| - 1];
      assert last in investments;
      assert forall i :: i in front ==> i in investments;
      NobodyYet(front, allocations, records, now, filtered, investor);
    }
  }

  // ------------------------------------------------------------------------------------ conservation

  lemma {:induction false} AllocationsSplit(own: seq<Allocation>, records: seq<Return>, now: int)
    ensures var p := AllocationsPart(own, records, now);
            p.inDevelopments + p.general == Total(own) && p.invested == 0 && p.unassigned == 0
  {
    if own != [] {
      AllocationsSplit(own[..|own| - 1], records, now);
      ReturnsOnly(ReturnsOf(records, own[|own| - 1].id), now);
    }
  }

  lemma {:induction false} ReturnsOnly(records: seq<Return>, now: int)
    ensures var p := ReturnsPart(records, now); p.inDevelopments == 0 && p.general == 0 && p.invested == 0 && p.unassigned == 0
  {
    if records != [] {
      ReturnsOnly(records[..|records| - 1], now);
    }
  }

  /** Without a development filter what an investor has invested is allocated, general cash or unassigned. */
  lemma {:induction false} InvestedSplits(investments: seq<Investment>, allocations: seq<Allocation>, records: seq<Return>, now: int, investor: Id)
    ensures var p := PositionOf(investments, allocations, records, now, false, investor);
            p.invested == p.inDevelopments + p.general + p.unassigned
  {
    if investments != [] {
      var front, last := investments[..|investments| - 1], investments[|investments| - 1];
      InvestedSplits(front, allocations, records, now, investor);
      AllocationsSplit(AllocationsOf(allocations, last.id), records, now);
    }
  }

  ghost predicate OnlyInDevelopments(p: Position) {
    p.invested == p.inDevelopments && p.general == 0 && p.unassigned == 0
  }

  lemma PlusInDevelopments(p: Position, q: Position)
    requires OnlyInDevelopments(p) && OnlyInDevelopments(q)
    ensures OnlyInDevelopments(Plus(p, q))
  {
  }

  /** With one, it is the capital allocated there. */
  lemma {:induction false} FilteredInvestedIsAllocated(investments: seq<Investment>, allocations: seq<Allocation>, records: seq<Return>,
                                                       now: int, filtered: bool, investor: Id)
    requires filtered && forall a :: a in allocations ==> a.development.Some?
    ensures OnlyInDevelopments(PositionOf(investments, allocations, records, now, filtered, investor))
  {
    if investments != [] {
      var front, last := investments[..|investments| - 1], investments[|investments| - 1];
      FilteredInvestedIsAllocated(front, allocations, records, now, filtered, investor);
      FilteredPart(last, allocations, records, now, filtered);
      PlusInDevelopments(PositionOf(front, allocations, records, now, filtered, investor),
                         if last.investor == investor then InvestmentPart(last, allocations, records, now, filtered) else NOTHING);
    }
  }

  lemma FilteredPart(i: Investment, allocations: seq<Allocation>, records: seq<Return>, now: int, filtered: bool)
    requires filtered && forall a :: a in allocations ==> a.development.Some?
    ensures OnlyInDevelopments(InvestmentPart(i, allocations, records, now, filtered))
  {
    var own := AllocationsOf(allocations, i.id);
    AllocationsSplit(own, records, now);
    OwnInDevelopments(allocations, i.id);
    NoGeneral(own, records, now);
    AllocatedOnly(AllocationsPart(own, records, now), Total(own));
  }

  lemma AllocatedOnly(part: Position, total: int)
    requires part.inDevelopments + part.general == total && part.general == 0 && part.invested == 0 && part.unassigned == 0
    ensures OnlyInDevelopments(Plus(NOTHING.(invested := total, unassigned := 0), part))
  {
  }

  lemma {:induction false} OwnInDevelopments(allocations: seq<Allocation>, investment: Id)
    requires forall a :: a in allocations ==> a.development.Some?
    ensures forall a :: a in AllocationsOf(allocations, investment) ==> a.development.Some?
  {
    if allocations != [] {
      var front := allocations[..|allocations| - 1];
      assert forall a :: a in front ==> a in allocations;
      assert allocations[|allocations| - 1] in allocations;
      OwnInDevelopments(front, investment);
    }
  }

  lemma {:induction false} NoGeneral(own: seq<Allocation>, records: seq<Return>, now: int)
    requires forall a :: a in own ==> a.development.Some?
    ensures AllocationsPart(own, records, now).general == 0
  {
    if own != [] {
      var front, last := own[..|own| - 1], own[|own| - 1];
      assert forall a :: a in front ==> a in own;
      assert last in own;
      NoGeneral(front, records, now);
      ReturnsOnly(ReturnsOf(records, last.id), now);
    }
  }

  /** The expected amounts of the paid returns. */
  function PaidExpected(records: seq<Return>): int {
    if records == [] then 0
    else
      var last := records[|records| - 1];
      PaidExpected(records[..|records| - 1]) + if last.status == Pago then last.expected else 0
  }

  function AllocationsPaidExpected(own: seq<Allocation>, records: seq<Return>): int {
    if own == [] then 0
    else AllocationsPaidExpected(own[..|own| - 1], records) + PaidExpected(ReturnsOf(records, own[|own| - 1].id))
  }

  function InvestorPaidExpected(investments: seq<Investment>, allocations: seq<Allocation>, records: seq<Return>, investor: Id): int {
    if investments == [] then 0
    else
      var last := investments[|investments| - 1];
      InvestorPaidExpected(investments[..|investments| - 1], allocations, records, investor)
      + if last.investor == investor then AllocationsPaidExpected(AllocationsOf(allocations, last.id), records) else 0
  }

  lemma {:induction false} ReturnsSplit(records: seq<Return>, now: int)
    ensures var p := ReturnsPart(records, now); p.expected == p.pending + p.overdue + PaidExpected(records)
  {
    if records != [] {
      ReturnsSplit(records[..|records| - 1], now);
    }
  }

  lemma {:induction false} AllocationReturnsSplit(own: seq<Allocation>, records: seq<Return>, now: int)
    ensures var p := AllocationsPart(own, records, now); p.expected == p.pending + p.overdue + AllocationsPaidExpected(own, records)
  {
    if own != [] {
      AllocationReturnsSplit(own[..|own| - 1], records, now);
      ReturnsSplit(ReturnsOf(records, own[|own| - 1].id), now);
    }
  }

  /** The expected returns of an investor split exactly into pending, overdue and the expected amount of paid ones. */
  lemma {:induction false} ExpectedSplits(investments: seq<Investment>, allocations: seq<Allocation>, records: seq<Return>, now: int, filtered: bool,
                                          investor: Id)
    ensures var p := PositionOf(investments, allocations, records, now, filtered, investor);
            p.expected == p.pending + p.overdue + InvestorPaidExpected(investments, allocations, records, investor)
  {
    if investments != [] {
      ExpectedSplits(investments[..|investments| - 1], allocations, records, now, filtered, investor);
      AllocationReturnsSplit(AllocationsOf(allocations, investments[|investments| - 1].id), records, now);
    }
  }

  // ---------------------------------------------------------------------------------- return columns

  type Counts = Return -> int

  /** What a return counts for in each column, on its row. */
  function Expected(): Counts { (r: Return) => r.expected }

  function Realized(): Counts {
    (r: Return) => if r.status == Pago && r.realized.Some? then r.realized.value else 0
  }

  /** Unpaid, not overdue by its status, and due from now on. */
  function Upcoming(now: int): Counts {
    (r: Return) => if r.status == Pendente && r.expectedDate >= now then r.expected else 0
  }

  /** Unpaid, and overdue by its status or due before now. */
  function Late(now: int): Counts {
    (r: Return) => if r.status == Atrasado || (r.status == Pendente && r.expectedDate < now) then r.expected else 0
  }

  function ReturnsSum(records: seq<Return>, f: Counts): int {
    if records == [] then 0 else ReturnsSum(records[..|records| - 1], f) + f(records[|records| - 1])
  }

  function AllocationsSum(own: seq<Allocation>, records: seq<Return>, f: Counts): int {
    if own == [] then 0
    else AllocationsSum(own[..|own| - 1], records, f) + ReturnsSum(ReturnsOf(records, own[|own| - 1].id), f)
  }

  /** The sum over the returns of the allocations of the investments of one investor. */
  function InvestorSum(investments: seq<Investment>, allocations: seq<Allocation>, records: seq<Return>, investor: Id, f: Counts): int {
    if investments == [] then 0
    else
      var last := investments[|investments| - 1];
      InvestorSum(investments[..|investments| - 1], allocations, records, investor, f)
      + if last.investor == investor then AllocationsSum(AllocationsOf(allocations, last.id), records, f) else 0
  }

  lemma {:induction false} ReturnColumns(records: seq<Return>, now: int)
    ensures var p := ReturnsPart(records, now);
            && p.expected == ReturnsSum(records, Expected()) && p.paid == ReturnsSum(records, Realized())
            && p.pending == ReturnsSum(records, Upcoming(now)) && p.overdue == ReturnsSum(records, Late(now))
  {
    if records != [] {
      ReturnColumns(records[..|records| - 1], now);
    }
  }

  lemma {:induction false} AllocationColumns(own: seq<Allocation>, records: seq<Return>, now: int)
    ensures var p := AllocationsPart(own, records, now);
            && p.expected == AllocationsSum(own, records, Expected()) && p.paid == AllocationsSum(own, records, Realized())
            && p.pending == AllocationsSum(own, records, Upcoming(now)) && p.overdue == AllocationsSum(own, records, Late(now))
  {
    if own != [] {
      AllocationColumns(own[..|own| - 1], records, now);
      ReturnColumns(ReturnsOf(records, own[|own| - 1].id), now);
    }
  }

  /** What the returns of an investment add to the columns of its investor. */
  lemma OwnReturns(i: Investment, own: seq<Allocation>, records: seq<Return>, now: int, filtered: bool)
    ensures var part, p := AllocationsPart(own, records, now), OwnPart(i, own, records, now, filtered);
            p.expected == part.expected && p.paid == part.paid && p.pending == part.pending && p.overdue == part.overdue
  {
  }

  lemma ColumnsOfLast(p: Position, before: Position, part: Position, his: bool)
    requires p == if his then Plus(before, part) else before
    ensures p.expected == before.expected + (if his then part.expected else 0)
    ensures p.paid == before.paid + (if his then part.paid else 0)
    ensures p.pending == before.pending + (if his then part.pending else 0)
    ensures p.overdue == before.overdue + (if his then part.overdue else 0)
  {
  }

  ghost predicate SumsAre(p: Position, investments: seq<Investment>, allocations: seq<Allocation>, records: seq<Return>, now: int, investor: Id) {
    && p.expected == InvestorSum(investments, allocations, records, investor, Expected())
    && p.paid == InvestorSum(investments, allocations, records, investor, Realized())
    && p.pending == InvestorSum(investments, allocations, records, investor, Upcoming(now))
    && p.overdue == InvestorSum(investments, allocations, records, investor, Late(now))
  }

  lemma SumOfLast(investments: seq<Investment>, allocations: seq<Allocation>, records: seq<Return>, investor: Id, f: Counts)
    requires investments != []
    ensures var last := investments[|investments| - 1];
            InvestorSum(investments, allocations, records, investor, f)
            == InvestorSum(investments[..|investments| - 1], allocations, records, investor, f)
               + if last.investor == investor then AllocationsSum(AllocationsOf(allocations, last.id), records, f) else 0
  {
  }

  /**
   * The columns of an investor on his return rows: expected is all of it, paid what was realised, pending what is unpaid
   * and due from now on, overdue what is unpaid and due before.
   */
  lemma {:induction false} ColumnsAreSums(investments: seq<Investment>, allocations: seq<Allocation>, records: seq<Return>, now: int, filtered: bool,
                                          investor: Id)
    ensures SumsAre(PositionOf(investments, allocations, records, now, filtered, investor), investments, allocations, records, now, investor)
  {
    if investments != [] {
      var front, last := investments[..|investments| - 1], investments[|investments| - 1];
      var own := AllocationsOf(allocations, last.id);
      ColumnsAreSums(front, allocations, records, now, filtered, investor);
      OwnReturns(last, own, records, now, filtered);
      AllocationColumns(own, records, now);
      ColumnsOfLast(PositionOf(investments, allocations, records, now, filtered, investor),
                    PositionOf(front, allocations, records, now, filtered, investor),
                    OwnPart(last, own, records, now, filtered), last.investor == investor);
      SumOfLast(investments, allocations, records, investor, Expected());
      SumOfLast(investments, allocations, records, investor, Realized());
      SumOfLast(investments, allocations, records, investor, Upcoming(now));
      SumOfLast(investments, allocations, records, investor, Late(now));
    }
  }
}
