/**
 * Row locks of the commercial transactions.  Each explicit FOR UPDATE is a step; a lock is kept until its transaction
 * ends.  All of them take Unit, Reservation, Proposal and Opportunity in this order, and so none waits forever.
 */
module LockOrder {
  import opened Common

  type Id = nat

  datatype Kind = UnitRow | ReservationRow | ProposalRow | OpportunityRow

  datatype Lock = Lock(kind: Kind, id: Id)

  /** The transactions that lock rows of the four tables, with the rows each of them finds on its way. */
  datatype Operation =
    | UpdateUnit(unit: Id)
    | NormalizeUnit(unit: Id)
    | CreateReservation(unit: Id)
    | TransitionReservation(unit: Id, reservation: Id)
    | CreateProposal(unit: Id, source: Option<Id>)
    | ChangeProposal(proposal: Id)
    | AcceptProposal(unit: Id, source: Option<Id>, proposal: Id, opportunity: Option<Id>)
    | ConvertProposal(unit: Id, source: Option<Id>, proposal: Id, opportunity: Option<Id>)
    | UpdateOpportunity(selected: Option<Id>, opportunityId: Id)
    | MoveOpportunity(opportunityId: Id)

  function Maybe(kind: Kind, id: Option<Id>): seq<Lock> {
    if id.Some? then [Lock(kind, id.value)] else []
  }

  /** The locks of a transaction that runs to its end, in the order it takes them. */
  function Locks(op: Operation): seq<Lock> {
    match op
    case UpdateUnit(u) => [Lock(UnitRow, u)]
    case NormalizeUnit(u) => [Lock(UnitRow, u)]
    case CreateReservation(u) => [Lock(UnitRow, u)]
    case TransitionReservation(u, r) => [Lock(UnitRow, u), Lock(ReservationRow, r)]
    case CreateProposal(u, r) => [Lock(UnitRow, u)] + Maybe(ReservationRow, r)
    case ChangeProposal(p) => [Lock(ProposalRow, p)]
    case AcceptProposal(u, r, p, o) => [Lock(UnitRow, u)] + Maybe(ReservationRow, r) + [Lock(ProposalRow, p)] + Maybe(OpportunityRow, o)
    case ConvertProposal(u, r, p, o) => [Lock(UnitRow, u)] + Maybe(ReservationRow, r) + [Lock(ProposalRow, p)] + Maybe(OpportunityRow, o)
    case UpdateOpportunity(u, o) => Maybe(UnitRow, u) + [Lock(OpportunityRow, o)]
    case MoveOpportunity(o) => [Lock(OpportunityRow, o)]
  }

  function Rank(lock: Lock): nat {
    match lock.kind
    case UnitRow => 1
    case ReservationRow => 2
    case ProposalRow => 3
    case OpportunityRow => 4
  }

  ghost predicate Ascending(locks: seq<Lock>) {
    forall i, j :: 0 <= i < j < |locks| ==> Rank(locks[i]) < Rank(locks[j])
  }

  /** Every transaction ascends, and so does one that ends early, by an exception, after its first n locks. */
  lemma TransactionsAscend(op: Operation, n: nat)
    requires n <= |Locks(op)|
    ensures Ascending(Locks(op)[..n])
  {
  }

  // ------------------------------------------------------------------------------------------ system

  /** A transaction with the locks it will take and how many it has. */
  datatype Tx = Tx(locks: seq<Lock>, taken: nat, ended: bool)

  type System = seq<Tx>

  datatype Event = Begin(locks: seq<Lock>) | Advance(tx: nat)

  predicate Holds(t: Tx, lock: Lock) {
    !t.ended && t.taken <= |t.locks| && lock in t.locks[..t.taken]
  }

  /** The lock a transaction asks for next is with another one. */
  ghost predicate WaitsFor(s: System, t: nat, u: nat)
    requires t < |s| && u < |s|
  {
    && t != u && !s[t].ended && s[t].taken < |s[t].locks| && Holds(s[u], s[t].locks[s[t].taken])
  }

  predicate Blocked(s: System, t: nat)
    requires t < |s|
  {
    exists u | 0 <= u < |s| :: t != u && !s[t].ended && s[t].taken < |s[t].locks| && Holds(s[u], s[t].locks[s[t].taken])
  }

  /** One transaction begins, takes its next lock, or ends and releases all; a blocked one does not move. */
  function Apply(s: System, e: Event): System {
    match e
    case Begin(locks) => s + [Tx(locks, 0, false)]
    case Advance(t) =>
      if t >= |s| || s[t].ended || Blocked(s, t) then s
      else if s[t].taken < |s[t].locks| then s[t := s[t].(taken := s[t].taken + 1)]
      else s[t := s[t].(ended := true)]
  }

  function Run(s: System, events: seq<Event>): System {
    if events == [] then s else Apply(Run(s, events[..|events| - 1]), events[|events| - 1])
  }

  /** Every transaction that begins takes its locks in ascending order. */
  ghost predicate Disciplined(events: seq<Event>) {
    forall k :: 0 <= k < |events| && events[k].Begin? ==> Ascending(events[k].locks)
  }

  ghost predicate Inv(s: System) {
    && (forall t :: 0 <= t < |s| ==> s[t].taken <= |s[t].locks| && Ascending(s[t].locks))
    && (forall t, u, lock :: 0 <= t < u < |s| && Holds(s[t], lock) ==> !Holds(s[u], lock))
  }

  lemma ApplyKeeps(s: System, e: Event)
    requires Inv(s) && (e.Begin? ==> Ascending(e.locks))
    ensures Inv(Apply(s, e))
  {
    match e
    case Begin(locks) => Begins(s, locks);
    case Advance(t) =>
      if t < |s| && !s[t].ended && !Blocked(s, t) {
        if s[t].taken < |s[t].locks| {
          TakesFree(s, t);
        } else {
          Ends(s, t);
        }
      }
  }

  lemma Begins(s: System, locks: seq<Lock>)
    requires Inv(s) && Ascending(locks)
    ensures Inv(s + [Tx(locks, 0, false)])
  {
    assert forall lock :: !Holds(Tx(locks, 0, false), lock);
  }

  lemma Ends(s: System, t: nat)
    requires Inv(s) && t < |s|
    ensures Inv(s[t := s[t].(ended := true)])
  {
    assert forall lock :: !Holds(s[t].(ended := true), lock);
  }

  /** The lock a transaction that is not blocked takes is held by nobody else. */
  lemma TakesFree(s: System, t: nat)
    requires Inv(s) && t < |s| && !s[t].ended && !Blocked(s, t) && s[t].taken < |s[t].locks|
    ensures Inv(s[t := s[t].(taken := s[t].taken + 1)])
  {
    var lock, moved := s[t].locks[s[t].taken], s[t].(taken := s[t].taken + 1);
    assert moved.locks[..moved.taken] == s[t].locks[..s[t].taken] + [lock];
    assert forall u :: 0 <= u < |s| && u != t ==> !Holds(s[u], lock);
    assert forall u, other :: 0 <= u < |s| && u != t && Holds(moved, other) ==> !Holds(s[u], other);
  }

  lemma {:induction false} RunKeeps(events: seq<Event>)
    requires Disciplined(events)
    ensures Inv(Run([], events))
  {
    if events != [] {
      RunKeeps(events[..|events| - 1]);
      ApplyKeeps(Run([], events[..|events| - 1]), events[|events| - 1]);
    }
  }

  /** In every run no two open transactions hold the same lock. */
  lemma LocksExclusive(events: seq<Event>, t: nat, u: nat, lock: Lock)
    requires Disciplined(events) && t < |Run([], events)| && u < |Run([], events)|
    requires Holds(Run([], events)[t], lock) && Holds(Run([], events)[u], lock)
    ensures t == u
  {
    RunKeeps(events);
  }

  // ---------------------------------------------------------------------------------------- deadlock

  /** A set of transactions each of which waits for a member of the set. */
  ghost predicate Deadlock(s: System, d: set<nat>) {
    && d != {}
    && (forall t :: t in d ==> t < |s|)
    && (forall t {:trigger WaitsWithin(s, t, d)} :: t in d ==> WaitsWithin(s, t, d))
  }

  ghost predicate WaitsWithin(s: System, t: nat, d: set<nat>) {
    t < |s| && exists u :: u in d && u < |s| && WaitsFor(s, t, u)
  }

  /** How far up the order a transaction holds locks. */
  function Level(t: Tx): nat {
    if 0 < t.taken <= |t.locks| then Rank(t.locks[t.taken - 1]) else 0
  }

  /** Whoever is waited for is further up. */
  lemma WaitsUpward(s: System, t: nat, u: nat)
    requires Inv(s) && t < |s| && u < |s| && WaitsFor(s, t, u)
    ensures Level(s[t]) < Level(s[u])
  {
  }

  lemma {:induction false} Topmost(s: System, d: set<nat>) returns (top: nat)
    requires d != {} && forall t :: t in d ==> t < |s|
    ensures top in d && forall t :: t in d ==> Level(s[t]) <= Level(s[top])
    decreases |d|
  {
    var t :| t in d;
    var rest := d - {t};
    assert forall x :: x in d ==> x == t || x in rest;
    if rest == {} {
      top := t;
    } else {
      top := Topmost(s, rest);
      if Level(s[t]) > Level(s[top]) {
        top := t;
      }
    }
  }

  /** No reachable state of disciplined transactions contains a deadlock. */
  lemma NoDeadlock(events: seq<Event>, d: set<nat>)
    requires Disciplined(events)
    ensures !Deadlock(Run([], events), d)
  {
    RunKeeps(events);
    var s := Run([], events);
    if Deadlock(s, d) {
      var top := Topmost(s, d);
      assert WaitsWithin(s, top, d);
      var u :| u in d && u < |s| && WaitsFor(s, top, u);
      WaitsUpward(s, top, u);
      assert false;
    }
  }

  /** The system of commercial transactions: each event begins one of them, perhaps cut short, or advances one. */
  ghost predicate Commercial(events: seq<Event>) {
    forall k :: 0 <= k < |events| && events[k].Begin? ==> IsTransaction(events[k].locks)
  }

  ghost predicate IsTransaction(locks: seq<Lock>) {
    exists op, n: nat :: n <= |Locks(op)| && locks == Locks(op)[..n]
  }

  /** Any interleaving of the commercial transactions is free of deadlock. */
  lemma CommercialNeverDeadlocks(events: seq<Event>, d: set<nat>)
    requires Commercial(events)
    ensures !Deadlock(Run([], events), d)
  {
    forall k | 0 <= k < |events| && events[k].Begin?
      ensures Ascending(events[k].locks)
    {
      assert IsTransaction(events[k].locks);
      var op, n: nat :| n <= |Locks(op)| && events[k].locks == Locks(op)[..n];
      TransactionsAscend(op, n);
    }
    NoDeadlock(events, d);
  }

  // ---------------------------------------------------------------------------------------- progress

  ghost predicate AllEnded(s: System) { forall t :: 0 <= t < |s| ==> s[t].ended }

  /** While a transaction is open, one of the open ones can move. */
  lemma SomeoneMoves(s: System) returns (t: nat)
    requires Inv(s) && !AllEnded(s)
    ensures t < |s| && !s[t].ended && !Blocked(s, t)
  {
    var open := set t: nat | t < |s| && !s[t].ended;
    var o: nat :| o < |s| && !s[o].ended;
    assert o in open;
    t := Topmost(s, open);
    if Blocked(s, t) {
      var u: nat :| u < |s| && t != u && Holds(s[u], s[t].locks[s[t].taken]);
      assert u in open;
      WaitsUpward(s, t, u);
    }
  }

  /** The steps left: the locks to take and the end of every open transaction. */
  function Remaining(s: System): nat {
    if s == [] then 0
    else
      var last := s[|s| - 1];
      Remaining(s[..|s| - 1])
      + if last.ended then 0 else 1 + if last.taken <= |last.locks| then |last.locks| - last.taken else 0
  }

  lemma {:induction false} RemainingUpdate(s: System, t: nat, moved: Tx)
    requires t < |s| && !s[t].ended && s[t].taken <= |s[t].locks| && moved.locks == s[t].locks
    requires if moved.ended then s[t].taken == |s[t].locks| else moved.taken == s[t].taken + 1 <= |s[t].locks|
    ensures Remaining(s[t := moved]) == Remaining(s) - 1
  {
    var front, after := s[..|s| - 1], s[t := moved];
    if t == |s| - 1 {
      assert after[..|after| - 1] == front;
    } else {
      assert after[..|after| - 1] == front[t := moved];
      RemainingUpdate(front, t, moved);
    }
  }

  lemma NothingRemains(s: System)
    requires Inv(s) && Remaining(s) == 0
    ensures AllEnded(s)
  {
  }

  lemma RunAppend(s: System, events: seq<Event>, e: Event)
    ensures Run(s, events + [e]) == Apply(Run(s, events), e)
  {
  }

  /** Every move of a transaction that is not blocked takes one of the remaining steps. */
  lemma AdvanceTakesOne(s: System, t: nat)
    requires Inv(s) && t < |s| && !s[t].ended && !Blocked(s, t)
    ensures Remaining(Apply(s, Advance(t))) == Remaining(s) - 1
  {
    RemainingUpdate(s, t, Apply(s, Advance(t))[t]);
  }

  /** From any reachable state, once no more transactions begin, all open ones end after exactly the remaining steps. */
  lemma AllEnd(s: System, n: nat) returns (events: seq<Event>)
    requires Inv(s) && n <= Remaining(s)
    ensures |events| == n && (forall k :: 0 <= k < n ==> events[k].Advance?)
    ensures Inv(Run(s, events)) && Remaining(Run(s, events)) == Remaining(s) - n
    ensures n == Remaining(s) ==> AllEnded(Run(s, events))
  {
    if n == 0 {
      events := [];
    } else {
      var before := AllEnd(s, n - 1);
      var middle := Run(s, before);
      if AllEnded(middle) {
        EndedRemainsNothing(middle);
      }
      var t := SomeoneMoves(middle);
      AdvanceTakesOne(middle, t);
      ApplyKeeps(middle, Advance(t));
      RunAppend(s, before, Advance(t));
      events := before + [Advance(t)];
    }
    if n == Remaining(s) {
      NothingRemains(Run(s, events));
    }
  }

  lemma EndedRemainsNothing(s: System)
    requires AllEnded(s)
    ensures Remaining(s) == 0
  {
  }

  // -------------------------------------------------------------------------------- the other order

  /** The order is what matters: two transactions that take any two locks in opposite orders can deadlock. */
  lemma OppositeOrdersDeadlock(a: Lock, b: Lock)
    requires a != b
    ensures Deadlock(Run([], [Begin([a, b])] + [Begin([b, a])] + [Advance(0)] + [Advance(1)]), {0, 1})
  {
    var s := [Tx([a, b], 1, false), Tx([b, a], 1, false)];
    RunOfFour(Begin([a, b]), Begin([b, a]), Advance(0), Advance(1));
    BothMove([a, b], [b, a]);
    assert s[0].locks[..1] == [a] && s[1].locks[..1] == [b];
    assert WaitsFor(s, 0, 1) && WaitsFor(s, 1, 0);
    assert WaitsWithin(s, 0, {0, 1}) && WaitsWithin(s, 1, {0, 1});
  }

  lemma RunOfFour(w: Event, x: Event, y: Event, z: Event)
    ensures Run([], [w] + [x] + [y] + [z]) == Apply(Apply(Apply(Apply([], w), x), y), z)
  {
    RunAppend([], [], w);
    assert [] + [w] == [w];
    RunAppend([], [w], x);
    RunAppend([], [w] + [x], y);
    RunAppend([], [w] + [x] + [y], z);
  }

  /** Both begin and take their first lock. */
  lemma BothMove(p: seq<Lock>, q: seq<Lock>)
    requires |p| == |q| == 2 && p[0] != q[0]
    ensures Apply(Apply(Apply(Apply([], Begin(p)), Begin(q)), Advance(0)), Advance(1)) == [Tx(p, 1, false), Tx(q, 1, false)]
  {
    var begun := [Tx(p, 0, false), Tx(q, 0, false)];
    assert Apply(Apply([], Begin(p)), Begin(q)) == begun;
    FirstMoves(p, q);
    SecondMoves(p, q);
  }

  lemma FirstMoves(p: seq<Lock>, q: seq<Lock>)
    requires |p| == |q| == 2
    ensures Apply([Tx(p, 0, false), Tx(q, 0, false)], Advance(0)) == [Tx(p, 1, false), Tx(q, 0, false)]
  {
  }

  lemma SecondMoves(p: seq<Lock>, q: seq<Lock>)
    requires |p| == |q| == 2 && p[0] != q[0]
    ensures Apply([Tx(p, 1, false), Tx(q, 0, false)], Advance(1)) == [Tx(p, 1, false), Tx(q, 1, false)]
  {
    assert p[..1] == [p[0]];
  }
}
