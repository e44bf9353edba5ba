/**
 * Bank matching between transactions that interleave at their row locks.  Rows read under a lock are the committed
 * ones; writes become visible at the commit, which also frees the locks; a statement that meets a locked row waits and
 * then sees the row as it was committed (READ COMMITTED).
 */
module MatchingInterleaving {
  import opened Common
  import opened Ledger
  import opened LedgerInvariant
  import LedgerMoney

  /** The committed rows of the two tables. */
  datatype Store = Store(entries: seq<Entry>, transactions: seq<Transaction>)

  /**
   * A running call and how far it got.  match: 1 with the entry locked and found PENDENTE, 2 with the transaction
   * locked and found corresponding, 3 with no other entry found on it.  unmatch, ignore and restore: 1 with the entry
   * locked and found in the expected status.  reversePayment: 1 with the transaction row written, 2 with its entries
   * written.
   */
  datatype Call =
    | Matching(entry: Id, transaction: Id, phase: nat)
    | Changing(entry: Id, expected: EntryStatus, target: EntryStatus, phase: nat)
    | Reversing(transaction: Id, phase: nat, freed: set<Id>)
    | Ended

  datatype System = System(store: Store, calls: seq<Call>)

  datatype Event = Begin(call: Call) | Advance(which: nat, now: Time)

  predicate HoldsEntry(c: Call, entry: Id) {
    match c
    case Matching(e, _, phase) => e == entry && phase >= 1
    case Changing(e, _, _, phase) => e == entry && phase >= 1
    case Reversing(_, phase, freed) => phase >= 2 && entry in freed
    case Ended => false
  }

  predicate HoldsTransaction(c: Call, transaction: Id) {
    match c
    case Matching(_, t, phase) => t == transaction && phase >= 2
    case Reversing(t, phase, _) => t == transaction && phase >= 1
    case _ => false
  }

  predicate EntryLocked(calls: seq<Call>, me: nat, entry: Id) {
    exists q | 0 <= q < |calls| :: q != me && HoldsEntry(calls[q], entry)
  }

  predicate TransactionLocked(calls: seq<Call>, me: nat, transaction: Id) {
    exists q | 0 <= q < |calls| :: q != me && HoldsTransaction(calls[q], transaction)
  }

  predicate AnyMatched(entries: seq<Entry>, transaction: Id) {
    exists e | 0 <= e < |entries| :: entries[e].matched == Some(transaction)
  }

  function MatchedTo(entries: seq<Entry>, transaction: Id): set<Id> {
    set e: Id | e < |entries| && entries[e].matched == Some(transaction)
  }

  function Reconciled(entry: Entry, transaction: Id, now: Time): Entry {
    entry.(status := Conciliado, matched := Some(transaction), reconciledAt := Some(now), ignoredAt := None)
  }

  function Changed(entry: Entry, target: EntryStatus, now: Time): Entry {
    entry.(status := target, matched := None, reconciledAt := None, ignoredAt := if target == Ignorado then Some(now) else None)
  }

  function Freed(entries: seq<Entry>, freed: set<Id>): seq<Entry> {
    seq(|entries|, e requires 0 <= e < |entries| =>
      if e in freed then entries[e].(status := EntryStatus.Pendente, matched := None, reconciledAt := None) else entries[e])
  }

  /** The call of process p after its next statement: itself while it waits, Ended after an exception. */
  function NextPhase(s: System, p: nat): Call
    requires p < |s.calls|
  {
    var entries, transactions := s.store.entries, s.store.transactions;
    match s.calls[p]
    case Matching(e, t, phase) =>
      if phase == 0 then
        if e >= |entries| then Ended
        else if EntryLocked(s.calls, p, e) then s.calls[p]
        else if entries[e].status != EntryStatus.Pendente then Ended
        else Matching(e, t, 1)
      else if phase == 1 then
        if t >= |transactions| || e >= |entries| then Ended
        else if TransactionLocked(s.calls, p, t) then s.calls[p]
        else if !Corresponds(entries[e], transactions[t]) then Ended
        else Matching(e, t, 2)
      else if phase == 2 then
        if AnyMatched(entries, t) then Ended else Matching(e, t, 3)
      else Ended
    case Changing(e, expected, target, phase) =>
      if phase == 0 then
        if e >= |entries| then Ended
        else if EntryLocked(s.calls, p, e) then s.calls[p]
        else if entries[e].status != expected then Ended
        else Changing(e, expected, target, 1)
      else Ended
    case Reversing(t, phase, _) =>
      if phase == 0 then
        if t >= |transactions| then Ended
        else if TransactionLocked(s.calls, p, t) then s.calls[p]
        else if transactions[t].reversedAt.Some? then Ended
        else Reversing(t, 1, {})
      else if phase == 1 then
        if exists e | 0 <= e < |entries| :: entries[e].matched == Some(t) && EntryLocked(s.calls, p, e) then s.calls[p]
        else Reversing(t, 2, MatchedTo(entries, t))
      else Ended
    case Ended => Ended
  }

  /** The committed rows after the next statement of process p: changed only by a commit. */
  function NextStore(s: System, p: nat, now: Time): Store
    requires p < |s.calls|
  {
    var entries, transactions := s.store.entries, s.store.transactions;
    match s.calls[p]
    case Matching(e, t, phase) =>
      if phase == 3 && e < |entries| then Store(entries[e := Reconciled(entries[e], t, now)], transactions) else s.store
    case Changing(e, _, target, phase) =>
      if phase == 1 && e < |entries| then Store(entries[e := Changed(entries[e], target, now)], transactions) else s.store
    case Reversing(t, phase, freed) =>
      if phase == 2 && t < |transactions|
      then Store(Freed(entries, freed), transactions[t := transactions[t].(reversedAt := Some(now))])
      else s.store
    case Ended => s.store
  }

  /** A call that begins; unmatch, ignore and restore never aim at CONCILIADO. */
  predicate Fresh(c: Call) {
    match c
    case Matching(_, _, phase) => phase == 0
    case Changing(_, _, target, phase) => phase == 0 && target != Conciliado
    case Reversing(_, phase, freed) => phase == 0 && freed == {}
    case Ended => false
  }

  function Apply(s: System, event: Event): System {
    match event
    case Begin(c) => if Fresh(c) then s.(calls := s.calls + [c]) else s
    case Advance(p, now) =>
      if p >= |s.calls| then s else System(NextStore(s, p, now), s.calls[p := NextPhase(s, p)])
  }

  function Run(s: System, events: seq<Event>): System {
    if events == [] then s else Apply(Run(s, events[..|events| - 1]), events[|events| - 1])
  }

  // --------------------------------------------------------------------------------------- invariant

  /** What a call has established about the rows it has locked. */
  ghost predicate CallOk(c: Call, store: Store) {
    match c
    case Matching(e, t, phase) =>
      && phase <= 3
      && (phase >= 1 ==> e < |store.entries| && store.entries[e].status == EntryStatus.Pendente)
      && (phase >= 2 ==> t < |store.transactions| && Corresponds(store.entries[e], store.transactions[t]))
      && (phase >= 3 ==> !AnyMatched(store.entries, t))
    case Changing(e, expected, target, phase) =>
      phase <= 1 && target != Conciliado && (phase >= 1 ==> e < |store.entries| && store.entries[e].status == expected)
    case Reversing(t, phase, freed) =>
      && phase <= 2
      && (phase >= 1 ==> t < |store.transactions| && store.transactions[t].reversedAt.None?)
      && (phase >= 2 ==> freed == MatchedTo(store.entries, t))
    case Ended => true
  }

  ghost predicate Exclusive(calls: seq<Call>) {
    && (forall p, q, e :: 0 <= p < q < |calls| && HoldsEntry(calls[p], e) ==> !HoldsEntry(calls[q], e))
    && (forall p, q, t :: 0 <= p < q < |calls| && HoldsTransaction(calls[p], t) ==> !HoldsTransaction(calls[q], t))
  }

  ghost predicate Inv(s: System) {
    && MatchingOk(s.store.entries, s.store.transactions)
    && Exclusive(s.calls)
    && forall p :: 0 <= p < |s.calls| ==> CallOk(s.calls[p], s.store)
  }

  /** The rows a commit of process p may change are the ones p has locked. */
  ghost predicate OnlyOwnRows(c: Call, before: Store, after: Store) {
    && |after.entries| == |before.entries|
    && |after.transactions| == |before.transactions|
    && (forall e :: 0 <= e < |before.entries| && after.entries[e] != before.entries[e] ==> HoldsEntry(c, e))
    && (forall t :: 0 <= t < |before.transactions| && after.transactions[t] != before.transactions[t] ==> HoldsTransaction(c, t))
    && (forall e, t: Id :: 0 <= e < |before.entries| && after.entries[e].matched == Some(t) && before.entries[e].matched != Some(t)
          ==> HoldsTransaction(c, t))
  }

  lemma CommitsOwnRows(s: System, p: nat, now: Time)
    requires Inv(s) && p < |s.calls|
    ensures OnlyOwnRows(s.calls[p], s.store, NextStore(s, p, now))
  {
  }

  /** What another call has established survives a commit of p. */
  lemma OthersUndisturbed(c: Call, d: Call, before: Store, after: Store)
    requires CallOk(d, before) && OnlyOwnRows(c, before, after)
    requires forall e :: HoldsEntry(c, e) ==> !HoldsEntry(d, e)
    requires forall t :: HoldsTransaction(c, t) ==> !HoldsTransaction(d, t)
    ensures CallOk(d, after)
  {
  }

  lemma CommitKeepsMatching(s: System, p: nat, now: Time)
    requires Inv(s) && p < |s.calls|
    ensures MatchingOk(NextStore(s, p, now).entries, NextStore(s, p, now).transactions)
  {
    var c, entries, transactions := s.calls[p], s.store.entries, s.store.transactions;
    assert CallOk(c, s.store);
    match c
    case Matching(e, t, phase) =>
      if phase == 3 {
        OneEntryWritten(entries, transactions, e, Reconciled(entries[e], t, now));
      }
    case Changing(e, expected, target, phase) =>
      if phase == 1 {
        OneEntryWritten(entries, transactions, e, Changed(entries[e], target, now));
      }
    case Reversing(t, phase, freed) =>
      if phase == 2 {
        ReversalWritten(entries, transactions, t, now);
      }
    case Ended =>
  }

  lemma OneEntryWritten(entries: seq<Entry>, transactions: seq<Transaction>, e: Id, entry: Entry)
    requires MatchingOk(entries, transactions) && e < |entries| && EntryOk(entry, transactions)
    requires entry.matched.Some? ==> !AnyMatched(entries, entry.matched.value)
    ensures MatchingOk(entries[e := entry], transactions)
  {
  }

  lemma ReversalWritten(entries: seq<Entry>, transactions: seq<Transaction>, t: Id, now: Time)
    requires MatchingOk(entries, transactions) && t < |transactions|
    ensures MatchingOk(Freed(entries, MatchedTo(entries, t)), transactions[t := transactions[t].(reversedAt := Some(now))])
  {
  }

  /** The next statement of p establishes what its new phase claims, on the rows as they are committed after it. */
  lemma PhaseEstablished(s: System, p: nat, now: Time)
    requires Inv(s) && p < |s.calls|
    ensures CallOk(NextPhase(s, p), NextStore(s, p, now))
  {
  }

  lemma LocksStayExclusive(s: System, p: nat)
    requires Inv(s) && p < |s.calls|
    ensures Exclusive(s.calls[p := NextPhase(s, p)])
  {
    var next := NextPhase(s, p);
    assert CallOk(s.calls[p], s.store);
    forall q, e | 0 <= q < |s.calls| && q != p && HoldsEntry(next, e)
      ensures !HoldsEntry(s.calls[q], e)
    {
      if !HoldsEntry(s.calls[p], e) {
        assert !EntryLocked(s.calls, p, e);
      }
    }
    forall q, t | 0 <= q < |s.calls| && q != p && HoldsTransaction(next, t)
      ensures !HoldsTransaction(s.calls[q], t)
    {
      if !HoldsTransaction(s.calls[p], t) {
        assert !TransactionLocked(s.calls, p, t);
      }
    }
  }

  lemma AdvanceKeeps(s: System, p: nat, now: Time)
    requires Inv(s) && p < |s.calls|
    ensures Inv(Apply(s, Advance(p, now)))
  {
    var after := Apply(s, Advance(p, now));
    CommitKeepsMatching(s, p, now);
    LocksStayExclusive(s, p);
    CommitsOwnRows(s, p, now);
    forall q | 0 <= q < |after.calls|
      ensures CallOk(after.calls[q], after.store)
    {
      if q == p {
        PhaseEstablished(s, p, now);
      } else {
        OthersUndisturbed(s.calls[p], s.calls[q], s.store, after.store);
      }
    }
  }

  lemma BeginKeeps(s: System, c: Call)
    requires Inv(s)
    ensures Inv(Apply(s, Begin(c)))
  {
  }

  /**
   * However match, unmatch, ignore, restore and payment reversals interleave at their row locks, after every commit an
   * entry is CONCILIADO exactly when it points to a live corresponding transaction, and no two share one.
   */
  lemma {:induction false} MatchingSurvivesInterleaving(s: System, events: seq<Event>)
    requires MatchingOk(s.store.entries, s.store.transactions) && s.calls == []
    ensures Inv(Run(s, events))
    ensures MatchingOk(Run(s, events).store.entries, Run(s, events).store.transactions)
  {
    if events != [] {
      MatchingSurvivesInterleaving(s, events[..|events| - 1]);
      var before := Run(s, events[..|events| - 1]);
      match events[|events| - 1]
      case Begin(c) => BeginKeeps(before, c);
      case Advance(p, now) =>
        if p < |before.calls| {
          AdvanceKeeps(before, p, now);
        }
    }
  }

  // ------------------------------------------------------------------------------------ serial order

  /** A call of the ledger that runs in one piece. */
  datatype Atomic =
    | MatchNow(entry: Id, transaction: Id, now: Time)
    | ChangeNow(entry: Id, expected: EntryStatus, target: EntryStatus, now: Time)
    | ReverseNow(transaction: Id, now: Time)

  /** The two tables as a ledger. */
  function LedgerOf(store: Store): Db {
    Ledger.Empty({}).(entries := store.entries, transactions := store.transactions)
  }

  /** What the ledger leaves of the two tables, or that it refuses the call. */
  function Serial(store: Store, a: Atomic): Option<Store> {
    match a
    case MatchNow(e, t, now) =>
      var done := Match(LedgerOf(store), e, t, now);
      if done.Ok? then Some(Store(done.value.entries, done.value.transactions)) else None
    case ChangeNow(e, expected, target, now) =>
      var done := ChangeStatus(LedgerOf(store), e, expected, target, now);
      if done.Ok? then Some(Store(done.value.entries, done.value.transactions)) else None
    case ReverseNow(t, now) =>
      if t >= |store.transactions| || store.transactions[t].reversedAt.Some? then None
      else
        Some(Store(Unmatched(store.entries, t), store.transactions[t := store.transactions[t].(reversedAt := Some(now))]))
  }

  /** For the transaction of a payment that is what the ledger writes when it reverses the payment. */
  lemma ReverseIsLedgers(db: Db, payment: Id, now: Time)
    requires Paired(db.payments, db.transactions) && payment < |db.payments| && db.transactions[payment].reversedAt.None?
    ensures Reversed(db, payment, now).Ok?
    ensures Serial(Store(db.entries, db.transactions), ReverseNow(payment, now))
         == Some(Store(Reversed(db, payment, now).value.entries, Reversed(db, payment, now).value.transactions))
  {
    var reversed := LedgerMoney.ReversedRows(db, payment, now);
  }

  /** The call that the next statement of p commits, if it is its last one. */
  function CommitOf(c: Call, now: Time): Option<Atomic> {
    match c
    case Matching(e, t, phase) => if phase == 3 then Some(MatchNow(e, t, now)) else None
    case Changing(e, expected, target, phase) => if phase == 1 then Some(ChangeNow(e, expected, target, now)) else None
    case Reversing(t, phase, _) => if phase == 2 then Some(ReverseNow(t, now)) else None
    case Ended => None
  }

  /** The calls committed by a run, in the order of their commits. */
  function Commits(s: System, events: seq<Event>): seq<Atomic> {
    if events == [] then []
    else
      var before, event := Run(s, events[..|events| - 1]), events[|events| - 1];
      Commits(s, events[..|events| - 1])
      + if event.Advance? && event.which < |before.calls| && CommitOf(before.calls[event.which], event.now).Some?
        then [CommitOf(before.calls[event.which], event.now).value] else []
  }

  /** One call after the other, each accepted by the ledger. */
  function SerialRun(store: Store, calls: seq<Atomic>): Option<Store> {
    if calls == [] then Some(store)
    else
      match SerialRun(store, calls[..|calls| - 1])
      case None => None
      case Some(before) => Serial(before, calls[|calls| - 1])
  }

  lemma SameFreed(entries: seq<Entry>, t: Id)
    ensures Freed(entries, MatchedTo(entries, t)) == Unmatched(entries, t)
  {
  }

  /** What a commit writes is what the ledger writes for the call on the rows as they are committed then. */
  lemma CommitIsAtomic(s: System, p: nat, now: Time)
    requires Inv(s) && p < |s.calls|
    ensures if CommitOf(s.calls[p], now).Some? then Serial(s.store, CommitOf(s.calls[p], now).value) == Some(NextStore(s, p, now))
            else NextStore(s, p, now) == s.store
  {
    assert CallOk(s.calls[p], s.store);
    if s.calls[p].Reversing? {
      SameFreed(s.store.entries, s.calls[p].transaction);
    }
  }

  lemma SerialAppend(store: Store, calls: seq<Atomic>, a: Atomic, before: Store)
    requires SerialRun(store, calls) == Some(before)
    ensures SerialRun(store, calls + [a]) == Serial(before, a)
  {
    assert (calls + [a])[..|calls|] == calls;
  }

  /**
   * Every interleaving is serial: its committed rows are those of its committed calls run by the ledger one after the
   * other, in the order of their commits, and the ledger accepts each of them.
   */
  lemma {:induction false} InterleavingIsSerial(s: System, events: seq<Event>)
    requires MatchingOk(s.store.entries, s.store.transactions) && s.calls == []
    ensures SerialRun(s.store, Commits(s, events)) == Some(Run(s, events).store)
  {
    if events != [] {
      var front, event := events[..|events| - 1], events[|events| - 1];
      var before := Run(s, front);
      InterleavingIsSerial(s, front);
      MatchingSurvivesInterleaving(s, front);
      if event.Advance? && event.which < |before.calls| {
        CommitIsAtomic(before, event.which, event.now);
        var commit := CommitOf(before.calls[event.which], event.now);
        if commit.Some? {
          SerialAppend(s.store, Commits(s, front), commit.value, before.store);
        } else {
          assert Commits(s, front) + [] == Commits(s, front);
        }
      } else {
        assert Commits(s, front) + [] == Commits(s, front);
      }
    }
  }

  // ------------------------------------------------------------------------------------- undisturbed

  /** The next statement of a process. */
  function Then(s: System, p: nat, now: Time): System { Apply(s, Advance(p, now)) }

  /** The call has ended, and left the rows as the ledger does, or untouched if the ledger refuses it. */
  ghost predicate EndsAs(s: System, p: nat, a: Atomic, after: System) {
    && p < |s.calls| && after.calls == s.calls[p := Ended]
    && after.store == if Serial(s.store, a).Some? then Serial(s.store, a).value else s.store
  }

  /** A match that meets no lock runs to its end in four statements, as the ledger does it. */
  lemma MatchRuns(s: System, p: nat, e: Id, t: Id, now: Time)
    requires p < |s.calls| && s.calls[p] == Matching(e, t, 0)
    requires !EntryLocked(s.calls, p, e) && !TransactionLocked(s.calls, p, t)
    ensures EndsAs(s, p, MatchNow(e, t, now), Then(Then(Then(Then(s, p, now), p, now), p, now), p, now))
  {
    var one := Then(s, p, now);
    var two := Then(one, p, now);
    var three := Then(two, p, now);
    var four := Then(three, p, now);
    assert forall q :: 0 <= q < |s.calls| && q != p ==> one.calls[q] == s.calls[q];
    assert !TransactionLocked(one.calls, p, t);
    assert four.calls == s.calls[p := Ended];
  }

  /** So do unmatch, ignore and restore, in two. */
  lemma ChangeRuns(s: System, p: nat, e: Id, expected: EntryStatus, target: EntryStatus, now: Time)
    requires p < |s.calls| && s.calls[p] == Changing(e, expected, target, 0) && !EntryLocked(s.calls, p, e)
    ensures EndsAs(s, p, ChangeNow(e, expected, target, now), Then(Then(s, p, now), p, now))
  {
    assert Then(Then(s, p, now), p, now).calls == s.calls[p := Ended];
  }

  /** And a reversal in three, if no entry of its transaction is locked either. */
  lemma ReversalRuns(s: System, p: nat, t: Id, now: Time)
    requires p < |s.calls| && s.calls[p] == Reversing(t, 0, {}) && !TransactionLocked(s.calls, p, t)
    requires forall e :: 0 <= e < |s.store.entries| && s.store.entries[e].matched == Some(t) ==> !EntryLocked(s.calls, p, e)
    ensures EndsAs(s, p, ReverseNow(t, now), Then(Then(Then(s, p, now), p, now), p, now))
  {
    var one := Then(s, p, now);
    var two := Then(one, p, now);
    assert forall q :: 0 <= q < |s.calls| && q != p ==> one.calls[q] == s.calls[q];
    forall e | 0 <= e < |s.store.entries| && s.store.entries[e].matched == Some(t)
      ensures !EntryLocked(one.calls, p, e)
    {
      assert !EntryLocked(s.calls, p, e);
    }
    SameFreed(s.store.entries, t);
    assert Then(two, p, now).calls == s.calls[p := Ended];
  }

  // ---------------------------------------------------------------------------------------- deadlock

  /** Process p waits for a row that q has locked. */
  ghost predicate WaitsFor(s: System, p: nat, q: nat) {
    && p < |s.calls| && q < |s.calls| && p != q
    && match s.calls[p]
       case Matching(e, t, phase) =>
         (phase == 0 && HoldsEntry(s.calls[q], e)) || (phase == 1 && HoldsTransaction(s.calls[q], t))
       case Changing(e, _, _, phase) => phase == 0 && HoldsEntry(s.calls[q], e)
       case Reversing(t, phase, _) =>
         || (phase == 0 && HoldsTransaction(s.calls[q], t))
         || (phase == 1 && exists e :: 0 <= e < |s.store.entries| && s.store.entries[e].matched == Some(t) && HoldsEntry(s.calls[q], e))
       case Ended => false
  }

  ghost predicate WaitsWithin(s: System, p: nat, d: set<nat>) {
    exists q :: q in d && WaitsFor(s, p, q)
  }

  ghost predicate Deadlock(s: System, d: set<nat>) {
    d != {} && forall p {:trigger WaitsWithin(s, p, d)} :: p in d ==> WaitsWithin(s, p, d)
  }

  /** A reversal never waits for a match: the entry of a match is PENDENTE, and a reversal only wants matched ones. */
  lemma ReversalWaitsBriefly(s: System, p: nat, q: nat)
    requires Inv(s) && WaitsFor(s, p, q) && s.calls[p].Reversing? && s.calls[p].phase == 1
    ensures forall r :: !WaitsFor(s, q, r)
  {
  }

  /** Who holds a row and waits for another is a match with its entry or a reversal with its transaction. */
  lemma WaitingHolder(s: System, p: nat, q: nat, r: nat)
    requires Inv(s) && WaitsFor(s, p, q) && WaitsFor(s, q, r)
    ensures (s.calls[q].Matching? || s.calls[q].Reversing?) && s.calls[q].phase == 1
  {
  }

  /**
   * match locks an entry and then a transaction, a reversal the other way round, and still no interleaving deadlocks:
   * a reversal can only wait for calls that wait for nobody.
   */
  lemma MatchingNeverDeadlocks(s: System, events: seq<Event>, d: set<nat>)
    requires MatchingOk(s.store.entries, s.store.transactions) && s.calls == []
    ensures !Deadlock(Run(s, events), d)
  {
    MatchingSurvivesInterleaving(s, events);
    var now := Run(s, events);
    if Deadlock(now, d) {
      var p :| p in d;
      var q := Blocker(now, p, d);
      var r := Blocker(now, q, d);
      var u := Blocker(now, r, d);
      var v := Blocker(now, u, d);
      WaitingHolder(now, p, q, r);
      WaitingHolder(now, q, r, u);
      if now.calls[q].Reversing? {
        ReversalWaitsBriefly(now, q, r);
      } else {
        assert now.calls[r].Reversing?;
        ReversalWaitsBriefly(now, r, u);
      }
      assert false;
    }
  }

  lemma Blocker(s: System, p: nat, d: set<nat>) returns (q: nat)
    requires Deadlock(s, d) && p in d
    ensures q in d && WaitsFor(s, p, q)
  {
    assert WaitsWithin(s, p, d);
    q :| q in d && WaitsFor(s, p, q);
  }
}
