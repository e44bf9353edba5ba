/**
 * The timeline of an opportunity: six sources, one keyset page at a time.  The rows are those of one opportunity; the
 * order of ids is whatever strict total order the database collates strings by.
 */
module Timeline {
  import opened Common
  import opened Calendar
  import opened TimelineCursor

  datatype StageRow = StageRow(id: string, changedAt: Instant)
  datatype ActivityRow = ActivityRow(id: string, completedAt: Option<Instant>, createdAt: Instant)
  datatype VisitRow = VisitRow(id: string, completedAt: Option<Instant>, cancelledAt: Option<Instant>, scheduledAt: Instant)
  datatype ReservationRow = ReservationRow(id: string, convertedAt: Option<Instant>, cancelledAt: Option<Instant>, createdAt: Instant)
  datatype ProposalRow = ProposalRow(id: string, convertedToSaleAt: Option<Instant>, acceptedAt: Option<Instant>,
                                     rejectedAt: Option<Instant>, sentAt: Option<Instant>, createdAt: Instant)
  datatype SaleRow = SaleRow(id: string, saleDate: Instant)

  datatype Data = Data(stages: seq<StageRow>, activities: seq<ActivityRow>, visits: seq<VisitRow>,
                       reservations: seq<ReservationRow>, proposals: seq<ProposalRow>, sales: seq<SaleRow>)

  type Collation = (string, string) -> bool

  function Coalesce(first: Option<Instant>, other: Instant): Instant {
    if first.Some? then first.value else other
  }

  function StageKeys(rows: seq<StageRow>): seq<Key> {
    seq(|rows|, i requires 0 <= i < |rows| => Key("stage" + ":" + rows[i].id, rows[i].changedAt))
  }

  function ActivityKeys(rows: seq<ActivityRow>): seq<Key> {
    seq(|rows|, i requires 0 <= i < |rows| => Key("activity" + ":" + rows[i].id, Coalesce(rows[i].completedAt, rows[i].createdAt)))
  }

  function VisitKeys(rows: seq<VisitRow>): seq<Key> {
    seq(|rows|, i requires 0 <= i < |rows| =>
      Key("visit" + ":" + rows[i].id, Coalesce(rows[i].completedAt, Coalesce(rows[i].cancelledAt, rows[i].scheduledAt))))
  }

  function ReservationKeys(rows: seq<ReservationRow>): seq<Key> {
    seq(|rows|, i requires 0 <= i < |rows| =>
      Key("reservation" + ":" + rows[i].id, Coalesce(rows[i].convertedAt, Coalesce(rows[i].cancelledAt, rows[i].createdAt))))
  }

  function ProposalKeys(rows: seq<ProposalRow>): seq<Key> {
    seq(|rows|, i requires 0 <= i < |rows| =>
      Key("proposal" + ":" + rows[i].id,
          Coalesce(rows[i].convertedToSaleAt,
                   Coalesce(rows[i].acceptedAt, Coalesce(rows[i].rejectedAt, Coalesce(rows[i].sentAt, rows[i].createdAt))))))
  }

  function SaleKeys(rows: seq<SaleRow>): seq<Key> {
    seq(|rows|, i requires 0 <= i < |rows| => Key("sale" + ":" + rows[i].id, rows[i].saleDate))
  }

  /** The UNION ALL of the six sources. */
  function Events(d: Data): seq<Key> {
    StageKeys(d.stages) + ActivityKeys(d.activities) + VisitKeys(d.visits)
    + ReservationKeys(d.reservations) + ProposalKeys(d.proposals) + SaleKeys(d.sales)
  }

  /** The time the projection of a page shows for a row: the first of its dates that is set. */
  function VisitTime(row: VisitRow): Instant {
    if row.completedAt.Some? then row.completedAt.value
    else if row.cancelledAt.Some? then row.cancelledAt.value
    else row.scheduledAt
  }

  function ReservationTime(row: ReservationRow): Instant {
    if row.convertedAt.Some? then row.convertedAt.value
    else if row.cancelledAt.Some? then row.cancelledAt.value
    else row.createdAt
  }

  function ProposalTime(row: ProposalRow): Instant {
    if row.convertedToSaleAt.Some? then row.convertedToSaleAt.value
    else if row.acceptedAt.Some? then row.acceptedAt.value
    else if row.rejectedAt.Some? then row.rejectedAt.value
    else if row.sentAt.Some? then row.sentAt.value
    else row.createdAt
  }

  function ActivityTime(row: ActivityRow): Instant {
    if row.completedAt.Some? then row.completedAt.value else row.createdAt
  }

  /** The key query and the projection give every event the same time. */
  lemma TimesAgree(d: Data)
    ensures forall i :: 0 <= i < |d.activities| ==> ActivityKeys(d.activities)[i].at == ActivityTime(d.activities[i])
    ensures forall i :: 0 <= i < |d.visits| ==> VisitKeys(d.visits)[i].at == VisitTime(d.visits[i])
    ensures forall i :: 0 <= i < |d.reservations| ==> ReservationKeys(d.reservations)[i].at == ReservationTime(d.reservations[i])
    ensures forall i :: 0 <= i < |d.proposals| ==> ProposalKeys(d.proposals)[i].at == ProposalTime(d.proposals[i])
  {
  }

  lemma SixParts(a: seq<Key>, b: seq<Key>, c: seq<Key>, d: seq<Key>, e: seq<Key>, f: seq<Key>)
    ensures var all := a + b + c + d + e + f;
            && |all| == |a| + |b| + |c| + |d| + |e| + |f|
            && (forall i :: 0 <= i < |a| ==> all[i] == a[i])
            && (forall i :: 0 <= i < |b| ==> all[|a| + i] == b[i])
            && (forall i :: 0 <= i < |c| ==> all[|a| + |b| + i] == c[i])
            && (forall i :: 0 <= i < |d| ==> all[|a| + |b| + |c| + i] == d[i])
            && (forall i :: 0 <= i < |e| ==> all[|a| + |b| + |c| + |d| + i] == e[i])
            && (forall i :: 0 <= i < |f| ==> all[|a| + |b| + |c| + |d| + |e| + i] == f[i])
  {
  }

  /**
   * The events are the rows of the six tables, each row once: with the name of its source before its id, and at the
   * first of its dates that is set.
   */
  lemma EventsAreRows(d: Data)
    ensures var v := |d.stages| + |d.activities|;
            var p := v + |d.visits| + |d.reservations|;
            && |Events(d)| == p + |d.proposals| + |d.sales|
            && (forall i :: 0 <= i < |d.stages| ==> Events(d)[i] == Key("stage:" + d.stages[i].id, d.stages[i].changedAt))
            && (forall i :: 0 <= i < |d.activities| ==>
                  Events(d)[|d.stages| + i] == Key("activity:" + d.activities[i].id, ActivityTime(d.activities[i])))
            && (forall i :: 0 <= i < |d.visits| ==> Events(d)[v + i] == Key("visit:" + d.visits[i].id, VisitTime(d.visits[i])))
            && (forall i :: 0 <= i < |d.reservations| ==>
                  Events(d)[v + |d.visits| + i] == Key("reservation:" + d.reservations[i].id, ReservationTime(d.reservations[i])))
            && (forall i :: 0 <= i < |d.proposals| ==>
                  Events(d)[p + i] == Key("proposal:" + d.proposals[i].id, ProposalTime(d.proposals[i])))
            && (forall i :: 0 <= i < |d.sales| ==>
                  Events(d)[p + |d.proposals| + i] == Key("sale:" + d.sales[i].id, d.sales[i].saleDate))
  {
    SixParts(StageKeys(d.stages), ActivityKeys(d.activities), VisitKeys(d.visits),
             ReservationKeys(d.reservations), ProposalKeys(d.proposals), SaleKeys(d.sales));
    TimesAgree(d);
    assert "stage" + ":" == "stage:" && "activity" + ":" == "activity:" && "visit" + ":" == "visit:";
    assert "reservation" + ":" == "reservation:" && "proposal" + ":" == "proposal:" && "sale" + ":" == "sale:";
  }

  function Position(t: Instant): int { t.day * DAY + t.time }

  /** The order of the timeline: time descending, then id ascending. */
  predicate Before(a: Key, b: Key, less: Collation) {
    Position(a.at) > Position(b.at) || (Position(a.at) == Position(b.at) && less(a.id, b.id))
  }

  /** ORDER BY, one row at a time. */
  function Insert(key: Key, sorted: seq<Key>, less: Collation): seq<Key> {
    if sorted == [] || Before(key, sorted[0], less) then [key] + sorted
    else [sorted[0]] + Insert(key, sorted[1..], less)
  }

  function Sort(keys: seq<Key>, less: Collation): seq<Key> {
    if keys == [] then [] else Insert(keys[|keys| - 1], Sort(keys[..|keys| - 1], less), less)
  }

  /** The WHERE clause: everything, or what lies strictly after the cursor. */
  predicate Beyond(key: Key, after: Option<Key>, less: Collation) {
    after.None? || Before(after.value, key, less)
  }

  function Select(keys: seq<Key>, after: Option<Key>, less: Collation): seq<Key> {
    if keys == [] then []
    else if Beyond(keys[0], after, less) then [keys[0]] + Select(keys[1..], after, less)
    else Select(keys[1..], after, less)
  }

  function Limit(keys: seq<Key>, take: nat): seq<Key> {
    if |keys| <= take then keys else keys[..take]
  }

  /** timelineKeysQuery: filter, order, limit. */
  function KeysQuery(keys: seq<Key>, after: Option<Key>, take: nat, less: Collation): seq<Key> {
    Limit(Sort(Select(keys, after, less), less), take)
  }

  datatype Page = Page(data: seq<Key>, next: Option<Key>)

  /** findOpportunityTimeline on keys: one row more than the page tells whether another page follows. */
  function PageAfter(keys: seq<Key>, after: Option<Key>, limit: nat, less: Collation): Page {
    var found := KeysQuery(keys, after, limit + 1, less);
    var pageKeys := Limit(found, limit);
    if pageKeys == [] then Page([], None)
    else Page(pageKeys, if |found| > limit then Some(pageKeys[|pageKeys| - 1]) else None)
  }

  // ---------------------------------------------------------------------------------- the one list

  ghost predicate StrictTotalOrder(less: Collation) {
    && (forall a, b :: less(a, b) ==> !less(b, a))
    && (forall a, b, c :: less(a, b) && less(b, c) ==> less(a, c))
    && (forall a, b :: a == b || less(a, b) || less(b, a))
  }

  ghost predicate Sorted(keys: seq<Key>, less: Collation) {
    forall i, j :: 0 <= i < j < |keys| ==> Before(keys[i], keys[j], less)
  }

  predicate DistinctIds(keys: seq<Key>) {
    forall i, j | 0 <= i < j < |keys| :: keys[i].id != keys[j].id
  }

  lemma BeforeTransitive(a: Key, b: Key, c: Key, less: Collation)
    requires StrictTotalOrder(less) && Before(a, b, less) && Before(b, c, less)
    ensures Before(a, c, less) && !Before(b, a, less)
  {
  }

  lemma {:induction false} InsertAdds(key: Key, sorted: seq<Key>, less: Collation)
    ensures multiset(Insert(key, sorted, less)) == multiset(sorted) + multiset{key}
  {
    if sorted != [] && !Before(key, sorted[0], less) {
      InsertAdds(key, sorted[1..], less);
      assert sorted == [sorted[0]] + sorted[1..];
    }
  }

  lemma {:induction false} InsertBounded(key: Key, sorted: seq<Key>, first: Key, less: Collation)
    requires Before(first, key, less) && forall i :: 0 <= i < |sorted| ==> Before(first, sorted[i], less)
    ensures forall i :: 0 <= i < |Insert(key, sorted, less)| ==> Before(first, Insert(key, sorted, less)[i], less)
  {
    if sorted != [] && !Before(key, sorted[0], less) {
      InsertBounded(key, sorted[1..], first, less);
    }
  }

  lemma SortedPrepend(first: Key, rest: seq<Key>, less: Collation)
    requires Sorted(rest, less) && forall i :: 0 <= i < |rest| ==> Before(first, rest[i], less)
    ensures Sorted([first] + rest, less)
  {
  }

  lemma {:induction false} InsertSorts(key: Key, sorted: seq<Key>, less: Collation)
    requires StrictTotalOrder(less) && Sorted(sorted, less)
    requires forall i :: 0 <= i < |sorted| ==> sorted[i].id != key.id
    ensures Sorted(Insert(key, sorted, less), less)
  {
    if sorted != [] {
      var first, rest := sorted[0], sorted[1..];
      if Before(key, first, less) {
        forall j | 0 <= j < |sorted|
          ensures Before(key, sorted[j], less)
        {
          if j > 0 {
            BeforeTransitive(key, first, sorted[j], less);
          }
        }
        SortedPrepend(key, sorted, less);
      } else {
        InsertSorts(key, rest, less);
        InsertBounded(key, rest, first, less);
        SortedPrepend(first, Insert(key, rest, less), less);
      }
    }
  }

  /** The query's order: a permutation of the rows, time descending and id ascending. */
  lemma {:induction false} SortSorts(keys: seq<Key>, less: Collation)
    requires StrictTotalOrder(less) && DistinctIds(keys)
    ensures Sorted(Sort(keys, less), less)
    ensures multiset(Sort(keys, less)) == multiset(keys)
  {
    if keys != [] {
      var front, last := keys[..|keys| - 1], keys[|keys| - 1];
      var sorted := Sort(front, less);
      SortSorts(front, less);
      assert keys == front + [last];
      OtherIds(front, last, sorted);
      InsertSorts(last, sorted, less);
      InsertAdds(last, sorted, less);
    }
  }

  lemma OtherIds(front: seq<Key>, last: Key, sorted: seq<Key>)
    requires DistinctIds(front + [last]) && multiset(sorted) == multiset(front)
    ensures forall i :: 0 <= i < |sorted| ==> sorted[i].id != last.id
  {
    forall i | 0 <= i < |sorted|
      ensures sorted[i].id != last.id
    {
      assert sorted[i] in multiset(front);
      var j :| 0 <= j < |front| && front[j] == sorted[i];
      assert (front + [last])[j].id != (front + [last])[|front|].id;
    }
  }

  lemma SelectPrepend(key: Key, rest: seq<Key>, after: Option<Key>, less: Collation)
    ensures Select([key] + rest, after, less) == (if Beyond(key, after, less) then [key] else []) + Select(rest, after, less)
  {
  }

  lemma {:induction false} SelectAppend(front: seq<Key>, last: Key, after: Option<Key>, less: Collation)
    ensures Select(front + [last], after, less) == Select(front, after, less) + if Beyond(last, after, less) then [last] else []
  {
    if front == [] {
      SelectPrepend(last, [], after, less);
      assert front + [last] == [last] + [];
    } else {
      SelectAppend(front[1..], last, after, less);
      assert front + [last] == [front[0]] + (front[1..] + [last]);
      SelectPrepend(front[0], front[1..] + [last], after, less);
      assert front == [front[0]] + front[1..];
      SelectPrepend(front[0], front[1..], after, less);
    }
  }

  /** Nothing before the first selected row of a sorted list is dropped by an insertion in front of it. */
  lemma {:induction false} SelectAllAfter(key: Key, sorted: seq<Key>, after: Option<Key>, less: Collation)
    requires forall i :: 0 <= i < |sorted| ==> Before(key, sorted[i], less)
    ensures Insert(key, Select(sorted, after, less), less) == [key] + Select(sorted, after, less)
  {
    if sorted != [] && !Beyond(sorted[0], after, less) {
      SelectAllAfter(key, sorted[1..], after, less);
    }
  }

  /** Filtering and ordering commute. */
  lemma {:induction false} SelectInsert(key: Key, sorted: seq<Key>, after: Option<Key>, less: Collation)
    requires StrictTotalOrder(less) && Sorted(sorted, less)
    ensures Select(Insert(key, sorted, less), after, less)
         == if Beyond(key, after, less) then Insert(key, Select(sorted, after, less), less) else Select(sorted, after, less)
  {
    if sorted == [] {
      SelectPrepend(key, [], after, less);
      assert [key] + [] == [key];
    } else if Before(key, sorted[0], less) {
      SelectPrepend(key, sorted, after, less);
      forall i | 0 <= i < |sorted|
        ensures Before(key, sorted[i], less)
      {
        if i > 0 {
          BeforeTransitive(key, sorted[0], sorted[i], less);
        }
      }
      SelectAllAfter(key, sorted, after, less);
    } else {
      SelectInsert(key, sorted[1..], after, less);
      SelectPrepend(sorted[0], Insert(key, sorted[1..], less), after, less);
      InsertBehind(key, sorted[0], Select(sorted[1..], after, less), less);
    }
  }

  lemma InsertBehind(key: Key, first: Key, rest: seq<Key>, less: Collation)
    requires !Before(key, first, less)
    ensures Insert(key, [first] + rest, less) == [first] + Insert(key, rest, less)
  {
  }

  lemma SplitLast(keys: seq<Key>) returns (front: seq<Key>, last: Key)
    requires keys != [] && DistinctIds(keys)
    ensures keys == front + [last] && DistinctIds(front)
    ensures forall i :: 0 <= i < |front| ==> front[i].id != last.id
  {
    front, last := keys[..|keys| - 1], keys[|keys| - 1];
  }

  lemma {:induction false} SelectSort(keys: seq<Key>, after: Option<Key>, less: Collation)
    requires StrictTotalOrder(less) && DistinctIds(keys)
    ensures Sort(Select(keys, after, less), less) == Select(Sort(keys, less), after, less)
    decreases |keys|
  {
    if keys != [] {
      var front, last := SplitLast(keys);
      SelectSort(front, after, less);
      SortSorts(front, less);
      SelectSortStep(front, last, after, less);
    }
  }

  lemma SelectSortStep(front: seq<Key>, last: Key, after: Option<Key>, less: Collation)
    requires StrictTotalOrder(less) && Sorted(Sort(front, less), less)
    requires Sort(Select(front, after, less), less) == Select(Sort(front, less), after, less)
    ensures Sort(Select(front + [last], after, less), less) == Select(Sort(front + [last], less), after, less)
  {
    var chosen := Select(front, after, less);
    SelectAppend(front, last, after, less);
    SortAppend(front, last, less);
    SelectInsert(last, Sort(front, less), after, less);
    if Beyond(last, after, less) {
      SortAppend(chosen, last, less);
    } else {
      assert chosen + [] == chosen;
    }
  }

  lemma SortAppend(front: seq<Key>, last: Key, less: Collation)
    ensures Sort(front + [last], less) == Insert(last, Sort(front, less), less)
  {
  }

  lemma {:induction false} SelectNone(keys: seq<Key>, after: Option<Key>, less: Collation)
    requires forall i :: 0 <= i < |keys| ==> !Beyond(keys[i], after, less)
    ensures Select(keys, after, less) == []
  {
    if keys != [] {
      SelectNone(keys[1..], after, less);
    }
  }

  lemma {:induction false} SelectAll(keys: seq<Key>, after: Option<Key>, less: Collation)
    requires forall i :: 0 <= i < |keys| ==> Beyond(keys[i], after, less)
    ensures Select(keys, after, less) == keys
  {
    if keys != [] {
      SelectAll(keys[1..], after, less);
    }
  }

  lemma {:induction false} SelectConcat(a: seq<Key>, b: seq<Key>, after: Option<Key>, less: Collation)
    ensures Select(a + b, after, less) == Select(a, after, less) + Select(b, after, less)
  {
    if a == [] {
      assert a + b == b;
    } else {
      var first, rest := a[0], a[1..];
      SelectConcat(rest, b, after, less);
      assert a == [first] + rest && a + b == [first] + (rest + b);
      SelectPrepend(first, rest, after, less);
      SelectPrepend(first, rest + b, after, less);
    }
  }

  /** In the sorted list, what lies beyond a row is what follows it. */
  lemma SelectAfterRow(sorted: seq<Key>, i: nat, less: Collation)
    requires StrictTotalOrder(less) && Sorted(sorted, less) && i < |sorted|
    ensures Select(sorted, Some(sorted[i]), less) == sorted[i + 1..]
  {
    var after := Some(sorted[i]);
    forall k | 0 <= k <= i
      ensures !Before(sorted[i], sorted[k], less)
    {
      NeverBack(sorted, k, i, less);
    }
    var upTo, beyond := sorted[..i + 1], sorted[i + 1..];
    assert sorted == upTo + beyond;
    SelectConcat(upTo, beyond, after, less);
    SelectNone(upTo, after, less);
    SelectAll(beyond, after, less);
  }

  lemma NeverBack(sorted: seq<Key>, k: nat, i: nat, less: Collation)
    requires StrictTotalOrder(less) && Sorted(sorted, less) && k <= i < |sorted|
    ensures !Before(sorted[i], sorted[k], less)
  {
  }

  // ------------------------------------------------------------------------------------------- pages

  /** A page after row i of the list, or from its start, is the next stretch of the list. */
  lemma PageIsStretch(keys: seq<Key>, i: nat, limit: nat, less: Collation)
    requires StrictTotalOrder(less) && DistinctIds(keys)
    requires i <= |Sort(keys, less)| && 0 < limit
    ensures var list := Sort(keys, less);
            var after := if i == 0 then None else Some(list[i - 1]);
            var page := PageAfter(keys, after, limit, less);
            if |list| - i <= limit then page == Page(list[i..], None)
            else page == Page(list[i..i + limit], Some(list[i + limit - 1]))
  {
    var list := Sort(keys, less);
    var after := if i == 0 then None else Some(list[i - 1]);
    SortSorts(keys, less);
    SelectSort(keys, after, less);
    if i == 0 {
      SelectAll(list, after, less);
    } else {
      SelectAfterRow(list, i - 1, less);
    }
    assert Sort(Select(keys, after, less), less) == list[i..];
    StretchPage(keys, after, list, i, limit, less);
  }

  lemma LimitTwice(keys: seq<Key>, limit: nat)
    ensures Limit(Limit(keys, limit + 1), limit) == Limit(keys, limit)
    ensures |Limit(keys, limit + 1)| > limit <==> |keys| > limit
  {
  }

  /** What the query and the presentation make of the rows that are left. */
  function PageOf(rest: seq<Key>, limit: nat): Page
    requires 0 < limit
  {
    if |rest| <= limit then Page(rest, None) else Page(rest[..limit], Some(rest[limit - 1]))
  }

  lemma PageAfterIs(keys: seq<Key>, after: Option<Key>, limit: nat, less: Collation)
    requires 0 < limit
    ensures PageAfter(keys, after, limit, less) == PageOf(Sort(Select(keys, after, less), less), limit)
  {
    var sorted := Sort(Select(keys, after, less), less);
    var found := Limit(sorted, limit + 1);
    assert KeysQuery(keys, after, limit + 1, less) == found;
    PageOfFound(sorted, limit);
  }

  lemma PageOfFound(sorted: seq<Key>, limit: nat)
    requires 0 < limit
    ensures var found := Limit(sorted, limit + 1);
            var pageKeys := Limit(found, limit);
            PageOf(sorted, limit)
            == if pageKeys == [] then Page([], None)
               else Page(pageKeys, if |found| > limit then Some(pageKeys[|pageKeys| - 1]) else None)
  {
    LimitTwice(sorted, limit);
  }

  lemma StretchOf(list: seq<Key>, i: nat, limit: nat)
    requires i <= |list| && 0 < limit
    ensures PageOf(list[i..], limit)
         == if |list| - i <= limit then Page(list[i..], None) else Page(list[i..i + limit], Some(list[i + limit - 1]))
  {
  }

  lemma StretchPage(keys: seq<Key>, after: Option<Key>, list: seq<Key>, i: nat, limit: nat, less: Collation)
    requires i <= |list| && 0 < limit && Sort(Select(keys, after, less), less) == list[i..]
    ensures PageAfter(keys, after, limit, less)
         == if |list| - i <= limit then Page(list[i..], None) else Page(list[i..i + limit], Some(list[i + limit - 1]))
  {
    PageAfterIs(keys, after, limit, less);
    StretchOf(list, i, limit);
  }

  /** A reader of pages, from the key a page is to follow. */
  type Pager = Option<Key> -> Page

  function PagerOf(keys: seq<Key>, limit: nat, less: Collation): Pager {
    after => PageAfter(keys, after, limit, less)
  }

  /** Following nextCursor for as long as there is one, at most `calls` times: the pages read, joined. */
  function Follow(pager: Pager, after: Option<Key>, calls: nat): (seq<Key>, Option<Key>)
    decreases calls
  {
    if calls == 0 then ([], after)
    else
      var page := pager(after);
      if page.next.None? then (page.data, None)
      else
        var rest := Follow(pager, page.next, calls - 1);
        (page.data + rest.0, rest.1)
  }

  /** The cursor in front of position i of the list. */
  function CursorAt(list: seq<Key>, i: nat): Option<Key>
    requires i <= |list|
  {
    if i == 0 then None else Some(list[i - 1])
  }

  ghost predicate ReadsStretch(pager: Pager, list: seq<Key>, i: nat, limit: nat)
    requires i <= |list| && 0 < limit
  {
    pager(CursorAt(list, i))
    == if |list| - i <= limit then Page(list[i..], None) else Page(list[i..i + limit], Some(list[i + limit - 1]))
  }

  lemma {:induction false} FollowFrom(pager: Pager, list: seq<Key>, i: nat, limit: nat, calls: nat)
    requires 0 < limit && forall k: nat :: k <= |list| ==> ReadsStretch(pager, list, k, limit)
    requires i <= |list| < i + calls
    ensures Follow(pager, CursorAt(list, i), calls) == (list[i..], None)
    decreases calls
  {
    assert ReadsStretch(pager, list, i, limit);
    if |list| - i > limit {
      FollowFrom(pager, list, i + limit, limit, calls - 1);
      assert list[i..] == list[i..i + limit] + list[i + limit..];
    }
  }

  lemma PagerReadsStretches(keys: seq<Key>, limit: nat, less: Collation)
    requires StrictTotalOrder(less) && DistinctIds(keys) && 0 < limit
    ensures forall k: nat :: k <= |Sort(keys, less)| ==> ReadsStretch(PagerOf(keys, limit, less), Sort(keys, less), k, limit)
  {
    var list := Sort(keys, less);
    forall k: nat | k <= |list|
      ensures ReadsStretch(PagerOf(keys, limit, less), list, k, limit)
    {
      PageIsStretch(keys, k, limit, less);
    }
  }

  /** Following the pages of any rows with distinct ids reads the one sorted list. */
  lemma PagesAreTheList(keys: seq<Key>, limit: nat, less: Collation)
    requires StrictTotalOrder(less) && DistinctIds(keys) && 0 < limit
    ensures Follow(PagerOf(keys, limit, less), None, |keys| + 1) == (Sort(keys, less), None)
  {
    var list := Sort(keys, less);
    SortSorts(keys, less);
    SameLength(list, keys);
    PagerReadsStretches(keys, limit, less);
    FollowFrom(PagerOf(keys, limit, less), list, 0, limit, |keys| + 1);
    assert list[0..] == list;
  }

  /**
   * For any fixed data and any page size of at least one, following the pages from no cursor ends, after at most one
   * call for each event and one more, and yields exactly the events of the six sources, each once, in order.
   */
  lemma PagesAreTheTimeline(d: Data, limit: nat, less: Collation)
    requires StrictTotalOrder(less) && DistinctRowIds(d) && 0 < limit
    ensures var pages := Follow(PagerOf(Events(d), limit, less), None, |Events(d)| + 1);
            && pages.1 == None
            && Sorted(pages.0, less)
            && multiset(pages.0) == multiset(Events(d))
            && DistinctIds(Events(d))
  {
    EventsDistinct(d);
    TimelineOf(Events(d), limit, less);
  }

  lemma TimelineOf(keys: seq<Key>, limit: nat, less: Collation)
    requires StrictTotalOrder(less) && DistinctIds(keys) && 0 < limit
    ensures var pages := Follow(PagerOf(keys, limit, less), None, |keys| + 1);
            pages.1 == None && Sorted(pages.0, less) && multiset(pages.0) == multiset(keys)
  {
    SortSorts(keys, less);
    PagesAreTheList(keys, limit, less);
  }

  lemma SameLength(a: seq<Key>, b: seq<Key>)
    requires multiset(a) == multiset(b)
    ensures |a| == |b|
  {
    assert |multiset(a)| == |a| && |multiset(b)| == |b|;
  }

  // ------------------------------------------------------------------------------------- event ids

  /** Primary keys: no two rows of a source share an id. */
  predicate DistinctRowIds(d: Data) {
    && (forall i, j | 0 <= i < j < |d.stages| :: d.stages[i].id != d.stages[j].id)
    && (forall i, j | 0 <= i < j < |d.activities| :: d.activities[i].id != d.activities[j].id)
    && (forall i, j | 0 <= i < j < |d.visits| :: d.visits[i].id != d.visits[j].id)
    && (forall i, j | 0 <= i < j < |d.reservations| :: d.reservations[i].id != d.reservations[j].id)
    && (forall i, j | 0 <= i < j < |d.proposals| :: d.proposals[i].id != d.proposals[j].id)
    && (forall i, j | 0 <= i < j < |d.sales| :: d.sales[i].id != d.sales[j].id)
  }

  /** The first two letters of an event id tell its source. */
  ghost predicate Prefixed(keys: seq<Key>, first: char, second: char) {
    forall i :: 0 <= i < |keys| ==> |keys[i].id| >= 2 && keys[i].id[0] == first && keys[i].id[1] == second
  }

  /** A prefix does not merge ids. */
  lemma PrefixInjective(prefix: string, x: string, y: string)
    requires x != y
    ensures prefix + x != prefix + y
  {
    assert (prefix + x)[|prefix|..] == x && (prefix + y)[|prefix|..] == y;
  }

  lemma SourceDistinct(prefix: string, keys: seq<Key>, ids: seq<string>)
    requires |keys| == |ids| && forall i :: 0 <= i < |keys| ==> keys[i].id == prefix + ":" + ids[i]
    requires forall i, j :: 0 <= i < j < |ids| ==> ids[i] != ids[j]
    ensures DistinctIds(keys)
  {
    forall i, j | 0 <= i < j < |keys|
      ensures keys[i].id != keys[j].id
    {
      PrefixInjective(prefix + ":", ids[i], ids[j]);
    }
  }

  lemma StagesDistinct(rows: seq<StageRow>)
    requires forall i, j :: 0 <= i < j < |rows| ==> rows[i].id != rows[j].id
    ensures DistinctIds(StageKeys(rows)) && Prefixed(StageKeys(rows), 's', 't')
  {
    SourceDistinct("stage", StageKeys(rows), seq(|rows|, i requires 0 <= i < |rows| => rows[i].id));
  }

  lemma ActivitiesDistinct(rows: seq<ActivityRow>)
    requires forall i, j :: 0 <= i < j < |rows| ==> rows[i].id != rows[j].id
    ensures DistinctIds(ActivityKeys(rows)) && Prefixed(ActivityKeys(rows), 'a', 'c')
  {
    SourceDistinct("activity", ActivityKeys(rows), seq(|rows|, i requires 0 <= i < |rows| => rows[i].id));
  }

  lemma VisitsDistinct(rows: seq<VisitRow>)
    requires forall i, j :: 0 <= i < j < |rows| ==> rows[i].id != rows[j].id
    ensures DistinctIds(VisitKeys(rows)) && Prefixed(VisitKeys(rows), 'v', 'i')
  {
    SourceDistinct("visit", VisitKeys(rows), seq(|rows|, i requires 0 <= i < |rows| => rows[i].id));
  }

  lemma ReservationsDistinct(rows: seq<ReservationRow>)
    requires forall i, j :: 0 <= i < j < |rows| ==> rows[i].id != rows[j].id
    ensures DistinctIds(ReservationKeys(rows)) && Prefixed(ReservationKeys(rows), 'r', 'e')
  {
    SourceDistinct("reservation", ReservationKeys(rows), seq(|rows|, i requires 0 <= i < |rows| => rows[i].id));
  }

  lemma ProposalsDistinct(rows: seq<ProposalRow>)
    requires forall i, j :: 0 <= i < j < |rows| ==> rows[i].id != rows[j].id
    ensures DistinctIds(ProposalKeys(rows)) && Prefixed(ProposalKeys(rows), 'p', 'r')
  {
    SourceDistinct("proposal", ProposalKeys(rows), seq(|rows|, i requires 0 <= i < |rows| => rows[i].id));
  }

  lemma SalesDistinct(rows: seq<SaleRow>)
    requires forall i, j :: 0 <= i < j < |rows| ==> rows[i].id != rows[j].id
    ensures DistinctIds(SaleKeys(rows)) && Prefixed(SaleKeys(rows), 's', 'a')
  {
    SourceDistinct("sale", SaleKeys(rows), seq(|rows|, i requires 0 <= i < |rows| => rows[i].id));
  }

  /** No two events of the timeline share an id, whatever source they come from. */
  lemma EventsDistinct(d: Data)
    requires DistinctRowIds(d)
    ensures DistinctIds(Events(d))
  {
    StagesDistinct(d.stages);
    ActivitiesDistinct(d.activities);
    VisitsDistinct(d.visits);
    ReservationsDistinct(d.reservations);
    ProposalsDistinct(d.proposals);
    SalesDistinct(d.sales);
    SixDistinct(StageKeys(d.stages), ActivityKeys(d.activities), VisitKeys(d.visits),
                ReservationKeys(d.reservations), ProposalKeys(d.proposals), SaleKeys(d.sales));
  }

  lemma SixDistinct(a: seq<Key>, b: seq<Key>, c: seq<Key>, d: seq<Key>, e: seq<Key>, f: seq<Key>)
    requires DistinctIds(a) && DistinctIds(b) && DistinctIds(c) && DistinctIds(d) && DistinctIds(e) && DistinctIds(f)
    requires Prefixed(a, 's', 't') && Prefixed(b, 'a', 'c') && Prefixed(c, 'v', 'i')
    requires Prefixed(d, 'r', 'e') && Prefixed(e, 'p', 'r') && Prefixed(f, 's', 'a')
    ensures DistinctIds(a + b + c + d + e + f)
  {
  }

  // --------------------------------------------------------------------------------- rows of a page

  /** The row ids of a source, in the order of SOURCES. */
  function RowIds(d: Data, source: nat): seq<string> {
    if source == 0 then seq(|d.stages|, i requires 0 <= i < |d.stages| => d.stages[i].id)
    else if source == 1 then seq(|d.activities|, i requires 0 <= i < |d.activities| => d.activities[i].id)
    else if source == 2 then seq(|d.visits|, i requires 0 <= i < |d.visits| => d.visits[i].id)
    else if source == 3 then seq(|d.reservations|, i requires 0 <= i < |d.reservations| => d.reservations[i].id)
    else if source == 4 then seq(|d.proposals|, i requires 0 <= i < |d.proposals| => d.proposals[i].id)
    else seq(|d.sales|, i requires 0 <= i < |d.sales| => d.sales[i].id)
  }

  /** The page keys of a source, without the prefix: the ids its rows are fetched by. */
  predicate Wanted(pageKeys: seq<Key>, prefix: string, id: string) {
    exists k | 0 <= k < |pageKeys| :: prefix + ":" <= pageKeys[k].id && pageKeys[k].id[|prefix| + 1..] == id
  }

  /** A fetched row of some source has the id of the key. */
  ghost predicate Fetched(d: Data, pageKeys: seq<Key>, id: string) {
    exists source, i :: FetchedRow(d, pageKeys, id, source, i)
  }

  ghost predicate FetchedRow(d: Data, pageKeys: seq<Key>, id: string, source: nat, i: nat) {
    && source < |SOURCES| && i < |RowIds(d, source)|
    && Wanted(pageKeys, SOURCES[source], RowIds(d, source)[i])
    && SOURCES[source] + ":" + RowIds(d, source)[i] == id
  }

  /** The first n keys that have an event. */
  function Keep(keys: seq<Key>, has: string -> bool, n: nat): seq<Key>
    requires n <= |keys|
  {
    if n == 0 then [] else Keep(keys, has, n - 1) + if has(keys[n - 1].id) then [keys[n - 1]] else []
  }

  /** The events of a page: its keys in their order, without those no fetched row has. */
  ghost function Hydrate(d: Data, pageKeys: seq<Key>): seq<Key> {
    Keep(pageKeys, id => Fetched(d, pageKeys, id), |pageKeys|)
  }

  /** An event comes from a row of one of the sources. */
  lemma EventHasRow(d: Data, key: Key) returns (source: nat, i: nat)
    requires key in Events(d)
    ensures source < |SOURCES| && i < |RowIds(d, source)| && key.id == SOURCES[source] + ":" + RowIds(d, source)[i]
  {
    if key in StageKeys(d.stages) {
      source := 0;
      i :| 0 <= i < |d.stages| && StageKeys(d.stages)[i] == key;
    } else if key in ActivityKeys(d.activities) {
      source := 1;
      i :| 0 <= i < |d.activities| && ActivityKeys(d.activities)[i] == key;
    } else if key in VisitKeys(d.visits) {
      source := 2;
      i :| 0 <= i < |d.visits| && VisitKeys(d.visits)[i] == key;
    } else if key in ReservationKeys(d.reservations) {
      source := 3;
      i :| 0 <= i < |d.reservations| && ReservationKeys(d.reservations)[i] == key;
    } else if key in ProposalKeys(d.proposals) {
      source := 4;
      i :| 0 <= i < |d.proposals| && ProposalKeys(d.proposals)[i] == key;
    } else {
      source := 5;
      i :| 0 <= i < |d.sales| && SaleKeys(d.sales)[i] == key;
    }
  }

  lemma KeyIsFetched(d: Data, pageKeys: seq<Key>, k: nat)
    requires k < |pageKeys| && pageKeys[k] in Events(d)
    ensures Fetched(d, pageKeys, pageKeys[k].id)
  {
    var source, i := EventHasRow(d, pageKeys[k]);
    var prefix, id := SOURCES[source], RowIds(d, source)[i];
    assert (prefix + ":" + id)[|prefix| + 1..] == id;
    assert Wanted(pageKeys, prefix, id);
    assert FetchedRow(d, pageKeys, pageKeys[k].id, source, i);
  }

  lemma {:induction false} KeepAll(keys: seq<Key>, has: string -> bool, n: nat)
    requires n <= |keys| && forall k :: 0 <= k < |keys| ==> has(keys[k].id)
    ensures Keep(keys, has, n) == keys[..n]
  {
    if n > 0 {
      KeepAll(keys, has, n - 1);
      assert keys[..n] == keys[..n - 1] + [keys[n - 1]];
    }
  }

  /** Fetching the rows of a page by their ids loses none of its events and keeps their order. */
  lemma HydrationLosesNothing(d: Data, pageKeys: seq<Key>)
    requires forall k :: 0 <= k < |pageKeys| ==> pageKeys[k] in Events(d)
    ensures Hydrate(d, pageKeys) == pageKeys
  {
    forall k | 0 <= k < |pageKeys|
      ensures Fetched(d, pageKeys, pageKeys[k].id)
    {
      KeyIsFetched(d, pageKeys, k);
    }
    KeepAll(pageKeys, id => Fetched(d, pageKeys, id), |pageKeys|);
    assert pageKeys[..|pageKeys|] == pageKeys;
  }

  // ------------------------------------------------------------------------------ with cursor texts

  /** A request: a cursor text in, the keys of the page and the next cursor text out. */
  type Endpoint = Option<string> -> Outcome<(seq<Key>, Option<string>)>

  /** The cursor text of a key. */
  function Text(opportunity: string, after: Option<Key>, stringify: Stringify): Option<string> {
    if after.None? then None else Some(EncodeCursor(opportunity, after.value, stringify))
  }

  function Request(pager: Pager, opportunity: string, cursor: Option<string>, stringify: Stringify, parse: Parse): Outcome<(seq<Key>, Option<string>)> {
    match DecodeCursor(cursor, opportunity, parse)
    case Err(e) => Err(e)
    case Ok(after) => Ok((pager(after).data, Text(opportunity, pager(after).next, stringify)))
  }

  function EndpointOf(pager: Pager, opportunity: string, stringify: Stringify, parse: Parse): Endpoint {
    cursor => Request(pager, opportunity, cursor, stringify, parse)
  }

  /** A client that hands every nextCursor back. */
  function Client(endpoint: Endpoint, cursor: Option<string>, calls: nat): Outcome<(seq<Key>, Option<string>)>
    decreases calls
  {
    if calls == 0 then Ok(([], cursor))
    else
      match endpoint(cursor)
      case Err(e) => Err(e)
      case Ok(page) =>
        if page.1.None? then Ok((page.0, None))
        else
          match Client(endpoint, page.1, calls - 1)
          case Err(e) => Err(e)
          case Ok(rest) => Ok((page.0 + rest.0, rest.1))
  }

  /** Every event of the opportunity has a cursor that comes back. */
  ghost predicate CursorsWork(keys: seq<Key>, opportunity: string, stringify: Stringify, parse: Parse) {
    forall key :: key in keys ==> CursorWorks(key, opportunity, stringify, parse)
  }

  ghost predicate CursorWorks(key: Key, opportunity: string, stringify: Stringify, parse: Parse) {
    && key.at.time < DAY
    && CursorFits(opportunity, key, stringify)
    && stringify(CursorValue(opportunity, key)) != []
    && parse(stringify(CursorValue(opportunity, key))) == Some(CursorValue(opportunity, key))
  }

  /** The endpoint answers the text of a key as the pager answers the key, and stays among the keys. */
  ghost predicate Answers(endpoint: Endpoint, pager: Pager, text: Option<Key> -> Option<string>, after: Option<Key>, keys: seq<Key>) {
    && endpoint(text(after)) == Ok((pager(after).data, text(pager(after).next)))
    && (pager(after).next.Some? ==> pager(after).next.value in keys)
  }

  lemma {:induction false} ClientFollows(endpoint: Endpoint, pager: Pager, text: Option<Key> -> Option<string>, keys: seq<Key>,
                                         after: Option<Key>, calls: nat)
    requires text(None) == None && forall key :: text(Some(key)).Some?
    requires forall a: Option<Key> :: a.None? || a.value in keys ==> Answers(endpoint, pager, text, a, keys)
    requires after.None? || after.value in keys
    ensures Client(endpoint, text(after), calls) == Ok((Follow(pager, after, calls).0, text(Follow(pager, after, calls).1)))
    decreases calls
  {
    if calls > 0 {
      assert Answers(endpoint, pager, text, after, keys);
      if pager(after).next.Some? {
        ClientFollows(endpoint, pager, text, keys, pager(after).next, calls - 1);
      }
    }
  }

  lemma {:induction false} SelectSubset(keys: seq<Key>, after: Option<Key>, less: Collation)
    requires DistinctIds(keys)
    ensures DistinctIds(Select(keys, after, less))
    ensures forall key :: key in Select(keys, after, less) ==> key in keys
  {
    if keys != [] {
      SelectSubset(keys[1..], after, less);
      assert forall key :: key in keys[1..] ==> key in keys;
      forall key | key in Select(keys[1..], after, less)
        ensures key.id != keys[0].id
      {
      }
    }
  }

  lemma NextAmongKeys(keys: seq<Key>, after: Option<Key>, limit: nat, less: Collation)
    requires StrictTotalOrder(less) && DistinctIds(keys)
    requires PageAfter(keys, after, limit, less).next.Some?
    ensures PageAfter(keys, after, limit, less).next.value in keys
  {
    var selected := Select(keys, after, less);
    SelectSubset(keys, after, less);
    SortSorts(selected, less);
    var next := PageAfter(keys, after, limit, less).next.value;
    assert next in Sort(selected, less);
    assert next in multiset(Sort(selected, less));
    assert next in multiset(selected);
  }

  lemma DecodesText(opportunity: string, after: Option<Key>, keys: seq<Key>, stringify: Stringify, parse: Parse)
    requires CursorsWork(keys, opportunity, stringify, parse)
    requires after.None? || after.value in keys
    ensures DecodeCursor(Text(opportunity, after, stringify), opportunity, parse) == Ok(after)
  {
    if after.Some? {
      assert CursorWorks(after.value, opportunity, stringify, parse);
      CursorRoundTrip(opportunity, opportunity, after.value, stringify, parse);
    }
  }

  /** A client that only hands cursor texts back reads the whole timeline, each event once, and then stops. */
  lemma ClientReadsTheTimeline(d: Data, events: seq<Key>, opportunity: string, limit: nat, less: Collation, stringify: Stringify, parse: Parse)
    requires StrictTotalOrder(less) && DistinctRowIds(d) && 0 < limit && events == Events(d)
    requires CursorsWork(events, opportunity, stringify, parse)
    ensures var endpoint := EndpointOf(PagerOf(events, limit, less), opportunity, stringify, parse);
            var client := Client(endpoint, None, |events| + 1);
            && client.Ok? && client.value.1 == None
            && Sorted(client.value.0, less)
            && multiset(client.value.0) == multiset(events)
  {
    EventsDistinct(d);
    ClientReadsKeys(events, opportunity, limit, less, stringify, parse);
  }

  lemma ClientReadsKeys(keys: seq<Key>, opportunity: string, limit: nat, less: Collation, stringify: Stringify, parse: Parse)
    requires StrictTotalOrder(less) && DistinctIds(keys) && 0 < limit
    requires CursorsWork(keys, opportunity, stringify, parse)
    ensures var endpoint := EndpointOf(PagerOf(keys, limit, less), opportunity, stringify, parse);
            var client := Client(endpoint, None, |keys| + 1);
            client.Ok? && client.value.1 == None && Sorted(client.value.0, less) && multiset(client.value.0) == multiset(keys)
  {
    var pager := PagerOf(keys, limit, less);
    forall a: Option<Key> | a.None? || a.value in keys
      ensures pager(a).next.Some? ==> pager(a).next.value in keys
    {
      if PageAfter(keys, a, limit, less).next.Some? {
        NextAmongKeys(keys, a, limit, less);
      }
    }
    TimelineOf(keys, limit, less);
    ClientOfPager(pager, keys, opportunity, stringify, parse, |keys| + 1);
  }

  /** Cursor texts carry any reader of pages whose next keys are among those with working cursors. */
  lemma ClientOfPager(pager: Pager, keys: seq<Key>, opportunity: string, stringify: Stringify, parse: Parse, calls: nat)
    requires CursorsWork(keys, opportunity, stringify, parse)
    requires forall a: Option<Key> :: a.None? || a.value in keys ==> (pager(a).next.Some? ==> pager(a).next.value in keys)
    ensures Client(EndpointOf(pager, opportunity, stringify, parse), None, calls)
         == Ok((Follow(pager, None, calls).0, Text(opportunity, Follow(pager, None, calls).1, stringify)))
  {
    var endpoint := EndpointOf(pager, opportunity, stringify, parse);
    var text := (after: Option<Key>) => Text(opportunity, after, stringify);
    forall a: Option<Key> | a.None? || a.value in keys
      ensures Answers(endpoint, pager, text, a, keys)
    {
      DecodesText(opportunity, a, keys, stringify, parse);
    }
    ClientFollows(endpoint, pager, text, keys, None, calls);
  }
}
