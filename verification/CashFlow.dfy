/**
 * The cash flow report: events gathered into rows by day, week or month, with a running balance.  Amounts are integer
 * cents; a row is identified by the day number its period starts on.
 */
module CashFlow {
  import opened Common
  import opened Calendar

  datatype Mode = Realizado | Projetado | Consolidado

  datatype Grouping = Dia | Semana | Mes

  datatype Movement = Movement(date: Instant, inflow: bool, amount: int, reversed: bool)

  /** A receivable or a payable: open ones are PENDENTE or PARCIAL. */
  datatype Title = Title(dueDate: Instant, due: int, paid: int, open: bool)

  datatype Event = Event(date: Instant, inflow: bool, amount: int, realized: bool)

  datatype Row = Row(date: int, inflows: int, outflows: int, realizedInflows: int, realizedOutflows: int,
                     projectedInflows: int, projectedOutflows: int)

  datatype Line = Line(row: Row, balance: int)

  /** The start of the period a date belongs to, as a day number. */
  type Bucket = Instant -> int

  predicate Earlier(a: Instant, b: Instant) {
    a.day < b.day || (a.day == b.day && a.time < b.time)
  }

  // ----------------------------------------------------------------------------------------- buckets

  /** getUTCDay: 1970-01-01 was a Thursday. */
  function Weekday(day: int): int { (day + 4) % 7 }

  function BucketDay(grouping: Grouping, day: int): int {
    match grouping
    case Dia => day
    case Semana => day - (if Weekday(day) == 0 then 7 else Weekday(day)) + 1
    case Mes => day - DateOf(day) + 1
  }

  function BucketOf(grouping: Grouping): Bucket {
    (date: Instant) => BucketDay(grouping, date.day)
  }

  /** A week runs from Monday to Sunday, a month from its first day; the bucket is the start of the period of the day. */
  lemma BucketStartsPeriod(day: int)
    ensures Weekday(BucketDay(Semana, day)) == 1 && BucketDay(Semana, day) <= day < BucketDay(Semana, day) + 7
    ensures BucketDay(Mes, day) == FirstDay(MonthOf(day))
    ensures BucketDay(Mes, day) <= day < BucketDay(Mes, day) + MonthLength(MonthOf(day))
  {
  }

  /** Two days share a bucket exactly when they share the period, and later days never have earlier buckets. */
  lemma BucketsPartition(a: int, b: int)
    requires a <= b
    ensures BucketDay(Semana, a) <= BucketDay(Semana, b) && BucketDay(Mes, a) <= BucketDay(Mes, b)
    ensures BucketDay(Semana, a) == BucketDay(Semana, b) <==> b < BucketDay(Semana, a) + 7
    ensures BucketDay(Mes, a) == BucketDay(Mes, b) <==> MonthOf(a) == MonthOf(b)
  {
    WeeksPartition(a, b);
    BucketStartsPeriod(a);
    BucketStartsPeriod(b);
    if MonthOf(a) < MonthOf(b) {
      FirstDayIncreases(MonthOf(a), MonthOf(b));
    } else if MonthOf(b) < MonthOf(a) {
      FirstDayIncreases(MonthOf(b), MonthOf(a));
    }
  }

  lemma WeeksPartition(a: int, b: int)
    requires a <= b
    ensures BucketDay(Semana, a) <= BucketDay(Semana, b)
    ensures BucketDay(Semana, a) == BucketDay(Semana, b) <==> b < BucketDay(Semana, a) + 7
  {
  }

  // ------------------------------------------------------------------------------------------ events

  predicate InPeriod(date: Instant, start: Instant, end: Instant) {
    !Earlier(date, start) && Earlier(date, end)
  }

  function RealizedEvents(movements: seq<Movement>, start: Instant, end: Instant): seq<Event> {
    if movements == [] then []
    else
      var m := movements[|movements| - 1];
      RealizedEvents(movements[..|movements| - 1], start, end)
      + if !m.reversed && InPeriod(m.date, start, end) then [Event(m.date, m.inflow, m.amount, true)] else []
  }

  function ProjectedEvents(titles: seq<Title>, inflow: bool, start: Instant, end: Instant): seq<Event> {
    if titles == [] then []
    else
      var t := titles[|titles| - 1];
      ProjectedEvents(titles[..|titles| - 1], inflow, start, end)
      + if t.open && InPeriod(t.dueDate, start, end) then [Event(t.dueDate, inflow, t.due - t.paid, false)] else []
  }

  function EventsOf(mode: Mode, movements: seq<Movement>, receivables: seq<Title>, payables: seq<Title>, start: Instant, end: Instant): seq<Event> {
    (if mode != Projetado then RealizedEvents(movements, start, end) else [])
    + if mode != Realizado then ProjectedEvents(receivables, true, start, end) + ProjectedEvents(payables, false, start, end) else []
  }

  /** openingBalance: what the unreversed movements before a date add up to. */
  function OpeningBalance(movements: seq<Movement>, start: Instant): int {
    if movements == [] then 0
    else
      var m := movements[|movements| - 1];
      OpeningBalance(movements[..|movements| - 1], start)
      + if !m.reversed && Earlier(m.date, start) then (if m.inflow then m.amount else -m.amount) else 0
  }

  function EventNet(e: Event): int { if e.inflow then e.amount else -e.amount }

  function Net(events: seq<Event>): int {
    if events == [] then 0 else Net(events[..|events| - 1]) + EventNet(events[|events| - 1])
  }

  /** The events of the periods up to one that starts on `day`. */
  function NetUpTo(events: seq<Event>, bucket: Bucket, day: int): int {
    if events == [] then 0
    else
      var e := events[|events| - 1];
      NetUpTo(events[..|events| - 1], bucket, day) + if bucket(e.date) <= day then EventNet(e) else 0
  }

  // ---------------------------------------------------------------------------------------- grouping

  function NewRow(date: int): Row { Row(date, 0, 0, 0, 0, 0, 0) }

  function Added(row: Row, e: Event): Row {
    if e.inflow && e.realized then row.(inflows := row.inflows + e.amount, realizedInflows := row.realizedInflows + e.amount)
    else if e.inflow then row.(inflows := row.inflows + e.amount, projectedInflows := row.projectedInflows + e.amount)
    else if e.realized then row.(outflows := row.outflows + e.amount, realizedOutflows := row.realizedOutflows + e.amount)
    else row.(outflows := row.outflows + e.amount, projectedOutflows := row.projectedOutflows + e.amount)
  }

  /** What one row is: the events of its period, in order. */
  function RowOf(events: seq<Event>, bucket: Bucket, date: int): Row {
    if events == [] then NewRow(date)
    else
      var e, before := events[|events| - 1], RowOf(events[..|events| - 1], bucket, date);
      if bucket(e.date) == date then Added(before, e) else before
  }

  /** The position of the row of a date in the insertion-ordered map, or its end. */
  function Find(rows: seq<Row>, date: int): (i: nat)
    ensures i <= |rows|
    ensures i < |rows| ==> rows[i].date == date
    ensures forall k :: 0 <= k < i ==> rows[k].date != date
  {
    if rows == [] || rows[0].date == date then 0 else 1 + Find(rows[1..], date)
  }

  /** grouped.get and grouped.set for one event. */
  function Upsert(rows: seq<Row>, e: Event, date: int): seq<Row> {
    var i := Find(rows, date);
    if i < |rows| then rows[i := Added(rows[i], e)] else rows + [Added(NewRow(date), e)]
  }

  function Group(events: seq<Event>, bucket: Bucket): seq<Row> {
    if events == [] then []
    else
      var e := events[|events| - 1];
      Upsert(Group(events[..|events| - 1], bucket), e, bucket(e.date))
  }

  predicate DistinctDates(rows: seq<Row>) {
    forall i, j | 0 <= i < j < |rows| :: rows[i].date != rows[j].date
  }

  /** The rows are the periods that have an event, each once, each with exactly the events of its period. */
  ghost predicate Grouped(rows: seq<Row>, events: seq<Event>, bucket: Bucket) {
    && DistinctDates(rows)
    && (forall i :: 0 <= i < |rows| ==> rows[i] == RowOf(events, bucket, rows[i].date))
    && (forall e :: e in events ==> HasDate(rows, bucket(e.date)))
    && (forall i :: 0 <= i < |rows| ==> exists e :: e in events && bucket(e.date) == rows[i].date)
  }

  ghost predicate HasDate(rows: seq<Row>, date: int) {
    exists i :: 0 <= i < |rows| && rows[i].date == date
  }

  /** A period without events has the empty row. */
  lemma {:induction false} RowOfNone(events: seq<Event>, bucket: Bucket, date: int)
    requires forall e :: e in events ==> bucket(e.date) != date
    ensures RowOf(events, bucket, date) == NewRow(date)
  {
    if events != [] {
      var front := events[..|events| - 1];
      assert forall e :: e in front ==> e in events;
      assert events[|events| - 1] in events;
      RowOfNone(front, bucket, date);
    }
  }

  lemma RowOfAppend(front: seq<Event>, e: Event, bucket: Bucket, date: int)
    ensures RowOf(front + [e], bucket, date)
         == if bucket(e.date) == date then Added(RowOf(front, bucket, date), e) else RowOf(front, bucket, date)
  {
  }

  lemma UpsertGroups(rows: seq<Row>, front: seq<Event>, e: Event, bucket: Bucket)
    requires Grouped(rows, front, bucket)
    ensures Grouped(Upsert(rows, e, bucket(e.date)), front + [e], bucket)
  {
    var date := bucket(e.date);
    var i, after, events := Find(rows, date), Upsert(rows, e, date), front + [e];
    if i == |rows| {
      forall x | x in front
        ensures bucket(x.date) != date
      {
        assert HasDate(rows, bucket(x.date));
      }
      RowOfNone(front, bucket, date);
    }
    forall k | 0 <= k < |after|
      ensures after[k] == RowOf(events, bucket, after[k].date)
    {
      RowOfAppend(front, e, bucket, after[k].date);
    }
    UpsertCovers(rows, front, e, bucket);
  }

  lemma UpsertCovers(rows: seq<Row>, front: seq<Event>, e: Event, bucket: Bucket)
    requires Grouped(rows, front, bucket)
    ensures var after := Upsert(rows, e, bucket(e.date));
            && (forall x :: x in front + [e] ==> HasDate(after, bucket(x.date)))
            && (forall k :: 0 <= k < |after| ==> exists x :: x in front + [e] && bucket(x.date) == after[k].date)
  {
    var date := bucket(e.date);
    var i, after := Find(rows, date), Upsert(rows, e, date);
    assert after[i].date == date;
    forall x | x in front + [e]
      ensures HasDate(after, bucket(x.date))
    {
      if x in front {
        assert HasDate(rows, bucket(x.date));
        var k :| 0 <= k < |rows| && rows[k].date == bucket(x.date);
        assert after[k].date == rows[k].date;
      }
    }
    forall k | 0 <= k < |after|
      ensures exists x :: x in front + [e] && bucket(x.date) == after[k].date
    {
      if k < |rows| {
        var x :| x in front && bucket(x.date) == rows[k].date;
        assert x in front + [e];
      } else {
        assert e in front + [e];
      }
    }
  }

  lemma {:induction false} GroupGroups(events: seq<Event>, bucket: Bucket)
    ensures Grouped(Group(events, bucket), events, bucket)
  {
    if events != [] {
      var front, e := events[..|events| - 1], events[|events| - 1];
      GroupGroups(front, bucket);
      UpsertGroups(Group(front, bucket), front, e, bucket);
      assert events == front + [e];
    }
  }

  // ---------------------------------------------------------------------------------------- ordering

  function Insert(row: Row, rows: seq<Row>): seq<Row> {
    if rows == [] || row.date <= rows[0].date then [row] + rows else [rows[0]] + Insert(row, rows[1..])
  }

  /** The rows in ascending date. */
  function Sort(rows: seq<Row>): seq<Row> {
    if rows == [] then [] else Insert(rows[|rows| - 1], Sort(rows[..|rows| - 1]))
  }

  predicate Ascending(rows: seq<Row>) {
    forall i, j | 0 <= i < j < |rows| :: rows[i].date < rows[j].date
  }

  lemma {:induction false} InsertAscends(row: Row, rows: seq<Row>)
    requires Ascending(rows) && forall i :: 0 <= i < |rows| ==> rows[i].date != row.date
    ensures Ascending(Insert(row, rows))
    ensures forall r :: r in Insert(row, rows) <==> r == row || r in rows
  {
    if rows != [] && row.date > rows[0].date {
      var first, rest := rows[0], rows[1..];
      InsertAscends(row, rest);
      assert rows == [first] + rest;
      forall r | r in Insert(row, rest)
        ensures first.date < r.date
      {
        if r != row {
          var k :| 0 <= k < |rest| && rest[k] == r;
        }
      }
    } else {
      assert Insert(row, rows) == [row] + rows;
    }
  }

  lemma {:induction false} SortAscends(rows: seq<Row>)
    requires DistinctDates(rows)
    ensures Ascending(Sort(rows))
    ensures forall r :: r in Sort(rows) <==> r in rows
  {
    if rows != [] {
      var front, last := rows[..|rows| - 1], rows[|rows| - 1];
      var sorted := Sort(front);
      SortAscends(front);
      forall i | 0 <= i < |sorted|
        ensures sorted[i].date != last.date
      {
        assert sorted[i] in front;
      }
      InsertAscends(last, sorted);
      assert rows == front + [last];
    }
  }

  // ---------------------------------------------------------------------------------------- balances

  function RowNet(row: Row): int { row.inflows - row.outflows }

  /** The rows with the balance carried from one to the next. */
  function Lines(rows: seq<Row>, opening: int): seq<Line> {
    if rows == [] then [] else
      Lines(rows[..|rows| - 1], opening) + [Line(rows[|rows| - 1], Closing(rows, opening))]
  }

  function Closing(rows: seq<Row>, opening: int): int {
    if rows == [] then opening else Closing(rows[..|rows| - 1], opening) + RowNet(rows[|rows| - 1])
  }

  /** The net of the rows up to a date. */
  function RowsNetUpTo(rows: seq<Row>, day: int): int {
    if rows == [] then 0
    else RowsNetUpTo(rows[..|rows| - 1], day) + if rows[|rows| - 1].date <= day then RowNet(rows[|rows| - 1]) else 0
  }

  lemma {:induction false} UpdateNet(rows: seq<Row>, i: nat, row: Row, day: int)
    requires i < |rows| && row.date == rows[i].date
    ensures RowsNetUpTo(rows[i := row], day)
         == RowsNetUpTo(rows, day) + if row.date <= day then RowNet(row) - RowNet(rows[i]) else 0
  {
    var front, after := rows[..|rows| - 1], rows[i := row];
    if i == |rows| - 1 {
      assert after[..|after| - 1] == front;
    } else {
      assert after[..|after| - 1] == front[i := row];
      UpdateNet(front, i, row, day);
    }
  }

  lemma AppendNet(rows: seq<Row>, row: Row, day: int)
    ensures RowsNetUpTo(rows + [row], day) == RowsNetUpTo(rows, day) + if row.date <= day then RowNet(row) else 0
  {
  }

  lemma UpsertNet(rows: seq<Row>, e: Event, date: int, day: int)
    ensures RowsNetUpTo(Upsert(rows, e, date), day) == RowsNetUpTo(rows, day) + if date <= day then EventNet(e) else 0
  {
    var i := Find(rows, date);
    if i < |rows| {
      UpdateNet(rows, i, Added(rows[i], e), day);
    } else {
      AppendNet(rows, Added(NewRow(date), e), day);
    }
  }

  lemma {:induction false} GroupNet(events: seq<Event>, bucket: Bucket, day: int)
    ensures RowsNetUpTo(Group(events, bucket), day) == NetUpTo(events, bucket, day)
  {
    if events != [] {
      var front, e := events[..|events| - 1], events[|events| - 1];
      GroupNet(front, bucket, day);
      UpsertNet(Group(front, bucket), e, bucket(e.date), day);
    }
  }

  lemma PrependNet(row: Row, rows: seq<Row>, day: int)
    ensures RowsNetUpTo([row] + rows, day) == (if row.date <= day then RowNet(row) else 0) + RowsNetUpTo(rows, day)
  {
    if rows != [] {
      assert ([row] + rows)[..|rows|] == [row] + rows[..|rows| - 1];
      PrependNet(row, rows[..|rows| - 1], day);
    }
  }

  lemma {:induction false} InsertNet(row: Row, rows: seq<Row>, day: int)
    ensures RowsNetUpTo(Insert(row, rows), day) == RowsNetUpTo(rows, day) + if row.date <= day then RowNet(row) else 0
  {
    if rows == [] || row.date <= rows[0].date {
      PrependNet(row, rows, day);
    } else {
      InsertNet(row, rows[1..], day);
      PrependNet(rows[0], Insert(row, rows[1..]), day);
      PrependNet(rows[0], rows[1..], day);
      assert rows == [rows[0]] + rows[1..];
    }
  }

  lemma {:induction false} SortNet(rows: seq<Row>, day: int)
    ensures RowsNetUpTo(Sort(rows), day) == RowsNetUpTo(rows, day)
  {
    if rows != [] {
      SortNet(rows[..|rows| - 1], day);
      InsertNet(rows[|rows| - 1], Sort(rows[..|rows| - 1]), day);
    }
  }

  /** In ascending rows, the balance after the first n is what lies up to the date of the last of them. */
  lemma {:induction false} ClosingIsUpTo(rows: seq<Row>, opening: int, day: int)
    requires forall i :: 0 <= i < |rows| ==> rows[i].date <= day
    ensures Closing(rows, opening) == opening + RowsNetUpTo(rows, day)
  {
    if rows != [] {
      ClosingIsUpTo(rows[..|rows| - 1], opening, day);
    }
  }

  lemma {:induction false} LaterRowsDoNotCount(rows: seq<Row>, n: nat, day: int)
    requires n <= |rows| && forall i :: n <= i < |rows| ==> rows[i].date > day
    ensures RowsNetUpTo(rows, day) == RowsNetUpTo(rows[..n], day)
  {
    if n < |rows| {
      LaterRowsDoNotCount(rows[..|rows| - 1], n, day);
      assert rows[..|rows| - 1][..n] == rows[..n];
    } else {
      assert rows[..n] == rows;
    }
  }

  lemma {:induction false} LineBalance(rows: seq<Row>, opening: int, i: nat)
    requires i < |rows|
    ensures |Lines(rows, opening)| == |rows|
    ensures Lines(rows, opening)[i] == Line(rows[i], Closing(rows[..i + 1], opening))
  {
    LinesLength(rows[..|rows| - 1], opening);
    if i < |rows| - 1 {
      LineBalance(rows[..|rows| - 1], opening, i);
      assert rows[..|rows| - 1][..i + 1] == rows[..i + 1];
    } else {
      assert rows[..i + 1] == rows;
    }
  }

  lemma {:induction false} LinesLength(rows: seq<Row>, opening: int)
    ensures |Lines(rows, opening)| == |rows|
  {
    if rows != [] {
      LinesLength(rows[..|rows| - 1], opening);
    }
  }

  /** The report of a list of events: one line for each period with an event. */
  function Report(events: seq<Event>, opening: int, bucket: Bucket): seq<Line> {
    Lines(Sort(Group(events, bucket)), opening)
  }

  /** The closing balance is the opening balance plus all events, however they are grouped. */
  lemma ClosingIgnoresGrouping(events: seq<Event>, opening: int, bucket: Bucket)
    ensures Closing(Sort(Group(events, bucket)), opening) == opening + Net(events)
  {
    var rows := Group(events, bucket);
    var day := LastDate(Sort(rows), events, bucket);
    ClosingIsUpTo(Sort(rows), opening, day);
    SortNet(rows, day);
    GroupNet(events, bucket, day);
    NetUpToAll(events, bucket, day);
  }

  /** A day no row and no event lies behind. */
  lemma {:induction false} LastDate(rows: seq<Row>, events: seq<Event>, bucket: Bucket) returns (day: int)
    ensures forall i :: 0 <= i < |rows| ==> rows[i].date <= day
    ensures forall i :: 0 <= i < |events| ==> bucket(events[i].date) <= day
    decreases |rows| + |events|
  {
    if rows != [] {
      var front, last := rows[..|rows| - 1], rows[|rows| - 1];
      var before := LastDate(front, events, bucket);
      day := if last.date > before then last.date else before;
      assert forall i :: 0 <= i < |front| ==> rows[i] == front[i];
    } else if events != [] {
      var front, last := events[..|events| - 1], events[|events| - 1];
      var before := LastDate(rows, front, bucket);
      day := if bucket(last.date) > before then bucket(last.date) else before;
      assert forall i :: 0 <= i < |front| ==> events[i] == front[i];
    } else {
      day := 0;
    }
  }

  lemma {:induction false} NetUpToAll(events: seq<Event>, bucket: Bucket, day: int)
    requires forall i :: 0 <= i < |events| ==> bucket(events[i].date) <= day
    ensures NetUpTo(events, bucket, day) == Net(events)
  {
    if events != [] {
      NetUpToAll(events[..|events| - 1], bucket, day);
    }
  }

  /**
   * The report agrees with plain sums: strictly ascending dates, one row for each period with an event, holding exactly
   * its events, and as balance the opening balance plus every event of the periods up to it.
   */
  lemma ReportIsPlainSums(events: seq<Event>, opening: int, bucket: Bucket)
    ensures var lines := Report(events, opening, bucket);
            && (forall i, j :: 0 <= i < j < |lines| ==> lines[i].row.date < lines[j].row.date)
            && (forall i :: 0 <= i < |lines| ==> lines[i].row == RowOf(events, bucket, lines[i].row.date))
            && (forall i :: 0 <= i < |lines| ==> lines[i].balance == opening + NetUpTo(events, bucket, lines[i].row.date))
            && (forall e :: e in events ==> exists i :: 0 <= i < |lines| && lines[i].row.date == bucket(e.date))
  {
    var rows := Sort(Group(events, bucket));
    var lines := Report(events, opening, bucket);
    GroupGroups(events, bucket);
    SortAscends(Group(events, bucket));
    LinesLength(rows, opening);
    forall i | 0 <= i < |rows|
      ensures lines[i].row == rows[i] && rows[i] == RowOf(events, bucket, rows[i].date)
      ensures lines[i].balance == opening + NetUpTo(events, bucket, rows[i].date)
    {
      LineIsPlainSum(events, opening, bucket, i);
    }
    forall e | e in events
      ensures exists i :: 0 <= i < |lines| && lines[i].row.date == bucket(e.date)
    {
      assert HasDate(Group(events, bucket), bucket(e.date));
      var k :| 0 <= k < |Group(events, bucket)| && Group(events, bucket)[k].date == bucket(e.date);
      assert Group(events, bucket)[k] in rows;
      var i :| 0 <= i < |rows| && rows[i] == Group(events, bucket)[k];
      assert lines[i].row == rows[i];
    }
  }

  lemma LineIsPlainSum(events: seq<Event>, opening: int, bucket: Bucket, i: nat)
    requires i < |Sort(Group(events, bucket))|
    requires Grouped(Group(events, bucket), events, bucket) && Ascending(Sort(Group(events, bucket)))
    requires forall r :: r in Sort(Group(events, bucket)) <==> r in Group(events, bucket)
    ensures var rows, lines := Sort(Group(events, bucket)), Report(events, opening, bucket);
            && |lines| == |rows| && lines[i].row == rows[i] && rows[i] == RowOf(events, bucket, rows[i].date)
            && lines[i].balance == opening + NetUpTo(events, bucket, rows[i].date)
  {
    var rows := Sort(Group(events, bucket));
    var day := rows[i].date;
    assert rows[i] in Group(events, bucket);
    LineBalance(rows, opening, i);
    ClosingIsUpTo(rows[..i + 1], opening, day);
    LaterRowsDoNotCount(rows, i + 1, day);
    SortNet(Group(events, bucket), day);
    GroupNet(events, bucket, day);
  }

  /** In every row the totals are the realised and the projected amounts together. */
  lemma {:induction false} RowSplits(events: seq<Event>, bucket: Bucket, date: int)
    ensures var r := RowOf(events, bucket, date);
            r.inflows == r.realizedInflows + r.projectedInflows && r.outflows == r.realizedOutflows + r.projectedOutflows
  {
    if events != [] {
      RowSplits(events[..|events| - 1], bucket, date);
    }
  }

  lemma NetAppend(events: seq<Event>, e: Event)
    ensures Net(events + [e]) == Net(events) + EventNet(e)
  {
  }

  lemma {:induction false} RealizedNet(movements: seq<Movement>, start: Instant, end: Instant)
    requires !Earlier(end, start)
    ensures OpeningBalance(movements, start) + Net(RealizedEvents(movements, start, end)) == OpeningBalance(movements, end)
  {
    if movements != [] {
      var front, m := movements[..|movements| - 1], movements[|movements| - 1];
      RealizedNet(front, start, end);
      if !m.reversed && InPeriod(m.date, start, end) {
        NetAppend(RealizedEvents(front, start, end), Event(m.date, m.inflow, m.amount, true));
      } else {
        assert RealizedEvents(front, start, end) + [] == RealizedEvents(front, start, end);
      }
    }
  }

  /** The open balances that fall due in a period. */
  function OpenInPeriod(titles: seq<Title>, start: Instant, end: Instant): int {
    if titles == [] then 0
    else
      var t := titles[|titles| - 1];
      OpenInPeriod(titles[..|titles| - 1], start, end) + if t.open && InPeriod(t.dueDate, start, end) then t.due - t.paid else 0
  }

  lemma {:induction false} ProjectedNet(titles: seq<Title>, inflow: bool, start: Instant, end: Instant)
    ensures Net(ProjectedEvents(titles, inflow, start, end))
         == if inflow then OpenInPeriod(titles, start, end) else -OpenInPeriod(titles, start, end)
  {
    if titles != [] {
      var front, t := titles[..|titles| - 1], titles[|titles| - 1];
      ProjectedNet(front, inflow, start, end);
      if t.open && InPeriod(t.dueDate, start, end) {
        NetAppend(ProjectedEvents(front, inflow, start, end), Event(t.dueDate, inflow, t.due - t.paid, false));
      } else {
        assert ProjectedEvents(front, inflow, start, end) + [] == ProjectedEvents(front, inflow, start, end);
      }
    }
  }

  lemma {:induction false} NetConcat(a: seq<Event>, b: seq<Event>)
    ensures Net(a + b) == Net(a) + Net(b)
  {
    if b == [] {
      assert a + b == a;
    } else {
      NetConcat(a, b[..|b| - 1]);
      assert (a + b)[..|a + b| - 1] == a + b[..|b| - 1];
    }
  }

  /** What the report opens with: nothing in PROJETADO mode. */
  function OpeningOf(mode: Mode, movements: seq<Movement>, start: Instant): int {
    if mode == Projetado then 0 else OpeningBalance(movements, start)
  }

  /**
   * The closing balance of every mode and grouping: what was realised before the end, what is still open in the period,
   * or both.
   */
  lemma ClosingByMode(mode: Mode, movements: seq<Movement>, receivables: seq<Title>, payables: seq<Title>, start: Instant, end: Instant, bucket: Bucket)
    requires !Earlier(end, start)
    ensures var realized := OpeningBalance(movements, end);
            var projected := OpenInPeriod(receivables, start, end) - OpenInPeriod(payables, start, end);
            Closing(Sort(Group(EventsOf(mode, movements, receivables, payables, start, end), bucket)), OpeningOf(mode, movements, start))
            == match mode
               case Realizado => realized
               case Projetado => projected
               case Consolidado => realized + projected
  {
    var done := RealizedEvents(movements, start, end);
    var inflows, outflows := ProjectedEvents(receivables, true, start, end), ProjectedEvents(payables, false, start, end);
    var events := EventsOf(mode, movements, receivables, payables, start, end);
    ClosingIgnoresGrouping(events, OpeningOf(mode, movements, start), bucket);
    RealizedNet(movements, start, end);
    ProjectedNet(receivables, true, start, end);
    ProjectedNet(payables, false, start, end);
    NetConcat(inflows, outflows);
    NetConcat(if mode != Projetado then done else [], if mode != Realizado then inflows + outflows else []);
  }

  // ----------------------------------------------------------------------------------------- columns

  /** The events of a period with this direction and kind. */
  function Column(events: seq<Event>, inflow: bool, realized: bool, bucket: Bucket, date: int): int {
    if events == [] then 0
    else
      var e := events[|events| - 1];
      Column(events[..|events| - 1], inflow, realized, bucket, date)
      + if bucket(e.date) == date && e.inflow == inflow && e.realized == realized then e.amount else 0
  }

  lemma {:induction false} RowColumns(events: seq<Event>, bucket: Bucket, date: int)
    ensures var r := RowOf(events, bucket, date);
            && r.date == date
            && r.realizedInflows == Column(events, true, true, bucket, date)
            && r.realizedOutflows == Column(events, false, true, bucket, date)
            && r.projectedInflows == Column(events, true, false, bucket, date)
            && r.projectedOutflows == Column(events, false, false, bucket, date)
  {
    if events != [] {
      RowColumns(events[..|events| - 1], bucket, date);
    }
  }

  lemma {:induction false} ColumnConcat(a: seq<Event>, b: seq<Event>, inflow: bool, realized: bool, bucket: Bucket, date: int)
    ensures Column(a + b, inflow, realized, bucket, date)
         == Column(a, inflow, realized, bucket, date) + Column(b, inflow, realized, bucket, date)
  {
    if b == [] {
      assert a + b == a;
    } else {
      ColumnConcat(a, b[..|b| - 1], inflow, realized, bucket, date);
      assert (a + b)[..|a + b| - 1] == a + b[..|b| - 1];
    }
  }

  lemma ColumnAppend(events: seq<Event>, e: Event, inflow: bool, realized: bool, bucket: Bucket, date: int)
    ensures Column(events + [e], inflow, realized, bucket, date)
         == Column(events, inflow, realized, bucket, date)
            + if bucket(e.date) == date && e.inflow == inflow && e.realized == realized then e.amount else 0
  {
  }

  /** From the start of the period on, and before its end. */
  predicate Between(date: Instant, start: Instant, end: Instant) {
    && (start.day < date.day || (start.day == date.day && start.time <= date.time))
    && (date.day < end.day || (date.day == end.day && date.time < end.time))
  }

  lemma PeriodIsBetween(date: Instant, start: Instant, end: Instant)
    ensures InPeriod(date, start, end) <==> Between(date, start, end)
  {
  }

  /** The movements of one direction in a row of the report: in the period, not reversed, and on the days of the row. */
  function Moved(movements: seq<Movement>, inflow: bool, start: Instant, end: Instant, bucket: Bucket, date: int): int {
    if movements == [] then 0
    else
      var m := movements[|movements| - 1];
      Moved(movements[..|movements| - 1], inflow, start, end, bucket, date)
      + if !m.reversed && m.inflow == inflow && Between(m.date, start, end) && bucket(m.date) == date then m.amount else 0
  }

  /** What is open on titles due in a row of the report. */
  function Open(titles: seq<Title>, start: Instant, end: Instant, bucket: Bucket, date: int): int {
    if titles == [] then 0
    else
      var t := titles[|titles| - 1];
      Open(titles[..|titles| - 1], start, end, bucket, date)
      + if t.open && Between(t.dueDate, start, end) && bucket(t.dueDate) == date then t.due - t.paid else 0
  }

  lemma {:induction false} RealizedColumn(movements: seq<Movement>, start: Instant, end: Instant, inflow: bool, bucket: Bucket, date: int)
    ensures Column(RealizedEvents(movements, start, end), inflow, true, bucket, date) == Moved(movements, inflow, start, end, bucket, date)
    ensures Column(RealizedEvents(movements, start, end), inflow, false, bucket, date) == 0
  {
    if movements != [] {
      var front, m := movements[..|movements| - 1], movements[|movements| - 1];
      RealizedColumn(front, start, end, inflow, bucket, date);
      PeriodIsBetween(m.date, start, end);
      if !m.reversed && InPeriod(m.date, start, end) {
        var e := Event(m.date, m.inflow, m.amount, true);
        ColumnAppend(RealizedEvents(front, start, end), e, inflow, true, bucket, date);
        ColumnAppend(RealizedEvents(front, start, end), e, inflow, false, bucket, date);
      } else {
        assert RealizedEvents(front, start, end) + [] == RealizedEvents(front, start, end);
      }
    }
  }

  /** What one title adds to a column of the projected events. */
  lemma TitleColumn(front: seq<Event>, t: Title, direction: bool, shown: bool, inflow: bool, realized: bool, bucket: Bucket, date: int)
    ensures Column(front + if shown then [Event(t.dueDate, direction, t.due - t.paid, false)] else [], inflow, realized, bucket, date)
         == Column(front, inflow, realized, bucket, date)
            + if shown && !realized && direction == inflow && bucket(t.dueDate) == date then t.due - t.paid else 0
  {
    if shown {
      ColumnAppend(front, Event(t.dueDate, direction, t.due - t.paid, false), inflow, realized, bucket, date);
    } else {
      assert front + [] == front;
    }
  }

  lemma {:induction false} ProjectedColumn(titles: seq<Title>, direction: bool, start: Instant, end: Instant, inflow: bool, realized: bool,
                                           bucket: Bucket, date: int)
    ensures Column(ProjectedEvents(titles, direction, start, end), inflow, realized, bucket, date)
         == if !realized && direction == inflow then Open(titles, start, end, bucket, date) else 0
  {
    if titles != [] {
      var front, t := titles[..|titles| - 1], titles[|titles| - 1];
      ProjectedColumn(front, direction, start, end, inflow, realized, bucket, date);
      PeriodIsBetween(t.dueDate, start, end);
      TitleColumn(ProjectedEvents(front, direction, start, end), t, direction, t.open && InPeriod(t.dueDate, start, end),
                  inflow, realized, bucket, date);
    }
  }

  lemma EventsColumn(mode: Mode, movements: seq<Movement>, receivables: seq<Title>, payables: seq<Title>, start: Instant, end: Instant,
                     inflow: bool, realized: bool, bucket: Bucket, date: int)
    ensures Column(EventsOf(mode, movements, receivables, payables, start, end), inflow, realized, bucket, date)
         == if realized then (if mode == Projetado then 0 else Moved(movements, inflow, start, end, bucket, date))
            else if mode == Realizado then 0
            else Open(if inflow then receivables else payables, start, end, bucket, date)
  {
    var done := RealizedEvents(movements, start, end);
    var inflows, outflows := ProjectedEvents(receivables, true, start, end), ProjectedEvents(payables, false, start, end);
    RealizedColumn(movements, start, end, inflow, bucket, date);
    ProjectedColumn(receivables, true, start, end, inflow, realized, bucket, date);
    ProjectedColumn(payables, false, start, end, inflow, realized, bucket, date);
    ColumnConcat(inflows, outflows, inflow, realized, bucket, date);
    ColumnConcat(if mode != Projetado then done else [], if mode != Realizado then inflows + outflows else [],
                 inflow, realized, bucket, date);
  }

  /**
   * The columns of a row on the tables: the realised ones are the unreversed movements of the period in that direction,
   * none in PROJETADO mode; the projected ones are what is open on the receivables and on the payables due in it, none in
   * REALIZADO mode.
   */
  lemma RowOnTables(mode: Mode, movements: seq<Movement>, receivables: seq<Title>, payables: seq<Title>, start: Instant, end: Instant,
                    bucket: Bucket, date: int)
    ensures var r := RowOf(EventsOf(mode, movements, receivables, payables, start, end), bucket, date);
            && r.realizedInflows == (if mode == Projetado then 0 else Moved(movements, true, start, end, bucket, date))
            && r.realizedOutflows == (if mode == Projetado then 0 else Moved(movements, false, start, end, bucket, date))
            && r.projectedInflows == (if mode == Realizado then 0 else Open(receivables, start, end, bucket, date))
            && r.projectedOutflows == (if mode == Realizado then 0 else Open(payables, start, end, bucket, date))
            && r.inflows == r.realizedInflows + r.projectedInflows && r.outflows == r.realizedOutflows + r.projectedOutflows
  {
    var events := EventsOf(mode, movements, receivables, payables, start, end);
    RowColumns(events, bucket, date);
    RowSplits(events, bucket, date);
    EventsColumn(mode, movements, receivables, payables, start, end, true, true, bucket, date);
    EventsColumn(mode, movements, receivables, payables, start, end, false, true, bucket, date);
    EventsColumn(mode, movements, receivables, payables, start, end, true, false, bucket, date);
    EventsColumn(mode, movements, receivables, payables, start, end, false, false, bucket, date);
  }

  /** The columns one event is added to. */
  method AddEvent(start: Row, event: Event) returns (row: Row)
    ensures row == Added(start, event)
  {
    row := start;
    if event.inflow {
      row := row.(inflows := row.inflows + event.amount);
      row := if event.realized then row.(realizedInflows := row.realizedInflows + event.amount)
             else row.(projectedInflows := row.projectedInflows + event.amount);
    } else {
      row := row.(outflows := row.outflows + event.amount);
      row := if event.realized then row.(realizedOutflows := row.realizedOutflows + event.amount)
             else row.(projectedOutflows := row.projectedOutflows + event.amount);
    }
  }

  /** The loop that fills the map: one get and one set for each event. */
  method GroupEvents(events: seq<Event>, bucket: Bucket) returns (grouped: seq<Row>)
    ensures grouped == Group(events, bucket)
  {
    grouped := [];
    for k := 0 to |events|
      invariant grouped == Group(events[..k], bucket)
    {
      var event := events[k];
      var date := bucket(event.date);
      assert events[..k + 1][..k] == events[..k];
      var i := Find(grouped, date);
      var row := AddEvent(if i < |grouped| then grouped[i] else NewRow(date), event);
      grouped := if i < |grouped| then grouped[i := row] else grouped + [row];
    }
    assert events[..|events|] == events;
  }

  /** The map over the sorted rows that carries the balance. */
  method CarryBalance(rows: seq<Row>, opening: int) returns (data: seq<Line>, balance: int)
    ensures data == Lines(rows, opening) && balance == Closing(rows, opening)
  {
    data, balance := [], opening;
    for k := 0 to |rows|
      invariant data == Lines(rows[..k], opening) && balance == Closing(rows[..k], opening)
    {
      assert rows[..k + 1][..k] == rows[..k];
      balance := balance + rows[k].inflows - rows[k].outflows;
      data := data + [Line(rows[k], balance)];
    }
    assert rows[..|rows|] == rows;
  }

  method CashFlowReport(events: seq<Event>, opening: int, grouping: Grouping) returns (data: seq<Line>, closing: int)
    ensures data == Report(events, opening, BucketOf(grouping))
    ensures closing == opening + Net(events)
  {
    var grouped := GroupEvents(events, BucketOf(grouping));
    data, closing := CarryBalance(Sort(grouped), opening);
    ClosingIgnoresGrouping(events, opening, BucketOf(grouping));
  }
}
