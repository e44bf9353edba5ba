/**
 * From a payment plan to the receivables of a sale: the cent-exact split of every plan, the due dates, and the
 * generation that skips installments that already exist.  Amounts are integer cents.
 */
module Installments {
  import opened Common
  import opened Calendar
  import opened Sums

  type Id = nat
  type Key = (Id, int)

  datatype ConditionType = Entrada | Parcelas | SaldoChaves | Financiamento | Outro

  /** A row of the payment plan of a sale. */
  datatype Plan = Plan(id: Id, kind: ConditionType, amount: int, installments: Option<int>,
                       firstDueDate: Option<Instant>, intervalMonths: Option<int>)

  /** What the generation reads of the sale. */
  datatype SaleTerms = SaleTerms(saleDate: Instant, expectedDeliveryDate: Option<Instant>)

  /** A generated receivable: its source key, due date and amount. */
  datatype Row = Row(planId: Id, sequence: int, dueDate: Instant, amount: int)

  /** The due date of each installment of each plan, by index. */
  type Schedule = Plan -> int -> Instant

  const MAX_INSTALLMENTS := 600

  function InstallmentCount(plan: Plan): int {
    if plan.kind == Parcelas then (if plan.installments.Some? then plan.installments.value else 1) else 1
  }

  function Interval(plan: Plan): int {
    if plan.intervalMonths.Some? then plan.intervalMonths.value else 1
  }

  function FirstDueDate(terms: SaleTerms, plan: Plan): Instant {
    if plan.firstDueDate.Some? then plan.firstDueDate.value
    else if plan.kind == SaldoChaves && terms.expectedDeliveryDate.Some? then terms.expectedDeliveryDate.value
    else terms.saleDate
  }

  function SplitAmount(total: int, count: int): Outcome<seq<int>> {
    if count < 1 || count > MAX_INSTALLMENTS then Err(Conflict)
    else if total < count then Err(Conflict)
    else Ok(seq(count, index => Part(total, count, index)))
  }

  /** The cents of one installment: the quotient, and for the last one what the others leave. */
  function Part(total: int, count: int, index: int): int
    requires 1 <= count
  {
    var base := total / count;
    if index == count - 1 then total - base * (count - 1) else base
  }

  /**
   * The split exists exactly when every installment can get a cent; it has one part for each installment, loses
   * no cent, and spreads as evenly as whole cents allow: only the last part differs, by fewer cents than parts.
   */
  lemma SplitConserves(total: int, count: int)
    ensures SplitAmount(total, count).Ok? <==> 1 <= count <= 600 && count <= total
    ensures SplitAmount(total, count).Ok? ==>
              var parts := SplitAmount(total, count).value;
              && |parts| == count
              && Sum(parts) == total
              && (forall i :: 0 <= i < count ==> 1 <= parts[i])
              && (forall i, j :: 0 <= i < j < count - 1 ==> parts[i] == parts[j])
              && (forall i :: 0 <= i < count - 1 ==> 0 <= parts[count - 1] - parts[i] < count)
  {
    if SplitAmount(total, count).Ok? {
      var parts, base := SplitAmount(total, count).value, total / count;
      var front := parts[..count - 1];
      SumConstant(front, base);
      assert parts == front + [parts[count - 1]];
      SumAppend(front, parts[count - 1]);
      DivisionWithRemainder(total, count, base);
    }
  }

  lemma DivisionWithRemainder(total: int, count: int, base: int)
    requires 1 <= count <= total && base == total / count
    ensures 1 <= base && (count - 1) * base == base * (count - 1) && 0 <= total - base * (count - 1) - base < count
  {
  }

  /** The months between the first due date and the one of an index. */
  function MonthsAfter(plan: Plan, index: int): int { index * Interval(plan) }

  function DueDate(plan: Plan, terms: SaleTerms, index: int): Instant {
    AddUtcMonths(FirstDueDate(terms, plan), MonthsAfter(plan, index))
  }

  /** The due dates of every plan of a sale, by index. */
  function SaleSchedule(terms: SaleTerms): Schedule {
    plan => index => DueDate(plan, terms, index)
  }

  /** Installment `index` (from 0) of a plan. */
  function Installment(plan: Plan, due: int -> Instant, amounts: seq<int>, index: int): Row
    requires 0 <= index < |amounts|
  {
    Row(plan.id, index + 1, due(index), amounts[index])
  }

  /** The rows the inner loop pushes for its first n indices. */
  function PlanRows(existing: set<Key>, plan: Plan, due: int -> Instant, amounts: seq<int>, n: nat): seq<Row>
    requires n <= |amounts|
  {
    if n == 0 then []
    else
      PlanRows(existing, plan, due, amounts, n - 1)
      + if (plan.id, n) in existing then [] else [Installment(plan, due, amounts, n - 1)]
  }

  /** The rows created for the plans in order, or the exception of the first plan that cannot be split. */
  function Generate(existing: set<Key>, plans: seq<Plan>, due: Schedule): Outcome<seq<Row>> {
    if plans == [] then Ok([])
    else
      var plan := plans[|plans| - 1];
      match Generate(existing, plans[..|plans| - 1], due)
      case Err(e) => Err(e)
      case Ok(front) =>
        match SplitAmount(plan.amount, InstallmentCount(plan))
        case Err(e) => Err(e)
        case Ok(amounts) => Ok(front + PlanRows(existing, plan, due(plan), amounts, |amounts|))
  }

  function KeyOf(row: Row): Key { (row.planId, row.sequence) }

  function Keys(rows: seq<Row>): set<Key> {
    set row | row in rows :: KeyOf(row)
  }

  /** A plan has this installment: PARCELAS with a count has that many, every other plan has one. */
  predicate HasInstallment(plan: Plan, n: int) {
    1 <= n && if plan.kind == Parcelas && plan.installments.Some? then n <= plan.installments.value else n == 1
  }

  /** The installments the plans ask for. */
  ghost predicate Wanted(plans: seq<Plan>, key: Key) {
    exists plan :: plan in plans && plan.id == key.0 && HasInstallment(plan, key.1)
  }

  ghost predicate DistinctIds(plans: seq<Plan>) {
    forall i, j :: 0 <= i < j < |plans| ==> plans[i].id != plans[j].id
  }

  ghost predicate DistinctKeys(rows: seq<Row>) {
    forall i, j :: 0 <= i < j < |rows| ==> KeyOf(rows[i]) != KeyOf(rows[j])
  }

  function Amounts(rows: seq<Row>): seq<int> {
    seq(|rows|, i requires 0 <= i < |rows| => rows[i].amount)
  }

  function Totals(plans: seq<Plan>): seq<int> {
    seq(|plans|, i requires 0 <= i < |plans| => plans[i].amount)
  }

  /** Each installment of the plan can get a cent, and there are at most 600. */
  predicate Splittable(plan: Plan) {
    if plan.kind == Parcelas && plan.installments.Some? then
      1 <= plan.installments.value <= 600 && plan.installments.value <= plan.amount
    else 1 <= plan.amount
  }

  /** Generation succeeds exactly when each plan leaves at least one cent for each of its installments. */
  lemma {:induction false} GenerateSucceeds(existing: set<Key>, plans: seq<Plan>, due: Schedule)
    ensures Generate(existing, plans, due).Ok? <==> forall plan :: plan in plans ==> Splittable(plan)
  {
    if plans != [] {
      var front, last := plans[..|plans| - 1], plans[|plans| - 1];
      GenerateSucceeds(existing, front, due);
      SplittableLast(plans);
    }
  }

  lemma SplittableLast(plans: seq<Plan>)
    requires plans != []
    ensures var front, last := plans[..|plans| - 1], plans[|plans| - 1];
            && (SplitAmount(last.amount, InstallmentCount(last)).Ok? <==> Splittable(last))
            && ((forall plan :: plan in plans ==> Splittable(plan))
                <==> Splittable(last) && forall plan :: plan in front ==> Splittable(plan))
  {
  }

  lemma {:induction false} PlanRowsContent(existing: set<Key>, plan: Plan, due: int -> Instant, amounts: seq<int>, n: nat, row: Row)
    requires n <= |amounts| && row in PlanRows(existing, plan, due, amounts, n)
    ensures 1 <= row.sequence <= n && row == Installment(plan, due, amounts, row.sequence - 1)
    ensures KeyOf(row) !in existing
  {
    if row in PlanRows(existing, plan, due, amounts, n - 1) {
      PlanRowsContent(existing, plan, due, amounts, n - 1, row);
    }
  }

  lemma {:induction false} PlanRowsCover(existing: set<Key>, plan: Plan, due: int -> Instant, amounts: seq<int>, n: nat, index: int)
    requires 0 <= index < n <= |amounts| && (plan.id, index + 1) !in existing
    ensures Installment(plan, due, amounts, index) in PlanRows(existing, plan, due, amounts, n)
  {
    if index < n - 1 {
      PlanRowsCover(existing, plan, due, amounts, n - 1, index);
    }
  }

  lemma {:induction false} PlanRowsAscend(existing: set<Key>, plan: Plan, due: int -> Instant, amounts: seq<int>, n: nat)
    requires n <= |amounts|
    ensures var rows := PlanRows(existing, plan, due, amounts, n);
            forall i, j :: 0 <= i < j < |rows| ==> rows[i].sequence < rows[j].sequence
  {
    if n > 0 {
      PlanRowsAscend(existing, plan, due, amounts, n - 1);
      var front, rows := PlanRows(existing, plan, due, amounts, n - 1), PlanRows(existing, plan, due, amounts, n);
      assert forall i :: 0 <= i < |front| ==> rows[i] == front[i];
      forall i, j | 0 <= i < j < |rows|
        ensures rows[i].sequence < rows[j].sequence
      {
        PlanRowsContent(existing, plan, due, amounts, n - 1, front[i]);
      }
    }
  }

  /** The pieces of a successful generation: the rows of the earlier plans, then those of the last plan. */
  lemma LastPlan(existing: set<Key>, plans: seq<Plan>, due: Schedule)
    returns (front: seq<Plan>, last: Plan, before: seq<Row>, amounts: seq<int>, rows: seq<Row>)
    requires plans != [] && Generate(existing, plans, due).Ok?
    ensures plans == front + [last] && front == plans[..|plans| - 1]
    ensures Generate(existing, front, due) == Ok(before)
    ensures SplitAmount(last.amount, InstallmentCount(last)) == Ok(amounts) && |amounts| == InstallmentCount(last)
    ensures rows == PlanRows(existing, last, due(last), amounts, |amounts|)
    ensures Generate(existing, plans, due) == Ok(before + rows)
  {
    front, last := plans[..|plans| - 1], plans[|plans| - 1];
    before, amounts := Generate(existing, front, due).value, SplitAmount(last.amount, InstallmentCount(last)).value;
    rows := PlanRows(existing, last, due(last), amounts, |amounts|);
  }

  /** A created row is a missing installment of one of the plans. */
  lemma {:induction false} GenerateOnlyWanted(existing: set<Key>, plans: seq<Plan>, due: Schedule, row: Row)
    requires Generate(existing, plans, due).Ok? && row in Generate(existing, plans, due).value
    ensures Wanted(plans, KeyOf(row)) && KeyOf(row) !in existing
  {
    var front, last, before, amounts, rows := LastPlan(existing, plans, due);
    if row in before {
      GenerateOnlyWanted(existing, front, due, row);
    } else {
      PlanRowsContent(existing, last, due(last), amounts, |amounts|, row);
      assert last in plans;
    }
  }

  /** Every missing installment of every plan is created. */
  lemma {:induction false} GenerateAllWanted(existing: set<Key>, plans: seq<Plan>, due: Schedule, key: Key)
    requires Generate(existing, plans, due).Ok?
    requires Wanted(plans, key) && key !in existing
    ensures key in Keys(Generate(existing, plans, due).value)
  {
    var front, last, before, amounts, rows := LastPlan(existing, plans, due);
    if Wanted(front, key) {
      GenerateAllWanted(existing, front, due, key);
      var row :| row in before && KeyOf(row) == key;
      KeyOfMember(before + rows, row);
    } else {
      assert last.id == key.0 && HasInstallment(last, key.1);
      PlanRowsCover(existing, last, due(last), amounts, |amounts|, key.1 - 1);
      KeyOfMember(before + rows, Installment(last, due(last), amounts, key.1 - 1));
    }
  }

  lemma KeyOfMember(rows: seq<Row>, row: Row)
    requires row in rows
    ensures KeyOf(row) in Keys(rows)
  {
  }

  /** No installment is created twice. */
  lemma {:induction false} GenerateDistinct(existing: set<Key>, plans: seq<Plan>, due: Schedule)
    requires DistinctIds(plans) && Generate(existing, plans, due).Ok?
    ensures DistinctKeys(Generate(existing, plans, due).value)
  {
    if plans != [] {
      var front, last, before, amounts, rows := LastPlan(existing, plans, due);
      GenerateDistinct(existing, front, due);
      PlanRowsAscend(existing, last, due(last), amounts, |amounts|);
      forall i, j | 0 <= i < |before| && 0 <= j < |rows|
        ensures KeyOf(before[i]) != KeyOf(rows[j])
      {
        GenerateOnlyWanted(existing, front, due, before[i]);
        PlanRowsContent(existing, last, due(last), amounts, |amounts|, rows[j]);
      }
    }
  }

  /**
   * Completing: from any set of existing installments, exactly the missing ones of every plan are created, each
   * once; with the existing ones the plans then have every installment they ask for.
   */
  lemma GenerateCompletes(existing: set<Key>, plans: seq<Plan>, due: Schedule)
    requires DistinctIds(plans) && Generate(existing, plans, due).Ok?
    ensures var created := Generate(existing, plans, due).value;
            && DistinctKeys(created)
            && forall key :: key in Keys(created) <==> Wanted(plans, key) && key !in existing
  {
    GenerateDistinct(existing, plans, due);
    var created := Generate(existing, plans, due).value;
    forall key
      ensures key in Keys(created) <==> Wanted(plans, key) && key !in existing
    {
      if key in Keys(created) {
        var row :| row in created && KeyOf(row) == key;
        GenerateOnlyWanted(existing, plans, due, row);
      } else if Wanted(plans, key) && key !in existing {
        GenerateAllWanted(existing, plans, due, key);
      }
    }
  }

  /** Idempotent: once the created rows exist, generating again creates nothing. */
  lemma GenerateIdempotent(existing: set<Key>, plans: seq<Plan>, due: Schedule)
    requires Generate(existing, plans, due).Ok?
    ensures Generate(existing + Keys(Generate(existing, plans, due).value), plans, due) == Ok([])
  {
    var complete := existing + Keys(Generate(existing, plans, due).value);
    GenerateSucceeds(existing, plans, due);
    GenerateSucceeds(complete, plans, due);
    var again := Generate(complete, plans, due).value;
    if again != [] {
      GenerateOnlyWanted(complete, plans, due, again[0]);
      GenerateAllWanted(existing, plans, due, KeyOf(again[0]));
    }
  }

  lemma {:induction false} PlanRowsSum(plan: Plan, due: int -> Instant, amounts: seq<int>, n: nat)
    requires n <= |amounts|
    ensures Amounts(PlanRows({}, plan, due, amounts, n)) == amounts[..n]
  {
    if n > 0 {
      PlanRowsSum(plan, due, amounts, n - 1);
      AmountsAppend(PlanRows({}, plan, due, amounts, n - 1), Installment(plan, due, amounts, n - 1));
      assert amounts[..n] == amounts[..n - 1] + [amounts[n - 1]];
    }
  }

  /** Conservation: the receivables of a new sale sum to its plans, to the cent, and none is below one cent. */
  lemma {:induction false} GenerateConserves(plans: seq<Plan>, due: Schedule)
    requires Generate({}, plans, due).Ok?
    ensures var created := Generate({}, plans, due).value;
            Sum(Amounts(created)) == Sum(Totals(plans)) && forall i :: 0 <= i < |created| ==> 1 <= created[i].amount
  {
    if plans != [] {
      var front, last, before, amounts, rows := LastPlan({}, plans, due);
      GenerateConserves(front, due);
      SplitConserves(last.amount, InstallmentCount(last));
      PlanRowsSum(last, due(last), amounts, |amounts|);
      assert amounts[..|amounts|] == amounts;
      AmountsConcat(before, rows, amounts);
      assert Totals(plans)[..|plans| - 1] == Totals(front);
    }
  }

  lemma AmountsAppend(rows: seq<Row>, row: Row)
    ensures Amounts(rows + [row]) == Amounts(rows) + [row.amount]
  {
  }

  lemma AmountsConcat(before: seq<Row>, rows: seq<Row>, amounts: seq<int>)
    requires Amounts(rows) == amounts
    requires forall i :: 0 <= i < |before| ==> 1 <= before[i].amount
    requires forall i :: 0 <= i < |amounts| ==> 1 <= amounts[i]
    ensures Sum(Amounts(before + rows)) == Sum(Amounts(before)) + Sum(amounts)
    ensures forall i :: 0 <= i < |before + rows| ==> 1 <= (before + rows)[i].amount
  {
    assert Amounts(before + rows) == Amounts(before) + amounts;
    SumConcat(Amounts(before), amounts);
    forall i | |before| <= i < |before + rows|
      ensures 1 <= (before + rows)[i].amount
    {
      assert (before + rows)[i].amount == Amounts(rows)[i - |before|];
    }
  }

  /**
   * Every created row is the installment of its plan with that number: the amount is the matching part of the
   * split, and the due date the one the schedule has for it.
   */
  lemma {:induction false} GenerateRows(existing: set<Key>, plans: seq<Plan>, due: Schedule, row: Row)
    requires Generate(existing, plans, due).Ok? && row in Generate(existing, plans, due).value
    ensures exists plan, parts :: plan in plans && SplitAmount(plan.amount, InstallmentCount(plan)) == Ok(parts)
              && 1 <= row.sequence <= |parts|
              && row == Installment(plan, due(plan), parts, row.sequence - 1)
  {
    var front, last, before, amounts, rows := LastPlan(existing, plans, due);
    if row in before {
      GenerateRows(existing, front, due, row);
    } else {
      PlanRowsContent(existing, last, due(last), amounts, |amounts|, row);
      assert last in plans;
    }
  }

  lemma MonthsAfterGrows(plan: Plan, i: int, j: int)
    requires i < j && 1 <= Interval(plan)
    ensures MonthsAfter(plan, i) < MonthsAfter(plan, j)
    ensures MonthsAfter(plan, j) == MonthsAfter(plan, i) + MonthsAfter(plan, j - i)
  {
  }

  /**
   * The due dates of a plan: strictly increasing, the time of day kept, exactly index * interval months after the
   * first, on the first date's day or the last day of a shorter month.
   */
  lemma DueDates(plan: Plan, terms: SaleTerms, i: int, j: int)
    requires 0 <= i < j && 1 <= Interval(plan)
    ensures var first, earlier, later := FirstDueDate(terms, plan), DueDate(plan, terms, i), DueDate(plan, terms, j);
            && earlier.day < later.day
            && earlier.time == later.time == first.time
            && MonthOf(later.day) == MonthOf(earlier.day) + MonthsAfter(plan, j - i)
            && DateOf(later.day) == CappedDate(first, MonthOf(later.day))
            && (!(0 <= YearOf(first.day) <= 99) ==> MonthOf(later.day) == MonthOf(first.day) + MonthsAfter(plan, j))
  {
    var first := FirstDueDate(terms, plan);
    MonthsAfterGrows(plan, i, j);
    var m, n := MonthsAfter(plan, i), MonthsAfter(plan, j);
    AddUtcMonthsIncreases(first, m, n);
    AddUtcMonthsLands(first, m);
    AddUtcMonthsLands(first, n);
    AddUtcMonthsExact(first, n);
    TargetMonthGrows(first, m, n);
  }

  lemma TargetMonthGrows(date: Instant, m: int, n: int)
    ensures TargetMonth(date, n) - TargetMonth(date, m) == n - m
  {
  }

  /**
   * The date some months after the first one: its time of day, its day of the month or the last day of a shorter
   * month, and that many months later for every year Date.UTC reads literally.
   */
  ghost predicate Lands(first: Instant, date: Instant, months: int) {
    && date.time == first.time
    && DateOf(date.day) == CappedDate(first, MonthOf(date.day))
    && (MonthOf(date.day) == MonthOf(first.day) + months <==> !(0 <= YearOf(first.day) <= 99))
  }

  /**
   * The row is due on a schedule that starts at this date: one interval of the plan, one month if the column is null,
   * after the installment before; installment 1 is due at the first date itself.
   */
  ghost predicate DueFrom(first: Instant, plan: Plan, row: Row) {
    && (plan.intervalMonths.None? ==> Lands(first, row.dueDate, row.sequence - 1))
    && (plan.intervalMonths.Some? ==> Lands(first, row.dueDate, (row.sequence - 1) * plan.intervalMonths.value))
    && (row.sequence == 1 ==> (row.dueDate == first <==> !(0 <= YearOf(first.day) <= 99)))
  }

  /** The schedule starts at the first due date of the plan; without one, SALDO_CHAVES at the expected delivery, else at the sale date. */
  ghost predicate OnSchedule(plan: Plan, terms: SaleTerms, row: Row) {
    && (plan.firstDueDate.Some? ==> DueFrom(plan.firstDueDate.value, plan, row))
    && (plan.firstDueDate.None? && plan.kind == SaldoChaves && terms.expectedDeliveryDate.Some? ==>
          DueFrom(terms.expectedDeliveryDate.value, plan, row))
    && (plan.firstDueDate.None? && (plan.kind != SaldoChaves || terms.expectedDeliveryDate.None?) ==>
          DueFrom(terms.saleDate, plan, row))
  }

  /** A date is told by its month, its day of the month and its time. */
  lemma SameDate(a: Instant, b: Instant)
    requires MonthOf(a.day) == MonthOf(b.day) && DateOf(a.day) == DateOf(b.day) && a.time == b.time
    ensures a == b
  {
  }

  lemma MonthsLand(first: Instant, months: int)
    ensures Lands(first, AddUtcMonths(first, months), months)
  {
    AddUtcMonthsLands(first, months);
    AddUtcMonthsExact(first, months);
  }

  lemma LandsAtOnce(first: Instant, date: Instant)
    requires Lands(first, date, 0)
    ensures date == first <==> !(0 <= YearOf(first.day) <= 99)
  {
    if MonthOf(date.day) == MonthOf(first.day) {
      SameDate(date, first);
    }
  }

  lemma DueDateFrom(first: Instant, plan: Plan, row: Row)
    requires Lands(first, row.dueDate, MonthsAfter(plan, row.sequence - 1))
    ensures DueFrom(first, plan, row)
  {
    if row.sequence == 1 {
      LandsAtOnce(first, row.dueDate);
    }
  }

  lemma DueDateOnSchedule(plan: Plan, terms: SaleTerms, row: Row)
    requires row.dueDate == DueDate(plan, terms, row.sequence - 1)
    ensures OnSchedule(plan, terms, row)
  {
    MonthsLand(FirstDueDate(terms, plan), MonthsAfter(plan, row.sequence - 1));
    DueDateFrom(FirstDueDate(terms, plan), plan, row);
  }

  lemma CreatedWhenDue(plans: seq<Plan>, due: Schedule, plan: Plan, row: Row, index: int)
    requires DistinctIds(plans) && plan in plans && plan.id == row.planId && row.sequence == index + 1
    requires Generate({}, plans, due).Ok? && row in Generate({}, plans, due).value
    ensures HasInstallment(plan, index + 1) && row.dueDate == due(plan)(index)
  {
    GenerateRows({}, plans, due, row);
    var found, parts :| found in plans && SplitAmount(found.amount, InstallmentCount(found)) == Ok(parts)
      && 1 <= row.sequence <= |parts| && row == Installment(found, due(found), parts, row.sequence - 1);
    SamePlan(plans, found, plan);
  }

  /**
   * The share of one installment: the whole amount if it is the only one, else the amount divided by their number
   * with the cents dropped, and for the last one what the others leave.
   */
  ghost predicate AmountOf(plan: Plan, row: Row) {
    if plan.kind == Parcelas && plan.installments.Some? then
      var n := plan.installments.value;
      1 <= row.sequence <= n && row.amount == if row.sequence < n then plan.amount / n else plan.amount - plan.amount / n * (n - 1)
    else row.sequence == 1 && row.amount == plan.amount
  }

  lemma PartIsShare(plan: Plan, row: Row)
    requires 1 <= row.sequence <= InstallmentCount(plan)
    requires row.amount == Part(plan.amount, InstallmentCount(plan), row.sequence - 1)
    ensures AmountOf(plan, row)
  {
  }

  lemma PartOf(total: int, count: int, parts: seq<int>, index: int)
    requires SplitAmount(total, count) == Ok(parts) && 0 <= index < |parts|
    ensures |parts| == count && parts[index] == Part(total, count, index)
  {
  }

  /** Every created row has the share of its plan its number calls for. */
  lemma CreatedAmount(plans: seq<Plan>, due: Schedule, plan: Plan, row: Row)
    requires DistinctIds(plans) && plan in plans && plan.id == row.planId
    requires Generate({}, plans, due).Ok? && row in Generate({}, plans, due).value
    ensures AmountOf(plan, row)
  {
    GenerateRows({}, plans, due, row);
    var found, parts :| found in plans && SplitAmount(found.amount, InstallmentCount(found)) == Ok(parts)
      && 1 <= row.sequence <= |parts| && row == Installment(found, due(found), parts, row.sequence - 1);
    SamePlan(plans, found, plan);
    PartOf(plan.amount, InstallmentCount(plan), parts, row.sequence - 1);
    PartIsShare(plan, row);
  }

  lemma SamePlan(plans: seq<Plan>, p: Plan, q: Plan)
    requires DistinctIds(plans) && p in plans && q in plans && p.id == q.id
    ensures p == q
  {
  }

  lemma ScheduledDate(terms: SaleTerms, due: Schedule, plan: Plan, index: int)
    requires due == SaleSchedule(terms)
    ensures due(plan)(index) == DueDate(plan, terms, index)
  {
  }

  /** One row is due later than another, this many intervals of the plan after it. */
  ghost predicate DueAfter(plan: Plan, a: Row, b: Row, gap: int) {
    && a.dueDate.day < b.dueDate.day
    && MonthOf(b.dueDate.day) == MonthOf(a.dueDate.day) + if plan.intervalMonths.Some? then gap * plan.intervalMonths.value else gap
  }

  /** The interval is at least a month: the column is null or positive. */
  predicate Forward(plan: Plan) {
    plan.intervalMonths.Some? ==> 1 <= plan.intervalMonths.value
  }

  lemma LaterInstallment(plan: Plan, terms: SaleTerms, a: Row, b: Row, i: int, j: int)
    requires 0 <= i < j && Forward(plan)
    requires a.dueDate == DueDate(plan, terms, i) && b.dueDate == DueDate(plan, terms, j)
    ensures DueAfter(plan, a, b, j - i)
  {
    DueDates(plan, terms, i, j);
  }

  lemma CreatedDate(plans: seq<Plan>, terms: SaleTerms, due: Schedule, plan: Plan, row: Row, index: int)
    requires due == SaleSchedule(terms)
    requires DistinctIds(plans) && plan in plans && plan.id == row.planId && row.sequence == index + 1
    requires Generate({}, plans, due).Ok? && row in Generate({}, plans, due).value
    ensures HasInstallment(plan, index + 1) && row.dueDate == DueDate(plan, terms, index)
  {
    CreatedWhenDue(plans, due, plan, row, index);
    ScheduledDate(terms, due, plan, index);
  }

  /** Every receivable generated for a sale is on the schedule of its plan. */
  lemma CreatedOnSchedule(plans: seq<Plan>, terms: SaleTerms, due: Schedule, plan: Plan, row: Row)
    requires due == SaleSchedule(terms)
    requires DistinctIds(plans) && plan in plans && plan.id == row.planId
    requires Generate({}, plans, due).Ok? && row in Generate({}, plans, due).value
    ensures OnSchedule(plan, terms, row)
  {
    CreatedDate(plans, terms, due, plan, row, row.sequence - 1);
    DueDateOnSchedule(plan, terms, row);
  }

  /**
   * Of two receivables generated for one plan, installments i and j counted from 0, the later one is due on a later
   * day, j - i intervals in months after the earlier one.
   */
  lemma CreatedInOrder(plans: seq<Plan>, terms: SaleTerms, due: Schedule, plan: Plan, a: Row, b: Row, i: int, j: int)
    requires due == SaleSchedule(terms)
    requires DistinctIds(plans) && plan in plans && plan.id == a.planId == b.planId && Forward(plan)
    requires Generate({}, plans, due).Ok?
    requires a in Generate({}, plans, due).value && b in Generate({}, plans, due).value
    requires a.sequence == i + 1 && b.sequence == j + 1 && i < j
    ensures DueAfter(plan, a, b, j - i)
  {
    CreatedDate(plans, terms, due, plan, a, i);
    CreatedDate(plans, terms, due, plan, b, j);
    LaterInstallment(plan, terms, a, b, i, j);
  }

  /** The receivable table, written row by row inside the conversion transaction. */
  class ReceivableTable {
    var rows: seq<Row>

    constructor ()
      ensures rows == []
    {
      rows := [];
    }

    /**
     * Inserts the missing installments one by one.  An exception of the split leaves the transaction, so the rows
     * written before it are rolled back.
     */
    method GenerateForSale(plans: seq<Plan>, due: Schedule) returns (created: Outcome<seq<Row>>)
      modifies this
      ensures created == Generate(Keys(old(rows)), plans, due)
      ensures rows == if created.Ok? then old(rows) + created.value else old(rows)
    {
      var snapshot := rows;
      var existingKeys := Keys(rows);
      var pushed: seq<Row> := [];
      for p := 0 to |plans|
        invariant Generate(existingKeys, plans[..p], due) == Ok(pushed)
        invariant rows == snapshot + pushed
      {
        var plan := plans[p];
        var count := InstallmentCount(plan);
        var amounts := SplitAmount(plan.amount, count);
        if amounts.Err? {
          GenerateFails(existingKeys, plans, due, p, amounts.error);
          rows := snapshot;
          return Err(amounts.error);
        }
        GenerateNext(existingKeys, plans, due, p);
        var part := PushPlan(existingKeys, plan, due(plan), amounts.value);
        assert snapshot + pushed + part == snapshot + (pushed + part);
        pushed := pushed + part;
      }
      assert plans[..|plans|] == plans;
      created := Ok(pushed);
    }

    /** The inner loop: one insertion for each missing installment of a plan. */
    method PushPlan(existingKeys: set<Key>, plan: Plan, due: int -> Instant, amounts: seq<int>) returns (pushed: seq<Row>)
      modifies this
      ensures pushed == PlanRows(existingKeys, plan, due, amounts, |amounts|)
      ensures rows == old(rows) + pushed
    {
      pushed := [];
      for index := 0 to |amounts|
        invariant pushed == PlanRows(existingKeys, plan, due, amounts, index)
        invariant rows == old(rows) + pushed
      {
        if (plan.id, index + 1) !in existingKeys {
          var row := Installment(plan, due, amounts, index);
          assert old(rows) + pushed + [row] == old(rows) + (pushed + [row]);
          rows := rows + [row];
          pushed := pushed + [row];
        }
      }
    }
  }

  /** One more plan appends its missing rows. */
  lemma GenerateNext(existing: set<Key>, plans: seq<Plan>, due: Schedule, p: int)
    requires 0 <= p < |plans|
    requires Generate(existing, plans[..p], due).Ok?
    requires SplitAmount(plans[p].amount, InstallmentCount(plans[p])).Ok?
    ensures Generate(existing, plans[..p + 1], due)
         == (var amounts := SplitAmount(plans[p].amount, InstallmentCount(plans[p])).value;
             Ok(Generate(existing, plans[..p], due).value + PlanRows(existing, plans[p], due(plans[p]), amounts, |amounts|)))
  {
    assert plans[..p + 1][..p] == plans[..p];
  }

  /** An exception at one plan is the exception of the whole generation. */
  lemma {:induction false} GenerateFails(existing: set<Key>, plans: seq<Plan>, due: Schedule, p: int, e: Error)
    requires 0 <= p < |plans|
    requires Generate(existing, plans[..p], due).Ok?
    requires SplitAmount(plans[p].amount, InstallmentCount(plans[p])) == Err(e)
    ensures Generate(existing, plans, due) == Err(e)
  {
    assert plans[..p + 1][..p] == plans[..p];
    if p + 1 < |plans| {
      var front := plans[..|plans| - 1];
      assert front[..p] == plans[..p];
      GenerateFails(existing, front, due, p, e);
    } else {
      assert plans[..p + 1] == plans;
    }
  }
}
