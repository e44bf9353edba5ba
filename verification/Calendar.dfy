/**
 * UTC dates as JavaScript computes them: the proleptic Gregorian calendar of section 21.4.1 of ECMA-262.
 * A day is counted from 1970-01-01; a month is counted as twelve times the year plus the month from 0.
 */
module Calendar {

  /** A Date: whole days since the epoch and the milliseconds within the day. */
  datatype Instant = Instant(day: int, time: nat)

  function DayFromYear(y: int): int {
    365 * (y - 1970) + (y - 1969) / 4 - (y - 1901) / 100 + (y - 1601) / 400
  }

  predicate LeapYear(y: int) {
    y % 4 == 0 && (y % 100 != 0 || y % 400 == 0)
  }

  function DaysBeforeMonth(m: int, leap: bool): int
    requires 0 <= m < 12
  {
    [0, 31, 59, 90, 120, 151, 181, 212, 243, 273, 304, 334][m] + if leap && m >= 2 then 1 else 0
  }

  function MonthLength(month: int): (n: int)
    ensures 28 <= n <= 31
  {
    var m := month % 12;
    if m == 1 then (if LeapYear(month / 12) then 29 else 28)
    else if m == 3 || m == 5 || m == 8 || m == 10 then 30
    else 31
  }

  /** The first day of a month by the formula of MakeDay. */
  function FirstDayByFormula(month: int): int {
    DayFromYear(month / 12) + DaysBeforeMonth(month % 12, LeapYear(month / 12))
  }

  /** The first day of a month by laying months one after the other from January of year 0. */
  function FirstDay(month: int): int
    decreases if month < 0 then -month else month
  {
    if month == 0 then -719528
    else if month > 0 then FirstDay(month - 1) + MonthLength(month - 1)
    else FirstDay(month + 1) - MonthLength(month)
  }

  lemma YearLength(y: int)
    ensures DayFromYear(y + 1) == DayFromYear(y) + if LeapYear(y) then 366 else 365
  {
    CountStep4(y);
    CountStep100(y);
    CountStep400(y);
    CenturiesAreFourths(y);
  }

  lemma CenturiesAreFourths(y: int)
    ensures (y % 400 == 0 ==> y % 100 == 0) && (y % 100 == 0 ==> y % 4 == 0)
  {
  }

  lemma CountStep4(y: int)
    ensures (y + 1 - 1969) / 4 - (y - 1969) / 4 == if y % 4 == 0 then 1 else 0
  {
  }

  lemma CountStep100(y: int)
    ensures (y + 1 - 1901) / 100 - (y - 1901) / 100 == if y % 100 == 0 then 1 else 0
  {
  }

  lemma CountStep400(y: int)
    ensures (y + 1 - 1601) / 400 - (y - 1601) / 400 == if y % 400 == 0 then 1 else 0
  {
  }

  lemma FormulaStep(month: int)
    ensures FirstDayByFormula(month + 1) == FirstDayByFormula(month) + MonthLength(month)
  {
    var y, m := month / 12, month % 12;
    if m == 11 {
      assert (month + 1) / 12 == y + 1 && (month + 1) % 12 == 0;
      YearLength(y);
    } else {
      assert (month + 1) / 12 == y && (month + 1) % 12 == m + 1;
    }
  }

  /** A function that starts where the tiling starts and steps by month lengths is the tiling. */
  lemma {:induction false} StepsAreTiling(first: int -> int, month: int)
    requires first(0) == -719528
    requires forall m :: first(m + 1) == first(m) + MonthLength(m)
    ensures first(month) == FirstDay(month)
    decreases if month < 0 then -month else month
  {
    if month > 0 {
      StepsAreTiling(first, month - 1);
      assert first(month - 1 + 1) == first(month - 1) + MonthLength(month - 1);
    } else if month < 0 {
      StepsAreTiling(first, month + 1);
      assert first(month + 1) == first(month) + MonthLength(month);
    }
  }

  /** The closed formula, leap years included, is the tiling of the day line by months. */
  lemma FormulaIsTiling(month: int)
    ensures FirstDayByFormula(month) == FirstDay(month)
  {
    var first := m => FirstDayByFormula(m);
    assert first(0) == -719528;
    forall m
      ensures first(m + 1) == first(m) + MonthLength(m)
    {
      FormulaStep(m);
    }
    StepsAreTiling(first, month);
  }

  lemma MonthsTile(month: int)
    ensures FirstDay(month + 1) == FirstDay(month) + MonthLength(month)
  {
  }

  lemma {:induction false} FirstDayIncreases(a: int, b: int)
    requires a < b
    ensures FirstDay(a) + MonthLength(a) <= FirstDay(b)
    decreases b - a
  {
    MonthsTile(b - 1);
    if a < b - 1 {
      FirstDayIncreases(a, b - 1);
    }
  }

  /** The month a day falls in, searched from a month. */
  function MonthFrom(month0: int, day: int): (month: int)
    ensures FirstDay(month) <= day < FirstDay(month) + MonthLength(month)
    decreases if day < FirstDay(month0) then FirstDay(month0) - day
              else if day >= FirstDay(month0 + 1) then day - FirstDay(month0 + 1) + 1 else 0
  {
    MonthsTile(month0 - 1);
    MonthsTile(month0);
    if day < FirstDay(month0) then MonthFrom(month0 - 1, day)
    else if day >= FirstDay(month0 + 1) then MonthFrom(month0 + 1, day)
    else month0
  }

  function MonthOf(day: int): (month: int)
    ensures FirstDay(month) <= day < FirstDay(month) + MonthLength(month)
  {
    MonthFrom(0, day)
  }

  function YearOf(day: int): int { MonthOf(day) / 12 }

  /** The day of the month, from 1. */
  function DateOf(day: int): (d: int)
    ensures 1 <= d <= MonthLength(MonthOf(day))
  {
    day - FirstDay(MonthOf(day)) + 1
  }

  /** A day lies in exactly one month, so the getters invert the construction of a date. */
  lemma MonthOfUnique(day: int, month: int)
    requires FirstDay(month) <= day < FirstDay(month) + MonthLength(month)
    ensures MonthOf(day) == month
  {
    var found := MonthOf(day);
    if found < month {
      FirstDayIncreases(found, month);
    } else if month < found {
      FirstDayIncreases(month, found);
    }
  }

  /** The year Date.UTC reads: 0 to 99 mean 1900 to 1999. */
  function UtcYear(y: int): int {
    if 0 <= y <= 99 then 1900 + y else y
  }

  /** Date.UTC(year, month, date): month and date may lie outside their usual range. */
  function MakeDay(year: int, month: int, date: int): int {
    FirstDayByFormula(12 * UtcYear(year) + month) + date - 1
  }

  function Min(a: int, b: int): int { if a < b then a else b }

  function AddUtcMonths(date: Instant, months: int): Instant {
    var targetYear := YearOf(date.day);
    var targetMonth := MonthOf(date.day) % 12 + months;
    var lastDay := DateOf(MakeDay(targetYear, targetMonth + 1, 0));
    Instant(MakeDay(targetYear, targetMonth, Min(DateOf(date.day), lastDay)), date.time)
  }

  /** A date built inside a month is read back as that month and that day of it. */
  lemma ReadsBack(month: int, d: int)
    requires 1 <= d <= MonthLength(month)
    ensures MonthOf(FirstDay(month) + d - 1) == month && DateOf(FirstDay(month) + d - 1) == d
  {
    var day := FirstDay(month) + d - 1;
    MonthOfUnique(day, month);
    DateIn(day, month);
  }

  lemma DateIn(day: int, month: int)
    requires MonthOf(day) == month
    ensures DateOf(day) == day - FirstDay(month) + 1
  {
  }

  lemma MakeDayTiles(year: int, month: int, date: int)
    ensures MakeDay(year, month, date) == FirstDay(12 * UtcYear(year) + month) + date - 1
  {
    FormulaIsTiling(12 * UtcYear(year) + month);
  }

  /** Day 0 of the following month is the last day of a month. */
  lemma LastDayOfMonth(year: int, month: int)
    ensures DateOf(MakeDay(year, month + 1, 0)) == MonthLength(12 * UtcYear(year) + month)
  {
    var target := 12 * UtcYear(year) + month;
    MakeDayTiles(year, month + 1, 0);
    MonthsTile(target);
    ReadsBack(target, MonthLength(target));
  }

  /** The month of a date as its year and its month of the year. */
  function TargetMonth(date: Instant, months: int): int {
    12 * UtcYear(YearOf(date.day)) + MonthOf(date.day) % 12 + months
  }

  /** The day of the month a date keeps when it is moved to a month. */
  function CappedDate(date: Instant, target: int): (d: int)
    ensures 1 <= d <= MonthLength(target)
  {
    Min(DateOf(date.day), MonthLength(target))
  }

  lemma AddUtcMonthsDay(date: Instant, months: int, target: int)
    requires target == TargetMonth(date, months)
    ensures AddUtcMonths(date, months)
         == Instant(FirstDay(target) + CappedDate(date, target) - 1, date.time)
  {
    var year, month := YearOf(date.day), MonthOf(date.day) % 12 + months;
    LastDayOfMonth(year, month);
    MakeDayTiles(year, month, Min(DateOf(date.day), DateOf(MakeDay(year, month + 1, 0))));
  }

  /** Where the month arithmetic lands, for every date: on the month counted from the year Date.UTC reads. */
  lemma AddUtcMonthsLands(date: Instant, months: int)
    ensures var r := AddUtcMonths(date, months);
            var target := TargetMonth(date, months);
            && MonthOf(r.day) == target
            && DateOf(r.day) == CappedDate(date, target)
            && r.time == date.time
  {
    var target := TargetMonth(date, months);
    var d := CappedDate(date, target);
    ReadsBack(target, d);
    AddUtcMonthsDay(date, months, target);
  }

  /** Adding months moves exactly that many months if and only if the year is outside 0..99. */
  lemma AddUtcMonthsExact(date: Instant, months: int)
    ensures MonthOf(AddUtcMonths(date, months).day) == MonthOf(date.day) + months
            <==> !(0 <= YearOf(date.day) <= 99)
  {
    AddUtcMonthsLands(date, months);
  }

  /** More months always give a later day, whatever the day of the month was capped to. */
  lemma AddUtcMonthsIncreases(date: Instant, fewer: int, more: int)
    requires fewer < more
    ensures AddUtcMonths(date, fewer).day < AddUtcMonths(date, more).day
  {
    AddUtcMonthsLands(date, fewer);
    AddUtcMonthsLands(date, more);
    FirstDayIncreases(MonthOf(AddUtcMonths(date, fewer).day), MonthOf(AddUtcMonths(date, more).day));
  }
}
