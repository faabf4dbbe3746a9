/**
  The calendar operations of java.time.LocalDate that the invoice logic uses, on the proleptic
  Gregorian calendar of ISO 8601 (section 3.2.1 of ISO 8601:2004): every year has twelve months,
  and a year is a leap year when it is divisible by 4, except that a year divisible by 100 is a
  leap year only when it is also divisible by 400.
*/
module Calendar {
  import opened Outcomes

  datatype LocalDate = LocalDate(year: int, month: int, day: int)

  predicate IsLeapYear(year: int) {
    year % 4 == 0 && (year % 100 != 0 || year % 400 == 0)
  }

  function MonthLength(year: int, month: int): int
    requires 1 <= month <= 12
  {
    if month == 2 then (if IsLeapYear(year) then 29 else 28)
    else if month == 4 || month == 6 || month == 9 || month == 11 then 30
    else 31
  }

  predicate IsValidDate(d: LocalDate) {
    1 <= d.month <= 12 && 1 <= d.day <= MonthLength(d.year, d.month)
  }

  /** A LocalDate object: it can only ever hold an existing calendar date. */
  type Date = d: LocalDate | IsValidDate(d) witness LocalDate(1970, 1, 1)

  function Min(a: int, b: int): int {
    if a <= b then a else b
  }

  // ---------------------------------------------------------------------------------------
  // Ordering: isBefore and isAfter compare year, then month, then day.

  predicate IsBefore(a: Date, b: Date) {
    a.year < b.year || (a.year == b.year && (a.month < b.month || (a.month == b.month && a.day < b.day)))
  }

  predicate IsAfter(a: Date, b: Date) {
    IsBefore(b, a)
  }

  lemma BeforeTrichotomy(a: Date, b: Date)
    ensures IsBefore(a, b) || a == b || IsBefore(b, a)
    ensures !(IsBefore(a, b) && IsBefore(b, a))
    ensures !IsBefore(a, a)
  {
  }

  // ---------------------------------------------------------------------------------------
  // Day counting: the day number counts days from 0000-01-01, so that consecutive dates have
  // consecutive day numbers (toEpochDay, shifted by the days from 0000-01-01 to 1970-01-01).

  /** The number of leap years in [0, year) (negative for negative years). */
  function LeapYearsBefore(year: int): int {
    (year + 3) / 4 - (year + 99) / 100 + (year + 399) / 400
  }

  function YearStart(year: int): int {
    365 * year + LeapYearsBefore(year)
  }

  function DaysBeforeMonth(year: int, month: int): int
    requires 1 <= month <= 12
  {
    var common :=
      if month == 1 then 0 else if month == 2 then 31 else if month == 3 then 59
      else if month == 4 then 90 else if month == 5 then 120 else if month == 6 then 151
      else if month == 7 then 181 else if month == 8 then 212 else if month == 9 then 243
      else if month == 10 then 273 else if month == 11 then 304 else 334;
    if month > 2 && IsLeapYear(year) then common + 1 else common
  }

  function DayNumber(d: Date): int {
    YearStart(d.year) + DaysBeforeMonth(d.year, d.month) + d.day - 1
  }

  const DAYS_0000_TO_1970: int := 719528

  /** LocalDate.toEpochDay: days since 1970-01-01. */
  function EpochDay(d: Date): int {
    DayNumber(d) - DAYS_0000_TO_1970
  }

  lemma LeapYearsStep(year: int)
    ensures LeapYearsBefore(year + 1) == LeapYearsBefore(year) + (if IsLeapYear(year) then 1 else 0)
  {
    assert (year + 4) / 4 == (year + 3) / 4 + (if year % 4 == 0 then 1 else 0);
    assert (year + 100) / 100 == (year + 99) / 100 + (if year % 100 == 0 then 1 else 0);
    assert (year + 400) / 400 == (year + 399) / 400 + (if year % 400 == 0 then 1 else 0);
  }

  lemma {:induction false} YearStartMonotone(a: int, b: int)
    requires a <= b
    ensures YearStart(a) + 365 * (b - a) <= YearStart(b)
    decreases b - a
  {
    if a < b {
      YearStartMonotone(a, b - 1);
      LeapYearsStep(b - 1);
    }
  }

  /** The days of a year fill exactly the interval up to the next year's first day. */
  lemma DayOfYearBounds(d: Date)
    ensures YearStart(d.year) <= DayNumber(d) < YearStart(d.year + 1)
  {
    LeapYearsStep(d.year);
  }

  lemma BeforeImpliesSmallerDayNumber(a: Date, b: Date)
    requires IsBefore(a, b)
    ensures DayNumber(a) < DayNumber(b)
  {
    if a.year < b.year {
      DayOfYearBounds(a);
      DayOfYearBounds(b);
      YearStartMonotone(a.year + 1, b.year);
    }
  }

  /** Comparing dates is comparing their day numbers. */
  lemma BeforeIffDayNumber(a: Date, b: Date)
    ensures IsBefore(a, b) <==> DayNumber(a) < DayNumber(b)
  {
    BeforeTrichotomy(a, b);
    if IsBefore(a, b) {
      BeforeImpliesSmallerDayNumber(a, b);
    } else if IsBefore(b, a) {
      BeforeImpliesSmallerDayNumber(b, a);
    }
  }

  /** Two dates with the same day number are the same date. */
  lemma DayNumberInjective(a: Date, b: Date)
    requires DayNumber(a) == DayNumber(b)
    ensures a == b
  {
    BeforeTrichotomy(a, b);
    BeforeIffDayNumber(a, b);
    BeforeIffDayNumber(b, a);
  }

  // ---------------------------------------------------------------------------------------
  // plusDays and plusWeeks. Java computes ofEpochDay(toEpochDay() + n); the model steps one day
  // at a time and proves that the result has day number DayNumber(d) + n, which by
  // DayNumberInjective is the one date ofEpochDay returns.

  function NextDay(d: Date): (r: Date)
    ensures DayNumber(r) == DayNumber(d) + 1
  {
    if d.day < MonthLength(d.year, d.month) then LocalDate(d.year, d.month, d.day + 1)
    else if d.month < 12 then LocalDate(d.year, d.month + 1, 1)
    else LeapYearsStep(d.year); LocalDate(d.year + 1, 1, 1)
  }

  function PlusDays(d: Date, days: nat): (r: Date)
    ensures DayNumber(r) == DayNumber(d) + days
  {
    if days == 0 then d else NextDay(PlusDays(d, days - 1))
  }

  function PlusWeeks(d: Date, weeks: nat): (r: Date)
    ensures DayNumber(r) == DayNumber(d) + 7 * weeks
  {
    PlusDays(d, 7 * weeks)
  }

  // ---------------------------------------------------------------------------------------
  // Day of the week: ISO numbering, Monday = 1 to Sunday = 7; 1970-01-01 was a Thursday.

  datatype DayOfWeek = MONDAY | TUESDAY | WEDNESDAY | THURSDAY | FRIDAY | SATURDAY | SUNDAY {
    function Value(): int {
      match this
      case MONDAY => 1
      case TUESDAY => 2
      case WEDNESDAY => 3
      case THURSDAY => 4
      case FRIDAY => 5
      case SATURDAY => 6
      case SUNDAY => 7
    }
  }

  /** DayOfWeek.of */
  function DayOfWeekOf(value: int): (w: DayOfWeek)
    requires 1 <= value <= 7
    ensures w.Value() == value
  {
    if value == 1 then MONDAY else if value == 2 then TUESDAY else if value == 3 then WEDNESDAY
    else if value == 4 then THURSDAY else if value == 5 then FRIDAY else if value == 6 then SATURDAY
    else SUNDAY
  }

  lemma DayOfWeekValueInjective(v: DayOfWeek, w: DayOfWeek)
    ensures v.Value() == w.Value() <==> v == w
  {
  }

  /** LocalDate.getDayOfWeek: floorMod(toEpochDay() + 3, 7) + 1. */
  function GetDayOfWeek(d: Date): DayOfWeek {
    DayOfWeekOf((EpochDay(d) + 3) % 7 + 1)
  }

  /** Two dates fall on the same weekday exactly when their day numbers differ by a multiple of 7. */
  lemma SameWeekday(a: Date, b: Date)
    ensures GetDayOfWeek(a) == GetDayOfWeek(b) <==> (DayNumber(a) - DayNumber(b)) % 7 == 0
  {
    var x, y := (EpochDay(a) + 3) % 7, (EpochDay(b) + 3) % 7;
    DayOfWeekValueInjective(GetDayOfWeek(a), GetDayOfWeek(b));
    assert GetDayOfWeek(a) == GetDayOfWeek(b) <==> x == y;
    var qa, qb := (EpochDay(a) + 3) / 7, (EpochDay(b) + 3) / 7;
    assert DayNumber(a) - DayNumber(b) == 7 * (qa - qb) + (x - y);
    MultipleOfSeven(DayNumber(a) - DayNumber(b), qa - qb, x - y);
  }

  lemma ModSeven(z: int, k: int, r: int)
    requires z == 7 * k + r && 0 <= r < 7
    ensures z % 7 == r
  {
  }

  lemma MultipleOfSeven(z: int, k: int, r: int)
    requires z == 7 * k + r && -7 < r < 7
    ensures z % 7 == 0 <==> r == 0
  {
    if r < 0 {
      assert z == 7 * (k - 1) + (7 + r);
    }
  }

  /** TemporalAdjusters.nextOrSame(dayOfWeek) applied to d. */
  function NextOrSame(d: Date, dayOfWeek: DayOfWeek): Date {
    var calDow := GetDayOfWeek(d).Value();
    var dowValue := dayOfWeek.Value();
    if calDow == dowValue then d
    else
      var daysDiff := calDow - dowValue;
      PlusDays(d, if daysDiff >= 0 then 7 - daysDiff else -daysDiff)
  }

  lemma NextOrSameLandsOnWeekday(d: Date, dayOfWeek: DayOfWeek)
    ensures 0 <= DayNumber(NextOrSame(d, dayOfWeek)) - DayNumber(d) <= 6
    ensures GetDayOfWeek(NextOrSame(d, dayOfWeek)) == dayOfWeek
  {
    var r := NextOrSame(d, dayOfWeek);
    var e := EpochDay(d) + 3;
    var c := e % 7;
    var delta := DayNumber(r) - DayNumber(d);
    assert e == 7 * (e / 7) + c;
    if c + 1 == dayOfWeek.Value() {
      assert r == d;
    } else if c + 1 > dayOfWeek.Value() {
      assert delta == 7 - (c + 1 - dayOfWeek.Value());
      ModSeven(e + delta, e / 7 + 1, dayOfWeek.Value() - 1);
    } else {
      assert delta == dayOfWeek.Value() - (c + 1);
      ModSeven(e + delta, e / 7, dayOfWeek.Value() - 1);
    }
    assert EpochDay(r) + 3 == e + delta;
    DayOfWeekValueInjective(GetDayOfWeek(r), dayOfWeek);
  }

  /** nextOrSame returns the first date on or after d that falls on the given weekday. */
  lemma NextOrSameIsFirst(d: Date, dayOfWeek: DayOfWeek)
    ensures GetDayOfWeek(NextOrSame(d, dayOfWeek)) == dayOfWeek
    ensures !IsBefore(NextOrSame(d, dayOfWeek), d)
    ensures DayNumber(NextOrSame(d, dayOfWeek)) - DayNumber(d) <= 6
    ensures forall e: Date :: !IsBefore(e, d) && IsBefore(e, NextOrSame(d, dayOfWeek)) ==>
              GetDayOfWeek(e) != dayOfWeek
  {
    var r := NextOrSame(d, dayOfWeek);
    NextOrSameLandsOnWeekday(d, dayOfWeek);
    BeforeIffDayNumber(r, d);
    forall e: Date | !IsBefore(e, d) && IsBefore(e, r)
      ensures GetDayOfWeek(e) != dayOfWeek
    {
      BeforeIffDayNumber(e, d);
      BeforeIffDayNumber(e, r);
      SameWeekday(e, r);
      var z := DayNumber(e) - DayNumber(r);
      ModSeven(z, -1, z + 7);
    }
  }

  // ---------------------------------------------------------------------------------------
  // Months: plusMonths, withDayOfMonth and ChronoUnit.MONTHS.between.

  /** LocalDate.getProlepticMonth: months counted from January of year 0. */
  function ProlepticMonth(d: Date): int {
    d.year * 12 + d.month - 1
  }

  lemma ProlepticMonthOrder(a: Date, b: Date)
    ensures ProlepticMonth(a) < ProlepticMonth(b) ==> IsBefore(a, b)
    ensures ProlepticMonth(a) == ProlepticMonth(b) <==> a.year == b.year && a.month == b.month
  {
  }

  /** LocalDate.plusMonths: move the month, then clamp the day to the new month's length. */
  function PlusMonths(d: Date, months: int): (r: Date)
    ensures ProlepticMonth(r) == ProlepticMonth(d) + months
    ensures r.day == Min(d.day, MonthLength(r.year, r.month))
  {
    if months == 0 then d
    else
      var calcMonths := ProlepticMonth(d) + months;
      var newYear := calcMonths / 12;
      var newMonth := calcMonths % 12 + 1;
      LocalDate(newYear, newMonth, Min(d.day, MonthLength(newYear, newMonth)))
  }

  /** Adding a positive number of months moves a date forward. */
  lemma PlusMonthsMoves(d: Date, months: int)
    ensures months > 0 ==> IsBefore(d, PlusMonths(d, months))
  {
    ProlepticMonthOrder(d, PlusMonths(d, months));
  }

  /** LocalDate.withDayOfMonth: fails unless the day exists in the date's month. */
  function WithDayOfMonth(d: Date, dayOfMonth: int): (r: Option<Date>)
    ensures r.Some? <==> 1 <= dayOfMonth <= MonthLength(d.year, d.month)
    ensures r.Some? ==> r.value.year == d.year && r.value.month == d.month && r.value.day == dayOfMonth
  {
    if 1 <= dayOfMonth <= MonthLength(d.year, d.month) then Some(LocalDate(d.year, d.month, dayOfMonth))
    else None
  }

  /** Java's integer division, which truncates toward zero. */
  function TruncDiv(x: int, y: int): int
    requires y > 0
  {
    if x >= 0 then x / y else -((-x) / y)
  }

  /** ChronoUnit.MONTHS.between(start, end), as LocalDate.monthsUntil computes it. */
  function MonthsBetween(start: Date, end: Date): int {
    var packed1 := ProlepticMonth(start) * 32 + start.day;
    var packed2 := ProlepticMonth(end) * 32 + end.day;
    TruncDiv(packed2 - packed1, 32)
  }

  /** Forwards, the whole-month span is the month difference, less one when the end's day of
      month is smaller than the start's. */
  lemma MonthsBetweenForward(start: Date, end: Date)
    requires !IsBefore(end, start)
    ensures MonthsBetween(start, end) ==
      ProlepticMonth(end) - ProlepticMonth(start) - (if end.day < start.day then 1 else 0)
  {
    ProlepticMonthOrder(end, start);
    var delta := ProlepticMonth(end) - ProlepticMonth(start);
    var x := (ProlepticMonth(end) * 32 + end.day) - (ProlepticMonth(start) * 32 + start.day);
    assert x == 32 * delta + (end.day - start.day);
    if end.day < start.day {
      assert delta >= 1;
      assert x == 32 * (delta - 1) + (32 + end.day - start.day);
    }
  }

  /** Backwards, the span is the negated forward span. */
  lemma MonthsBetweenAntisymmetric(start: Date, end: Date)
    ensures MonthsBetween(start, end) == -MonthsBetween(end, start)
  {
  }
}
