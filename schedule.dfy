/**
  What generateInvoiceDateList computes (SubscriptionServlet.java:118-139), as functions of the
  subscription's fields and of the date the request is handled ("today", which the servlet reads
  from the system clock), together with the properties of the schedules they describe.
*/
module InvoiceSchedule {
  import opened Outcomes
  import opened Calendar
  import opened Text
  import opened DateFormat
  import opened Entities

  // ---------------------------------------------------------------------------------------
  // The two loops

  /** The weekly loop from a given date: day, day + 7 days, ..., while before end. */
  function WeeklyFrom(day: Date, end: Date): (r: seq<Date>)
    ensures |r| == 0 <==> !IsBefore(day, end)
    ensures |r| > 0 ==> r[0] == day
    ensures forall i :: 0 < i < |r| ==> r[i] == PlusWeeks(r[i - 1], 1)
    ensures forall i :: 0 <= i < |r| ==> IsBefore(r[i], end)
    ensures |r| > 0 ==> !IsBefore(PlusWeeks(r[|r| - 1], 1), end)
    decreases DayNumber(end) - DayNumber(day)
  {
    if IsBefore(day, end) then
      WeekCloserToEnd(day, end);
      [day] + WeeklyFrom(PlusWeeks(day, 1), end)
    else []
  }

  lemma WeekCloserToEnd(day: Date, end: Date)
    requires IsBefore(day, end)
    ensures 0 < DayNumber(end) - DayNumber(day)
    ensures DayNumber(end) - DayNumber(PlusWeeks(day, 1)) < DayNumber(end) - DayNumber(day)
  {
    BeforeIffDayNumber(day, end);
  }

  /** The weekly branch: from the first date on or after start on the given weekday. */
  function WeeklySchedule(start: Date, end: Date, dayOfWeek: DayOfWeek): seq<Date> {
    WeeklyFrom(NextOrSame(start, dayOfWeek), end)
  }

  /** The monthly loop from a given date: day, day plus one month, ..., while before end; each
      step adds one month to the previous entry, so a clamped day of month stays clamped. */
  function MonthlyFrom(day: Date, end: Date): (r: seq<Date>)
    ensures |r| == 0 <==> !IsBefore(day, end)
    ensures |r| > 0 ==> r[0] == day
    ensures forall i :: 0 < i < |r| ==> r[i] == PlusMonths(r[i - 1], 1)
    ensures forall i :: 0 <= i < |r| ==> IsBefore(r[i], end)
    ensures |r| > 0 ==> !IsBefore(PlusMonths(r[|r| - 1], 1), end)
    decreases DayNumber(end) - DayNumber(day)
  {
    if IsBefore(day, end) then
      MonthCloserToEnd(day, end);
      [day] + MonthlyFrom(PlusMonths(day, 1), end)
    else []
  }

  lemma MonthCloserToEnd(day: Date, end: Date)
    requires IsBefore(day, end)
    ensures 0 < DayNumber(end) - DayNumber(day)
    ensures DayNumber(end) - DayNumber(PlusMonths(day, 1)) < DayNumber(end) - DayNumber(day)
  {
    BeforeIffDayNumber(day, end);
    PlusMonthsMoves(day, 1);
    BeforeIffDayNumber(day, PlusMonths(day, 1));
  }

  /** The first monthly date (lines 129-132): today with its day of month replaced, or, when the
      day of month is smaller than the start's, the month after start with that day. Line 129
      runs first and throws whenever today's month lacks the day, even when the correction then
      applies; a missing start date throws at line 130. */
  function MonthlyAnchor(today: Date, dayOfMonth: Int32, start: Option<Date>): (r: Result<Date, Fatal>)
    ensures WithDayOfMonth(today, dayOfMonth as int).None? ==> r == Failure(DateTimeError)
    ensures WithDayOfMonth(today, dayOfMonth as int).Some? && start.None? ==> r == Failure(NullPointerError)
    ensures r.Success? ==> r.value.day == dayOfMonth as int
    ensures r.Success? && dayOfMonth as int >= start.value.day ==>
      r.value.year == today.year && r.value.month == today.month
    ensures r.Success? && dayOfMonth as int < start.value.day ==>
      ProlepticMonth(r.value) == ProlepticMonth(start.value) + 1
    ensures r.Failure? ==> r.error == DateTimeError || r.error == NullPointerError
    ensures r.Success? <==>
      1 <= dayOfMonth as int <= MonthLength(today.year, today.month) && start.Some? &&
      (dayOfMonth as int < start.value.day ==>
        dayOfMonth as int <= MonthLength(PlusMonths(start.value, 1).year, PlusMonths(start.value, 1).month))
    ensures (WithDayOfMonth(today, dayOfMonth as int).Some? && start.Some? &&
             dayOfMonth as int < start.value.day &&
             WithDayOfMonth(PlusMonths(start.value, 1), dayOfMonth as int).None?) ==>
      r == Failure(DateTimeError)
  {
    match WithDayOfMonth(today, dayOfMonth as int)
    case None => Failure(DateTimeError)
    case Some(first) =>
      if start.None? then Failure(NullPointerError)
      else if (dayOfMonth as int) < start.value.day then
        PlusMonthsMoves(start.value, 1);
        match WithDayOfMonth(PlusMonths(start.value, 1), dayOfMonth as int)
        case None => Failure(DateTimeError)
        case Some(corrected) => Success(corrected)
      else Success(first)
  }

  /** Lines 121-126: nothing unless dayOfWeek is set; a missing start or end date throws. */
  function WeeklyPart(r: Record): (w: Result<seq<Date>, Fatal>)
    ensures w.Failure? <==> r.dayOfWeek.Some? && (r.startDate.None? || r.endDate.None?)
    ensures w.Failure? ==> w.error == NullPointerError
    ensures r.dayOfWeek.None? ==> w == Success([])
  {
    if r.dayOfWeek.None? then Success([])
    else if r.startDate.None? || r.endDate.None? then Failure(NullPointerError)
    else Success(WeeklySchedule(r.startDate.value, r.endDate.value, r.dayOfWeek.value))
  }

  /** Lines 128-136: nothing unless the type is MONTHLY; a missing end date throws at line 133. */
  function MonthlyPart(r: Record, today: Date): (m: Result<seq<Date>, Fatal>)
    ensures m.Failure? <==>
      r.subscriptionType == Some(MONTHLY) &&
      (MonthlyAnchor(today, r.dayOfMonth, r.startDate).Failure? || r.endDate.None?)
    ensures m.Failure? && MonthlyAnchor(today, r.dayOfMonth, r.startDate).Failure? ==>
      m.error == MonthlyAnchor(today, r.dayOfMonth, r.startDate).error
    ensures m.Failure? && MonthlyAnchor(today, r.dayOfMonth, r.startDate).Success? ==>
      m.error == NullPointerError
    ensures r.subscriptionType != Some(MONTHLY) ==> m == Success([])
  {
    if r.subscriptionType != Some(MONTHLY) then Success([])
    else
      var anchor :- MonthlyAnchor(today, r.dayOfMonth, r.startDate);
      if r.endDate.None? then Failure(NullPointerError)
      else Success(MonthlyFrom(anchor, r.endDate.value))
  }

  /** The dates the generator emits, weekly ones first, or the exception it throws. */
  function ScheduleDates(r: Record, today: Date): Result<seq<Date>, Fatal> {
    var weekly :- WeeklyPart(r);
    var monthly :- MonthlyPart(r, today);
    Success(weekly + monthly)
  }

  /** Every date rendered with dd/MM/yyyy, in order. */
  function FormatAll(dates: seq<Date>): (r: seq<string>)
    ensures |r| == |dates|
    ensures forall i :: 0 <= i < |r| ==> r[i] == FormatDate(dates[i])
  {
    seq(|dates|, i requires 0 <= i < |dates| => FormatDate(dates[i]))
  }

  /** The subscription's fields after a generator run that does not throw: a new list in the
      invoiceDateList field and all other fields as they were. */
  function Generated(r: Record, today: Date): (g: Result<Record, Fatal>)
    ensures g.Success? <==> ScheduleDates(r, today).Success?
    ensures g.Success? ==> g.value == r.(invoiceDateList := Some(FormatAll(ScheduleDates(r, today).value)))
  {
    var dates :- ScheduleDates(r, today);
    Success(r.(invoiceDateList := Some(FormatAll(dates))))
  }

  /** Rendering a list renders its head and then its tail. */
  lemma FormatAllCons(day: Date, rest: seq<Date>)
    ensures FormatAll([day] + rest) == [FormatDate(day)] + FormatAll(rest)
  {
  }

  /** Rendering two lists one after the other renders their concatenation. */
  lemma FormatAllConcat(a: seq<Date>, b: seq<Date>)
    ensures FormatAll(a + b) == FormatAll(a) + FormatAll(b)
  {
  }

  /** Before the end, the weekly renderings from a day are the day's own followed by those
      from one week later. */
  lemma WeeklyRenderingStep(day: Date, end: Date)
    requires IsBefore(day, end)
    ensures FormatAll(WeeklyFrom(day, end)) ==
      [FormatDate(day)] + FormatAll(WeeklyFrom(PlusWeeks(day, 1), end))
  {
    FormatAllCons(day, WeeklyFrom(PlusWeeks(day, 1), end));
  }

  /** Before the end, the monthly renderings from a day are the day's own followed by those
      from one month later. */
  lemma MonthlyRenderingStep(day: Date, end: Date)
    requires IsBefore(day, end)
    ensures FormatAll(MonthlyFrom(day, end)) ==
      [FormatDate(day)] + FormatAll(MonthlyFrom(PlusMonths(day, 1), end))
  {
    FormatAllCons(day, MonthlyFrom(PlusMonths(day, 1), end));
  }

  /** The new list holds the renderings of the weekly dates followed by those of the monthly
      dates, and the generator fails exactly when one of the two parts throws, the weekly one
      first. */
  lemma GeneratedList(r: Record, today: Date)
    ensures WeeklyPart(r).Failure? ==> Generated(r, today) == Failure(WeeklyPart(r).error)
    ensures WeeklyPart(r).Success? && MonthlyPart(r, today).Failure? ==>
      Generated(r, today) == Failure(MonthlyPart(r, today).error)
    ensures WeeklyPart(r).Success? && MonthlyPart(r, today).Success? ==>
      Generated(r, today) == Success(r.(invoiceDateList :=
        Some(FormatAll(WeeklyPart(r).value) + FormatAll(MonthlyPart(r, today).value))))
  {
    if WeeklyPart(r).Success? && MonthlyPart(r, today).Success? {
      FormatAllConcat(WeeklyPart(r).value, MonthlyPart(r, today).value);
    }
  }

  // ---------------------------------------------------------------------------------------
  // The weekly schedule

  /** A positive multiple of seven is seven more than a multiple of seven. */
  lemma StepSeven(z: int)
    requires z != 0
    ensures (z >= 0 && z % 7 == 0) <==> (z >= 7 && (z - 7) % 7 == 0)
  {
    ModSeven(z - 7, z / 7 - 1, z % 7);
  }

  /** The weekly loop from day emits exactly the dates from day to before end whose distance
      from day is a whole number of weeks. */
  lemma {:induction false} WeeklyFromMembers(day: Date, end: Date, d: Date)
    ensures d in WeeklyFrom(day, end) <==>
      !IsBefore(d, day) && IsBefore(d, end) && (DayNumber(d) - DayNumber(day)) % 7 == 0
    decreases DayNumber(end) - DayNumber(day)
  {
    BeforeIffDayNumber(d, day);
    BeforeIffDayNumber(d, end);
    BeforeIffDayNumber(day, end);
    if IsBefore(day, end) {
      var next := PlusWeeks(day, 1);
      var rest := WeeklyFrom(next, end);
      assert WeeklyFrom(day, end) == [day] + rest;
      if d != day {
        WeeklyFromMembers(next, end, d);
        BeforeIffDayNumber(d, next);
        var diff := DayNumber(d) - DayNumber(day);
        if diff == 0 {
          DayNumberInjective(d, day);
        }
        StepSeven(diff);
        assert d in WeeklyFrom(day, end) <==> d in rest;
      }
    }
  }

  /** The n-th weekly entry is n weeks after the first. */
  lemma {:induction false} WeekAt(w: seq<Date>, day: Date, end: Date, i: nat)
    requires w == WeeklyFrom(day, end) && i < |w|
    ensures DayNumber(w[i]) == DayNumber(day) + 7 * i
    decreases i
  {
    if i > 0 {
      WeekAt(w, day, end, i - 1);
    }
  }

  /** The weekly schedule is exactly the set of dates d with start <= d < end that fall on the
      chosen weekday. */
  lemma WeeklyScheduleMembers(start: Date, end: Date, dayOfWeek: DayOfWeek, d: Date)
    ensures d in WeeklySchedule(start, end, dayOfWeek) <==>
      !IsBefore(d, start) && IsBefore(d, end) && GetDayOfWeek(d) == dayOfWeek
  {
    var first := NextOrSame(start, dayOfWeek);
    WeeklyFromMembers(first, end, d);
    NextOrSameIsFirst(start, dayOfWeek);
    SameWeekday(d, first);
    BeforeIffDayNumber(d, first);
    BeforeIffDayNumber(d, start);
    BeforeIffDayNumber(first, start);
  }

  /** The weekly schedule ascends in steps of exactly seven days, starts at most six days after
      start and never reaches end. */
  lemma WeeklyScheduleShape(start: Date, end: Date, dayOfWeek: DayOfWeek)
    ensures var w := WeeklySchedule(start, end, dayOfWeek);
      (forall i :: 0 < i < |w| ==> DayNumber(w[i]) == DayNumber(w[i - 1]) + 7) &&
      (forall i, j :: 0 <= i < j < |w| ==> IsBefore(w[i], w[j])) &&
      (|w| > 0 ==> !IsBefore(w[0], start) && DayNumber(w[0]) - DayNumber(start) <= 6) &&
      end !in w
  {
    var w := WeeklySchedule(start, end, dayOfWeek);
    var first := NextOrSame(start, dayOfWeek);
    NextOrSameIsFirst(start, dayOfWeek);
    forall i, j | 0 <= i < j < |w|
      ensures IsBefore(w[i], w[j])
    {
      WeekAt(w, first, end, i);
      WeekAt(w, first, end, j);
      BeforeIffDayNumber(w[i], w[j]);
    }
    if end in w {
      BeforeTrichotomy(end, end);
    }
  }

  // ---------------------------------------------------------------------------------------
  // The monthly schedule

  /** The monthly loop emits one date per calendar month, in consecutive months, so each entry
      is strictly after the one before. */
  lemma MonthlyFromMonths(day: Date, end: Date)
    ensures var m := MonthlyFrom(day, end);
      (forall i :: 0 <= i < |m| ==> ProlepticMonth(m[i]) == ProlepticMonth(day) + i) &&
      (forall i, j :: 0 <= i < j < |m| ==> IsBefore(m[i], m[j]))
  {
    var m := MonthlyFrom(day, end);
    forall i | 0 <= i < |m|
      ensures ProlepticMonth(m[i]) == ProlepticMonth(day) + i
    {
      MonthAt(m, day, end, i);
    }
    forall i, j | 0 <= i < j < |m|
      ensures IsBefore(m[i], m[j])
    {
      ProlepticMonthOrder(m[i], m[j]);
    }
  }

  lemma {:induction false} MonthAt(m: seq<Date>, day: Date, end: Date, i: nat)
    requires m == MonthlyFrom(day, end) && i < |m|
    ensures ProlepticMonth(m[i]) == ProlepticMonth(day) + i
    decreases i
  {
    if i > 0 {
      MonthAt(m, day, end, i - 1);
      PlusMonthsMoves(m[i - 1], 1);
    }
  }

  /** The shortest of the months the given dates fall in. */
  function ShortestMonth(dates: seq<Date>): int
    requires |dates| > 0
    decreases |dates|
  {
    var last := dates[|dates| - 1];
    if |dates| == 1 then MonthLength(last.year, last.month)
    else Min(ShortestMonth(dates[..|dates| - 1]), MonthLength(last.year, last.month))
  }

  /** Each monthly entry keeps the first entry's day of month, except that it is clamped to the
      length of the shortest month met so far: once clamped to a month's end it stays clamped. */
  lemma MonthlyFromDays(day: Date, end: Date)
    ensures var m := MonthlyFrom(day, end);
      (forall i :: 0 <= i < |m| ==> m[i].day == Min(day.day, ShortestMonth(m[..i + 1]))) &&
      (forall i, j :: 0 <= i <= j < |m| ==> m[j].day <= m[i].day)
  {
    var m := MonthlyFrom(day, end);
    forall i | 0 <= i < |m|
      ensures m[i].day == Min(day.day, ShortestMonth(m[..i + 1]))
    {
      DayAt(m, day, end, i);
    }
    forall i, j | 0 <= i <= j < |m|
      ensures m[j].day <= m[i].day
    {
      DaysNonIncreasing(m, day, end, i, j);
    }
  }

  lemma {:induction false} DayAt(m: seq<Date>, day: Date, end: Date, i: nat)
    requires m == MonthlyFrom(day, end) && i < |m|
    ensures m[i].day == Min(day.day, ShortestMonth(m[..i + 1]))
    decreases i
  {
    if i > 0 {
      DayAt(m, day, end, i - 1);
      PlusMonthsMoves(m[i - 1], 1);
      assert m[..i + 1][..i] == m[..i];
    }
  }

  lemma {:induction false} DaysNonIncreasing(m: seq<Date>, day: Date, end: Date, i: nat, j: nat)
    requires m == MonthlyFrom(day, end) && i <= j < |m|
    ensures m[j].day <= m[i].day
    decreases j - i
  {
    if i < j {
      DaysNonIncreasing(m, day, end, i, j - 1);
      PlusMonthsMoves(m[j - 1], 1);
    }
  }

  // ---------------------------------------------------------------------------------------
  // The generator as a whole

  /** With no weekday and a type other than MONTHLY, in particular for DAILY and for an unset
      type, the generator emits nothing and cannot throw. */
  lemma NoAnchorNoDates(r: Record, today: Date)
    requires r.dayOfWeek.None? && r.subscriptionType != Some(MONTHLY)
    ensures ScheduleDates(r, today) == Success([])
  {
    assert WeeklyPart(r) == Success([]);
    assert MonthlyPart(r, today) == Success([]);
    var none: seq<Date> := [];
    assert none + none == none;
  }

  /** The generator does not read the list it replaces, so running it again on its own result
      produces the same list. */
  lemma GeneratedIdempotent(r: Record, today: Date)
    requires Generated(r, today).Success?
    ensures Generated(Generated(r, today).value, today) == Generated(r, today)
  {
    var s := Generated(r, today).value;
    assert ScheduleDates(s, today) == ScheduleDates(r, today) by {
      assert WeeklyPart(s) == WeeklyPart(r);
      assert MonthlyPart(s, today) == MonthlyPart(r, today);
    }
  }

  /** Every list entry renders a date; parsing it back with the same pattern recovers the date
      whenever its year is within 1..999999999. */
  lemma ListEntriesParse(dates: seq<Date>, i: nat)
    requires i < |dates| && 1 <= dates[i].year <= MAX_YEAR
    ensures ParseDate(FormatAll(dates)[i]) == Some(dates[i])
  {
    FormatParseRoundTrip(dates[i]);
  }

  /** When both anchors are set, the weekly dates come first and the monthly dates follow. */
  lemma WeeklyBeforeMonthly(r: Record, today: Date)
    requires r.dayOfWeek.Some? && r.subscriptionType == Some(MONTHLY)
    requires r.startDate.Some? && r.endDate.Some?
    requires MonthlyAnchor(today, r.dayOfMonth, r.startDate).Success?
    ensures ScheduleDates(r, today) == Success(
      WeeklySchedule(r.startDate.value, r.endDate.value, r.dayOfWeek.value) +
      MonthlyFrom(MonthlyAnchor(today, r.dayOfMonth, r.startDate).value, r.endDate.value))
  {
    var weekly := WeeklySchedule(r.startDate.value, r.endDate.value, r.dayOfWeek.value);
    var monthly := MonthlyFrom(MonthlyAnchor(today, r.dayOfMonth, r.startDate).value, r.endDate.value);
    assert WeeklyPart(r) == Success(weekly);
    assert MonthlyPart(r, today) == Success(monthly);
  }

  // ---------------------------------------------------------------------------------------
  // Worked examples

  /** A WEEKLY subscription on Mondays from Monday 4 January 2021 to 25 January 2021 is invoiced
      on 4, 11 and 18 January; the end date itself is left out. */
  lemma WeeklyExample()
    ensures WeeklySchedule(LocalDate(2021, 1, 4), LocalDate(2021, 1, 25), MONDAY) ==
      [LocalDate(2021, 1, 4), LocalDate(2021, 1, 11), LocalDate(2021, 1, 18)]
  {
    var start, end := LocalDate(2021, 1, 4), LocalDate(2021, 1, 25);
    assert GetDayOfWeek(start) == MONDAY;
    assert NextOrSame(start, MONDAY) == start;
    var second, third, fourth := LocalDate(2021, 1, 11), LocalDate(2021, 1, 18), LocalDate(2021, 1, 25);
    PlusWeeksIs(start, second);
    PlusWeeksIs(second, third);
    PlusWeeksIs(third, fourth);
    assert WeeklyFrom(fourth, end) == [];
  }

  /** The date one week after a is b when b's day number is seven more. */
  lemma PlusWeeksIs(a: Date, b: Date)
    requires DayNumber(b) == DayNumber(a) + 7
    ensures PlusWeeks(a, 1) == b
  {
    DayNumberInjective(PlusWeeks(a, 1), b);
  }

  /** A MONTHLY subscription on the 5th from 20 March 2021 to 20 June 2021, handled in March:
      the 5th is before the 20th, so the first invoice moves to 5 April, followed by 5 May and
      5 June. */
  lemma MonthlyExample()
    ensures MonthlyAnchor(LocalDate(2021, 3, 1), 5, Some(LocalDate(2021, 3, 20))) ==
      Success(LocalDate(2021, 4, 5))
    ensures MonthlyFrom(LocalDate(2021, 4, 5), LocalDate(2021, 6, 20)) ==
      [LocalDate(2021, 4, 5), LocalDate(2021, 5, 5), LocalDate(2021, 6, 5)]
  {
    assert PlusMonths(LocalDate(2021, 3, 20), 1) == LocalDate(2021, 4, 20);
    assert PlusMonths(LocalDate(2021, 4, 5), 1) == LocalDate(2021, 5, 5);
    assert PlusMonths(LocalDate(2021, 5, 5), 1) == LocalDate(2021, 6, 5);
    assert PlusMonths(LocalDate(2021, 6, 5), 1) == LocalDate(2021, 7, 5);
    assert MonthlyFrom(LocalDate(2021, 7, 5), LocalDate(2021, 6, 20)) == [];
  }

  /** The anchor follows today's month, not the start's: handled in January, a subscription on
      the 15th starting 10 March is first invoiced on 15 January, before it starts. */
  lemma MonthlyAnchorBeforeStart()
    ensures MonthlyAnchor(LocalDate(2021, 1, 10), 15, Some(LocalDate(2021, 3, 10))) ==
      Success(LocalDate(2021, 1, 15))
    ensures IsBefore(LocalDate(2021, 1, 15), LocalDate(2021, 3, 10))
  {
  }

  /** Handled in February 2021, a subscription on the 30th starting 31 March throws, although
      the corrected anchor 30 April exists: today's month is tried first. */
  lemma MonthlyAnchorThrowsBeforeCorrection()
    ensures WithDayOfMonth(PlusMonths(LocalDate(2021, 3, 31), 1), 30) == Some(LocalDate(2021, 4, 30))
    ensures MonthlyAnchor(LocalDate(2021, 2, 10), 30, Some(LocalDate(2021, 3, 31))) ==
      Failure(DateTimeError)
  {
    assert PlusMonths(LocalDate(2021, 3, 31), 1) == LocalDate(2021, 4, 30);
  }

  /** Stepping from the 31st of January, the day is clamped to 28 in February and stays 28. */
  lemma MonthlyClampExample()
    ensures MonthlyFrom(LocalDate(2021, 1, 31), LocalDate(2021, 4, 1)) ==
      [LocalDate(2021, 1, 31), LocalDate(2021, 2, 28), LocalDate(2021, 3, 28)]
  {
    assert PlusMonths(LocalDate(2021, 1, 31), 1) == LocalDate(2021, 2, 28);
    assert PlusMonths(LocalDate(2021, 2, 28), 1) == LocalDate(2021, 3, 28);
    assert PlusMonths(LocalDate(2021, 3, 28), 1) == LocalDate(2021, 4, 28);
    assert MonthlyFrom(LocalDate(2021, 4, 28), LocalDate(2021, 4, 1)) == [];
  }
}
