/**
  SubscriptionServlet (src/main/java/com/demo/servlets/SubscriptionServlet.java): how a GET
  request's parameters become a Subscription, how its invoice dates are generated, and which
  response doGet chooses.

  The request is a map from parameter name to value (getParameter returns null for a name that
  is not in it). The date the request is handled, which the servlet reads with LocalDate.now(),
  is the parameter today. An exception escaping the servlet is a Failure carrying its kind.
*/
module SubscriptionServlet {
  import opened Outcomes
  import opened Calendar
  import opened Text
  import opened DateFormat
  import opened Entities
  import opened InvoiceSchedule

  /** The longest range, in months, that an invoice schedule may span. */
  const MAX_MONTHS: int := 3

  /** The body sent in place of a subscription that lacks a key field. */
  const DEFAULT_JSON_RESPONSE: string :=
    "{\"status\":\"abnormal\", \"message\":\"Parameters and values are required.\"}"

  const AMOUNT: string := "amount"
  const SUBSCRIPTION_TYPE: string := "subscriptionType"
  const START_DATE: string := "startDate"
  const END_DATE: string := "endDate"
  const DAY_OF_WEEK: string := "dayOfWeek"
  const DAY_OF_MONTH: string := "dayOfMonth"

  /** The parameters of a servlet request, by name. */
  type Request = map<string, string>

  /** HttpServletRequest.getParameter */
  function GetParameter(req: Request, name: string): Option<string> {
    if name in req then Some(req[name]) else None
  }

  // ---------------------------------------------------------------------------------------
  // Enum names, matched as EnumUtils.isValidEnumIgnoreCase and valueOf(toUpperCase()) do

  function TypeName(t: SubscriptionType): string {
    match t
    case DAILY => "DAILY"
    case WEEKLY => "WEEKLY"
    case MONTHLY => "MONTHLY"
  }

  /** The SubscriptionType whose name equals s ignoring case, if there is one. */
  function TypeNamed(s: string): (r: Option<SubscriptionType>)
    ensures r.Some? ==> EqualsIgnoreCase(s, TypeName(r.value))
    ensures r.None? ==> forall t :: !EqualsIgnoreCase(s, TypeName(t))
  {
    if EqualsIgnoreCase(s, "DAILY") then Some(DAILY)
    else if EqualsIgnoreCase(s, "WEEKLY") then Some(WEEKLY)
    else if EqualsIgnoreCase(s, "MONTHLY") then Some(MONTHLY)
    else None
  }

  function DayName(d: DayOfWeek): string {
    match d
    case MONDAY => "MONDAY"
    case TUESDAY => "TUESDAY"
    case WEDNESDAY => "WEDNESDAY"
    case THURSDAY => "THURSDAY"
    case FRIDAY => "FRIDAY"
    case SATURDAY => "SATURDAY"
    case SUNDAY => "SUNDAY"
  }

  /** The DayOfWeek whose name equals s ignoring case, if there is one. */
  function DayNamed(s: string): (r: Option<DayOfWeek>)
    ensures r.Some? ==> EqualsIgnoreCase(s, DayName(r.value))
    ensures r.None? ==> forall d :: !EqualsIgnoreCase(s, DayName(d))
  {
    if EqualsIgnoreCase(s, "MONDAY") then Some(MONDAY)
    else if EqualsIgnoreCase(s, "TUESDAY") then Some(TUESDAY)
    else if EqualsIgnoreCase(s, "WEDNESDAY") then Some(WEDNESDAY)
    else if EqualsIgnoreCase(s, "THURSDAY") then Some(THURSDAY)
    else if EqualsIgnoreCase(s, "FRIDAY") then Some(FRIDAY)
    else if EqualsIgnoreCase(s, "SATURDAY") then Some(SATURDAY)
    else if EqualsIgnoreCase(s, "SUNDAY") then Some(SUNDAY)
    else None
  }

  // ---------------------------------------------------------------------------------------
  // Field resolution (lines 65-106), as functions of the request

  /** Lines 69-71: a blank amount is skipped, a malformed one throws. */
  function ResolveAmount(req: Request): (r: Result<Option<Decimal>, Fatal>)
    ensures r.Failure? <==>
      IsNotBlank(GetParameter(req, AMOUNT)) && ParseDecimal(GetParameter(req, AMOUNT).value).None?
    ensures r.Failure? ==> r.error == NumberFormatError
    ensures r.Success? ==> (r.value.Some? <==> IsNotBlank(GetParameter(req, AMOUNT)))
    ensures r.Success? && r.value.Some? ==> ParseDecimal(GetParameter(req, AMOUNT).value) == r.value
  {
    var text := GetParameter(req, AMOUNT);
    if IsBlank(text) then Success(None)
    else
      match ParseDecimal(text.value)
      case None => Failure(NumberFormatError)
      case Some(d) => Success(Some(d))
  }

  /** Lines 74-79: a blank or unknown type name is ignored. */
  function ResolveType(req: Request): (r: Option<SubscriptionType>)
    ensures r.Some? ==>
      IsNotBlank(GetParameter(req, SUBSCRIPTION_TYPE)) &&
      EqualsIgnoreCase(GetParameter(req, SUBSCRIPTION_TYPE).value, TypeName(r.value))
    ensures r.None? && IsNotBlank(GetParameter(req, SUBSCRIPTION_TYPE)) ==>
      forall t :: !EqualsIgnoreCase(GetParameter(req, SUBSCRIPTION_TYPE).value, TypeName(t))
  {
    var text := GetParameter(req, SUBSCRIPTION_TYPE);
    if IsBlank(text) then None else TypeNamed(text.value)
  }

  /** Lines 90-93: an end before start, or a whole-month span of three or more, is replaced by
      start plus three months. */
  function ClampEnd(start: Date, end: Date): (r: Date)
    ensures !IsBefore(r, start) && !IsAfter(r, PlusMonths(start, MAX_MONTHS))
    ensures r == end || r == PlusMonths(start, MAX_MONTHS)
  {
    if IsAfter(start, end) || MonthsBetween(start, end) >= 3 then
      PlusMonthsMoves(start, MAX_MONTHS);
      PlusMonths(start, MAX_MONTHS)
    else
      ClampKeeps(start, end);
      end
  }

  /** Both date parameters are given: neither is null, empty or whitespace only. */
  predicate DatesGiven(req: Request) {
    IsNotBlank(GetParameter(req, START_DATE)) && IsNotBlank(GetParameter(req, END_DATE))
  }

  /** Lines 82-94: both dates or neither; a malformed one throws, the start's exception first. */
  function ResolveDates(req: Request): (r: Result<(Option<Date>, Option<Date>), Fatal>)
    ensures r.Failure? ==> DatesGiven(req) && r.error == DateTimeParseError
    ensures r.Success? ==> (r.value.0.Some? <==> DatesGiven(req)) && (r.value.0.Some? <==> r.value.1.Some?)
    ensures r.Success? && r.value.0.Some? ==>
      !IsBefore(r.value.1.value, r.value.0.value) &&
      !IsAfter(r.value.1.value, PlusMonths(r.value.0.value, MAX_MONTHS))
    ensures r.Failure? <==>
      DatesGiven(req) &&
      (ParseDate(GetParameter(req, START_DATE).value).None? ||
       ParseDate(GetParameter(req, END_DATE).value).None?)
    ensures r.Success? && DatesGiven(req) ==>
      ParseDate(GetParameter(req, END_DATE).value).Some? &&
      r.value.0 == ParseDate(GetParameter(req, START_DATE).value) &&
      r.value.1 == Some(ClampEnd(r.value.0.value, ParseDate(GetParameter(req, END_DATE).value).value))
  {
    var startText := GetParameter(req, START_DATE);
    var endText := GetParameter(req, END_DATE);
    if !DatesGiven(req) then Success((None, None))
    else
      match ParseDate(startText.value)
      case None => Failure(DateTimeParseError)
      case Some(start) =>
        match ParseDate(endText.value)
        case None => Failure(DateTimeParseError)
        case Some(end) => Success((Some(start), Some(ClampEnd(start, end))))
  }

  /** Lines 97-106: the weekday is read only for WEEKLY, and an unknown name is ignored; the day
      of month is parsed, without a blank check, only for MONTHLY. */
  function ResolveAnchor(req: Request, subscriptionType: Option<SubscriptionType>):
    (r: Result<(Option<DayOfWeek>, Int32), Fatal>)
    ensures r.Failure? <==>
      subscriptionType == Some(MONTHLY) && ParseInt(GetParameter(req, DAY_OF_MONTH)).None?
    ensures r.Failure? ==> r.error == NumberFormatError
    ensures r.Success? && r.value.0.Some? ==> subscriptionType == Some(WEEKLY)
    ensures r.Success? && r.value.0.Some? ==>
      IsNotBlank(GetParameter(req, DAY_OF_WEEK)) &&
      EqualsIgnoreCase(GetParameter(req, DAY_OF_WEEK).value, DayName(r.value.0.value))
    ensures r.Success? && subscriptionType == Some(WEEKLY) && IsNotBlank(GetParameter(req, DAY_OF_WEEK)) ==>
      r.value.0 == DayNamed(GetParameter(req, DAY_OF_WEEK).value)
    ensures r.Success? && subscriptionType != Some(MONTHLY) ==> r.value.1 == 0
    ensures r.Success? && subscriptionType == Some(MONTHLY) ==>
      ParseInt(GetParameter(req, DAY_OF_MONTH)) == Some(r.value.1)
  {
    var dow := GetParameter(req, DAY_OF_WEEK);
    if subscriptionType == Some(WEEKLY) && IsNotBlank(dow) then Success((DayNamed(dow.value), 0))
    else if subscriptionType == Some(MONTHLY) then
      match ParseInt(GetParameter(req, DAY_OF_MONTH))
      case None => Failure(NumberFormatError)
      case Some(n) => Success((None, n))
    else Success((None, 0))
  }

  /** The fields set by lines 66-106, before the invoice dates are generated. */
  function ResolveFields(req: Request): (r: Result<Record, Fatal>)
    ensures r.Failure? <==>
      ResolveAmount(req).Failure? || ResolveDates(req).Failure? ||
      ResolveAnchor(req, ResolveType(req)).Failure?
    ensures r.Success? ==> r.value.invoiceDateList.None? && r.value.subscriptionType == ResolveType(req)
  {
    var amount :- ResolveAmount(req);
    var subscriptionType := ResolveType(req);
    var dates :- ResolveDates(req);
    var anchor :- ResolveAnchor(req, subscriptionType);
    Success(Record(amount, subscriptionType, anchor.0, anchor.1, dates.0, dates.1, None))
  }

  /** What processRequestParameters returns, as a value: the resolved fields with the generated
      invoice dates, or the exception thrown on the way. */
  function Resolve(req: Request, today: Date): (r: Result<Record, Fatal>)
    ensures ResolveFields(req).Failure? ==> r == Failure(ResolveFields(req).error)
    ensures r.Success? ==>
      ResolveFields(req).Success? && r.value.invoiceDateList.Some? &&
      r.value.(invoiceDateList := None) == ResolveFields(req).value
  {
    var fields :- ResolveFields(req);
    Generated(fields, today)
  }

  /** isValid on the fields: amount, type, start date and end date are all set. */
  predicate HasKeyFields(r: Record) {
    r.amount.Some? && r.subscriptionType.Some? && r.startDate.Some? && r.endDate.Some?
  }

  /** What doGet writes: the subscription, serialised, or the fixed abnormal body. */
  datatype Response = SubscriptionJson(subscription: Record) | Abnormal(body: string)

  function Respond(req: Request, today: Date): (r: Result<Response, Fatal>)
    ensures r.Failure? <==> Resolve(req, today).Failure?
    ensures r.Success? && r.value.SubscriptionJson? ==>
      HasKeyFields(r.value.subscription) && r.value.subscription == Resolve(req, today).value
    ensures r.Success? && r.value.Abnormal? ==>
      !HasKeyFields(Resolve(req, today).value) && r.value.body == DEFAULT_JSON_RESPONSE
  {
    var r :- Resolve(req, today);
    Success(if HasKeyFields(r) then SubscriptionJson(r) else Abnormal(DEFAULT_JSON_RESPONSE))
  }

  // ---------------------------------------------------------------------------------------
  // The servlet's methods

  /** generateInvoiceDateList (lines 118-139): fills a new list by the weekly and then the
      monthly loop and stores it in the subscription; an exception leaves the old list in place. */
  method GenerateInvoiceDateList(subscription: Subscription, today: Date) returns (outcome: Outcome<Fatal>)
    modifies subscription`invoiceDateList
    ensures Generated(old(subscription.Snapshot()), today).Success? ==>
      outcome == Pass && subscription.Snapshot() == Generated(old(subscription.Snapshot()), today).value
    ensures Generated(old(subscription.Snapshot()), today).Failure? ==>
      outcome == Fail(Generated(old(subscription.Snapshot()), today).error) &&
      subscription.Snapshot() == old(subscription.Snapshot())
  {
    ghost var fields := subscription.Snapshot();
    GeneratedList(fields, today);
    var invoiceDateList: seq<string> := [];
    var weekly := WeeklyBranch(subscription, invoiceDateList);
    if weekly.Failure? {
      return Fail(weekly.error);
    }
    var monthly := MonthlyBranch(subscription, today, weekly.value);
    if monthly.Failure? {
      return Fail(monthly.error);
    }
    assert [] + FormatAll(WeeklyPart(fields).value) == FormatAll(WeeklyPart(fields).value);
    subscription.SetInvoiceDateList(Some(monthly.value));
    return Pass;
  }

  /** Lines 121-126: the weekly loop runs when the weekday is set and appends its dates to the
      list; a missing start or end date throws. */
  method WeeklyBranch(subscription: Subscription, invoiceDateList: seq<string>) returns (r: Result<seq<string>, Fatal>)
    ensures WeeklyPart(subscription.Snapshot()).Success? ==>
      r == Success(invoiceDateList + FormatAll(WeeklyPart(subscription.Snapshot()).value))
    ensures WeeklyPart(subscription.Snapshot()).Failure? ==>
      r == Failure(WeeklyPart(subscription.Snapshot()).error)
  {
    if subscription.GetDayOfWeek().None? {
      assert invoiceDateList + [] == invoiceDateList;
      return Success(invoiceDateList);
    }
    if subscription.GetStartDate().None? {
      return Failure(NullPointerError);
    }
    var firstDay := NextOrSame(subscription.GetStartDate().value, subscription.GetDayOfWeek().value);
    if subscription.GetEndDate().None? {
      return Failure(NullPointerError);
    }
    var list := AddWeeklyDates(invoiceDateList, firstDay, subscription.GetEndDate().value);
    return Success(list);
  }

  /** Lines 128-136: the monthly loop runs when the type is MONTHLY and appends its dates to the
      list; the anchor's exceptions and a missing end date throw. */
  method MonthlyBranch(subscription: Subscription, today: Date, invoiceDateList: seq<string>)
    returns (r: Result<seq<string>, Fatal>)
    ensures MonthlyPart(subscription.Snapshot(), today).Success? ==>
      r == Success(invoiceDateList + FormatAll(MonthlyPart(subscription.Snapshot(), today).value))
    ensures MonthlyPart(subscription.Snapshot(), today).Failure? ==>
      r == Failure(MonthlyPart(subscription.Snapshot(), today).error)
  {
    if subscription.GetType() != Some(MONTHLY) {
      assert invoiceDateList + [] == invoiceDateList;
      return Success(invoiceDateList);
    }
    var dayOfMonth := subscription.GetDayOfMonth() as int;
    var anchor := WithDayOfMonth(today, dayOfMonth);
    if anchor.None? {
      return Failure(DateTimeError);
    }
    var firstDay := anchor.value;
    if subscription.GetStartDate().None? {
      return Failure(NullPointerError);
    }
    if dayOfMonth < subscription.GetStartDate().value.day {
      var corrected := WithDayOfMonth(PlusMonths(subscription.GetStartDate().value, 1), dayOfMonth);
      if corrected.None? {
        return Failure(DateTimeError);
      }
      firstDay := corrected.value;
    }
    assert MonthlyAnchor(today, subscription.dayOfMonth, subscription.startDate) == Success(firstDay);
    if subscription.GetEndDate().None? {
      return Failure(NullPointerError);
    }
    var list := AddMonthlyDates(invoiceDateList, firstDay, subscription.GetEndDate().value);
    return Success(list);
  }

  /** The weekly for loop (lines 123-125): appends the rendering of every date from firstDay,
      in steps of one week, that is before end. */
  method AddWeeklyDates(invoiceDateList: seq<string>, firstDay: Date, end: Date) returns (r: seq<string>)
    ensures r == invoiceDateList + FormatAll(WeeklyFrom(firstDay, end))
  {
    r := invoiceDateList;
    var day := firstDay;
    while IsBefore(day, end)
      invariant r + FormatAll(WeeklyFrom(day, end)) == invoiceDateList + FormatAll(WeeklyFrom(firstDay, end))
      decreases DayNumber(end) - DayNumber(day)
    {
      WeekCloserToEnd(day, end);
      var text := FormatDate(day);
      ghost var rest := FormatAll(WeeklyFrom(PlusWeeks(day, 1), end));
      assert r + FormatAll(WeeklyFrom(day, end)) == (r + [text]) + rest by {
        WeeklyRenderingStep(day, end);
        AppendThenRest(r, text, rest);
      }
      r := r + [text];
      day := PlusWeeks(day, 1);
    }
    assert r + FormatAll(WeeklyFrom(day, end)) == r;
  }

  /** The monthly for loop (lines 133-135): appends the rendering of every date from firstDay,
      in steps of one month, that is before end. */
  method AddMonthlyDates(invoiceDateList: seq<string>, firstDay: Date, end: Date) returns (r: seq<string>)
    ensures r == invoiceDateList + FormatAll(MonthlyFrom(firstDay, end))
  {
    r := invoiceDateList;
    var day := firstDay;
    while IsBefore(day, end)
      invariant r + FormatAll(MonthlyFrom(day, end)) == invoiceDateList + FormatAll(MonthlyFrom(firstDay, end))
      decreases DayNumber(end) - DayNumber(day)
    {
      MonthCloserToEnd(day, end);
      var text := FormatDate(day);
      ghost var rest := FormatAll(MonthlyFrom(PlusMonths(day, 1), end));
      assert r + FormatAll(MonthlyFrom(day, end)) == (r + [text]) + rest by {
        MonthlyRenderingStep(day, end);
        AppendThenRest(r, text, rest);
      }
      r := r + [text];
      day := PlusMonths(day, 1);
    }
    assert r + FormatAll(MonthlyFrom(day, end)) == r;
  }

  /** Appending one entry and then the rest appends both at once. Stated on its own because
      the solver proves it slowly in the loops' context of date arithmetic. */
  lemma AppendThenRest(r: seq<string>, text: string, rest: seq<string>)
    ensures r + ([text] + rest) == (r + [text]) + rest
  {
  }

  /** Lines 82-94 of processRequestParameters: both dates are parsed and set, the end clamped,
      when both parameters are given; a malformed date throws. */
  method ReadDateRange(subscription: Subscription, req: Request) returns (outcome: Outcome<Fatal>)
    modifies subscription`startDate, subscription`endDate
    ensures outcome.Fail? <==> ResolveDates(req).Failure?
    ensures outcome.Fail? ==> outcome.error == ResolveDates(req).error
    ensures outcome.Pass? && DatesGiven(req) ==>
      subscription.Snapshot() == old(subscription.Snapshot()).(
        startDate := ResolveDates(req).value.0, endDate := ResolveDates(req).value.1)
    ensures outcome.Pass? && !DatesGiven(req) ==> subscription.Snapshot() == old(subscription.Snapshot())
  {
    var startText := GetParameter(req, START_DATE);
    var endText := GetParameter(req, END_DATE);
    if IsNotBlank(startText) && IsNotBlank(endText) {
      var start := ParseDate(startText.value);
      if start.None? {
        return Fail(DateTimeParseError);
      }
      subscription.SetStartDate(start);
      var end := ParseDate(endText.value);
      if end.None? {
        return Fail(DateTimeParseError);
      }
      subscription.SetEndDate(end);
      if IsAfter(subscription.GetStartDate().value, subscription.GetEndDate().value)
        || MonthsBetween(subscription.GetStartDate().value, subscription.GetEndDate().value) >= 3
      {
        subscription.SetEndDate(Some(PlusMonths(subscription.GetStartDate().value, MAX_MONTHS)));
      }
    }
    return Pass;
  }

  /** Lines 96-106 of processRequestParameters: a WEEKLY subscription takes a known weekday, a
      MONTHLY one the day of month, which throws when it is not a number; a setter that does not
      run leaves its field as it was. */
  method ReadAnchor(subscription: Subscription, req: Request) returns (outcome: Outcome<Fatal>)
    modifies subscription`dayOfWeek, subscription`dayOfMonth
    ensures outcome.Fail? <==> ResolveAnchor(req, subscription.subscriptionType).Failure?
    ensures outcome.Fail? ==>
      outcome.error == NumberFormatError && subscription.Snapshot() == old(subscription.Snapshot())
    ensures outcome.Pass? ==>
      var anchor := ResolveAnchor(req, subscription.subscriptionType).value;
      subscription.Snapshot() == old(subscription.Snapshot()).(
        dayOfWeek := if anchor.0.Some? then anchor.0 else old(subscription.dayOfWeek),
        dayOfMonth := if subscription.subscriptionType == Some(MONTHLY) then anchor.1
                      else old(subscription.dayOfMonth))
  {
    var dow := GetParameter(req, DAY_OF_WEEK);
    if subscription.GetType() == Some(WEEKLY) && IsNotBlank(dow) {
      var dayOfWeek := DayNamed(dow.value);
      if dayOfWeek.Some? {
        subscription.SetDayOfWeek(dayOfWeek);
      }
    } else if subscription.GetType() == Some(MONTHLY) {
      var dayOfMonth := ParseInt(GetParameter(req, DAY_OF_MONTH));
      if dayOfMonth.None? {
        return Fail(NumberFormatError);
      }
      subscription.SetDayOfMonth(dayOfMonth.value);
    }
    return Pass;
  }

  /** processRequestParameters (lines 65-111): a new Subscription filled in by setter calls, then
      passed to the generator; an exception discards it. */
  method ProcessRequestParameters(req: Request, today: Date) returns (result: Result<Subscription, Fatal>)
    ensures Resolve(req, today).Success? ==>
      result.Success? && fresh(result.value) && result.value.Snapshot() == Resolve(req, today).value
    ensures Resolve(req, today).Failure? ==> result == Failure(Resolve(req, today).error)
  {
    var subscription := new Subscription();

    var amount := GetParameter(req, AMOUNT);
    if IsNotBlank(amount) {
      var parsed := ParseDecimal(amount.value);
      if parsed.None? {
        assert ResolveAmount(req) == Failure(NumberFormatError);
        return Failure(NumberFormatError);
      }
      subscription.SetAmount(parsed);
    }
    assert ResolveAmount(req) == Success(subscription.amount);

    var typeName := GetParameter(req, SUBSCRIPTION_TYPE);
    if IsNotBlank(typeName) {
      var subscriptionType := TypeNamed(typeName.value);
      if subscriptionType.Some? {
        subscription.SetType(subscriptionType);
      }
    }
    assert ResolveType(req) == subscription.subscriptionType;

    var dates := ReadDateRange(subscription, req);
    if dates.Fail? {
      return Failure(dates.error);
    }

    var anchor := ReadAnchor(subscription, req);
    if anchor.Fail? {
      return Failure(anchor.error);
    }
    assert ResolveAnchor(req, subscription.subscriptionType) ==
      Success((subscription.dayOfWeek, subscription.dayOfMonth));
    assert ResolveFields(req) == Success(subscription.Snapshot());
    assert Resolve(req, today) == Generated(subscription.Snapshot(), today);
    var outcome := GenerateInvoiceDateList(subscription, today);
    if outcome.Fail? {
      return Failure(outcome.error);
    }
    return Success(subscription);
  }

  /** isValid (lines 147-158): a subscription is valid when it exists and its amount, type, start
      date and end date are set. */
  predicate IsValid(subscription: Subscription?)
    reads subscription
  {
    subscription != null && HasKeyFields(subscription.Snapshot())
  }

  /** doGet (lines 49-57): the subscription when it is valid, the fixed abnormal body otherwise. */
  method DoGet(req: Request, today: Date) returns (response: Result<Response, Fatal>)
    ensures response == Respond(req, today)
  {
    var subscription := ProcessRequestParameters(req, today);
    if subscription.Failure? {
      return Failure(subscription.error);
    }
    if IsValid(subscription.value) {
      response := Success(SubscriptionJson(subscription.value.Snapshot()));
    } else {
      response := Success(Abnormal(DEFAULT_JSON_RESPONSE));
    }
  }

  // ---------------------------------------------------------------------------------------
  // The range clamp

  /** A span of under three whole months from start never reaches past start plus three months. */
  lemma ClampKeeps(start: Date, end: Date)
    requires !IsAfter(start, end) && MonthsBetween(start, end) < 3
    ensures !IsAfter(end, PlusMonths(start, MAX_MONTHS))
  {
    var limit := PlusMonths(start, MAX_MONTHS);
    PlusMonthsMoves(start, MAX_MONTHS);
    BeforeTrichotomy(start, end);
    MonthsBetweenForward(start, end);
    ProlepticMonthOrder(limit, end);
  }

  /** An end date that the clamp triggers on although it lies within three months of start is
      start plus three months itself. */
  lemma ClampAtLimit(start: Date, end: Date)
    requires !IsBefore(end, start) && !IsAfter(end, PlusMonths(start, MAX_MONTHS))
    requires MonthsBetween(start, end) >= 3
    ensures end == PlusMonths(start, MAX_MONTHS)
  {
    var limit := PlusMonths(start, MAX_MONTHS);
    PlusMonthsMoves(start, MAX_MONTHS);
    MonthsBetweenForward(start, end);
    ProlepticMonthOrder(limit, end);
    ProlepticMonthOrder(end, limit);
  }

  /** The clamp leaves the end date alone exactly when it lies between start and start plus
      three months. */
  lemma ClampEndKeepsIff(start: Date, end: Date)
    ensures ClampEnd(start, end) == end <==>
      !IsBefore(end, start) && !IsAfter(end, PlusMonths(start, MAX_MONTHS))
  {
    BeforeTrichotomy(start, end);
    if !IsBefore(end, start) && !IsAfter(end, PlusMonths(start, MAX_MONTHS)) && MonthsBetween(start, end) >= 3 {
      ClampAtLimit(start, end);
    }
  }

  /** The clamp without the month count: an end between start and start plus three months is
      kept, and any other end becomes start plus three months. */
  lemma ClampEndClosedForm(start: Date, end: Date)
    ensures ClampEnd(start, end) ==
      if !IsBefore(end, start) && !IsAfter(end, PlusMonths(start, MAX_MONTHS)) then end
      else PlusMonths(start, MAX_MONTHS)
  {
    ClampEndKeepsIff(start, end);
  }

  /** Clamping a clamped range changes nothing. */
  lemma ClampEndIdempotent(start: Date, end: Date)
    ensures ClampEnd(start, ClampEnd(start, end)) == ClampEnd(start, end)
  {
    ClampEndKeepsIff(start, ClampEnd(start, end));
  }

  /** A one-year range from 1 January 2021 is cut to 1 April 2021. */
  lemma ClampLongRange()
    ensures ResolveDates(map[START_DATE := "01/01/2021", END_DATE := "01/01/2022"]) ==
      Success((Some(LocalDate(2021, 1, 1)), Some(LocalDate(2021, 4, 1))))
  {
    var req := map[START_DATE := "01/01/2021", END_DATE := "01/01/2022"];
    assert GetParameter(req, START_DATE) == Some("01/01/2021");
    assert GetParameter(req, END_DATE) == Some("01/01/2022");
    ParsesTo("01/01/2021", LocalDate(2021, 1, 1));
    ParsesTo("01/01/2022", LocalDate(2022, 1, 1));
    assert MonthsBetween(LocalDate(2021, 1, 1), LocalDate(2022, 1, 1)) == 12;
    assert ClampEnd(LocalDate(2021, 1, 1), LocalDate(2022, 1, 1)) == LocalDate(2021, 4, 1);
  }

  /** A range whose end (1 January 2021) precedes its start (1 June 2021) gets the end
      1 September 2021. */
  lemma ClampReversedRange()
    ensures ResolveDates(map[START_DATE := "01/06/2021", END_DATE := "01/01/2021"]) ==
      Success((Some(LocalDate(2021, 6, 1)), Some(LocalDate(2021, 9, 1))))
  {
    var req := map[START_DATE := "01/06/2021", END_DATE := "01/01/2021"];
    assert GetParameter(req, START_DATE) == Some("01/06/2021");
    assert GetParameter(req, END_DATE) == Some("01/01/2021");
    ParsesTo("01/06/2021", LocalDate(2021, 6, 1));
    ParsesTo("01/01/2021", LocalDate(2021, 1, 1));
    assert ClampEnd(LocalDate(2021, 6, 1), LocalDate(2021, 1, 1)) == LocalDate(2021, 9, 1);
  }

  /** A given date parameter in the pattern's layout is not blank and parses to its date. */
  lemma ParsesTo(s: string, d: Date)
    requires |s| == 10 && s[2] == '/' && s[5] == '/'
    requires AllDigits(s[..2]) && AllDigits(s[3..5]) && AllDigits(s[6..])
    requires d.day == 10 * DigitValue(s[0]) + DigitValue(s[1]) && d.day <= 28
    requires d.month == 10 * DigitValue(s[3]) + DigitValue(s[4])
    requires d.year == 1000 * DigitValue(s[6]) + 100 * DigitValue(s[7]) + 10 * DigitValue(s[8]) + DigitValue(s[9])
    requires d.year >= 1
    ensures IsNotBlank(Some(s)) && ParseDate(s) == Some(d)
  {
    ParseTenCharacters(s);
    assert s[..2][0] == s[0];
    NotBlank(s);
  }

  /** A text that starts with a digit is not blank. */
  lemma NotBlank(s: string)
    requires |s| > 0 && IsDigit(s[0])
    ensures IsNotBlank(Some(s))
  {
    assert !IsJavaWhitespace(s[0]);
  }

  // ---------------------------------------------------------------------------------------
  // Enum matching

  lemma EqualsIgnoreCaseEquivalence(a: string, b: string, c: string)
    ensures EqualsIgnoreCase(a, a)
    ensures EqualsIgnoreCase(a, b) ==> EqualsIgnoreCase(b, a)
    ensures EqualsIgnoreCase(a, b) && EqualsIgnoreCase(b, c) ==> EqualsIgnoreCase(a, c)
  {
  }

  /** Every type is found by its own name, and names that differ only in case find the same
      type. */
  lemma TypeNamedIgnoresCase(t: SubscriptionType, s: string, s': string)
    ensures TypeNamed(TypeName(t)) == Some(t)
    ensures EqualsIgnoreCase(s, s') ==> TypeNamed(s) == TypeNamed(s')
  {
    if EqualsIgnoreCase(s, s') {
      forall u: SubscriptionType
        ensures EqualsIgnoreCase(s, TypeName(u)) <==> EqualsIgnoreCase(s', TypeName(u))
      {
        EqualsIgnoreCaseEquivalence(s, s', TypeName(u));
        EqualsIgnoreCaseEquivalence(s', s, TypeName(u));
      }
    }
  }

  /** Every weekday is found by its own name, and names that differ only in case find the same
      weekday. */
  lemma DayNamedIgnoresCase(d: DayOfWeek, s: string, s': string)
    ensures DayNamed(DayName(d)) == Some(d)
    ensures EqualsIgnoreCase(s, s') ==> DayNamed(s) == DayNamed(s')
  {
    forall e: DayOfWeek | e != d
      ensures !EqualsIgnoreCase(DayName(d), DayName(e))
    {
      if |DayName(d)| == |DayName(e)| {
        assert AsciiUpper(DayName(d)[0]) != AsciiUpper(DayName(e)[0]);
      }
    }
    if EqualsIgnoreCase(s, s') {
      forall e: DayOfWeek
        ensures EqualsIgnoreCase(s, DayName(e)) <==> EqualsIgnoreCase(s', DayName(e))
      {
        EqualsIgnoreCaseEquivalence(s, s', DayName(e));
        EqualsIgnoreCaseEquivalence(s', s, DayName(e));
      }
    }
  }

  // ---------------------------------------------------------------------------------------
  // Resolution: what is ignored, what is fatal, what is set

  /** The request resolves with an exception exactly when the amount is present but malformed,
      both dates are present and one is malformed, or the type is MONTHLY and the day of month
      is missing or not an int. */
  lemma ResolveFieldsFatalIff(req: Request)
    ensures ResolveFields(req).Failure? <==>
      (IsNotBlank(GetParameter(req, AMOUNT)) && ParseDecimal(GetParameter(req, AMOUNT).value).None?) ||
      (IsNotBlank(GetParameter(req, START_DATE)) && IsNotBlank(GetParameter(req, END_DATE)) &&
        (ParseDate(GetParameter(req, START_DATE).value).None? ||
         ParseDate(GetParameter(req, END_DATE).value).None?)) ||
      (ResolveType(req) == Some(MONTHLY) && ParseInt(GetParameter(req, DAY_OF_MONTH)).None?)
  {
  }

  /** Under MONTHLY, a day of month that is absent, empty or blank is fatal. */
  lemma BlankDayOfMonthFatal(req: Request)
    requires ResolveType(req) == Some(MONTHLY) && IsBlank(GetParameter(req, DAY_OF_MONTH))
    ensures ResolveFields(req).Failure?
  {
    ParseIntRejectsBlank(GetParameter(req, DAY_OF_MONTH));
  }

  /** A blank or unrecognised type name resolves exactly as if it were absent. */
  lemma UnknownTypeIgnored(req: Request, value: string)
    requires IsBlank(Some(value)) || TypeNamed(value).None?
    ensures ResolveFields(req[SUBSCRIPTION_TYPE := value]) == ResolveFields(req - {SUBSCRIPTION_TYPE})
  {
    var with := req[SUBSCRIPTION_TYPE := value];
    var without := req - {SUBSCRIPTION_TYPE};
    SameParameters(with, without, SUBSCRIPTION_TYPE);
    assert ResolveType(with) == ResolveType(without);
  }

  /** The weekday is read only under WEEKLY, and a blank or unrecognised weekday name resolves
      exactly as if it were absent. */
  lemma DayOfWeekIgnored(req: Request, value: string)
    requires ResolveType(req) != Some(WEEKLY) || IsBlank(Some(value)) || DayNamed(value).None?
    ensures ResolveFields(req[DAY_OF_WEEK := value]) == ResolveFields(req - {DAY_OF_WEEK})
  {
    var with := req[DAY_OF_WEEK := value];
    var without := req - {DAY_OF_WEEK};
    SameParameters(with, without, DAY_OF_WEEK);
    assert ResolveType(with) == ResolveType(req) == ResolveType(without);
    assert ResolveAmount(with) == ResolveAmount(without);
    assert ResolveDates(with) == ResolveDates(without);
    assert ResolveAnchor(with, ResolveType(req)) == ResolveAnchor(without, ResolveType(req));
  }

  /** The day of month is read only under MONTHLY; otherwise it resolves to 0 whatever its
      value. */
  lemma DayOfMonthIgnored(req: Request, value: string)
    requires ResolveType(req) != Some(MONTHLY)
    ensures ResolveFields(req[DAY_OF_MONTH := value]) == ResolveFields(req - {DAY_OF_MONTH})
    ensures ResolveFields(req).Success? ==> ResolveFields(req).value.dayOfMonth == 0
  {
    var with := req[DAY_OF_MONTH := value];
    var without := req - {DAY_OF_MONTH};
    SameParameters(with, without, DAY_OF_MONTH);
    assert ResolveType(with) == ResolveType(req) == ResolveType(without);
    assert ResolveAmount(with) == ResolveAmount(without);
    assert ResolveDates(with) == ResolveDates(without);
    assert ResolveAnchor(with, ResolveType(req)) == ResolveAnchor(without, ResolveType(req));
    assert ResolveAnchor(req, ResolveType(req)).Success?;
  }

  /** Two requests that differ at most in one parameter give the same value for every other. */
  lemma SameParameters(a: Request, b: Request, name: string)
    requires forall n :: n != name ==> (n in a <==> n in b) && (n in a ==> a[n] == b[n])
    ensures forall n :: n != name ==> GetParameter(a, n) == GetParameter(b, n)
  {
  }

  /** Start and end dates are set together or not at all; when set, the end lies between start
      and start plus three months, and the start is the date the parameter names. */
  lemma ResolvedRange(req: Request)
    requires ResolveFields(req).Success?
    ensures var r := ResolveFields(req).value;
      (r.startDate.Some? <==> r.endDate.Some?) &&
      (r.startDate.Some? <==>
        IsNotBlank(GetParameter(req, START_DATE)) && IsNotBlank(GetParameter(req, END_DATE))) &&
      (r.startDate.Some? ==>
        Some(r.startDate.value) == ParseDate(GetParameter(req, START_DATE).value) &&
        ParseDate(GetParameter(req, END_DATE).value).Some? &&
        r.endDate.value == ClampEnd(r.startDate.value, ParseDate(GetParameter(req, END_DATE).value).value) &&
        !IsBefore(r.endDate.value, r.startDate.value) &&
        !IsAfter(r.endDate.value, PlusMonths(r.startDate.value, MAX_MONTHS)))
  {
  }

  /** At most one anchor is set: a weekday only under WEEKLY, a day of month other than 0 only
      under MONTHLY. */
  lemma ResolvedAnchors(req: Request)
    requires ResolveFields(req).Success?
    ensures var r := ResolveFields(req).value;
      (r.dayOfWeek.Some? ==> r.subscriptionType == Some(WEEKLY)) &&
      (r.subscriptionType != Some(MONTHLY) ==> r.dayOfMonth == 0) &&
      r.invoiceDateList.None?
  {
  }

  /** A resolved subscription has its key fields exactly when the amount, a recognised type and
      both dates were given. */
  lemma ResolvedKeyFieldsIff(req: Request)
    requires ResolveFields(req).Success?
    ensures HasKeyFields(ResolveFields(req).value) <==>
      IsNotBlank(GetParameter(req, AMOUNT)) &&
      IsNotBlank(GetParameter(req, SUBSCRIPTION_TYPE)) &&
      TypeNamed(GetParameter(req, SUBSCRIPTION_TYPE).value).Some? &&
      IsNotBlank(GetParameter(req, START_DATE)) && IsNotBlank(GetParameter(req, END_DATE))
  {
  }

  // ---------------------------------------------------------------------------------------
  // The generated list of a resolved request

  /** Generation always stores a new list; a WEEKLY request with a recognised weekday gets its
      weekly schedule and nothing else, and a type other than WEEKLY and MONTHLY gets an empty
      list. */
  lemma ResolvedList(req: Request, today: Date)
    requires Resolve(req, today).Success?
    ensures var r := Resolve(req, today).value;
      r.invoiceDateList.Some? &&
      (r.dayOfWeek.Some? ==>
        r.invoiceDateList.value ==
          FormatAll(WeeklySchedule(r.startDate.value, r.endDate.value, r.dayOfWeek.value))) &&
      (r.subscriptionType != Some(WEEKLY) && r.subscriptionType != Some(MONTHLY) ==>
        r.invoiceDateList.value == [])
  {
    var fields := ResolveFields(req).value;
    ResolvedAnchors(req);
    var none: seq<Date> := [];
    var dates := ScheduleDates(fields, today).value;
    if fields.dayOfWeek.Some? {
      assert dates == WeeklySchedule(fields.startDate.value, fields.endDate.value, fields.dayOfWeek.value) + none;
    } else if fields.subscriptionType != Some(WEEKLY) && fields.subscriptionType != Some(MONTHLY) {
      NoAnchorNoDates(fields, today);
    }
  }

  /** A MONTHLY request gets the monthly loop from its anchor, or the anchor's exception. */
  lemma ResolvedMonthlyList(req: Request, today: Date)
    requires ResolveFields(req).Success? && ResolveFields(req).value.subscriptionType == Some(MONTHLY)
    ensures var r := ResolveFields(req).value;
      var anchor := MonthlyAnchor(today, r.dayOfMonth, r.startDate);
      (anchor.Failure? ==> Resolve(req, today) == Failure(anchor.error)) &&
      (anchor.Success? && r.endDate.Some? ==>
        Resolve(req, today) == Success(r.(invoiceDateList := Some(FormatAll(MonthlyFrom(anchor.value, r.endDate.value))))))
  {
    var r := ResolveFields(req).value;
    ResolvedAnchors(req);
    var none: seq<Date> := [];
    assert WeeklyPart(r) == Success(none);
    var anchor := MonthlyAnchor(today, r.dayOfMonth, r.startDate);
    if anchor.Success? && r.endDate.Some? {
      assert none + MonthlyFrom(anchor.value, r.endDate.value) == MonthlyFrom(anchor.value, r.endDate.value);
    }
  }

  // ---------------------------------------------------------------------------------------
  // The response

  /** doGet sends the subscription exactly when it has its key fields; the anchors and the
      invoice list play no part. */
  lemma RespondIff(req: Request, today: Date)
    requires Resolve(req, today).Success?
    ensures var r := Resolve(req, today).value;
      (Respond(req, today) == Success(SubscriptionJson(r)) <==> HasKeyFields(r)) &&
      (Respond(req, today) == Success(Abnormal(DEFAULT_JSON_RESPONSE)) <==> !HasKeyFields(r))
  {
  }

  /** A request without an amount gets the abnormal body, however complete the rest is. */
  lemma MissingAmountAbnormal(req: Request, today: Date)
    requires IsBlank(GetParameter(req, AMOUNT)) && Resolve(req, today).Success?
    ensures Respond(req, today) == Success(Abnormal(DEFAULT_JSON_RESPONSE))
  {
    assert Resolve(req, today).value.amount == None;
  }

  /** isValid reads the four key fields through their getters, and a null subscription is
      invalid. */
  lemma IsValidIff(subscription: Subscription?)
    ensures IsValid(subscription) <==>
      subscription != null &&
      subscription.GetAmount().Some? && subscription.GetType().Some? &&
      subscription.GetStartDate().Some? && subscription.GetEndDate().Some?
    ensures !IsValid(null)
  {
  }

  /** Validity does not look at the anchors or at the invoice list. */
  lemma KeyFieldsIgnoreAnchors(r: Record, dayOfWeek: Option<DayOfWeek>, dayOfMonth: Int32, list: Option<seq<string>>)
    ensures HasKeyFields(r.(dayOfWeek := dayOfWeek, dayOfMonth := dayOfMonth, invoiceDateList := list)) ==
      HasKeyFields(r)
  {
  }
}
