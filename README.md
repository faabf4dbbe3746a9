# Subscription invoice schedule

A Dafny model of the subscription endpoint of `web-api-demo`. A GET request carries up to six
named parameters: `amount`, `subscriptionType`, `startDate`, `endDate`, `dayOfWeek` and
`dayOfMonth`. The servlet resolves them into a `Subscription` record and fills in that record's
list of invoice dates. For a WEEKLY subscription the dates fall on one weekday. For a MONTHLY one
they fall on one day of the month. Dates are rendered as `dd/MM/yyyy`. The servlet answers with
the subscription when its key fields are set, and with a fixed "abnormal" body otherwise.

The project is organised as follows:

- `outcomes.dfy` (module `Outcomes`): `Option` stands for a Java reference that may be null.
  `Result` and `Outcome` stand for a computation that may throw. `Fatal` lists the kinds of
  exception that can escape the servlet.
- `calendar.dfy` (module `Calendar`): the part of `java.time.LocalDate` the servlet uses. This
  is the proleptic Gregorian calendar of ISO 8601 (section 3.2.1 of ISO 8601:2004). It covers
  the leap rule, a valid-date subset type and day numbers. It also covers `isBefore`/`isAfter`,
  `plusDays`/`plusWeeks` and `plusMonths` (move the month, then clamp the day), and
  `withDayOfMonth`, which fails for a day the month lacks. Finally it covers the ISO day of the
  week, `TemporalAdjusters.nextOrSame` and `ChronoUnit.MONTHS.between`.
- `text.dfy` (module `Text`): `StringUtils.isBlank` with Java's whitespace, and case-insensitive
  matching of ASCII names. It also holds `Integer.parseInt` (into a 32-bit `Int32`) and the
  grammar of `new BigDecimal(String)`.
- `date_format.dfy` (module `DateFormat`): `DateTimeFormatter.ofPattern("dd/MM/yyyy")`, both
  `format` and `LocalDate.parse`.
- `subscription.dfy` (module `Entities`): the `SubscriptionType` enum and the `Subscription`
  class, with its fields, getters and setters. `Record` is the value of all the fields at one
  moment.
- `schedule.dfy` (module `InvoiceSchedule`): what `generateInvoiceDateList` computes, as
  functions of the fields and of the injected date `today`, with the schedule's properties.
- `servlet.dfy` (module `SubscriptionServlet`): `processRequestParameters`,
  `generateInvoiceDateList`, `isValid` and `doGet`. They are written as methods over a
  `Subscription` object and proved against the resolution functions. The file also holds the
  lemmas about what is ignored, what is fatal, the range clamp and the response.

A request is a `map<string, string>`: `getParameter` yields `None` for a name that is absent.
The clock read `LocalDate.now()` is replaced by a parameter `today`. Every uncaught Java
exception becomes `Failure` with its kind. The two outcomes stay apart:
- a field skipped silently (a blank value, an unknown enum name) leaves the field `None`;
- a fatal parse failure makes the whole resolution a `Failure`.

Behaviour that follows the code rather than a looser reading of it:

- Dates are parsed with the formatter's default SMART resolver. A day of 29, 30 or 31 that the
  month lacks becomes the month's last day (`31/04/2021` is 30 April 2021). A day outside 1..31,
  a month outside 1..12 and a year of `0000` are rejected.
- `yyyy` is the year of the era. A year after 9999 renders with a leading `+`, and a year before
  year 1 renders as its year of era. Parsing a rendering back therefore recovers the date for
  every year from 1 to 999999999. It does not recover year 0.
- The list of invoice dates is null until the generator runs. The generator then always stores
  a new list, and never appends to an old one.
- The clamp keeps the end exactly when start ≤ end and the whole-month span is under three.
  Otherwise the end becomes `start + 3 months`. For example, 01/01/2021 to 15/04/2021 has a span
  of 3, so its end becomes 01/04/2021.

## Model

| member | source | states |
|---|---|---|
| `Calendar.IsBefore` | src/main/java/com/demo/servlets/SubscriptionServlet.java:123 | defined by its body (year, then month, then day); characterised by `BeforeTrichotomy` and `BeforeIffDayNumber` |
| `Calendar.BeforeTrichotomy` | src/main/java/com/demo/servlets/SubscriptionServlet.java:90 | of two dates one is before the other or they are equal, never both; no date is before itself |
| `Calendar.BeforeIffDayNumber` | src/main/java/com/demo/servlets/SubscriptionServlet.java:123 | one date is before another exactly when its day number is smaller, so `isBefore` is a strict total order on dates |
| `Calendar.PlusDays` | src/main/java/com/demo/servlets/SubscriptionServlet.java:122 | adding days moves the day number by exactly that many days |
| `Calendar.PlusWeeks` | src/main/java/com/demo/servlets/SubscriptionServlet.java:123 | adding weeks moves the day number by exactly seven per week |
| `Calendar.GetDayOfWeek` | src/main/java/com/demo/servlets/SubscriptionServlet.java:122 | defined by its body (1 January 1970 is a Thursday); characterised by `SameWeekday` |
| `Calendar.SameWeekday` | src/main/java/com/demo/servlets/SubscriptionServlet.java:122 | two dates fall on the same weekday exactly when their day numbers differ by a multiple of seven |
| `Calendar.NextOrSame` | src/main/java/com/demo/servlets/SubscriptionServlet.java:122 | defined by its body; characterised by `NextOrSameIsFirst` |
| `Calendar.NextOrSameIsFirst` | src/main/java/com/demo/servlets/SubscriptionServlet.java:122 | `nextOrSame` lands on the requested weekday, on or after the date and at most six days later, and no date in between has that weekday |
| `Calendar.PlusMonths` | src/main/java/com/demo/servlets/SubscriptionServlet.java:131-133 | `plusMonths` moves the month number by exactly the count and keeps the day, clamped to the new month's length |
| `Calendar.PlusMonthsMoves` | src/main/java/com/demo/servlets/SubscriptionServlet.java:133 | adding a positive number of months moves a date forward |
| `Calendar.WithDayOfMonth` | src/main/java/com/demo/servlets/SubscriptionServlet.java:129 | `withDayOfMonth(k)` succeeds exactly when 1 ≤ k ≤ the month's length, and then keeps year and month with day k |
| `Calendar.MonthsBetween` | src/main/java/com/demo/servlets/SubscriptionServlet.java:91 | defined by its body (packed months, truncating division); characterised by `MonthsBetweenForward` and `MonthsBetweenAntisymmetric` |
| `Calendar.MonthsBetweenForward` | src/main/java/com/demo/servlets/SubscriptionServlet.java:91 | for an end not before start, the whole-month span is the month difference, less one when the end's day of month is smaller |
| `Calendar.MonthsBetweenAntisymmetric` | src/main/java/com/demo/servlets/SubscriptionServlet.java:91 | swapping the two dates negates the whole-month span |
| `Text.IsBlank` | src/main/java/com/demo/servlets/SubscriptionServlet.java:69 | defined by its body (null, or Java whitespace only); characterised by `ParseIntRejectsBlank` |
| `Text.EqualsIgnoreCase` | src/main/java/com/demo/servlets/SubscriptionServlet.java:76 | defined by its body (same length, same ASCII upper case at every place); characterised by `SubscriptionServlet.EqualsIgnoreCaseEquivalence` |
| `Text.ParseInt` | src/main/java/com/demo/servlets/SubscriptionServlet.java:105 | succeeds exactly when the text is an optional sign and at least one digit whose value fits in 32 bits, and then yields that value; null fails |
| `Text.ParseIntRejectsBlank` | src/main/java/com/demo/servlets/SubscriptionServlet.java:104-105 | `Integer.parseInt` throws for a missing, empty or whitespace-only `dayOfMonth` |
| `Text.ParseIntRoundTrip` | src/main/java/com/demo/servlets/SubscriptionServlet.java:105 | every 32-bit int is read back from its decimal text |
| `Text.ParseDecimal` | src/main/java/com/demo/servlets/SubscriptionServlet.java:70 | defined by its body (an optional sign, then the unsigned grammar of `new BigDecimal(String)`); characterised by `ParseDecimalRoundTrip` |
| `Text.ParseDecimalRoundTrip` | src/main/java/com/demo/servlets/SubscriptionServlet.java:70 | the amount parse reaches every decimal: each is the parse of its scientific rendering (the unscaled digits, 'E', the exponent) |
| `DateFormat.FormatYear` | src/main/java/com/demo/servlets/SubscriptionServlet.java:36-37 | the year field has at least four characters, and is all digits exactly when the year of era is below 10000 |
| `DateFormat.FormatDate` | src/main/java/com/demo/servlets/SubscriptionServlet.java:124 | a rendering has at least ten characters with '/' in the third and sixth places; characterised by `FormatDateShape` and `FormatParseRoundTrip` |
| `DateFormat.ParseDate` | src/main/java/com/demo/servlets/SubscriptionServlet.java:85-88 | a parsed date has a year from 1 to 999999999; characterised by `SmartResolution`, `ParseRejects` and `ParseFormatRoundTrip` |
| `DateFormat.FormatDateShape` | src/main/java/com/demo/servlets/SubscriptionServlet.java:124 | a rendered date with a four-digit year is ten characters: zero-padded day, '/', zero-padded month, '/', year |
| `DateFormat.FormatParseRoundTrip` | src/main/java/com/demo/servlets/SubscriptionServlet.java:36-37 | parsing a rendered date with the same pattern recovers the date, for years 1 to 999999999 |
| `DateFormat.ParseFormatRoundTrip` | src/main/java/com/demo/servlets/SubscriptionServlet.java:85-88 | a ten-character text that parses, and whose day exists in its month, renders back to itself |
| `DateFormat.SmartResolution` | src/main/java/com/demo/servlets/SubscriptionServlet.java:85 | a day the month lacks (29 to 31) is moved to the month's last day, and an existing day is kept |
| `DateFormat.ParseRejects` | src/main/java/com/demo/servlets/SubscriptionServlet.java:88 | day 0 or 32, month 13, year 0000 and unpadded fields fail to parse |
| `DateFormat.YearOfEraRendering` | src/main/java/com/demo/servlets/SubscriptionServlet.java:37 | year 0 renders as 0001 and a five-digit year carries a '+' |
| `Entities.Subscription.constructor` | src/main/java/com/demo/entities/Subscription.java:13-25 | a new subscription has every reference field null and `dayOfMonth` 0 |
| `Entities.Subscription.GettersReadFields` | src/main/java/com/demo/entities/Subscription.java:27-53 | each getter returns the current value of its own field |
| `Entities.Subscription.SetAmount` | src/main/java/com/demo/entities/Subscription.java:55-57 | sets the amount and changes no other field |
| `Entities.Subscription.SetType` | src/main/java/com/demo/entities/Subscription.java:59-61 | sets the type and changes no other field |
| `Entities.Subscription.SetDayOfWeek` | src/main/java/com/demo/entities/Subscription.java:63-65 | sets the weekday and changes no other field |
| `Entities.Subscription.SetDayOfMonth` | src/main/java/com/demo/entities/Subscription.java:67-69 | sets the day of month (always an int, never absent) and changes no other field |
| `Entities.Subscription.SetStartDate` | src/main/java/com/demo/entities/Subscription.java:71-73 | sets the start date and changes no other field |
| `Entities.Subscription.SetEndDate` | src/main/java/com/demo/entities/Subscription.java:75-77 | sets the end date and changes no other field |
| `Entities.Subscription.SetInvoiceDateList` | src/main/java/com/demo/entities/Subscription.java:79-81 | replaces the list reference and changes no other field |
| `InvoiceSchedule.WeeklyFrom` | src/main/java/com/demo/servlets/SubscriptionServlet.java:123-125 | the weekly loop starts at its first day, steps one week at a time, emits only dates before end, and stops at the first date not before end (empty when the first day is not before end) |
| `InvoiceSchedule.MonthlyFrom` | src/main/java/com/demo/servlets/SubscriptionServlet.java:133-135 | the monthly loop starts at its anchor, each entry is the previous one plus one month, every entry is before end, and it stops at the first date not before end (empty when the anchor is not before end) |
| `InvoiceSchedule.MonthlyAnchor` | src/main/java/com/demo/servlets/SubscriptionServlet.java:129-132 | throws `DateTimeException` when today's month lacks `dayOfMonth` (line 129), even if the correction would apply; throws `NullPointerException` when start is null; when `dayOfMonth` is smaller than start's day, throws `DateTimeException` when the month after start's lacks it (line 131). It succeeds exactly when none of these happens, with day `dayOfMonth` in today's month, or in the month after start's when `dayOfMonth` is smaller than start's day |
| `InvoiceSchedule.WeeklyFromMembers` | src/main/java/com/demo/servlets/SubscriptionServlet.java:123-125 | the weekly loop emits exactly the dates from its first day to before end that are whole weeks after it |
| `InvoiceSchedule.WeeklySchedule` | src/main/java/com/demo/servlets/SubscriptionServlet.java:121-126 | defined by its body (the weekly loop from `nextOrSame(start)`); characterised by `WeeklyScheduleMembers` and `WeeklyScheduleShape` |
| `InvoiceSchedule.WeeklyScheduleMembers` | src/main/java/com/demo/servlets/SubscriptionServlet.java:121-126 | the weekly list holds exactly the dates d with start ≤ d < end on the chosen weekday |
| `InvoiceSchedule.WeeklyScheduleShape` | src/main/java/com/demo/servlets/SubscriptionServlet.java:121-126 | the weekly list strictly ascends in steps of exactly seven days, starts at most six days after start, and never contains end |
| `InvoiceSchedule.MonthlyFromMonths` | src/main/java/com/demo/servlets/SubscriptionServlet.java:133-135 | the i-th monthly entry lies i months after the anchor's month, so entries strictly increase |
| `InvoiceSchedule.MonthlyFromDays` | src/main/java/com/demo/servlets/SubscriptionServlet.java:133-135 | each monthly entry keeps the anchor's day, clamped to the shortest month met so far; the day never grows back, so a day clamped to a month's end stays clamped |
| `InvoiceSchedule.ScheduleDates` | src/main/java/com/demo/servlets/SubscriptionServlet.java:118-139 | defined by its body (the weekly part, then the monthly part); characterised by `NoAnchorNoDates`, `WeeklyBeforeMonthly` and `GeneratedList` |
| `InvoiceSchedule.Generated` | src/main/java/com/demo/servlets/SubscriptionServlet.java:118-139 | fails exactly when the schedule throws; otherwise the new list is the rendering of the scheduled dates and every other field is unchanged |
| `InvoiceSchedule.GeneratedList` | src/main/java/com/demo/servlets/SubscriptionServlet.java:118-139 | the weekly part's exception comes first, then the monthly part's; otherwise the list holds the weekly renderings followed by the monthly ones |
| `InvoiceSchedule.WeeklyRenderingStep` | src/main/java/com/demo/servlets/SubscriptionServlet.java:123-124 | while the day is before end, the weekly loop adds the day's rendering and goes on from one week later |
| `InvoiceSchedule.MonthlyRenderingStep` | src/main/java/com/demo/servlets/SubscriptionServlet.java:133-134 | while the day is before end, the monthly loop adds the day's rendering and goes on from one month later |
| `InvoiceSchedule.WeeklyPart` | src/main/java/com/demo/servlets/SubscriptionServlet.java:121-126 | throws `NullPointerException` exactly when a weekday is set and start or end is null; without a weekday it adds no dates |
| `InvoiceSchedule.MonthlyPart` | src/main/java/com/demo/servlets/SubscriptionServlet.java:128-136 | throws exactly under MONTHLY when the anchor throws (its own exception) or end is null (`NullPointerException`, line 133); outside MONTHLY it adds no dates |
| `InvoiceSchedule.NoAnchorNoDates` | src/main/java/com/demo/servlets/SubscriptionServlet.java:118-139 | without a weekday and with a type other than MONTHLY (DAILY or unset) the generator emits nothing and cannot throw |
| `InvoiceSchedule.WeeklyBeforeMonthly` | src/main/java/com/demo/servlets/SubscriptionServlet.java:121-136 | when both anchors are set, the weekly dates come before the monthly ones in one list |
| `InvoiceSchedule.GeneratedIdempotent` | src/main/java/com/demo/servlets/SubscriptionServlet.java:118-139 | running the generator again on its own result, with the same today, gives the same list |
| `InvoiceSchedule.ListEntriesParse` | src/main/java/com/demo/servlets/SubscriptionServlet.java:134 | every list entry parses back, with the same pattern, to the date it renders |
| `InvoiceSchedule.WeeklyExample` | src/main/java/com/demo/servlets/SubscriptionServlet.java:121-126 | Mondays from Monday 4 January 2021 to 25 January 2021 give 4, 11 and 18 January; the end is excluded |
| `InvoiceSchedule.MonthlyExample` | src/main/java/com/demo/servlets/SubscriptionServlet.java:129-135 | the 5th from 20 March 2021, handled in March, moves to 5 April, then 5 May and 5 June, before the end of 20 June |
| `InvoiceSchedule.MonthlyAnchorBeforeStart` | src/main/java/com/demo/servlets/SubscriptionServlet.java:129-132 | the anchor follows today's month, so the first invoice can precede start |
| `InvoiceSchedule.MonthlyAnchorThrowsBeforeCorrection` | src/main/java/com/demo/servlets/SubscriptionServlet.java:129-131 | line 129 throws for a day today's month lacks, although the corrected anchor exists |
| `InvoiceSchedule.MonthlyClampExample` | src/main/java/com/demo/servlets/SubscriptionServlet.java:133-135 | stepping from 31 January gives 28 February and then 28 March |
| `SubscriptionServlet.ResolveAmount` | src/main/java/com/demo/servlets/SubscriptionServlet.java:68-71 | throws `NumberFormatException` exactly when the amount is given (not blank) and malformed; otherwise the amount is set exactly when given, to its parse |
| `SubscriptionServlet.ResolveType` | src/main/java/com/demo/servlets/SubscriptionServlet.java:73-79 | a type is set only from a non-blank name equal to it ignoring case; a given name that matches no type leaves it unset |
| `SubscriptionServlet.ResolveDates` | src/main/java/com/demo/servlets/SubscriptionServlet.java:81-94 | throws `DateTimeParseException` exactly when both dates are given and one is malformed; otherwise both are set, exactly when both are given: start is the parsed start date and end is the parsed end date clamped against it, so start ≤ end ≤ start plus three months |
| `SubscriptionServlet.ResolveAnchor` | src/main/java/com/demo/servlets/SubscriptionServlet.java:96-106 | throws `NumberFormatException` exactly under MONTHLY when the day of month is not a 32-bit integer; a weekday is set only under WEEKLY, only from a non-blank parameter equal to its name ignoring case, and under WEEKLY a non-blank parameter gives exactly the weekday it names (none for an unknown name); the day of month is the parsed value under MONTHLY and 0 otherwise |
| `SubscriptionServlet.ResolveFields` | src/main/java/com/demo/servlets/SubscriptionServlet.java:65-106 | throws exactly when the amount, the dates or the anchor throw; otherwise the type is the resolved one and there is no list yet |
| `SubscriptionServlet.Resolve` | src/main/java/com/demo/servlets/SubscriptionServlet.java:65-111 | an exception of the field resolution propagates unchanged; a result has the resolved fields and a list |
| `SubscriptionServlet.Respond` | src/main/java/com/demo/servlets/SubscriptionServlet.java:49-57 | fails exactly when resolution throws; sends the subscription only when it has its key fields, and otherwise the fixed abnormal body |
| `SubscriptionServlet.EqualsIgnoreCaseEquivalence` | src/main/java/com/demo/servlets/SubscriptionServlet.java:76-77 | comparing names ignoring case is reflexive, symmetric and transitive |
| `SubscriptionServlet.TypeNamed` | src/main/java/com/demo/servlets/SubscriptionServlet.java:76-77 | finds a type exactly when the text equals that type's name ignoring case, and none otherwise |
| `SubscriptionServlet.DayNamed` | src/main/java/com/demo/servlets/SubscriptionServlet.java:100-101 | finds a weekday exactly when the text equals that weekday's name ignoring case, and none otherwise |
| `SubscriptionServlet.ClampEnd` | src/main/java/com/demo/servlets/SubscriptionServlet.java:90-93 | the result is either the end itself or start plus three months, and lies between start and start plus three months |
| `SubscriptionServlet.ClampEndKeepsIff` | src/main/java/com/demo/servlets/SubscriptionServlet.java:90-93 | the clamp leaves the end alone exactly when the end lies between start and start plus three months |
| `SubscriptionServlet.ClampEndClosedForm` | src/main/java/com/demo/servlets/SubscriptionServlet.java:90-93 | an end between start and start plus three months is kept; any other end becomes start plus three months |
| `SubscriptionServlet.ClampEndIdempotent` | src/main/java/com/demo/servlets/SubscriptionServlet.java:90-93 | clamping a clamped range changes nothing |
| `SubscriptionServlet.ClampLongRange` | src/main/java/com/demo/servlets/SubscriptionServlet.java:82-94 | 01/01/2021 to 01/01/2022 resolves to 1 January to 1 April 2021 |
| `SubscriptionServlet.ClampReversedRange` | src/main/java/com/demo/servlets/SubscriptionServlet.java:82-94 | 01/06/2021 to 01/01/2021 resolves to 1 June to 1 September 2021 |
| `SubscriptionServlet.ResolvedRange` | src/main/java/com/demo/servlets/SubscriptionServlet.java:82-94 | start and end are set together, exactly when both parameters are not blank; start is the parsed start date, end is the parsed end date clamped against it, and start ≤ end ≤ start plus three months |
| `SubscriptionServlet.ReadDateRange` | src/main/java/com/demo/servlets/SubscriptionServlet.java:82-94 | throws exactly when a given date is malformed; otherwise sets both dates, with the end clamped, when both are given, and changes nothing when either is blank |
| `SubscriptionServlet.TypeNamedIgnoresCase` | src/main/java/com/demo/servlets/SubscriptionServlet.java:74-79 | every type is found by its own name, and names differing only in case find the same type |
| `SubscriptionServlet.DayNamedIgnoresCase` | src/main/java/com/demo/servlets/SubscriptionServlet.java:97-102 | every weekday is found by its own name, and names differing only in case find the same weekday |
| `SubscriptionServlet.UnknownTypeIgnored` | src/main/java/com/demo/servlets/SubscriptionServlet.java:74-79 | a blank or unrecognised type name resolves exactly as if it were absent, without error |
| `SubscriptionServlet.DayOfWeekIgnored` | src/main/java/com/demo/servlets/SubscriptionServlet.java:97-102 | the weekday is read only under WEEKLY; a blank or unrecognised weekday resolves exactly as if absent |
| `SubscriptionServlet.DayOfMonthIgnored` | src/main/java/com/demo/servlets/SubscriptionServlet.java:103-106 | outside MONTHLY the day-of-month parameter is never read and the field stays 0 |
| `SubscriptionServlet.BlankDayOfMonthFatal` | src/main/java/com/demo/servlets/SubscriptionServlet.java:103-106 | under MONTHLY a missing or blank day of month is fatal |
| `SubscriptionServlet.ResolveFieldsFatalIff` | src/main/java/com/demo/servlets/SubscriptionServlet.java:65-106 | resolution throws exactly when one of these holds: a given amount is malformed; both dates are given and one is malformed; the type is MONTHLY and the day of month is not a 32-bit integer |
| `SubscriptionServlet.ResolvedAnchors` | src/main/java/com/demo/servlets/SubscriptionServlet.java:97-106 | a weekday is set only under WEEKLY, the day of month is 0 outside MONTHLY, and no list exists before generation |
| `SubscriptionServlet.ResolvedKeyFieldsIff` | src/main/java/com/demo/servlets/SubscriptionServlet.java:147-158 | a resolved subscription has its key fields exactly when amount, a recognised type and both dates were given |
| `SubscriptionServlet.ReadAnchor` | src/main/java/com/demo/servlets/SubscriptionServlet.java:96-106 | throws exactly when `ResolveAnchor` does, changing nothing; otherwise sets the weekday or the day of month that `ResolveAnchor` resolves, and leaves a field whose setter does not run as it was |
| `SubscriptionServlet.WeeklyBranch` | src/main/java/com/demo/servlets/SubscriptionServlet.java:121-126 | appends the rendered weekly schedule when a weekday is set, appends nothing otherwise, and throws for a missing start or end |
| `SubscriptionServlet.MonthlyBranch` | src/main/java/com/demo/servlets/SubscriptionServlet.java:128-136 | under MONTHLY appends the rendered monthly loop from the anchor, or throws the anchor's exception; otherwise appends nothing |
| `SubscriptionServlet.AddWeeklyDates` | src/main/java/com/demo/servlets/SubscriptionServlet.java:123-125 | the loop appends exactly the rendering of the weekly dates from the first day to before end |
| `SubscriptionServlet.AddMonthlyDates` | src/main/java/com/demo/servlets/SubscriptionServlet.java:133-135 | the loop appends exactly the rendering of the monthly dates from the anchor to before end |
| `SubscriptionServlet.GenerateInvoiceDateList` | src/main/java/com/demo/servlets/SubscriptionServlet.java:118-139 | stores a new list holding the weekly and then the monthly dates and changes no other field, or throws and leaves the subscription as it was |
| `SubscriptionServlet.ResolvedList` | src/main/java/com/demo/servlets/SubscriptionServlet.java:108 | a resolved subscription always carries a list; with a weekday it is the weekly schedule, and for DAILY or no type it is empty |
| `SubscriptionServlet.ResolvedMonthlyList` | src/main/java/com/demo/servlets/SubscriptionServlet.java:128-136 | a MONTHLY request gets the monthly loop from its anchor, or the anchor's exception |
| `SubscriptionServlet.ProcessRequestParameters` | src/main/java/com/demo/servlets/SubscriptionServlet.java:65-111 | returns a new subscription whose fields are the resolved fields with the generated list, or the exception resolution throws |
| `SubscriptionServlet.IsValid` | src/main/java/com/demo/servlets/SubscriptionServlet.java:147-158 | defined by its body; characterised by `IsValidIff` |
| `SubscriptionServlet.IsValidIff` | src/main/java/com/demo/servlets/SubscriptionServlet.java:147-158 | valid exactly when the subscription exists and its amount, type, start and end are set; null is invalid |
| `SubscriptionServlet.KeyFieldsIgnoreAnchors` | src/main/java/com/demo/servlets/SubscriptionServlet.java:147-158 | validity does not depend on the weekday, the day of month or the list |
| `SubscriptionServlet.DoGet` | src/main/java/com/demo/servlets/SubscriptionServlet.java:49-57 | the response is the subscription when it is valid and the fixed abnormal body otherwise, or the exception resolution throws |
| `SubscriptionServlet.RespondIff` | src/main/java/com/demo/servlets/SubscriptionServlet.java:52-56 | the subscription is sent exactly when it has its key fields, and the abnormal body exactly when it does not |
| `SubscriptionServlet.MissingAmountAbnormal` | src/main/java/com/demo/servlets/SubscriptionServlet.java:52-56 | a request without an amount gets the abnormal body, however complete the rest is |

## Left out

- The servlet plumbing is left out: `HttpServletRequest`, `HttpServletResponse` and
  `performJsonResponse` with its writer, content type and encoding. `DoGet` returns the
  response it would write.
- JSON serialisation by Jackson is left out. This covers `convertToJsonString`, the NON_NULL
  inclusion, the `@JsonIgnore` annotations and the swallowed `JsonProcessingException`. A
  `SubscriptionJson` response carries the subscription's field values, not their JSON text.
- The system clock is not modelled: `LocalDate.now()` is the parameter `today`.
- Uncaught exceptions end in `Failure`. What the servlet container then sends is not modelled.
- `BigDecimal` arithmetic and rounding are not modelled, because the logic never computes with
  the amount. Only the constructor's grammar is modelled. Its `NumberFormatException` for an
  exponent outside the int range is not modelled.
- Years are unbounded in the calendar model. Java's `DateTimeException` when `plusMonths` or
  `plusWeeks` leaves the years ±999999999 is not modelled. Parsed dates lie in years
  1..999999999, so this can only arise within three months of the largest year.
- Only ASCII is modelled for digits and case. `Integer.parseInt` and `BigDecimal` also accept
  other Unicode decimal digits. The locale of `toUpperCase` and Unicode case folding in
  `equalsIgnoreCase` are also not modelled.
- Of the formatter's parsing, the pattern `dd/MM/yyyy` under the SMART resolver is modelled.
  Other resolver styles and the formatter's handling of years with more than nine digits are
  not.
- `Text.IsJavaWhitespace` follows `Character.isWhitespace` as of Java 9 (Unicode 8 and later). On
  Java 8 (Unicode 6.2), U+180E MONGOLIAN VOWEL SEPARATOR is also whitespace; that is not modelled.
- Concurrency: every request has its own subscription, so none is modelled.
