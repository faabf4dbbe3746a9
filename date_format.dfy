/**
  DateTimeFormatter.ofPattern("dd/MM/yyyy"): the rendering of the invoice dates and the parser of
  the startDate and endDate parameters.

  The pattern letters mean: "dd" the day of the month in exactly two digits, "MM" the month in
  exactly two digits, "yyyy" the year of the era in at least four digits, where a value of more
  than four digits carries a leading '+' (sign style EXCEEDS_PAD). The era itself is not part of
  the pattern, so a year before year 1 renders as its year of era, 1 - year.

  LocalDate.parse uses the formatter's default resolver style SMART: a day of 29, 30 or 31 that
  the month does not have is moved back to the month's last day, while any day outside 1..31,
  any month outside 1..12 and a year of era of 0 are rejected.
*/
module DateFormat {
  import opened Outcomes
  import opened Calendar
  import opened Text

  /** The largest year a LocalDate can hold (Year.MAX_VALUE). */
  const MAX_YEAR: int := 999_999_999

  // ---------------------------------------------------------------------------------------
  // Formatting

  /** The value of the field "yyyy" prints: the year counted within its era. */
  function YearOfEra(year: int): (yoe: nat)
    ensures yoe >= 1
    ensures year >= 1 ==> yoe == year
  {
    if year >= 1 then year else 1 - year
  }

  /** The two digits of a value below 100, with a leading zero. */
  function Pad2(n: nat): (s: string)
    requires n < 100
    ensures |s| == 2 && AllDigits(s) && DigitsValue(s) == n
  {
    var s := [DigitChar(n / 10), DigitChar(n % 10)];
    TwoDigits(s);
    s
  }

  /** The four digits of a value below 10000, with leading zeros. */
  function Pad4(n: nat): (s: string)
    requires n < 10000
    ensures |s| == 4 && AllDigits(s) && DigitsValue(s) == n
  {
    var high := Pad2(n / 100);
    var low := Pad2(n % 100);
    DigitsOfConcat2(high, low);
    high + low
  }

  lemma DigitsOfConcat2(high: string, low: string)
    requires |high| == 2 && AllDigits(high) && |low| == 2 && AllDigits(low)
    ensures AllDigits(high + low)
    ensures DigitsValue(high + low) == DigitsValue(high) * 100 + DigitsValue(low)
  {
    TwoDigits(high);
    TwoDigits(low);
    FourDigits(high + low);
  }

  lemma TwoDigits(s: string)
    requires |s| == 2 && AllDigits(s)
    ensures DigitsValue(s) == 10 * DigitValue(s[0]) + DigitValue(s[1])
  {
    var first := s[..1];
    assert first[..0] == [];
    assert DigitsValue(first) == DigitValue(s[0]);
    assert s[..|s| - 1] == first;
  }

  lemma FourDigits(s: string)
    requires |s| == 4 && AllDigits(s)
    ensures DigitsValue(s) ==
      1000 * DigitValue(s[0]) + 100 * DigitValue(s[1]) + 10 * DigitValue(s[2]) + DigitValue(s[3])
    ensures DigitsValue(s) < 10000
  {
    assert s[..3][..2] == s[..2];
    TwoDigits(s[..2]);
  }

  /** The field "yyyy": four digits up to 9999, otherwise '+' and all the digits. */
  function FormatYear(year: int): (s: string)
    ensures |s| >= 4
    ensures YearOfEra(year) < 10000 <==> AllDigits(s)
  {
    var yoe := YearOfEra(year);
    if yoe < 10000 then Pad4(yoe)
    else
      NatToStringLength(yoe, 4);
      assert Pow10(4) == 10000;
      assert !IsDigit(("+" + NatToString(yoe))[0]);
      "+" + NatToString(yoe)
  }

  /** dtFormatter.format(date) */
  function FormatDate(d: Date): (s: string)
    ensures |s| >= 10 && s[2] == '/' && s[5] == '/'
  {
    Pad2(d.day) + "/" + Pad2(d.month) + "/" + FormatYear(d.year)
  }

  // ---------------------------------------------------------------------------------------
  // Parsing

  /** The field "yyyy" when parsing strictly: exactly four digits, or '+' followed by five to
      nineteen digits. */
  function ParseYearOfEra(t: string): Option<nat> {
    if |t| == 4 && AllDigits(t) then Some(DigitsValue(t))
    else if 6 <= |t| <= 20 && t[0] == '+' && AllDigits(t[1..]) then Some(DigitsValue(t[1..]))
    else None
  }

  /** The SMART resolution of a day of month in 1..31 against the month it is in. */
  function ResolveDay(year: int, month: int, day: int): int
    requires 1 <= month <= 12 && 1 <= day <= 31
  {
    if day > 28 then Min(day, MonthLength(year, month)) else day
  }

  /** LocalDate.parse(text, dtFormatter); None stands for the DateTimeParseException. */
  function ParseDate(s: string): (r: Option<Date>)
    ensures r.Some? ==> 1 <= r.value.year <= MAX_YEAR
  {
    if |s| < 6 || s[2] != '/' || s[5] != '/' || !AllDigits(s[..2]) || !AllDigits(s[3..5]) then None
    else
      var day := DigitsValue(s[..2]);
      var month := DigitsValue(s[3..5]);
      match ParseYearOfEra(s[6..])
      case None => None
      case Some(year) =>
        if 1 <= day <= 31 && 1 <= month <= 12 && 1 <= year <= MAX_YEAR then
          Some(LocalDate(year, month, ResolveDay(year, month, day)))
        else None
  }

  // ---------------------------------------------------------------------------------------
  // Properties

  /** Every rendering of a year of era below 10000 has exactly ten characters, the two slashes
      in third and sixth place and a zero-padded digit everywhere else. */
  lemma FormatDateShape(d: Date)
    requires YearOfEra(d.year) < 10000
    ensures var s := FormatDate(d);
      |s| == 10 && s[2] == '/' && s[5] == '/' &&
      AllDigits(s[..2]) && AllDigits(s[3..5]) && AllDigits(s[6..]) &&
      DigitsValue(s[..2]) == d.day && DigitsValue(s[3..5]) == d.month &&
      DigitsValue(s[6..]) == YearOfEra(d.year)
  {
    var s := FormatDate(d);
    assert s[..2] == Pad2(d.day);
    assert s[3..5] == Pad2(d.month);
    assert s[6..] == Pad4(YearOfEra(d.year));
  }

  /** Parsing a rendering with the same pattern recovers the date, for every year a LocalDate
      of the common era can hold. */
  lemma FormatParseRoundTrip(d: Date)
    requires 1 <= d.year <= MAX_YEAR
    ensures ParseDate(FormatDate(d)) == Some(d)
  {
    var s := FormatDate(d);
    var yearText := FormatYear(d.year);
    assert s[..2] == Pad2(d.day);
    assert s[3..5] == Pad2(d.month);
    assert s[6..] == yearText;
    YearTextParses(d.year);
  }

  lemma YearTextParses(year: int)
    requires 1 <= year <= MAX_YEAR
    ensures ParseYearOfEra(FormatYear(year)) == Some(year)
  {
    if year >= 10000 {
      var digits := NatToString(year);
      var text := "+" + digits;
      assert FormatYear(year) == text;
      assert Pow10(4) == 10000;
      assert Pow10(9) == 1_000_000_000;
      NatToStringLength(year, 4);
      NatToStringLength(year, 9);
      NatToStringRoundTrip(year);
      assert 6 <= |text| <= 20 && text[0] == '+';
      assert text[1..] == digits;
    } else {
      assert FormatYear(year) == Pad4(year);
    }
  }

  function Pow10(k: nat): nat {
    if k == 0 then 1 else 10 * Pow10(k - 1)
  }

  /** Integer.toString has more than k digits exactly from 10^k on. */
  lemma {:induction false} NatToStringLength(n: nat, k: nat)
    requires k >= 1
    ensures |NatToString(n)| <= k <==> n < Pow10(k)
    decreases n
  {
    if n >= 10 {
      if k >= 2 {
        NatToStringLength(n / 10, k - 1);
      } else {
        assert |NatToString(n)| >= 2;
      }
    }
    if n < 10 {
      assert Pow10(k) >= 10 by { Pow10AtLeastTen(k); }
    }
  }

  lemma {:induction false} Pow10AtLeastTen(k: nat)
    requires k >= 1
    ensures Pow10(k) >= 10
  {
    if k > 1 {
      Pow10AtLeastTen(k - 1);
    }
  }

  /** Parsing is exactly the inverse of rendering on four-digit years: any text that parses and
      whose day is one the month has renders back to itself. */
  lemma ParseFormatRoundTrip(s: string)
    requires |s| == 10
    requires ParseDate(s).Some? && DigitsValue(s[..2]) <= MonthLength(ParseDate(s).value.year, ParseDate(s).value.month)
    ensures FormatDate(ParseDate(s).value) == s
  {
    var d := ParseDate(s).value;
    assert AllDigits(s[6..]);
    FourDigits(s[6..]);
    FormatDateShape(d);
    var t := FormatDate(d);
    TwoDigitsDetermined(s[..2], t[..2]);
    TwoDigitsDetermined(s[3..5], t[3..5]);
    FourDigitsDetermined(s[6..], t[6..]);
    forall i | 0 <= i < 10 ensures s[i] == t[i] {
      if i < 2 {
        assert s[i] == s[..2][i] && t[i] == t[..2][i];
      } else if 3 <= i < 5 {
        assert s[i] == s[3..5][i - 3] && t[i] == t[3..5][i - 3];
      } else if 6 <= i {
        assert s[i] == s[6..][i - 6] && t[i] == t[6..][i - 6];
      }
    }
  }

  lemma TwoDigitsDetermined(a: string, b: string)
    requires |a| == 2 && |b| == 2 && AllDigits(a) && AllDigits(b)
    requires DigitsValue(a) == DigitsValue(b)
    ensures a == b
  {
    TwoDigits(a);
    TwoDigits(b);
    LowDigit(DigitValue(a[0]), DigitValue(a[1]), DigitValue(b[0]), DigitValue(b[1]));
  }

  lemma FourDigitsDetermined(a: string, b: string)
    requires |a| == 4 && |b| == 4 && AllDigits(a) && AllDigits(b)
    requires DigitsValue(a) == DigitsValue(b)
    ensures a == b
  {
    FourDigits(a);
    FourDigits(b);
    var a0, a1, a2, a3 := DigitValue(a[0]), DigitValue(a[1]), DigitValue(a[2]), DigitValue(a[3]);
    var b0, b1, b2, b3 := DigitValue(b[0]), DigitValue(b[1]), DigitValue(b[2]), DigitValue(b[3]);
    LowDigit(100 * a0 + 10 * a1 + a2, a3, 100 * b0 + 10 * b1 + b2, b3);
    LowDigit(10 * a0 + a1, a2, 10 * b0 + b1, b2);
    LowDigit(a0, a1, b0, b1);
    assert a[0] == b[0] && a[1] == b[1] && a[2] == b[2] && a[3] == b[3];
  }

  /** A number written in decimal determines its last digit and the digits before it. */
  lemma LowDigit(high: int, low: int, high': int, low': int)
    requires 0 <= low < 10 && 0 <= low' < 10
    requires 10 * high + low == 10 * high' + low'
    ensures high == high' && low == low'
  {
  }

  /** What LocalDate.parse makes of a ten-character text with slashes in third and sixth place
      and digits everywhere else. */
  lemma ParseTenCharacters(s: string)
    requires |s| == 10 && s[2] == '/' && s[5] == '/'
    requires AllDigits(s[..2]) && AllDigits(s[3..5]) && AllDigits(s[6..])
    ensures var day := 10 * DigitValue(s[0]) + DigitValue(s[1]);
      var month := 10 * DigitValue(s[3]) + DigitValue(s[4]);
      var year := 1000 * DigitValue(s[6]) + 100 * DigitValue(s[7]) + 10 * DigitValue(s[8]) + DigitValue(s[9]);
      ParseDate(s) ==
        if 1 <= day <= 31 && 1 <= month <= 12 && 1 <= year then
          Some(LocalDate(year, month, ResolveDay(year, month, day)))
        else None
  {
    Fields(s);
  }

  /** SMART resolution: the 31st of a 30-day month is its 30th, the 29th of February in a common
      year is its 28th, and a day the month has stays as written. */
  lemma SmartResolution()
    ensures ParseDate("31/04/2021") == Some(LocalDate(2021, 4, 30))
    ensures ParseDate("29/02/2021") == Some(LocalDate(2021, 2, 28))
    ensures ParseDate("29/02/2020") == Some(LocalDate(2020, 2, 29))
  {
    ParseTenCharacters("31/04/2021");
    ParseTenCharacters("29/02/2021");
    ParseTenCharacters("29/02/2020");
  }

  /** Days and months out of range, year 0 and fields without their leading zeros are rejected. */
  lemma ParseRejects()
    ensures ParseDate("32/01/2021") == None
    ensures ParseDate("00/01/2021") == None
    ensures ParseDate("01/13/2021") == None
    ensures ParseDate("01/01/0000") == None
    ensures ParseDate("1/1/2021") == None
  {
    ParseTenCharacters("32/01/2021");
    ParseTenCharacters("00/01/2021");
    ParseTenCharacters("01/13/2021");
    ParseTenCharacters("01/01/0000");
  }

  /** The digit fields of a ten-character text in the pattern's layout. */
  lemma Fields(s: string)
    requires |s| == 10 && AllDigits(s[..2]) && AllDigits(s[3..5]) && AllDigits(s[6..])
    ensures DigitsValue(s[..2]) == 10 * DigitValue(s[0]) + DigitValue(s[1])
    ensures DigitsValue(s[3..5]) == 10 * DigitValue(s[3]) + DigitValue(s[4])
    ensures DigitsValue(s[6..]) ==
      1000 * DigitValue(s[6]) + 100 * DigitValue(s[7]) + 10 * DigitValue(s[8]) + DigitValue(s[9])
  {
    TwoDigits(s[..2]);
    TwoDigits(s[3..5]);
    FourDigits(s[6..]);
  }

  /** The rendering of years outside 1..9999: the year before year 1 prints as 0001, and a
      five-digit year carries a '+'. */
  lemma YearOfEraRendering()
    ensures FormatDate(LocalDate(0, 3, 5)) == "05/03/0001"
    ensures FormatDate(LocalDate(12345, 3, 5)) == "05/03/+12345"
  {
    NatToStringFive();
  }

  lemma NatToStringFive()
    ensures NatToString(12345) == "12345"
  {
    assert NatToString(1) == "1";
    assert NatToString(12) == "12";
    assert NatToString(123) == "123";
    assert NatToString(1234) == "1234";
  }
}
