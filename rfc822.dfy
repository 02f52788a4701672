/** `Serializable.date`: a calendar date-time rendered in the date-time form of
    section 5 of RFC 822, as RSS 2.0 uses it for `pubDate` and `lastBuildDate`:
    "Www, DD Mon YYYY HH:MM:SS GMT" with a four-digit year and fixed English
    day and month abbreviations. The date-time is taken as already being GMT.

    The calendar is Python's `datetime`: the proleptic Gregorian calendar,
    years 1 to 9999, day 1 of the ordinal count is 0001-01-01 and that day is
    a Monday. */
module Rfc822 {
  import opened Text
  import opened Optional

  /** The fields of a Python `datetime` that the formatter reads. */
  datatype DateTime = DateTime(year: int, month: int, day: int, hour: int, minute: int, second: int)

  predicate IsLeapYear(y: int) {
    y % 4 == 0 && (y % 100 != 0 || y % 400 == 0)
  }

  function DaysInMonth(y: int, m: int): (n: int)
    requires 1 <= m <= 12
    ensures 28 <= n <= 31
    ensures n == 29 <==> m == 2 && IsLeapYear(y)
  {
    if m == 2 then (if IsLeapYear(y) then 29 else 28)
    else if m == 4 || m == 6 || m == 9 || m == 11 then 30
    else 31
  }

  function DaysInYear(y: int): (n: int)
    ensures n == 365 || n == 366
  {
    if IsLeapYear(y) then 366 else 365
  }

  /** The values Python's `datetime` constructor accepts. */
  predicate ValidDateTime(d: DateTime) {
    && 1 <= d.year <= 9999
    && 1 <= d.month <= 12
    && 1 <= d.day <= DaysInMonth(d.year, d.month)
    && 0 <= d.hour < 24
    && 0 <= d.minute < 60
    && 0 <= d.second < 60
  }

  /** A `datetime` value: it cannot exist with out-of-range fields. */
  type Timestamp = d: DateTime | ValidDateTime(d) witness DateTime(1, 1, 1, 0, 0, 0)

  /** Days in the years before `y`, in closed form. */
  function DaysBeforeYear(y: int): int
    requires y >= 1
  {
    var x := y - 1;
    x * 365 + x / 4 - x / 100 + x / 400
  }

  /** Days in the months of year `y` before month `m`. */
  function DaysBeforeMonth(y: int, m: int): int
    requires 1 <= m <= 12
  {
    [0, 31, 59, 90, 120, 151, 181, 212, 243, 273, 304, 334][m - 1]
      + (if m > 2 && IsLeapYear(y) then 1 else 0)
  }

  /** Day number of `d`, counting 0001-01-01 as day 1. */
  function Ordinal(d: Timestamp): int {
    DaysBeforeYear(d.year) + DaysBeforeMonth(d.year, d.month) + d.day
  }

  /** Day of the week, Monday = 0 ... Sunday = 6. */
  function Weekday(d: Timestamp): (w: int)
    ensures 0 <= w < 7
  {
    (Ordinal(d) + 6) % 7
  }

  function WeekdayName(w: int): (s: string)
    requires 0 <= w < 7
    ensures |s| == 3
  {
    if w == 0 then "Mon" else if w == 1 then "Tue" else if w == 2 then "Wed"
    else if w == 3 then "Thu" else if w == 4 then "Fri" else if w == 5 then "Sat"
    else "Sun"
  }

  function MonthName(m: int): (s: string)
    requires 1 <= m <= 12
    ensures |s| == 3
  {
    if m == 1 then "Jan" else if m == 2 then "Feb" else if m == 3 then "Mar"
    else if m == 4 then "Apr" else if m == 5 then "May" else if m == 6 then "Jun"
    else if m == 7 then "Jul" else if m == 8 then "Aug" else if m == 9 then "Sep"
    else if m == 10 then "Oct" else if m == 11 then "Nov" else "Dec"
  }

  /** The month a three-letter abbreviation names, if any. */
  function MonthNumber(name: string): (m: Option<int>)
    ensures m.Some? ==> 1 <= m.value <= 12 && MonthName(m.value) == name
  {
    if name == "Jan" then Some(1) else if name == "Feb" then Some(2)
    else if name == "Mar" then Some(3) else if name == "Apr" then Some(4)
    else if name == "May" then Some(5) else if name == "Jun" then Some(6)
    else if name == "Jul" then Some(7) else if name == "Aug" then Some(8)
    else if name == "Sep" then Some(9) else if name == "Oct" then Some(10)
    else if name == "Nov" then Some(11) else if name == "Dec" then Some(12)
    else None
  }

  /** The twelve abbreviations are distinct, so each is read back as its month. */
  lemma MonthNameRoundTrip(m: int)
    requires 1 <= m <= 12
    ensures MonthNumber(MonthName(m)) == Some(m)
  {
  }

  /** The `date` production of RFC 822, with a four-digit year: "DD Mon YYYY". */
  function DatePart(d: Timestamp): (s: string)
    ensures |s| == 11
  {
    Padded(d.day, 2) + " " + MonthName(d.month) + " " + Padded(d.year, 4)
  }

  /** The `hour` production of RFC 822 with seconds: "HH:MM:SS". */
  function TimePart(d: Timestamp): (s: string)
    ensures |s| == 8
  {
    Padded(d.hour, 2) + ":" + Padded(d.minute, 2) + ":" + Padded(d.second, 2)
  }

  /** The RFC 822 text of a date-time: weekday, date, time and the zone "GMT". */
  function FormatDate(d: Timestamp): (s: string)
    ensures |s| == 29
  {
    WeekdayName(Weekday(d)) + ", " + DatePart(d) + " " + TimePart(d) + " GMT"
  }

  /** `Serializable.date`: an absent date stays absent, a present one is
      formatted, and what is formatted reads back as the same date-time. */
  function Date(d: Option<Timestamp>): (r: Option<string>)
    ensures r.None? <==> d.None?
    ensures r.Some? ==> |r.value| == 29
  {
    match d
    case None => None
    case Some(t) => Some(FormatDate(t))
  }

  /** What `date` writes reads back as the date-time it was given. */
  lemma DateReadsBack(d: Option<Timestamp>)
    requires d.Some?
    ensures Date(d).Some? && ParseDate(Date(d).value) == d
  {
    FormatParseRoundTrip(d.value);
  }

  /** Reads an RFC 822 date-time in exactly the layout FormatDate writes;
      rejects anything else, including a weekday that does not match the date. */
  function ParseDate(s: string): (r: Option<Timestamp>)
  {
    if |s| != 29 || s[3..5] != ", " || s[7] != ' ' || s[11] != ' ' || s[16] != ' '
      || s[19] != ':' || s[22] != ':' || s[25..] != " GMT"
    then None
    else if !(AllDigits(s[5..7]) && AllDigits(s[12..16]) && AllDigits(s[17..19])
              && AllDigits(s[20..22]) && AllDigits(s[23..25]))
    then None
    else match MonthNumber(s[8..11])
      case None => None
      case Some(m) =>
        var d := DateTime(DecimalValue(s[12..16]), m, DecimalValue(s[5..7]),
                          DecimalValue(s[17..19]), DecimalValue(s[20..22]), DecimalValue(s[23..25]));
        if ValidDateTime(d) && s[..3] == WeekdayName(Weekday(d)) then Some(d) else None
  }

  /** Where each part of the date sits in DatePart's text. */
  lemma DatePartLayout(d: Timestamp)
    ensures DatePart(d)[..2] == Padded(d.day, 2) && DatePart(d)[2] == ' '
    ensures DatePart(d)[3..6] == MonthName(d.month) && DatePart(d)[6] == ' '
    ensures DatePart(d)[7..] == Padded(d.year, 4)
  {
  }

  /** Where each part of the time sits in TimePart's text. */
  lemma TimePartLayout(d: Timestamp)
    ensures TimePart(d)[..2] == Padded(d.hour, 2) && TimePart(d)[2] == ':'
    ensures TimePart(d)[3..5] == Padded(d.minute, 2) && TimePart(d)[5] == ':'
    ensures TimePart(d)[6..] == Padded(d.second, 2)
  {
  }

  /** Where the weekday, the date, the time and the zone sit in FormatDate's text. */
  lemma FormatLayout(d: Timestamp)
    ensures FormatDate(d)[..3] == WeekdayName(Weekday(d)) && FormatDate(d)[3..5] == ", "
    ensures FormatDate(d)[5..16] == DatePart(d) && FormatDate(d)[16] == ' '
    ensures FormatDate(d)[17..25] == TimePart(d) && FormatDate(d)[25..] == " GMT"
  {
    var s := FormatDate(d);
    assert s == WeekdayName(Weekday(d)) + ", " + DatePart(d) + " " + TimePart(d) + " GMT";
  }

  /** Where each number and separator of the date sits in FormatDate's text. */
  lemma FormattedDateFields(d: Timestamp)
    ensures FormatDate(d)[5..7] == Padded(d.day, 2) && FormatDate(d)[7] == ' '
    ensures FormatDate(d)[8..11] == MonthName(d.month) && FormatDate(d)[11] == ' '
    ensures FormatDate(d)[12..16] == Padded(d.year, 4)
  {
    var s, p := FormatDate(d), DatePart(d);
    FormatLayout(d);
    DatePartLayout(d);
    SubSlice(s, 5, 16, 0, 2);
    SubSlice(s, 5, 16, 3, 6);
    SubSlice(s, 5, 16, 7, 11);
    assert s[7] == p[2] && s[11] == p[6];
  }

  /** Where each number and separator of the time sits in FormatDate's text. */
  lemma FormattedTimeFields(d: Timestamp)
    ensures FormatDate(d)[17..19] == Padded(d.hour, 2) && FormatDate(d)[19] == ':'
    ensures FormatDate(d)[20..22] == Padded(d.minute, 2) && FormatDate(d)[22] == ':'
    ensures FormatDate(d)[23..25] == Padded(d.second, 2)
  {
    var s, p := FormatDate(d), TimePart(d);
    FormatLayout(d);
    TimePartLayout(d);
    SubSlice(s, 17, 25, 0, 2);
    SubSlice(s, 17, 25, 3, 5);
    SubSlice(s, 17, 25, 6, 8);
    assert s[19] == p[2] && s[22] == p[5];
  }

  /** Formatting then parsing gives the date-time back: nothing is lost. */
  lemma FormatParseRoundTrip(d: Timestamp)
    ensures ParseDate(FormatDate(d)) == Some(d)
  {
    FormatLayout(d);
    FormattedDateFields(d);
    FormattedTimeFields(d);
    PaddedRoundTrip(d.day, 2);
    PaddedRoundTrip(d.year, 4);
    PaddedRoundTrip(d.hour, 2);
    PaddedRoundTrip(d.minute, 2);
    PaddedRoundTrip(d.second, 2);
    MonthNameRoundTrip(d.month);
  }

  /** A text laid out as DatePart lays out `d`'s date is DatePart's text. */
  lemma DatePartOfText(d: Timestamp, t: string)
    requires |t| == 11 && t[..2] == Padded(d.day, 2) && t[2] == ' '
    requires t[3..6] == MonthName(d.month) && t[6] == ' ' && t[7..] == Padded(d.year, 4)
    ensures DatePart(d) == t
  {
    DatePartLayout(d);
    var p := DatePart(d);
    forall i | 0 <= i < 11
      ensures p[i] == t[i]
    {
      if i < 2 {
        assert p[i] == p[..2][i] && t[i] == t[..2][i];
      } else if 3 <= i < 6 {
        assert p[i] == p[3..6][i - 3] && t[i] == t[3..6][i - 3];
      } else if 7 <= i {
        assert p[i] == p[7..][i - 7] && t[i] == t[7..][i - 7];
      }
    }
  }

  /** A text laid out as TimePart lays out `d`'s time is TimePart's text. */
  lemma TimePartOfText(d: Timestamp, t: string)
    requires |t| == 8 && t[..2] == Padded(d.hour, 2) && t[2] == ':'
    requires t[3..5] == Padded(d.minute, 2) && t[5] == ':' && t[6..] == Padded(d.second, 2)
    ensures TimePart(d) == t
  {
    TimePartLayout(d);
    var p := TimePart(d);
    forall i | 0 <= i < 8
      ensures p[i] == t[i]
    {
      if i < 2 {
        assert p[i] == p[..2][i] && t[i] == t[..2][i];
      } else if 3 <= i < 5 {
        assert p[i] == p[3..5][i - 3] && t[i] == t[3..5][i - 3];
      } else if 6 <= i {
        assert p[i] == p[6..][i - 6] && t[i] == t[6..][i - 6];
      }
    }
  }

  /** A text laid out as FormatDate lays out `d` is FormatDate's text. */
  lemma FormatOfText(d: Timestamp, s: string)
    requires |s| == 29 && s[..3] == WeekdayName(Weekday(d)) && s[3..5] == ", "
    requires s[5..16] == DatePart(d) && s[16] == ' ' && s[17..25] == TimePart(d) && s[25..] == " GMT"
    ensures FormatDate(d) == s
  {
    FormatLayout(d);
    var p := FormatDate(d);
    assert p == p[..3] + p[3..5] + p[5..16] + [p[16]] + p[17..25] + p[25..];
    assert s == s[..3] + s[3..5] + s[5..16] + [s[16]] + s[17..25] + s[25..];
  }

  /** The digits and the month abbreviation ParseDate reads from positions
      5 to 15 are DatePart's text for what it read. */
  lemma ParsedDatePart(s: string, d: Timestamp)
    requires |s| == 29 && s[7] == ' ' && s[11] == ' ' && AllDigits(s[5..7]) && AllDigits(s[12..16])
    requires d.day == DecimalValue(s[5..7]) && MonthName(d.month) == s[8..11] && d.year == DecimalValue(s[12..16])
    ensures DatePart(d) == s[5..16]
  {
    PaddedOfValue(s[5..7]);
    PaddedOfValue(s[12..16]);
    var date := s[5..16];
    SubSlice(s, 5, 16, 0, 2);
    SubSlice(s, 5, 16, 3, 6);
    SubSlice(s, 5, 16, 7, 11);
    DatePartOfText(d, date);
  }

  /** The digits ParseDate reads from positions 17 to 24 are TimePart's text
      for what it read. */
  lemma ParsedTimePart(s: string, d: Timestamp)
    requires |s| == 29 && s[19] == ':' && s[22] == ':'
    requires AllDigits(s[17..19]) && AllDigits(s[20..22]) && AllDigits(s[23..25])
    requires d.hour == DecimalValue(s[17..19]) && d.minute == DecimalValue(s[20..22]) && d.second == DecimalValue(s[23..25])
    ensures TimePart(d) == s[17..25]
  {
    PaddedOfValue(s[17..19]);
    PaddedOfValue(s[20..22]);
    PaddedOfValue(s[23..25]);
    var time := s[17..25];
    SubSlice(s, 17, 25, 0, 2);
    SubSlice(s, 17, 25, 3, 5);
    SubSlice(s, 17, 25, 6, 8);
    TimePartOfText(d, time);
  }

  /** Whatever ParseDate accepts is exactly the text FormatDate writes for the
      date-time it returns: FormatDate is onto the strings ParseDate accepts. */
  lemma ParseFormatRoundTrip(s: string)
    requires ParseDate(s).Some?
    ensures FormatDate(ParseDate(s).value) == s
  {
    var d := ParseDate(s).value;
    ParsedDatePart(s, d);
    ParsedTimePart(s, d);
    FormatOfText(d, s);
  }

  /** FormatDate never maps two date-times to the same text. */
  lemma FormatDateInjective(d1: Timestamp, d2: Timestamp)
    requires FormatDate(d1) == FormatDate(d2)
    ensures d1 == d2
  {
    FormatParseRoundTrip(d1);
    FormatParseRoundTrip(d2);
  }

  // ---- The weekday against an independent definition -----------------------

  /** Days in the years 1 .. y-1, summed year by year. */
  function YearsTotal(y: int): int
    requires y >= 1
    decreases y
  {
    if y == 1 then 0 else YearsTotal(y - 1) + DaysInYear(y - 1)
  }

  /** Days in the months 1 .. m-1 of year `y`, summed month by month. */
  function MonthsTotal(y: int, m: int): int
    requires 1 <= m <= 13
    decreases m
  {
    if m == 1 then 0 else MonthsTotal(y, m - 1) + DaysInMonth(y, m - 1)
  }

  /** Between `y - 1` and `y`, a multiple of 4, 100 or 400 is passed exactly
      when `y` is one. */
  lemma MultiplesStep(y: int)
    ensures y / 4 - (y - 1) / 4 == (if y % 4 == 0 then 1 else 0)
    ensures y / 100 - (y - 1) / 100 == (if y % 100 == 0 then 1 else 0)
    ensures y / 400 - (y - 1) / 400 == (if y % 400 == 0 then 1 else 0)
  {
  }

  /** A multiple of 400 is a multiple of 100, and a multiple of 100 is a
      multiple of 4. */
  lemma MultiplesNest(y: int)
    ensures y % 400 == 0 ==> y % 100 == 0
    ensures y % 100 == 0 ==> y % 4 == 0
  {
  }

  /** The closed form advances by one year's length from one year to the next. */
  lemma DaysBeforeYearStep(y: int)
    requires y >= 1
    ensures DaysBeforeYear(y + 1) == DaysBeforeYear(y) + DaysInYear(y)
  {
    var x := y - 1;
    MultiplesStep(y);
    MultiplesNest(y);
    assert y * 365 == x * 365 + 365;
    assert DaysBeforeYear(y + 1) - DaysBeforeYear(y)
        == 365 + (y / 4 - x / 4) - (y / 100 - x / 100) + (y / 400 - x / 400);
  }

  /** The closed form counts the days of all earlier years. */
  lemma {:induction false} DaysBeforeYearIsTotal(y: int)
    requires y >= 1
    ensures DaysBeforeYear(y) == YearsTotal(y)
    decreases y
  {
    if y > 1 {
      DaysBeforeYearIsTotal(y - 1);
      DaysBeforeYearStep(y - 1);
    }
  }

  /** Consecutive entries of the month table differ by the earlier month's
      length, and the table's last entry plus December is the year's length. */
  lemma DaysBeforeMonthStep(y: int, m: int)
    requires 1 <= m <= 12
    ensures m < 12 ==> DaysBeforeMonth(y, m + 1) == DaysBeforeMonth(y, m) + DaysInMonth(y, m)
    ensures m == 12 ==> DaysBeforeMonth(y, m) + DaysInMonth(y, m) == DaysInYear(y)
  {
  }

  /** The month table counts the days of all earlier months of the year. */
  lemma {:induction false} DaysBeforeMonthIsTotal(y: int, m: int)
    requires 1 <= m <= 12
    ensures DaysBeforeMonth(y, m) == MonthsTotal(y, m)
    decreases m
  {
    if m > 1 {
      DaysBeforeMonthIsTotal(y, m - 1);
      DaysBeforeMonthStep(y, m - 1);
    }
  }

  /** Counting modulo 7: a whole week changes nothing, one day advances by one. */
  lemma WeekArithmetic(x: int)
    ensures (x + 7) % 7 == x % 7
    ensures (x + 1) % 7 == (x % 7 + 1) % 7
  {
  }

  /** 0001-01-01, day 1 of the ordinal count, is a Monday. */
  lemma FirstDayIsMonday(d: Timestamp)
    requires d.year == 1 && d.month == 1 && d.day == 1
    ensures Ordinal(d) == 1 && Weekday(d) == 0
  {
  }

  /** The weekday is the number of days elapsed since 0001-01-01, counted
      month by month and year by year, taken modulo 7 from a Monday. */
  lemma WeekdayCountsFromFirstMonday(d: Timestamp)
    ensures Weekday(d) == (YearsTotal(d.year) + MonthsTotal(d.year, d.month) + d.day - 1) % 7
  {
    DaysBeforeYearIsTotal(d.year);
    DaysBeforeMonthIsTotal(d.year, d.month);
    var elapsed := YearsTotal(d.year) + MonthsTotal(d.year, d.month) + d.day - 1;
    var o := Ordinal(d);
    assert o == DaysBeforeYear(d.year) + DaysBeforeMonth(d.year, d.month) + d.day;
    WeekArithmetic(elapsed);
    assert o + 6 == elapsed + 7;
  }

  /** The calendar day after `d`, time of day unchanged (none after 9999-12-31). */
  function NextDay(d: Timestamp): (e: Timestamp)
    requires !(d.year == 9999 && d.month == 12 && d.day == 31)
  {
    if d.day < DaysInMonth(d.year, d.month) then d.(day := d.day + 1)
    else if d.month < 12 then d.(month := d.month + 1, day := 1)
    else d.(year := d.year + 1, month := 1, day := 1)
  }

  /** Consecutive days carry consecutive weekday names. */
  lemma NextDayNextWeekday(d: Timestamp)
    requires !(d.year == 9999 && d.month == 12 && d.day == 31)
    ensures Ordinal(NextDay(d)) == Ordinal(d) + 1
    ensures Weekday(NextDay(d)) == (Weekday(d) + 1) % 7
  {
    var e := NextDay(d);
    if d.day < DaysInMonth(d.year, d.month) {
      assert e == d.(day := d.day + 1);
    } else if d.month < 12 {
      assert e == d.(month := d.month + 1, day := 1);
      DaysBeforeMonthStep(d.year, d.month);
    } else {
      assert e == d.(year := d.year + 1, month := 1, day := 1);
      DaysBeforeMonthStep(d.year, 12);
      DaysBeforeYearStep(d.year);
    }
    WeekArithmetic(Ordinal(d) + 6);
  }

  /** A two-digit field is the tens digit followed by the units digit. */
  lemma PaddedTwoDigits(n: nat)
    requires n < 100
    ensures Padded(n, 2) == [DigitChar(n / 10), DigitChar(n % 10)]
  {
    assert Padded(n / 10, 1) == [DigitChar(n / 10)];
  }

  /** The formatted text from its three parts. */
  lemma FormatDateParts(d: Timestamp, weekday: string, date: string, time: string)
    requires WeekdayName(Weekday(d)) == weekday && DatePart(d) == date && TimePart(d) == time
    ensures FormatDate(d) == weekday + ", " + date + " " + time + " GMT"
  {
  }

  lemma Year2014()
    ensures Padded(2014, 4) == "2014"
  {
    assert Padded(20, 2) == "20" by { PaddedTwoDigits(20); }
    assert Padded(201, 3) == "201";
  }

  lemma NovemberThirteenth()
    ensures WeekdayName(Weekday(DateTime(2014, 11, 13, 8, 0, 0))) == "Thu"
    ensures DatePart(DateTime(2014, 11, 13, 8, 0, 0)) == "13 Nov 2014"
  {
    assert DaysBeforeYear(2014) == 735233 && DaysBeforeMonth(2014, 11) == 304;
    Year2014();
    PaddedTwoDigits(13);
  }

  lemma EightOClock()
    ensures TimePart(DateTime(2014, 11, 13, 8, 0, 0)) == "08:00:00"
  {
    PaddedTwoDigits(8);
    PaddedTwoDigits(0);
  }

  /** tests.py: 2014-11-13 08:00:00 is a Thursday. */
  lemma FirstDateExample()
    ensures FormatDate(DateTime(2014, 11, 13, 8, 0, 0)) == "Thu, 13 Nov 2014 08:00:00 GMT"
  {
    assert "Thu, 13 Nov 2014 08:00:00 GMT" == "Thu" + ", " + "13 Nov 2014" + " " + "08:00:00" + " GMT";
    NovemberThirteenth();
    EightOClock();
    FormatDateParts(DateTime(2014, 11, 13, 8, 0, 0), "Thu", "13 Nov 2014", "08:00:00");
  }

  lemma DecemberFirst()
    ensures WeekdayName(Weekday(DateTime(2014, 12, 1, 10, 22, 15))) == "Mon"
    ensures DatePart(DateTime(2014, 12, 1, 10, 22, 15)) == "01 Dec 2014"
  {
    assert DaysBeforeYear(2014) == 735233 && DaysBeforeMonth(2014, 12) == 334;
    Year2014();
    PaddedTwoDigits(1);
  }

  lemma TwentyTwoPastTen()
    ensures TimePart(DateTime(2014, 12, 1, 10, 22, 15)) == "10:22:15"
  {
    PaddedTwoDigits(10);
    PaddedTwoDigits(22);
    PaddedTwoDigits(15);
  }

  /** tests.py: 2014-12-01 10:22:15 is a Monday; the day is zero-padded. */
  lemma SecondDateExample()
    ensures FormatDate(DateTime(2014, 12, 1, 10, 22, 15)) == "Mon, 01 Dec 2014 10:22:15 GMT"
  {
    assert "Mon, 01 Dec 2014 10:22:15 GMT" == "Mon" + ", " + "01 Dec 2014" + " " + "10:22:15" + " GMT";
    DecemberFirst();
    TwentyTwoPastTen();
    FormatDateParts(DateTime(2014, 12, 1, 10, 22, 15), "Mon", "01 Dec 2014", "10:22:15");
  }
}
