/**
 * Proleptic Gregorian dates as Python's `datetime.date` has them (years 1 to
 * 9999), day arithmetic (`date + timedelta(days=n)`), and the text forms the
 * service manager reads and writes: `strptime(s, '%Y-%m-%d')` and
 * `strftime('%Y-%m-%d')`.
 */
module Calendar {
  import opened Wrappers
  import opened Text

  datatype Date = Date(year: int, month: int, day: int)

  const MaxYear: int := 9999

  predicate IsLeapYear(y: int)
  {
    y % 4 == 0 && (y % 100 != 0 || y % 400 == 0)
  }

  function DaysInMonth(y: int, m: int): (n: int)
    requires 1 <= m <= 12
    ensures 28 <= n <= 31
  {
    if m == 2 then (if IsLeapYear(y) then 29 else 28)
    else if m == 4 || m == 6 || m == 9 || m == 11 then 30
    else 31
  }

  function DaysInYear(y: int): int
  {
    if IsLeapYear(y) then 366 else 365
  }

  /** A real day of the proleptic Gregorian calendar from year 1 on (no upper bound). */
  predicate IsCalendarDate(d: Date)
  {
    1 <= d.year && 1 <= d.month <= 12 && 1 <= d.day <= DaysInMonth(d.year, d.month)
  }

  /** A value `datetime.date` can hold: a calendar date in years 1 to 9999. */
  predicate IsValidDate(d: Date)
  {
    IsCalendarDate(d) && d.year <= MaxYear
  }

  /** Days in the years before `y`. */
  function DaysBeforeYear(y: int): int
    requires y >= 1
  {
    var p := y - 1;
    365 * p + p / 4 - p / 100 + p / 400
  }

  /** Days in year `y` before the first of month `m` (`m == 13` gives the whole year). */
  function DaysBeforeMonth(y: int, m: int): int
    requires 1 <= m <= 13
  {
    var common :=
      if m == 1 then 0 else if m == 2 then 31 else if m == 3 then 59
      else if m == 4 then 90 else if m == 5 then 120 else if m == 6 then 151
      else if m == 7 then 181 else if m == 8 then 212 else if m == 9 then 243
      else if m == 10 then 273 else if m == 11 then 304 else if m == 12 then 334
      else 365;
    if m > 2 && IsLeapYear(y) then common + 1 else common
  }

  /** `date.toordinal()`: 0001-01-01 is day 1. */
  function Ordinal(d: Date): int
    requires IsCalendarDate(d)
  {
    DaysBeforeYear(d.year) + DaysBeforeMonth(d.year, d.month) + d.day
  }

  /** 9999-12-31, the last date `datetime.date` can hold. */
  const LastDate: Date := Date(MaxYear, 12, 31)

  /** The date order SQL uses for DATE columns: year, then month, then day. */
  predicate Precedes(a: Date, b: Date)
  {
    a.year < b.year || (a.year == b.year && (a.month < b.month || (a.month == b.month && a.day < b.day)))
  }

  /** An integer key ordered like `Precedes` on calendar dates (the digits of YYYYMMDD). */
  function DateKey(d: Date): int
  {
    d.year * 10000 + d.month * 100 + d.day
  }

  lemma DivStep4(p: int)
    requires p >= 0
    ensures (p + 1) / 4 - p / 4 == if (p + 1) % 4 == 0 then 1 else 0
  {
  }

  lemma DivStep100(p: int)
    requires p >= 0
    ensures (p + 1) / 100 - p / 100 == if (p + 1) % 100 == 0 then 1 else 0
  {
  }

  lemma DivStep400(p: int)
    requires p >= 0
    ensures (p + 1) / 400 - p / 400 == if (p + 1) % 400 == 0 then 1 else 0
  {
  }

  /** The closed form of `DaysBeforeYear` grows by the length of each year. */
  lemma YearStep(y: int)
    requires y >= 1
    ensures DaysBeforeYear(y + 1) == DaysBeforeYear(y) + DaysInYear(y)
  {
    var p := y - 1;
    DivStep4(p);
    DivStep100(p);
    DivStep400(p);
    var a, b, c := (p + 1) / 4 - p / 4, (p + 1) / 100 - p / 100, (p + 1) / 400 - p / 400;
    assert DaysBeforeYear(y + 1) - DaysBeforeYear(y) == 365 + a - b + c;
    if y % 400 == 0 {
      assert y % 100 == 0 && y % 4 == 0 by { DivisorsOf400(y); }
    } else if y % 100 == 0 {
      assert y % 4 == 0 by { DivisorsOf100(y); }
    }
  }

  lemma DivisorsOf400(y: int)
    requires y % 400 == 0
    ensures y % 100 == 0 && y % 4 == 0
  {
    var k := y / 400;
    assert y == 400 * k;
    var m, n := 4 * k, 100 * k;
    assert y == 100 * m && (100 * m) % 100 == 0;
    assert y == 4 * n && (4 * n) % 4 == 0;
  }

  lemma DivisorsOf100(y: int)
    requires y % 100 == 0
    ensures y % 4 == 0
  {
    var k := y / 100;
    assert y == 100 * k;
    var n := 25 * k;
    assert y == 4 * n && (4 * n) % 4 == 0;
  }

  /** Whole years between `a` and `b` take at least 365 days each. */
  lemma {:induction false} YearsGrow(a: int, b: int)
    requires 1 <= a <= b
    ensures DaysBeforeYear(a) + 365 * (b - a) <= DaysBeforeYear(b)
    decreases b - a
  {
    if a < b {
      YearsGrow(a, b - 1);
      YearStep(b - 1);
    }
  }

  /** The first day of the month after the month of `d`. */
  function FirstOfNextMonth(d: Date): (r: Date)
    requires IsCalendarDate(d)
    ensures IsCalendarDate(r) && Precedes(d, r)
  {
    if d.month < 12 then Date(d.year, d.month + 1, 1) else Date(d.year + 1, 1, 1)
  }

  /** The last day of a month is followed, one day later, by the first of the next. */
  lemma EndOfMonthStep(d: Date)
    requires IsCalendarDate(d)
    ensures Ordinal(FirstOfNextMonth(d)) == Ordinal(d) + (DaysInMonth(d.year, d.month) - d.day) + 1
  {
    if d.month == 12 {
      YearStep(d.year);
    }
  }

  /**
   * `date + timedelta(days=n)` without the upper year bound: the day of the month
   * moves forward, rolling over month by month.
   */
  function AddDays(d: Date, n: nat): (r: Date)
    requires IsCalendarDate(d)
    ensures IsCalendarDate(r)
    decreases n
  {
    var rest := DaysInMonth(d.year, d.month) - d.day;
    if n <= rest then Date(d.year, d.month, d.day + n)
    else AddDays(FirstOfNextMonth(d), n - rest - 1)
  }

  /** Adding `n` days moves the ordinal day number by exactly `n`. */
  lemma {:induction false} AddDaysOrdinal(d: Date, n: nat)
    requires IsCalendarDate(d)
    ensures Ordinal(AddDays(d, n)) == Ordinal(d) + n
    decreases n
  {
    var rest := DaysInMonth(d.year, d.month) - d.day;
    if n > rest {
      EndOfMonthStep(d);
      AddDaysOrdinal(FirstOfNextMonth(d), n - rest - 1);
    }
  }

  /** A date's ordinal lies within its year. */
  lemma OrdinalWithinYear(d: Date)
    requires IsCalendarDate(d)
    ensures DaysBeforeYear(d.year) < Ordinal(d) <= DaysBeforeYear(d.year + 1)
  {
    YearStep(d.year);
  }

  /** Ordinals follow the calendar order of dates. */
  lemma OrdinalMonotone(a: Date, b: Date)
    requires IsCalendarDate(a) && IsCalendarDate(b) && Precedes(a, b)
    ensures Ordinal(a) < Ordinal(b)
  {
    if a.year < b.year {
      OrdinalWithinYear(a);
      OrdinalWithinYear(b);
      YearsGrow(a.year + 1, b.year);
    } else if a.month < b.month {
      assert DaysBeforeMonth(a.year, a.month) + DaysInMonth(a.year, a.month) <= DaysBeforeMonth(b.year, b.month);
    }
  }

  /** Ordinals and the calendar order agree, so the ordinal determines the date. */
  lemma OrdinalOrder(a: Date, b: Date)
    requires IsCalendarDate(a) && IsCalendarDate(b)
    ensures Precedes(a, b) <==> Ordinal(a) < Ordinal(b)
    ensures Ordinal(a) == Ordinal(b) <==> a == b
  {
    if Precedes(a, b) {
      OrdinalMonotone(a, b);
    } else if Precedes(b, a) {
      OrdinalMonotone(b, a);
    }
  }

  /** On calendar dates the integer key orders like the calendar. */
  lemma DateKeyOrder(a: Date, b: Date)
    requires IsCalendarDate(a) && IsCalendarDate(b)
    ensures Precedes(a, b) <==> DateKey(a) < DateKey(b)
    ensures DateKey(a) == DateKey(b) <==> a == b
  {
  }

  /**
   * `service_date + timedelta(days=SERVICE_INTERVAL_DAYS)`-style arithmetic with
   * Python's OverflowError past 9999-12-31 as None.
   */
  function AddDaysChecked(d: Date, n: nat): (r: Option<Date>)
    requires IsValidDate(d)
    ensures r.Some? <==> Ordinal(d) + n <= Ordinal(LastDate)
    ensures r.Some? ==> IsValidDate(r.value) && Ordinal(r.value) == Ordinal(d) + n
  {
    var e := AddDays(d, n);
    AddDaysOrdinal(d, n);
    OrdinalOrder(e, LastDate);
    if e.year <= MaxYear then Some(e) else None
  }

  /**
   * The `%m` directive of `strptime`, the regex `1[0-2]|0[1-9]|[1-9]`, followed by
   * the format's `-`: the month and the text after that `-`.
   */
  function MonthField(t: string): (r: Option<(int, string)>)
    ensures r.Some? ==> 1 <= r.value.0 <= 12
  {
    if |t| >= 3 && t[2] == '-' && ((t[0] == '1' && '0' <= t[1] <= '2') || (t[0] == '0' && '1' <= t[1] <= '9')) then
      Some((DigitValue(t[0]) * 10 + DigitValue(t[1]), t[3..]))
    else if |t| >= 2 && t[1] == '-' && '1' <= t[0] <= '9' then
      Some((DigitValue(t[0]), t[2..]))
    else
      None
  }

  /**
   * The `%d` directive, the regex `3[01]|[12]\d|0[1-9]|[1-9]| [1-9]`, which must
   * take the rest of the string ("unconverted data remains" otherwise).
   */
  function DayField(t: string): (r: Option<int>)
    ensures r.Some? ==> 1 <= r.value <= 31
  {
    if |t| == 2 && ((t[0] == '3' && (t[1] == '0' || t[1] == '1'))
                    || ((t[0] == '1' || t[0] == '2') && IsDigit(t[1]))
                    || (t[0] == '0' && '1' <= t[1] <= '9')) then
      Some(DigitValue(t[0]) * 10 + DigitValue(t[1]))
    else if |t| == 2 && t[0] == ' ' && '1' <= t[1] <= '9' then
      Some(DigitValue(t[1]))
    else if |t| == 1 && '1' <= t[0] <= '9' then
      Some(DigitValue(t[0]))
    else
      None
  }

  /**
   * `datetime.strptime(s, '%Y-%m-%d')`: four digits (`%Y`), `-`, the month field,
   * `-`, the day field, nothing after; then `datetime` rejects year 0 and days
   * past the end of the month (ValueError, modelled as None).
   */
  function ParseDate(s: string): (r: Option<Date>)
    ensures r.Some? ==> IsValidDate(r.value)
  {
    if |s| < 5 || !AllDigits(s[..4]) || s[4] != '-' then None
    else
      var year := DigitValue(s[0]) * 1000 + DigitValue(s[1]) * 100 + DigitValue(s[2]) * 10 + DigitValue(s[3]);
      match MonthField(s[5..])
      case None => None
      case Some((month, rest)) =>
        match DayField(rest)
        case None => None
        case Some(day) =>
          if 1 <= year && day <= DaysInMonth(year, month) then Some(Date(year, month, day)) else None
  }

  /** Two decimal digits, zero padded. */
  function Pad2(n: nat): (s: string)
    requires n < 100
    ensures |s| == 2 && AllDigits(s)
  {
    [DigitChar(n / 10), DigitChar(n % 10)]
  }

  /** `strftime('%Y-%m-%d')`: the ISO 8601 extended calendar date `YYYY-MM-DD`. */
  function FormatDate(d: Date): (s: string)
    requires IsValidDate(d)
  {
    var y := d.year;
    [DigitChar(y / 1000), DigitChar(y / 100 % 10), DigitChar(y / 10 % 10), DigitChar(y % 10)]
    + "-" + Pad2(d.month) + "-" + Pad2(d.day)
  }

  /**
   * The complete calendar date in the extended format of section 4.1.2.2 of
   * ISO 8601:2004: `YYYY-MM-DD`, ten characters.
   */
  predicate IsIsoExtendedDate(s: string)
  {
    |s| == 10 && s[4] == '-' && s[7] == '-'
    && IsDigit(s[0]) && IsDigit(s[1]) && IsDigit(s[2]) && IsDigit(s[3])
    && IsDigit(s[5]) && IsDigit(s[6]) && IsDigit(s[8]) && IsDigit(s[9])
  }

  /** The date an ISO-shaped string names, read position by position. */
  function IsoFields(s: string): Date
    requires IsIsoExtendedDate(s)
  {
    Date(DigitValue(s[0]) * 1000 + DigitValue(s[1]) * 100 + DigitValue(s[2]) * 10 + DigitValue(s[3]),
         DigitValue(s[5]) * 10 + DigitValue(s[6]),
         DigitValue(s[8]) * 10 + DigitValue(s[9]))
  }

  /** On ISO-shaped text the parser accepts exactly the real dates. */
  lemma ParseIsoDate(s: string)
    requires IsIsoExtendedDate(s)
    ensures ParseDate(s) == if IsValidDate(IsoFields(s)) then Some(IsoFields(s)) else None
  {
    var t := s[5..];
    assert t[2] == '-' && IsDigit(t[0]) && IsDigit(t[1]);
    assert s[..4] == [s[0], s[1], s[2], s[3]];
    assert t[3..] == s[8..];
  }

  /** Formatting always yields the ISO shape, naming the same date. */
  lemma FormatIsIso(d: Date)
    requires IsValidDate(d)
    ensures IsIsoExtendedDate(FormatDate(d)) && IsoFields(FormatDate(d)) == d
  {
    FourDigits(d.year);
  }

  /** The decimal digits of a year below 10000. */
  lemma FourDigits(y: int)
    requires 0 <= y <= 9999
    ensures y == (y / 1000) * 1000 + (y / 100 % 10) * 100 + (y / 10 % 10) * 10 + y % 10
  {
    var a := y / 10;
    assert y == a * 10 + y % 10;
    var b := a / 10;
    assert a == b * 10 + a % 10;
    assert y / 100 == b;
    var c := b / 10;
    assert b == c * 10 + b % 10;
    assert y / 1000 == c;
  }

  /** `strptime(strftime(d)) == d`: formatted dates read back unchanged. */
  lemma FormatParseRoundTrip(d: Date)
    requires IsValidDate(d)
    ensures ParseDate(FormatDate(d)) == Some(d)
  {
    FormatIsIso(d);
    ParseIsoDate(FormatDate(d));
  }

  /**
   * The parser is wider than ISO 8601: one-digit months and days, and a day
   * padded with a space, are accepted too.
   */
  lemma ParserAcceptsNonIsoForms()
    ensures !IsIsoExtendedDate("2024-1-5") && ParseDate("2024-1-5") == Some(Date(2024, 1, 5))
    ensures !IsIsoExtendedDate("2024-01- 5") && ParseDate("2024-01- 5") == Some(Date(2024, 1, 5))
  {
  }

  /** Well-shaped text naming a day the calendar does not have is refused. */
  lemma ParserRejectsImpossibleDates()
    ensures ParseDate("2024-02-29") == Some(Date(2024, 2, 29)) && ParseDate("2023-02-29") == None
    ensures ParseDate("0000-01-01") == None && ParseDate("2024-13-01") == None
  {
  }
}
