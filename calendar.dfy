/** Local-calendar dates as the dashboard's date helpers see them: the
    proleptic Gregorian calendar, the day/month normalisation of
    JavaScript's `Date`, the `YYYY-MM-DD` form of ISO 8601:2004 section
    5.2.1.1 (extended calendar date) and the `YYYY-MM` form of section
    5.2.1.2 (reduced precision, a month). */
module Calendar {
  import opened Strings
  import opened Options

  /** The local fields of a `Date`: `getFullYear()`, `getMonth() + 1`
      (so 1..12) and `getDate()`. */
  datatype Date = Date(year: int, month: int, day: int)

  /** The Gregorian leap-year rule; `%` is Euclidean, which is the right
      rule for the proleptic calendar's year 0 and negative years too. */
  predicate IsLeapYear(y: int) {
    y % 4 == 0 && (y % 100 != 0 || y % 400 == 0)
  }

  function DaysInMonth(y: int, m: int): (n: int)
    requires 1 <= m <= 12
    ensures 28 <= n <= 31
  {
    if m == 2 then (if IsLeapYear(y) then 29 else 28)
    else if m == 4 || m == 6 || m == 9 || m == 11 then 30
    else 31
  }

  predicate ValidDate(d: Date) {
    1 <= d.month <= 12 && 1 <= d.day <= DaysInMonth(d.year, d.month)
  }

  /** Chronological order of dates. */
  predicate DateLess(a: Date, b: Date) {
    a.year < b.year || (a.year == b.year && (a.month < b.month || (a.month == b.month && a.day < b.day)))
  }

  /** The month after (y, m); December rolls over into January. */
  function NextMonth(y: int, m: int): (r: (int, int))
    requires 1 <= m <= 12
    ensures 1 <= r.1 <= 12
    ensures r.0 * 12 + r.1 == y * 12 + m + 1
  {
    if m == 12 then (y + 1, 1) else (y, m + 1)
  }

  /** The month before (y, m); January rolls back into December. */
  function PrevMonth(y: int, m: int): (r: (int, int))
    requires 1 <= m <= 12
    ensures 1 <= r.1 <= 12
    ensures r.0 * 12 + r.1 == y * 12 + m - 1
  {
    if m == 1 then (y - 1, 12) else (y, m - 1)
  }

  // ---------------------------------------------------------------------
  // Day numbers: an independent count of days, used as the reference
  // definition of what normalising a date means.

  /** Number of leap years in [0, y) (negative for y < 0). */
  function LeapYearsBefore(y: int): int {
    (y + 3) / 4 - (y + 99) / 100 + (y + 399) / 400
  }

  function DaysBeforeYear(y: int): int {
    365 * y + LeapYearsBefore(y)
  }

  function DaysBeforeMonth(y: int, m: int): (n: int)
    requires 1 <= m <= 12
  {
    var common :=
      if m == 1 then 0 else if m == 2 then 31 else if m == 3 then 59
      else if m == 4 then 90 else if m == 5 then 120 else if m == 6 then 151
      else if m == 7 then 181 else if m == 8 then 212 else if m == 9 then 243
      else if m == 10 then 273 else if m == 11 then 304 else 334;
    common + (if m > 2 && IsLeapYear(y) then 1 else 0)
  }

  /** Days since 1 January of year 0. */
  function DayNumber(d: Date): int
    requires 1 <= d.month <= 12
  {
    DaysBeforeYear(d.year) + DaysBeforeMonth(d.year, d.month) + d.day - 1
  }

  lemma YearLength(y: int)
    ensures DaysBeforeYear(y + 1) == DaysBeforeYear(y) + (if IsLeapYear(y) then 366 else 365)
  {
    var a, b, c := Step4(y), Step100(y), Step400(y);
    assert LeapYearsBefore(y + 1) - LeapYearsBefore(y) == a - b + c;
    if y % 400 == 0 {
      Multiple400(y);
    } else if y % 100 == 0 {
      Multiple100(y);
    }
  }

  lemma Multiple400(y: int)
    requires y % 400 == 0
    ensures y % 100 == 0 && y % 4 == 0
  {
    var k := y / 400;
    assert y == 100 * (4 * k);
    assert y == 4 * (100 * k);
  }

  lemma Multiple100(y: int)
    requires y % 100 == 0
    ensures y % 4 == 0
  {
    var k := y / 100;
    assert y == 4 * (25 * k);
  }

  /** Whether y is a multiple of 4, 100 or 400, as a step of the counts. */
  function Step4(y: int): (r: int)
    ensures r == (y + 4) / 4 - (y + 3) / 4
  {
    if y % 4 == 0 then 1 else 0
  }

  function Step100(y: int): (r: int)
    ensures r == (y + 100) / 100 - (y + 99) / 100
  {
    if y % 100 == 0 then 1 else 0
  }

  function Step400(y: int): (r: int)
    ensures r == (y + 400) / 400 - (y + 399) / 400
  {
    if y % 400 == 0 then 1 else 0
  }

  /** The first of the next month is DaysInMonth days after the first of this one. */
  lemma MonthLength(y: int, m: int)
    requires 1 <= m <= 12
    ensures var (ny, nm) := NextMonth(y, m);
            DayNumber(Date(ny, nm, 1)) == DayNumber(Date(y, m, 1)) + DaysInMonth(y, m)
  {
    if m == 12 { YearLength(y); }
  }

  /** The first of this month is DaysInMonth(previous month) days after
      the first of the previous one. */
  lemma MonthBefore(y: int, m: int)
    requires 1 <= m <= 12
    ensures var (py, pm) := PrevMonth(y, m);
            DayNumber(Date(y, m, 1)) == DayNumber(Date(py, pm, 1)) + DaysInMonth(py, pm)
  {
    var (py, pm) := PrevMonth(y, m);
    MonthLength(py, pm);
    assert NextMonth(py, pm) == (y, m);
  }

  lemma {:induction false} DaysBeforeYearMonotone(a: int, b: int)
    requires a <= b
    ensures DaysBeforeYear(a) + 365 * (b - a) <= DaysBeforeYear(b)
    decreases b - a
  {
    if a < b {
      YearLength(a);
      DaysBeforeYearMonotone(a + 1, b);
    }
  }

  /** Days of the year before a valid date. */
  function DayOfYear(d: Date): int
    requires ValidDate(d)
  {
    DaysBeforeMonth(d.year, d.month) + d.day - 1
  }

  /** Within a year, the day of the year orders dates and lies below the
      year's length. */
  lemma DayOfYearOrder(a: Date, b: Date)
    requires ValidDate(a) && ValidDate(b) && a.year == b.year
    ensures 0 <= DayOfYear(a) < (if IsLeapYear(a.year) then 366 else 365)
    ensures DateLess(a, b) <==> DayOfYear(a) < DayOfYear(b)
    ensures a == b <==> DayOfYear(a) == DayOfYear(b)
  {
  }

  /** A date of an earlier year has a smaller day number. */
  lemma EarlierYear(a: Date, b: Date)
    requires ValidDate(a) && ValidDate(b) && a.year < b.year
    ensures DayNumber(a) < DayNumber(b)
  {
    DayOfYearOrder(a, a);
    YearLength(a.year);
    DaysBeforeYearMonotone(a.year + 1, b.year);
    assert DayNumber(a) == DaysBeforeYear(a.year) + DayOfYear(a);
    assert DayNumber(a) < DaysBeforeYear(a.year + 1);
  }

  /** Day numbers order valid dates chronologically, so a valid date is
      determined by its day number. */
  lemma DayNumberOrder(a: Date, b: Date)
    requires ValidDate(a) && ValidDate(b)
    ensures DateLess(a, b) <==> DayNumber(a) < DayNumber(b)
    ensures a == b <==> DayNumber(a) == DayNumber(b)
  {
    if a.year < b.year {
      EarlierYear(a, b);
    } else if b.year < a.year {
      EarlierYear(b, a);
    } else {
      DayOfYearOrder(a, b);
      assert DayNumber(a) - DayNumber(b) == DayOfYear(a) - DayOfYear(b);
    }
  }

  // ---------------------------------------------------------------------
  // JavaScript date normalisation.

  /** Carries an out-of-range day of month (y, m) into neighbouring
      months, as `MakeDay` does: the result is `day - 1` days after the
      first of (y, m). A day that exists is left as it is. */
  function CarryDays(y: int, m: int, day: int): (d: Date)
    requires 1 <= m <= 12
    ensures ValidDate(d)
    ensures 1 <= day <= DaysInMonth(y, m) ==> d == Date(y, m, day)
    decreases if day < 1 then 1 - day else 0, if day < 1 then 0 else day
  {
    if day < 1 then
      var (py, pm) := PrevMonth(y, m);
      CarryDays(py, pm, day + DaysInMonth(py, pm))
    else if day > DaysInMonth(y, m) then
      var (ny, nm) := NextMonth(y, m);
      CarryDays(ny, nm, day - DaysInMonth(y, m))
    else
      Date(y, m, day)
  }

  lemma {:induction false} CarryDaysDayNumber(y: int, m: int, day: int)
    requires 1 <= m <= 12
    ensures DayNumber(CarryDays(y, m, day)) == DayNumber(Date(y, m, 1)) + day - 1
    decreases if day < 1 then 1 - day else 0, if day < 1 then 0 else day
  {
    if day < 1 {
      var (py, pm) := PrevMonth(y, m);
      var n := DaysInMonth(py, pm);
      assert CarryDays(y, m, day) == CarryDays(py, pm, day + n);
      CarryDaysDayNumber(py, pm, day + n);
      MonthBefore(y, m);
    } else if day > DaysInMonth(y, m) {
      var (ny, nm) := NextMonth(y, m);
      var n := DaysInMonth(y, m);
      assert CarryDays(y, m, day) == CarryDays(ny, nm, day - n);
      CarryDaysDayNumber(ny, nm, day - n);
      MonthLength(y, m);
      assert DayNumber(Date(ny, nm, 1)) == DayNumber(Date(y, m, 1)) + n;
    }
  }

  /** The local fields of the date with the given year, zero-based month
      index and day, each possibly out of range: whole years are carried
      out of the month index (floor division), then days out of the day. */
  function MakeDate(year: int, monthIndex: int, day: int): (d: Date)
    ensures ValidDate(d)
  {
    CarryDays(year + monthIndex / 12, monthIndex % 12 + 1, day)
  }

  /** MakeDate yields the valid date `day - 1` days after the first of the
      normalised month, and no other valid date has that day number. */
  lemma MakeDateIsDayOffset(year: int, monthIndex: int, day: int, e: Date)
    requires ValidDate(e)
    ensures var first := Date(year + monthIndex / 12, monthIndex % 12 + 1, 1);
            DayNumber(MakeDate(year, monthIndex, day)) == DayNumber(first) + day - 1 &&
            (DayNumber(e) == DayNumber(first) + day - 1 <==> e == MakeDate(year, monthIndex, day))
  {
    CarryDaysDayNumber(year + monthIndex / 12, monthIndex % 12 + 1, day);
    DayNumberOrder(e, MakeDate(year, monthIndex, day));
  }

  /** `new Date(year, monthIndex, day)`: like MakeDate, except that the
      constructor reads a year from 0 to 99 as 1900 to 1999. */
  function NewLocalDate(year: int, monthIndex: int, day: int): (d: Date)
    ensures ValidDate(d)
  {
    MakeDate(if 0 <= year <= 99 then 1900 + year else year, monthIndex, day)
  }

  // ---------------------------------------------------------------------
  // ISO 8601 strings.

  predicate FourDigitYear(y: int) {
    1000 <= y <= 9999
  }

  /** `toISODateString`: `${year}-${pad2(month)}-${pad2(day)}`; for a
      four-digit year, the year's two digit pairs, the month's and the
      day's two digits, hyphen-separated. */
  function IsoDateString(d: Date): (r: string)
    requires ValidDate(d)
    ensures FourDigitYear(d.year) ==> r == DateForm(d.year / 100, d.year % 100, d.month, d.day)
  {
    Pad2IsDigits2(d.month);
    Pad2IsDigits2(d.day);
    if FourDigitYear(d.year) then
      NatString4(d.year);
      IntString(d.year) + "-" + Pad2(d.month) + "-" + Pad2(d.day)
    else
      IntString(d.year) + "-" + Pad2(d.month) + "-" + Pad2(d.day)
  }

  /** For a four-digit year the string is exactly `YYYY-MM-DD`: the year's
      two pairs of digits, a hyphen, two digits of the month, a hyphen and
      two digits of the day. */
  lemma IsoDateShape(d: Date)
    requires ValidDate(d) && FourDigitYear(d.year)
    ensures IsoDateString(d) == DateForm(d.year / 100, d.year % 100, d.month, d.day)
    ensures IsIsoDateForm(IsoDateString(d))
  {
    DateFormFields(d.year / 100, d.year % 100, d.month, d.day);
  }

  /** Reads a `YYYY-MM-DD` string back into a valid date. */
  function ParseIsoDate(s: string): (r: Option<Date>)
    ensures r.Some? ==> ValidDate(r.value) && 0 <= r.value.year <= 9999
  {
    if IsIsoDateForm(s) then
      var d := Date(DecimalValue(s[..4]), DecimalValue(s[5..7]), DecimalValue(s[8..]));
      assert DecimalValue(s[..4]) <= 9999 by { DecimalBound(s[..4]); }
      if ValidDate(d) then Some(d) else None
    else None
  }

  lemma {:induction false} DecimalBound(s: string)
    requires forall i :: 0 <= i < |s| ==> IsDigit(s[i])
    ensures DecimalValue(s) < Power10(|s|)
  {
    if s != [] { DecimalBound(s[..|s| - 1]); }
  }

  function Power10(n: nat): (p: nat)
    ensures p >= 1
  {
    if n == 0 then 1 else 10 * Power10(n - 1)
  }

  /** Reading back what toISODateString wrote gives the date again. */
  lemma IsoDateRoundTrip(d: Date)
    requires ValidDate(d) && FourDigitYear(d.year)
    ensures ParseIsoDate(IsoDateString(d)) == Some(d)
  {
    IsoDateShape(d);
    DateFormFields(d.year / 100, d.year % 100, d.month, d.day);
    NatString4(d.year);
    Digits4Value(d.year);
    Digits2Value(d.month);
    Digits2Value(d.day);
  }

  /** For four-digit years, string order of ISO dates is date order. */
  lemma IsoDateOrder(a: Date, b: Date)
    requires ValidDate(a) && FourDigitYear(a.year)
    requires ValidDate(b) && FourDigitYear(b.year)
    ensures LexLess(IsoDateString(a), IsoDateString(b)) <==> DateLess(a, b)
    ensures IsoDateString(a) == IsoDateString(b) <==> a == b
  {
    IsoDateShape(a);
    IsoDateShape(b);
    DateFormOrder(a.year / 100, a.year % 100, a.month, a.day, b.year / 100, b.year % 100, b.month, b.day);
    assert a.year == (a.year / 100) * 100 + a.year % 100;
    assert b.year == (b.year / 100) * 100 + b.year % 100;
  }

  // ---------------------------------------------------------------------
  // Month ranges used by the dashboard's expense query.

  /** `getStartOfMonthStr`: the ISO string of day 1 of the date's month
      (of the same month in the 1900s for years 0 to 99, which the Date
      constructor reinterprets). */
  function StartOfMonthStr(d: Date): (r: string)
    requires ValidDate(d)
    ensures !(0 <= d.year <= 99) ==> r == IsoDateString(Date(d.year, d.month, 1))
    ensures 0 <= d.year <= 99 ==> r == IsoDateString(Date(1900 + d.year, d.month, 1))
  {
    if 0 <= d.year <= 99 then
      StartOfMonthTwoDigitYear(d);
      IsoDateString(NewLocalDate(d.year, d.month - 1, 1))
    else
      StartOfMonthDate(d);
      IsoDateString(NewLocalDate(d.year, d.month - 1, 1))
  }

  /** `getEndOfMonthStr`: the ISO string of "day 0 of the next month",
      which is the month's last day (of the same month in the 1900s for
      years 0 to 99). */
  function EndOfMonthStr(d: Date): (r: string)
    requires ValidDate(d)
    ensures !(0 <= d.year <= 99) ==> r == IsoDateString(Date(d.year, d.month, DaysInMonth(d.year, d.month)))
    ensures 0 <= d.year <= 99 ==>
      r == IsoDateString(Date(1900 + d.year, d.month, DaysInMonth(1900 + d.year, d.month)))
  {
    if 0 <= d.year <= 99 then
      EndOfMonthTwoDigitYear(d);
      IsoDateString(NewLocalDate(d.year, d.month, 0))
    else
      EndOfMonthDate(d);
      IsoDateString(NewLocalDate(d.year, d.month, 0))
  }

  /** Day 1 of the month keeps the year and month (outside the years the
      constructor reinterprets). */
  lemma StartOfMonthDate(d: Date)
    requires ValidDate(d) && !(0 <= d.year <= 99)
    ensures NewLocalDate(d.year, d.month - 1, 1) == Date(d.year, d.month, 1)
  {
  }

  /** Day 0 of the next month is the last day of this month: 31 December
      stays in its year, February has 29 days in leap years and 28 otherwise. */
  lemma EndOfMonthDate(d: Date)
    requires ValidDate(d) && !(0 <= d.year <= 99)
    ensures NewLocalDate(d.year, d.month, 0) == Date(d.year, d.month, DaysInMonth(d.year, d.month))
    ensures d.month == 12 ==> NewLocalDate(d.year, d.month, 0) == Date(d.year, 12, 31)
    ensures d.month == 2 ==> NewLocalDate(d.year, d.month, 0).day == if IsLeapYear(d.year) then 29 else 28
  {
    var y := d.year + d.month / 12;
    var m := d.month % 12 + 1;
    var (py, pm) := PrevMonth(y, m);
    assert py == d.year && pm == d.month;
  }

  /** In years 0 to 99 the constructor shifts the range into the 1900s. */
  lemma StartOfMonthTwoDigitYear(d: Date)
    requires ValidDate(d) && 0 <= d.year <= 99
    ensures NewLocalDate(d.year, d.month - 1, 1) == Date(1900 + d.year, d.month, 1)
  {
  }

  /** In years 0 to 99 day 0 of the next month is the last day of the
      same month in the 1900s. */
  lemma EndOfMonthTwoDigitYear(d: Date)
    requires ValidDate(d) && 0 <= d.year <= 99
    ensures NewLocalDate(d.year, d.month, 0) == Date(1900 + d.year, d.month, DaysInMonth(1900 + d.year, d.month))
  {
    EndOfMonthDate(Date(1900 + d.year, d.month, 1));
  }

  /** Dates of the same month share their range strings, whatever the year. */
  lemma SameMonthSameRange(a: Date, b: Date)
    requires ValidDate(a) && ValidDate(b) && a.year == b.year && a.month == b.month
    ensures StartOfMonthStr(a) == StartOfMonthStr(b) && EndOfMonthStr(a) == EndOfMonthStr(b)
  {
  }

  /** The dates whose strings lie between those of a month's first and
      last days are exactly the dates of that month. */
  lemma DateRangeSelects(first: Date, last: Date, e: Date)
    requires ValidDate(first) && ValidDate(last) && ValidDate(e)
    requires FourDigitYear(first.year) && FourDigitYear(e.year)
    requires last.year == first.year && last.month == first.month
    requires first.day == 1 && last.day == DaysInMonth(first.year, first.month)
    ensures LexLessEq(IsoDateString(first), IsoDateString(e)) && LexLessEq(IsoDateString(e), IsoDateString(last))
            <==> e.year == first.year && e.month == first.month
  {
    IsoDateOrder(first, e);
    IsoDateOrder(e, last);
  }

  /** Every date of the month lies between the start and end strings, and,
      for four-digit years, no date of another month does: the `gte`/`lte`
      filter selects exactly the month. */
  lemma MonthRangeSelectsMonth(d: Date, e: Date)
    requires ValidDate(d) && FourDigitYear(d.year)
    requires ValidDate(e) && FourDigitYear(e.year)
    ensures LexLessEq(StartOfMonthStr(d), IsoDateString(e)) && LexLessEq(IsoDateString(e), EndOfMonthStr(d))
            <==> e.year == d.year && e.month == d.month
  {
    DateRangeSelects(Date(d.year, d.month, 1), Date(d.year, d.month, DaysInMonth(d.year, d.month)), e);
  }

  // ---------------------------------------------------------------------
  // Month keys.

  /** `${year}-${pad2(month)}`: the history's month key. */
  function MonthKey(year: int, month: int): string
    requires 1 <= month <= 12
  {
    IntString(year) + "-" + Pad2(month)
  }

  lemma MonthKeyShape(y: int, m: int)
    requires FourDigitYear(y) && 1 <= m <= 12
    ensures MonthKey(y, m) == MonthForm(y / 100, y % 100, m)
  {
    NatString4(y);
    Pad2IsDigits2(m);
  }

  /** The month key is the first seven characters of the ISO date. */
  lemma MonthKeyIsIsoPrefix(d: Date)
    requires ValidDate(d) && FourDigitYear(d.year)
    ensures |IsoDateString(d)| == 10 && MonthKey(d.year, d.month) == IsoDateString(d)[..7]
  {
    var h, l := d.year / 100, d.year % 100;
    var s := IsoDateString(d);
    IsoDateShape(d);
    assert s == DateForm(h, l, d.month, d.day);
    MonthKeyShape(d.year, d.month);
    assert MonthKey(d.year, d.month) == MonthForm(h, l, d.month);
    MonthFormIsPrefix(h, l, d.month, d.day);
    assert MonthForm(h, l, d.month) == DateForm(h, l, d.month, d.day)[..7];
  }

  /** For four-digit years, string order of month keys is chronological. */
  lemma MonthKeyOrder(y1: int, m1: int, y2: int, m2: int)
    requires FourDigitYear(y1) && 1 <= m1 <= 12
    requires FourDigitYear(y2) && 1 <= m2 <= 12
    ensures LexLess(MonthKey(y1, m1), MonthKey(y2, m2)) <==> y1 < y2 || (y1 == y2 && m1 < m2)
    ensures MonthKey(y1, m1) == MonthKey(y2, m2) <==> y1 == y2 && m1 == m2
  {
    MonthKeyShape(y1, m1);
    MonthKeyShape(y2, m2);
    MonthFormOrder(y1 / 100, y1 % 100, m1, y2 / 100, y2 % 100, m2);
    assert y1 == (y1 / 100) * 100 + y1 % 100;
    assert y2 == (y2 / 100) * 100 + y2 % 100;
  }

  /** What `getFullYear()`/`getMonth()` of an Invalid Date print. */
  const InvalidMonthKey: string := "NaN-NaN"

  /** The month key of a stored `YYYY-MM-DD` date string, read from the
      string's own year and month; it is the Invalid Date's key exactly
      when the string does not read as a date. */
  function MonthKeyOfDateString(s: string): (key: string)
    ensures key == InvalidMonthKey <==> ParseIsoDate(s).None?
    ensures ParseIsoDate(s).Some? ==> key == MonthKey(ParseIsoDate(s).value.year, ParseIsoDate(s).value.month)
  {
    match ParseIsoDate(s)
    case Some(d) => MonthKeyIsNotInvalid(d.year, d.month); MonthKey(d.year, d.month)
    case None => InvalidMonthKey
  }

  /** No month key is the one an Invalid Date prints: a month key starts
      with a digit or a minus sign. */
  lemma MonthKeyIsNotInvalid(y: int, m: int)
    requires 1 <= m <= 12
    ensures MonthKey(y, m) != InvalidMonthKey
  {
    var s := IntString(y);
    assert MonthKey(y, m)[0] == s[0];
    if y < 0 {
      assert s[0] == '-';
    } else {
      assert IsDigit(s[0]);
    }
    assert InvalidMonthKey[0] == 'N';
  }

  /** The key of an ISO date string is that date's year and month. */
  lemma MonthKeyOfIsoDate(d: Date)
    requires ValidDate(d) && FourDigitYear(d.year)
    ensures MonthKeyOfDateString(IsoDateString(d)) == MonthKey(d.year, d.month)
    ensures MonthKeyOfDateString(IsoDateString(d)) == IsoDateString(d)[..7]
  {
    IsoDateRoundTrip(d);
    MonthKeyIsIsoPrefix(d);
  }
}
