/** The month selector's previous/next buttons: each copies the current
    date and moves the copy's month with `setMonth`, which keeps the day of
    month and lets a day the new month lacks spill into the month after. */
module MonthSelector {
  import opened Calendar

  /** A `Date` object, seen through its local calendar fields. */
  class DateObject {
    var date: Date

    /** `new Date(other)`: a separate object with the same date. */
    constructor Copy(other: DateObject)
      ensures date == other.date
    {
      date := other.date;
    }

    /** `getMonth()`: the zero-based month. */
    function GetMonth(): int
      reads this
    {
      date.month - 1
    }

    /** `setMonth(monthIndex)`: the same year and day of month in the month
        with that index, normalised as `MakeDay` does. */
    method SetMonth(monthIndex: int)
      modifies this
      ensures date == MakeDate(old(date.year), monthIndex, old(date.day))
      ensures ValidDate(date)
    {
      date := MakeDate(date.year, monthIndex, date.day);
    }
  }

  /** The date `setMonth(getMonth() + delta)` leaves behind. */
  function StepMonth(d: Date, delta: int): (r: Date)
    ensures ValidDate(r)
  {
    MakeDate(d.year, d.month - 1 + delta, d.day)
  }

  /** `handlePrev`: the selected date is a fresh copy moved back one month;
      the current date object is left as it was. */
  method HandlePrev(currentDate: DateObject) returns (newDate: DateObject)
    ensures fresh(newDate)
    ensures newDate.date == StepMonth(currentDate.date, -1)
  {
    newDate := new DateObject.Copy(currentDate);
    newDate.SetMonth(newDate.GetMonth() - 1);
  }

  /** `handleNext`: the same, one month forward. */
  method HandleNext(currentDate: DateObject) returns (newDate: DateObject)
    ensures fresh(newDate)
    ensures newDate.date == StepMonth(currentDate.date, 1)
  {
    newDate := new DateObject.Copy(currentDate);
    newDate.SetMonth(newDate.GetMonth() + 1);
  }

  // ---------------------------------------------------------------------
  // Where the buttons land.

  /** Back one month is the previous month's day, carried if needed. */
  lemma BackTarget(d: Date)
    requires 1 <= d.month <= 12
    ensures StepMonth(d, -1) == CarryDays(PrevMonth(d.year, d.month).0, PrevMonth(d.year, d.month).1, d.day)
  {
    if d.month == 1 {
      assert (d.month - 2) / 12 == -1 && (d.month - 2) % 12 == 11;
    } else {
      assert (d.month - 2) / 12 == 0 && (d.month - 2) % 12 == d.month - 2;
    }
  }

  /** Forward one month is the next month's day, carried if needed. */
  lemma ForwardTarget(d: Date)
    requires 1 <= d.month <= 12
    ensures StepMonth(d, 1) == CarryDays(NextMonth(d.year, d.month).0, NextMonth(d.year, d.month).1, d.day)
  {
    if d.month == 12 {
      assert d.month / 12 == 1 && d.month % 12 == 0;
    } else {
      assert d.month / 12 == 0 && d.month % 12 == d.month;
    }
  }

  /** A day at most 28 past the end of its month lands in the next month. */
  lemma CarryOnce(y: int, m: int, day: int)
    requires 1 <= m <= 12 && DaysInMonth(y, m) < day <= DaysInMonth(y, m) + 28
    ensures CarryDays(y, m, day) == Date(NextMonth(y, m).0, NextMonth(y, m).1, day - DaysInMonth(y, m))
  {
    var (ny, nm) := NextMonth(y, m);
    assert CarryDays(y, m, day) == CarryDays(ny, nm, day - DaysInMonth(y, m));
  }

  /** Going back: the previous month with the same day when that month has
      it (January rolling back into December of the year before);
      otherwise the excess days spill back into the current month. */
  lemma StepBack(d: Date)
    requires ValidDate(d)
    ensures var (py, pm) := PrevMonth(d.year, d.month);
      (d.day <= DaysInMonth(py, pm) ==> StepMonth(d, -1) == Date(py, pm, d.day)) &&
      (d.day > DaysInMonth(py, pm) ==> StepMonth(d, -1) == Date(d.year, d.month, d.day - DaysInMonth(py, pm)))
  {
    var (py, pm) := PrevMonth(d.year, d.month);
    BackTarget(d);
    if d.day > DaysInMonth(py, pm) {
      CarryOnce(py, pm, d.day);
      assert NextMonth(py, pm) == (d.year, d.month);
    }
  }

  /** Going forward: the next month with the same day when that month has
      it (December rolling over into January of the year after);
      otherwise the excess days spill into the month after that. */
  lemma StepForward(d: Date)
    requires ValidDate(d)
    ensures var (ny, nm) := NextMonth(d.year, d.month);
      var (ay, am) := NextMonth(ny, nm);
      (d.day <= DaysInMonth(ny, nm) ==> StepMonth(d, 1) == Date(ny, nm, d.day)) &&
      (d.day > DaysInMonth(ny, nm) ==> StepMonth(d, 1) == Date(ay, am, d.day - DaysInMonth(ny, nm)))
  {
    var (ny, nm) := NextMonth(d.year, d.month);
    ForwardTarget(d);
    if d.day > DaysInMonth(ny, nm) {
      CarryOnce(ny, nm, d.day);
    }
  }

  /** The year boundary: back from January is December of the year
      before, forward from December is January of the year after, with
      the day kept. */
  lemma YearRollover(d: Date)
    requires ValidDate(d)
    ensures d.month == 1 ==> StepMonth(d, -1) == Date(d.year - 1, 12, d.day)
    ensures d.month == 12 ==> StepMonth(d, 1) == Date(d.year + 1, 1, d.day)
  {
    StepBack(d);
    StepForward(d);
  }

  /** Days up to the 28th exist in every month, so both buttons keep them. */
  lemma ShortDaysKept(d: Date)
    requires ValidDate(d) && d.day <= 28
    ensures StepMonth(d, -1) == Date(PrevMonth(d.year, d.month).0, PrevMonth(d.year, d.month).1, d.day)
    ensures StepMonth(d, 1) == Date(NextMonth(d.year, d.month).0, NextMonth(d.year, d.month).1, d.day)
  {
    StepBack(d);
    StepForward(d);
  }

  /** Back then forward returns to the same date when the previous month
      has the day. */
  lemma BackThenForward(d: Date)
    requires ValidDate(d)
    requires d.day <= DaysInMonth(PrevMonth(d.year, d.month).0, PrevMonth(d.year, d.month).1)
    ensures StepMonth(StepMonth(d, -1), 1) == d
  {
    var (py, pm) := PrevMonth(d.year, d.month);
    BackTarget(d);
    ForwardTarget(Date(py, pm, d.day));
    assert NextMonth(py, pm) == (d.year, d.month);
  }

  /** Forward then back returns to the same date when the next month has
      the day. */
  lemma ForwardThenBack(d: Date)
    requires ValidDate(d)
    requires d.day <= DaysInMonth(NextMonth(d.year, d.month).0, NextMonth(d.year, d.month).1)
    ensures StepMonth(StepMonth(d, 1), -1) == d
  {
    var (ny, nm) := NextMonth(d.year, d.month);
    ForwardTarget(d);
    BackTarget(Date(ny, nm, d.day));
    assert PrevMonth(ny, nm) == (d.year, d.month);
  }

  // ---------------------------------------------------------------------
  // The button as written can stay in, or skip past, a month.

  /** In every year, back from 31 March lands on 3 March (2 March in a
      leap year), still in March, and forward from 31 January lands on the
      same day of March: the button leaves the month unchanged or skips
      February. */
  lemma StepMonthMissesFebruary(y: int)
    ensures StepMonth(Date(y, 3, 31), -1) == Date(y, 3, 31 - DaysInMonth(y, 2))
    ensures StepMonth(Date(y, 1, 31), 1) == Date(y, 3, 31 - DaysInMonth(y, 2))
    ensures (StepMonth(Date(y, 3, 31), -1).year, StepMonth(Date(y, 3, 31), -1).month) != PrevMonth(y, 3)
    ensures (StepMonth(Date(y, 1, 31), 1).year, StepMonth(Date(y, 1, 31), 1).month) != NextMonth(y, 1)
  {
    StepBack(Date(y, 3, 31));
    StepForward(Date(y, 1, 31));
  }

  /** Moving by one month as intended: the neighbouring month, with the
      day clamped to that month's length. */
  function ShiftMonth(d: Date, delta: int): (r: Date)
    requires delta == -1 || delta == 1
    requires 1 <= d.month <= 12
  {
    var (y, m) := if delta == -1 then PrevMonth(d.year, d.month) else NextMonth(d.year, d.month);
    Date(y, m, if d.day < DaysInMonth(y, m) then d.day else DaysInMonth(y, m))
  }

  /** The intended step always lands in the neighbouring month, keeps the
      day when it exists there, and agrees with the button then. */
  lemma ShiftMonthLandsInNeighbour(d: Date)
    requires ValidDate(d)
    ensures var r := ShiftMonth(d, -1);
      ValidDate(r) && (r.year, r.month) == PrevMonth(d.year, d.month) &&
      (d.day <= DaysInMonth(r.year, r.month) <==> r.day == d.day) &&
      (r.day == d.day ==> r == StepMonth(d, -1))
    ensures var r := ShiftMonth(d, 1);
      ValidDate(r) && (r.year, r.month) == NextMonth(d.year, d.month) &&
      (d.day <= DaysInMonth(r.year, r.month) <==> r.day == d.day) &&
      (r.day == d.day ==> r == StepMonth(d, 1))
  {
    StepBack(d);
    StepForward(d);
  }
}
