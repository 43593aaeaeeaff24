/**
 * Proleptic Gregorian civil dates and times, as Python's `datetime` keeps them:
 * a date, a time of day with whole seconds, and the day number (ordinal) that
 * orders dates.  Everything is plain integer arithmetic.
 */
module Civil {

  /** Python's datetime.MINYEAR and datetime.MAXYEAR. */
  const MinYear := 1
  const MaxYear := 9999

  const SecondsPerDay := 86400

  datatype Date = Date(year: int, month: int, day: int)

  datatype DateTime = DateTime(date: Date, hour: int, minute: int, second: int)

  predicate IsLeapYear(y: int) {
    y % 4 == 0 && (y % 100 != 0 || y % 400 == 0)
  }

  function DaysInYear(y: int): int {
    if IsLeapYear(y) then 366 else 365
  }

  function DaysInMonth(y: int, m: int): (n: int)
    requires 1 <= m <= 12
    ensures 28 <= n <= 31
  {
    if m == 2 then (if IsLeapYear(y) then 29 else 28)
    else if m == 4 || m == 6 || m == 9 || m == 11 then 30
    else 31
  }

  /** A month of a year and a day of that month; the year itself is unbounded. */
  predicate ValidDate(d: Date) {
    1 <= d.month <= 12 && 1 <= d.day <= DaysInMonth(d.year, d.month)
  }

  /** Every field except the year is in range. */
  predicate WellFormed(t: DateTime) {
    ValidDate(t.date) && 0 <= t.hour < 24 && 0 <= t.minute < 60 && 0 <= t.second < 60
  }

  /** A value Python's `datetime` can hold. */
  predicate Valid(t: DateTime) {
    WellFormed(t) && MinYear <= t.date.year <= MaxYear
  }

  /** Number of days in the years before `y`, counted from year 1. */
  function DaysBeforeYear(y: int): int {
    var p := y - 1;
    365 * p + p / 4 - p / 100 + p / 400
  }

  /** Number of days in the months of year `y` before month `m`. */
  function DaysBeforeMonth(y: int, m: int): int
    requires 1 <= m <= 12
  {
    var cumulative := [0, 31, 59, 90, 120, 151, 181, 212, 243, 273, 304, 334];
    cumulative[m - 1] + (if m > 2 && IsLeapYear(y) then 1 else 0)
  }

  /** Python's date.toordinal(): 0001-01-01 is day 1. */
  function DayNumber(d: Date): int
    requires ValidDate(d)
  {
    DaysBeforeYear(d.year) + DaysBeforeMonth(d.year, d.month) + d.day
  }

  function SecondOfDay(t: DateTime): int {
    t.hour * 3600 + t.minute * 60 + t.second
  }

  /**
   * The instant `t` denotes when read at a fixed offset of `offset` seconds
   * east of UTC, in seconds since 0001-01-01T00:00:00 UTC.
   */
  function Instant(t: DateTime, offset: int): int
    requires ValidDate(t.date)
  {
    DayNumber(t.date) * SecondsPerDay + SecondOfDay(t) - offset
  }

  /** The day after `d`, carrying into the next month and year. */
  function NextDay(d: Date): (r: Date)
    requires ValidDate(d)
    ensures ValidDate(r)
  {
    if d.day < DaysInMonth(d.year, d.month) then Date(d.year, d.month, d.day + 1)
    else if d.month < 12 then Date(d.year, d.month + 1, 1)
    else Date(d.year + 1, 1, 1)
  }

  /** The day before `d`, borrowing from the previous month and year. */
  function PrevDay(d: Date): (r: Date)
    requires ValidDate(d)
    ensures ValidDate(r)
  {
    if d.day > 1 then Date(d.year, d.month, d.day - 1)
    else if d.month > 1 then Date(d.year, d.month - 1, DaysInMonth(d.year, d.month - 1))
    else Date(d.year - 1, 12, 31)
  }

  /** `d` moved by `k` days, one day at a time. */
  function ShiftDays(d: Date, k: int): (r: Date)
    requires ValidDate(d)
    ensures ValidDate(r)
    decreases if k < 0 then -k else k
  {
    if k == 0 then d
    else if k > 0 then ShiftDays(NextDay(d), k - 1)
    else ShiftDays(PrevDay(d), k + 1)
  }

  /**
   * `t` moved by `delta` seconds: the time of day wraps modulo a day and the
   * whole days carry into the date (Python's datetime + timedelta).
   */
  function AddSeconds(t: DateTime, delta: int): (r: DateTime)
    requires WellFormed(t)
    ensures WellFormed(r)
  {
    var total := SecondOfDay(t) + delta;
    var sod := total % SecondsPerDay;
    var date := ShiftDays(t.date, total / SecondsPerDay);
    DateTime(date, sod / 3600, (sod % 3600) / 60, (sod % 3600) % 60)
  }

  // ---------------------------------------------------------------------
  // Calendar lemmas

  /** February has 29 days exactly in leap years; the other months never change. */
  lemma DaysInMonthLeap(y: int, m: int)
    requires 1 <= m <= 12
    ensures DaysInMonth(y, m) == 29 <==> m == 2 && IsLeapYear(y)
    ensures m != 2 ==> DaysInMonth(y, m) == DaysInMonth(y + 1, m)
  {
  }

  lemma DaysBeforeYearStep(y: int)
    ensures DaysBeforeYear(y + 1) == DaysBeforeYear(y) + DaysInYear(y)
  {
    var p := y - 1;
    assert y / 4 == p / 4 + (if y % 4 == 0 then 1 else 0);
    assert y / 100 == p / 100 + (if y % 100 == 0 then 1 else 0);
    assert y / 400 == p / 400 + (if y % 400 == 0 then 1 else 0);
  }

  lemma DaysBeforeMonthStep(y: int, m: int)
    requires 1 <= m < 12
    ensures DaysBeforeMonth(y, m + 1) == DaysBeforeMonth(y, m) + DaysInMonth(y, m)
  {
  }

  lemma DaysBeforeMonthLast(y: int)
    ensures DaysBeforeMonth(y, 12) + DaysInMonth(y, 12) == DaysInYear(y)
  {
  }

  /** Moving to the next day adds exactly one to the day number. */
  lemma NextDayNumber(d: Date)
    requires ValidDate(d)
    ensures DayNumber(NextDay(d)) == DayNumber(d) + 1
  {
    if d.day < DaysInMonth(d.year, d.month) {
    } else if d.month < 12 {
      DaysBeforeMonthStep(d.year, d.month);
    } else {
      DaysBeforeYearStep(d.year);
      DaysBeforeMonthLast(d.year);
    }
  }

  /** Moving to the previous day subtracts exactly one from the day number. */
  lemma PrevDayNumber(d: Date)
    requires ValidDate(d)
    ensures DayNumber(PrevDay(d)) == DayNumber(d) - 1
  {
    if d.day > 1 {
    } else if d.month > 1 {
      DaysBeforeMonthStep(d.year, d.month - 1);
    } else {
      DaysBeforeYearStep(d.year - 1);
      DaysBeforeMonthLast(d.year - 1);
    }
  }

  lemma {:induction false} ShiftDaysNumber(d: Date, k: int)
    requires ValidDate(d)
    ensures DayNumber(ShiftDays(d, k)) == DayNumber(d) + k
    decreases if k < 0 then -k else k
  {
    if k > 0 {
      NextDayNumber(d);
      ShiftDaysNumber(NextDay(d), k - 1);
    } else if k < 0 {
      PrevDayNumber(d);
      ShiftDaysNumber(PrevDay(d), k + 1);
    }
  }

  /** Adding `delta` seconds moves the denoted instant by exactly `delta`. */
  lemma AddSecondsInstant(t: DateTime, delta: int, offset: int)
    requires WellFormed(t)
    ensures Instant(AddSeconds(t, delta), offset) == Instant(t, offset) + delta
  {
    var total := SecondOfDay(t) + delta;
    var sod := total % SecondsPerDay;
    var days := total / SecondsPerDay;
    ShiftDaysNumber(t.date, days);
    var r := AddSeconds(t, delta);
    assert SecondOfDay(r) == sod by {
      assert sod == (sod / 3600) * 3600 + sod % 3600;
      assert sod % 3600 == ((sod % 3600) / 60) * 60 + (sod % 3600) % 60;
    }
    assert total == days * SecondsPerDay + sod;
  }

  lemma {:induction false} DaysBeforeYearMonotone(a: int, b: int)
    requires a <= b
    ensures DaysBeforeYear(a) + 365 * (b - a) <= DaysBeforeYear(b)
    decreases b - a
  {
    if a < b {
      DaysBeforeYearStep(a);
      DaysBeforeYearMonotone(a + 1, b);
    }
  }

  /** A date's day number lies within the days of its own year. */
  lemma DayNumberWithinYear(d: Date)
    requires ValidDate(d)
    ensures DaysBeforeYear(d.year) < DayNumber(d) <= DaysBeforeYear(d.year + 1)
  {
    DaysBeforeYearStep(d.year);
  }

  /** Distinct dates have distinct day numbers. */
  lemma DayNumberInjective(a: Date, b: Date)
    requires ValidDate(a) && ValidDate(b)
    requires DayNumber(a) == DayNumber(b)
    ensures a == b
  {
    DayNumberWithinYear(a);
    DayNumberWithinYear(b);
    if a.year < b.year {
      DaysBeforeYearMonotone(a.year + 1, b.year);
      assert false;
    } else if b.year < a.year {
      DaysBeforeYearMonotone(b.year + 1, a.year);
      assert false;
    }
  }

  /**
   * Read at one offset, distinct well-formed date-times denote distinct
   * instants: the instant determines the civil fields.
   */
  lemma InstantInjective(a: DateTime, b: DateTime, offset: int)
    requires WellFormed(a) && WellFormed(b)
    requires Instant(a, offset) == Instant(b, offset)
    ensures a == b
  {
    assert DayNumber(a.date) == DayNumber(b.date);
    DayNumberInjective(a.date, b.date);
  }
}
