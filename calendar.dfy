/** The proleptic Gregorian calendar of Python's `datetime.date`: dates, the day after a date,
    adding whole days, date order, and the clock time of day in seconds. */
module Calendar {

  predicate IsLeap(year: int) {
    year % 4 == 0 && (year % 100 != 0 || year % 400 == 0)
  }

  function DaysInMonth(year: int, month: int): (n: nat)
    requires 1 <= month <= 12
    ensures 28 <= n <= 31
  {
    if month == 2 then (if IsLeap(year) then 29 else 28)
    else if month == 4 || month == 6 || month == 9 || month == 11 then 30
    else 31
  }

  function YearLength(year: int): nat {
    if IsLeap(year) then 366 else 365
  }

  datatype Date = Date(year: int, month: int, day: int)

  /** A date `datetime.date` accepts (the model sets no upper bound on the year). */
  predicate ValidDate(d: Date) {
    1 <= d.year && 1 <= d.month <= 12 && 1 <= d.day <= DaysInMonth(d.year, d.month)
  }

  /** The dates a `datetime.date` can hold. */
  type CalendarDate = d: Date | ValidDate(d) witness Date(1, 1, 1)

  /** Python's date comparison `a < b`: by year, then month, then day. */
  predicate DateBefore(a: Date, b: Date) {
    || a.year < b.year
    || (a.year == b.year && a.month < b.month)
    || (a.year == b.year && a.month == b.month && a.day < b.day)
  }

  lemma DateBeforeTransitive(a: Date, b: Date, c: Date)
    requires DateBefore(a, b) && DateBefore(b, c)
    ensures DateBefore(a, c)
  {
  }

  /** `d + timedelta(days=1)`. */
  function NextDate(d: CalendarDate): (n: CalendarDate)
    ensures DateBefore(d, n)
  {
    if d.day < DaysInMonth(d.year, d.month) then Date(d.year, d.month, d.day + 1)
    else if d.month < 12 then Date(d.year, d.month + 1, 1)
    else Date(d.year + 1, 1, 1)
  }

  /** `d + timedelta(days=k)`. */
  function AddDays(d: CalendarDate, k: nat): CalendarDate
  {
    if k == 0 then d else NextDate(AddDays(d, k - 1))
  }

  // ---------------------------------------------------------------------------------------------
  // Day numbers: an independent count of days, against which NextDate and AddDays are checked.

  /** Days in the years before `year`, counted from 1 January of year 1. */
  function DaysBeforeYear(year: int): nat
    requires 1 <= year
  {
    if year == 1 then 0 else DaysBeforeYear(year - 1) + YearLength(year - 1)
  }

  /** Days in the months of `year` before `month`. */
  function DaysBeforeMonth(year: int, month: int): nat
    requires 1 <= month <= 13
  {
    if month == 1 then 0 else DaysBeforeMonth(year, month - 1) + DaysInMonth(year, month - 1)
  }

  /** The proleptic Gregorian ordinal of a date (`date.toordinal()`): 1 January of year 1 is 1. */
  function DayNumber(d: CalendarDate): int
  {
    DaysBeforeYear(d.year) + DaysBeforeMonth(d.year, d.month) + d.day
  }

  lemma MonthsFillYear(year: int)
    ensures DaysBeforeMonth(year, 13) == YearLength(year)
  {
    assert DaysBeforeMonth(year, 2) == 31;
    assert DaysBeforeMonth(year, 3) == 31 + DaysInMonth(year, 2);
    assert DaysBeforeMonth(year, 4) == DaysBeforeMonth(year, 3) + 31;
    assert DaysBeforeMonth(year, 5) == DaysBeforeMonth(year, 3) + 61;
    assert DaysBeforeMonth(year, 6) == DaysBeforeMonth(year, 3) + 92;
    assert DaysBeforeMonth(year, 7) == DaysBeforeMonth(year, 3) + 122;
    assert DaysBeforeMonth(year, 8) == DaysBeforeMonth(year, 3) + 153;
    assert DaysBeforeMonth(year, 9) == DaysBeforeMonth(year, 3) + 184;
    assert DaysBeforeMonth(year, 10) == DaysBeforeMonth(year, 3) + 214;
    assert DaysBeforeMonth(year, 11) == DaysBeforeMonth(year, 3) + 245;
    assert DaysBeforeMonth(year, 12) == DaysBeforeMonth(year, 3) + 275;
  }

  /** The day after a date is the next day number: NextDate neither skips nor repeats a day. */
  lemma NextDateCounts(d: CalendarDate)
    ensures DayNumber(NextDate(d)) == DayNumber(d) + 1
  {
    if d.day == DaysInMonth(d.year, d.month) && d.month == 12 {
      MonthsFillYear(d.year);
    }
  }

  /** Adding k days moves the day number by exactly k. */
  lemma {:induction false} AddDaysCounts(d: CalendarDate, k: nat)
    ensures DayNumber(AddDays(d, k)) == DayNumber(d) + k
  {
    if k > 0 {
      AddDaysCounts(d, k - 1);
      NextDateCounts(AddDays(d, k - 1));
    }
  }

  /** Adding more days gives a strictly later date. */
  lemma {:induction false} AddDaysIncreasing(d: CalendarDate, j: nat, k: nat)
    requires j < k
    ensures DateBefore(AddDays(d, j), AddDays(d, k))
  {
    if j < k - 1 {
      AddDaysIncreasing(d, j, k - 1);
      DateBeforeTransitive(AddDays(d, j), AddDays(d, k - 1), AddDays(d, k));
    }
  }

  // ---------------------------------------------------------------------------------------------
  // Time of day

  const SecondsPerDay := 86400

  /** A `datetime.time` with whole seconds, as seconds since midnight. */
  type TimeOfDay = t: nat | t < SecondsPerDay

  function Hour(t: TimeOfDay): (h: nat) ensures h < 24 { t / 3600 }

  function Minute(t: TimeOfDay): (m: nat) ensures m < 60 { t / 60 % 60 }

  function Second(t: TimeOfDay): (s: nat) ensures s < 60 { t % 60 }

  lemma ClockParts(t: TimeOfDay)
    ensures Hour(t) * 3600 + Minute(t) * 60 + Second(t) == t
  {
  }

  /** A date with a time of day: `datetime.combine(date, time)`. */
  datatype Instant = Instant(date: CalendarDate, time: TimeOfDay)

  /** The instant as a count of seconds: its day number times 86400, plus its time of day. */
  function Seconds(x: Instant): int {
    DayNumber(x.date) * SecondsPerDay + x.time
  }

  /** Python's datetime comparison `a < b`: by date, then by time of day. */
  predicate InstantBefore(a: Instant, b: Instant) {
    DateBefore(a.date, b.date) || (a.date == b.date && a.time < b.time)
  }

  predicate InstantAtMost(a: Instant, b: Instant) {
    !InstantBefore(b, a)
  }
}
