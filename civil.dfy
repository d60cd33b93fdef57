/** Proleptic Gregorian civil dates as JavaScript's `Date` sees them in UTC.
    Months are numbered 0..11 as `getMonth()` numbers them.  A date is kept
    by its civil fields; `TimeValue` gives its milliseconds since
    1970-01-01T00:00:00Z. */
module Civil {

  const MS_PER_DAY: int := 86400000

  predicate IsLeapYear(y: int) {
    (y % 4 == 0 && y % 100 != 0) || y % 400 == 0
  }

  /** Number of days of month `m` (0-based) of year `y`. */
  function DaysInMonth(y: int, m: int): (n: int)
    requires 0 <= m < 12
    ensures 28 <= n <= 31
    ensures m == 1 ==> (n == 29 <==> IsLeapYear(y))
  {
    if m == 1 then (if IsLeapYear(y) then 29 else 28)
    else if m == 3 || m == 5 || m == 8 || m == 10 then 30
    else 31
  }

  /** Leap years strictly before year `y`, counted from a fixed origin. */
  function LeapYearsBefore(y: int): int {
    (y - 1) / 4 - (y - 1) / 100 + (y - 1) / 400
  }

  /** Days from 1970-01-01 to January 1st of year `y`. */
  function DaysBeforeYear(y: int): int {
    365 * (y - 1970) + LeapYearsBefore(y) - LeapYearsBefore(1970)
  }

  /** Days from January 1st of year `y` to the first day of month `m`. */
  function DaysBeforeMonth(y: int, m: int): int
    requires 0 <= m <= 12
  {
    if m == 0 then 0 else DaysBeforeMonth(y, m - 1) + DaysInMonth(y, m - 1)
  }

  /** ECMAScript's MakeDay for an already reduced month: the day number of
      day-of-month `d` of month `m`, where `d` may lie outside the month
      (day 0 is the last day of the previous month, day 32 of January is
      February 1st). */
  function DayNumber(y: int, m: int, d: int): int
    requires 0 <= m < 12
  {
    DaysBeforeYear(y) + DaysBeforeMonth(y, m) + d - 1
  }

  /** Going from `x - 1` to `x` passes one more multiple of 4, 100 or 400 exactly when `x` is such a multiple. */
  lemma MultipleStep(x: int)
    ensures x / 4 - (x - 1) / 4 == (if x % 4 == 0 then 1 else 0)
    ensures x / 100 - (x - 1) / 100 == (if x % 100 == 0 then 1 else 0)
    ensures x / 400 - (x - 1) / 400 == (if x % 400 == 0 then 1 else 0)
  {
  }

  /** A year is 366 days long exactly when it is a leap year. */
  lemma {:induction false} YearLength(y: int)
    ensures DaysBeforeYear(y + 1) - DaysBeforeYear(y) == (if IsLeapYear(y) then 366 else 365)
  {
    MultipleStep(y);
  }

  /** The month table adds up to the year length. */
  lemma MonthTable(y: int)
    ensures DaysBeforeMonth(y, 12) == (if IsLeapYear(y) then 366 else 365)
  {
    var f := if IsLeapYear(y) then 1 else 0;
    assert DaysBeforeMonth(y, 1) == 31;
    assert DaysBeforeMonth(y, 2) == 59 + f;
    assert DaysBeforeMonth(y, 3) == 90 + f;
    assert DaysBeforeMonth(y, 4) == 120 + f;
    assert DaysBeforeMonth(y, 5) == 151 + f;
    assert DaysBeforeMonth(y, 6) == 181 + f;
    assert DaysBeforeMonth(y, 7) == 212 + f;
    assert DaysBeforeMonth(y, 8) == 243 + f;
    assert DaysBeforeMonth(y, 9) == 273 + f;
    assert DaysBeforeMonth(y, 10) == 304 + f;
    assert DaysBeforeMonth(y, 11) == 334 + f;
  }

  /** The day after the last day of December is January 1st of the next year. */
  lemma {:induction false} DecemberEnd(y: int)
    ensures DayNumber(y, 11, 31) + 1 == DayNumber(y + 1, 0, 1)
  {
    YearLength(y);
    MonthTable(y);
  }

  datatype DateTime = DateTime(year: int, month: int, day: int, msOfDay: int)

  /** The fields name a real calendar day and a time within it. */
  predicate Valid(d: DateTime) {
    0 <= d.month < 12 && 1 <= d.day <= DaysInMonth(d.year, d.month) && 0 <= d.msOfDay < MS_PER_DAY
  }

  type CivilDate = d: DateTime | Valid(d) witness DateTime(1970, 0, 1, 0)

  /** Milliseconds since the epoch (`getTime()`), also for a day-of-month
      outside the month, as MakeDate computes it before normalising. */
  function TimeValue(d: DateTime): int
    requires 0 <= d.month < 12
  {
    DayNumber(d.year, d.month, d.day) * MS_PER_DAY + d.msOfDay
  }

  /** The time of day is the remainder of the time value: two dates of the
      same day differ by less than one day. */
  lemma TimeOfDay(d: DateTime)
    requires Valid(d)
    ensures TimeValue(d) / MS_PER_DAY == DayNumber(d.year, d.month, d.day)
    ensures TimeValue(d) % MS_PER_DAY == d.msOfDay
  {
  }

  /** `new Date(y, m, day)` with the hours given as `ms`, and equally the
      setters `setMonth(m)` and `setDate(day)`: month `m` may be any integer
      and carries into the year; `day` 0 is the last day of the previous
      month and a day past the end of the month rolls into the next one.
      Every call site passes a day between 0 and 31. */
  function NewDate(y: int, m: int, day: int, ms: int): (r: DateTime)
    requires 0 <= day <= 31 && 0 <= ms < MS_PER_DAY
    ensures Valid(r)
    ensures 1 <= day <= DaysInMonth(y + m / 12, m % 12) ==> r == DateTime(y + m / 12, m % 12, day, ms)
  {
    var y1, m1 := y + m / 12, m % 12;
    if day == 0 then
      if m1 == 0 then
        DateTime(y1 - 1, 11, 31, ms)
      else
        DateTime(y1, m1 - 1, DaysInMonth(y1, m1 - 1), ms)
    else if day <= DaysInMonth(y1, m1) then
      DateTime(y1, m1, day, ms)
    else
      DateTime(y1, m1 + 1, day - DaysInMonth(y1, m1), ms)
  }

  /** The time value of `new Date(y, m, day)` is that of the fields as
      given, before they are normalised. */
  lemma NewDateTime(y: int, m: int, day: int, ms: int)
    requires 0 <= day <= 31 && 0 <= ms < MS_PER_DAY
    ensures TimeValue(NewDate(y, m, day, ms)) == DayNumber(y + m / 12, m % 12, day) * MS_PER_DAY + ms
  {
    var r := NewDate(y, m, day, ms);
    NewDateDay(y, m, day, ms);
    assert TimeValue(r) == DayNumber(r.year, r.month, r.day) * MS_PER_DAY + ms;
  }

  /** The day number of `new Date(y, m, day)` is that of the fields as given. */
  lemma NewDateDay(y: int, m: int, day: int, ms: int)
    requires 0 <= day <= 31 && 0 <= ms < MS_PER_DAY
    ensures var r := NewDate(y, m, day, ms); DayNumber(r.year, r.month, r.day) == DayNumber(y + m / 12, m % 12, day)
  {
    var y1, m1 := y + m / 12, m % 12;
    if day == 0 {
      if m1 == 0 {
        DecemberEnd(y1 - 1);
      } else {
        assert DaysBeforeMonth(y1, m1) == DaysBeforeMonth(y1, m1 - 1) + DaysInMonth(y1, m1 - 1);
      }
    } else if day > DaysInMonth(y1, m1) {
      assert DaysBeforeMonth(y1, m1 + 1) == DaysBeforeMonth(y1, m1) + DaysInMonth(y1, m1);
    }
  }

  /** Day 0 of a month after January is the last day of the month before. */
  lemma NewDateDayZero(y: int, m: int, ms: int)
    requires 1 <= m < 12 && 0 <= ms < MS_PER_DAY
    ensures NewDate(y, m, 0, ms) == DateTime(y, m - 1, DaysInMonth(y, m - 1), ms)
  {
    assert m / 12 == 0 && m % 12 == m;
  }

  /** A day past the end of a month rolls into the following month, which
      always lies in the same year since December has 31 days. */
  lemma NewDateOverflow(y: int, m: int, day: int, ms: int)
    requires DaysInMonth(y + m / 12, m % 12) < day <= 31 && 0 <= ms < MS_PER_DAY
    ensures m % 12 < 11
    ensures NewDate(y, m, day, ms) == DateTime(y + m / 12, m % 12 + 1, day - DaysInMonth(y + m / 12, m % 12), ms)
  {
  }

  /** `d.setMonth(m)`. */
  function SetMonth(d: CivilDate, m: int): CivilDate {
    NewDate(d.year, m, d.day, d.msOfDay)
  }

  /** `setMonth(m)` keeps the day of month and the time of day, with the
      month carried into the year, before normalising. */
  lemma SetMonthTime(d: CivilDate, m: int)
    ensures TimeValue(SetMonth(d, m)) == DayNumber(d.year + m / 12, m % 12, d.day) * MS_PER_DAY + d.msOfDay
  {
    NewDateTime(d.year, m, d.day, d.msOfDay);
  }

  /** `d.setDate(day)`. */
  function SetDate(d: CivilDate, day: int): CivilDate
    requires 0 <= day <= 31
  {
    NewDate(d.year, d.month, day, d.msOfDay)
  }

  /** `setDate(day)` sets the day within the date's own month, before
      normalising. */
  lemma SetDateTime(d: CivilDate, day: int)
    requires 0 <= day <= 31
    ensures TimeValue(SetDate(d, day)) == DayNumber(d.year, d.month, day) * MS_PER_DAY + d.msOfDay
  {
    NewDateTime(d.year, d.month, day, d.msOfDay);
    assert d.month / 12 == 0 && d.month % 12 == d.month;
    assert DayNumber(d.year + d.month / 12, d.month % 12, day) == DayNumber(d.year, d.month, day);
  }

  /** `getDay()`: 0 is Sunday; 1970-01-01 was a Thursday. */
  function WeekDay(d: DateTime): (w: int)
    requires 0 <= d.month < 12
    ensures 0 <= w < 7
  {
    (DayNumber(d.year, d.month, d.day) + 4) % 7
  }

  /** `Math.ceil(a / b)` for a positive divisor. */
  function CeilDiv(a: int, b: int): (q: int)
    requires b > 0
    ensures b * (q - 1) < a <= b * q
  {
    -((-a) / b)
  }

  /** Whole days from `now` up to `t`, rounded up: `Math.ceil((t - now) / 86400000)`. */
  function DaysUntil(t: int, now: int): (days: int)
    ensures MS_PER_DAY * (days - 1) < t - now <= MS_PER_DAY * days
  {
    CeilDiv(t - now, MS_PER_DAY)
  }
}
