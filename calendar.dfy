/**
 * The proleptic Gregorian calendar as Python's `datetime.date` uses it: dates are
 * (year, month, day) values, `Ordinal` numbers them like `date.toordinal()`, and
 * `PrevDay`/`NextDay` are `date -/+ timedelta(days=1)`.  Timestamps are dates with
 * an hour and minute; `AddMinutes` is `+ pd.Timedelta(...)` for offsets under a day.
 */
module Calendar {

  datatype Date = Date(year: int, month: int, day: int)

  /** The earliest date Python's `datetime.date` can represent. */
  const MIN_DATE := Date(1, 1, 1)
  /** The latest year Python's `datetime.date` can represent. */
  const MAX_YEAR := 9999

  const MINUTES_PER_DAY := 1440

  predicate IsLeapYear(y: int) {
    y % 4 == 0 && (y % 100 != 0 || y % 400 == 0)
  }

  function DaysInYear(y: int): int {
    if IsLeapYear(y) then 366 else 365
  }

  function DaysInMonth(y: int, m: int): (n: int)
    requires 1 <= m <= 12
    ensures 28 <= n <= 31
  {
    if m == 2 then (if IsLeapYear(y) then 29 else 28)
    else if m == 4 || m == 6 || m == 9 || m == 11 then 30
    else 31
  }

  predicate ValidDate(d: Date) {
    1 <= d.year && 1 <= d.month <= 12 && 1 <= d.day <= DaysInMonth(d.year, d.month)
  }

  /** Days in the years 1 .. y-1. */
  function DaysBeforeYear(y: int): int
    requires 1 <= y
  {
    if y == 1 then 0 else DaysBeforeYear(y - 1) + DaysInYear(y - 1)
  }

  /** Days in the months 1 .. m-1 of year y. */
  function DaysBeforeMonth(y: int, m: int): int
    requires 1 <= m <= 13
  {
    if m == 1 then 0 else DaysBeforeMonth(y, m - 1) + DaysInMonth(y, m - 1)
  }

  /** Day number of a date, 0001-01-01 being day 1 (as `date.toordinal()`). */
  function Ordinal(d: Date): int
    requires ValidDate(d)
  {
    DaysBeforeYear(d.year) + DaysBeforeMonth(d.year, d.month) + d.day
  }

  /** The twelve months make up the whole year. */
  lemma {:induction false} MonthsFillYear(y: int)
    ensures DaysBeforeMonth(y, 13) == DaysInYear(y)
  {
    var feb := DaysInMonth(y, 2);
    assert DaysBeforeMonth(y, 2) == 31;
    assert DaysBeforeMonth(y, 3) == 31 + feb;
    assert DaysBeforeMonth(y, 4) == 62 + feb;
    assert DaysBeforeMonth(y, 5) == 92 + feb;
    assert DaysBeforeMonth(y, 6) == 123 + feb;
    assert DaysBeforeMonth(y, 7) == 153 + feb;
    assert DaysBeforeMonth(y, 8) == 184 + feb;
    assert DaysBeforeMonth(y, 9) == 215 + feb;
    assert DaysBeforeMonth(y, 10) == 245 + feb;
    assert DaysBeforeMonth(y, 11) == 276 + feb;
    assert DaysBeforeMonth(y, 12) == 306 + feb;
  }

  /** `d - timedelta(days=1)`; defined for every date but the first. */
  function PrevDay(d: Date): (p: Date)
    requires ValidDate(d) && d != MIN_DATE
    ensures ValidDate(p) && p.year <= d.year
  {
    if d.day > 1 then Date(d.year, d.month, d.day - 1)
    else if d.month > 1 then Date(d.year, d.month - 1, DaysInMonth(d.year, d.month - 1))
    else Date(d.year - 1, 12, 31)
  }

  /** `d + timedelta(days=1)`. */
  function NextDay(d: Date): (n: Date)
    requires ValidDate(d)
    ensures ValidDate(n) && n.year >= d.year
  {
    if d.day < DaysInMonth(d.year, d.month) then Date(d.year, d.month, d.day + 1)
    else if d.month < 12 then Date(d.year, d.month + 1, 1)
    else Date(d.year + 1, 1, 1)
  }

  /** The previous day is exactly one day number earlier. */
  lemma PrevDayOrdinal(d: Date)
    requires ValidDate(d) && d != MIN_DATE
    ensures Ordinal(PrevDay(d)) == Ordinal(d) - 1
  {
    if d.day == 1 && d.month == 1 {
      MonthsFillYear(d.year - 1);
    }
  }

  /** The next day is exactly one day number later. */
  lemma NextDayOrdinal(d: Date)
    requires ValidDate(d)
    ensures Ordinal(NextDay(d)) == Ordinal(d) + 1
  {
    if d.day == DaysInMonth(d.year, d.month) && d.month == 12 {
      MonthsFillYear(d.year);
    }
  }

  /** Stepping back a day and then forward again returns the date itself. */
  lemma NextDayUndoesPrevDay(d: Date)
    requires ValidDate(d) && d != MIN_DATE
    ensures NextDay(PrevDay(d)) == d
  {
  }

  /** A wall-clock timestamp with minute resolution. */
  datatype DateTime = DateTime(date: Date, hour: int, minute: int)

  predicate ValidDateTime(t: DateTime) {
    ValidDate(t.date) && 0 <= t.hour < 24 && 0 <= t.minute < 60
  }

  /** Minutes since 0001-01-01 00:00 minus one day; the time line `AddMinutes` moves along. */
  function Ticks(t: DateTime): int
    requires ValidDateTime(t)
  {
    Ordinal(t.date) * MINUTES_PER_DAY + t.hour * 60 + t.minute
  }

  /** `t + pd.Timedelta(n minutes)` for an offset of less than a day, carrying into the next day. */
  function AddMinutes(t: DateTime, n: int): (r: DateTime)
    requires ValidDateTime(t) && 0 <= n < MINUTES_PER_DAY
    ensures ValidDateTime(r) && Ticks(r) == Ticks(t) + n
  {
    var m := t.hour * 60 + t.minute + n;
    if m < MINUTES_PER_DAY then
      DateTime(t.date, m / 60, m % 60)
    else
      NextDayOrdinal(t.date);
      DateTime(NextDay(t.date), (m - MINUTES_PER_DAY) / 60, (m - MINUTES_PER_DAY) % 60)
  }
}
