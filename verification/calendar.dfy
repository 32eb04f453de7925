/** The proleptic Gregorian calendar as JavaScript's local-time Date methods
    see it: `getFullYear`, `getMonth` (0-11), `getDate` and `getDay`
    (0 = Sunday) of a day number, and the instants the dashboards build
    from a date ('T12:00:00' noon, `setHours(0, 0, 0, 0)` midnight).
    Daylight-saving shifts are not modelled: every day has 24 hours. */
module Calendar {
  import opened Types

  predicate IsLeapYear(y: int)
  {
    (y % 4 == 0 && y % 100 != 0) || y % 400 == 0
  }

  function DaysInYear(y: int): int
  {
    if IsLeapYear(y) then 366 else 365
  }

  function DaysInMonth(y: int, m: int): (n: int)
    requires 0 <= m < 12
    ensures 28 <= n <= 31
  {
    if m == 1 then (if IsLeapYear(y) then 29 else 28)
    else if m == 3 || m == 5 || m == 8 || m == 10 then 30
    else 31
  }

  /** Day number of 1 January of year y. */
  function YearStart(y: int): int
    decreases if y < 1970 then 1970 - y else y - 1970
  {
    if y == 1970 then 0
    else if y > 1970 then YearStart(y - 1) + DaysInYear(y - 1)
    else YearStart(y + 1) - DaysInYear(y)
  }

  lemma YearStartStep(y: int)
    ensures YearStart(y + 1) == YearStart(y) + DaysInYear(y)
  {
  }

  /** Days of year y before the first day of month m. */
  function MonthStart(y: int, m: int): (r: int)
    requires 0 <= m <= 12
    ensures 28 * m <= r <= 31 * m
  {
    if m == 0 then 0 else MonthStart(y, m - 1) + DaysInMonth(y, m - 1)
  }

  /** The twelve months fill the year exactly. */
  lemma MonthsFillYear(y: int)
    ensures MonthStart(y, 12) == DaysInYear(y)
  {
    assert MonthStart(y, 1) == 31;
    assert MonthStart(y, 2) == 31 + DaysInMonth(y, 1);
    assert MonthStart(y, 4) == MonthStart(y, 2) + 61;
    assert MonthStart(y, 6) == MonthStart(y, 4) + 61;
    assert MonthStart(y, 8) == MonthStart(y, 6) + 62;
    assert MonthStart(y, 10) == MonthStart(y, 8) + 61;
    assert MonthStart(y, 12) == MonthStart(y, 10) + 61;
  }

  /** The year holding day n of year y (n may be negative or past the end),
      and the offset of that day within it. */
  function LocateYear(y: int, n: int): (r: (int, int))
    ensures 0 <= r.1 < DaysInYear(r.0)
    ensures YearStart(r.0) + r.1 == YearStart(y) + n
    decreases if n < 0 then 366 - n else n
  {
    if n < 0 then
      YearStartStep(y - 1);
      LocateYear(y - 1, n + DaysInYear(y - 1))
    else if n >= DaysInYear(y) then
      YearStartStep(y);
      LocateYear(y + 1, n - DaysInYear(y))
    else
      (y, n)
  }

  /** The month (from m on) holding day n of month m, and the offset of that
      day within it. */
  function LocateMonth(y: int, m: int, n: int): (r: (int, int))
    requires 0 <= m < 12 && 0 <= n < DaysInYear(y) - MonthStart(y, m)
    ensures m <= r.0 < 12 && 0 <= r.1 < DaysInMonth(y, r.0)
    ensures MonthStart(y, r.0) + r.1 == MonthStart(y, m) + n
    decreases 12 - m
  {
    if n < DaysInMonth(y, m) then (m, n)
    else
      MonthsFillYear(y);
      LocateMonth(y, m + 1, n - DaysInMonth(y, m))
  }

  /** Year, month (0-11, as `getMonth`) and day of the month (as `getDate`). */
  datatype CivilDate = CivilDate(year: int, month: int, date: int)

  predicate ValidCivil(c: CivilDate)
  {
    0 <= c.month < 12 && 1 <= c.date <= DaysInMonth(c.year, c.month)
  }

  function DayFromCivil(c: CivilDate): Day
    requires 0 <= c.month < 12
  {
    YearStart(c.year) + MonthStart(c.year, c.month) + c.date - 1
  }

  /** The calendar date of a day number; DayFromCivil is its inverse. */
  function CivilFromDay(d: Day): (c: CivilDate)
    ensures ValidCivil(c)
    ensures DayFromCivil(c) == d
  {
    var yd := LocateYear(1970, d);
    MonthsFillYear(yd.0);
    var md := LocateMonth(yd.0, 0, yd.1);
    CivilDate(yd.0, md.0, md.1 + 1)
  }

  /** `getFullYear()`. */
  function Year(d: Day): int
  {
    CivilFromDay(d).year
  }

  /** `getMonth()`. */
  function Month(d: Day): (m: int)
    ensures 0 <= m < 12
  {
    CivilFromDay(d).month
  }

  /** `getDay()`: 0 is Sunday; 1 January 1970 was a Thursday. */
  function Weekday(d: Day): (w: int)
    ensures 0 <= w < 7
  {
    (d + 4) % 7
  }

  /** The calendar day an instant falls on. */
  function DayOf(t: Instant): Day
  {
    t / MsPerDay
  }

  /** `new Date(date + 'T12:00:00')`. */
  function Noon(d: Day): Instant
  {
    d * MsPerDay + 12 * MsPerHour
  }

  /** `setHours(0, 0, 0, 0)`. */
  function Midnight(d: Day): Instant
  {
    d * MsPerDay
  }

  lemma {:induction false} YearStartIncreasing(a: int, b: int)
    requires a < b
    ensures YearStart(a) + DaysInYear(a) <= YearStart(b)
    decreases b - a
  {
    YearStartStep(a);
    if a + 1 < b {
      YearStartIncreasing(a + 1, b);
    }
  }

  lemma {:induction false} MonthStartIncreasing(y: int, m1: int, m2: int)
    requires 0 <= m1 < m2 <= 12
    ensures MonthStart(y, m1) + DaysInMonth(y, m1) <= MonthStart(y, m2)
    decreases m2 - m1
  {
    if m1 + 1 < m2 {
      MonthStartIncreasing(y, m1 + 1, m2);
    }
  }

  /** A valid date lies inside its year. */
  lemma OffsetInYear(c: CivilDate)
    requires ValidCivil(c)
    ensures 0 <= MonthStart(c.year, c.month) + c.date - 1 < DaysInYear(c.year)
  {
    MonthsFillYear(c.year);
    MonthStartIncreasing(c.year, c.month, 12);
  }

  /** A day number has one year and one offset within that year. */
  lemma YearUnique(y1: int, a: int, y2: int, b: int)
    requires 0 <= a < DaysInYear(y1) && 0 <= b < DaysInYear(y2)
    requires YearStart(y1) + a == YearStart(y2) + b
    ensures y1 == y2 && a == b
  {
    if y1 < y2 {
      YearStartIncreasing(y1, y2);
    } else if y2 < y1 {
      YearStartIncreasing(y2, y1);
    }
  }

  /** A day of the year has one month and one offset within that month. */
  lemma MonthUnique(y: int, m1: int, a: int, m2: int, b: int)
    requires 0 <= m1 < 12 && 0 <= a < DaysInMonth(y, m1)
    requires 0 <= m2 < 12 && 0 <= b < DaysInMonth(y, m2)
    requires MonthStart(y, m1) + a == MonthStart(y, m2) + b
    ensures m1 == m2 && a == b
  {
    if m1 < m2 {
      MonthStartIncreasing(y, m1, m2);
    } else if m2 < m1 {
      MonthStartIncreasing(y, m2, m1);
    }
  }

  /** Conversely, every valid calendar date is the image of its day number:
      the two conversions are mutually inverse. */
  lemma CivilRoundTrip(c: CivilDate)
    requires ValidCivil(c)
    ensures CivilFromDay(DayFromCivil(c)) == c
  {
    var c2 := CivilFromDay(DayFromCivil(c));
    OffsetInYear(c);
    OffsetInYear(c2);
    YearUnique(c.year, MonthStart(c.year, c.month) + c.date - 1,
               c2.year, MonthStart(c2.year, c2.month) + c2.date - 1);
    MonthUnique(c.year, c.month, c.date - 1, c2.month, c2.date - 1);
  }

  /** Days within one instant's day map back to that day. */
  lemma DayOfInstant(d: Day, ms: int)
    requires 0 <= ms < MsPerDay
    ensures DayOf(d * MsPerDay + ms) == d
  {
  }
}
