/** The filter choices both dashboards offer above their report lists: the
    period select ('all', 'week', 'month', ...), the year select ('all' or a
    year), the cell-name select ('Todas' or a name) and the week test they
    share. */
module Filters {
  import opened Types

  /** The value of a period select. The admin select offers all, week,
      month, bimester, quarter, semester and year; the leader list also
      understands a month number ("1" to "12"); any other text is
      OtherPeriod. */
  datatype Period =
    | AllPeriods
    | Week
    | ThisMonth
    | Bimester
    | Quarter
    | Semester
    | Annual
    | MonthNumber(month: int)
    | OtherPeriod

  /** 'all', or a year written as the decimal text of that year. */
  datatype YearChoice = AllYears | InYear(year: int)

  /** 'Todas', or one cell name. */
  datatype NameChoice = AllNames | Named(name: string)

  function Abs(x: int): (r: nat)
    ensures r == x || r == -x
  {
    if x < 0 then -x else x
  }

  /** `Math.ceil(x / d)` for non-negative x. */
  function CeilDiv(x: nat, d: int): (r: nat)
    requires d > 0
    ensures d * r >= x
    ensures r > 0 ==> d * (r - 1) < x
  {
    (x + d - 1) / d
  }

  /** `Math.ceil(Math.abs(a - b) / 86400000) <= 7`. */
  predicate WithinWeek(a: Instant, b: Instant)
  {
    CeilDiv(Abs(a - b), MsPerDay) <= 7
  }

  /** The rounded-up day count is at most 7 exactly when the two instants
      are at most seven whole days apart. */
  lemma WithinWeekIff(a: Instant, b: Instant)
    ensures WithinWeek(a, b) <==> -7 * MsPerDay <= a - b <= 7 * MsPerDay
  {
    var r := CeilDiv(Abs(a - b), MsPerDay);
    if r <= 7 {
      assert MsPerDay * r <= MsPerDay * 7;
    } else {
      assert MsPerDay * (r - 1) >= MsPerDay * 7;
    }
  }

  /** `filterType === 'Todas' || type === filterType`. */
  predicate TypeMatches(choice: TypeChoice, t: CellType)
  {
    choice.Todas? || choice.cellType == t
  }

  /** `filterCell === 'Todas' || name === filterCell`. */
  predicate NameMatches(choice: NameChoice, name: string)
  {
    choice.AllNames? || choice.name == name
  }
}
