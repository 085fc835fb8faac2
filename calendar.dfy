/**
 * The reference-price calendar: the spreadsheet the scripts load into a table, seen
 * here as a sequence of rows in table order, and the three lookups the pricing rule
 * makes on it.
 */
module Calendar {
  import opened Common

  /**
   * One row of the calendar table: the reference prices for `date` (a day number)
   * and one point of the historical pacing curve: the occupancy reached
   * `daysDiff` days (or, for same-day rows, `hoursDiff` hours) ahead.
   */
  datatype Row = Row(
    date: int,
    minPrice: real,
    targetPrice: real,
    maxPrice: real,
    sumOccupancyDaysAhead: real,
    daysDiff: int,
    hoursDiff: int)

  /** The integer columns the table is filtered on. */
  datatype Column = Date | DaysDiff | HoursDiff

  function Key(row: Row, col: Column): int
  {
    match col
    case Date => row.date
    case DaysDiff => row.daysDiff
    case HoursDiff => row.hoursDiff
  }

  /**
   * Position of the first row whose `col` equals `v`: the row that
   * `df.loc[df[col] == v]` followed by `.iloc[0]` / `.values[0]` reads, or
   * `None` when that filter is empty.
   */
  function FirstMatch(cal: seq<Row>, col: Column, v: int): (r: Option<nat>)
    ensures r.Some? ==> r.value < |cal| && Key(cal[r.value], col) == v
    ensures r.Some? ==> forall j :: 0 <= j < r.value ==> Key(cal[j], col) != v
    ensures r.None? <==> forall j :: 0 <= j < |cal| ==> Key(cal[j], col) != v
  {
    if |cal| == 0 then None
    else if Key(cal[0], col) == v then Some(0)
    else
      match FirstMatch(cal[1..], col, v)
      case None => None
      case Some(i) => Some(i + 1)
  }

  /** The `diff_occ` column: how far a row's planned occupancy is from `occ`. */
  function Distance(row: Row, occ: real): real
  {
    Abs(row.sumOccupancyDaysAhead - occ)
  }

  /**
   * `idxmin` over `diff_occ`: the position of the row whose planned occupancy is
   * closest to `occ`, the first one when several are equally close.
   */
  function Closest(cal: seq<Row>, occ: real): (r: nat)
    requires |cal| > 0
    ensures r < |cal|
    ensures forall j :: 0 <= j < |cal| ==> Distance(cal[r], occ) <= Distance(cal[j], occ)
    ensures forall j :: 0 <= j < r ==> Distance(cal[j], occ) > Distance(cal[r], occ)
  {
    if |cal| == 1 then 0
    else
      var k := Closest(cal[..|cal| - 1], occ);
      if Distance(cal[|cal| - 1], occ) < Distance(cal[k], occ) then |cal| - 1 else k
  }
}
