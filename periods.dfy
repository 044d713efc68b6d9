/** The snapshot month of the KPI endpoints and the month before it.

    The latest period is the largest YEAR in the table and, within that
    year, the largest MONTH.  The previous period steps back one calendar
    month, wrapping January to December of the year before. */
module Periods {
  import opened Table

  /** max() of a non-empty column. */
  function Max(xs: seq<int>): (m: int)
    requires |xs| > 0
    ensures exists i :: 0 <= i < |xs| && xs[i] == m
    ensures forall i :: 0 <= i < |xs| ==> xs[i] <= m
    decreases |xs|
  {
    if |xs| == 1 then xs[0]
    else
      var rest := Max(xs[1..]);
      assert forall i :: 1 <= i < |xs| ==> xs[i] == xs[1..][i - 1];
      if xs[0] >= rest then xs[0] else rest
  }

  function YearColumn(rows: seq<Row>): (ys: seq<int>)
    ensures |ys| == |rows| && forall i :: 0 <= i < |rows| ==> ys[i] == rows[i].year
  {
    seq(|rows|, i requires 0 <= i < |rows| => rows[i].year)
  }

  function MonthColumn(rows: seq<Row>): (ms: seq<int>)
    ensures |ms| == |rows| && forall i :: 0 <= i < |rows| ==> ms[i] == rows[i].month
  {
    seq(|rows|, i requires 0 <= i < |rows| => rows[i].month)
  }

  /** df['YEAR'].max() */
  function LatestYear(rows: seq<Row>): int
    requires |rows| > 0
  {
    Max(YearColumn(rows))
  }

  /** The rows of one year: df[df['YEAR'] == year]. */
  function RowsOfYear(rows: seq<Row>, year: int): seq<Row> {
    Filter(rows, (r: Row) => r.year == year)
  }

  /** The latest year occurs in the table and no row is later. */
  lemma LatestYearFacts(rows: seq<Row>)
    requires |rows| > 0
    ensures exists i :: 0 <= i < |rows| && rows[i].year == LatestYear(rows)
    ensures forall i :: 0 <= i < |rows| ==> rows[i].year <= LatestYear(rows)
  {
    var ys := YearColumn(rows);
    var i :| 0 <= i < |ys| && ys[i] == Max(ys);
    assert rows[i].year == LatestYear(rows);
  }

  /** df[df['YEAR'] == year]['MONTH'].max() for a year that occurs. */
  function LatestMonth(rows: seq<Row>, year: int): int
    requires |RowsOfYear(rows, year)| > 0
  {
    Max(MonthColumn(RowsOfYear(rows, year)))
  }

  /** The latest month of a year occurs in that year and no row of that year is later. */
  lemma LatestMonthFacts(rows: seq<Row>, year: int)
    requires |RowsOfYear(rows, year)| > 0
    ensures exists i :: 0 <= i < |rows| && rows[i].year == year && rows[i].month == LatestMonth(rows, year)
    ensures forall i :: 0 <= i < |rows| && rows[i].year == year ==> rows[i].month <= LatestMonth(rows, year)
  {
    var inYear := RowsOfYear(rows, year);
    var ms := MonthColumn(inYear);
    var j :| 0 <= j < |ms| && ms[j] == Max(ms);
    assert inYear[j] in inYear;
    var i :| 0 <= i < |rows| && rows[i] == inYear[j];
    assert rows[i].year == year && rows[i].month == LatestMonth(rows, year);
    forall k | 0 <= k < |rows| && rows[k].year == year
      ensures rows[k].month <= LatestMonth(rows, year)
    {
      assert rows[k] in inYear;
      var l :| 0 <= l < |inYear| && inYear[l] == rows[k];
      assert ms[l] == rows[k].month;
    }
  }

  /** (latest_year, df[df['YEAR'] == latest_year]['MONTH'].max()) */
  function LatestPeriod(rows: seq<Row>): (p: Period)
    requires |rows| > 0
    ensures exists i :: 0 <= i < |rows| && PeriodOf(rows[i]) == p
    ensures forall i :: 0 <= i < |rows| ==> !PeriodLt(p, PeriodOf(rows[i]))
  {
    LatestYearFacts(rows);
    var y := LatestYear(rows);
    var i :| 0 <= i < |rows| && rows[i].year == y;
    assert rows[i] in RowsOfYear(rows, y);
    LatestMonthFacts(rows, y);
    Period(y, LatestMonth(rows, y))
  }

  /** One calendar month back; January goes to December of the previous year. */
  function PreviousPeriod(p: Period): (q: Period)
    ensures PeriodLt(q, p)
    ensures 1 <= p.month <= 12 ==> 1 <= q.month <= 12 && MonthIndex(q) + 1 == MonthIndex(p)
  {
    if p.month == 1 then Period(p.year - 1, 12) else Period(p.year, p.month - 1)
  }

  /** Months counted from the start of year 0, for periods with a calendar month 1..12. */
  function MonthIndex(p: Period): int {
    p.year * 12 + (p.month - 1)
  }

  predicate IsCalendarMonth(p: Period) {
    1 <= p.month <= 12
  }

  /** On calendar months the chronological order is the order of the month index. */
  lemma PeriodLtIsMonthIndexOrder(p: Period, q: Period)
    requires IsCalendarMonth(p) && IsCalendarMonth(q)
    ensures PeriodLt(p, q) <==> MonthIndex(p) < MonthIndex(q)
  {
    if p.year < q.year {
      assert MonthIndex(p) <= p.year * 12 + 11 < (p.year + 1) * 12 <= MonthIndex(q);
    } else if p.year > q.year {
      assert MonthIndex(q) <= q.year * 12 + 11 < (q.year + 1) * 12 <= MonthIndex(p);
    }
  }

  /** The previous period is the one immediately before: no calendar month lies between them. */
  lemma NothingBetweenPreviousAndLatest(p: Period, q: Period)
    requires IsCalendarMonth(p) && IsCalendarMonth(q)
    ensures !(PeriodLt(PreviousPeriod(p), q) && PeriodLt(q, p))
  {
    PeriodLtIsMonthIndexOrder(PreviousPeriod(p), q);
    PeriodLtIsMonthIndexOrder(q, p);
  }

  /** One calendar month forward: the inverse of PreviousPeriod. */
  function NextPeriod(p: Period): (q: Period)
    ensures IsCalendarMonth(p) ==> IsCalendarMonth(q) && PreviousPeriod(q) == p
  {
    if p.month == 12 then Period(p.year + 1, 1) else Period(p.year, p.month + 1)
  }

  /** Stepping back a month and forward again returns to the same calendar month. */
  lemma NextOfPrevious(p: Period)
    requires IsCalendarMonth(p)
    ensures NextPeriod(PreviousPeriod(p)) == p
  {
  }
}
