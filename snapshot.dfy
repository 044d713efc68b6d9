/** The month-over-month KPI snapshot shared by several backends.

    The same computation appears in backend/app_stable.py,
    backend/app_new.py, backend/app_minimal.py and backend/test_simple.py:
    take the latest period, step back one month, and sum RETAIL SALES
    and WAREHOUSE SALES over exactly the rows of each of the two periods. */
module Snapshot {
  import opened Table
  import opened Periods
  import opened Labels

  datatype Kpi = Kpi(
    labels: seq<string>,
    currentName: string,
    currentValues: seq<real>,
    previousName: string,
    previousValues: seq<real>)

  const KpiLabels := ["Retail Sales", "Warehouse Sales"]

  /** [retail, warehouse] sums over the rows of one period (zero when it has none). */
  function PeriodValues(rows: seq<Row>, p: Period): (vs: seq<real>)
    ensures |vs| == 2
    ensures vs[0] == SumWhere(rows, PeriodOf, p).retail && vs[1] == SumWhere(rows, PeriodOf, p).warehouse
  {
    var a := SumWhere(rows, PeriodOf, p);
    [a.retail, a.warehouse]
  }

  /** A period without rows shows [0, 0]. */
  lemma PeriodValuesOfAbsentPeriod(rows: seq<Row>, p: Period)
    requires forall i :: 0 <= i < |rows| ==> PeriodOf(rows[i]) != p
    ensures PeriodValues(rows, p) == [0.0, 0.0]
  {
    SumWhereAbsent(rows, PeriodOf, p);
  }

  /** The snapshot of a non-empty table. */
  function KpiOf(rows: seq<Row>): (k: Kpi)
    requires |rows| > 0
    ensures k.labels == KpiLabels && |k.currentValues| == 2 && |k.previousValues| == 2
    ensures k.currentName == PeriodLabel(LatestPeriod(rows))
    ensures k.currentValues == PeriodValues(rows, LatestPeriod(rows))
    ensures k.previousName == PeriodLabel(PreviousPeriod(LatestPeriod(rows)))
    ensures k.previousValues == PeriodValues(rows, PreviousPeriod(LatestPeriod(rows)))
  {
    var p := LatestPeriod(rows);
    var q := PreviousPeriod(p);
    Kpi(KpiLabels, PeriodLabel(p), PeriodValues(rows, p), PeriodLabel(q), PeriodValues(rows, q))
  }
}
