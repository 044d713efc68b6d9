/** The two month-by-month endpoints of backend/app_stable.py: the sales/transfer ratio and the
    month-over-month growth of total volume.

    Both group the table by (YEAR, MONTH); the groups come out in calendar order and carry the
    label "YYYY-MM".  The per-month divisions are not guarded, so a month ratio or growth
    percentage is an IEEE value (Floats.Float) passed through fillna(0). */
module StableTrends {
  import opened Order
  import opened Floats
  import opened Table
  import opened Ranking
  import opened Labels
  import opened Ratios
  import opened Tiers
  import opened Responses

  /** df.groupby(['YEAR', 'MONTH']), summed. */
  function PeriodGroups(rows: seq<Row>): seq<Group<Period>> {
    GroupBy(rows, PeriodOf, RowAgg, PeriodLt)
  }

  /** A month group sums exactly the rows of its month, and that month occurs. */
  lemma PeriodGroupFacts(rows: seq<Row>, g: Group<Period>)
    requires g in PeriodGroups(rows)
    ensures g.agg == SumWhere(rows, PeriodOf, g.key)
    ensures exists i :: 0 <= i < |rows| && PeriodOf(rows[i]) == g.key
  {
    GroupByKeysOccur(rows, PeriodOf, RowAgg, PeriodLt);
  }

  /** The month groups are in strictly increasing (YEAR, MONTH) order. */
  lemma PeriodGroupsChronological(rows: seq<Row>)
    ensures var gs := PeriodGroups(rows);
      forall i, j :: 0 <= i < j < |gs| ==> PeriodLt(gs[i].key, gs[j].key)
  {
    PeriodLtIsStrictTotalOrder();
    GroupByAscending(rows, PeriodOf, RowAgg, PeriodLt);
  }

  /** Rows dated with a four-digit year and a month 1..12. */
  ghost predicate WellDated(rows: seq<Row>) {
    forall i :: 0 <= i < |rows| ==> FourDigitYear(PeriodOf(rows[i])) && 1 <= rows[i].month <= 12
  }

  ghost predicate WellDatedKeys(gs: seq<Group<Period>>) {
    forall i :: 0 <= i < |gs| ==> FourDigitYear(gs[i].key) && 1 <= gs[i].key.month <= 12
  }

  /** Ascending well-dated months have ascending "YYYY-MM" labels. */
  lemma LabelsAscend(gs: seq<Group<Period>>)
    requires WellDatedKeys(gs)
    requires forall i, j :: 0 <= i < j < |gs| ==> PeriodLt(gs[i].key, gs[j].key)
    ensures forall i, j :: 0 <= i < j < |gs| ==> StrLt(PeriodLabel(gs[i].key), PeriodLabel(gs[j].key))
  {
    forall i, j | 0 <= i < j < |gs| ensures StrLt(PeriodLabel(gs[i].key), PeriodLabel(gs[j].key)) {
      LabelOrderIsChronological(gs[i].key, gs[j].key);
    }
  }

  lemma PeriodGroupsWellDated(rows: seq<Row>)
    requires WellDated(rows)
    ensures WellDatedKeys(PeriodGroups(rows))
  {
    var gs := PeriodGroups(rows);
    forall i | 0 <= i < |gs| ensures FourDigitYear(gs[i].key) && 1 <= gs[i].key.month <= 12 {
      assert gs[i] in gs;
      PeriodGroupFacts(rows, gs[i]);
    }
  }

  /** On well-dated rows the "YYYY-MM" labels of the month groups ascend as strings too, so
      the label order is the calendar order. */
  lemma PeriodLabelsAscend(rows: seq<Row>)
    requires WellDated(rows)
    ensures var gs := PeriodGroups(rows);
      forall i, j :: 0 <= i < j < |gs| ==> StrLt(PeriodLabel(gs[i].key), PeriodLabel(gs[j].key))
  {
    PeriodGroupsChronological(rows);
    PeriodGroupsWellDated(rows);
    LabelsAscend(PeriodGroups(rows));
  }

  // ---- get_sales_transfer_ratio ------------------------------------------

  datatype MonthRatio = MonthRatio(period: string, ratio: Float, retailSales: real, retailTransfers: real, efficiencyLevel: string)

  datatype TransferRatio = TransferRatio(
    overallTransferRatio: real,
    totalRetailSales: real,
    totalRetailTransfers: real,
    totalRetailActivity: real,
    months: seq<MonthRatio>,
    efficiencyRating: string,
    trend: string)

  /** RETAIL TRANSFERS / (RETAIL SALES + RETAIL TRANSFERS) * 100, then fillna(0). */
  function ActivityRatio(retail: real, transfers: real): Float {
    FillNa(Percent(transfers, retail + transfers), 0.0)
  }

  /** Never NaN: a month without activity has ratio 0, or an infinity when its transfers are not 0. */
  lemma ActivityRatioCases(retail: real, transfers: real)
    ensures ActivityRatio(retail, transfers) != NaN
    ensures retail + transfers != 0.0 ==> ActivityRatio(retail, transfers) == Finite(transfers / (retail + transfers) * 100.0)
    ensures retail + transfers == 0.0 ==>
      && (ActivityRatio(retail, transfers) == Finite(0.0) <==> transfers == 0.0)
      && (ActivityRatio(retail, transfers) == PosInf <==> transfers > 0.0)
      && (ActivityRatio(retail, transfers) == NegInf <==> transfers < 0.0)
  {
  }

  function MonthRatioOf(g: Group<Period>): MonthRatio {
    var ratio := ActivityRatio(g.agg.retail, g.agg.transfers);
    MonthRatio(PeriodLabel(g.key), ratio, g.agg.retail, g.agg.transfers, EfficiencyLevel(ratio))
  }

  function MonthRatios(gs: seq<Group<Period>>): (ms: seq<MonthRatio>)
    ensures |ms| == |gs| && forall i :: 0 <= i < |gs| ==> ms[i] == MonthRatioOf(gs[i])
  {
    seq(|gs|, i requires 0 <= i < |gs| => MonthRatioOf(gs[i]))
  }

  /** The overall ratio is guarded; the rating uses the same ladder as the months, and the trend
      compares the last month's ratio with the first one's. */
  function TransferRatioFrom(a: Agg, gs: seq<Group<Period>>): (t: TransferRatio)
    ensures t.totalRetailSales == a.retail && t.totalRetailTransfers == a.transfers
    ensures t.totalRetailActivity == a.retail + a.transfers
    ensures t.overallTransferRatio == Share(a.transfers, a.retail + a.transfers)
    ensures |t.months| == |gs|
    ensures t.efficiencyRating == EfficiencyLevel(Finite(t.overallTransferRatio))
    ensures t.trend == "Increasing" <==> |t.months| > 1 && Greater(t.months[|t.months| - 1].ratio, t.months[0].ratio)
    ensures t.trend == "Increasing" || t.trend == "Decreasing"
  {
    var activity := a.retail + a.transfers;
    var overall := Share(a.transfers, activity);
    var months := MonthRatios(gs);
    var increasing := |months| > 1 && Greater(months[|months| - 1].ratio, months[0].ratio);
    TransferRatio(overall, a.retail, a.transfers, activity, months, EfficiencyLevel(Finite(overall)),
                  if increasing then "Increasing" else "Decreasing")
  }

  /** The endpoint over the whole table and its months in calendar order. */
  function TransferRatioOf(rows: seq<Row>): TransferRatio {
    TransferRatioFrom(Total(rows, RowAgg), PeriodGroups(rows))
  }

  function SalesTransferRatio(rows: seq<Row>): (r: Response<TransferRatio>)
    ensures |rows| == 0 ==> r == Error(NoData)
    ensures |rows| > 0 ==> r == Ok(TransferRatioOf(rows))
  {
    if |rows| == 0 then Error(NoData) else Ok(TransferRatioOf(rows))
  }

  /** Month i of the response is the i-th month in calendar order: its label, its own sums, its
      ratio of transfers to activity and the level of that ratio. */
  lemma TransferRatioMonths(rows: seq<Row>)
    ensures |TransferRatioOf(rows).months| == |PeriodGroups(rows)|
    ensures forall i :: 0 <= i < |PeriodGroups(rows)| ==>
        && TransferRatioOf(rows).months[i].period == PeriodLabel(PeriodGroups(rows)[i].key)
        && TransferRatioOf(rows).months[i].retailSales == SumWhere(rows, PeriodOf, PeriodGroups(rows)[i].key).retail
        && TransferRatioOf(rows).months[i].retailTransfers == SumWhere(rows, PeriodOf, PeriodGroups(rows)[i].key).transfers
        && TransferRatioOf(rows).months[i].ratio == ActivityRatio(TransferRatioOf(rows).months[i].retailSales, TransferRatioOf(rows).months[i].retailTransfers)
        && TransferRatioOf(rows).months[i].efficiencyLevel == EfficiencyLevel(TransferRatioOf(rows).months[i].ratio)
  {
    var gs := PeriodGroups(rows);
    var ms := TransferRatioOf(rows).months;
    assert ms == MonthRatios(gs);
    MonthGroupSums(rows);
    forall i | 0 <= i < |gs|
      ensures && ms[i].period == PeriodLabel(gs[i].key)
              && ms[i].retailSales == SumWhere(rows, PeriodOf, gs[i].key).retail
              && ms[i].retailTransfers == SumWhere(rows, PeriodOf, gs[i].key).transfers
              && ms[i].ratio == ActivityRatio(ms[i].retailSales, ms[i].retailTransfers)
              && ms[i].efficiencyLevel == EfficiencyLevel(ms[i].ratio)
    {
      assert ms[i] == MonthRatioOf(gs[i]);
    }
  }

  /** Every month group holds its month's sums. */
  lemma MonthGroupSums(rows: seq<Row>)
    ensures var gs := PeriodGroups(rows);
      forall i :: 0 <= i < |gs| ==> gs[i].agg == SumWhere(rows, PeriodOf, gs[i].key)
  {
    var gs := PeriodGroups(rows);
    forall i | 0 <= i < |gs| ensures gs[i].agg == SumWhere(rows, PeriodOf, gs[i].key) {
      assert gs[i] in gs;
      PeriodGroupFacts(rows, gs[i]);
    }
  }

  /** With non-negative sales and transfers the overall ratio is a percentage. */
  lemma OverallRatioIsPercentage(a: Agg, gs: seq<Group<Period>>)
    requires a.retail >= 0.0 && a.transfers >= 0.0
    ensures 0.0 <= TransferRatioFrom(a, gs).overallTransferRatio <= 100.0
  {
    if a.retail + a.transfers > 0.0 {
      ShareBounds(a.transfers, a.retail + a.transfers);
    }
  }

  // ---- get_month_over_month_growth ---------------------------------------

  datatype Growth = Growth(
    period: string,
    totalSales: real,
    previousMonthSales: real,
    growthAmount: real,
    growthPercentage: Float,
    growthCategory: string)

  datatype MomGrowth = MomGrowth(
    months: seq<Growth>,
    averageGrowthRate: Float,
    latestGrowthRate: Float,
    growthConsistency: real,
    positiveGrowthMonths: nat,
    totalComparisonMonths: nat,
    trendDirection: string,
    latestTrend: string)

  const InsufficientData := "Insufficient data for growth calculation"

  /** (TOTAL_SALES - PREVIOUS_MONTH_SALES) / PREVIOUS_MONTH_SALES * 100, then fillna(0). */
  function GrowthPercent(current: real, previous: real): Float {
    FillNa(Percent(current - previous, previous), 0.0)
  }

  /** Never NaN: a change from a zero month is 0 (no change) or an infinity of the change's sign. */
  lemma GrowthPercentCases(current: real, previous: real)
    ensures GrowthPercent(current, previous) != NaN
    ensures previous != 0.0 ==> GrowthPercent(current, previous) == Finite((current - previous) / previous * 100.0)
    ensures previous == 0.0 ==>
      && (GrowthPercent(current, previous) == Finite(0.0) <==> current == 0.0)
      && (GrowthPercent(current, previous) == PosInf <==> current > 0.0)
      && (GrowthPercent(current, previous) == NegInf <==> current < 0.0)
  {
  }

  /** Applying a month's growth percentage to the previous month gives back the month. */
  lemma GrowthPercentRecovers(current: real, previous: real)
    requires previous != 0.0
    ensures GrowthPercent(current, previous).Finite?
    ensures previous + previous * GrowthPercent(current, previous).value / 100.0 == current
  {
    GrowthPercentCases(current, previous);
    var q := (current - previous) / previous;
    assert q * previous == current - previous;
    assert GrowthPercent(current, previous).value == q * 100.0;
    assert previous * (q * 100.0) / 100.0 == previous * q;
  }

  /** Row i of monthly_sales compared with row i - 1 (the shift(1) column). */
  function GrowthAt(gs: seq<Group<Period>>, i: nat): Growth
    requires 1 <= i < |gs|
  {
    var current := gs[i].agg.Volume();
    var previous := gs[i - 1].agg.Volume();
    var pct := GrowthPercent(current, previous);
    Growth(PeriodLabel(gs[i].key), current, previous, current - previous, pct, GrowthCategory(pct))
  }

  /** monthly_sales[1:]: every month but the first. */
  function GrowthRows(gs: seq<Group<Period>>): (ms: seq<Growth>)
    requires |gs| > 0
    ensures |ms| == |gs| - 1 && forall k :: 0 <= k < |ms| ==> ms[k] == GrowthAt(gs, k + 1)
  {
    seq(|gs| - 1, k requires 0 <= k < |gs| - 1 => GrowthAt(gs, k + 1))
  }

  function PercentOf(m: Growth): Float { m.growthPercentage }

  predicate IsPositiveGrowth(m: Growth) { Gt(m.growthPercentage, 0.0) }

  function Percentages(ms: seq<Growth>): (ps: seq<Float>)
    ensures |ps| == |ms| && forall k :: 0 <= k < |ms| ==> ps[k] == ms[k].growthPercentage
  {
    seq(|ms|, k requires 0 <= k < |ms| => ms[k].growthPercentage)
  }

  /** The summary fields computed from the compared months. */
  function MomGrowthSummary(months: seq<Growth>): MomGrowth
    requires |months| > 0
  {
    var n := |months|;
    var positive := Count(months, IsPositiveGrowth);
    var average := Mean(Percentages(months));
    var latest := months[n - 1].growthPercentage;
    MomGrowth(months, average, latest, Share(positive as real, n as real), positive, n,
              if Gt(average, 0.0) then "Positive" else "Negative", GrowthCategory(latest))
  }

  /** Consistency is the percentage of compared months with positive growth. */
  lemma MomGrowthConsistency(months: seq<Growth>)
    requires |months| > 0
    ensures MomGrowthSummary(months).months == months
    ensures MomGrowthSummary(months).totalComparisonMonths == |months|
    ensures MomGrowthSummary(months).positiveGrowthMonths == Count(months, IsPositiveGrowth) <= |months|
    ensures MomGrowthSummary(months).growthConsistency == Share(Count(months, IsPositiveGrowth) as real, |months| as real)
    ensures 0.0 <= MomGrowthSummary(months).growthConsistency <= 100.0
  {
    ShareOfCount(Count(months, IsPositiveGrowth), |months|);
  }

  /** The average is the skip-NaN mean of the percentages, the trend is its sign, and the latest
      rate and trend are those of the last compared month. */
  lemma MomGrowthTrends(months: seq<Growth>)
    requires |months| > 0
    ensures MomGrowthSummary(months).averageGrowthRate == Mean(Percentages(months))
    ensures MomGrowthSummary(months).latestGrowthRate == months[|months| - 1].growthPercentage
    ensures MomGrowthSummary(months).trendDirection == "Positive" <==> Gt(Mean(Percentages(months)), 0.0)
    ensures MomGrowthSummary(months).trendDirection in {"Positive", "Negative"}
    ensures MomGrowthSummary(months).latestTrend == GrowthCategory(months[|months| - 1].growthPercentage)
  {
  }

  /** The endpoint from the month groups in calendar order: a summary of every month but the
      first, or the insufficient-data error when there is at most one month. */
  function MomGrowthFrom(gs: seq<Group<Period>>): (r: Response<MomGrowth>)
    ensures !r.Raised?
    ensures r.Error? <==> |gs| <= 1
    ensures r.Error? ==> r.message == InsufficientData
    ensures r.Ok? ==> |gs| > 1 && r.payload == MomGrowthSummary(GrowthRows(gs))
  {
    if |gs| <= 1 then Error(InsufficientData) else Ok(MomGrowthSummary(GrowthRows(gs)))
  }

  function MomGrowthOf(rows: seq<Row>): (r: Response<MomGrowth>)
    ensures |rows| == 0 ==> r == Error(NoData)
    ensures |rows| > 0 ==> r == MomGrowthFrom(PeriodGroups(rows))
  {
    if |rows| == 0 then Error(NoData) else MomGrowthFrom(PeriodGroups(rows))
  }

  /** Each compared month carries the previous month's volume as its PREVIOUS_MONTH_SALES, the
      difference as its growth amount, and a percentage that recovers its own volume. */
  lemma MomGrowthChain(gs: seq<Group<Period>>)
    requires |gs| > 1
    ensures GrowthRows(gs)[0].previousMonthSales == gs[0].agg.Volume()
    ensures forall k :: 0 <= k < |GrowthRows(gs)| ==> GrowthRows(gs)[k].totalSales == gs[k + 1].agg.Volume()
    ensures forall k :: 1 <= k < |GrowthRows(gs)| ==> GrowthRows(gs)[k].previousMonthSales == GrowthRows(gs)[k - 1].totalSales
    ensures forall k :: 0 <= k < |GrowthRows(gs)| ==>
      && GrowthRows(gs)[k].growthAmount == GrowthRows(gs)[k].totalSales - GrowthRows(gs)[k].previousMonthSales
      && GrowthRows(gs)[k].growthPercentage == GrowthPercent(GrowthRows(gs)[k].totalSales, GrowthRows(gs)[k].previousMonthSales)
      && GrowthRows(gs)[k].growthCategory == GrowthCategory(GrowthRows(gs)[k].growthPercentage)
  {
  }

  /** The compared months are the table's months after the first, with their own volumes. */
  lemma MomGrowthMonths(rows: seq<Row>)
    requires |PeriodGroups(rows)| > 1
    ensures forall k :: 0 <= k < |GrowthRows(PeriodGroups(rows))| ==>
        && GrowthRows(PeriodGroups(rows))[k].period == PeriodLabel(PeriodGroups(rows)[k + 1].key)
        && GrowthRows(PeriodGroups(rows))[k].totalSales == SumWhere(rows, PeriodOf, PeriodGroups(rows)[k + 1].key).Volume()
  {
    var gs := PeriodGroups(rows);
    var ms := GrowthRows(gs);
    MonthGroupSums(rows);
    forall k | 0 <= k < |ms|
      ensures ms[k].period == PeriodLabel(gs[k + 1].key)
      ensures ms[k].totalSales == SumWhere(rows, PeriodOf, gs[k + 1].key).Volume()
    {
      assert ms[k] == GrowthAt(gs, k + 1);
      assert gs[k + 1].agg == SumWhere(rows, PeriodOf, gs[k + 1].key);
    }
  }
}
