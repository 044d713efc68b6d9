/** The chart series of deploy_ready_app_fixed.py: each endpoint reduces the shared table to
    one or two (x, y) series for a plot.

    Every endpoint refuses an empty table with "No data available".  The monthly charts
    group by the string label YEAR + '-' + zero-padded MONTH and sort it; the others group
    by ITEM TYPE, SUPPLIER, YEAR or MONTH in pandas' ascending key order. */
module Charts {
  import opened Order
  import opened Table
  import opened Ranking
  import opened Labels
  import opened Floats
  import opened Responses
  import Stable
  import StableSuppliers
  import StableTrends

  /** One plotted trace: the x values and the y values, position by position. */
  datatype Series<X, Y> = Series(x: seq<X>, y: seq<Y>)

  /** The two traces of the supplier comparison chart. */
  datatype Comparison = Comparison(retail: Series<string, real>, warehouse: Series<string, real>)

  /** The amount columns a chart sums; TOTAL_VOLUME is the column monthly_total_volume adds. */
  datatype Column = RetailSales | WarehouseSales | RetailTransfers | TotalVolume

  function Amount(c: Column, a: Agg): real {
    match c
    case RetailSales => a.retail
    case WarehouseSales => a.warehouse
    case RetailTransfers => a.transfers
    case TotalVolume => a.Volume()
  }

  /** A column's sum over two parts is the sum of the two sums. */
  lemma AmountPlus(c: Column, a: Agg, b: Agg)
    ensures Amount(c, a.Plus(b)) == Amount(c, a) + Amount(c, b)
  {
  }

  /** The YEAR_MONTH value of a row. */
  function MonthLabelOf(r: Row): string { PeriodLabel(PeriodOf(r)) }

  /** groupby(key)[column].sum() as a trace: the keys and their column sums. */
  function KeyedSeries<K>(gs: seq<Group<K>>, c: Column): (s: Series<K, real>)
    ensures |s.x| == |s.y| == |gs|
    ensures forall k :: 0 <= k < |gs| ==> s.x[k] == gs[k].key && s.y[k] == Amount(c, gs[k].agg)
  {
    Series(seq(|gs|, k requires 0 <= k < |gs| => gs[k].key),
           seq(|gs|, k requires 0 <= k < |gs| => Amount(c, gs[k].agg)))
  }

  /** The y values of a keyed trace add up to the column sum of all its groups. */
  lemma {:induction false} KeyedSeriesSum<K>(gs: seq<Group<K>>, c: Column)
    ensures RealSum(KeyedSeries(gs, c).y) == Amount(c, Total(gs, GroupAgg))
    decreases |gs|
  {
    if gs != [] {
      KeyedSeriesSum(gs[1..], c);
      assert KeyedSeries(gs, c).y[1..] == KeyedSeries(gs[1..], c).y;
      AmountPlus(c, gs[0].agg, Total(gs[1..], GroupAgg));
    }
  }

  /** Every group's key is among a keyed trace's x values. */
  lemma KeyedSeriesKeys<K>(gs: seq<Group<K>>, c: Column)
    ensures forall g :: g in gs ==> g.key in KeyedSeries(gs, c).x
  {
    forall g | g in gs ensures g.key in KeyedSeries(gs, c).x {
      var m :| 0 <= m < |gs| && gs[m] == g;
      assert KeyedSeries(gs, c).x[m] == g.key;
    }
  }

  /** A grouped trace's x values strictly ascend in the grouping order. */
  lemma GroupedSeriesAscending<K(!new)>(rows: seq<Row>, key: Row -> K, lt: (K, K) -> bool, c: Column)
    requires IsStrictTotalOrder(lt)
    ensures var s := KeyedSeries(GroupBy(rows, key, RowAgg, lt), c);
      forall i, j :: 0 <= i < j < |s.x| ==> lt(s.x[i], s.x[j])
  {
    GroupByAscending(rows, key, RowAgg, lt);
  }

  /** Each point of a grouped trace is its key's column sum, and its key occurs in the rows. */
  lemma GroupedSeriesBuckets<K(!new)>(rows: seq<Row>, key: Row -> K, lt: (K, K) -> bool, c: Column)
    ensures var s := KeyedSeries(GroupBy(rows, key, RowAgg, lt), c);
      && (forall k :: 0 <= k < |s.x| ==> s.y[k] == Amount(c, SumWhere(rows, key, s.x[k])))
      && (forall k :: 0 <= k < |s.x| ==> exists i :: 0 <= i < |rows| && key(rows[i]) == s.x[k])
  {
    GroupByKeysOccur(rows, key, RowAgg, lt);
  }

  /** Every row's key has its point in a grouped trace. */
  lemma GroupedSeriesCovers<K(!new)>(rows: seq<Row>, key: Row -> K, lt: (K, K) -> bool, c: Column)
    ensures forall i :: 0 <= i < |rows| ==> key(rows[i]) in KeyedSeries(GroupBy(rows, key, RowAgg, lt), c).x
  {
    var gs := GroupBy(rows, key, RowAgg, lt);
    GroupByCovers(rows, key, RowAgg, lt);
    KeyedSeriesKeys(gs, c);
    forall i | 0 <= i < |rows| ensures key(rows[i]) in KeyedSeries(gs, c).x {
      var j :| 0 <= j < |gs| && gs[j].key == key(rows[i]);
      assert gs[j] in gs;
    }
  }

  /** A grouped trace's points add up to the table's column sum. */
  lemma GroupedSeriesConserves<K(!new)>(rows: seq<Row>, key: Row -> K, lt: (K, K) -> bool, c: Column)
    requires IsStrictTotalOrder(lt)
    ensures RealSum(KeyedSeries(GroupBy(rows, key, RowAgg, lt), c).y) == Amount(c, Total(rows, RowAgg))
  {
    GroupByConserves(rows, key, RowAgg, lt);
    KeyedSeriesSum(GroupBy(rows, key, RowAgg, lt), c);
  }

  // ---- monthly_retail_sales, monthly_warehouse_sales, monthly_transfers, monthly_total_volume

  /** df.groupby('YEAR_MONTH'), summed, in ascending label order (sort_index). */
  function MonthGroups(rows: seq<Row>): seq<Group<string>> {
    GroupBy(rows, MonthLabelOf, RowAgg, StrLt)
  }

  /** The monthly trace of one column; the guard is in the frame's endpoint methods. */
  function MonthlySeries(rows: seq<Row>, c: Column): Series<string, real> {
    KeyedSeries(MonthGroups(rows), c)
  }

  /** One bar per YEAR_MONTH label present, in strictly ascending label order, each the sum
      of the column over exactly the rows with that label. */
  lemma MonthlySeriesBuckets(rows: seq<Row>, c: Column)
    ensures var s := MonthlySeries(rows, c);
      && (forall i, j :: 0 <= i < j < |s.x| ==> StrLt(s.x[i], s.x[j]))
      && (forall k :: 0 <= k < |s.x| ==> s.y[k] == Amount(c, SumWhere(rows, MonthLabelOf, s.x[k])))
      && (forall k :: 0 <= k < |s.x| ==> exists i :: 0 <= i < |rows| && MonthLabelOf(rows[i]) == s.x[k])
      && (forall i :: 0 <= i < |rows| ==> MonthLabelOf(rows[i]) in s.x)
  {
    StrLtIsStrictTotalOrder();
    GroupedSeriesAscending(rows, MonthLabelOf, StrLt, c);
    GroupedSeriesBuckets(rows, MonthLabelOf, StrLt, c);
    GroupedSeriesCovers(rows, MonthLabelOf, StrLt, c);
  }

  /** The monthly bars add up to the table's sum of the column. */
  lemma MonthlySeriesConserves(rows: seq<Row>, c: Column)
    ensures RealSum(MonthlySeries(rows, c).y) == Amount(c, Total(rows, RowAgg))
  {
    StrLtIsStrictTotalOrder();
    GroupedSeriesConserves(rows, MonthLabelOf, StrLt, c);
  }

  /** On rows with four-digit years and calendar months the label order is the calendar
      order: a row under an earlier bar is from an earlier (YEAR, MONTH), and two rows share
      a bar exactly when they share the (YEAR, MONTH). */
  lemma MonthlySeriesChronological(rows: seq<Row>, c: Column)
    requires StableTrends.WellDated(rows)
    ensures var s := MonthlySeries(rows, c);
      && (forall i, j, a, b ::
            0 <= i < j < |s.x| && 0 <= a < |rows| && 0 <= b < |rows|
            && MonthLabelOf(rows[a]) == s.x[i] && MonthLabelOf(rows[b]) == s.x[j]
            ==> PeriodLt(PeriodOf(rows[a]), PeriodOf(rows[b])))
      && (forall a, b :: 0 <= a < |rows| && 0 <= b < |rows| ==>
            (MonthLabelOf(rows[a]) == MonthLabelOf(rows[b]) <==> PeriodOf(rows[a]) == PeriodOf(rows[b])))
  {
    var s := MonthlySeries(rows, c);
    MonthlySeriesBuckets(rows, c);
    forall i, j, a, b |
      0 <= i < j < |s.x| && 0 <= a < |rows| && 0 <= b < |rows|
      && MonthLabelOf(rows[a]) == s.x[i] && MonthLabelOf(rows[b]) == s.x[j]
      ensures PeriodLt(PeriodOf(rows[a]), PeriodOf(rows[b]))
    {
      LabelOrderIsChronological(PeriodOf(rows[a]), PeriodOf(rows[b]));
    }
    forall a, b | 0 <= a < |rows| && 0 <= b < |rows|
      ensures MonthLabelOf(rows[a]) == MonthLabelOf(rows[b]) <==> PeriodOf(rows[a]) == PeriodOf(rows[b])
    {
      if MonthLabelOf(rows[a]) == MonthLabelOf(rows[b]) {
        LabelIsInjective(PeriodOf(rows[a]), PeriodOf(rows[b]));
      }
    }
  }

  /** RETAIL SALES + WAREHOUSE SALES + RETAIL TRANSFERS of one row: its TOTAL_VOLUME cell. */
  function RowVolume(r: Row): real { r.retailSales + r.warehouseSales + r.retailTransfers }

  /** Summing the TOTAL_VOLUME cells of some rows is summing their three columns and adding. */
  lemma {:induction false} VolumeOfRows(xs: seq<Row>)
    ensures SumBy(xs, RowVolume) == Total(xs, RowAgg).Volume()
    decreases |xs|
  {
    if xs != [] { VolumeOfRows(xs[1..]); }
  }

  /** Each total-volume bar is the sum of the TOTAL_VOLUME cells of its month's rows. */
  lemma MonthlyVolumeIsCellSum(rows: seq<Row>)
    ensures var s := MonthlySeries(rows, TotalVolume);
      forall k :: 0 <= k < |s.x| ==> s.y[k] == SumBy(Where(rows, MonthLabelOf, s.x[k]), RowVolume)
  {
    var s := MonthlySeries(rows, TotalVolume);
    GroupedSeriesBuckets(rows, MonthLabelOf, StrLt, TotalVolume);
    forall k | 0 <= k < |s.x| ensures s.y[k] == SumBy(Where(rows, MonthLabelOf, s.x[k]), RowVolume) {
      VolumeOfRows(Where(rows, MonthLabelOf, s.x[k]));
    }
  }

  // ---- item_type_distribution -----------------------------------------------

  /** Pie slices: retail sales per item type; empty table refused. */
  function ItemTypeDistribution(rows: seq<Row>): (r: Response<Series<string, real>>)
    ensures r.Ok? <==> |rows| > 0
    ensures r.Error? ==> r.message == NoData
  {
    if |rows| == 0 then Error(NoData) else Ok(KeyedSeries(Stable.TypeGroups(rows), RetailSales))
  }

  /** One slice per item type present, labels strictly ascending, each the type's retail
      sales; the slices add up to the table's retail sales. */
  lemma ItemTypeDistributionSlices(rows: seq<Row>)
    requires |rows| > 0
    ensures var s := ItemTypeDistribution(rows).payload;
      && (forall i, j :: 0 <= i < j < |s.x| ==> StrLt(s.x[i], s.x[j]))
      && (forall k :: 0 <= k < |s.x| ==> s.y[k] == SumWhere(rows, ItemTypeOf, s.x[k]).retail)
      && (forall i :: 0 <= i < |rows| ==> rows[i].itemType in s.x)
      && RealSum(s.y) == Total(rows, RowAgg).retail
  {
    StrLtIsStrictTotalOrder();
    GroupedSeriesAscending(rows, ItemTypeOf, StrLt, RetailSales);
    GroupedSeriesBuckets(rows, ItemTypeOf, StrLt, RetailSales);
    GroupedSeriesCovers(rows, ItemTypeOf, StrLt, RetailSales);
    GroupedSeriesConserves(rows, ItemTypeOf, StrLt, RetailSales);
  }

  // ---- top_suppliers --------------------------------------------------------

  /** groupby('SUPPLIER')['RETAIL SALES'].sum().nlargest(10) */
  function TopSupplierGroups(rows: seq<Row>): seq<Group<string>> {
    TopN(StableSuppliers.SupplierGroups(rows), Stable.GroupRetail, 10)
  }

  /** Horizontal bars: x the sales, y the supplier names. */
  function BarsOf(top: seq<Group<string>>): (s: Series<real, string>)
    ensures |s.x| == |s.y| == |top|
    ensures forall k :: 0 <= k < |top| ==> s.x[k] == top[k].agg.retail && s.y[k] == top[k].key
  {
    Series(seq(|top|, k requires 0 <= k < |top| => top[k].agg.retail),
           seq(|top|, k requires 0 <= k < |top| => top[k].key))
  }

  function TopSuppliers(rows: seq<Row>): (r: Response<Series<real, string>>)
    ensures r.Ok? <==> |rows| > 0
    ensures r.Error? ==> r.message == NoData
  {
    if |rows| == 0 then Error(NoData) else Ok(BarsOf(TopSupplierGroups(rows)))
  }

  /** At most ten bars, one per supplier group of the input, sales non-increasing. */
  lemma {:induction false} TopBarsShape(gs: seq<Group<string>>)
    ensures var top := TopN(gs, Stable.GroupRetail, 10); var s := BarsOf(top);
      && |s.x| == (if |gs| <= 10 then |gs| else 10)
      && (forall k :: 0 <= k < |top| ==> top[k] in gs)
      && (forall i, j :: 0 <= i < j < |s.x| ==> s.x[i] >= s.x[j])
  {
    TopNKeepsLargest(gs, Stable.GroupRetail, 10);
    TopNMembers(gs, Stable.GroupRetail, 10);
    var top := TopN(gs, Stable.GroupRetail, 10);
    forall k | 0 <= k < |top| ensures top[k] in gs {
      assert top[k] in top;
    }
    var s := BarsOf(top);
    forall i, j | 0 <= i < j < |s.x| ensures s.x[i] >= s.x[j] {
      assert Stable.GroupRetail(top[i]) >= Stable.GroupRetail(top[j]);
    }
  }

  /** No supplier left off the chart sold more than any supplier on it. */
  lemma {:induction false} TopBarsLeaveOutSmaller(gs: seq<Group<string>>, g: Group<string>, k: nat)
    requires g in gs && g !in TopN(gs, Stable.GroupRetail, 10)
    requires k < |BarsOf(TopN(gs, Stable.GroupRetail, 10)).x|
    ensures g.agg.retail <= BarsOf(TopN(gs, Stable.GroupRetail, 10)).x[k]
  {
    TopNKeepsLargest(gs, Stable.GroupRetail, 10);
    var top := TopN(gs, Stable.GroupRetail, 10);
    assert g in multiset(gs) - multiset(top);
    assert top[k] in top;
    assert Stable.GroupRetail(top[k]) >= Stable.GroupRetail(g);
  }

  /** On the table: at most ten bars, non-increasing, each a supplier's retail sales, and
      every supplier is either shown or sold no more than each one shown. */
  lemma TopSuppliersOnRows(rows: seq<Row>)
    requires |rows| > 0
    ensures var s := TopSuppliers(rows).payload; var gs := StableSuppliers.SupplierGroups(rows);
      && |s.x| == (if |gs| <= 10 then |gs| else 10)
      && (forall i, j :: 0 <= i < j < |s.x| ==> s.x[i] >= s.x[j])
      && (forall k :: 0 <= k < |s.x| ==> s.x[k] == SumWhere(rows, SupplierOf, s.y[k]).retail)
      && (forall g, k :: g in gs && 0 <= k < |s.x| ==> g.key in s.y || g.agg.retail <= s.x[k])
  {
    var gs := StableSuppliers.SupplierGroups(rows);
    var top := TopN(gs, Stable.GroupRetail, 10);
    var s := BarsOf(top);
    TopBarsShape(gs);
    forall k | 0 <= k < |s.x| ensures s.x[k] == SumWhere(rows, SupplierOf, s.y[k]).retail {
      StableSuppliers.SupplierGroupFacts(rows, top[k]);
    }
    forall g, k | g in gs && 0 <= k < |s.x| ensures g.key in s.y || g.agg.retail <= s.x[k] {
      if g in top {
        var m :| 0 <= m < |top| && top[m] == g;
        assert s.y[m] == g.key;
      } else {
        TopBarsLeaveOutSmaller(gs, g, k);
      }
    }
  }

  // ---- yearly_sales_trend ---------------------------------------------------

  /** df.groupby('YEAR'), summed. */
  function YearGroups(rows: seq<Row>): seq<Group<int>> {
    GroupBy(rows, YearOf, RowAgg, IntLt)
  }

  function YearlySalesTrend(rows: seq<Row>): (r: Response<Series<int, real>>)
    ensures r.Ok? <==> |rows| > 0
    ensures r.Error? ==> r.message == NoData
  {
    if |rows| == 0 then Error(NoData) else Ok(KeyedSeries(YearGroups(rows), RetailSales))
  }

  /** One bar per year present, years strictly increasing, each the year's retail sales, all
      of them together the table's retail sales. */
  lemma YearlySalesTrendBars(rows: seq<Row>)
    requires |rows| > 0
    ensures var s := YearlySalesTrend(rows).payload;
      && (forall i, j :: 0 <= i < j < |s.x| ==> s.x[i] < s.x[j])
      && (forall k :: 0 <= k < |s.x| ==> s.y[k] == SumWhere(rows, YearOf, s.x[k]).retail)
      && (forall i :: 0 <= i < |rows| ==> rows[i].year in s.x)
      && RealSum(s.y) == Total(rows, RowAgg).retail
  {
    IntLtIsStrictTotalOrder();
    GroupedSeriesAscending(rows, YearOf, IntLt, RetailSales);
    GroupedSeriesBuckets(rows, YearOf, IntLt, RetailSales);
    GroupedSeriesCovers(rows, YearOf, IntLt, RetailSales);
    GroupedSeriesConserves(rows, YearOf, IntLt, RetailSales);
  }

  // ---- supplier_performance -------------------------------------------------

  /** groupby('SUPPLIER').agg(sum).head(10): the first ten groups in name order. */
  function FirstSupplierGroups(rows: seq<Row>): seq<Group<string>> {
    Take(StableSuppliers.SupplierGroups(rows), 10)
  }

  function SupplierPerformance(rows: seq<Row>): (r: Response<Comparison>)
    ensures r.Ok? <==> |rows| > 0
    ensures r.Error? ==> r.message == NoData
  {
    if |rows| == 0 then Error(NoData)
    else
      var gs := FirstSupplierGroups(rows);
      Ok(Comparison(KeyedSeries(gs, RetailSales), KeyedSeries(gs, WarehouseSales)))
  }

  /** Of groups in strictly ascending key order, the first ten are shown: every group is
      either shown or comes after each one shown. */
  lemma {:induction false} FirstGroupsPrecede(gs: seq<Group<string>>, c: Column)
    requires forall i, j :: 0 <= i < j < |gs| ==> StrLt(gs[i].key, gs[j].key)
    ensures var x := KeyedSeries(Take(gs, 10), c).x;
      forall g, k :: g in gs && 0 <= k < |x| ==> g.key in x || StrLt(x[k], g.key)
  {
    var shown := Take(gs, 10);
    var x := KeyedSeries(shown, c).x;
    forall g, k | g in gs && 0 <= k < |x| ensures g.key in x || StrLt(x[k], g.key) {
      var m :| 0 <= m < |gs| && gs[m] == g;
      if m < |shown| {
        assert x[m] == g.key;
      } else {
        assert x[k] == gs[k].key;
      }
    }
  }

  /** The chart shows the alphabetically first ten suppliers, not the ten largest: the names
      strictly ascend, both traces share them, each bar is that supplier's sum, and every
      supplier is either shown or comes after every one shown in name order. */
  lemma SupplierPerformanceFirstByName(rows: seq<Row>)
    requires |rows| > 0
    ensures var c := SupplierPerformance(rows).payload; var gs := StableSuppliers.SupplierGroups(rows);
      && c.retail.x == c.warehouse.x
      && |c.retail.x| == (if |gs| <= 10 then |gs| else 10)
      && (forall i, j :: 0 <= i < j < |c.retail.x| ==> StrLt(c.retail.x[i], c.retail.x[j]))
      && (forall k :: 0 <= k < |c.retail.x| ==>
            && c.retail.y[k] == SumWhere(rows, SupplierOf, c.retail.x[k]).retail
            && c.warehouse.y[k] == SumWhere(rows, SupplierOf, c.retail.x[k]).warehouse)
      && (forall g, k :: g in gs && 0 <= k < |c.retail.x| ==> g.key in c.retail.x || StrLt(c.retail.x[k], g.key))
  {
    var gs := StableSuppliers.SupplierGroups(rows);
    StrLtIsStrictTotalOrder();
    GroupByAscending(rows, SupplierOf, RowAgg, StrLt);
    FirstGroupsPrecede(gs, RetailSales);
    assert KeyedSeries(Take(gs, 10), RetailSales).x == KeyedSeries(Take(gs, 10), WarehouseSales).x;
  }

  // ---- seasonal_analysis ----------------------------------------------------

  /** df.groupby('MONTH'), summed: calendar months pooled across years. */
  function CalendarMonthGroups(rows: seq<Row>): seq<Group<int>> {
    GroupBy(rows, MonthOf, RowAgg, IntLt)
  }

  /** The mean retail sales per row of a group (a group is never empty). */
  function MeanRetail(a: Agg): real {
    if a.count == 0 then 0.0 else a.retail / a.count as real
  }

  function SeasonalSeries(gs: seq<Group<int>>): (s: Series<int, real>)
    ensures |s.x| == |s.y| == |gs|
    ensures forall k :: 0 <= k < |gs| ==> s.x[k] == gs[k].key && s.y[k] == MeanRetail(gs[k].agg)
  {
    Series(seq(|gs|, k requires 0 <= k < |gs| => gs[k].key),
           seq(|gs|, k requires 0 <= k < |gs| => MeanRetail(gs[k].agg)))
  }

  function SeasonalAnalysis(rows: seq<Row>): (r: Response<Series<int, real>>)
    ensures r.Ok? <==> |rows| > 0
    ensures r.Error? ==> r.message == NoData
  {
    if |rows| == 0 then Error(NoData) else Ok(SeasonalSeries(CalendarMonthGroups(rows)))
  }

  /** A group holds at least the row it came from. */
  lemma {:induction false} OccurringKeyCounts(rows: seq<Row>, m: int, a: nat)
    requires a < |rows| && MonthOf(rows[a]) == m
    ensures SumWhere(rows, MonthOf, m).count == |Where(rows, MonthOf, m)| > 0
  {
    TotalCount(Where(rows, MonthOf, m));
    assert rows[a] in Where(rows, MonthOf, m);
  }

  /** One point per calendar month present, months strictly increasing. */
  lemma SeasonalAnalysisMonths(rows: seq<Row>)
    requires |rows| > 0
    ensures var s := SeasonalAnalysis(rows).payload;
      && (forall i, j :: 0 <= i < j < |s.x| ==> s.x[i] < s.x[j])
      && (forall i :: 0 <= i < |rows| ==> rows[i].month in s.x)
  {
    var gs := CalendarMonthGroups(rows);
    IntLtIsStrictTotalOrder();
    GroupedSeriesAscending(rows, MonthOf, IntLt, RetailSales);
    GroupedSeriesCovers(rows, MonthOf, IntLt, RetailSales);
    assert KeyedSeries(gs, RetailSales).x == SeasonalSeries(gs).x;
  }

  /** Each point is its month's mean: the month has rows, and the point is their retail
      sales divided by their number. */
  lemma SeasonalAnalysisMean(rows: seq<Row>, k: nat)
    requires |rows| > 0 && k < |SeasonalAnalysis(rows).payload.x|
    ensures var s := SeasonalAnalysis(rows).payload; var month := SumWhere(rows, MonthOf, s.x[k]);
      && month.count == |Where(rows, MonthOf, s.x[k])| > 0
      && s.y[k] == month.retail / month.count as real
  {
    var gs := CalendarMonthGroups(rows);
    var m := gs[k].key;
    var agg := gs[k].agg;
    assert agg == SumWhere(rows, MonthOf, m);
    GroupByKeysOccur(rows, MonthOf, RowAgg, IntLt);
    var a :| 0 <= a < |rows| && MonthOf(rows[a]) == m;
    OccurringKeyCounts(rows, m, a);
    var s := SeasonalAnalysis(rows).payload;
    assert s == SeasonalSeries(gs);
    assert s.x[k] == m && s.y[k] == MeanRetail(agg);
  }
}
