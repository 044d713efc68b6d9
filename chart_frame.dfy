/** The shared table of deploy_ready_app_fixed.py and the chart endpoints that write to it.

    All endpoints work on one cached frame.  The monthly charts and item_type_trends add the
    derived column YEAR_MONTH to it in place, and monthly_total_volume adds TOTAL_VOLUME too,
    before grouping by that column.  A repeated call writes the same values again, because
    the rows never change.  Grouping by the YEAR_MONTH column is grouping by
    Charts.MonthLabelOf, since cell i of the column is the label of row i. */
module ChartFrame {
  import opened Order
  import opened Table
  import opened Floats
  import opened Responses
  import opened Ranking
  import opened Charts

  /** YEAR.astype(str) + '-' + MONTH.astype(str).str.zfill(2), one cell per row. */
  function YearMonthColumn(rows: seq<Row>): (col: seq<string>)
    ensures |col| == |rows|
    ensures forall i :: 0 <= i < |rows| ==> col[i] == MonthLabelOf(rows[i])
  {
    seq(|rows|, i requires 0 <= i < |rows| => MonthLabelOf(rows[i]))
  }

  /** RETAIL SALES + WAREHOUSE SALES + RETAIL TRANSFERS, one cell per row. */
  function TotalVolumeColumn(rows: seq<Row>): (col: seq<real>)
    ensures |col| == |rows|
    ensures forall i :: 0 <= i < |rows| ==> col[i] == RowVolume(rows[i])
  {
    seq(|rows|, i requires 0 <= i < |rows| => RowVolume(rows[i]))
  }

  /** The TOTAL_VOLUME column adds up to the table's whole volume. */
  lemma TotalVolumeColumnSum(rows: seq<Row>)
    ensures RealSum(TotalVolumeColumn(rows)) == Total(rows, RowAgg).Volume()
  {
    ColumnIsSumBy(rows);
    VolumeOfRows(rows);
  }

  lemma {:induction false} ColumnIsSumBy(rows: seq<Row>)
    ensures RealSum(TotalVolumeColumn(rows)) == SumBy(rows, RowVolume)
    decreases |rows|
  {
    if rows != [] {
      ColumnIsSumBy(rows[1..]);
      assert TotalVolumeColumn(rows)[1..] == TotalVolumeColumn(rows[1..]);
    }
  }

  /** One line of the item-type trend chart: an item type, the months, and its sales per month. */
  datatype TrendSeries = TrendSeries(name: string, x: seq<string>, y: seq<real>)

  /** The groupby(['YEAR_MONTH', 'ITEM TYPE']) key of a row. */
  function MonthTypeOf(r: Row): (string, string) { (MonthLabelOf(r), r.itemType) }

  /** The pivot cell of (month, item type): the retail sales of the rows of that type in that
      month; unstack(fill_value=0) makes it 0 when there are none. */
  function Cell(rows: seq<Row>, month: string, itemType: string): real {
    SumWhere(Where(rows, ItemTypeOf, itemType), MonthLabelOf, month).retail
  }

  /** The pivot's index: the YEAR_MONTH labels present, ascending. */
  function TrendMonths(rows: seq<Row>): seq<string> {
    SortedKeys(rows, MonthLabelOf, StrLt)
  }

  /** The pivot's columns: the item types present, ascending. */
  function TrendTypes(rows: seq<Row>): seq<string> {
    SortedKeys(rows, ItemTypeOf, StrLt)
  }

  /** list(trends[item_type]): one cell per month of the index. */
  function TrendColumn(rows: seq<Row>, months: seq<string>, itemType: string): (y: seq<real>)
    ensures |y| == |months|
    ensures forall k :: 0 <= k < |months| ==> y[k] == Cell(rows, months[k], itemType)
  {
    seq(|months|, k requires 0 <= k < |months| => Cell(rows, months[k], itemType))
  }

  /** The loop over trends.columns: one series per item type, in column order. */
  method BuildTrendSeries(rows: seq<Row>, months: seq<string>, types: seq<string>) returns (data: seq<TrendSeries>)
    ensures |data| == |types|
    ensures forall i :: 0 <= i < |types| ==>
      data[i] == TrendSeries(types[i], months, TrendColumn(rows, months, types[i]))
  {
    data := [];
    for i := 0 to |types|
      invariant |data| == i
      invariant forall j :: 0 <= j < i ==> data[j] == TrendSeries(types[j], months, TrendColumn(rows, months, types[j]))
    {
      data := data + [TrendSeries(types[i], months, TrendColumn(rows, months, types[i]))];
    }
  }

  /** Filtering by type and then by month keeps the rows whose (month, type) key matches. */
  lemma {:induction false} WhereBoth(rows: seq<Row>, month: string, itemType: string)
    ensures Where(Where(rows, ItemTypeOf, itemType), MonthLabelOf, month) == Where(rows, MonthTypeOf, (month, itemType))
    decreases |rows|
  {
    if rows != [] {
      WhereBoth(rows[1..], month, itemType);
      assert Where(rows, ItemTypeOf, itemType)
        == (if ItemTypeOf(rows[0]) == itemType then [rows[0]] else []) + Where(rows[1..], ItemTypeOf, itemType);
      var head := if ItemTypeOf(rows[0]) == itemType then [rows[0]] else [];
      WhereAppend(head, Where(rows[1..], ItemTypeOf, itemType), MonthLabelOf, month);
    }
  }

  lemma {:induction false} WhereAppend<T(!new), K(!new)>(a: seq<T>, b: seq<T>, key: T -> K, k: K)
    ensures Where(a + b, key, k) == Where(a, key, k) + Where(b, key, k)
    decreases |a|
  {
    if a != [] {
      WhereAppend(a[1..], b, key, k);
      assert (a + b)[0] == a[0] && (a + b)[1..] == a[1..] + b;
    } else {
      assert a + b == b;
    }
  }

  /** A cell is the sum of the two-key group (month, type), and 0 when no row has that pair. */
  lemma TrendCellMeaning(rows: seq<Row>, month: string, itemType: string)
    ensures Cell(rows, month, itemType) == SumWhere(rows, MonthTypeOf, (month, itemType)).retail
    ensures (forall i :: 0 <= i < |rows| ==> MonthTypeOf(rows[i]) != (month, itemType)) ==>
      Cell(rows, month, itemType) == 0.0
  {
    WhereBoth(rows, month, itemType);
    if forall i :: 0 <= i < |rows| ==> MonthTypeOf(rows[i]) != (month, itemType) {
      SumWhereAbsent(rows, MonthTypeOf, (month, itemType));
    }
  }

  /** The chart's axes: the months and the item types strictly ascend, and every row's month
      and type appear. */
  lemma TrendAxes(rows: seq<Row>)
    ensures forall i, j :: 0 <= i < j < |TrendMonths(rows)| ==> StrLt(TrendMonths(rows)[i], TrendMonths(rows)[j])
    ensures forall i, j :: 0 <= i < j < |TrendTypes(rows)| ==> StrLt(TrendTypes(rows)[i], TrendTypes(rows)[j])
    ensures forall i :: 0 <= i < |rows| ==> MonthLabelOf(rows[i]) in TrendMonths(rows) && rows[i].itemType in TrendTypes(rows)
  {
    StrLtIsStrictTotalOrder();
    SortedKeysAscending(rows, MonthLabelOf, StrLt);
    SortedKeysAscending(rows, ItemTypeOf, StrLt);
  }

  /** Over all months, a type's line adds up to the type's retail sales: the zero-filled cells
      lose nothing and count nothing twice. */
  lemma TrendColumnConserves(rows: seq<Row>, itemType: string)
    ensures RealSum(TrendColumn(rows, TrendMonths(rows), itemType)) == SumWhere(rows, ItemTypeOf, itemType).retail
  {
    var months := TrendMonths(rows);
    var kept := Where(rows, ItemTypeOf, itemType);
    StrLtIsStrictTotalOrder();
    SortedKeysAscending(rows, MonthLabelOf, StrLt);
    forall i | 0 <= i < |kept| ensures MonthLabelOf(kept[i]) in months {
      assert kept[i] in rows;
      var j :| 0 <= j < |rows| && rows[j] == kept[i];
    }
    GroupsForConserve(months, kept, MonthLabelOf, RowAgg);
    var gs := GroupsFor(months, kept, MonthLabelOf, RowAgg);
    KeyedSeriesSum(gs, RetailSales);
    assert KeyedSeries(gs, RetailSales).y == TrendColumn(rows, months, itemType);
  }

  /** The cached frame: the loaded rows and the derived columns added so far. */
  class SalesFrame {
    var rows: seq<Row>
    var yearMonth: Option<seq<string>>
    var totalVolume: Option<seq<real>>

    /** A derived column, once added, holds the value computed from row i in cell i. */
    ghost predicate Valid()
      reads this
    {
      && (yearMonth.Some? ==> yearMonth.value == YearMonthColumn(rows))
      && (totalVolume.Some? ==> totalVolume.value == TotalVolumeColumn(rows))
    }

    /** The frame as load_data caches it: the loaded columns only. */
    constructor(loaded: seq<Row>)
      ensures Valid()
      ensures rows == loaded && yearMonth == None && totalVolume == None
    {
      rows := loaded;
      yearMonth := None;
      totalVolume := None;
    }

    /** df['YEAR_MONTH'] = ... */
    method AddYearMonth()
      requires Valid()
      modifies this
      ensures Valid()
      ensures rows == old(rows) && totalVolume == old(totalVolume)
      ensures yearMonth == Some(YearMonthColumn(rows))
    {
      yearMonth := Some(YearMonthColumn(rows));
    }

    /** df['TOTAL_VOLUME'] = df['RETAIL SALES'] + df['WAREHOUSE SALES'] + df['RETAIL TRANSFERS'] */
    method AddTotalVolume()
      requires Valid()
      modifies this
      ensures Valid()
      ensures rows == old(rows) && yearMonth == old(yearMonth)
      ensures totalVolume == Some(TotalVolumeColumn(rows))
    {
      totalVolume := Some(TotalVolumeColumn(rows));
    }

    /** The shared body of the three monthly column charts: refuse an empty frame, add
        YEAR_MONTH, and sum the column per label in label order. */
    method MonthlySum(c: Column) returns (r: Response<Series<string, real>>)
      requires Valid()
      modifies this
      ensures Valid()
      ensures rows == old(rows) && totalVolume == old(totalVolume)
      ensures |rows| == 0 ==> r == Error(NoData) && yearMonth == old(yearMonth)
      ensures |rows| > 0 ==> r == Ok(MonthlySeries(rows, c)) && yearMonth == Some(YearMonthColumn(rows))
    {
      if |rows| == 0 {
        return Error(NoData);
      }
      AddYearMonth();
      r := Ok(MonthlySeries(rows, c));
    }

    /** /api/monthly_retail_sales */
    method MonthlyRetailSales() returns (r: Response<Series<string, real>>)
      requires Valid()
      modifies this
      ensures Valid()
      ensures rows == old(rows) && totalVolume == old(totalVolume)
      ensures |rows| == 0 ==> r == Error(NoData) && yearMonth == old(yearMonth)
      ensures |rows| > 0 ==> r == Ok(MonthlySeries(rows, RetailSales)) && yearMonth == Some(YearMonthColumn(rows))
    {
      r := MonthlySum(RetailSales);
    }

    /** /api/monthly_warehouse_sales */
    method MonthlyWarehouseSales() returns (r: Response<Series<string, real>>)
      requires Valid()
      modifies this
      ensures Valid()
      ensures rows == old(rows) && totalVolume == old(totalVolume)
      ensures |rows| == 0 ==> r == Error(NoData) && yearMonth == old(yearMonth)
      ensures |rows| > 0 ==> r == Ok(MonthlySeries(rows, WarehouseSales)) && yearMonth == Some(YearMonthColumn(rows))
    {
      r := MonthlySum(WarehouseSales);
    }

    /** /api/monthly_transfers */
    method MonthlyTransfers() returns (r: Response<Series<string, real>>)
      requires Valid()
      modifies this
      ensures Valid()
      ensures rows == old(rows) && totalVolume == old(totalVolume)
      ensures |rows| == 0 ==> r == Error(NoData) && yearMonth == old(yearMonth)
      ensures |rows| > 0 ==> r == Ok(MonthlySeries(rows, RetailTransfers)) && yearMonth == Some(YearMonthColumn(rows))
    {
      r := MonthlySum(RetailTransfers);
    }

    /** /api/monthly_total_volume: adds YEAR_MONTH and TOTAL_VOLUME, then sums TOTAL_VOLUME
        per label (MonthlyVolumeIsCellSum: each point is the sum of its rows' cells). */
    method MonthlyTotalVolume() returns (r: Response<Series<string, real>>)
      requires Valid()
      modifies this
      ensures Valid()
      ensures rows == old(rows)
      ensures |rows| == 0 ==> r == Error(NoData) && yearMonth == old(yearMonth) && totalVolume == old(totalVolume)
      ensures |rows| > 0 ==>
        && r == Ok(MonthlySeries(rows, TotalVolume))
        && yearMonth == Some(YearMonthColumn(rows))
        && totalVolume == Some(TotalVolumeColumn(rows))
    {
      if |rows| == 0 {
        return Error(NoData);
      }
      AddYearMonth();
      AddTotalVolume();
      r := Ok(MonthlySeries(rows, TotalVolume));
    }

    /** /api/item_type_trends: adds YEAR_MONTH, pivots month by item type with 0 for missing
        pairs, and emits one line per item type. */
    method ItemTypeTrends() returns (r: Response<seq<TrendSeries>>)
      requires Valid()
      modifies this
      ensures Valid()
      ensures rows == old(rows) && totalVolume == old(totalVolume)
      ensures |rows| == 0 ==> r == Error(NoData) && yearMonth == old(yearMonth)
      ensures |rows| > 0 ==>
        && yearMonth == Some(YearMonthColumn(rows))
        && r.Ok? && |r.payload| == |TrendTypes(rows)|
        && forall i :: 0 <= i < |r.payload| ==>
             r.payload[i] == TrendSeries(TrendTypes(rows)[i], TrendMonths(rows), TrendColumn(rows, TrendMonths(rows), TrendTypes(rows)[i]))
    {
      if |rows| == 0 {
        return Error(NoData);
      }
      AddYearMonth();
      var data := BuildTrendSeries(rows, TrendMonths(rows), TrendTypes(rows));
      r := Ok(data);
    }
  }
}
