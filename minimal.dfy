/** The two stripped-down backends and the KPI test server.

    backend/app_minimal_working.py loads the filtered table once and refuses an empty one; its
    KPI adds guarded percentage changes, the best-selling supplier and two distinct counts.
    backend/app_minimal.py and backend/test_simple.py keep the table absent when it could not be
    loaded and answer 'Data not loaded' then; otherwise they compute the shared snapshot without
    an empty-table guard. */
module Minimal {
  import opened Order
  import opened Table
  import opened Ranking
  import opened Labels
  import opened Ratios
  import opened Responses
  import opened Periods
  import opened Snapshot
  import Stable
  import StableSuppliers
  import Variants

  // ---- backend/app_minimal_working.py -----------------------------------------

  datatype KpiSummary = KpiSummary(
    currentRetailSales: real,
    currentWarehouseSales: real,
    retailChangePercent: real,
    warehouseChangePercent: real,
    totalSalesCurrent: real,
    totalChangePercent: real,
    topSupplier: string,
    totalSuppliers: nat,
    totalItems: nat,
    currentMonth: string)

  datatype SalesTotals = SalesTotals(
    retailSales: real,
    warehouseSales: real,
    retailTransfers: real,
    totalRevenue: real,
    revenueStreams: nat)

  /** The distinct values of one column: what nunique() counts. */
  function Image(rows: seq<Row>, key: Row -> string): set<string> {
    set i | 0 <= i < |rows| :: key(rows[i])
  }

  /** df['SUPPLIER'].nunique() counts these. */
  function DistinctSuppliers(rows: seq<Row>): set<string> {
    Image(rows, SupplierOf)
  }

  /** df['ITEM CODE'].nunique() counts these. */
  function DistinctItemCodes(rows: seq<Row>): set<string> {
    Image(rows, ItemCodeOf)
  }

  /** A period's sum of one column, or 0 when the period has no rows, as the source guards it. */
  function GuardedSum(rows: seq<Row>, p: Period): (a: Agg)
    ensures a == SumWhere(rows, PeriodOf, p)
  {
    var inPeriod := Where(rows, PeriodOf, p);
    if |inPeriod| > 0 then Total(inPeriod, RowAgg) else NoRows
  }

  /** supplier_sales.index[0] of the suppliers sorted by retail sales, largest first. */
  function TopSupplier(rows: seq<Row>): string {
    var ranked := SortDesc(StableSuppliers.SupplierGroups(rows), Stable.GroupRetail);
    if ranked == [] then "N/A" else ranked[0].key
  }

  /** The summary from the two months' sums and the table-wide figures. */
  function KpiSummaryFrom(cur: Agg, prev: Agg, top: string, suppliers: nat, items: nat, month: string): KpiSummary {
    var totalCurrent := cur.retail + cur.warehouse;
    var totalPrevious := prev.retail + prev.warehouse;
    KpiSummary(cur.retail, cur.warehouse,
               PercentChange(cur.retail, prev.retail), PercentChange(cur.warehouse, prev.warehouse),
               totalCurrent, PercentChange(totalCurrent, totalPrevious),
               top, suppliers, items, month)
  }

  /** The latest month's sums against the calendar month before it (each 0 when the month has no
      rows), the top supplier, the two distinct counts and the latest month's label. */
  function KpiSummaryOf(rows: seq<Row>): (k: KpiSummary)
    requires |rows| > 0
    ensures var p := LatestPeriod(rows);
      k == KpiSummaryFrom(SumWhere(rows, PeriodOf, p), SumWhere(rows, PeriodOf, PreviousPeriod(p)), TopSupplier(rows),
                          |DistinctSuppliers(rows)|, |DistinctItemCodes(rows)|, PeriodLabel(p))
  {
    var p := LatestPeriod(rows);
    KpiSummaryFrom(GuardedSum(rows, p), GuardedSum(rows, PreviousPeriod(p)), TopSupplier(rows),
                   |DistinctSuppliers(rows)|, |DistinctItemCodes(rows)|, PeriodLabel(p))
  }

  function KpiData(rows: seq<Row>): (r: Response<KpiSummary>)
    ensures !r.Raised?
    ensures r.Error? <==> |rows| == 0
    ensures r.Error? ==> r.message == NoData
  {
    if |rows| == 0 then Error(NoData) else Ok(KpiSummaryOf(rows))
  }

  function SalesPerformance(rows: seq<Row>): (r: Response<SalesTotals>)
    ensures !r.Raised?
    ensures r.Error? <==> |rows| == 0
    ensures r.Error? ==> r.message == NoData
    ensures r.Ok? ==> var t := Total(rows, RowAgg);
      r.payload == SalesTotals(t.retail, t.warehouse, t.transfers, t.retail + t.warehouse + t.transfers, 3)
  {
    if |rows| == 0 then Error(NoData)
    else
      var t := Total(rows, RowAgg);
      Ok(SalesTotals(t.retail, t.warehouse, t.transfers, t.retail + t.warehouse + t.transfers, 3))
  }

  /** The month's guard only spells out what an empty sum already gives: a month without rows
      sums to 0. */
  lemma GuardedSumOfAbsentMonth(rows: seq<Row>, p: Period)
    requires forall i :: 0 <= i < |rows| ==> PeriodOf(rows[i]) != p
    ensures GuardedSum(rows, p) == NoRows
  {
    SumWhereAbsent(rows, PeriodOf, p);
  }

  /** The current total adds the two current figures, and each percentage change recovers its
      current value from a positive previous one and is 0 otherwise. */
  lemma KpiSummaryChanges(cur: Agg, prev: Agg, top: string, suppliers: nat, items: nat, month: string)
    ensures var k := KpiSummaryFrom(cur, prev, top, suppliers, items, month);
      var totalPrevious := prev.retail + prev.warehouse;
      && k.currentRetailSales == cur.retail && k.currentWarehouseSales == cur.warehouse
      && k.totalSalesCurrent == cur.retail + cur.warehouse
      && (prev.retail > 0.0 ==> prev.retail + prev.retail * k.retailChangePercent / 100.0 == k.currentRetailSales)
      && (prev.retail <= 0.0 ==> k.retailChangePercent == 0.0)
      && (prev.warehouse > 0.0 ==> prev.warehouse + prev.warehouse * k.warehouseChangePercent / 100.0 == k.currentWarehouseSales)
      && (prev.warehouse <= 0.0 ==> k.warehouseChangePercent == 0.0)
      && (totalPrevious > 0.0 ==> totalPrevious + totalPrevious * k.totalChangePercent / 100.0 == k.totalSalesCurrent)
      && (totalPrevious <= 0.0 ==> k.totalChangePercent == 0.0)
  {
    PercentChangeRecovers(cur.retail, prev.retail);
    PercentChangeRecovers(cur.warehouse, prev.warehouse);
    PercentChangeRecovers(cur.retail + cur.warehouse, prev.retail + prev.warehouse);
  }

  /** The top supplier of a non-empty table is a supplier of the table that no supplier
      outsells. */
  lemma TopSupplierIsLargest(rows: seq<Row>)
    requires |rows| > 0
    ensures exists g ::
      && g in StableSuppliers.SupplierGroups(rows) && g.key == TopSupplier(rows)
      && forall h :: h in StableSuppliers.SupplierGroups(rows) ==> h.agg.retail <= g.agg.retail
  {
    var gs := StableSuppliers.SupplierGroups(rows);
    var ranked := SortDesc(gs, Stable.GroupRetail);
    GroupByNonEmpty(rows, SupplierOf, RowAgg, StrLt);
    SortDescSorted(gs, Stable.GroupRetail);
    SortDescMembers(gs, Stable.GroupRetail);
    var g := ranked[0];
    assert g in ranked;
    forall h | h in gs ensures h.agg.retail <= g.agg.retail {
      assert h in ranked;
      var j :| 0 <= j < |ranked| && ranked[j] == h;
      if j > 0 { assert Stable.GroupRetail(ranked[0]) >= Stable.GroupRetail(ranked[j]); }
    }
  }

  lemma {:induction false} DistinctKeysCount<K>(ks: seq<K>)
    requires forall i, j :: 0 <= i < j < |ks| ==> ks[i] != ks[j]
    ensures |set i | 0 <= i < |ks| :: ks[i]| == |ks|
    decreases |ks|
  {
    if ks != [] {
      var rest := ks[1..];
      DistinctKeysCount(rest);
      var s, s' := set i | 0 <= i < |ks| :: ks[i], set i | 0 <= i < |rest| :: rest[i];
      assert s == s' + {ks[0]} by {
        forall x | x in s ensures x in s' + {ks[0]} {
          var i :| 0 <= i < |ks| && ks[i] == x;
          if i > 0 { assert rest[i - 1] == x; }
        }
        forall x | x in s' ensures x in s {
          var i :| 0 <= i < |rest| && rest[i] == x;
          assert ks[i + 1] == x;
        }
      }
      assert ks[0] !in s';
    }
  }

  function GroupKeys(gs: seq<Group<string>>): (ks: seq<string>)
    ensures |ks| == |gs| && forall j :: 0 <= j < |gs| ==> ks[j] == gs[j].key
  {
    seq(|gs|, j requires 0 <= j < |gs| => gs[j].key)
  }

  lemma GroupKeysDistinct(rows: seq<Row>, key: Row -> string)
    ensures var ks := GroupKeys(GroupBy(rows, key, RowAgg, StrLt));
      forall i, j :: 0 <= i < j < |ks| ==> ks[i] != ks[j]
  {
    var gs := GroupBy(rows, key, RowAgg, StrLt);
    StrLtIsStrictTotalOrder();
    GroupByAscending(rows, key, RowAgg, StrLt);
    forall i, j | 0 <= i < j < |gs| ensures gs[i].key != gs[j].key {
      assert StrLt(gs[i].key, gs[j].key);
      StrLtIrreflexive(gs[i].key);
    }
  }

  function KeySet(ks: seq<string>): set<string> {
    set j | 0 <= j < |ks| :: ks[j]
  }

  lemma ValuesAreGroupKeys(rows: seq<Row>, key: Row -> string)
    ensures Image(rows, key) <= KeySet(GroupKeys(GroupBy(rows, key, RowAgg, StrLt)))
  {
    var gs := GroupBy(rows, key, RowAgg, StrLt);
    var ks, values := GroupKeys(gs), Image(rows, key);
    GroupByCovers(rows, key, RowAgg, StrLt);
    forall x | x in values ensures x in KeySet(ks) {
      var i :| 0 <= i < |rows| && key(rows[i]) == x;
      var j :| 0 <= j < |gs| && gs[j].key == key(rows[i]);
      assert ks[j] == x;
    }
  }

  lemma GroupKeysAreValues(rows: seq<Row>, key: Row -> string)
    ensures KeySet(GroupKeys(GroupBy(rows, key, RowAgg, StrLt))) <= Image(rows, key)
  {
    var gs := GroupBy(rows, key, RowAgg, StrLt);
    var ks, values := GroupKeys(gs), Image(rows, key);
    GroupByKeysOccur(rows, key, RowAgg, StrLt);
    forall x | x in KeySet(ks) ensures x in values {
      var j :| 0 <= j < |ks| && ks[j] == x;
      var i :| 0 <= i < |rows| && key(rows[i]) == gs[j].key;
    }
  }

  /** nunique() counts the groups groupby makes: one per distinct value. */
  lemma DistinctIsGroupCount(rows: seq<Row>, key: Row -> string)
    ensures |Image(rows, key)| == |GroupBy(rows, key, RowAgg, StrLt)|
  {
    var ks := GroupKeys(GroupBy(rows, key, RowAgg, StrLt));
    GroupKeysDistinct(rows, key);
    GroupKeysAreValues(rows, key);
    ValuesAreGroupKeys(rows, key);
    DistinctKeysCount(ks);
    assert Image(rows, key) == KeySet(ks);
  }

  lemma {:induction false} SubsetCard<T>(a: set<T>, b: set<T>)
    requires a <= b
    ensures |a| <= |b|
    decreases |a|
  {
    if a != {} {
      var x :| x in a;
      SubsetCard(a - {x}, b - {x});
    }
  }

  lemma {:induction false} ImageBounded(rows: seq<Row>, key: Row -> string)
    requires |rows| > 0
    ensures 1 <= |Image(rows, key)| <= |rows|
    decreases |rows|
  {
    var s := Image(rows, key);
    assert key(rows[0]) in s;
    if |rows| > 1 {
      var rest := rows[1..];
      ImageBounded(rest, key);
      var s' := Image(rest, key);
      assert s <= s' + {key(rows[0])} by {
        forall x | x in s ensures x in s' + {key(rows[0])} {
          var i :| 0 <= i < |rows| && key(rows[i]) == x;
          if i > 0 { assert key(rest[i - 1]) == x; }
        }
      }
      SubsetCard(s, s' + {key(rows[0])});
      assert |s' + {key(rows[0])}| <= |s'| + 1;
    } else {
      assert s == {key(rows[0])};
    }
  }

  /** The supplier count is the number of supplier groups and the item count the number of
      item-code groups; on a non-empty table both lie between 1 and the number of rows. */
  lemma DistinctCounts(rows: seq<Row>)
    requires |rows| > 0
    ensures |DistinctSuppliers(rows)| == |StableSuppliers.SupplierGroups(rows)|
    ensures |DistinctItemCodes(rows)| == |GroupBy(rows, ItemCodeOf, RowAgg, StrLt)|
    ensures 1 <= |DistinctSuppliers(rows)| <= |rows|
    ensures 1 <= |DistinctItemCodes(rows)| <= |rows|
  {
    DistinctIsGroupCount(rows, SupplierOf);
    DistinctIsGroupCount(rows, ItemCodeOf);
    ImageBounded(rows, SupplierOf);
    ImageBounded(rows, ItemCodeOf);
  }

  // ---- backend/app_minimal.py and backend/test_simple.py ------------------------

  /** The table of a server that loads it once; Absent when loading failed. */
  datatype Dataset = Absent | Loaded(rows: seq<Row>)

  const NotLoaded := "Data not loaded"

  /** The snapshot, or 'Data not loaded'; an empty loaded table raises as in app_new. */
  function LoadedKpi(d: Dataset): (r: Response<Kpi>)
    ensures d.Absent? ==> r == Error(NotLoaded)
    ensures d.Loaded? ==> r == Variants.KpiData(d.rows)
  {
    match d
    case Absent => Error(NotLoaded)
    case Loaded(rows) => Variants.KpiData(rows)
  }

  /** The overall totals and zero-safe shares, or 'Data not loaded'. */
  function LoadedOverall(d: Dataset): (r: Response<Stable.Overall>)
    ensures d.Absent? <==> r.Error?
    ensures r.Error? ==> r.message == NotLoaded
    ensures d.Loaded? ==> r == Ok(Stable.OverallOf(d.rows))
  {
    match d
    case Absent => Error(NotLoaded)
    case Loaded(rows) => Ok(Stable.OverallOf(rows))
  }

  /** A loaded table gets the snapshot exactly when it has rows; the snapshot compares the latest
      month with the calendar month before it. */
  lemma LoadedKpiCases(d: Dataset)
    ensures LoadedKpi(d).Error? <==> d.Absent?
    ensures LoadedKpi(d).Raised? <==> d.Loaded? && |d.rows| == 0
    ensures LoadedKpi(d).Ok? ==>
      d.Loaded? && |d.rows| > 0 && LoadedKpi(d).payload.previousName == PeriodLabel(PreviousPeriod(LatestPeriod(d.rows)))
  {
  }
}
