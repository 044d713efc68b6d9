/** The variant endpoints of backend/app_new.py that differ from backend/app_stable.py
    in their guards or their formulas.

    These endpoints read the table afresh on every request and do not check for an
    empty table first.  The KPI, overall, sales-mix and sales-by-type computations
    are those of the stable engine; on an empty table the KPI raises (the latest
    month is NaN and cannot be formatted with :02d) while the others answer with
    zero totals and empty lists.  The per-type sales/transfer ratio and the
    turnover proxy build a column with apply(axis=1), which on a frame without
    rows yields an empty column, so both answer on an empty table too: with
    empty lists, and for the proxy with a zero rate and the 'N/A' best category. */
module Variants {
  import opened Order
  import opened Floats
  import opened Table
  import opened Ranking
  import opened Ratios
  import opened Tiers
  import opened Responses
  import opened Snapshot
  import Stable

  // ---- get_kpi_data, get_overall_sales_performance, get_sales_mix ----------

  /** The snapshot of the stable engine; an empty table raises. */
  function KpiData(rows: seq<Row>): (r: Response<Kpi>)
    ensures r.Raised? <==> |rows| == 0
    ensures r.Ok? ==> r.payload == KpiOf(rows)
    ensures !r.Error?
  {
    if |rows| == 0 then Raised else Ok(KpiOf(rows))
  }

  /** Always answers, with the stable engine's payload. */
  function OverallSalesPerformance(rows: seq<Row>): (r: Response<Stable.Overall>)
    ensures r.Ok? && r.payload == Stable.OverallOf(rows)
  {
    Ok(Stable.OverallOf(rows))
  }

  /** On an empty table every total and every percentage is 0. */
  lemma OverallOfEmptyTable(rows: seq<Row>)
    requires |rows| == 0
    ensures OverallSalesPerformance(rows).payload.grandTotal == 0.0
    ensures OverallSalesPerformance(rows).payload.totalAmounts == [0.0, 0.0, 0.0]
    ensures OverallSalesPerformance(rows).payload.percentages == [0.0, 0.0, 0.0]
  {
  }

  function SalesMix(rows: seq<Row>): (r: Response<Stable.SalesMix>)
    ensures r.Ok? && r.payload == Stable.SalesMixOf(rows)
  {
    Ok(Stable.SalesMixOf(rows))
  }

  /** On an empty table the mix has no entries, no top contributor and a zero total. */
  lemma SalesMixOfEmptyTable(rows: seq<Row>)
    requires |rows| == 0
    ensures SalesMix(rows).payload.entries == []
    ensures SalesMix(rows).payload.topContributor == "N/A"
    ensures SalesMix(rows).payload.topPercentage == Finite(0.0)
    ensures SalesMix(rows).payload.totalRetailSales == 0.0
  {
    assert rows == [];
  }

  function SalesByItemType(rows: seq<Row>): (r: Response<seq<Stable.TypeSales>>)
    ensures r.Ok? && r.payload == Stable.SalesByItemTypeOf(rows)
  {
    Ok(Stable.SalesByItemTypeOf(rows))
  }

  /** The app_new top-selling endpoint on an empty table: no item qualifies. */
  lemma TopSellingOfEmptyTable(rows: seq<Row>)
    requires |rows| == 0
    ensures Stable.TopSellingOf(rows) == Error(Stable.NoSellingItems)
  {
    assert rows == [];
  }

  // ---- get_sales_transfer_ratio (per item type) ----------------------------

  datatype TypeRatio = TypeRatio(
    itemType: string,
    retailSales: real,
    retailTransfers: real,
    ratio: real,
    efficiencyCategory: string)

  function RatioValue(t: TypeRatio): real { t.ratio }

  /** RETAIL SALES / RETAIL TRANSFERS if RETAIL TRANSFERS > 0 else 0, and its category. */
  function TypeRatioOf(g: Group<string>): TypeRatio {
    var ratio := GuardedRatio(g.agg.retail, g.agg.transfers);
    TypeRatio(g.key, g.agg.retail, g.agg.transfers, ratio, EfficiencyCategory(ratio))
  }

  function TypeRatiosOf(gs: seq<Group<string>>): (ts: seq<TypeRatio>)
    ensures |ts| == |gs| && forall i :: 0 <= i < |gs| ==> ts[i] == TypeRatioOf(gs[i])
  {
    seq(|gs|, i requires 0 <= i < |gs| => TypeRatioOf(gs[i]))
  }

  /** One record per item type, highest ratio first. */
  function TypeRatiosFrom(gs: seq<Group<string>>): (ts: seq<TypeRatio>)
    ensures |ts| == |gs|
    ensures SortedDesc(ts, RatioValue)
    ensures multiset(ts) == multiset(TypeRatiosOf(gs))
  {
    SortDescSorted(TypeRatiosOf(gs), RatioValue);
    SortDesc(TypeRatiosOf(gs), RatioValue)
  }

  /** Always answers, also on an empty table, with the records of the item-type groups. */
  function SalesTransferRatio(rows: seq<Row>): (r: Response<seq<TypeRatio>>)
    ensures r.Ok? && r.payload == TypeRatiosFrom(Stable.TypeGroups(rows))
  {
    Ok(TypeRatiosFrom(Stable.TypeGroups(rows)))
  }

  /** On an empty table the five lists are empty. */
  lemma SalesTransferRatioOfEmptyTable(rows: seq<Row>)
    requires |rows| == 0
    ensures SalesTransferRatio(rows).payload == []
  {
    assert rows == [];
    assert Stable.TypeGroups(rows) == [];
  }

  /** Every record is one group's, with its guarded ratio and the category of that ratio. */
  lemma TypeRatiosAreGroups(gs: seq<Group<string>>)
    ensures forall t :: t in TypeRatiosFrom(gs) ==>
      && (exists g :: g in gs && g.key == t.itemType && g.agg.retail == t.retailSales && g.agg.transfers == t.retailTransfers)
      && t.ratio == GuardedRatio(t.retailSales, t.retailTransfers)
      && t.efficiencyCategory == EfficiencyCategory(t.ratio)
  {
    var ts := TypeRatiosOf(gs);
    forall t | t in TypeRatiosFrom(gs)
      ensures && (exists g :: g in gs && g.key == t.itemType && g.agg.retail == t.retailSales && g.agg.transfers == t.retailTransfers)
              && t.ratio == GuardedRatio(t.retailSales, t.retailTransfers)
              && t.efficiencyCategory == EfficiencyCategory(t.ratio)
    {
      assert t in multiset(ts);
      var i :| 0 <= i < |ts| && ts[i] == t;
      assert gs[i] in gs;
    }
  }

  /** Every group has its record. */
  lemma TypeRatiosCoverGroups(gs: seq<Group<string>>, j: nat)
    requires j < |gs|
    ensures TypeRatioOf(gs[j]) in TypeRatiosFrom(gs)
  {
    assert TypeRatiosOf(gs)[j] in multiset(TypeRatiosOf(gs));
  }

  /** With transfers the ratio scales back to the sales; "No Transfers" is a ratio of 0, which
      comes from having no positive transfers or from having no sales. */
  lemma TypeRatioMeaning(t: TypeRatio)
    requires t.ratio == GuardedRatio(t.retailSales, t.retailTransfers)
    requires t.efficiencyCategory == EfficiencyCategory(t.ratio)
    ensures t.retailTransfers > 0.0 ==> t.ratio * t.retailTransfers == t.retailSales
    ensures t.efficiencyCategory == "No Transfers" <==> t.retailTransfers <= 0.0 || t.retailSales == 0.0
  {
    GuardedRatioScales(t.retailSales, t.retailTransfers);
    EfficiencyCategoryBands(t.ratio);
  }

  /** On the table: each record's sums are its type's rows' sums, and every type that occurs
      has a record. */
  lemma TypeRatiosFromRows(rows: seq<Row>, i: nat)
    requires i < |rows|
    ensures forall t :: t in TypeRatiosFrom(Stable.TypeGroups(rows)) ==>
      t.retailSales == SumWhere(rows, ItemTypeOf, t.itemType).retail
      && t.retailTransfers == SumWhere(rows, ItemTypeOf, t.itemType).transfers
    ensures exists t :: t in TypeRatiosFrom(Stable.TypeGroups(rows)) && t.itemType == rows[i].itemType
  {
    var gs := Stable.TypeGroups(rows);
    TypeRatiosAreGroups(gs);
    forall t | t in TypeRatiosFrom(gs)
      ensures t.retailSales == SumWhere(rows, ItemTypeOf, t.itemType).retail
      ensures t.retailTransfers == SumWhere(rows, ItemTypeOf, t.itemType).transfers
    {
      var g :| g in gs && g.key == t.itemType && g.agg.retail == t.retailSales && g.agg.transfers == t.retailTransfers;
      Stable.TypeGroupFacts(rows, g);
    }
    GroupByCovers(rows, ItemTypeOf, RowAgg, StrLt);
    var j :| 0 <= j < |gs| && gs[j].key == ItemTypeOf(rows[i]);
    TypeRatiosCoverGroups(gs, j);
  }

  // ---- get_inventory_turnover_rate (ratio proxy) ----------------------------

  datatype TypeRate = TypeRate(itemType: string, retailSales: real, warehouseSales: real, turnoverRate: real)

  datatype TurnoverProxy = TurnoverProxy(
    turnoverRate: real,
    totalRetailSales: real,
    totalWarehouseSales: real,
    performanceCategory: string,
    performanceColor: string,
    benchmarks: seq<real>,
    types: seq<TypeRate>,
    efficientCategories: nat,
    totalCategories: nat,
    efficiencyPercentage: real,
    bestPerformingCategory: string,
    bestTurnoverRate: real)

  /** excellent, good, average, poor */
  const Benchmarks := [5.0, 3.0, 1.5, 0.5]

  function RateOf(t: TypeRate): real { t.turnoverRate }

  predicate IsEfficient(t: TypeRate) { t.turnoverRate >= 3.0 }

  /** RETAIL SALES / WAREHOUSE SALES if WAREHOUSE SALES > 0 else 0. */
  function TypeRateOf(g: Group<string>): TypeRate {
    TypeRate(g.key, g.agg.retail, g.agg.warehouse, GuardedRatio(g.agg.retail, g.agg.warehouse))
  }

  function TypeRatesOf(gs: seq<Group<string>>): (ts: seq<TypeRate>)
    ensures |ts| == |gs| && forall i :: 0 <= i < |gs| ==> ts[i] == TypeRateOf(gs[i])
  {
    seq(|gs|, i requires 0 <= i < |gs| => TypeRateOf(gs[i]))
  }

  /** The proxy from the table's totals and the item-type groups. */
  function TurnoverProxyFrom(a: Agg, gs: seq<Group<string>>): (t: TurnoverProxy)
    ensures t.totalRetailSales == a.retail && t.totalWarehouseSales == a.warehouse
    ensures |t.types| == |gs| == t.totalCategories
    ensures SortedDesc(t.types, RateOf)
    ensures t.efficientCategories == Count(t.types, IsEfficient) <= t.totalCategories
    ensures t.efficiencyPercentage == Share(t.efficientCategories as real, t.totalCategories as real)
    ensures t.types == [] ==> t.bestPerformingCategory == "N/A" && t.bestTurnoverRate == 0.0
    ensures t.types != [] ==> t.bestPerformingCategory == t.types[0].itemType && t.bestTurnoverRate == t.types[0].turnoverRate
  {
    var rate := GuardedRatio(a.retail, a.warehouse);
    var types := SortDesc(TypeRatesOf(gs), RateOf);
    SortDescSorted(TypeRatesOf(gs), RateOf);
    var efficient := Count(types, IsEfficient);
    TurnoverProxy(rate, a.retail, a.warehouse, PerformanceCategory(rate), PerformanceColor(rate), Benchmarks,
                  types, efficient, |types|, Share(efficient as real, |types| as real),
                  if types == [] then "N/A" else types[0].itemType,
                  if types == [] then 0.0 else types[0].turnoverRate)
  }

  /** Always answers, also on an empty table, with the proxy of the table's totals and its
      item-type groups. */
  function InventoryTurnoverRate(rows: seq<Row>): (r: Response<TurnoverProxy>)
    ensures r.Ok? && r.payload == TurnoverProxyFrom(Total(rows, RowAgg), Stable.TypeGroups(rows))
  {
    Ok(TurnoverProxyFrom(Total(rows, RowAgg), Stable.TypeGroups(rows)))
  }

  /** On an empty table the rate is 0, rated Critical in red, the totals are 0, the per-type
      lists are empty, 0 of 0 categories are efficient (0 percent) and the best is 'N/A' at 0. */
  lemma InventoryTurnoverOfEmptyTable(rows: seq<Row>)
    requires |rows| == 0
    ensures var t := InventoryTurnoverRate(rows).payload;
      && t.turnoverRate == 0.0
      && t.performanceCategory == "Critical" && t.performanceColor == "#F44336"
      && t.totalRetailSales == 0.0 && t.totalWarehouseSales == 0.0
      && t.types == []
      && t.efficientCategories == 0 && t.totalCategories == 0 && t.efficiencyPercentage == 0.0
      && t.bestPerformingCategory == "N/A" && t.bestTurnoverRate == 0.0
  {
    assert rows == [];
    assert Stable.TypeGroups(rows) == [];
  }

  /** The global rate scales back to the retail total when there are warehouse sales and is 0
      otherwise; its category and colour are the same rung of one ladder, whose thresholds are
      the benchmarks reported. */
  lemma TurnoverProxyRate(a: Agg, gs: seq<Group<string>>)
    ensures var t := TurnoverProxyFrom(a, gs);
      && (a.warehouse > 0.0 ==> t.turnoverRate * a.warehouse == a.retail)
      && (a.warehouse <= 0.0 ==> t.turnoverRate == 0.0)
      && t.performanceCategory == PerformanceCategories[Reached(t.turnoverRate, TurnoverThresholds)]
      && t.performanceColor == PerformanceColors[Reached(t.turnoverRate, TurnoverThresholds)]
      && t.benchmarks == Reverse(TurnoverThresholds)
  {
    var t := TurnoverProxyFrom(a, gs);
    GuardedRatioScales(a.retail, a.warehouse);
    PerformanceCategoryLadder(t.turnoverRate);
    PerformanceColorLadder(t.turnoverRate);
  }

  /** The best category has the highest rate, and the efficiency percentage is a real share. */
  lemma TurnoverProxyBest(a: Agg, gs: seq<Group<string>>)
    ensures var t := TurnoverProxyFrom(a, gs);
      && (forall x :: x in t.types ==> x.turnoverRate <= t.bestTurnoverRate)
      && 0.0 <= t.efficiencyPercentage <= 100.0
  {
    var t := TurnoverProxyFrom(a, gs);
    forall x | x in t.types ensures x.turnoverRate <= t.bestTurnoverRate {
      var i :| 0 <= i < |t.types| && t.types[i] == x;
      if i > 0 { assert RateOf(t.types[0]) >= RateOf(t.types[i]); }
    }
    if |t.types| > 0 {
      ShareOfCount(t.efficientCategories, t.totalCategories);
    }
  }

  /** Every per-type record is one group's, with its guarded rate. */
  lemma TurnoverProxyTypes(a: Agg, gs: seq<Group<string>>)
    ensures forall x :: x in TurnoverProxyFrom(a, gs).types ==>
      && (exists g :: g in gs && g.key == x.itemType && g.agg.retail == x.retailSales && g.agg.warehouse == x.warehouseSales)
      && x.turnoverRate == GuardedRatio(x.retailSales, x.warehouseSales)
  {
    var ts := TypeRatesOf(gs);
    forall x | x in TurnoverProxyFrom(a, gs).types
      ensures && (exists g :: g in gs && g.key == x.itemType && g.agg.retail == x.retailSales && g.agg.warehouse == x.warehouseSales)
              && x.turnoverRate == GuardedRatio(x.retailSales, x.warehouseSales)
    {
      assert x in multiset(ts);
      var i :| 0 <= i < |ts| && ts[i] == x;
      assert gs[i] in gs;
    }
  }

  /** Efficient categories are exactly those turning over at least 3.0, which the ladder calls
      Good or Excellent. */
  lemma EfficientIsGoodOrBetter(x: TypeRate)
    ensures IsEfficient(x) <==> PerformanceCategory(x.turnoverRate) in {"Good", "Excellent"}
  {
  }
}
