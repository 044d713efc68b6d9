/** The ten endpoints of backend/app_stable.py, the engine the entry point serves.

    Each endpoint reads the table loaded at start-up and answers
    {'error': 'No data available'} when it is empty, before computing any
    field.  The payloads keep the source's field order; parallel JSON
    lists (item_types, retail_sales, ...) are one sequence of records
    here, so their alignment holds by construction. */
module Stable {
  import opened Order
  import opened Floats
  import opened Table
  import opened Ranking
  import opened Labels
  import opened Ratios
  import opened Tiers
  import opened Responses
  import opened Snapshot

  // ---- get_kpi_data -------------------------------------------------------

  function KpiData(rows: seq<Row>): (r: Response<Kpi>)
    ensures |rows| == 0 ==> r == Error(NoData)
    ensures |rows| > 0 ==> r == Ok(KpiOf(rows))
  {
    if |rows| == 0 then Error(NoData) else Ok(KpiOf(rows))
  }

  // ---- get_overall_sales_performance -------------------------------------

  datatype Summary = Summary(totalRetailSales: real, totalRetailTransfers: real, totalWarehouseSales: real, grandTotal: real)

  datatype Overall = Overall(
    revenueStreams: seq<string>,
    totalAmounts: seq<real>,
    percentages: seq<real>,
    grandTotal: real,
    summary: Summary)

  const RevenueStreams := ["Retail Sales", "Retail Transfers", "Warehouse Sales"]

  /** The three stream totals, their grand total and each stream's zero-safe share of it. */
  function OverallOf(rows: seq<Row>): (o: Overall)
    ensures var t := Total(rows, RowAgg);
      && o.revenueStreams == RevenueStreams
      && o.totalAmounts == [t.retail, t.transfers, t.warehouse]
      && o.grandTotal == t.retail + t.transfers + t.warehouse
      && o.summary == Summary(t.retail, t.transfers, t.warehouse, o.grandTotal)
      && |o.percentages| == 3
      && (o.grandTotal > 0.0 ==> o.percentages[0] + o.percentages[1] + o.percentages[2] == 100.0)
      && (o.grandTotal > 0.0 ==> forall i :: 0 <= i < 3 ==> o.percentages[i] * o.grandTotal == o.totalAmounts[i] * 100.0)
      && (o.grandTotal <= 0.0 ==> o.percentages == [0.0, 0.0, 0.0])
  {
    var t := Total(rows, RowAgg);
    var grand := t.retail + t.transfers + t.warehouse;
    var o := Overall(RevenueStreams, [t.retail, t.transfers, t.warehouse],
                     [Share(t.retail, grand), Share(t.transfers, grand), Share(t.warehouse, grand)],
                     grand, Summary(t.retail, t.transfers, t.warehouse, grand));
    ShareScales(t.retail, grand);
    ShareScales(t.transfers, grand);
    ShareScales(t.warehouse, grand);
    if grand > 0.0 then SharesOfThree(t.retail, t.transfers, t.warehouse); o else o
  }

  function OverallSalesPerformance(rows: seq<Row>): (r: Response<Overall>)
    ensures |rows| == 0 ==> r == Error(NoData)
    ensures |rows| > 0 ==> r == Ok(OverallOf(rows))
  {
    if |rows| == 0 then Error(NoData) else Ok(OverallOf(rows))
  }

  // ---- get_sales_mix ------------------------------------------------------

  datatype MixEntry = MixEntry(itemType: string, retailSales: real, percentage: Float, category: string)

  datatype SalesMix = SalesMix(entries: seq<MixEntry>, totalRetailSales: real, topContributor: string, topPercentage: Float)

  function MixRetail(e: MixEntry): real { e.retailSales }

  /** df.groupby('ITEM TYPE'), summed. */
  function TypeGroups(rows: seq<Row>): seq<Group<string>> {
    GroupBy(rows, ItemTypeOf, RowAgg, StrLt)
  }

  function MixOf(g: Group<string>, total: real): MixEntry {
    var pct := Percent(g.agg.retail, total);
    MixEntry(g.key, g.agg.retail, pct, ContributorCategory(pct))
  }

  function MixOfGroups(gs: seq<Group<string>>, total: real): (es: seq<MixEntry>)
    ensures |es| == |gs| && forall i :: 0 <= i < |gs| ==> es[i] == MixOf(gs[i], total)
  {
    seq(|gs|, i requires 0 <= i < |gs| => MixOf(gs[i], total))
  }

  /** One entry per item type, largest retail first; the percentage is not guarded (a zero
      total gives NaN or an infinity).  What each entry holds is SalesMixEntries. */
  function SalesMixOf(rows: seq<Row>): (m: SalesMix)
    ensures m.totalRetailSales == Total(rows, RowAgg).retail
    ensures |m.entries| == |TypeGroups(rows)|
    ensures SortedDesc(m.entries, MixRetail)
    ensures m.topContributor == (if m.entries == [] then "N/A" else m.entries[0].itemType)
    ensures m.topPercentage == (if m.entries == [] then Finite(0.0) else m.entries[0].percentage)
  {
    var gs := TypeGroups(rows);
    StrLtIsStrictTotalOrder();
    GroupByConserves(rows, ItemTypeOf, RowAgg, StrLt);
    var total := Total(gs, GroupAgg).retail;
    var entries := SortDesc(MixOfGroups(gs, total), MixRetail);
    SortDescSorted(MixOfGroups(gs, total), MixRetail);
    SalesMix(entries, total,
             if entries == [] then "N/A" else entries[0].itemType,
             if entries == [] then Finite(0.0) else entries[0].percentage)
  }

  /** A group of df.groupby('ITEM TYPE') sums exactly the rows of its type, and that type occurs. */
  lemma TypeGroupFacts(rows: seq<Row>, g: Group<string>)
    requires g in TypeGroups(rows)
    ensures g.agg == SumWhere(rows, ItemTypeOf, g.key)
    ensures exists i :: 0 <= i < |rows| && rows[i].itemType == g.key
  {
    GroupByKeysOccur(rows, ItemTypeOf, RowAgg, StrLt);
    var j :| 0 <= j < |TypeGroups(rows)| && TypeGroups(rows)[j] == g;
    var i :| 0 <= i < |rows| && ItemTypeOf(rows[i]) == g.key;
  }

  /** The entries are the per-type records, reordered. */
  lemma SalesMixIsMixOfGroups(rows: seq<Row>)
    ensures var gs := TypeGroups(rows);
      && SalesMixOf(rows).entries == SortDesc(MixOfGroups(gs, Total(gs, GroupAgg).retail), MixRetail)
      && Total(gs, GroupAgg).retail == Total(rows, RowAgg).retail
  {
    StrLtIsStrictTotalOrder();
    GroupByConserves(rows, ItemTypeOf, RowAgg, StrLt);
  }

  lemma MixEntriesAreGroups(gs: seq<Group<string>>, total: real)
    ensures forall e :: e in SortDesc(MixOfGroups(gs, total), MixRetail) ==>
      exists j :: 0 <= j < |gs| && e == MixOf(gs[j], total)
  {
    SortDescMembers(MixOfGroups(gs, total), MixRetail);
  }

  lemma MixEntriesCoverGroups(gs: seq<Group<string>>, total: real, j: nat)
    requires j < |gs|
    ensures MixOf(gs[j], total) in SortDesc(MixOfGroups(gs, total), MixRetail)
  {
    SortDescMembers(MixOfGroups(gs, total), MixRetail);
    assert MixOfGroups(gs, total)[j] == MixOf(gs[j], total);
  }

  /** Every item type that occurs has its group. */
  lemma TypeGroupsCover(rows: seq<Row>, i: nat)
    requires i < |rows|
    ensures exists j :: 0 <= j < |TypeGroups(rows)| && TypeGroups(rows)[j].key == rows[i].itemType
  {
    GroupByCovers(rows, ItemTypeOf, RowAgg, StrLt);
    var gs := TypeGroups(rows);
    assert exists j :: 0 <= j < |gs| && gs[j].key == ItemTypeOf(rows[i]);
  }

  /** Each entry holds one type's own retail total, its share of the whole and the category of
      that share. */
  lemma SalesMixEntries(rows: seq<Row>)
    ensures forall e :: e in SalesMixOf(rows).entries ==>
      && e.retailSales == SumWhere(rows, ItemTypeOf, e.itemType).retail
      && e.percentage == Percent(e.retailSales, SalesMixOf(rows).totalRetailSales)
      && e.category == ContributorCategory(e.percentage)
  {
    var gs := TypeGroups(rows);
    SalesMixIsMixOfGroups(rows);
    var total := Total(rows, RowAgg).retail;
    var es := SortDesc(MixOfGroups(gs, total), MixRetail);
    assert SalesMixOf(rows).entries == es;
    MixEntriesAreGroups(gs, total);
    forall e | e in es
      ensures e.retailSales == SumWhere(rows, ItemTypeOf, e.itemType).retail
      ensures e.percentage == Percent(e.retailSales, total)
      ensures e.category == ContributorCategory(e.percentage)
    {
      var j :| 0 <= j < |gs| && e == MixOf(gs[j], total);
      TypeGroupFacts(rows, gs[j]);
    }
  }

  /** Every entry names an item type that occurs in the table. */
  lemma SalesMixTypesOccur(rows: seq<Row>)
    ensures forall e :: e in SalesMixOf(rows).entries ==>
      exists i :: 0 <= i < |rows| && rows[i].itemType == e.itemType
  {
    var gs := TypeGroups(rows);
    SalesMixIsMixOfGroups(rows);
    var total := Total(rows, RowAgg).retail;
    var es := SortDesc(MixOfGroups(gs, total), MixRetail);
    assert SalesMixOf(rows).entries == es;
    MixEntriesAreGroups(gs, total);
    forall e | e in es
      ensures exists i :: 0 <= i < |rows| && rows[i].itemType == e.itemType
    {
      var j :| 0 <= j < |gs| && e == MixOf(gs[j], total);
      TypeGroupFacts(rows, gs[j]);
    }
  }

  /** Every item type that occurs in the table has an entry. */
  lemma SalesMixCoversTypes(rows: seq<Row>)
    ensures forall i :: 0 <= i < |rows| ==>
      exists e :: e in SalesMixOf(rows).entries && e.itemType == rows[i].itemType
  {
    var gs := TypeGroups(rows);
    SalesMixIsMixOfGroups(rows);
    var total := Total(rows, RowAgg).retail;
    var es := SortDesc(MixOfGroups(gs, total), MixRetail);
    assert SalesMixOf(rows).entries == es;
    forall i | 0 <= i < |rows| ensures exists e :: e in es && e.itemType == rows[i].itemType {
      TypeGroupsCover(rows, i);
      var j :| 0 <= j < |gs| && gs[j].key == rows[i].itemType;
      MixEntriesCoverGroups(gs, total, j);
    }
  }

  function SalesMixData(rows: seq<Row>): (r: Response<SalesMix>)
    ensures |rows| == 0 ==> r == Error(NoData)
    ensures |rows| > 0 ==> r == Ok(SalesMixOf(rows))
  {
    if |rows| == 0 then Error(NoData) else Ok(SalesMixOf(rows))
  }

  // ---- get_sales_by_item_type --------------------------------------------

  datatype TypeSales = TypeSales(itemType: string, retailSales: real, retailTransfers: real, warehouseSales: real, totalSales: real)

  function TotalSalesOf(e: TypeSales): real { e.totalSales }

  function TypeSalesOf(g: Group<string>): TypeSales {
    TypeSales(g.key, g.agg.retail, g.agg.transfers, g.agg.warehouse, g.agg.Volume())
  }

  function TypeSalesOfGroups(gs: seq<Group<string>>): (es: seq<TypeSales>)
    ensures |es| == |gs| && forall i :: 0 <= i < |gs| ==> es[i] == TypeSalesOf(gs[i])
  {
    seq(|gs|, i requires 0 <= i < |gs| => TypeSalesOf(gs[i]))
  }

  /** One record per item type, largest TOTAL SALES first. */
  function SalesByItemTypeOf(rows: seq<Row>): (es: seq<TypeSales>)
    ensures |es| == |TypeGroups(rows)|
    ensures SortedDesc(es, TotalSalesOf)
  {
    SortDescSorted(TypeSalesOfGroups(TypeGroups(rows)), TotalSalesOf);
    SortDesc(TypeSalesOfGroups(TypeGroups(rows)), TotalSalesOf)
  }

  function SalesByItemType(rows: seq<Row>): (r: Response<seq<TypeSales>>)
    ensures |rows| == 0 ==> r == Error(NoData)
    ensures |rows| > 0 ==> r == Ok(SalesByItemTypeOf(rows))
  {
    if |rows| == 0 then Error(NoData) else Ok(SalesByItemTypeOf(rows))
  }

  lemma TypeSalesAreGroups(gs: seq<Group<string>>)
    ensures forall e :: e in SortDesc(TypeSalesOfGroups(gs), TotalSalesOf) ==>
      exists j :: 0 <= j < |gs| && e == TypeSalesOf(gs[j])
  {
    SortDescMembers(TypeSalesOfGroups(gs), TotalSalesOf);
  }

  /** Each record holds its type's three column sums and their total. */
  lemma SalesByItemTypeEntries(rows: seq<Row>)
    ensures forall e :: e in SalesByItemTypeOf(rows) ==>
      && e.retailSales == SumWhere(rows, ItemTypeOf, e.itemType).retail
      && e.retailTransfers == SumWhere(rows, ItemTypeOf, e.itemType).transfers
      && e.warehouseSales == SumWhere(rows, ItemTypeOf, e.itemType).warehouse
      && e.totalSales == e.retailSales + e.retailTransfers + e.warehouseSales
  {
    var gs := TypeGroups(rows);
    TypeSalesAreGroups(gs);
    forall e | e in SalesByItemTypeOf(rows)
      ensures e.retailSales == SumWhere(rows, ItemTypeOf, e.itemType).retail
      ensures e.retailTransfers == SumWhere(rows, ItemTypeOf, e.itemType).transfers
      ensures e.warehouseSales == SumWhere(rows, ItemTypeOf, e.itemType).warehouse
      ensures e.totalSales == e.retailSales + e.retailTransfers + e.warehouseSales
    {
      var j :| 0 <= j < |gs| && e == TypeSalesOf(gs[j]);
      TypeGroupFacts(rows, gs[j]);
    }
  }

  lemma {:induction false} TypeSalesSum(gs: seq<Group<string>>)
    ensures SumBy(TypeSalesOfGroups(gs), TotalSalesOf) == Total(gs, GroupAgg).Volume()
    decreases |gs|
  {
    if gs != [] {
      TypeSalesSum(gs[1..]);
      assert TypeSalesOfGroups(gs)[1..] == TypeSalesOfGroups(gs[1..]);
    }
  }

  /** The per-type totals add up to the table's whole volume. */
  lemma SalesByItemTypeConserves(rows: seq<Row>)
    ensures SumBy(SalesByItemTypeOf(rows), TotalSalesOf) == Total(rows, RowAgg).Volume()
  {
    var gs := TypeGroups(rows);
    StrLtIsStrictTotalOrder();
    GroupByConserves(rows, ItemTypeOf, RowAgg, StrLt);
    TypeSalesSum(gs);
    SumBySorted(TypeSalesOfGroups(gs), TotalSalesOf, TotalSalesOf);
  }

  // ---- get_top_selling_items ---------------------------------------------

  datatype RankedItem = RankedItem(
    itemCode: string,
    displayLabel: string,
    itemDescription: string,
    retailSales: real,
    rank: nat,
    performanceTier: string)

  datatype TopSelling = TopSelling(
    items: seq<RankedItem>,
    top10Total: real,
    top10Percentage: real,
    totalRetailSales: real,
    bestItem: string,
    bestSales: real)

  const NoSellingItems := "No items with sales data found"

  function GroupRetail<K>(g: Group<K>): real { g.agg.retail }

  predicate HasRetail<K>(g: Group<K>) { g.agg.retail > 0.0 }

  function ItemSales(item: RankedItem): real { item.retailSales }

  /** df.groupby(['ITEM CODE', 'ITEM DESCRIPTION'])['RETAIL SALES'].sum() */
  function ItemGroups(rows: seq<Row>): seq<Group<(string, string)>> {
    GroupBy(rows, ItemOf, RowAgg, PairLt)
  }

  /** item_sales after dropping the items without positive retail sales, still in key order. */
  function SellingItems(rows: seq<Row>): seq<Group<(string, string)>> {
    Filter(ItemGroups(rows), HasRetail)
  }

  function RankItem(g: Group<(string, string)>, rank: nat): RankedItem {
    RankedItem(g.key.0, DisplayLabel(g.key.0, g.key.1, 25), g.key.1, g.agg.retail, rank, PerformanceTier(rank))
  }

  /** RANK = 1..n down the sorted top items. */
  function RankItems(top: seq<Group<(string, string)>>): (ranked: seq<RankedItem>)
    ensures |ranked| == |top| && forall k :: 0 <= k < |top| ==> ranked[k] == RankItem(top[k], k + 1)
  {
    seq(|top|, k requires 0 <= k < |top| => RankItem(top[k], k + 1))
  }

  /** The endpoint from item_sales (already filtered, in key order) and the table's retail total. */
  function TopSellingFrom(sel: seq<Group<(string, string)>>, total: real): (r: Response<TopSelling>)
    ensures !r.Raised?
    ensures r.Error? <==> sel == []
    ensures r.Error? ==> r.message == NoSellingItems
    ensures r.Ok? ==> r.payload.totalRetailSales == total
  {
    var top := TopN(sel, GroupRetail, 10);
    TopNKeepsLargest(sel, GroupRetail, 10);
    if |top| == 0 then Error(NoSellingItems)
    else
      var ranked := RankItems(top);
      var top10Total := SumBy(ranked, ItemSales);
      // best_item: see BestItemAsWritten for what the source reads instead
      Ok(TopSelling(Reverse(ranked), top10Total, Share(top10Total, total), total, ranked[0].itemCode, ranked[0].retailSales))
  }

  /** The app_new top-selling endpoint: no check for an empty table. */
  function TopSellingOf(rows: seq<Row>): (r: Response<TopSelling>)
    ensures !r.Raised?
    ensures r.Error? ==> r.message == NoSellingItems
    ensures r.Ok? ==> r.payload.totalRetailSales == Total(rows, RowAgg).retail
  {
    TopSellingFrom(SellingItems(rows), Total(rows, RowAgg).retail)
  }

  function TopSellingData(rows: seq<Row>): (r: Response<TopSelling>)
    ensures |rows| == 0 ==> r == Error(NoData)
    ensures |rows| > 0 ==> r == TopSellingOf(rows)
  {
    if |rows| == 0 then Error(NoData) else TopSellingOf(rows)
  }

  /** The error is returned exactly when no item has positive retail sales. */
  lemma TopSellingErrorIff(rows: seq<Row>)
    ensures TopSellingOf(rows).Error? <==> forall g :: g in ItemGroups(rows) ==> g.agg.retail <= 0.0
  {
    var sel := SellingItems(rows);
    if sel != [] {
      assert sel[0] in sel;
    }
  }

  /** A group that survives the filter sums its item's rows, is positive and its item occurs. */
  lemma SellingItemFacts(rows: seq<Row>, g: Group<(string, string)>)
    requires g in SellingItems(rows)
    ensures g.agg.retail > 0.0
    ensures g.agg == SumWhere(rows, ItemOf, g.key)
    ensures exists i :: 0 <= i < |rows| && ItemOf(rows[i]) == g.key
  {
    GroupByKeysOccur(rows, ItemOf, RowAgg, PairLt);
    assert g in ItemGroups(rows);
    var j :| 0 <= j < |ItemGroups(rows)| && ItemGroups(rows)[j] == g;
  }

  /** The shown items are the at most ten best of item_sales, displayed with rank n first and
      rank 1 last, each with the tier of its rank. */
  lemma TopSellingFromRanks(sel: seq<Group<(string, string)>>, total: real)
    requires TopSellingFrom(sel, total).Ok?
    ensures var items := TopSellingFrom(sel, total).payload.items; var n := |items|;
      && n == (if |sel| <= 10 then |sel| else 10)
      && (forall k :: 0 <= k < n ==> items[k].rank == n - k)
      && (forall k :: 0 <= k < n ==> items[k].performanceTier == PerformanceTier(items[k].rank))
  {
    var top := TopN(sel, GroupRetail, 10);
    var ranked := RankItems(top);
    assert TopSellingFrom(sel, total).payload.items == Reverse(ranked);
  }

  /** Each shown item is labelled with its code and its description cut to 25 characters. */
  lemma TopSellingFromLabels(sel: seq<Group<(string, string)>>, total: real)
    requires TopSellingFrom(sel, total).Ok?
    ensures var items := TopSellingFrom(sel, total).payload.items;
      forall k :: 0 <= k < |items| ==> items[k].displayLabel == DisplayLabel(items[k].itemCode, items[k].itemDescription, 25)
  {
    var top := TopN(sel, GroupRetail, 10);
    var ranked := RankItems(top);
    assert TopSellingFrom(sel, total).payload.items == Reverse(ranked);
  }

  /** Retail sales rise down the displayed list (the best seller is drawn last, at the top). */
  lemma TopSellingFromOrder(sel: seq<Group<(string, string)>>, total: real)
    requires TopSellingFrom(sel, total).Ok?
    ensures var items := TopSellingFrom(sel, total).payload.items;
      forall j, k :: 0 <= j < k < |items| ==> items[j].retailSales <= items[k].retailSales
  {
    var top := TopN(sel, GroupRetail, 10);
    TopNKeepsLargest(sel, GroupRetail, 10);
    var ranked := RankItems(top);
    assert TopSellingFrom(sel, total).payload.items == Reverse(ranked);
  }

  /** The totals: top_10_total is the sum of the shown items, its percentage is guarded by a
      positive table total, and best_item / best_sales are the rank-1 item. */
  lemma TopSellingFromTotals(sel: seq<Group<(string, string)>>, total: real)
    requires TopSellingFrom(sel, total).Ok?
    ensures var t := TopSellingFrom(sel, total).payload; var n := |t.items|;
      && n > 0
      && t.top10Total == SumBy(t.items, ItemSales)
      && t.top10Percentage == Share(t.top10Total, t.totalRetailSales)
      && t.items[n - 1].rank == 1
      && t.bestItem == t.items[n - 1].itemCode && t.bestSales == t.items[n - 1].retailSales
  {
    var top := TopN(sel, GroupRetail, 10);
    var ranked := RankItems(top);
    SumByReverse(ranked, ItemSales);
    assert TopSellingFrom(sel, total).payload.items == Reverse(ranked);
  }

  /** The group of item_sales that the k-th shown item comes from. */
  lemma ShownItemGroup(sel: seq<Group<(string, string)>>, total: real, k: nat) returns (g: Group<(string, string)>)
    requires TopSellingFrom(sel, total).Ok? && k < |TopSellingFrom(sel, total).payload.items|
    ensures g in sel
    ensures g.key == (TopSellingFrom(sel, total).payload.items[k].itemCode, TopSellingFrom(sel, total).payload.items[k].itemDescription)
    ensures g.agg.retail == TopSellingFrom(sel, total).payload.items[k].retailSales
  {
    var top := TopN(sel, GroupRetail, 10);
    TopNMembers(sel, GroupRetail, 10);
    var ranked := RankItems(top);
    TopSellingItems(sel, total);
    g := top[|top| - 1 - k];
    assert Reverse(ranked)[k] == ranked[|top| - 1 - k];
  }

  /** Every shown item is an element of item_sales. */
  lemma TopSellingFromMembers(sel: seq<Group<(string, string)>>, total: real)
    requires TopSellingFrom(sel, total).Ok?
    ensures forall k :: 0 <= k < |TopSellingFrom(sel, total).payload.items| ==>
      exists g :: g in sel && g.key == (TopSellingFrom(sel, total).payload.items[k].itemCode, TopSellingFrom(sel, total).payload.items[k].itemDescription)
        && g.agg.retail == TopSellingFrom(sel, total).payload.items[k].retailSales
  {
    var items := TopSellingFrom(sel, total).payload.items;
    forall k | 0 <= k < |items|
      ensures exists g :: g in sel && g.key == (items[k].itemCode, items[k].itemDescription) && g.agg.retail == items[k].retailSales
    {
      var g := ShownItemGroup(sel, total, k);
    }
  }

  /** Every shown item is a real item with positive sales, showing its own retail total. */
  lemma TopSellingItemsAreItems(rows: seq<Row>)
    requires TopSellingOf(rows).Ok?
    ensures forall k :: 0 <= k < |TopSellingOf(rows).payload.items| ==>
      && TopSellingOf(rows).payload.items[k].retailSales > 0.0
      && TopSellingOf(rows).payload.items[k].retailSales
         == SumWhere(rows, ItemOf, (TopSellingOf(rows).payload.items[k].itemCode, TopSellingOf(rows).payload.items[k].itemDescription)).retail
  {
    var sel, total := SellingItems(rows), Total(rows, RowAgg).retail;
    var items := TopSellingFrom(sel, total).payload.items;
    assert TopSellingOf(rows).payload.items == items;
    forall k | 0 <= k < |items|
      ensures items[k].retailSales > 0.0
      ensures items[k].retailSales == SumWhere(rows, ItemOf, (items[k].itemCode, items[k].itemDescription)).retail
    {
      var g := ShownItemGroup(sel, total, k);
      SellingItemFacts(rows, g);
    }
  }

  /** Every shown item occurs in the table. */
  lemma TopSellingItemsOccur(rows: seq<Row>)
    requires TopSellingOf(rows).Ok?
    ensures forall k :: 0 <= k < |TopSellingOf(rows).payload.items| ==>
      exists i :: 0 <= i < |rows| && ItemOf(rows[i]) == (TopSellingOf(rows).payload.items[k].itemCode, TopSellingOf(rows).payload.items[k].itemDescription)
  {
    var sel, total := SellingItems(rows), Total(rows, RowAgg).retail;
    var items := TopSellingFrom(sel, total).payload.items;
    assert TopSellingOf(rows).payload.items == items;
    forall k | 0 <= k < |items|
      ensures exists i :: 0 <= i < |rows| && ItemOf(rows[i]) == (items[k].itemCode, items[k].itemDescription)
    {
      var g := ShownItemGroup(sel, total, k);
      SellingItemFacts(rows, g);
    }
  }

  /** No element of item_sales left out sells more than the weakest item shown. */
  lemma TopSellingFromKeepsLargest(sel: seq<Group<(string, string)>>, total: real)
    requires TopSellingFrom(sel, total).Ok?
    ensures var items := TopSellingFrom(sel, total).payload.items;
      forall g :: g in sel && g.agg.retail > items[0].retailSales ==>
        exists k :: 0 <= k < |items| && (items[k].itemCode, items[k].itemDescription) == g.key
  {
    var top := TopN(sel, GroupRetail, 10);
    TopSellingItems(sel, total);
    var items := Reverse(RankItems(top));
    assert items[0].retailSales == top[|top| - 1].agg.retail;
    forall g | g in sel && g.agg.retail > items[0].retailSales
      ensures exists k :: 0 <= k < |items| && (items[k].itemCode, items[k].itemDescription) == g.key
    {
      TopNAbove(sel, GroupRetail, 10, g);
      ReversedRankShows(top, g);
    }
  }

  lemma TopSellingItems(sel: seq<Group<(string, string)>>, total: real)
    requires TopSellingFrom(sel, total).Ok?
    ensures TopSellingFrom(sel, total).payload.items == Reverse(RankItems(TopN(sel, GroupRetail, 10)))
  {
  }

  /** Every ranked group has its record in the reversed list. */
  lemma ReversedRankShows(top: seq<Group<(string, string)>>, g: Group<(string, string)>)
    requires g in top
    ensures var items := Reverse(RankItems(top));
      exists k :: 0 <= k < |items| && (items[k].itemCode, items[k].itemDescription) == g.key
  {
    var items := Reverse(RankItems(top));
    var j :| 0 <= j < |top| && top[j] == g;
    assert items[|top| - 1 - j] == RankItem(top[j], j + 1);
  }


  /** best_sales is the largest retail total in item_sales, and best_item is an item that has it. */
  lemma TopSellingFromBestIsLargest(sel: seq<Group<(string, string)>>, total: real)
    requires TopSellingFrom(sel, total).Ok?
    ensures var t := TopSellingFrom(sel, total).payload;
      && (forall g :: g in sel ==> g.agg.retail <= t.bestSales)
      && exists g :: g in sel && g.key.0 == t.bestItem && g.agg.retail == t.bestSales
  {
    var top := TopN(sel, GroupRetail, 10);
    TopNFirstIsMax(sel, GroupRetail, 10);
    assert RankItems(top)[0] == RankItem(top[0], 1);
  }

  // ---- Finding: best_item and best_sales ---------------------------------

  /** What the source reads for best_item / best_sales: the first row of item_sales, which is
      still in (ITEM CODE, ITEM DESCRIPTION) order because only top_items was sorted. */
  function BestItemAsWritten(sel: seq<Group<(string, string)>>): (best: (string, real))
    ensures sel == [] ==> best == ("N/A", 0.0)
    ensures sel != [] ==> best == (sel[0].key.0, sel[0].agg.retail)
  {
    if sel == [] then ("N/A", 0.0) else (sel[0].key.0, sel[0].agg.retail)
  }

  /** Two items with codes "A" and "B" selling 1 and 5: the source reports "A" with 1 as the
      best item, while the rank-1 item (the corrected best_item) is "B" with 5. */
  lemma BestItemAsWrittenMissesTheBest()
    ensures var sel := [Group(("A", "a"), Agg(1, 1.0, 0.0, 0.0)), Group(("B", "b"), Agg(1, 5.0, 0.0, 0.0))];
      && PairLt(sel[0].key, sel[1].key)
      && BestItemAsWritten(sel) == ("A", 1.0)
      && TopSellingFrom(sel, 6.0).Ok?
      && TopSellingFrom(sel, 6.0).payload.bestItem == "B"
      && TopSellingFrom(sel, 6.0).payload.bestSales == 5.0
  {
    var sel := [Group(("A", "a"), Agg(1, 1.0, 0.0, 0.0)), Group(("B", "b"), Agg(1, 5.0, 0.0, 0.0))];
    assert StrLt("A", "B");
    assert SortDesc(sel, GroupRetail) == [sel[1], sel[0]];
  }
}
