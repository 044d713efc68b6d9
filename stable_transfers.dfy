/** get_top_items_by_transfers of backend/app_stable.py.

    Items (code, description, type) are summed; those with positive retail
    transfers are ranked by them, the first fifteen are shown (smallest
    first, for a horizontal bar chart), each with its transfer efficiency
    (transfers as a percentage of retail sales plus transfers, NaN filled
    with 0) and the logistics tier of that efficiency.  The totals, the
    item moving the most, the number of transfer-focused items and the
    item type with the most transfers among the shown items come with it. */
module StableTransfers {
  import opened Floats
  import opened Order
  import opened Table
  import opened Ranking
  import opened Labels
  import opened Ratios
  import opened Tiers
  import opened Responses
  import StableTrends

  type ItemKey = (string, string, string)

  datatype TransferItem = TransferItem(
    itemCode: string,
    displayLabel: string,
    itemDescription: string,
    itemType: string,
    retailTransfers: real,
    retailSales: real,
    transferEfficiency: Float,
    logisticsPerformance: string)

  datatype TopTransfers = TopTransfers(
    items: seq<TransferItem>,
    totalRetailTransfers: real,
    top15TransfersTotal: real,
    top15Percentage: real,
    topTransferItem: string,
    topTransferAmount: real,
    transferFocusedItems: nat,
    totalTransferItems: nat,
    dominantTransferType: string)

  const NoTransferItems := "No items with retail transfers found"

  function GroupTransfers<K>(g: Group<K>): real { g.agg.transfers }

  predicate HasTransfers<K>(g: Group<K>) { g.agg.transfers > 0.0 }

  function ItemTransfers(t: TransferItem): real { t.retailTransfers }

  predicate IsTransferFocused(t: TransferItem) { TransferFocused(t.logisticsPerformance) }

  function ItemTypeOfGroup(g: Group<ItemKey>): string { g.key.2 }

  /** df.groupby(['ITEM CODE', 'ITEM DESCRIPTION', 'ITEM TYPE']) with transfers and sales summed. */
  function ItemTransferGroups(rows: seq<Row>): seq<Group<ItemKey>> {
    GroupBy(rows, ItemWithTypeOf, RowAgg, TripleLt)
  }

  /** The items with positive retail transfers, still in key order. */
  function MovingItems(rows: seq<Row>): seq<Group<ItemKey>> {
    Filter(ItemTransferGroups(rows), HasTransfers)
  }

  /** head(15) of the items sorted by transfers, largest first. */
  function ShownGroups(movers: seq<Group<ItemKey>>): seq<Group<ItemKey>> {
    TopN(movers, GroupTransfers, 15)
  }

  function TransferItemOf(g: Group<ItemKey>): TransferItem {
    var efficiency := StableTrends.ActivityRatio(g.agg.retail, g.agg.transfers);
    TransferItem(g.key.0, DisplayLabel(g.key.0, g.key.1, 20), g.key.1, g.key.2,
                 g.agg.transfers, g.agg.retail, efficiency, LogisticsPerformance(efficiency))
  }

  function TransferItems(top: seq<Group<ItemKey>>): (ts: seq<TransferItem>)
    ensures |ts| == |top| && forall k :: 0 <= k < |top| ==> ts[k] == TransferItemOf(top[k])
  {
    seq(|top|, k requires 0 <= k < |top| => TransferItemOf(top[k]))
  }

  /** top_transfers.groupby('ITEM TYPE')['RETAIL TRANSFERS'].sum().sort_values(ascending=False) */
  function TypeTotals(top: seq<Group<ItemKey>>): seq<Group<string>> {
    SortDesc(GroupBy(top, ItemTypeOfGroup, GroupAgg, StrLt), GroupTransfers)
  }

  /** The transfers of the shown items of type t. */
  function TypeTransfers(top: seq<Group<ItemKey>>, t: string): real {
    Total(Where(top, ItemTypeOfGroup, t), GroupAgg).transfers
  }

  /** The endpoint from the items with positive transfers (in key order) and the table's
      transfer total. */
  function TopTransfersFrom(movers: seq<Group<ItemKey>>, total: real): (r: Response<TopTransfers>)
    ensures !r.Raised?
    ensures r.Error? <==> movers == []
    ensures r.Error? ==> r.message == NoTransferItems
    ensures r.Ok? ==> r.payload.totalRetailTransfers == total && r.payload.totalTransferItems == |movers|
  {
    var top := ShownGroups(movers);
    TopNKeepsLargest(movers, GroupTransfers, 15);
    if |top| == 0 then Error(NoTransferItems)
    else
      var shown := TransferItems(top);
      var topTotal := SumBy(shown, ItemTransfers);
      var byType := TypeTotals(top);
      Ok(TopTransfers(Reverse(shown), total, topTotal, Share(topTotal, total),
                      top[0].key.0, top[0].agg.transfers, Count(shown, IsTransferFocused), |movers|,
                      if byType == [] then "N/A" else byType[0].key))
  }

  function TopTransfersOf(rows: seq<Row>): Response<TopTransfers> {
    TopTransfersFrom(MovingItems(rows), Total(rows, RowAgg).transfers)
  }

  function TopItemsByTransfers(rows: seq<Row>): (r: Response<TopTransfers>)
    ensures |rows| == 0 ==> r == Error(NoData)
    ensures |rows| > 0 ==> r == TopTransfersOf(rows)
  {
    if |rows| == 0 then Error(NoData) else TopTransfersOf(rows)
  }

  /** The endpoint answers with an error exactly when the table is empty or no item has positive
      transfers; otherwise it reports the table's whole transfer total. */
  lemma TopTransfersErrorIff(rows: seq<Row>)
    ensures TopItemsByTransfers(rows).Error? <==>
      |rows| == 0 || forall g :: g in ItemTransferGroups(rows) ==> g.agg.transfers <= 0.0
    ensures !TopItemsByTransfers(rows).Raised?
    ensures TopItemsByTransfers(rows).Error? && |rows| > 0 ==> TopItemsByTransfers(rows).message == NoTransferItems
    ensures TopItemsByTransfers(rows).Ok? ==> TopItemsByTransfers(rows).payload.totalRetailTransfers == Total(rows, RowAgg).transfers
  {
    var movers := MovingItems(rows);
    if movers != [] {
      assert movers[0] in movers;
    }
  }

  /** The top fifteen: at most fifteen movers, largest first. */
  lemma ShownShape(movers: seq<Group<ItemKey>>)
    ensures |ShownGroups(movers)| == (if |movers| <= 15 then |movers| else 15)
    ensures SortedDesc(ShownGroups(movers), GroupTransfers)
    ensures forall i :: 0 <= i < |ShownGroups(movers)| ==> ShownGroups(movers)[i] in movers
  {
    var s := SortDesc(movers, GroupTransfers);
    SortDescSorted(movers, GroupTransfers);
    forall i | 0 <= i < |ShownGroups(movers)| ensures ShownGroups(movers)[i] in movers {
      assert ShownGroups(movers)[i] == s[i];
      assert s[i] in multiset(s);
    }
  }

  /** The shown items are the items of the top fifteen, displayed in reverse. */
  lemma ShownItems(movers: seq<Group<ItemKey>>, total: real)
    requires TopTransfersFrom(movers, total).Ok?
    ensures TopTransfersFrom(movers, total).payload.items == Reverse(TransferItems(ShownGroups(movers)))
  {
  }

  /** At most fifteen items are shown, with transfers rising down the displayed list. */
  lemma TopTransfersFromOrder(movers: seq<Group<ItemKey>>, total: real)
    requires TopTransfersFrom(movers, total).Ok?
    ensures var items := TopTransfersFrom(movers, total).payload.items;
      && |items| == (if |movers| <= 15 then |movers| else 15)
      && (forall j, k :: 0 <= j < k < |items| ==> items[j].retailTransfers <= items[k].retailTransfers)
  {
    ShownShape(movers);
    ShownItems(movers, total);
    ReversedItemsRise(ShownGroups(movers));
  }

  /** Records of groups in descending order, reversed, rise in transfers. */
  lemma ReversedItemsRise(top: seq<Group<ItemKey>>)
    requires SortedDesc(top, GroupTransfers)
    ensures var items := Reverse(TransferItems(top));
      forall j, k :: 0 <= j < k < |items| ==> items[j].retailTransfers <= items[k].retailTransfers
  {
    var ts := TransferItems(top);
    var items := Reverse(ts);
    assert forall i :: 0 <= i < |ts| ==> ts[i].retailTransfers == GroupTransfers(top[i]);
    forall j, k | 0 <= j < k < |items| ensures items[j].retailTransfers <= items[k].retailTransfers {
      assert items[j] == ts[|top| - 1 - j] && items[k] == ts[|top| - 1 - k];
      assert GroupTransfers(top[|top| - 1 - k]) >= GroupTransfers(top[|top| - 1 - j]);
    }
  }

  /** The k-th displayed item shows the transfers of the (n-1-k)-th of the top fifteen. */
  lemma ShownTransfers(movers: seq<Group<ItemKey>>, total: real)
    requires TopTransfersFrom(movers, total).Ok?
    ensures var items := TopTransfersFrom(movers, total).payload.items;
      && |items| == |ShownGroups(movers)|
      && (forall k :: 0 <= k < |items| ==> items[k].retailTransfers == ShownGroups(movers)[|items| - 1 - k].agg.transfers)
      && (forall k :: 0 <= k < |items| ==> items[k].itemType == ShownGroups(movers)[|items| - 1 - k].key.2)
  {
    ShownItems(movers, total);
  }

  /** An item's record: its label is its code and its description cut to 20 characters, its
      efficiency is computed from its own sales and transfers, and its tier is that efficiency's. */
  lemma TransferItemFacts(g: Group<ItemKey>)
    ensures var it := TransferItemOf(g);
      && it.displayLabel == DisplayLabel(it.itemCode, it.itemDescription, 20)
      && it.transferEfficiency == StableTrends.ActivityRatio(it.retailSales, it.retailTransfers)
      && it.logisticsPerformance == LogisticsPerformance(it.transferEfficiency)
  {
  }

  /** Every shown item carries its label, efficiency and tier as TransferItemFacts states them. */
  lemma TopTransfersFromLabels(movers: seq<Group<ItemKey>>, total: real)
    requires TopTransfersFrom(movers, total).Ok?
    ensures var items := TopTransfersFrom(movers, total).payload.items;
      forall k :: 0 <= k < |items| ==>
        && items[k].displayLabel == DisplayLabel(items[k].itemCode, items[k].itemDescription, 20)
        && items[k].transferEfficiency == StableTrends.ActivityRatio(items[k].retailSales, items[k].retailTransfers)
        && items[k].logisticsPerformance == LogisticsPerformance(items[k].transferEfficiency)
  {
    var items := TopTransfersFrom(movers, total).payload.items;
    forall k | 0 <= k < |items|
      ensures && items[k].displayLabel == DisplayLabel(items[k].itemCode, items[k].itemDescription, 20)
              && items[k].transferEfficiency == StableTrends.ActivityRatio(items[k].retailSales, items[k].retailTransfers)
              && items[k].logisticsPerformance == LogisticsPerformance(items[k].transferEfficiency)
    {
      var g := ShownItemGroup(movers, total, k);
      TransferItemFacts(g);
    }
  }

  /** The group of the k-th shown item: a mover with that item's keys and sums. */
  lemma ShownItemGroup(movers: seq<Group<ItemKey>>, total: real, k: nat) returns (g: Group<ItemKey>)
    requires TopTransfersFrom(movers, total).Ok? && k < |TopTransfersFrom(movers, total).payload.items|
    ensures g in movers
    ensures TransferItemOf(g) == TopTransfersFrom(movers, total).payload.items[k]
  {
    var top := ShownGroups(movers);
    TopNMembers(movers, GroupTransfers, 15);
    ShownItems(movers, total);
    g := top[|top| - 1 - k];
    assert g in top;
  }

  /** The efficiency is never NaN, and a transfer-focused item is exactly one whose efficiency is
      at least 30 per cent; the count of focused items counts exactly those. */
  lemma TopTransfersFromFocus(movers: seq<Group<ItemKey>>, total: real)
    requires TopTransfersFrom(movers, total).Ok?
    ensures var t := TopTransfersFrom(movers, total).payload;
      && (forall k :: 0 <= k < |t.items| ==> t.items[k].transferEfficiency != NaN)
      && (forall k :: 0 <= k < |t.items| ==> (IsTransferFocused(t.items[k]) <==> Ge(t.items[k].transferEfficiency, 30.0)))
      && t.transferFocusedItems == Count(t.items, IsTransferFocused) <= |t.items|
  {
    var t := TopTransfersFrom(movers, total).payload;
    var shown := TransferItems(ShownGroups(movers));
    ShownItems(movers, total);
    forall k | 0 <= k < |t.items|
      ensures t.items[k].transferEfficiency != NaN
      ensures IsTransferFocused(t.items[k]) <==> Ge(t.items[k].transferEfficiency, 30.0)
    {
      StableTrends.ActivityRatioCases(t.items[k].retailSales, t.items[k].retailTransfers);
      TransferFocusedIff(t.items[k].transferEfficiency);
    }
    CountReverse(shown, IsTransferFocused);
  }

  /** Reversing does not change how many elements satisfy p. */
  lemma {:induction false} CountReverse<T(!new)>(xs: seq<T>, p: T -> bool)
    ensures Count(Reverse(xs), p) == Count(xs, p)
    decreases |xs|
  {
    if xs != [] {
      CountReverse(xs[1..], p);
      ReverseUnfold(xs);
      CountAppend(Reverse(xs[1..]), [xs[0]], p);
    }
  }

  lemma {:induction false} CountAppend<T(!new)>(a: seq<T>, b: seq<T>, p: T -> bool)
    ensures Count(a + b, p) == Count(a, p) + Count(b, p)
    decreases |a|
  {
    if a == [] {
      assert a + b == b;
    } else {
      assert (a + b)[0] == a[0] && (a + b)[1..] == a[1..] + b;
      CountAppend(a[1..], b, p);
    }
  }

  /** top_15_transfers_total is the sum over the shown items, its percentage is guarded by a
      positive table total, and the top transfer item is the one drawn last. */
  lemma TopTransfersFromTotals(movers: seq<Group<ItemKey>>, total: real)
    requires TopTransfersFrom(movers, total).Ok?
    ensures var t := TopTransfersFrom(movers, total).payload; var n := |t.items|;
      && n > 0
      && t.top15TransfersTotal == SumBy(t.items, ItemTransfers)
      && t.top15Percentage == Share(t.top15TransfersTotal, t.totalRetailTransfers)
      && t.topTransferItem == t.items[n - 1].itemCode
      && t.topTransferAmount == t.items[n - 1].retailTransfers
  {
    var shown := TransferItems(ShownGroups(movers));
    SumByReverse(shown, ItemTransfers);
    ShownItems(movers, total);
  }

  /** No item moves more than the top transfer item, which is one of the items. */
  lemma TopTransferIsLargest(movers: seq<Group<ItemKey>>, total: real)
    requires TopTransfersFrom(movers, total).Ok?
    ensures var t := TopTransfersFrom(movers, total).payload;
      && (forall g :: g in movers ==> g.agg.transfers <= t.topTransferAmount)
      && (exists g :: g in movers && g.key.0 == t.topTransferItem && g.agg.transfers == t.topTransferAmount)
  {
    var top := ShownGroups(movers);
    TopNFirstIsMax(movers, GroupTransfers, 15);
    assert top[0] in movers;
  }

  /** Any item moving more than the smallest shown item is shown. */
  lemma TopTransfersKeepsLargest(movers: seq<Group<ItemKey>>, total: real, g: Group<ItemKey>)
    requires TopTransfersFrom(movers, total).Ok? && g in movers
    requires g.agg.transfers > TopTransfersFrom(movers, total).payload.items[0].retailTransfers
    ensures TransferItemOf(g) in TopTransfersFrom(movers, total).payload.items
  {
    ShownItems(movers, total);
    TopNAbove(movers, GroupTransfers, 15, g);
    ReversedItemsHave(ShownGroups(movers), g);
  }

  /** Every shown group has its record in the reversed list. */
  lemma ReversedItemsHave(top: seq<Group<ItemKey>>, g: Group<ItemKey>)
    requires g in top
    ensures TransferItemOf(g) in Reverse(TransferItems(top))
  {
    var k :| 0 <= k < |top| && top[k] == g;
    assert Reverse(TransferItems(top))[|top| - 1 - k] == TransferItemOf(g);
  }

  /** Of the types of a non-empty list of items, the first of the sorted type totals is a type
      that occurs and has the largest total. */
  lemma {:induction false} TypeTotalsFirstIsLargest(top: seq<Group<ItemKey>>)
    requires top != []
    ensures |TypeTotals(top)| > 0
    ensures exists i :: 0 <= i < |top| && top[i].key.2 == TypeTotals(top)[0].key
    ensures forall j :: 0 <= j < |top| ==> TypeTransfers(top, top[j].key.2) <= TypeTransfers(top, TypeTotals(top)[0].key)
  {
    var gs := GroupBy(top, ItemTypeOfGroup, GroupAgg, StrLt);
    GroupByNonEmpty(top, ItemTypeOfGroup, GroupAgg, StrLt);
    var byType := TypeTotals(top);
    assert byType == TopN(gs, GroupTransfers, |gs|);
    TopNFirstIsMax(gs, GroupTransfers, |gs|);
    var d :| 0 <= d < |gs| && gs[d] == byType[0];
    GroupByKeysOccur(top, ItemTypeOfGroup, GroupAgg, StrLt);
    var i :| 0 <= i < |top| && ItemTypeOfGroup(top[i]) == gs[d].key;
    GroupByCovers(top, ItemTypeOfGroup, GroupAgg, StrLt);
    forall j | 0 <= j < |top| ensures TypeTransfers(top, top[j].key.2) <= TypeTransfers(top, byType[0].key) {
      var c :| 0 <= c < |gs| && gs[c].key == ItemTypeOfGroup(top[j]);
      assert gs[c] in gs;
    }
  }

  /** The dominant type is the type of a shown item, and no type among the shown items has more
      transfers over them. */
  lemma DominantTypeIsLargest(movers: seq<Group<ItemKey>>, total: real)
    requires TopTransfersFrom(movers, total).Ok?
    ensures var t := TopTransfersFrom(movers, total).payload; var top := ShownGroups(movers);
      && (exists k :: 0 <= k < |t.items| && t.items[k].itemType == t.dominantTransferType)
      && (forall j :: 0 <= j < |top| ==> TypeTransfers(top, top[j].key.2) <= TypeTransfers(top, t.dominantTransferType))
  {
    var t := TopTransfersFrom(movers, total).payload;
    var top := ShownGroups(movers);
    ShownTransfers(movers, total);
    TypeTotalsFirstIsLargest(top);
    assert t.dominantTransferType == TypeTotals(top)[0].key;
    var i :| 0 <= i < |top| && top[i].key.2 == t.dominantTransferType;
    assert t.items[|top| - 1 - i].itemType == t.dominantTransferType;
  }

  // ---- From the table ----------------------------------------------------

  /** An item with positive transfers sums exactly its rows, and it occurs in the table. */
  lemma {:induction false} MovingItemFacts(rows: seq<Row>, g: Group<ItemKey>)
    requires g in MovingItems(rows)
    ensures g.agg.transfers > 0.0
    ensures g.agg == SumWhere(rows, ItemWithTypeOf, g.key)
    ensures exists i :: 0 <= i < |rows| && ItemWithTypeOf(rows[i]) == g.key
  {
    GroupByKeysOccur(rows, ItemWithTypeOf, RowAgg, TripleLt);
    assert g in ItemTransferGroups(rows);
    var j :| 0 <= j < |ItemTransferGroups(rows)| && ItemTransferGroups(rows)[j] == g;
  }

  /** Every shown item is an item of the table with positive transfers, showing its own sums. */
  lemma {:induction false} TopTransferItemsAreItems(rows: seq<Row>)
    requires TopTransfersOf(rows).Ok?
    ensures forall k :: 0 <= k < |TopTransfersOf(rows).payload.items| ==>
      var it := TopTransfersOf(rows).payload.items[k];
      var key := (it.itemCode, it.itemDescription, it.itemType);
      && it.retailTransfers > 0.0
      && it.retailTransfers == SumWhere(rows, ItemWithTypeOf, key).transfers
      && it.retailSales == SumWhere(rows, ItemWithTypeOf, key).retail
      && exists i :: 0 <= i < |rows| && ItemWithTypeOf(rows[i]) == key
  {
    var movers, total := MovingItems(rows), Total(rows, RowAgg).transfers;
    var items := TopTransfersFrom(movers, total).payload.items;
    forall k | 0 <= k < |items|
      ensures var key := (items[k].itemCode, items[k].itemDescription, items[k].itemType);
        && items[k].retailTransfers > 0.0
        && items[k].retailTransfers == SumWhere(rows, ItemWithTypeOf, key).transfers
        && items[k].retailSales == SumWhere(rows, ItemWithTypeOf, key).retail
        && exists i :: 0 <= i < |rows| && ItemWithTypeOf(rows[i]) == key
    {
      var g := ShownItemGroup(movers, total, k);
      MovingItemFacts(rows, g);
    }
  }

  /** The number of items counted is the number of items with positive transfers, and each
      transferring item of the table is counted. */
  lemma {:induction false} TotalTransferItemsCounts(rows: seq<Row>, i: nat)
    requires TopTransfersOf(rows).Ok? && i < |rows|
    requires SumWhere(rows, ItemWithTypeOf, ItemWithTypeOf(rows[i])).transfers > 0.0
    ensures exists g :: g in MovingItems(rows) && g.key == ItemWithTypeOf(rows[i])
    ensures TopTransfersOf(rows).payload.totalTransferItems == Count(ItemTransferGroups(rows), HasTransfers)
  {
    var gs := ItemTransferGroups(rows);
    GroupByCovers(rows, ItemWithTypeOf, RowAgg, TripleLt);
    var j :| 0 <= j < |gs| && gs[j].key == ItemWithTypeOf(rows[i]);
    assert gs[j] in gs && HasTransfers(gs[j]);
  }

  // ---- The share of the top fifteen --------------------------------------

  lemma {:induction false} RowTransfersNonNegative(xs: seq<Row>)
    requires forall r :: r in xs ==> r.retailTransfers >= 0.0
    ensures Total(xs, RowAgg).transfers >= 0.0
    decreases |xs|
  {
    if xs != [] {
      assert xs[0] in xs;
      assert forall r :: r in xs[1..] ==> r in xs;
      RowTransfersNonNegative(xs[1..]);
    }
  }

  lemma {:induction false} GroupTransfersSum<K>(gs: seq<Group<K>>)
    ensures SumBy(gs, GroupTransfers) == Total(gs, GroupAgg).transfers
    decreases |gs|
  {
    if gs != [] { GroupTransfersSum(gs[1..]); }
  }

  /** Keeping some of the elements does not raise a sum of non-negative values. */
  lemma {:induction false} SumByFilterBounded<T(!new)>(xs: seq<T>, p: T -> bool, v: T -> real)
    requires forall x :: x in xs ==> v(x) >= 0.0
    ensures SumBy(Filter(xs, p), v) <= SumBy(xs, v)
    decreases |xs|
  {
    if xs != [] {
      assert xs[0] in xs;
      assert forall x :: x in xs[1..] ==> x in xs;
      SumByFilterBounded(xs[1..], p, v);
      var rest := Filter(xs[1..], p);
      if p(xs[0]) {
        assert Filter(xs, p) == [xs[0]] + rest;
        assert ([xs[0]] + rest)[1..] == rest;
      } else {
        assert Filter(xs, p) == rest;
      }
    }
  }

  /** With no negative transfers in the table, the items with positive transfers account for at
      most the table's transfers. */
  lemma MoversWithinTotal(rows: seq<Row>)
    requires forall r :: r in rows ==> r.retailTransfers >= 0.0
    ensures SumBy(MovingItems(rows), GroupTransfers) <= Total(rows, RowAgg).transfers
  {
    var gs := ItemTransferGroups(rows);
    forall g | g in gs ensures GroupTransfers(g) >= 0.0 {
      var j :| 0 <= j < |gs| && gs[j] == g;
      forall r | r in Where(rows, ItemWithTypeOf, g.key) ensures r.retailTransfers >= 0.0 {
        assert r in rows;
      }
      RowTransfersNonNegative(Where(rows, ItemWithTypeOf, g.key));
    }
    SumByFilterBounded(gs, HasTransfers, GroupTransfers);
    TripleLtIsStrictTotalOrder();
    GroupByConserves(rows, ItemWithTypeOf, RowAgg, TripleLt);
    GroupTransfersSum(gs);
  }

  /** The top fifteen of positive values sum to a positive amount no larger than the whole, and
      to the whole when nothing is left out. */
  lemma {:induction false} ShownSumBounds(movers: seq<Group<ItemKey>>)
    requires movers != [] && forall g :: g in movers ==> g.agg.transfers > 0.0
    ensures 0.0 < SumBy(ShownGroups(movers), GroupTransfers) <= SumBy(movers, GroupTransfers)
    ensures |movers| <= 15 ==> SumBy(ShownGroups(movers), GroupTransfers) == SumBy(movers, GroupTransfers)
  {
    var sorted := SortDesc(movers, GroupTransfers);
    var top := ShownGroups(movers);
    SortDescSorted(movers, GroupTransfers);
    forall i | 0 <= i < |sorted| ensures GroupTransfers(sorted[i]) >= 0.0 {
      assert sorted[i] in multiset(movers);
    }
    SumByTakeBounded(sorted, GroupTransfers, 15);
    SumBySorted(movers, GroupTransfers, GroupTransfers);
    ShownShape(movers);
    SumByFilterPositive(top);
  }

  /** When the movers account for at most a positive total, the top fifteen's share lies in
      (0, 100], and is all of it when there are at most fifteen movers and nothing else moves. */
  lemma {:induction false} Top15ShareBounds(movers: seq<Group<ItemKey>>, total: real)
    requires TopTransfersFrom(movers, total).Ok?
    requires forall g :: g in movers ==> g.agg.transfers > 0.0
    requires total > 0.0 && SumBy(movers, GroupTransfers) <= total
    ensures 0.0 < TopTransfersFrom(movers, total).payload.top15Percentage <= 100.0
    ensures |movers| <= 15 && SumBy(movers, GroupTransfers) == total ==>
      TopTransfersFrom(movers, total).payload.top15Percentage == 100.0
  {
    var t := TopTransfersFrom(movers, total).payload;
    var top := ShownGroups(movers);
    ShownSum(top);
    assert t.top15TransfersTotal == SumBy(top, GroupTransfers);
    ShownSumBounds(movers);
    ShareBounds(t.top15TransfersTotal, total);
    SharePositive(t.top15TransfersTotal, total);
    if |movers| <= 15 && SumBy(movers, GroupTransfers) == total {
      ShareOfWhole(total);
    }
  }

  lemma {:induction false} ShownSum(top: seq<Group<ItemKey>>)
    ensures SumBy(TransferItems(top), ItemTransfers) == SumBy(top, GroupTransfers)
    decreases |top|
  {
    if top != [] {
      ShownSum(top[1..]);
      assert TransferItems(top)[1..] == TransferItems(top[1..]);
    }
  }

  /** On the table: with no negative transfers, the top fifteen's share lies in (0, 100]. */
  lemma Top15ShareOfTable(rows: seq<Row>)
    requires TopTransfersOf(rows).Ok?
    requires forall r :: r in rows ==> r.retailTransfers >= 0.0
    ensures 0.0 < TopTransfersOf(rows).payload.top15Percentage <= 100.0
  {
    var movers := MovingItems(rows);
    MoversWithinTotal(rows);
    assert movers != [];
    assert movers[0] in movers;
    SumByFilterPositive(movers);
    Top15ShareBounds(movers, Total(rows, RowAgg).transfers);
  }

  /** A non-empty list of positive values has a positive sum. */
  lemma SumByFilterPositive(movers: seq<Group<ItemKey>>)
    requires movers != [] && forall g :: g in movers ==> g.agg.transfers > 0.0
    ensures SumBy(movers, GroupTransfers) > 0.0
  {
    assert movers[0] in movers;
    forall i | 0 <= i < |movers[1..]| ensures GroupTransfers(movers[1..][i]) >= 0.0 {
      assert movers[1..][i] in movers;
    }
    SumByNonNegative(movers[1..], GroupTransfers);
  }
}
