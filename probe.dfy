/** /api/test_top_selling of backend/test_endpoint.py: the ten items with the largest retail
    sales, unfiltered, as three parallel lists (codes, sales, descriptions).

    Unlike the dashboard's top-selling endpoint it keeps items without positive sales and has
    no empty-table guard: an empty table gives three empty lists. */
module Probe {
  import opened Order
  import opened Table
  import opened Ranking
  import opened Responses
  import Stable

  datatype TopLists = TopLists(itemCodes: seq<string>, retailSales: seq<real>, descriptions: seq<string>)

  /** item_sales.sort_values('RETAIL SALES', ascending=False).head(10) */
  function TopItems(rows: seq<Row>): seq<Group<(string, string)>> {
    TopN(Stable.ItemGroups(rows), Stable.GroupRetail, 10)
  }

  function ListsOf(top: seq<Group<(string, string)>>): (l: TopLists)
    ensures |l.itemCodes| == |l.retailSales| == |l.descriptions| == |top|
    ensures forall k :: 0 <= k < |top| ==>
      l.itemCodes[k] == top[k].key.0 && l.retailSales[k] == top[k].agg.retail && l.descriptions[k] == top[k].key.1
  {
    TopLists(seq(|top|, k requires 0 <= k < |top| => top[k].key.0),
             seq(|top|, k requires 0 <= k < |top| => top[k].agg.retail),
             seq(|top|, k requires 0 <= k < |top| => top[k].key.1))
  }

  function TestTopSelling(rows: seq<Row>): (r: Response<TopLists>)
    ensures r.Ok? && r.payload == ListsOf(TopItems(rows))
  {
    Ok(ListsOf(TopItems(rows)))
  }

  /** An item group sums exactly its item's rows, and that item occurs. */
  lemma ItemGroupFacts(rows: seq<Row>, g: Group<(string, string)>)
    requires g in Stable.ItemGroups(rows)
    ensures g.agg == SumWhere(rows, ItemOf, g.key)
    ensures exists i :: 0 <= i < |rows| && ItemOf(rows[i]) == g.key
  {
    GroupByKeysOccur(rows, ItemOf, RowAgg, PairLt);
    var j :| 0 <= j < |Stable.ItemGroups(rows)| && Stable.ItemGroups(rows)[j] == g;
  }

  /** The three lists have one entry per shown item, at most ten, each of them a group of
      the input. */
  lemma {:induction false} TopListsShape(gs: seq<Group<(string, string)>>)
    ensures var top := TopN(gs, Stable.GroupRetail, 10); var l := ListsOf(top);
      && |l.itemCodes| == |l.retailSales| == |l.descriptions| == (if |gs| <= 10 then |gs| else 10)
      && (forall k :: 0 <= k < |top| ==> top[k] in gs)
  {
    TopNKeepsLargest(gs, Stable.GroupRetail, 10);
    TopNMembers(gs, Stable.GroupRetail, 10);
    var top := TopN(gs, Stable.GroupRetail, 10);
    forall k | 0 <= k < |top| ensures top[k] in gs {
      assert top[k] in top;
    }
  }

  /** The sales list is non-increasing. */
  lemma {:induction false} TopListsSorted(gs: seq<Group<(string, string)>>)
    ensures var l := ListsOf(TopN(gs, Stable.GroupRetail, 10));
      forall i, j :: 0 <= i < j < |l.retailSales| ==> l.retailSales[i] >= l.retailSales[j]
  {
    TopNKeepsLargest(gs, Stable.GroupRetail, 10);
    var top := TopN(gs, Stable.GroupRetail, 10);
    assert SortedDesc(top, Stable.GroupRetail);
    var l := ListsOf(top);
    forall i, j | 0 <= i < j < |l.retailSales| ensures l.retailSales[i] >= l.retailSales[j] {
      assert Stable.GroupRetail(top[i]) >= Stable.GroupRetail(top[j]);
    }
  }

  /** No group left out of the lists sells more than any group shown. */
  lemma {:induction false} TopListsLeaveOutSmaller(gs: seq<Group<(string, string)>>, g: Group<(string, string)>, k: nat)
    requires g in gs && g !in TopN(gs, Stable.GroupRetail, 10)
    requires k < |ListsOf(TopN(gs, Stable.GroupRetail, 10)).retailSales|
    ensures g.agg.retail <= ListsOf(TopN(gs, Stable.GroupRetail, 10)).retailSales[k]
  {
    TopNKeepsLargest(gs, Stable.GroupRetail, 10);
    var top := TopN(gs, Stable.GroupRetail, 10);
    assert g in multiset(gs) - multiset(top);
    assert top[k] in top;
    assert Stable.GroupRetail(top[k]) >= Stable.GroupRetail(g);
  }

  /** On the table: the item at position k occurs in it, and its sales are that item's rows'
      retail sales. */
  lemma TopListsOnRows(rows: seq<Row>, k: nat)
    requires k < |TestTopSelling(rows).payload.itemCodes|
    ensures var l := TestTopSelling(rows).payload;
      && (exists i :: 0 <= i < |rows| && ItemOf(rows[i]) == (l.itemCodes[k], l.descriptions[k]))
      && l.retailSales[k] == SumWhere(rows, ItemOf, (l.itemCodes[k], l.descriptions[k])).retail
  {
    var gs := Stable.ItemGroups(rows);
    var top := TopItems(rows);
    TopListsShape(gs);
    ItemGroupFacts(rows, top[k]);
  }
}
