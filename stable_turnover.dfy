/** get_inventory_turnover_rate of backend/app_stable.py.

    Movement is the sum of the three quantity columns.  Each item type's
    movement is averaged over the number of distinct (YEAR, MONTH) periods
    in the table and rated on the turnover ladder; the per-month movement
    is reported alongside, in calendar order. */
module StableTurnover {
  import opened Order
  import opened Table
  import opened Ranking
  import opened Labels
  import opened Ratios
  import opened Tiers
  import opened Responses
  import Stable
  import StableTrends

  datatype TypeTurnover = TypeTurnover(
    itemType: string,
    totalMovement: real,
    monthlyAvgMovement: real,
    turnoverRating: string,
    retailSales: real,
    retailTransfers: real,
    warehouseSales: real)

  datatype MonthTurnover = MonthTurnover(period: string, totalTurnover: real)

  datatype Turnover = Turnover(
    types: seq<TypeTurnover>,
    months: seq<MonthTurnover>,
    totalTurnover: real,
    averageMonthlyTurnover: real,
    uniqueMonthsAnalyzed: nat,
    topTurnoverCategory: string,
    lowestTurnoverCategory: string,
    highTurnoverCategories: nat,
    totalCategories: nat)

  function MovementOf(t: TypeTurnover): real { t.totalMovement }

  function MonthMovementOf(m: MonthTurnover): real { m.totalTurnover }

  predicate IsHighTurnover(t: TypeTurnover) { t.turnoverRating == "High Turnover" }

  /** One item type's record: movement, its average over the months analysed (0 when there are
      none) and the rating of that average. */
  function TypeTurnoverOf(g: Group<string>, months: nat): TypeTurnover {
    var movement := g.agg.Volume();
    var monthly := GuardedRatio(movement, months as real);
    TypeTurnover(g.key, movement, monthly, TurnoverRating(monthly), g.agg.retail, g.agg.transfers, g.agg.warehouse)
  }

  function TypeTurnovers(gs: seq<Group<string>>, months: nat): (ts: seq<TypeTurnover>)
    ensures |ts| == |gs| && forall i :: 0 <= i < |gs| ==> ts[i] == TypeTurnoverOf(gs[i], months)
  {
    seq(|gs|, i requires 0 <= i < |gs| => TypeTurnoverOf(gs[i], months))
  }

  function MonthTurnovers(mgs: seq<Group<Period>>): (ms: seq<MonthTurnover>)
    ensures |ms| == |mgs| && forall i :: 0 <= i < |mgs| ==> ms[i] == MonthTurnover(PeriodLabel(mgs[i].key), mgs[i].agg.Volume())
  {
    seq(|mgs|, i requires 0 <= i < |mgs| => MonthTurnover(PeriodLabel(mgs[i].key), mgs[i].agg.Volume()))
  }

  /** The endpoint from the item-type groups and the month groups. */
  function TurnoverFrom(tgs: seq<Group<string>>, mgs: seq<Group<Period>>): (t: Turnover)
    ensures |t.types| == |tgs| == t.totalCategories
    ensures SortedDesc(t.types, MovementOf)
    ensures |t.months| == |mgs| == t.uniqueMonthsAnalyzed
    ensures t.highTurnoverCategories == Count(t.types, IsHighTurnover) <= t.totalCategories
    ensures t.types == [] ==> t.topTurnoverCategory == "N/A" && t.lowestTurnoverCategory == "N/A"
    ensures t.types != [] ==> t.topTurnoverCategory == t.types[0].itemType
    ensures t.types != [] ==> t.lowestTurnoverCategory == t.types[|t.types| - 1].itemType
    ensures t.totalTurnover == SumBy(t.types, MovementOf)
    ensures t.averageMonthlyTurnover == GuardedRatio(t.totalTurnover, |mgs| as real)
  {
    var n := |mgs|;
    var types := SortDesc(TypeTurnovers(tgs, n), MovementOf);
    SortDescSorted(TypeTurnovers(tgs, n), MovementOf);
    var total := SumBy(types, MovementOf);
    Turnover(types, MonthTurnovers(mgs), total, GuardedRatio(total, n as real), n,
             if types == [] then "N/A" else types[0].itemType,
             if types == [] then "N/A" else types[|types| - 1].itemType,
             Count(types, IsHighTurnover), |types|)
  }

  function TurnoverOf(rows: seq<Row>): Turnover {
    TurnoverFrom(Stable.TypeGroups(rows), StableTrends.PeriodGroups(rows))
  }

  function InventoryTurnoverRate(rows: seq<Row>): (r: Response<Turnover>)
    ensures |rows| == 0 ==> r == Error(NoData)
    ensures |rows| > 0 ==> r == Ok(TurnoverOf(rows))
  {
    if |rows| == 0 then Error(NoData) else Ok(TurnoverOf(rows))
  }

  /** Each record is one group's: its movement is the sum of its three columns, its average is
      that movement over the number of months (0 when there are none), and its rating is the
      ladder's. */
  lemma TurnoverTypes(tgs: seq<Group<string>>, mgs: seq<Group<Period>>)
    ensures forall t :: t in TurnoverFrom(tgs, mgs).types ==>
      && (exists g :: g in tgs && g.key == t.itemType && g.agg.retail == t.retailSales
                      && g.agg.transfers == t.retailTransfers && g.agg.warehouse == t.warehouseSales)
      && t.totalMovement == t.retailSales + t.retailTransfers + t.warehouseSales
      && t.monthlyAvgMovement == GuardedRatio(t.totalMovement, |mgs| as real)
      && t.turnoverRating == TurnoverRating(t.monthlyAvgMovement)
  {
    var n := |mgs|;
    var ts := TypeTurnovers(tgs, n);
    SortDescMembers(ts, MovementOf);
    forall t | t in TurnoverFrom(tgs, mgs).types
      ensures && (exists g :: g in tgs && g.key == t.itemType && g.agg.retail == t.retailSales
                               && g.agg.transfers == t.retailTransfers && g.agg.warehouse == t.warehouseSales)
              && t.totalMovement == t.retailSales + t.retailTransfers + t.warehouseSales
              && t.monthlyAvgMovement == GuardedRatio(t.totalMovement, n as real)
              && t.turnoverRating == TurnoverRating(t.monthlyAvgMovement)
    {
      assert t in ts;
      var i :| 0 <= i < |ts| && ts[i] == t;
      assert tgs[i] in tgs;
    }
  }

  /** The top category moves the most and the lowest the least. */
  lemma TurnoverExtremes(tgs: seq<Group<string>>, mgs: seq<Group<Period>>)
    requires tgs != []
    ensures forall t :: t in TurnoverFrom(tgs, mgs).types ==>
      TurnoverFrom(tgs, mgs).types[|tgs| - 1].totalMovement <= t.totalMovement <= TurnoverFrom(tgs, mgs).types[0].totalMovement
  {
    var ts := TurnoverFrom(tgs, mgs).types;
    forall t | t in ts ensures ts[|ts| - 1].totalMovement <= t.totalMovement <= ts[0].totalMovement {
      var i :| 0 <= i < |ts| && ts[i] == t;
      assert MovementOf(ts[0]) >= MovementOf(ts[i]) >= MovementOf(ts[|ts| - 1]);
    }
  }

  /** A "High Turnover" rating is exactly a monthly average of at least 50000. */
  lemma HighTurnoverIff(t: TypeTurnover)
    requires t.turnoverRating == TurnoverRating(t.monthlyAvgMovement)
    ensures IsHighTurnover(t) <==> t.monthlyAvgMovement >= 50000.0
  {
  }

  lemma {:induction false} TypeTurnoverSum(gs: seq<Group<string>>, n: nat)
    ensures SumBy(TypeTurnovers(gs, n), MovementOf) == Total(gs, GroupAgg).Volume()
    decreases |gs|
  {
    if gs != [] {
      TypeTurnoverSum(gs[1..], n);
      assert TypeTurnovers(gs, n)[1..] == TypeTurnovers(gs[1..], n);
    }
  }

  lemma {:induction false} MonthTurnoverSum(mgs: seq<Group<Period>>)
    ensures SumBy(MonthTurnovers(mgs), MonthMovementOf) == Total(mgs, GroupAgg).Volume()
    decreases |mgs|
  {
    if mgs != [] {
      MonthTurnoverSum(mgs[1..]);
      assert MonthTurnovers(mgs)[1..] == MonthTurnovers(mgs[1..]);
    }
  }

  /** The total turnover is the table's whole movement, and the monthly series adds up to the
      same total: splitting by item type and by month account for every row once. */
  lemma TurnoverConserves(rows: seq<Row>)
    ensures TurnoverOf(rows).totalTurnover == Total(rows, RowAgg).Volume()
    ensures SumBy(TurnoverOf(rows).months, MonthMovementOf) == Total(rows, RowAgg).Volume()
  {
    var tgs, mgs := Stable.TypeGroups(rows), StableTrends.PeriodGroups(rows);
    StrLtIsStrictTotalOrder();
    PeriodLtIsStrictTotalOrder();
    GroupByConserves(rows, ItemTypeOf, RowAgg, StrLt);
    GroupByConserves(rows, PeriodOf, RowAgg, PeriodLt);
    TypeTurnoverSum(tgs, |mgs|);
    SumBySorted(TypeTurnovers(tgs, |mgs|), MovementOf, MovementOf);
    MonthTurnoverSum(mgs);
  }

  /** A non-empty table has at least one month, so the averages are real divisions. */
  lemma TurnoverMonthsPositive(rows: seq<Row>)
    requires |rows| > 0
    ensures TurnoverOf(rows).uniqueMonthsAnalyzed > 0
  {
    GroupByNonEmpty(rows, PeriodOf, RowAgg, PeriodLt);
  }

  /** The monthly series has one entry per month group, labelled and with that month's movement. */
  lemma TurnoverFromMonths(tgs: seq<Group<string>>, mgs: seq<Group<Period>>)
    ensures forall i :: 0 <= i < |mgs| ==>
      TurnoverFrom(tgs, mgs).months[i] == MonthTurnover(PeriodLabel(mgs[i].key), mgs[i].agg.Volume())
  {
    assert TurnoverFrom(tgs, mgs).months == MonthTurnovers(mgs);
  }

  /** The monthly series is the months in calendar order, each with its own movement. */
  lemma TurnoverMonths(rows: seq<Row>)
    ensures forall i :: 0 <= i < |StableTrends.PeriodGroups(rows)| ==>
      && TurnoverOf(rows).months[i].period == PeriodLabel(StableTrends.PeriodGroups(rows)[i].key)
      && TurnoverOf(rows).months[i].totalTurnover == SumWhere(rows, PeriodOf, StableTrends.PeriodGroups(rows)[i].key).Volume()
    ensures forall i, j :: 0 <= i < j < |StableTrends.PeriodGroups(rows)| ==>
      PeriodLt(StableTrends.PeriodGroups(rows)[i].key, StableTrends.PeriodGroups(rows)[j].key)
  {
    TurnoverFromMonths(Stable.TypeGroups(rows), StableTrends.PeriodGroups(rows));
    StableTrends.MonthGroupSums(rows);
    StableTrends.PeriodGroupsChronological(rows);
  }
}
