/** get_sales_per_supplier of backend/app_new.py: a treemap of the suppliers by retail sales.

    Suppliers are ranked by their RETAIL SALES sum, largest first, and those without positive
    sales are dropped.  Each remaining supplier's percentage is its share of the remaining
    suppliers' total, and that percentage is rated on one ladder that gives both a category
    and a colour.  The treemap records are built by a loop over the ranked suppliers. */
module VariantSuppliers {
  import opened Table
  import opened Ranking
  import opened Labels
  import opened Ratios
  import opened Tiers
  import opened Responses
  import Stable
  import StableSuppliers

  datatype TreemapEntry = TreemapEntry(
    supplier: string,
    displayName: string,
    sales: real,
    percentage: real,
    rank: nat,
    category: string,
    color: string)

  datatype TopFive = TopFive(contribution: real, percentage: real, suppliers: seq<string>)

  datatype Diversity = Diversity(majorPartners: nat, keyPartners: nat, totalSuppliers: nat, supplierConcentration: real)

  datatype BestSupplier = BestSupplier(name: string, sales: real, percentage: real)

  datatype SupplierRanking = SupplierRanking(
    suppliers: seq<TreemapEntry>,
    totalSales: real,
    totalSuppliers: nat,
    topFive: TopFive,
    diversity: Diversity,
    bestSupplier: BestSupplier)

  const NoSuppliers := "No suppliers with sales data found"

  function PercentageOf(e: TreemapEntry): real { e.percentage }

  predicate IsMajor(e: TreemapEntry) { e.percentage >= 20.0 }

  /** At least Key Partner: PERCENTAGE >= 10, which counts the major partners too. */
  predicate IsKeyOrAbove(e: TreemapEntry) { e.percentage >= 10.0 }

  /** supplier_sales sorted by RETAIL SALES descending, then restricted to positive sales. */
  function RankedSuppliers(rows: seq<Row>): seq<Group<string>> {
    Filter(SortDesc(StableSuppliers.SupplierGroups(rows), Stable.GroupRetail), Stable.HasRetail)
  }

  /** One treemap record: the name cut to 20 characters, the share of the total, the rank and
      the rung of the supplier ladder. */
  function EntryOf(g: Group<string>, total: real, rank: nat): TreemapEntry {
    var pct := Share(g.agg.retail, total);
    TreemapEntry(g.key, Truncate(g.key, 20), g.agg.retail, pct, rank, SupplierCategory(pct), SupplierColor(pct))
  }

  /** The treemap records, in ranking order. */
  function Treemap(sel: seq<Group<string>>, total: real): (t: seq<TreemapEntry>)
    ensures |t| == |sel| && forall k :: 0 <= k < |sel| ==> t[k] == EntryOf(sel[k], total, k + 1)
  {
    seq(|sel|, k requires 0 <= k < |sel| => EntryOf(sel[k], total, k + 1))
  }

  /** The loop over supplier_sales.iterrows(). */
  method BuildTreemap(sel: seq<Group<string>>, total: real) returns (t: seq<TreemapEntry>)
    ensures t == Treemap(sel, total)
  {
    t := [];
    var k := 0;
    while k < |sel|
      invariant 0 <= k <= |sel|
      invariant |t| == k
      invariant forall i :: 0 <= i < k ==> t[i] == EntryOf(sel[i], total, i + 1)
    {
      t := t + [EntryOf(sel[k], total, k + 1)];
      k := k + 1;
    }
  }

  function Names(gs: seq<Group<string>>): (ns: seq<string>)
    ensures |ns| == |gs| && forall k :: 0 <= k < |gs| ==> ns[k] == gs[k].key
  {
    seq(|gs|, k requires 0 <= k < |gs| => gs[k].key)
  }

  /** The payload around the treemap records of the ranked suppliers. */
  function RankingOf(sel: seq<Group<string>>, total: real, entries: seq<TreemapEntry>): SupplierRanking
    requires |sel| > 0 && |entries| > 0
  {
    var top := Take(sel, 5);
    var contribution := SumBy(top, Stable.GroupRetail);
    var concentration := Share(contribution, total);
    SupplierRanking(entries, total, |sel|,
                    TopFive(contribution, concentration, Names(top)),
                    Diversity(Count(entries, IsMajor), Count(entries, IsKeyOrAbove), |sel|, concentration),
                    BestSupplier(sel[0].key, sel[0].agg.retail, entries[0].percentage))
  }

  /** The endpoint from the ranked suppliers. */
  function SupplierRankingFrom(sel: seq<Group<string>>): (r: Response<SupplierRanking>)
    ensures !r.Raised?
    ensures r.Error? <==> sel == []
    ensures r.Error? ==> r.message == NoSuppliers
    ensures r.Ok? ==> r.payload.totalSales == SumBy(sel, Stable.GroupRetail)
    ensures r.Ok? ==> r.payload.totalSuppliers == |sel| == |r.payload.suppliers|
  {
    if sel == [] then Error(NoSuppliers)
    else
      var total := SumBy(sel, Stable.GroupRetail);
      Ok(RankingOf(sel, total, Treemap(sel, total)))
  }

  /** The endpoint as the source runs it, building the treemap records with the loop. */
  method SalesPerSupplier(rows: seq<Row>) returns (r: Response<SupplierRanking>)
    ensures r == SupplierRankingFrom(RankedSuppliers(rows))
  {
    var sel := RankedSuppliers(rows);
    if |sel| == 0 {
      return Error(NoSuppliers);
    }
    var total := SumBy(sel, Stable.GroupRetail);
    var entries := BuildTreemap(sel, total);
    r := Ok(RankingOf(sel, total, entries));
  }

  // ---- properties -----------------------------------------------------------

  lemma {:induction false} FilterKeepsOrder(xs: seq<Group<string>>)
    requires SortedDesc(xs, Stable.GroupRetail)
    ensures SortedDesc(Filter(xs, Stable.HasRetail), Stable.GroupRetail)
    decreases |xs|
  {
    if xs != [] {
      var rest := Filter(xs[1..], Stable.HasRetail);
      TailSorted(xs, Stable.GroupRetail);
      FilterKeepsOrder(xs[1..]);
      if Stable.HasRetail(xs[0]) {
        forall k | 0 <= k < |rest| ensures Stable.GroupRetail(rest[k]) <= Stable.GroupRetail(xs[0]) {
          assert rest[k] in rest;
          var j :| 0 <= j < |xs[1..]| && xs[1..][j] == rest[k];
          assert xs[j + 1] == rest[k];
        }
        ConsSorted(xs[0], rest, Stable.GroupRetail);
      }
    }
  }

  /** The ranked suppliers are largest first, all sell, each is a supplier group, and every
      supplier group that sells is among them. */
  lemma RankedSuppliersShape(rows: seq<Row>)
    ensures SortedDesc(RankedSuppliers(rows), Stable.GroupRetail)
    ensures forall g :: g in RankedSuppliers(rows) <==> g in StableSuppliers.SupplierGroups(rows) && g.agg.retail > 0.0
  {
    var gs := StableSuppliers.SupplierGroups(rows);
    SortDescSorted(gs, Stable.GroupRetail);
    SortDescMembers(gs, Stable.GroupRetail);
    FilterKeepsOrder(SortDesc(gs, Stable.GroupRetail));
  }

  /** The error is returned exactly when no supplier has positive retail sales. */
  lemma SupplierRankingErrorIff(rows: seq<Row>)
    ensures SupplierRankingFrom(RankedSuppliers(rows)).Error? <==>
      forall g :: g in StableSuppliers.SupplierGroups(rows) ==> g.agg.retail <= 0.0
  {
    RankedSuppliersShape(rows);
    var sel := RankedSuppliers(rows);
    if sel != [] {
      assert sel[0] in sel;
    }
  }

  /** Each record carries its supplier's name, the name cut to 20 characters, its sales, its
      share of the total, its rank and the category and colour of one rung of the ladder. */
  lemma TreemapEntries(sel: seq<Group<string>>, total: real, k: nat)
    requires k < |sel|
    ensures var e := Treemap(sel, total)[k];
      && e.supplier == sel[k].key && e.sales == sel[k].agg.retail && e.rank == k + 1
      && e.displayName == Truncate(e.supplier, 20)
      && e.percentage == Share(e.sales, total)
      && e.category == SupplierCategories[Reached(e.percentage, SupplierThresholds)]
      && e.color == SupplierColors[Reached(e.percentage, SupplierThresholds)]
  {
    var e := Treemap(sel, total)[k];
    SupplierCategoryLadder(e.percentage);
    SupplierColorLadder(e.percentage);
  }

  /** Sorted by sales with a positive total, the records are sorted by percentage too. */
  lemma TreemapSorted(sel: seq<Group<string>>, total: real)
    requires total > 0.0 && SortedDesc(sel, Stable.GroupRetail)
    ensures SortedDesc(Treemap(sel, total), PercentageOf)
  {
    var t := Treemap(sel, total);
    forall i, j | 0 <= i < j < |t| ensures PercentageOf(t[i]) >= PercentageOf(t[j]) {
      assert Stable.GroupRetail(sel[i]) >= Stable.GroupRetail(sel[j]);
      ShareMonotone(sel[i].agg.retail, sel[j].agg.retail, total);
    }
  }

  lemma {:induction false} TreemapShareSum(sel: seq<Group<string>>, total: real)
    ensures SumBy(Treemap(sel, total), PercentageOf) == Share(SumBy(sel, Stable.GroupRetail), total)
    decreases |sel|
  {
    if sel != [] {
      TreemapShareSum(sel[1..], total);
      var t, t' := Treemap(sel, total), Treemap(sel[1..], total);
      assert SumBy(t[1..], PercentageOf) == SumBy(t', PercentageOf) by {
        forall i | 0 <= i < |t'| ensures t[1..][i].percentage == t'[i].percentage {
          assert sel[1..][i] == sel[i + 1];
        }
        SumByPointwise(t[1..], t', PercentageOf);
      }
      ShareAdds(sel[0].agg.retail, SumBy(sel[1..], Stable.GroupRetail), total);
    } else {
      ShareAdds(0.0, 0.0, total);
    }
  }

  lemma {:induction false} SumByPointwise(a: seq<TreemapEntry>, b: seq<TreemapEntry>, v: TreemapEntry -> real)
    requires |a| == |b| && forall i :: 0 <= i < |a| ==> v(a[i]) == v(b[i])
    ensures SumBy(a, v) == SumBy(b, v)
    decreases |a|
  {
    if a != [] {
      SumByPointwise(a[1..], b[1..], v);
    }
  }

  /** With at least one supplier that sells, the percentages add up to 100. */
  lemma PercentagesSumTo100(sel: seq<Group<string>>)
    requires sel != [] && forall g :: g in sel ==> g.agg.retail > 0.0
    ensures SupplierRankingFrom(sel).Ok?
    ensures SumBy(SupplierRankingFrom(sel).payload.suppliers, PercentageOf) == 100.0
  {
    var total := SumBy(sel, Stable.GroupRetail);
    TotalPositive(sel);
    TreemapShareSum(sel, total);
    ShareOfWhole(total);
  }

  lemma {:induction false} TotalPositive(sel: seq<Group<string>>)
    requires sel != [] && forall g :: g in sel ==> g.agg.retail > 0.0
    ensures SumBy(sel, Stable.GroupRetail) > 0.0
    decreases |sel|
  {
    assert sel[0] in sel;
    if |sel| > 1 {
      assert forall g :: g in sel[1..] ==> g in sel;
      TotalPositive(sel[1..]);
    }
  }

  /** Every major partner is a key partner or above, and both counts are counts of the records
      at or over their threshold. */
  lemma DiversityCounts(sel: seq<Group<string>>)
    requires sel != []
    ensures var d := SupplierRankingFrom(sel).payload.diversity;
      && d.majorPartners <= d.keyPartners <= d.totalSuppliers == |sel|
      && d.majorPartners == Count(SupplierRankingFrom(sel).payload.suppliers, IsMajor)
      && d.keyPartners == Count(SupplierRankingFrom(sel).payload.suppliers, IsKeyOrAbove)
  {
    var es := SupplierRankingFrom(sel).payload.suppliers;
    CountMonotone(es, IsMajor, IsKeyOrAbove);
  }

  /** The top five are the first five ranked suppliers; their contribution is their sales and
      the concentration is that contribution's share of the total, which the diversity metrics
      repeat; it lies in (0, 100] and is 100 with at most five suppliers. */
  lemma TopFiveMetrics(sel: seq<Group<string>>)
    requires sel != [] && forall g :: g in sel ==> g.agg.retail > 0.0
    ensures var p := SupplierRankingFrom(sel).payload;
      && p.topFive.suppliers == Names(Take(sel, 5))
      && p.topFive.contribution == SumBy(Take(sel, 5), Stable.GroupRetail)
      && p.topFive.percentage == Share(p.topFive.contribution, p.totalSales)
      && p.diversity.supplierConcentration == p.topFive.percentage
      && 0.0 < p.topFive.percentage <= 100.0
      && (|sel| <= 5 ==> p.topFive.percentage == 100.0)
  {
    var total := SumBy(sel, Stable.GroupRetail);
    var top := Take(sel, 5);
    var c := SumBy(top, Stable.GroupRetail);
    TotalPositive(sel);
    assert top != [] && forall g :: g in top ==> g in sel;
    TotalPositive(top);
    assert forall i :: 0 <= i < |sel| ==> Stable.GroupRetail(sel[i]) >= 0.0 by {
      forall i | 0 <= i < |sel| ensures Stable.GroupRetail(sel[i]) >= 0.0 { assert sel[i] in sel; }
    }
    SumByTakeBounded(sel, Stable.GroupRetail, 5);
    ShareBounds(c, total);
    SharePositive(c, total);
    if |sel| <= 5 { ShareOfWhole(total); }
  }

  /** The best supplier is the first ranked, so no supplier in the ranking sells more; its
      percentage is its record's. */
  lemma BestSupplierIsLargest(sel: seq<Group<string>>)
    requires sel != [] && SortedDesc(sel, Stable.GroupRetail)
    ensures var p := SupplierRankingFrom(sel).payload;
      && p.bestSupplier.name == p.suppliers[0].supplier
      && p.bestSupplier.percentage == p.suppliers[0].percentage
      && forall g :: g in sel ==> g.agg.retail <= p.bestSupplier.sales
  {
    forall g | g in sel ensures g.agg.retail <= sel[0].agg.retail {
      var j :| 0 <= j < |sel| && sel[j] == g;
      if j > 0 { assert Stable.GroupRetail(sel[0]) >= Stable.GroupRetail(sel[j]); }
    }
  }

  /** On the table: each record's sales are its supplier's rows' retail sales, and the best
      supplier sells at least as much as every supplier of the table. */
  lemma SupplierRankingOnRows(rows: seq<Row>)
    requires SupplierRankingFrom(RankedSuppliers(rows)).Ok?
    ensures var p := SupplierRankingFrom(RankedSuppliers(rows)).payload;
      && (forall e :: e in p.suppliers ==> e.sales == SumWhere(rows, SupplierOf, e.supplier).retail)
      && (forall g :: g in StableSuppliers.SupplierGroups(rows) ==> g.agg.retail <= p.bestSupplier.sales)
  {
    var sel := RankedSuppliers(rows);
    var p := SupplierRankingFrom(sel).payload;
    RankedSuppliersShape(rows);
    forall e | e in p.suppliers ensures e.sales == SumWhere(rows, SupplierOf, e.supplier).retail {
      var k :| 0 <= k < |p.suppliers| && p.suppliers[k] == e;
      assert sel[k] in sel;
      StableSuppliers.SupplierGroupFacts(rows, sel[k]);
    }
    BestSupplierIsLargest(sel);
    forall g | g in StableSuppliers.SupplierGroups(rows) ensures g.agg.retail <= p.bestSupplier.sales {
      if g.agg.retail > 0.0 { assert g in sel; }
      else { assert sel[0] in sel; }
    }
  }
}
