/** get_sales_per_supplier of backend/app_stable.py.

    One record per supplier with its three column sums and their total,
    largest total first; each supplier's market share is its total as a
    percentage of the whole market (0 for every supplier when the market
    is not positive) and is rated on the partnership ladder. */
module StableSuppliers {
  import opened Order
  import opened Table
  import opened Ranking
  import opened Ratios
  import opened Tiers
  import opened Responses

  datatype SupplierRecord = SupplierRecord(
    supplier: string,
    totalSales: real,
    retailSales: real,
    retailTransfers: real,
    warehouseSales: real,
    marketShare: real,
    partnershipTier: string)

  datatype SupplierReport = SupplierReport(
    suppliers: seq<SupplierRecord>,
    totalMarketSales: real,
    averageSalesPerSupplier: real,
    totalSuppliers: nat,
    top10MarketShare: real,
    strategicPartnersCount: nat,
    keyPartnersCount: nat,
    topSupplier: string,
    topSupplierSales: real,
    topSupplierShare: real,
    supplierDiversity: string)

  /** df.groupby('SUPPLIER'), summed. */
  function SupplierGroups(rows: seq<Row>): seq<Group<string>> {
    GroupBy(rows, SupplierOf, RowAgg, StrLt)
  }

  function GroupVolume<K>(g: Group<K>): real { g.agg.Volume() }

  function TotalSalesOf(r: SupplierRecord): real { r.totalSales }

  function MarketShareOf(r: SupplierRecord): real { r.marketShare }

  predicate IsStrategic(r: SupplierRecord) { r.partnershipTier == "Strategic Partner" }

  predicate IsKey(r: SupplierRecord) { r.partnershipTier == "Key Partner" }

  function RecordOf(g: Group<string>, market: real): SupplierRecord {
    var share := Share(g.agg.Volume(), market);
    SupplierRecord(g.key, g.agg.Volume(), g.agg.retail, g.agg.transfers, g.agg.warehouse, share, PartnershipTier(share))
  }

  function RecordsOf(gs: seq<Group<string>>, market: real): (rs: seq<SupplierRecord>)
    ensures |rs| == |gs| && forall i :: 0 <= i < |gs| ==> rs[i] == RecordOf(gs[i], market)
  {
    seq(|gs|, i requires 0 <= i < |gs| => RecordOf(gs[i], market))
  }

  /** The endpoint from the supplier groups.  The groups are not empty: the endpoint refuses an
      empty table before it gets here, so the mean over the suppliers is a real division. */
  function SupplierReportFrom(gs: seq<Group<string>>): (r: SupplierReport)
    requires |gs| > 0
    ensures |r.suppliers| == |gs| == r.totalSuppliers
    ensures SortedDesc(r.suppliers, TotalSalesOf)
    ensures r.totalMarketSales == SumBy(r.suppliers, TotalSalesOf)
    ensures r.averageSalesPerSupplier == r.totalMarketSales / (|gs| as real)
    ensures r.top10MarketShare == Share(SumBy(Take(r.suppliers, 10), TotalSalesOf), r.totalMarketSales)
    ensures r.strategicPartnersCount == Count(r.suppliers, IsStrategic)
    ensures r.keyPartnersCount == Count(r.suppliers, IsKey)
    ensures r.strategicPartnersCount + r.keyPartnersCount <= r.totalSuppliers
    ensures r.topSupplier == r.suppliers[0].supplier
    ensures r.topSupplierSales == r.suppliers[0].totalSales
    ensures r.topSupplierShare == r.suppliers[0].marketShare
    ensures r.supplierDiversity == SupplierDiversity(r.totalSuppliers)
  {
    var sorted := SortDesc(gs, GroupVolume);
    SortDescSorted(gs, GroupVolume);
    var market := SumBy(sorted, GroupVolume);
    var recs := RecordsOf(sorted, market);
    RecordsSum(sorted, market);
    assert SortedDesc(recs, TotalSalesOf) by {
      forall i, j | 0 <= i < j < |recs| ensures TotalSalesOf(recs[i]) >= TotalSalesOf(recs[j]) {
        assert GroupVolume(sorted[i]) >= GroupVolume(sorted[j]);
      }
    }
    CountDisjoint(recs, IsStrategic, IsKey);
    var n := |recs|;
    SupplierReport(recs, market, market / (n as real), n,
                   Share(SumBy(Take(recs, 10), TotalSalesOf), market),
                   Count(recs, IsStrategic), Count(recs, IsKey),
                   recs[0].supplier, recs[0].totalSales, recs[0].marketShare,
                   SupplierDiversity(n))
  }

  lemma {:induction false} RecordsSum(gs: seq<Group<string>>, market: real)
    ensures SumBy(RecordsOf(gs, market), TotalSalesOf) == SumBy(gs, GroupVolume)
    decreases |gs|
  {
    if gs != [] {
      RecordsSum(gs[1..], market);
      assert RecordsOf(gs, market)[1..] == RecordsOf(gs[1..], market);
    }
  }

  /** The records are the sorted groups' records against the market, the sum of all the groups. */
  lemma {:induction false} ReportUnfold(gs: seq<Group<string>>)
    requires |gs| > 0
    ensures SupplierReportFrom(gs).totalMarketSales == SumBy(SortDesc(gs, GroupVolume), GroupVolume)
    ensures SupplierReportFrom(gs).suppliers == RecordsOf(SortDesc(gs, GroupVolume), SupplierReportFrom(gs).totalMarketSales)
  {
  }

  /** The report's records are the groups' records against the report's market. */
  lemma {:induction false} ReportRecordsAreGroups(gs: seq<Group<string>>)
    requires |gs| > 0
    ensures forall r :: r in SupplierReportFrom(gs).suppliers ==>
      exists j :: 0 <= j < |gs| && r == RecordOf(gs[j], SupplierReportFrom(gs).totalMarketSales)
  {
    var sorted := SortDesc(gs, GroupVolume);
    SortDescMembers(gs, GroupVolume);
    var recs := SupplierReportFrom(gs).suppliers;
    var market := SupplierReportFrom(gs).totalMarketSales;
    assert recs == RecordsOf(sorted, market);
    forall r | r in recs ensures exists j :: 0 <= j < |gs| && r == RecordOf(gs[j], market) {
      var k :| 0 <= k < |recs| && recs[k] == r;
      assert sorted[k] in sorted;
      var j :| 0 <= j < |gs| && gs[j] == sorted[k];
    }
  }

  /** Each record holds one supplier's three column sums and their total, its share of the
      market and the partnership tier of that share. */
  lemma {:induction false} ReportRecords(gs: seq<Group<string>>)
    requires |gs| > 0
    ensures forall r :: r in SupplierReportFrom(gs).suppliers ==>
      && (exists g :: g in gs && g.key == r.supplier && g.agg.retail == r.retailSales
                      && g.agg.transfers == r.retailTransfers && g.agg.warehouse == r.warehouseSales)
      && r.totalSales == r.retailSales + r.retailTransfers + r.warehouseSales
      && r.marketShare == Share(r.totalSales, SupplierReportFrom(gs).totalMarketSales)
      && r.partnershipTier == PartnershipTier(r.marketShare)
  {
    ReportRecordsAreGroups(gs);
    var market := SupplierReportFrom(gs).totalMarketSales;
    forall r | r in SupplierReportFrom(gs).suppliers
      ensures exists g :: g in gs && g.key == r.supplier && g.agg.retail == r.retailSales
                          && g.agg.transfers == r.retailTransfers && g.agg.warehouse == r.warehouseSales
    {
      var j :| 0 <= j < |gs| && r == RecordOf(gs[j], market);
      assert gs[j] in gs;
    }
  }

  /** Every supplier group has its record. */
  lemma {:induction false} ReportCoversGroups(gs: seq<Group<string>>, j: nat)
    requires |gs| > 0 && j < |gs|
    ensures RecordOf(gs[j], SupplierReportFrom(gs).totalMarketSales) in SupplierReportFrom(gs).suppliers
  {
    var sorted := SortDesc(gs, GroupVolume);
    SortDescMembers(gs, GroupVolume);
    assert gs[j] in sorted;
    var k :| 0 <= k < |sorted| && sorted[k] == gs[j];
    assert SupplierReportFrom(gs).suppliers[k] == RecordOf(gs[j], SupplierReportFrom(gs).totalMarketSales);
  }

  /** The market is every group's total. */
  lemma {:induction false} ReportMarket(gs: seq<Group<string>>)
    requires |gs| > 0
    ensures SupplierReportFrom(gs).totalMarketSales == SumBy(gs, GroupVolume)
  {
    SumBySorted(gs, GroupVolume, GroupVolume);
    RecordsSum(SortDesc(gs, GroupVolume), SumBy(SortDesc(gs, GroupVolume), GroupVolume));
  }

  lemma {:induction false} RecordSharesSum(gs: seq<Group<string>>, market: real)
    ensures SumBy(RecordsOf(gs, market), MarketShareOf) == Share(SumBy(gs, GroupVolume), market)
    decreases |gs|
  {
    if gs != [] {
      RecordSharesSum(gs[1..], market);
      assert RecordsOf(gs, market)[1..] == RecordsOf(gs[1..], market);
      ShareAdds(gs[0].agg.Volume(), SumBy(gs[1..], GroupVolume), market);
    } else {
      ShareAdds(0.0, 0.0, market);
    }
  }

  /** Of a positive market the shares add up to 100. */
  lemma {:induction false} MarketSharesSumTo100(gs: seq<Group<string>>)
    requires |gs| > 0
    requires SupplierReportFrom(gs).totalMarketSales > 0.0
    ensures SumBy(SupplierReportFrom(gs).suppliers, MarketShareOf) == 100.0
  {
    var sorted := SortDesc(gs, GroupVolume);
    var market := SupplierReportFrom(gs).totalMarketSales;
    ReportUnfold(gs);
    RecordSharesSum(sorted, market);
    ShareOfWhole(market);
  }

  /** Without a positive market every share is 0 and every supplier a minor partner. */
  lemma {:induction false} SharesWithoutMarket(gs: seq<Group<string>>)
    requires |gs| > 0
    requires SupplierReportFrom(gs).totalMarketSales <= 0.0
    ensures forall r :: r in SupplierReportFrom(gs).suppliers ==> r.marketShare == 0.0 && r.partnershipTier == "Minor Partner"
  {
    var sorted := SortDesc(gs, GroupVolume);
    var recs := SupplierReportFrom(gs).suppliers;
    assert recs == RecordsOf(sorted, SupplierReportFrom(gs).totalMarketSales);
  }

  /** No supplier group sells more than the top supplier. */
  lemma {:induction false} TopSupplierIsLargest(gs: seq<Group<string>>)
    requires |gs| > 0
    ensures forall g :: g in gs ==> g.agg.Volume() <= SupplierReportFrom(gs).topSupplierSales
  {
    var sorted := SortDesc(gs, GroupVolume);
    SortDescSorted(gs, GroupVolume);
    SortDescMembers(gs, GroupVolume);
    var top := SupplierReportFrom(gs).topSupplierSales;
    assert top == GroupVolume(sorted[0]);
    forall g | g in gs ensures g.agg.Volume() <= top {
      assert g in sorted;
      var k :| 0 <= k < |sorted| && sorted[k] == g;
      if k > 0 { assert GroupVolume(sorted[0]) >= GroupVolume(sorted[k]); }
    }
  }

  /** The strategic partners are exactly the suppliers with at least 15 per cent of the market,
      the key partners exactly those with at least 8 and under 15. */
  lemma {:induction false} PartnerTiersIff(gs: seq<Group<string>>)
    requires |gs| > 0
    ensures forall r :: r in SupplierReportFrom(gs).suppliers ==>
      && (IsStrategic(r) <==> r.marketShare >= 15.0)
      && (IsKey(r) <==> 8.0 <= r.marketShare < 15.0)
  {
    var recs := SupplierReportFrom(gs).suppliers;
    ReportUnfold(gs);
    forall r | r in recs
      ensures && (IsStrategic(r) <==> r.marketShare >= 15.0)
              && (IsKey(r) <==> 8.0 <= r.marketShare < 15.0)
    {
      var k :| 0 <= k < |recs| && recs[k] == r;
      PartnershipTierBands(r.marketShare);
    }
  }

  /** With no negative group totals, no record has a negative total. */
  lemma {:induction false} ReportTotalsNonNegative(gs: seq<Group<string>>)
    requires |gs| > 0
    requires forall j :: 0 <= j < |gs| ==> gs[j].agg.Volume() >= 0.0
    ensures forall i :: 0 <= i < |SupplierReportFrom(gs).suppliers| ==> SupplierReportFrom(gs).suppliers[i].totalSales >= 0.0
  {
    var sorted := SortDesc(gs, GroupVolume);
    var recs := SupplierReportFrom(gs).suppliers;
    assert recs == RecordsOf(sorted, SupplierReportFrom(gs).totalMarketSales);
    forall i | 0 <= i < |recs| ensures recs[i].totalSales >= 0.0 {
      assert sorted[i] in multiset(gs);
      var j :| 0 <= j < |gs| && gs[j] == sorted[i];
    }
  }

  /** With no negative totals and a positive market the top ten hold between 0 and 100 per
      cent of it, and all of it when there are at most ten suppliers. */
  lemma {:induction false} Top10ShareBounds(gs: seq<Group<string>>)
    requires |gs| > 0
    requires forall j :: 0 <= j < |gs| ==> gs[j].agg.Volume() >= 0.0
    requires SumBy(gs, GroupVolume) > 0.0
    ensures 0.0 <= SupplierReportFrom(gs).top10MarketShare <= 100.0
    ensures |gs| <= 10 ==> SupplierReportFrom(gs).top10MarketShare == 100.0
  {
    var rep := SupplierReportFrom(gs);
    ReportMarket(gs);
    ReportTotalsNonNegative(gs);
    SumByTakeBounded(rep.suppliers, TotalSalesOf, 10);
    ShareBounds(SumBy(Take(rep.suppliers, 10), TotalSalesOf), rep.totalMarketSales);
    if |gs| <= 10 {
      ShareOfWhole(rep.totalMarketSales);
    }
  }

  // ---- From the table ----------------------------------------------------

  /** A supplier group sums exactly its supplier's rows, and that supplier occurs. */
  lemma {:induction false} SupplierGroupFacts(rows: seq<Row>, g: Group<string>)
    requires g in SupplierGroups(rows)
    ensures g.agg == SumWhere(rows, SupplierOf, g.key)
    ensures exists i :: 0 <= i < |rows| && rows[i].supplier == g.key
  {
    GroupByKeysOccur(rows, SupplierOf, RowAgg, StrLt);
    var j :| 0 <= j < |SupplierGroups(rows)| && SupplierGroups(rows)[j] == g;
    var i :| 0 <= i < |rows| && SupplierOf(rows[i]) == g.key;
  }

  /** The market is the whole table's volume. */
  lemma {:induction false} SupplierMarketIsTableVolume(rows: seq<Row>)
    requires |rows| > 0
    ensures SupplierReportOf(rows).totalMarketSales == Total(rows, RowAgg).Volume()
  {
    var gs := SupplierGroups(rows);
    GroupByNonEmpty(rows, SupplierOf, RowAgg, StrLt);
    ReportMarket(gs);
    StrLtIsStrictTotalOrder();
    GroupByConserves(rows, SupplierOf, RowAgg, StrLt);
    GroupVolumeSum(gs);
  }

  lemma {:induction false} GroupVolumeSum(gs: seq<Group<string>>)
    ensures SumBy(gs, GroupVolume) == Total(gs, GroupAgg).Volume()
    decreases |gs|
  {
    if gs != [] { GroupVolumeSum(gs[1..]); }
  }

  /** Each record's sums are its supplier's rows' sums, and that supplier occurs in the table. */
  lemma {:induction false} SupplierRecordsFromRows(rows: seq<Row>)
    requires |rows| > 0
    ensures forall r :: r in SupplierReportOf(rows).suppliers ==>
      && r.retailSales == SumWhere(rows, SupplierOf, r.supplier).retail
      && r.retailTransfers == SumWhere(rows, SupplierOf, r.supplier).transfers
      && r.warehouseSales == SumWhere(rows, SupplierOf, r.supplier).warehouse
      && exists i :: 0 <= i < |rows| && rows[i].supplier == r.supplier
  {
    var gs := SupplierGroups(rows);
    GroupByNonEmpty(rows, SupplierOf, RowAgg, StrLt);
    ReportRecordsAreGroups(gs);
    var market := SupplierReportFrom(gs).totalMarketSales;
    forall r | r in SupplierReportOf(rows).suppliers
      ensures && r.retailSales == SumWhere(rows, SupplierOf, r.supplier).retail
              && r.retailTransfers == SumWhere(rows, SupplierOf, r.supplier).transfers
              && r.warehouseSales == SumWhere(rows, SupplierOf, r.supplier).warehouse
              && exists i :: 0 <= i < |rows| && rows[i].supplier == r.supplier
    {
      var j :| 0 <= j < |gs| && r == RecordOf(gs[j], market);
      assert gs[j] in gs;
      SupplierGroupFacts(rows, gs[j]);
    }
  }

  /** Every supplier in the table has a record. */
  lemma {:induction false} SupplierRecordsCoverRows(rows: seq<Row>, i: nat)
    requires i < |rows|
    ensures exists r :: r in SupplierReportOf(rows).suppliers && r.supplier == rows[i].supplier
  {
    var gs := SupplierGroups(rows);
    GroupByNonEmpty(rows, SupplierOf, RowAgg, StrLt);
    GroupByCovers(rows, SupplierOf, RowAgg, StrLt);
    var j :| 0 <= j < |gs| && gs[j].key == SupplierOf(rows[i]);
    ReportCoversGroups(gs, j);
  }

  function SupplierReportOf(rows: seq<Row>): SupplierReport
    requires |rows| > 0
  {
    GroupByNonEmpty(rows, SupplierOf, RowAgg, StrLt);
    SupplierReportFrom(SupplierGroups(rows))
  }

  function SalesPerSupplier(rows: seq<Row>): (r: Response<SupplierReport>)
    ensures |rows| == 0 ==> r == Error(NoData)
    ensures |rows| > 0 ==> r == Ok(SupplierReportOf(rows))
  {
    if |rows| == 0 then Error(NoData) else Ok(SupplierReportOf(rows))
  }
}
