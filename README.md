# Sales dashboard aggregation engine

A model of the aggregation engine behind the sales dashboard's backend.  The backend reads one table of
warehouse and retail sales rows for a set of items.  Each row has YEAR, MONTH, SUPPLIER, ITEM CODE,
ITEM DESCRIPTION, ITEM TYPE, RETAIL SALES, RETAIL TRANSFERS and WAREHOUSE SALES.  The backend answers
each dashboard endpoint with a summary of that table: KPI snapshots, totals and shares, grouped
rankings, month-by-month series, tier labels and chart series.

The model is written in Dafny, one module per backend concern:

- **Table, Order, Ranking** model the pandas operations the endpoints are built from:
  - `groupby(...).sum()` over sorted keys;
  - boolean filtering;
  - `sort_values(ascending=False)`, `head(n)` / `nlargest(n)`;
  - `iloc[::-1]`.
- **Floats** models the non-finite results of the unguarded divisions (NaN, plus and minus infinity)
  with `fillna` and a NaN-skipping mean.
- **Ratios** models the guarded percentages and ratios.
- **Tiers** models every threshold ladder that turns a number into a label.
- **Labels** models the `f"{year}-{month:02d}"` period label and the truncated display labels.
- **Periods** models "latest month, then one month back".
- **Snapshot** models the month-over-month KPI shared by four backends.
- **Stable, StableTrends, StableTurnover, StableSuppliers, StableTransfers** model the ten endpoints of
  `backend/app_stable.py`, the engine the entry point serves.
- **Variants, VariantGrowth, VariantSuppliers** model where `backend/app_new.py` differs from it:
  - no empty-table guard;
  - a per-type sales/transfer ratio;
  - retail-only month-over-month growth;
  - a retail/warehouse turnover proxy;
  - a supplier ranking whose treemap is built by a loop.
- **Minimal** models `backend/app_minimal_working.py`, `backend/app_minimal.py` and
  `backend/test_simple.py`.
- **Probe** models `backend/test_endpoint.py`.
- **Charts and ChartFrame** model the chart endpoints of `deploy_ready_app_fixed.py`.
  ChartFrame holds the cached frame as a class whose methods add the derived YEAR_MONTH and
  TOTAL_VOLUME columns in place.

Each endpoint answers with a `Responses.Response`, one of three cases:

- `Ok(payload)`;
- `Error(message)`, carrying the source's own error texts ('No data available',
  'No items with sales data found', ...);
- `Raised`, when the backend's catch-all handler would report a pandas exception.

Money amounts are `real`.  Parallel JSON lists that describe one record per entry become one sequence
of records.  The test endpoint keeps its three lists, and their alignment is proved.

## Model

Functions without a contract of their own, such as `Minimal.TopSupplier` and `Probe.TopItems`, are covered by the rows of the lemmas about them (`Minimal.TopSupplierIsLargest`, `Probe.TopListsShape` and its neighbours).

| member | source | states |
|---|---|---|
| Table.GroupBy | backend/app_stable.py:101 | each group's aggregate is the sum of exactly the rows with that key |
| Table.GroupByAscending | backend/app_stable.py:232-242 | groupby keys come out strictly ascending in the key order |
| Table.GroupByConserves | backend/app_stable.py:190-194 | the groups' aggregates add up to the whole table's aggregate |
| Table.GroupByCovers | backend/app_stable.py:101 | every row's key has a group |
| Table.GroupByKeysOccur | backend/app_stable.py:101 | every group key is the key of some row |
| Table.GroupByNonEmpty | backend/app_stable.py:101 | a non-empty table has at least one group |
| Table.SortedKeysAscending | backend/app_stable.py:232-242 | the sorted distinct keys are strictly ascending and distinct |
| Table.Where | backend/app_stable.py:38-39 | selecting rows by a key value keeps exactly the rows with that value |
| Table.SortedKeys | backend/app_stable.py:101 | the groupby keys are exactly the values occurring in the key column |
| Table.Filter | backend/app_stable.py:134 | a boolean filter keeps exactly the elements satisfying the predicate, as a sub-multiset |
| Table.Count | backend/app_stable.py:334 | `len(df[mask])` is the length of the filtered sequence, at most the input length |
| Table.TotalCount | backend/app_stable.py:379 | summing the row counter gives the number of rows |
| Table.PeriodLtIsStrictTotalOrder | backend/app_stable.py:242 | the (YEAR, MONTH) order is a strict total order |
| Order.StrLtIsStrictTotalOrder | backend/app_stable.py:101 | the string key order is a strict total order |
| Ranking.SortDesc | backend/app_stable.py:105 | `sort_values(ascending=False)` returns a permutation of its input |
| Ranking.SortDescSorted | backend/app_stable.py:105 | the result is non-increasing in the sort column |
| Ranking.TopNKeepsLargest | backend/app_stable.py:135 | `sort_values(...).head(n)` keeps min(n, len) sorted elements of the input, each at least as large as every element left out |
| Ranking.TopNFirstIsMax | backend/app_stable.py:135 | the first element kept is the input's maximum |
| Ranking.TopNAbove | backend/app_stable.py:135 | an element larger than the last one kept is kept |
| Ranking.Reverse | backend/app_stable.py:164 | `iloc[::-1]` puts element len-1-i at position i |
| Ranking.ReverseReverse | backend/app_stable.py:164 | reversing twice gives the original order |
| Ranking.SumByPermutation | backend/app_stable.py:415 | a sum does not depend on the order of its terms |
| Ranking.SumByTakeBounded | backend/app_stable.py:491-493 | with non-negative terms, the sum of the first n is between 0 and the whole sum |
| Floats.Div | backend/app_stable.py:104 | unguarded division gives the quotient, or NaN for 0/0, or an infinity of the numerator's sign |
| Floats.Percent | backend/app_stable.py:238 | unguarded percentage follows the same cases as Div |
| Floats.FillNa | backend/app_stable.py:238 | `fillna(d)` replaces NaN by d and keeps every other value |
| Floats.MeanOfFinite | backend/app_stable.py:330 | the NaN-skipping mean of finite values is their sum over their count |
| Floats.SumWithPosInf | backend/app_stable.py:330 | a sum with a plus-infinity term and no minus-infinity or NaN term is plus infinity |
| Ratios.ShareScales | backend/app_stable.py:74-76 | a guarded percentage times its positive whole is 100 times the part, or 0 when the whole is not positive |
| Ratios.ShareBounds | backend/app_stable.py:142 | a part between 0 and a positive whole has a share between 0 and 100 |
| Ratios.SharesOfThree | backend/app_stable.py:74-76 | the three stream percentages add up to 100 when the grand total is positive |
| Ratios.SharesSumTo100 | backend/app_stable.py:104 | shares of a positively summing list add up to 100 |
| Ratios.PercentChangeRecovers | backend/app_minimal_working.py:46-51 | applying the guarded percentage change to the previous value gives the current one |
| Ratios.PercentChangeSign | backend/app_minimal_working.py:46-51 | the change is positive, or zero, exactly when the current value is above, or equal to, the previous one |
| Ratios.GuardedRatioScales | backend/app_stable.py:380 | a guarded ratio times its positive divisor gives back the dividend, and it is 0 otherwise |
| Tiers.ReachedMonotone | backend/app_stable.py:386-394 | a larger value reaches at least as many thresholds of a ladder |
| Tiers.ReachedFloat | backend/app_stable.py:245-253 | NaN and minus infinity reach no threshold, plus infinity reaches all of them |
| Tiers.ContributorCategoryLadder | backend/app_stable.py:107-111 | the contributor label is chosen by how many of 5 and 10 the percentage reaches |
| Tiers.PerformanceTierByRank | backend/app_stable.py:147-155 | ranks 1-3 are Star, 4-6 Strong, later ranks Good |
| Tiers.EfficiencyLevelLadder | backend/app_stable.py:245-253 | the efficiency level is chosen by how many of 5, 15 and 25 the ratio reaches |
| Tiers.GrowthCategoryLadder | backend/app_stable.py:313-325 | the growth category is chosen by how many of -10, -5, 0, 5 and 10 the percentage reaches |
| Tiers.TurnoverRatingLadder | backend/app_stable.py:386-394 | the turnover rating is chosen by how many of 5000, 20000 and 50000 the monthly average reaches |
| Tiers.PartnershipTierLadder | backend/app_stable.py:473-483 | the partnership tier is chosen by how many of 1, 3, 8 and 15 the market share reaches |
| Tiers.PartnershipTierBands | backend/app_stable.py:473-483 | Strategic iff share >= 15, and Key iff 8 <= share < 15 |
| Tiers.SupplierDiversityLadder | backend/app_stable.py:533 | diversity is High from 20 suppliers, Moderate from 10, otherwise Low |
| Tiers.LogisticsPerformanceLadder | backend/app_stable.py:572-582 | the logistics label is chosen by how many of 5, 15, 30 and 50 the efficiency reaches |
| Tiers.TransferFocusedIff | backend/app_stable.py:572-582 | an item is transfer-focused iff its efficiency is at least 30 |
| Tiers.EfficiencyCategoryBands | backend/app_new.py:115-123 | the four ratio categories hold exactly on ratio 0, [0.8, 1.2], above 1.2, and the rest |
| Tiers.GrowthBandBands | backend/app_new.py:317-327 | the five growth bands hold exactly on their stated intervals and cover all rates |
| Tiers.PerformanceCategoryLadder | backend/app_new.py:375-385 | the turnover-proxy category is chosen by how many of 0.5, 1.5, 3 and 5 the rate reaches |
| Tiers.PerformanceColorLadder | backend/app_new.py:387-397 | the colour is chosen by the same ladder |
| Tiers.PerformanceColorAgrees | backend/app_new.py:375-397 | two rates get the same category iff they get the same colour |
| Tiers.SupplierCategoryLadder | backend/app_new.py:478-488 | the supplier category is chosen by how many of 1, 5, 10 and 20 the percentage reaches |
| Tiers.SupplierColorLadder | backend/app_new.py:490-500 | the supplier colour is chosen by the same ladder |
| Tiers.SupplierColorAgrees | backend/app_new.py:478-500 | two percentages get the same category iff they get the same colour |
| Labels.NatToStringDigits | backend/app_stable.py:50 | `str(n)` is a non-empty string of digits, one digit long iff n < 10 |
| Labels.ParseNatToString | backend/app_stable.py:50 | reading the printed digits back gives the number |
| Labels.PadTwoIsDigits | backend/app_stable.py:50 | `{month:02d}` of a month below 100 is exactly two digits |
| Labels.LabelOrderIsChronological | deploy_ready_app_fixed.py:352-353 | for four-digit years and months 1-12, label order is chronological order |
| Labels.LabelIsInjective | deploy_ready_app_fixed.py:352-353 | two such periods with the same label are the same period |
| Labels.Truncate | backend/app_new.py:516-518 | a name of at most n characters is kept, a longer one becomes n characters plus "..." |
| Labels.TruncateParts | backend/app_new.py:516-518 | a truncated name starts with the first n characters and ends with "..." |
| Labels.DisplayLabel | backend/app_stable.py:157-162 | the label's length is the code's, plus 3 for " - ", plus the truncated description's |
| Labels.DisplayLabelParts | backend/app_stable.py:157-162 | the display label is the code, " - ", then the truncated description |
| Periods.LatestYearFacts | backend/app_stable.py:28 | the latest year occurs and no row is later |
| Periods.LatestMonthFacts | backend/app_stable.py:29 | the latest month of a year occurs in that year and no row of that year is later |
| Periods.LatestPeriod | backend/app_stable.py:28-29 | the latest period occurs in the table and no row's period is after it |
| Periods.PreviousPeriod | backend/app_stable.py:31-36 | the previous period is earlier and exactly one calendar month back |
| Periods.NothingBetweenPreviousAndLatest | backend/app_stable.py:31-36 | no month lies strictly between the previous period and the latest one |
| Periods.NextOfPrevious | backend/app_stable.py:31-36 | stepping back one month and forward one month returns the same period |
| Snapshot.PeriodValues | backend/app_stable.py:38-45 | the period's values are its rows' retail and warehouse sums |
| Snapshot.PeriodValuesOfAbsentPeriod | backend/app_stable.py:38-45 | a period without rows shows [0, 0] |
| Snapshot.KpiOf | backend/app_stable.py:28-57 | the snapshot names the latest period and the month before it, with their sums |
| Stable.KpiData | backend/app_stable.py:22-60 | an empty table is refused with 'No data available', otherwise the snapshot is returned |
| Stable.OverallOf | backend/app_stable.py:66-90 | the three totals are the table's column sums; the percentages add up to 100 when the grand total is positive and are 0 otherwise |
| Stable.OverallSalesPerformance | backend/app_stable.py:62-93 | an empty table is refused, otherwise the overall totals are returned |
| Stable.SalesMixOf | backend/app_stable.py:101-122 | the mix is sorted by retail sales descending; its top contributor is "N/A" or the first entry; its total is the table's retail sum |
| Stable.SalesMixIsMixOfGroups | backend/app_stable.py:101-105 | the mix is the sorted sequence of the per-type groups |
| Stable.SalesMixEntries | backend/app_stable.py:101-111 | each entry carries its type's retail sum, its (possibly non-finite) percentage and its contributor label |
| Stable.SalesMixTypesOccur | backend/app_stable.py:101 | every listed type occurs in the table |
| Stable.SalesMixCoversTypes | backend/app_stable.py:101 | every type in the table is listed |
| Stable.SalesMixData | backend/app_stable.py:95-125 | empty table refused, otherwise the mix |
| Stable.TypeGroupFacts | backend/app_stable.py:101 | a type group sums exactly its type's rows, and that type occurs |
| Stable.SalesByItemTypeOf | backend/app_stable.py:190-211 | one entry per type, sorted by total sales descending |
| Stable.SalesByItemType | backend/app_stable.py:184-214 | empty table refused, otherwise the per-type totals |
| Stable.SalesByItemTypeEntries | backend/app_stable.py:190-202 | each entry's columns are its type's row sums and its total is their sum |
| Stable.SalesByItemTypeConserves | backend/app_stable.py:190-200 | the per-type totals add up to the table's whole volume |
| Stable.TopSellingFrom | backend/app_stable.py:135-177 | refused with 'No items with sales data found' iff no item sells; the total is the table's retail sum |
| Stable.TopSellingOf | backend/app_stable.py:133-177 | the endpoint body over the items with positive sales (best_item/best_sales corrected; as written: Stable.BestItemAsWritten, see Findings) |
| Stable.TopSellingData | backend/app_stable.py:127-182 | empty table refused, otherwise the top-selling body (best_item/best_sales corrected; as written: Stable.BestItemAsWritten, see Findings) |
| Stable.TopSellingErrorIff | backend/app_stable.py:130-138 | an error iff the table is empty or no item has positive total sales |
| Stable.SellingItemFacts | backend/app_stable.py:133-134 | a selling item sums exactly its rows, has positive sales and occurs |
| Stable.RankItems | backend/app_stable.py:144-155 | item k of the top list gets rank k + 1, counting from 1 in sorted order |
| Stable.TopSellingFromRanks | backend/app_stable.py:145-155 | the items are shown from rank n down to rank 1, each with its rank's tier |
| Stable.TopSellingFromLabels | backend/app_stable.py:157-162 | each item's label is its code and its description truncated at 25 |
| Stable.TopSellingFromOrder | backend/app_stable.py:135-164 | min(10, n) items, shown in non-decreasing order of sales |
| Stable.TopSellingFromTotals | backend/app_stable.py:140-142 | top_10_total is the shown items' sum, and the percentage is its share of the table |
| Stable.TopSellingFromMembers | backend/app_stable.py:135 | every shown item is one of the selling items |
| Stable.TopSellingItemsAreItems | backend/app_stable.py:133-135 | every shown item's sales are the retail sum of its own rows |
| Stable.TopSellingItemsOccur | backend/app_stable.py:133 | every shown item occurs in the table |
| Stable.TopSellingFromKeepsLargest | backend/app_stable.py:135 | an item selling more than the smallest shown one is shown |
| Stable.TopSellingFromBestIsLargest | backend/app_stable.py:176-177 | best_sales is the largest item total, and best_item is an item that has it (corrected) |
| Stable.BestItemAsWritten | backend/app_stable.py:176-177 | best_item as written is the first item in key order, not the best seller |
| Stable.BestItemAsWrittenMissesTheBest | backend/app_stable.py:176-177 | two items selling 1 and 5: the source reports the first, the corrected field the second |
| StableTrends.PeriodGroupFacts | backend/app_stable.py:232-235 | a month group sums exactly its month's rows, and that month occurs |
| StableTrends.PeriodGroupsChronological | backend/app_stable.py:242 | the months come out in chronological order |
| StableTrends.PeriodLabelsAscend | backend/app_stable.py:239-242 | for well-dated rows, the PERIOD labels ascend too |
| StableTrends.ActivityRatioCases | backend/app_stable.py:237-238 | the monthly transfer ratio is never NaN; it is the finite percentage when the activity is non-zero, else 0 or an infinity by the sign of the transfers |
| StableTrends.MonthRatios | backend/app_stable.py:237-255 | one ratio row per month group |
| StableTrends.TransferRatioFrom | backend/app_stable.py:224-268 | totals, guarded overall ratio, its level, and trend "Increasing" iff more than one month and the last ratio exceeds the first |
| StableTrends.SalesTransferRatio | backend/app_stable.py:217-273 | empty table refused, otherwise the transfer-ratio body |
| StableTrends.TransferRatioMonths | backend/app_stable.py:232-266 | month i carries its label, its rows' sums, its ratio and its level |
| StableTrends.MonthGroupSums | backend/app_stable.py:232-235 | each month's sums are its rows' sums |
| StableTrends.OverallRatioIsPercentage | backend/app_stable.py:229 | with non-negative sums, the overall ratio is between 0 and 100 |
| StableTrends.GrowthPercentCases | backend/app_stable.py:301-304 | the growth percentage is never NaN; it is finite when the previous month is non-zero, else 0 or an infinity |
| StableTrends.GrowthPercentRecovers | backend/app_stable.py:301-304 | applying a finite growth percentage to the previous month gives the current one |
| StableTrends.GrowthRows | backend/app_stable.py:299-307 | one growth row per month after the first |
| StableTrends.Percentages | backend/app_stable.py:343 | the growth_percentages list is the rows' percentages |
| StableTrends.MomGrowthConsistency | backend/app_stable.py:333-336 | positive months are counted among all compared months, and consistency is their share, between 0 and 100 |
| StableTrends.MomGrowthTrends | backend/app_stable.py:330-350 | average is the NaN-skipping mean, latest is the last row, direction Positive iff the mean is above 0 |
| StableTrends.MomGrowthFrom | backend/app_stable.py:307-310 | 'Insufficient data for growth calculation' iff a single month exists, otherwise the summary |
| StableTrends.MomGrowthOf | backend/app_stable.py:276-356 | empty table refused, otherwise growth over the month groups |
| StableTrends.MomGrowthChain | backend/app_stable.py:299-304 | each row's previous sales are the prior row's total, its amount is the difference, and its percentage and category follow |
| StableTrends.MomGrowthMonths | backend/app_stable.py:283-295 | growth row k names month k+1 and carries its rows' volume |
| StableTurnover.TypeTurnovers | backend/app_stable.py:366-396 | one turnover row per item type |
| StableTurnover.MonthTurnovers | backend/app_stable.py:399-412 | one row per month with its label and volume |
| StableTurnover.TurnoverFrom | backend/app_stable.py:366-438 | types sorted by movement, top and lowest names, counts, totals and the guarded monthly average |
| StableTurnover.InventoryTurnoverRate | backend/app_stable.py:359-443 | empty table refused, otherwise the turnover body |
| StableTurnover.TurnoverTypes | backend/app_stable.py:366-396 | each type row is its group's sums, with movement, monthly average and rating derived from them |
| StableTurnover.TurnoverExtremes | backend/app_stable.py:419-420 | the first type has the largest movement and the last the smallest |
| StableTurnover.HighTurnoverIff | backend/app_stable.py:386-394 | High Turnover iff the monthly average is at least 50000 |
| StableTurnover.TypeTurnoverSum | backend/app_stable.py:415 | the type movements add up to the groups' volume |
| StableTurnover.MonthTurnoverSum | backend/app_stable.py:405-409 | the monthly turnovers add up to the month groups' volume |
| StableTurnover.TurnoverConserves | backend/app_stable.py:405-415 | total turnover and the sum of the monthly turnovers both equal the table's volume |
| StableTurnover.TurnoverMonthsPositive | backend/app_stable.py:379-380 | a non-empty table has at least one month, so the average divides |
| StableTurnover.TurnoverMonths | backend/app_stable.py:399-412 | month i carries its label and its rows' volume, in chronological order |
| StableSuppliers.SupplierReportFrom | backend/app_stable.py:453-533 | suppliers sorted by total, market total, mean, top-10 share, tier counts and top supplier fields |
| StableSuppliers.SalesPerSupplier | backend/app_stable.py:446-538 | empty table refused, otherwise the supplier report |
| StableSuppliers.ReportRecordsAreGroups | backend/app_stable.py:453-470 | every record is built from one supplier group |
| StableSuppliers.RecordsOf | backend/app_stable.py:453-485 | one record per supplier group, in the groups' order, each measured against the same market total |
| StableSuppliers.ReportRecords | backend/app_stable.py:453-485 | each record's columns are its group's sums, with total, share and tier derived from them |
| StableSuppliers.ReportCoversGroups | backend/app_stable.py:453-466 | every supplier group has a record |
| StableSuppliers.ReportMarket | backend/app_stable.py:469 | the market total is the sum of the groups' volumes |
| StableSuppliers.MarketSharesSumTo100 | backend/app_stable.py:470 | with a positive market total, the market shares add up to 100 |
| StableSuppliers.SharesWithoutMarket | backend/app_stable.py:470-483 | without a positive market total, every share is 0 and every tier is Minor Partner |
| StableSuppliers.TopSupplierIsLargest | backend/app_stable.py:530-531 | no supplier sells more than the reported top supplier |
| StableSuppliers.PartnerTiersIff | backend/app_stable.py:473-497 | counted Strategic iff share >= 15, and counted Key iff 8 <= share < 15 |
| StableSuppliers.ReportTotalsNonNegative | backend/app_stable.py:459-463 | non-negative groups give non-negative totals |
| StableSuppliers.Top10ShareBounds | backend/app_stable.py:491-493 | the top-10 share lies in [0, 100] and is 100 with at most ten suppliers |
| StableSuppliers.SupplierGroupFacts | backend/app_stable.py:453 | a supplier group sums exactly its supplier's rows, and the supplier occurs |
| StableSuppliers.SupplierMarketIsTableVolume | backend/app_stable.py:469 | the market total is the table's whole volume |
| StableSuppliers.SupplierRecordsFromRows | backend/app_stable.py:453-463 | each record's sums are its supplier's row sums, and the supplier occurs |
| StableSuppliers.SupplierRecordsCoverRows | backend/app_stable.py:453 | every row's supplier has a record |
| StableTransfers.TransferItems | backend/app_stable.py:562-592 | one display record per shown group |
| StableTransfers.TopTransfersFrom | backend/app_stable.py:556-630 | 'No items with retail transfers found' iff no item moves; the totals and the mover count |
| StableTransfers.TopItemsByTransfers | backend/app_stable.py:541-635 | empty table refused, otherwise the transfers body |
| StableTransfers.TopTransfersErrorIff | backend/app_stable.py:544-557 | an error iff the table is empty or no item has positive transfers; the total is the table's transfers |
| StableTransfers.ShownShape | backend/app_stable.py:560-569 | min(15, n) movers shown, sorted descending, each one a mover |
| StableTransfers.ShownItems | backend/app_stable.py:612 | the payload lists the shown records reversed |
| StableTransfers.TopTransfersFromOrder | backend/app_stable.py:560-612 | min(15, n) items in non-decreasing order of transfers |
| StableTransfers.ShownTransfers | backend/app_stable.py:612-619 | position k holds the (n-1-k)-th largest mover's transfers and type |
| StableTransfers.TransferItemFacts | backend/app_stable.py:563-592 | a record's label, efficiency and logistics label are derived from its own sums |
| StableTransfers.TopTransfersFromLabels | backend/app_stable.py:563-592 | every shown item has its label, efficiency and logistics label |
| StableTransfers.TopTransfersFromFocus | backend/app_stable.py:564-584 | efficiencies are never NaN, and an item is transfer-focused iff its efficiency is at least 30 |
| StableTransfers.TopTransfersFromTotals | backend/app_stable.py:595-627 | the top-15 total is the shown sum, its share of the table, and the top item is the last shown one |
| StableTransfers.TopTransferIsLargest | backend/app_stable.py:626-627 | no mover has more transfers than the reported top item, which is a mover |
| StableTransfers.TopTransfersKeepsLargest | backend/app_stable.py:569 | a mover with more transfers than the smallest shown one is shown |
| StableTransfers.TypeTotalsFirstIsLargest | backend/app_stable.py:600 | the first type of transfers_by_type has the largest sum among the shown items' types |
| StableTransfers.DominantTypeIsLargest | backend/app_stable.py:600-630 | the dominant type is a shown item's type with the largest transfer sum |
| StableTransfers.MovingItemFacts | backend/app_stable.py:548-554 | a mover has positive transfers, sums exactly its rows, and occurs |
| StableTransfers.TopTransferItemsAreItems | backend/app_stable.py:548-569 | each shown item's transfers and sales are its rows' sums |
| StableTransfers.TotalTransferItemsCounts | backend/app_stable.py:548-556 | every item with positive transfers is a mover, and the count is the number of movers |
| StableTransfers.MoversWithinTotal | backend/app_stable.py:554-595 | with non-negative rows, the movers' transfers are within the table's transfers |
| StableTransfers.ShownSumBounds | backend/app_stable.py:569-596 | the shown sum is positive, within the movers' sum, and equal to it with at most 15 movers |
| StableTransfers.Top15ShareBounds | backend/app_stable.py:595-597 | the top-15 percentage is in (0, 100], and 100 with at most 15 movers holding all transfers |
| StableTransfers.Top15ShareOfTable | backend/app_stable.py:595-597 | on a table with non-negative transfers, the top-15 percentage is in (0, 100] |
| Variants.KpiData | backend/app_new.py:20-57 | the snapshot with no empty guard: an empty table raises, a non-empty one gives the shared snapshot |
| Variants.OverallSalesPerformance | backend/app_new.py:139-172 | always the overall totals, also for an empty table |
| Variants.OverallOfEmptyTable | backend/app_new.py:146-155 | an empty table gives zero totals and zero percentages |
| Variants.SalesMix | backend/app_new.py:174-210 | always the shared mix |
| Variants.SalesMixOfEmptyTable | backend/app_new.py:204-205 | an empty table gives no entries, top contributor "N/A" and 0 |
| Variants.SalesByItemType | backend/app_new.py:59-91 | always the shared per-type totals |
| Variants.TopSellingOfEmptyTable | backend/app_new.py:225-227 | an empty table gives 'No items with sales data found' |
| Variants.TypeRatiosOf | backend/app_new.py:99-125 | one ratio row per item type |
| Variants.TypeRatiosFrom | backend/app_new.py:106-112 | the per-type ratio rows are a permutation sorted by ratio descending |
| Variants.SalesTransferRatio | backend/app_new.py:93-137 | always answers, also on an empty table, with the per-type ratio records of the item-type groups, sorted by ratio |
| Variants.SalesTransferRatioOfEmptyTable | backend/app_new.py:98-107 | on an empty table `apply(axis=1)` yields an empty column, so the five lists are empty |
| Variants.TypeRatiosAreGroups | backend/app_new.py:99-125 | each row is one type group's sums, with guarded ratio and category |
| Variants.TypeRatiosCoverGroups | backend/app_new.py:99-112 | every type group has a row |
| Variants.TypeRatioMeaning | backend/app_new.py:106-123 | with transfers, ratio times transfers is sales; "No Transfers" iff no positive transfers or no sales |
| Variants.TypeRatiosFromRows | backend/app_new.py:99-102 | each row's sums are its type's row sums, and every row's type is listed |
| Variants.TypeRatesOf | backend/app_new.py:403-411 | one turnover-rate row per item type |
| Variants.TurnoverProxyFrom | backend/app_new.py:365-443 | totals, per-type rates sorted descending, efficient count and share, best category |
| Variants.InventoryTurnoverRate | backend/app_new.py:359-451 | always answers, also on an empty table, with the turnover proxy of the table's totals and item-type groups |
| Variants.InventoryTurnoverOfEmptyTable | backend/app_new.py:365-441 | on an empty table: rate 0, 'Critical' in '#F44336', zero totals, empty per-type lists, 0 of 0 efficient at 0 %, best 'N/A' at 0 |
| Variants.TurnoverProxyRate | backend/app_new.py:365-400 | the proxy rate times positive warehouse sales is retail sales, else 0; category and colour follow the ladder |
| Variants.TurnoverProxyBest | backend/app_new.py:413-443 | no type has a higher rate than the best one, and the efficiency share is in [0, 100] |
| Variants.TurnoverProxyTypes | backend/app_new.py:403-411 | each type's rate is its group's guarded retail/warehouse ratio |
| Variants.EfficientIsGoodOrBetter | backend/app_new.py:375-416 | a type is counted efficient iff its category is Good or Excellent |
| VariantGrowth.ComparedIndices | backend/app_new.py:295-302 | exactly the months whose growth rate is not NaN, in order |
| VariantGrowth.ComparedMonths | backend/app_new.py:295-329 | one growth row per compared month |
| VariantGrowth.MaxRate | backend/app_new.py:313 | the maximum rate occurs and bounds every rate |
| VariantGrowth.MinRate | backend/app_new.py:314 | the minimum rate occurs and is below every rate |
| VariantGrowth.RetailGrowthFrom | backend/app_new.py:295-351 | 'Not enough data for month-over-month comparison' iff no month compares, otherwise the compared months and their metrics |
| VariantGrowth.MonthOverMonthGrowth | backend/app_new.py:283-357 | an empty table gives the not-enough-data error |
| VariantGrowth.RawRateCases | backend/app_new.py:296-305 | the rate is NaN only for 0 over 0; a finite rate applied to the previous month gives the current one; an infinite rate becomes 0 |
| VariantGrowth.ComparedMonthFacts | backend/app_new.py:295-329 | each compared row carries its month, its retail sum, the previous month's, its rate and its band |
| VariantGrowth.ComparedMonthsCover | backend/app_new.py:302 | every month with a comparable rate is listed |
| VariantGrowth.ComparedMonthsChronological | backend/app_new.py:292 | compared months are in chronological order |
| VariantGrowth.ComparedMonthsSums | backend/app_new.py:289 | each compared month's sales are its rows' retail sum |
| VariantGrowth.MeanRateBounds | backend/app_new.py:311-314 | the mean rate lies between the minimum and the maximum |
| VariantGrowth.GrowthMetricsBounds | backend/app_new.py:311-349 | min <= average <= max, latest is the last month, and the month count |
| VariantGrowth.GrowthMetricsExtremes | backend/app_new.py:313-314 | every rate is within [min, max], and both are attained |
| VariantSuppliers.Treemap | backend/app_new.py:474-531 | entry k is supplier k with its sales, share, rank k+1, category and colour |
| VariantSuppliers.BuildTreemap | backend/app_new.py:521-531 | the loop builds exactly the treemap |
| VariantSuppliers.Names | backend/app_new.py:506 | the listed names are the groups' keys in order |
| VariantSuppliers.SupplierRankingFrom | backend/app_new.py:467-555 | 'No suppliers with sales data found' iff none sells; the total and the supplier count |
| VariantSuppliers.SalesPerSupplier | backend/app_new.py:453-559 | the endpoint is the ranking of the sorted, positive suppliers |
| VariantSuppliers.RankedSuppliersShape | backend/app_new.py:459-465 | the kept suppliers are sorted descending and are exactly the groups with positive sales |
| VariantSuppliers.SupplierRankingErrorIff | backend/app_new.py:465-468 | an error iff no supplier has positive sales |
| VariantSuppliers.TreemapEntries | backend/app_new.py:474-531 | each entry's fields: name, display name truncated at 20, sales, share, rank, category, colour |
| VariantSuppliers.TreemapSorted | backend/app_new.py:462-474 | entries are in non-increasing order of share |
| VariantSuppliers.TreemapShareSum | backend/app_new.py:474 | the entries' shares add up to the share of the selection's sum |
| VariantSuppliers.PercentagesSumTo100 | backend/app_new.py:471-474 | when suppliers sell, the percentages add up to 100 |
| VariantSuppliers.DiversityCounts | backend/app_new.py:511-513 | major <= key <= total, counted by the 20 and 10 percent thresholds |
| VariantSuppliers.TopFiveMetrics | backend/app_new.py:506-508 | the top five's names, contribution and share in (0, 100], 100 with at most five suppliers |
| VariantSuppliers.BestSupplierIsLargest | backend/app_new.py:459-555 | the best supplier is the first entry and sells at least as much as any supplier |
| VariantSuppliers.SupplierRankingOnRows | backend/app_new.py:459-474 | each entry's sales are its rows' retail sum, and no supplier sells more than the best |
| Minimal.GuardedSum | backend/app_minimal_working.py:41-44 | a guarded period sum is the sum of that period's rows |
| Minimal.GuardedSumOfAbsentMonth | backend/app_minimal_working.py:41-44 | a period without rows sums to zero |
| Minimal.KpiSummaryOf | backend/app_minimal_working.py:28-68 | the summary of the latest and previous periods, the top supplier, the two counts and the month label |
| Minimal.KpiData | backend/app_minimal_working.py:22-72 | 'No data available' iff the table is empty |
| Minimal.SalesPerformance | backend/app_minimal_working.py:74-94 | empty table refused, otherwise the three column sums, their total and 3 streams |
| Minimal.KpiSummaryChanges | backend/app_minimal_working.py:41-51 | current values are the period sums, and each guarded change recovers the current value from the previous one |
| Minimal.TopSupplierIsLargest | backend/app_minimal_working.py:54-55 | the top supplier is a supplier with the largest retail sum |
| Minimal.GroupKeysDistinct | backend/app_minimal_working.py:65-66 | groupby keys are pairwise distinct |
| Minimal.DistinctIsGroupCount | backend/app_minimal_working.py:65-66 | nunique equals the number of groupby groups |
| Minimal.ImageBounded | backend/app_minimal_working.py:65-66 | a non-empty column has between 1 and len distinct values |
| Minimal.DistinctCounts | backend/app_minimal_working.py:65-66 | the supplier and item counts are the group counts, each between 1 and the row count |
| Minimal.LoadedKpi | backend/app_minimal.py:21-59 | 'Data not loaded' when the table is absent, otherwise the unguarded snapshot |
| Minimal.LoadedOverall | backend/app_minimal.py:61-92 | 'Data not loaded' iff absent, otherwise the overall totals |
| Minimal.LoadedKpiCases | backend/test_simple.py:21-59 | an error iff absent, raises iff loaded but empty, otherwise it names the month before the latest |
| Probe.ListsOf | backend/test_endpoint.py:24-28 | three aligned lists of equal length, position k taken from item k |
| Probe.TestTopSelling | backend/test_endpoint.py:8-33 | always answers the lists of the ten largest items |
| Probe.ItemGroupFacts | backend/test_endpoint.py:15 | an item group sums exactly its item's rows, and the item occurs |
| Probe.TopListsShape | backend/test_endpoint.py:19-28 | min(10, n) entries in each list, each from a group of the input |
| Probe.TopListsSorted | backend/test_endpoint.py:19 | the sales list is non-increasing |
| Probe.TopListsLeaveOutSmaller | backend/test_endpoint.py:19 | no group left out sells more than any shown |
| Probe.TopListsOnRows | backend/test_endpoint.py:15-28 | the item at position k occurs and its sales are its rows' retail sum |
| Charts.KeyedSeries | deploy_ready_app_fixed.py:353-360 | the x values are the group keys and the y values their column sums |
| Charts.KeyedSeriesSum | deploy_ready_app_fixed.py:353 | the series' y values add up to the groups' column total |
| Charts.MonthlySeriesBuckets | deploy_ready_app_fixed.py:352-353 | the month labels ascend strictly, each bar is its label's row sum, labels occur, every row is covered |
| Charts.MonthlySeriesConserves | deploy_ready_app_fixed.py:353 | the monthly bars add up to the table's column total |
| Charts.MonthlySeriesChronological | deploy_ready_app_fixed.py:352-353 | for well-dated rows, bar order is chronological and a label is one period |
| Charts.MonthlyVolumeIsCellSum | deploy_ready_app_fixed.py:494-495 | each total-volume bar sums the TOTAL_VOLUME cells of its rows |
| Charts.ItemTypeDistribution | deploy_ready_app_fixed.py:432-455 | 'No data available' iff the table is empty |
| Charts.ItemTypeDistributionSlices | deploy_ready_app_fixed.py:439 | each slice is its type's retail sum, and the slices add up to the table's retail sum |
| Charts.BarsOf | deploy_ready_app_fixed.py:464-469 | bar k has the k-th supplier's retail sales as x and its name as y, one bar per supplier |
| Charts.TopSuppliers | deploy_ready_app_fixed.py:457-484 | empty table refused, otherwise the ten largest suppliers' bars |
| Charts.TopBarsShape | deploy_ready_app_fixed.py:464 | min(10, n) bars, non-increasing in sales |
| Charts.TopBarsLeaveOutSmaller | deploy_ready_app_fixed.py:464 | no supplier left out sells more than a shown one |
| Charts.TopSuppliersOnRows | deploy_ready_app_fixed.py:464-470 | each bar is its supplier's rows' sum, and every supplier is shown or sells at most any bar |
| Charts.YearlySalesTrend | deploy_ready_app_fixed.py:518-544 | empty table refused, otherwise one bar per year |
| Charts.YearlySalesTrendBars | deploy_ready_app_fixed.py:525 | years ascend, each bar is that year's rows' sum, and the bars add up to the table's retail sum |
| Charts.SupplierPerformance | deploy_ready_app_fixed.py:546-584 | empty table refused, otherwise the first ten suppliers by name |
| Charts.FirstGroupsPrecede | deploy_ready_app_fixed.py:553-556 | every supplier not shown comes after every shown one by name |
| Charts.SupplierPerformanceFirstByName | deploy_ready_app_fixed.py:553-556 | both traces name the same min(10, n) ascending suppliers, with per-supplier sums |
| Charts.SeasonalSeries | deploy_ready_app_fixed.py:593-600 | point k is calendar month k's key with the mean retail sales of its rows |
| Charts.SeasonalAnalysis | deploy_ready_app_fixed.py:586-613 | empty table refused, otherwise the per-month means |
| Charts.SeasonalAnalysisMonths | deploy_ready_app_fixed.py:593 | calendar months ascend and every row's month is shown |
| Charts.SeasonalAnalysisMean | deploy_ready_app_fixed.py:593 | point k is its month's retail sum over its positive row count |
| ChartFrame.YearMonthColumn | deploy_ready_app_fixed.py:352 | cell i of YEAR_MONTH is row i's label |
| ChartFrame.TotalVolumeColumn | deploy_ready_app_fixed.py:494 | cell i of TOTAL_VOLUME is row i's volume |
| ChartFrame.TotalVolumeColumnSum | deploy_ready_app_fixed.py:494-495 | the TOTAL_VOLUME column adds up to the table's volume |
| ChartFrame.BuildTrendSeries | deploy_ready_app_fixed.py:652-660 | the loop emits one line per item type, named by the type, over all months, with that type's column |
| ChartFrame.TrendColumn | deploy_ready_app_fixed.py:656 | `trends[item_type]` has one value per month, the pivot cell of that month and type |
| ChartFrame.TrendCellMeaning | deploy_ready_app_fixed.py:650 | a pivot cell is the sum over the rows with that (month, type), and 0 when there are none |
| ChartFrame.TrendAxes | deploy_ready_app_fixed.py:650 | the months and types ascend strictly and are exactly those occurring |
| ChartFrame.TrendColumnConserves | deploy_ready_app_fixed.py:650-655 | a type's line adds up to that type's retail sum |
| ChartFrame.SalesFrame.constructor | deploy_ready_app_fixed.py:27-71 | the cached frame holds the loaded rows and no derived column |
| ChartFrame.SalesFrame.AddYearMonth | deploy_ready_app_fixed.py:352 | adds YEAR_MONTH computed from the rows and changes nothing else |
| ChartFrame.SalesFrame.AddTotalVolume | deploy_ready_app_fixed.py:494 | adds TOTAL_VOLUME computed from the rows and changes nothing else |
| ChartFrame.SalesFrame.MonthlySum | deploy_ready_app_fixed.py:348-353 | an empty frame is refused unchanged; otherwise YEAR_MONTH is added and the monthly series returned |
| ChartFrame.SalesFrame.MonthlyRetailSales | deploy_ready_app_fixed.py:344-372 | refused on an empty frame, otherwise it adds YEAR_MONTH and returns the monthly retail series |
| ChartFrame.SalesFrame.MonthlyWarehouseSales | deploy_ready_app_fixed.py:374-401 | the same for warehouse sales |
| ChartFrame.SalesFrame.MonthlyTransfers | deploy_ready_app_fixed.py:403-430 | the same for retail transfers |
| ChartFrame.SalesFrame.MonthlyTotalVolume | deploy_ready_app_fixed.py:486-516 | refused on an empty frame, otherwise it adds both columns and returns the monthly volume series |
| ChartFrame.SalesFrame.ItemTypeTrends | deploy_ready_app_fixed.py:642-660 | refused on an empty frame, otherwise it adds YEAR_MONTH and returns one line per type over all months |

## Left out

- Reading the data file is not modelled: `load_data`, `pd.read_csv`, the row filters applied at load time, and the sample-data generator.  The table is a parameter, or a field of the frame object.
- The Flask layer is not modelled: routing, JSON serialisation, numpy-to-float conversion, CORS, logging and `print` output.
- `/api/test` and `/api/sales_data` are not modelled, because they only echo the table or a fixed message.
- `sales_vs_transfers` in deploy_ready_app_fixed.py is not modelled, because it returns the raw RETAIL SALES and RETAIL TRANSFERS columns as a scatter and aggregates nothing.
- Chart layout and colours are not modelled: titles, axis names and trace types of the chart endpoints.
- The exception texts and traceback `details` are not modelled.  A caught pandas exception becomes `Raised`, and which pandas call raises is not modelled beyond the empty-table cases.
- Floating-point rounding is not modelled: amounts are exact reals.  Only the non-finite results of unguarded divisions are modelled.
- NaN cells and NaN group keys are not modelled: every cell of the table is a number or a string.
- Ties are not modelled exactly.  pandas `sort_values` does not promise a tie order; the model keeps tied rows in groupby (key) order, a stable sort.
- StableSuppliers.SupplierReportFrom: the per-supplier monthly trends are not modelled, because they are computed and never returned.
- StableTransfers.TopTransfersFrom: the monthly trends of the top item are not modelled, because they are computed and never returned.
- Table.ItemCodeOf: ITEM CODE, like SUPPLIER and ITEM DESCRIPTION, is a string and groups in code-point order, as an object column does.  If `read_csv` inferred a numeric ITEM CODE column, item groups would sort numerically (20 before 100, where strings give "100" before "20").  A mixed column would sort differently again.  That order decides which item Stable.BestItemAsWritten reports and the tie order of every sort over item groups; the model does not capture the numeric or mixed order.
- The SQL backend, the older deploy script, `main.py`, `app_minimal_test.py` and the frontend are not part of this model.

## Findings

| source | as written | input that shows it | evidently intended | confidence | as-written member | corrected member |
|---|---|---|---|---|---|---|
| backend/app_stable.py:176-177 (also backend/app_new.py:273-274) | best_item and best_sales read the first row of `item_sales`, which is still in (ITEM CODE, ITEM DESCRIPTION) order, because only `top_items` was sorted | two items "A" and "B" with retail sales 1 and 5: best_item is "A" with 1 | the best-selling item: the rank-1 item, "B" with 5 | not executed | Stable.BestItemAsWritten, Stable.BestItemAsWrittenMissesTheBest | Stable.TopSellingFromBestIsLargest |
