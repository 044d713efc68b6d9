/** The threshold ladders that turn a number into a tier label.

    Most ladders are an if/elif chain of `x >= t` tests on descending
    thresholds.  Each one is tied here to an independent reading: the
    label is the entry of its tier list (lowest tier first) indexed by how
    many thresholds x reaches.  `ReachedMonotone` then gives every such
    ladder at once: a larger value never gets a lower tier.  Ladders fed a
    possibly non-finite value compare with IEEE semantics (NaN reaches no
    threshold, +inf reaches all). */
module Tiers {
  import opened Floats

  /** How many of the thresholds ts the value x reaches (x >= t). */
  function Reached(x: real, ts: seq<real>): (n: nat)
    ensures n <= |ts|
    decreases |ts|
  {
    if ts == [] then 0 else (if x >= ts[0] then 1 else 0) + Reached(x, ts[1..])
  }

  /** The same count for an IEEE value. */
  function ReachedF(x: Float, ts: seq<real>): (n: nat)
    ensures n <= |ts|
    decreases |ts|
  {
    if ts == [] then 0 else (if Ge(x, ts[0]) then 1 else 0) + ReachedF(x, ts[1..])
  }

  /** A larger value reaches at least as many thresholds. */
  lemma {:induction false} ReachedMonotone(x: real, y: real, ts: seq<real>)
    requires x <= y
    ensures Reached(x, ts) <= Reached(y, ts)
    decreases |ts|
  {
    if ts != [] { ReachedMonotone(x, y, ts[1..]); }
  }

  /** On a finite value the IEEE count is the real one; NaN reaches nothing, +inf everything. */
  lemma {:induction false} ReachedFloat(x: Float, ts: seq<real>)
    ensures x.Finite? ==> ReachedF(x, ts) == Reached(x.value, ts)
    ensures x == NaN || x == NegInf ==> ReachedF(x, ts) == 0
    ensures x == PosInf ==> ReachedF(x, ts) == |ts|
    decreases |ts|
  {
    if ts != [] { ReachedFloat(x, ts[1..]); }
  }

  // backend/app_stable.py (and the same labels in backend/app_new.py)

  const ContributorTiers := ["Minor Contributor", "Moderate Contributor", "Major Contributor"]

  /** Sales-mix share: >= 10 Major, >= 5 Moderate, otherwise Minor. */
  function ContributorCategory(percentage: Float): string
  {
    if Ge(percentage, 10.0) then "Major Contributor"
    else if Ge(percentage, 5.0) then "Moderate Contributor"
    else "Minor Contributor"
  }

  lemma ContributorCategoryLadder(percentage: Float)
    ensures ContributorCategory(percentage) == ContributorTiers[ReachedF(percentage, [5.0, 10.0])]
  {
  }

  const PerformanceTiers := ["Star Performer", "Strong Performer", "Good Performer"]

  /** Rank in the top ten: 1-3 Star, 4-6 Strong, otherwise Good. */
  function PerformanceTier(rank: int): string
  {
    if rank <= 3 then "Star Performer"
    else if rank <= 6 then "Strong Performer"
    else "Good Performer"
  }

  lemma PerformanceTierByRank(rank: int)
    ensures rank <= 3 ==> PerformanceTier(rank) == PerformanceTiers[0]
    ensures 3 < rank <= 6 ==> PerformanceTier(rank) == PerformanceTiers[1]
    ensures rank > 6 ==> PerformanceTier(rank) == PerformanceTiers[2]
  {
  }

  const EfficiencyLevels := ["Very Low Efficiency", "Low Efficiency", "Moderate Efficiency", "High Efficiency"]

  /** Transfer ratio (percent): >= 25 High, >= 15 Moderate, >= 5 Low, otherwise Very Low. */
  function EfficiencyLevel(ratio: Float): string
  {
    if Ge(ratio, 25.0) then "High Efficiency"
    else if Ge(ratio, 15.0) then "Moderate Efficiency"
    else if Ge(ratio, 5.0) then "Low Efficiency"
    else "Very Low Efficiency"
  }

  lemma EfficiencyLevelLadder(ratio: Float)
    ensures EfficiencyLevel(ratio) == EfficiencyLevels[ReachedF(ratio, [5.0, 15.0, 25.0])]
  {
  }

  const GrowthCategories := ["Strong Decline", "Moderate Decline", "Slight Decline", "Slight Growth", "Moderate Growth", "Strong Growth"]

  /** Month-over-month growth (percent): >= 10, >= 5, >= 0, >= -5, >= -10, otherwise Strong Decline. */
  function GrowthCategory(percent: Float): string
  {
    if Ge(percent, 10.0) then "Strong Growth"
    else if Ge(percent, 5.0) then "Moderate Growth"
    else if Ge(percent, 0.0) then "Slight Growth"
    else if Ge(percent, -5.0) then "Slight Decline"
    else if Ge(percent, -10.0) then "Moderate Decline"
    else "Strong Decline"
  }

  lemma GrowthCategoryLadder(percent: Float)
    ensures GrowthCategory(percent) == GrowthCategories[ReachedF(percent, [-10.0, -5.0, 0.0, 5.0, 10.0])]
  {
  }

  const TurnoverRatings := ["Very Low Turnover", "Low Turnover", "Moderate Turnover", "High Turnover"]

  /** Average monthly movement: >= 50000 High, >= 20000 Moderate, >= 5000 Low, otherwise Very Low. */
  function TurnoverRating(monthlyAverage: real): string
  {
    if monthlyAverage >= 50000.0 then "High Turnover"
    else if monthlyAverage >= 20000.0 then "Moderate Turnover"
    else if monthlyAverage >= 5000.0 then "Low Turnover"
    else "Very Low Turnover"
  }

  lemma TurnoverRatingLadder(monthlyAverage: real)
    ensures TurnoverRating(monthlyAverage) == TurnoverRatings[Reached(monthlyAverage, [5000.0, 20000.0, 50000.0])]
  {
  }

  const PartnershipTiers := ["Minor Partner", "Regular Partner", "Important Partner", "Key Partner", "Strategic Partner"]

  /** Market share (percent): >= 15 Strategic, >= 8 Key, >= 3 Important, >= 1 Regular, otherwise Minor. */
  function PartnershipTier(marketShare: real): string
  {
    if marketShare >= 15.0 then "Strategic Partner"
    else if marketShare >= 8.0 then "Key Partner"
    else if marketShare >= 3.0 then "Important Partner"
    else if marketShare >= 1.0 then "Regular Partner"
    else "Minor Partner"
  }

  lemma PartnershipTierLadder(marketShare: real)
    ensures PartnershipTier(marketShare) == PartnershipTiers[Reached(marketShare, [1.0, 3.0, 8.0, 15.0])]
  {
  }

  /** The two tiers the endpoint counts, each exactly its band of market share. */
  lemma PartnershipTierBands(marketShare: real)
    ensures PartnershipTier(marketShare) == "Strategic Partner" <==> marketShare >= 15.0
    ensures PartnershipTier(marketShare) == "Key Partner" <==> 8.0 <= marketShare < 15.0
  {
  }

  const DiversityLevels := ["Low", "Moderate", "High"]

  /** Number of suppliers: >= 20 High, >= 10 Moderate, otherwise Low. */
  function SupplierDiversity(suppliers: nat): string
  {
    if suppliers >= 20 then "High" else if suppliers >= 10 then "Moderate" else "Low"
  }

  lemma SupplierDiversityLadder(suppliers: nat)
    ensures SupplierDiversity(suppliers) == DiversityLevels[Reached(suppliers as real, [10.0, 20.0])]
  {
  }

  const LogisticsLevels := ["Minimal Transfers", "Sales Focus", "Balanced Distribution", "Moderate Transfer Focus", "High Transfer Focus"]

  /** Transfer efficiency (percent): >= 50, >= 30, >= 15, >= 5, otherwise Minimal Transfers. */
  function LogisticsPerformance(efficiency: Float): string
  {
    if Ge(efficiency, 50.0) then "High Transfer Focus"
    else if Ge(efficiency, 30.0) then "Moderate Transfer Focus"
    else if Ge(efficiency, 15.0) then "Balanced Distribution"
    else if Ge(efficiency, 5.0) then "Sales Focus"
    else "Minimal Transfers"
  }

  lemma LogisticsPerformanceLadder(efficiency: Float)
    ensures LogisticsPerformance(efficiency) == LogisticsLevels[ReachedF(efficiency, [5.0, 15.0, 30.0, 50.0])]
  {
  }

  /** The two logistics tiers counted as transfer focused. */
  predicate TransferFocused(c: string) {
    c == "High Transfer Focus" || c == "Moderate Transfer Focus"
  }

  /** Transfer focus is exactly an efficiency of at least 30 per cent. */
  lemma TransferFocusedIff(efficiency: Float)
    ensures TransferFocused(LogisticsPerformance(efficiency)) <==> Ge(efficiency, 30.0)
  {
  }

  // backend/app_new.py

  /** Sales / transfers ratio per item type: a partition of every value into four labels. */
  function EfficiencyCategory(ratio: real): string
  {
    if ratio == 0.0 then "No Transfers"
    else if 0.8 <= ratio <= 1.2 then "Efficient (0.8-1.2)"
    else if ratio > 1.2 then "High Sales/Low Transfers"
    else "Low Sales/High Transfers"
  }

  lemma EfficiencyCategoryBands(ratio: real)
    ensures EfficiencyCategory(ratio) == "No Transfers" <==> ratio == 0.0
    ensures EfficiencyCategory(ratio) == "Efficient (0.8-1.2)" <==> 0.8 <= ratio <= 1.2
    ensures EfficiencyCategory(ratio) == "High Sales/Low Transfers" <==> ratio > 1.2
    ensures EfficiencyCategory(ratio) == "Low Sales/High Transfers" <==> ratio != 0.0 && ratio < 0.8
  {
  }

  /** Retail growth rate: five disjoint bands covering every value. */
  function GrowthBand(rate: real): string
  {
    if rate > 10.0 then "High Growth"
    else if 5.0 <= rate <= 10.0 then "Moderate Growth"
    else if -5.0 <= rate < 5.0 then "Stable"
    else if -10.0 <= rate < -5.0 then "Moderate Decline"
    else "Significant Decline"
  }

  lemma GrowthBandBands(rate: real)
    ensures GrowthBand(rate) == "High Growth" <==> rate > 10.0
    ensures GrowthBand(rate) == "Moderate Growth" <==> 5.0 <= rate <= 10.0
    ensures GrowthBand(rate) == "Stable" <==> -5.0 <= rate < 5.0
    ensures GrowthBand(rate) == "Moderate Decline" <==> -10.0 <= rate < -5.0
    ensures GrowthBand(rate) == "Significant Decline" <==> rate < -10.0
  {
  }

  const TurnoverThresholds := [0.5, 1.5, 3.0, 5.0]
  const PerformanceCategories := ["Critical", "Poor", "Average", "Good", "Excellent"]
  const PerformanceColors := ["#F44336", "#FF9800", "#FFC107", "#8BC34A", "#4CAF50"]

  /** Turnover rate: >= 5.0 Excellent, >= 3.0 Good, >= 1.5 Average, >= 0.5 Poor, otherwise Critical. */
  function PerformanceCategory(rate: real): string
  {
    if rate >= 5.0 then "Excellent"
    else if rate >= 3.0 then "Good"
    else if rate >= 1.5 then "Average"
    else if rate >= 0.5 then "Poor"
    else "Critical"
  }

  lemma PerformanceCategoryLadder(rate: real)
    ensures PerformanceCategory(rate) == PerformanceCategories[Reached(rate, TurnoverThresholds)]
  {
  }

  /** The chart colour of a turnover rate, on the same thresholds. */
  function PerformanceColor(rate: real): string
  {
    if rate >= 5.0 then "#4CAF50"
    else if rate >= 3.0 then "#8BC34A"
    else if rate >= 1.5 then "#FFC107"
    else if rate >= 0.5 then "#FF9800"
    else "#F44336"
  }

  lemma PerformanceColorLadder(rate: real)
    ensures PerformanceColor(rate) == PerformanceColors[Reached(rate, TurnoverThresholds)]
  {
  }

  /** Category and colour always agree: two rates share a category exactly when they share a colour. */
  lemma PerformanceColorAgrees(x: real, y: real)
    ensures PerformanceCategory(x) == PerformanceCategory(y) <==> PerformanceColor(x) == PerformanceColor(y)
  {
    PerformanceCategoryLadder(x); PerformanceCategoryLadder(y);
    PerformanceColorLadder(x); PerformanceColorLadder(y);
    var i, j := Reached(x, TurnoverThresholds), Reached(y, TurnoverThresholds);
    assert PerformanceCategories[i] == PerformanceCategories[j] <==> i == j;
    assert PerformanceColors[i] == PerformanceColors[j] <==> i == j;
  }

  const SupplierThresholds := [1.0, 5.0, 10.0, 20.0]
  const SupplierCategories := ["Minor Partner", "Regular Partner", "Important Partner", "Key Partner", "Major Partner"]
  const SupplierColors := ["#9E9E9E", "#FF9800", "#4CAF50", "#2196F3", "#1976D2"]

  /** Supplier share: >= 20 Major, >= 10 Key, >= 5 Important, >= 1 Regular, otherwise Minor. */
  function SupplierCategory(percentage: real): string
  {
    if percentage >= 20.0 then "Major Partner"
    else if percentage >= 10.0 then "Key Partner"
    else if percentage >= 5.0 then "Important Partner"
    else if percentage >= 1.0 then "Regular Partner"
    else "Minor Partner"
  }

  lemma SupplierCategoryLadder(percentage: real)
    ensures SupplierCategory(percentage) == SupplierCategories[Reached(percentage, SupplierThresholds)]
  {
  }

  /** The treemap colour of a supplier share, on the same thresholds. */
  function SupplierColor(percentage: real): string
  {
    if percentage >= 20.0 then "#1976D2"
    else if percentage >= 10.0 then "#2196F3"
    else if percentage >= 5.0 then "#4CAF50"
    else if percentage >= 1.0 then "#FF9800"
    else "#9E9E9E"
  }

  lemma SupplierColorLadder(percentage: real)
    ensures SupplierColor(percentage) == SupplierColors[Reached(percentage, SupplierThresholds)]
  {
  }

  /** Category and colour always agree. */
  lemma SupplierColorAgrees(x: real, y: real)
    ensures SupplierCategory(x) == SupplierCategory(y) <==> SupplierColor(x) == SupplierColor(y)
  {
    SupplierCategoryLadder(x); SupplierCategoryLadder(y);
    SupplierColorLadder(x); SupplierColorLadder(y);
    var i, j := Reached(x, SupplierThresholds), Reached(y, SupplierThresholds);
    assert SupplierCategories[i] == SupplierCategories[j] <==> i == j;
    assert SupplierColors[i] == SupplierColors[j] <==> i == j;
  }
}
