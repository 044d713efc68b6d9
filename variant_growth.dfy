/** get_month_over_month_growth of backend/app_new.py: month-over-month growth of RETAIL SALES.

    The table is grouped by (YEAR, MONTH) in calendar order and each month is compared with the
    month before it.  The first month has nothing to compare with, and a month whose rate is
    0/0 (both months without sales) has no rate either: both are dropped.  A rate from a month
    without sales to one with sales is an infinity, which is replaced by 0.  The remaining rates
    are banded and summarised by their mean, the latest, the largest and the smallest. */
module VariantGrowth {
  import opened Floats
  import opened Table
  import opened Labels
  import opened Tiers
  import opened Responses
  import StableTrends

  datatype MonthGrowth = MonthGrowth(
    date: string,
    year: int,
    month: int,
    currentSales: real,
    previousSales: real,
    growthRate: real,
    growthCategory: string)

  datatype GrowthMetrics = GrowthMetrics(
    averageGrowthRate: real,
    latestGrowthRate: real,
    maxGrowthRate: real,
    minGrowthRate: real,
    totalMonths: nat)

  datatype RetailGrowth = RetailGrowth(months: seq<MonthGrowth>, metrics: GrowthMetrics)

  const NotEnoughData := "Not enough data for month-over-month comparison"

  /** (RETAIL SALES - previous_month_sales) / previous_month_sales * 100, unguarded. */
  function RawRate(current: real, previous: real): Float {
    Percent(current - previous, previous)
  }

  /** The month at index i of the month groups survives dropna: its raw rate is not NaN. */
  predicate Compared(gs: seq<Group<Period>>, i: nat)
    requires 1 <= i < |gs|
  {
    RawRate(gs[i].agg.retail, gs[i - 1].agg.retail) != NaN
  }

  /** replace([inf, -inf], 0) */
  function InfToZero(x: Float): real {
    if x.Finite? then x.value else 0.0
  }

  function MonthGrowthAt(gs: seq<Group<Period>>, i: nat): MonthGrowth
    requires 1 <= i < |gs|
  {
    var current, previous := gs[i].agg.retail, gs[i - 1].agg.retail;
    var rate := InfToZero(RawRate(current, previous));
    MonthGrowth(PeriodLabel(gs[i].key), gs[i].key.year, gs[i].key.month, current, previous, rate, GrowthBand(rate))
  }

  /** The indices from lo on of the months that survive, in increasing order. */
  function ComparedIndices(gs: seq<Group<Period>>, lo: nat): (idx: seq<nat>)
    requires 1 <= lo
    ensures forall k :: 0 <= k < |idx| ==> lo <= idx[k] < |gs| && Compared(gs, idx[k])
    ensures forall k, l :: 0 <= k < l < |idx| ==> idx[k] < idx[l]
    ensures forall j :: lo <= j < |gs| && Compared(gs, j) ==> j in idx
    decreases |gs| - lo
  {
    if lo >= |gs| then []
    else if Compared(gs, lo) then [lo] + ComparedIndices(gs, lo + 1)
    else ComparedIndices(gs, lo + 1)
  }

  function ComparedMonths(gs: seq<Group<Period>>): (ms: seq<MonthGrowth>)
    ensures var idx := ComparedIndices(gs, 1);
      |ms| == |idx| && forall k :: 0 <= k < |idx| ==> ms[k] == MonthGrowthAt(gs, idx[k])
  {
    var idx := ComparedIndices(gs, 1);
    seq(|idx|, k requires 0 <= k < |idx| => MonthGrowthAt(gs, idx[k]))
  }

  function Rates(ms: seq<MonthGrowth>): (rs: seq<real>)
    ensures |rs| == |ms| && forall k :: 0 <= k < |ms| ==> rs[k] == ms[k].growthRate
  {
    seq(|ms|, k requires 0 <= k < |ms| => ms[k].growthRate)
  }

  function MaxRate(xs: seq<real>): (m: real)
    requires |xs| > 0
    ensures m in xs && forall k :: 0 <= k < |xs| ==> xs[k] <= m
  {
    if |xs| == 1 then xs[0]
    else
      var rest := MaxRate(xs[1..]);
      if xs[0] >= rest then xs[0] else rest
  }

  function MinRate(xs: seq<real>): (m: real)
    requires |xs| > 0
    ensures m in xs && forall k :: 0 <= k < |xs| ==> m <= xs[k]
  {
    if |xs| == 1 then xs[0]
    else
      var rest := MinRate(xs[1..]);
      if xs[0] <= rest then xs[0] else rest
  }

  function MeanRate(xs: seq<real>): real
    requires |xs| > 0
  {
    RealSum(xs) / (|xs| as real)
  }

  function GrowthMetricsOf(ms: seq<MonthGrowth>): GrowthMetrics
    requires |ms| > 0
  {
    var rates := Rates(ms);
    GrowthMetrics(MeanRate(rates), rates[|rates| - 1], MaxRate(rates), MinRate(rates), |ms|)
  }

  /** The endpoint from the month groups in calendar order. */
  function RetailGrowthFrom(gs: seq<Group<Period>>): (r: Response<RetailGrowth>)
    ensures !r.Raised?
    ensures r.Error? <==> forall j :: 1 <= j < |gs| ==> !Compared(gs, j)
    ensures r.Error? ==> r.message == NotEnoughData
    ensures r.Ok? ==> r.payload.months == ComparedMonths(gs) && r.payload.months != []
    ensures r.Ok? ==> r.payload.metrics == GrowthMetricsOf(ComparedMonths(gs))
  {
    var ms := ComparedMonths(gs);
    if ms == [] then Error(NotEnoughData)
    else Ok(RetailGrowth(ms, GrowthMetricsOf(ms)))
  }

  function MonthOverMonthGrowth(rows: seq<Row>): (r: Response<RetailGrowth>)
    ensures !r.Raised?
    ensures |rows| == 0 ==> r == Error(NotEnoughData)
  {
    RetailGrowthFrom(StableTrends.PeriodGroups(rows))
  }

  /** A month has a rate unless it and its predecessor both had no sales; with sales before, the
      rate is the percentage change and recovers the month; from no sales it is 0. */
  lemma RawRateCases(current: real, previous: real)
    ensures RawRate(current, previous) != NaN <==> previous != 0.0 || current != 0.0
    ensures previous != 0.0 ==> InfToZero(RawRate(current, previous)) == (current - previous) / previous * 100.0
    ensures previous != 0.0 ==> previous + previous * InfToZero(RawRate(current, previous)) / 100.0 == current
    ensures previous == 0.0 ==> InfToZero(RawRate(current, previous)) == 0.0
  {
    if previous != 0.0 {
      var q := (current - previous) / previous;
      assert q * previous == current - previous;
      assert previous * (q * 100.0) / 100.0 == previous * q;
    }
  }

  /** Each entry is a surviving month after the first, with its own and its predecessor's retail
      sales, its rate and the band of that rate. */
  lemma ComparedMonthFacts(gs: seq<Group<Period>>, k: nat)
    requires k < |ComparedMonths(gs)|
    ensures var i := ComparedIndices(gs, 1)[k]; var m := ComparedMonths(gs)[k];
      && 1 <= i < |gs| && Compared(gs, i)
      && m.date == PeriodLabel(gs[i].key) && m.year == gs[i].key.year && m.month == gs[i].key.month
      && m.currentSales == gs[i].agg.retail && m.previousSales == gs[i - 1].agg.retail
      && m.growthRate == InfToZero(RawRate(m.currentSales, m.previousSales))
      && m.growthCategory == GrowthBand(m.growthRate)
  {
  }

  /** Every month after the first that has a rate appears. */
  lemma ComparedMonthsCover(gs: seq<Group<Period>>, j: nat)
    requires 1 <= j < |gs| && Compared(gs, j)
    ensures MonthGrowthAt(gs, j) in ComparedMonths(gs)
  {
    var idx := ComparedIndices(gs, 1);
    var k :| 0 <= k < |idx| && idx[k] == j;
    assert ComparedMonths(gs)[k] == MonthGrowthAt(gs, j);
  }

  /** On the table, the entries are in strictly increasing calendar order. */
  lemma ComparedMonthsChronological(rows: seq<Row>)
    ensures var ms := ComparedMonths(StableTrends.PeriodGroups(rows));
      forall k, l :: 0 <= k < l < |ms| ==> PeriodLt(Period(ms[k].year, ms[k].month), Period(ms[l].year, ms[l].month))
  {
    var gs := StableTrends.PeriodGroups(rows);
    var idx := ComparedIndices(gs, 1);
    StableTrends.PeriodGroupsChronological(rows);
    forall k, l | 0 <= k < l < |ComparedMonths(gs)|
      ensures PeriodLt(Period(ComparedMonths(gs)[k].year, ComparedMonths(gs)[k].month),
                       Period(ComparedMonths(gs)[l].year, ComparedMonths(gs)[l].month))
    {
      assert idx[k] < idx[l];
      assert PeriodLt(gs[idx[k]].key, gs[idx[l]].key);
    }
  }

  /** On the table, each entry's current sales are the retail sales of its month's rows. */
  lemma ComparedMonthsSums(rows: seq<Row>, k: nat)
    requires k < |ComparedMonths(StableTrends.PeriodGroups(rows))|
    ensures var m := ComparedMonths(StableTrends.PeriodGroups(rows))[k];
      m.currentSales == SumWhere(rows, PeriodOf, Period(m.year, m.month)).retail
  {
    var gs := StableTrends.PeriodGroups(rows);
    var i := ComparedIndices(gs, 1)[k];
    assert gs[i] in gs;
    StableTrends.PeriodGroupFacts(rows, gs[i]);
  }

  lemma {:induction false} RealSumBounds(xs: seq<real>, lo: real, hi: real)
    requires forall k :: 0 <= k < |xs| ==> lo <= xs[k] <= hi
    ensures (|xs| as real) * lo <= RealSum(xs) <= (|xs| as real) * hi
    decreases |xs|
  {
    if xs != [] {
      RealSumBounds(xs[1..], lo, hi);
      assert (|xs| as real) * lo == lo + (|xs[1..]| as real) * lo;
      assert (|xs| as real) * hi == hi + (|xs[1..]| as real) * hi;
    }
  }

  /** s / n lies between lo and hi when n * lo <= s <= n * hi. */
  lemma QuotientBetween(s: real, n: real, lo: real, hi: real)
    requires n > 0.0 && n * lo <= s <= n * hi
    ensures lo <= s / n <= hi
  {
    assert s / n - lo == (s - n * lo) / n;
    assert hi - s / n == (n * hi - s) / n;
  }

  lemma MeanBetween(xs: seq<real>, lo: real, hi: real)
    requires |xs| > 0
    requires forall k :: 0 <= k < |xs| ==> lo <= xs[k] <= hi
    ensures lo <= MeanRate(xs) <= hi
  {
    RealSumBounds(xs, lo, hi);
    QuotientBetween(RealSum(xs), |xs| as real, lo, hi);
  }

  /** The mean of the rates lies between the smallest and the largest. */
  lemma MeanRateBounds(xs: seq<real>)
    requires |xs| > 0
    ensures MinRate(xs) <= MeanRate(xs) <= MaxRate(xs)
  {
    MeanBetween(xs, MinRate(xs), MaxRate(xs));
  }

  /** The average lies between the smallest and the largest rate, the latest is the last month's,
      and the count is the number of compared months. */
  lemma GrowthMetricsBounds(ms: seq<MonthGrowth>)
    requires |ms| > 0
    ensures var g := GrowthMetricsOf(ms);
      && g.minGrowthRate <= g.averageGrowthRate <= g.maxGrowthRate
      && g.latestGrowthRate == ms[|ms| - 1].growthRate
      && g.totalMonths == |ms|
  {
    MeanRateBounds(Rates(ms));
  }

  /** Every compared month's rate lies between the smallest and the largest, and both are rates
      of some compared month. */
  lemma GrowthMetricsExtremes(ms: seq<MonthGrowth>)
    requires |ms| > 0
    ensures var g := GrowthMetricsOf(ms);
      && (forall m :: m in ms ==> g.minGrowthRate <= m.growthRate <= g.maxGrowthRate)
      && (exists m :: m in ms && m.growthRate == g.maxGrowthRate)
      && (exists m :: m in ms && m.growthRate == g.minGrowthRate)
  {
    var rates := Rates(ms);
    var lo, hi := MinRate(rates), MaxRate(rates);
    forall m | m in ms ensures lo <= m.growthRate <= hi {
      var k :| 0 <= k < |ms| && ms[k] == m;
      assert rates[k] == m.growthRate;
    }
    var kh :| 0 <= kh < |rates| && rates[kh] == hi;
    assert ms[kh] in ms;
    var kl :| 0 <= kl < |rates| && rates[kl] == lo;
    assert ms[kl] in ms;
  }
}
