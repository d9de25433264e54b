/** The narrative layer of the dashboard: the insight paragraphs and the executive
    summary written from the processed table. Each paragraph is modelled by the branch it
    takes (its phrasing choice) and the numbers it reports, not by its text. Both
    operations look only at the annual rows, in year order. */
module AiInsights {
  import opened Common
  import opened Frame
  import DataProcessor

  // ---------------------------------------------------------------------------
  // Growth, as the two kinds of floats compute it
  // ---------------------------------------------------------------------------

  /** Growth in percent of `curr` over `prev` on Python floats (the values `iterrows`
      yields), NaN being `None`. A zero previous value raises ZeroDivisionError, so the
      caller rules it out. Applying the growth to prev gives curr back. */
  function FloatGrowth(prev: Option<real>, curr: Option<real>): (g: Option<real>)
    requires prev != Some(0.0)
    ensures g.Some? <==> prev.Some? && curr.Some?
    ensures g.Some? ==> curr.value == prev.value * (1.0 + g.value / 100.0)
  {
    if prev.Some? && curr.Some? then Some(DataProcessor.Percent(prev.value, curr.value)) else None
  }

  /** A float64 quotient as numpy computes it (the values `iloc` and column arithmetic
      give): finite, an infinity (a non-zero value over zero) or NaN. */
  datatype Quotient = Finite(v: real) | PosInf | NegInf | NaN

  /** `g > bound` on a float64; NaN compares false. */
  predicate Exceeds(g: Quotient, bound: real) {
    (g.Finite? && g.v > bound) || g.PosInf?
  }

  /** `g >= 0` on a float64; NaN compares false. */
  predicate NotNegative(g: Quotient) {
    (g.Finite? && g.v >= 0.0) || g.PosInf?
  }

  /** `(curr - prev) / prev * 100` on float64 values (also `pct_change() * 100`). */
  function Growth(prev: Option<real>, curr: Option<real>): (g: Quotient)
    ensures g.Finite? <==> prev.Some? && curr.Some? && prev.value != 0.0
    ensures g.Finite? ==> curr.value == prev.value * (1.0 + g.v / 100.0)
    ensures g.NaN? <==> prev.None? || curr.None? || (prev.value == 0.0 && curr.value == 0.0)
  {
    if prev == Some(0.0) then
      if curr.Some? && curr.value > 0.0 then PosInf
      else if curr.Some? && curr.value < 0.0 then NegInf
      else NaN
    else
      var f := FloatGrowth(prev, curr);
      if f.Some? then Finite(f.value) else NaN
  }

  /** A percentage change is positive exactly when the value moved up from a positive
      start or down from a negative one. */
  lemma PercentPositive(prev: real, curr: real)
    requires prev != 0.0
    ensures DataProcessor.Percent(prev, curr) > 0.0 <==> (prev > 0.0 && curr > prev) || (prev < 0.0 && curr < prev)
  {
    var g := DataProcessor.Percent(prev, curr);
    assert curr - prev == prev * g / 100.0;
    if prev > 0.0 {
      if g > 0.0 {
        assert prev * g > 0.0;
      } else {
        assert prev * g <= 0.0;
      }
    } else {
      if g > 0.0 {
        assert prev * g < 0.0;
      } else {
        assert prev * g >= 0.0;
      }
    }
  }

  /** Growth is above zero exactly when both values are present and the value rose from a
      positive start, fell from a negative one, or left zero upwards. */
  lemma GrowthPositive(prev: Option<real>, curr: Option<real>)
    ensures Exceeds(Growth(prev, curr), 0.0) <==>
      && prev.Some? && curr.Some?
      && ((prev.value > 0.0 && curr.value > prev.value)
          || (prev.value < 0.0 && curr.value < prev.value)
          || (prev.value == 0.0 && curr.value > 0.0))
  {
    if prev.Some? && curr.Some? && prev.value != 0.0 {
      PercentPositive(prev.value, curr.value);
    }
  }

  function RevenueOf(r: Row): Option<real> {
    Cell(r, Value(Revenue))
  }

  // ---------------------------------------------------------------------------
  // Insight 1: the revenue trend loop
  // ---------------------------------------------------------------------------

  /** One entry of `revenue_trend`: the year, the direction, and `abs(growth)` (NaN when a
      revenue is missing). */
  datatype Step = Step(year: int, increased: bool, size: Option<real>)

  /** Every revenue but the last is non-zero: the trend loop never divides by zero. */
  predicate Divisible(rows: seq<Row>) {
    forall j :: 0 <= j < |rows| - 1 ==> RevenueOf(rows[j]) != Some(0.0)
  }

  /** The step the loop records for row i against row i - 1. */
  function StepAt(rows: seq<Row>, i: nat): Step
    requires 0 < i < |rows| && RevenueOf(rows[i - 1]) != Some(0.0)
  {
    var g := FloatGrowth(RevenueOf(rows[i - 1]), RevenueOf(rows[i]));
    Step(rows[i].year, g.Some? && g.value > 0.0, if g.Some? then Some(Abs(g.value)) else None)
  }

  /** A step says "increased" exactly when the revenue rose from a positive previous
      revenue or fell further from a negative one; a missing revenue reads "decreased". */
  lemma StepIncreased(rows: seq<Row>, i: nat)
    requires 0 < i < |rows| && RevenueOf(rows[i - 1]) != Some(0.0)
    ensures var s := StepAt(rows, i); var p := RevenueOf(rows[i - 1]); var c := RevenueOf(rows[i]);
      && s.year == rows[i].year
      && (s.increased <==> p.Some? && c.Some? && ((p.value > 0.0 && c.value > p.value) || (p.value < 0.0 && c.value < p.value)))
      && (s.size.Some? <==> p.Some? && c.Some?)
      && (s.size.Some? ==> s.size.value >= 0.0 && Abs(c.value - p.value) == Abs(p.value) * s.size.value / 100.0)
  {
    var p := RevenueOf(rows[i - 1]);
    var c := RevenueOf(rows[i]);
    if p.Some? && c.Some? {
      var g := DataProcessor.Percent(p.value, c.value);
      PercentPositive(p.value, c.value);
      assert c.value - p.value == p.value * g / 100.0;
      AbsProduct(p.value, g / 100.0);
    }
  }

  lemma AbsProduct(a: real, b: real)
    ensures Abs(a * b) == Abs(a) * Abs(b)
  {
    if a < 0.0 && b < 0.0 {
      assert a * b == (-a) * (-b);
    } else if a < 0.0 {
      assert -(a * b) == (-a) * b;
    } else if b < 0.0 {
      assert -(a * b) == a * (-b);
    }
  }

  /** `revenue_trend` after the loop: one step per row after the first, or None when the
      loop divides by zero. */
  function Trend(rows: seq<Row>): Option<seq<Step>> {
    if !Divisible(rows) then None
    else if |rows| == 0 then Some([])
    else Some(seq(|rows| - 1, k requires 0 <= k < |rows| - 1 => StepAt(rows, k + 1)))
  }

  /** The loop over the annual rows carrying the previous revenue, as the source runs it:
      None when it raises ZeroDivisionError. */
  method RevenueTrend(rows: seq<Row>) returns (trend: Option<seq<Step>>)
    ensures trend == Trend(rows)
  {
    var steps: seq<Step> := [];
    var prev: Option<Option<real>> := None;  // prev_revenue: None before the first row
    var i := 0;
    while i < |rows|
      invariant 0 <= i <= |rows|
      invariant prev == (if i == 0 then None else Some(RevenueOf(rows[i - 1])))
      invariant forall j :: 0 <= j < i - 1 ==> RevenueOf(rows[j]) != Some(0.0)
      invariant |steps| == (if i == 0 then 0 else i - 1)
      invariant forall k :: 0 <= k < |steps| ==> steps[k] == StepAt(rows, k + 1)
    {
      var revenue := RevenueOf(rows[i]);
      if prev.Some? {
        if prev.value == Some(0.0) {
          assert !Divisible(rows) by {
            assert RevenueOf(rows[i - 1]) == Some(0.0);
          }
          return None;
        }
        var growth := FloatGrowth(prev.value, revenue);
        var increased := growth.Some? && growth.value > 0.0;
        var size := if growth.Some? then Some(Abs(growth.value)) else None;
        steps := steps + [Step(rows[i].year, increased, size)];
      }
      prev := Some(revenue);
      i := i + 1;
    }
    if |rows| > 0 {
      assert steps == seq(|rows| - 1, k requires 0 <= k < |rows| - 1 => StepAt(rows, k + 1));
    }
    trend := Some(steps);
  }

  /** `revenue_trend[-min(3, len(revenue_trend)):]`. */
  function Recent(steps: seq<Step>): seq<Step> {
    steps[|steps| - MinInt(3, |steps|)..]
  }

  /** All recent steps point the way the first one does. */
  predicate Consistent(recent: seq<Step>)
    requires |recent| > 0
  {
    forall i :: 0 <= i < |recent| ==> recent[i].increased == recent[0].increased
  }

  /** The sum of the sizes, NaN as soon as one is NaN. */
  function SumOf(s: seq<Option<real>>): (r: Option<real>)
    ensures r.Some? <==> forall i :: 0 <= i < |s| ==> s[i].Some?
    ensures r.Some? && (forall i :: 0 <= i < |s| ==> s[i].value >= 0.0) ==> r.value >= 0.0
  {
    if s == [] then Some(0.0)
    else
      var rest := SumOf(s[1..]);
      assert forall i :: 1 <= i < |s| ==> s[i] == s[1..][i - 1];
      if s[0].Some? && rest.Some? then Some(s[0].value + rest.value) else None
  }

  /** `np.mean`, NaN as soon as one value is NaN. */
  function Mean(s: seq<Option<real>>): (m: Option<real>)
    requires |s| > 0
  {
    var total := SumOf(s);
    if total.Some? then Some(total.value / |s| as real) else None
  }

  datatype Insight =
    | ConsistentRevenue(increased: bool, years: seq<int>, averageGrowth: Option<real>)
    | VolatileRevenue(year: int, increased: bool, growth: Option<real>)
    | Profitability(year: int, grossAbove: bool, netAbove: bool)
    | EarningsPerShare(year: int, bucket: EpsGrowth)
    | CostStructure(year: int, cost: Movement, opex: Movement)
    | NetAssetValue(year: int, premium: bool, percent: Option<real>)
    | Unavailable  // the text returned when an exception is caught

  /** The paragraph on the revenue trend: a consistent direction over the recent steps
      with their years and mean growth, or else the latest step alone. */
  function RevenueInsight(steps: seq<Step>): Insight
    requires |steps| > 0
  {
    var recent := Recent(steps);
    var last := recent[|recent| - 1];
    if Consistent(recent) then
      ConsistentRevenue(recent[0].increased,
                        seq(|recent|, i requires 0 <= i < |recent| => recent[i].year),
                        Mean(seq(|recent|, i requires 0 <= i < |recent| => recent[i].size)))
    else VolatileRevenue(last.year, last.increased, last.size)
  }

  /** The trend is called consistent exactly when each of the last min(3, n) steps points
      the way the latest one does; otherwise the paragraph reports the latest step. */
  lemma RevenueConsistentIff(steps: seq<Step>)
    requires |steps| > 0
    ensures var r := RevenueInsight(steps); var n := MinInt(3, |steps|); var last := steps[|steps| - 1];
      && (r.ConsistentRevenue? <==> forall k :: |steps| - n <= k < |steps| ==> steps[k].increased == last.increased)
      && (r.VolatileRevenue? ==> r == VolatileRevenue(last.year, last.increased, last.size))
  {
    var recent := Recent(steps);
    var n := MinInt(3, |steps|);
    var d := |steps| - n;
    assert |recent| == n;
    assert recent[n - 1] == steps[|steps| - 1];
    if Consistent(recent) {
      forall k | d <= k < |steps| ensures steps[k].increased == steps[|steps| - 1].increased {
        assert steps[k] == recent[k - d];
      }
    } else {
      var i :| 0 <= i < n && recent[i].increased != recent[0].increased;
      assert recent[i] == steps[d + i];
      assert recent[0] == steps[d];
    }
  }

  /** A consistent trend names the latest direction, the years of the last min(3, n)
      steps in order, and a mean growth that is a number exactly when each of their
      sizes is. */
  lemma RevenueConsistentReports(steps: seq<Step>)
    requires |steps| > 0 && RevenueInsight(steps).ConsistentRevenue?
    ensures var r := RevenueInsight(steps); var n := MinInt(3, |steps|);
      && r.increased == steps[|steps| - 1].increased
      && |r.years| == n
      && (forall k :: 0 <= k < n ==> r.years[k] == steps[|steps| - n + k].year)
      && (r.averageGrowth.Some? <==> forall k :: |steps| - n <= k < |steps| ==> steps[k].size.Some?)
  {
    RevenueConsistentYears(steps);
    RevenueConsistentMean(steps);
  }

  lemma RevenueConsistentYears(steps: seq<Step>)
    requires |steps| > 0 && RevenueInsight(steps).ConsistentRevenue?
    ensures var r := RevenueInsight(steps); var n := MinInt(3, |steps|);
      && r.increased == steps[|steps| - 1].increased
      && |r.years| == n
      && (forall k :: 0 <= k < n ==> r.years[k] == steps[|steps| - n + k].year)
  {
    var recent := Recent(steps);
    var n := MinInt(3, |steps|);
    var d := |steps| - n;
    assert |recent| == n;
    assert forall k :: 0 <= k < n ==> recent[k] == steps[d + k];
    assert Consistent(recent);
    assert recent[0].increased == recent[n - 1].increased;
  }

  lemma RevenueConsistentMean(steps: seq<Step>)
    requires |steps| > 0 && RevenueInsight(steps).ConsistentRevenue?
    ensures var r := RevenueInsight(steps); var n := MinInt(3, |steps|);
      r.averageGrowth.Some? <==> forall k :: |steps| - n <= k < |steps| ==> steps[k].size.Some?
  {
    var recent := Recent(steps);
    var n := MinInt(3, |steps|);
    var d := |steps| - n;
    assert |recent| == n;
    var sizes := seq(n, i requires 0 <= i < n => recent[i].size);
    assert RevenueInsight(steps).averageGrowth == Mean(sizes);
    assert forall i :: 0 <= i < n ==> sizes[i] == steps[d + i].size;
    if forall k :: d <= k < |steps| ==> steps[k].size.Some? {
      forall i | 0 <= i < n ensures sizes[i].Some? {
        assert sizes[i] == steps[d + i].size;
      }
    } else {
      var k :| d <= k < |steps| && steps[k].size.None?;
      assert sizes[k - d].None?;
    }
  }

  // ---------------------------------------------------------------------------
  // Insights 2 to 5: benchmarks and thresholds
  // ---------------------------------------------------------------------------

  const IndustryGrossMargin: real := 24.5
  const IndustryNetMargin: real := 12.0
  const IndustryNetAssetPerShare: real := 85.0

  /** `x > bound` on a cell; NaN compares false. */
  predicate Above(x: Option<real>, bound: real) {
    x.Some? && x.value > bound
  }

  /** The latest year's margins against the industry benchmarks; a margin equal to its
      benchmark counts as below it. */
  function ProfitabilityOf(last: Row): (i: Insight)
    ensures i.Profitability? && i.year == last.year
    ensures i.grossAbove <==> Cell(last, Margin(GrossProfit)).Some? && Cell(last, Margin(GrossProfit)).value > 24.5
    ensures i.netAbove <==> Cell(last, Margin(NetProfit)).Some? && Cell(last, Margin(NetProfit)).value > 12.0
  {
    Profitability(last.year, Above(Cell(last, Margin(GrossProfit)), IndustryGrossMargin),
                  Above(Cell(last, Margin(NetProfit)), IndustryNetMargin))
  }

  datatype EpsGrowth = Significant | Moderate | Decline

  /** The last present value of column f among the first k rows: the k-th cell of the
      column after `pct_change`'s forward fill. */
  function Filled(rows: seq<Row>, f: Field, k: nat): (v: Option<real>)
    requires k <= |rows|
    ensures v.Some? ==> exists j :: 0 <= j < k && Cell(rows[j], f) == v
    ensures v.None? ==> forall j :: 0 <= j < k ==> Cell(rows[j], f).None?
  {
    if k == 0 then None
    else if Cell(rows[k - 1], f).Some? then Cell(rows[k - 1], f)
    else Filled(rows, f, k - 1)
  }

  /** The growth bucket of the EPS paragraph, None when the growth is NaN (no paragraph):
      above 15 is significant, above 0 up to 15 moderate, 0 or below a decline. */
  function EpsGrowthOf(g: Quotient): (c: Option<EpsGrowth>)
    ensures c == None <==> g.NaN?
    ensures c == Some(Significant) <==> Exceeds(g, 15.0)
    ensures c == Some(Moderate) <==> Exceeds(g, 0.0) && !Exceeds(g, 15.0)
    ensures c == Some(Decline) <==> !g.NaN? && !Exceeds(g, 0.0)
  {
    if g.NaN? then None
    else if Exceeds(g, 0.0) then (if Exceeds(g, 15.0) then Some(Significant) else Some(Moderate))
    else Some(Decline)
  }

  /** The EPS growth of the latest year, `pct_change() * 100` on the forward-filled column.
      With both years' EPS present it is the plain year-on-year growth; with no EPS before
      the latest year it is NaN; with the latest EPS missing, the fill repeats the previous
      value and the growth is zero (or NaN). */
  function EpsChange(rows: seq<Row>): (g: Quotient)
    requires |rows| > 1
    ensures Cell(rows[|rows| - 1], Value(Eps)).Some? && Cell(rows[|rows| - 2], Value(Eps)).Some? ==>
      g == GrowthOf(rows, Eps)
    ensures (forall j :: 0 <= j < |rows| - 1 ==> Cell(rows[j], Value(Eps)).None?) ==> g.NaN?
    ensures Cell(rows[|rows| - 1], Value(Eps)).None? ==> g.NaN? || g == Finite(0.0)
  {
    var prev := Filled(rows, Value(Eps), |rows| - 1);
    var g := Growth(prev, Filled(rows, Value(Eps), |rows|));
    assert g.Finite? && Cell(rows[|rows| - 1], Value(Eps)).None? ==> prev.value * g.v == 0.0;
    g
  }

  /** The EPS paragraph, if its growth is a number. */
  function EpsSection(rows: seq<Row>): seq<Insight>
    requires |rows| > 1
  {
    var c := EpsGrowthOf(EpsChange(rows));
    if c.Some? then [EarningsPerShare(rows[|rows| - 1].year, c.value)] else []
  }

  datatype Movement = Stable | Increased | Decreased

  /** The three-way reading of a ratio change in percentage points: under one point
      either way is stable, otherwise its sign decides; NaN reads as a decrease. */
  function MovementOf(change: Option<real>): (m: Movement)
    ensures m == Stable <==> change.Some? && -1.0 < change.value < 1.0
    ensures m == Increased <==> change.Some? && change.value >= 1.0
    ensures m == Decreased <==> change.None? || change.value <= -1.0
  {
    if change.Some? && Abs(change.value) < 1.0 then Stable
    else if change.Some? && change.value > 0.0 then Increased
    else Decreased
  }

  /** The change, last year against the year before, of a cost's share of revenue in
      percentage points: present exactly when both years have the cost and a non-zero
      revenue, and positive exactly when the share rose. */
  function RatioChange(rows: seq<Row>, m: Metric): (r: Option<real>)
    requires |rows| > 1
    ensures var cl := Cell(rows[|rows| - 1], Value(m)); var rl := RevenueOf(rows[|rows| - 1]);
      var cp := Cell(rows[|rows| - 2], Value(m)); var rp := RevenueOf(rows[|rows| - 2]);
      && (r.Some? <==> cl.Some? && rl.Some? && rl.value != 0.0 && cp.Some? && rp.Some? && rp.value != 0.0)
      && (r.Some? ==> (r.value > 0.0 <==> cl.value / rl.value > cp.value / rp.value))
      && (r.Some? ==> (r.value == 0.0 <==> cl.value / rl.value == cp.value / rp.value))
  {
    var last := rows[|rows| - 1];
    var prev := rows[|rows| - 2];
    DataProcessor.Minus(DataProcessor.PercentOf(Cell(last, Value(m)), RevenueOf(last)),
                        DataProcessor.PercentOf(Cell(prev, Value(m)), RevenueOf(prev)))
  }

  /** The cost-structure paragraph for the latest year: cost of sales and operating
      expenses are each read on their own, stable when the share of revenue moved by less
      than one point, and read as a decrease when the share is not a number. */
  function CostStructureOf(rows: seq<Row>): (i: Insight)
    requires |rows| > 1
    ensures i.CostStructure? && i.year == rows[|rows| - 1].year
    ensures var c := RatioChange(rows, CostOfSales);
      && (i.cost == Stable <==> c.Some? && -1.0 < c.value < 1.0)
      && (i.cost == Increased <==> c.Some? && c.value >= 1.0)
      && (i.cost == Decreased <==> c.None? || c.value <= -1.0)
    ensures var o := RatioChange(rows, OperatingExpenses);
      && (i.opex == Stable <==> o.Some? && -1.0 < o.value < 1.0)
      && (i.opex == Increased <==> o.Some? && o.value >= 1.0)
      && (i.opex == Decreased <==> o.None? || o.value <= -1.0)
  {
    CostStructure(rows[|rows| - 1].year, MovementOf(RatioChange(rows, CostOfSales)),
                  MovementOf(RatioChange(rows, OperatingExpenses)))
  }

  /** A cost that keeps its share of revenue from one year to the next (both growing by
      the same factor, say) reads as stable. */
  lemma SameShareStable(rows: seq<Row>, m: Metric)
    requires |rows| > 1
    requires var cl := Cell(rows[|rows| - 1], Value(m)); var rl := RevenueOf(rows[|rows| - 1]);
      var cp := Cell(rows[|rows| - 2], Value(m)); var rp := RevenueOf(rows[|rows| - 2]);
      && cl.Some? && rl.Some? && cp.Some? && rp.Some? && rl.value != 0.0 && rp.value != 0.0
      && cl.value * rp.value == cp.value * rl.value
    ensures MovementOf(RatioChange(rows, m)) == Stable
  {
    SameQuotient(Cell(rows[|rows| - 1], Value(m)).value, RevenueOf(rows[|rows| - 1]).value,
                 Cell(rows[|rows| - 2], Value(m)).value, RevenueOf(rows[|rows| - 2]).value);
  }

  /** The net-asset paragraph: a premium over the benchmark of 85 when above it, a
      discount otherwise, both as a non-negative percentage of the benchmark. */
  function NetAssetOf(last: Row): (i: Insight)
    ensures i.NetAssetValue? && i.year == last.year
    ensures var naps := Cell(last, Value(NetAssetPerShare));
      && (i.premium <==> naps.Some? && naps.value > 85.0)
      && (i.percent.Some? <==> naps.Some?)
      && (i.percent.Some? ==> i.percent.value >= 0.0 && i.percent.value * 85.0 == Abs(naps.value - 85.0) * 100.0)
  {
    var naps := Cell(last, Value(NetAssetPerShare));
    if Above(naps, IndustryNetAssetPerShare) then
      NetAssetValue(last.year, true, Some((naps.value - IndustryNetAssetPerShare) / IndustryNetAssetPerShare * 100.0))
    else
      NetAssetValue(last.year, false,
                    if naps.Some? then Some((IndustryNetAssetPerShare - naps.value) / IndustryNetAssetPerShare * 100.0) else None)
  }

  // ---------------------------------------------------------------------------
  // generate_insights
  // ---------------------------------------------------------------------------

  predicate HasRevenueTrend(fs: set<Field>, rows: seq<Row>) {
    Value(Revenue) in fs && |rows| > 1
  }

  predicate HasProfitability(fs: set<Field>, rows: seq<Row>) {
    Margin(GrossProfit) in fs && Margin(NetProfit) in fs && |rows| > 0
  }

  predicate HasEps(fs: set<Field>, rows: seq<Row>) {
    Value(Eps) in fs && |rows| > 1
  }

  predicate HasCostStructure(fs: set<Field>, rows: seq<Row>) {
    Value(CostOfSales) in fs && Value(OperatingExpenses) in fs && Value(Revenue) in fs && |rows| > 1
  }

  predicate HasNetAsset(fs: set<Field>, rows: seq<Row>) {
    Value(NetAssetPerShare) in fs && |rows| > 0
  }

  /** The revenue-trend loop raises: the whole list is replaced by the fallback text. */
  predicate TrendRaises(fs: set<Field>, rows: seq<Row>) {
    HasRevenueTrend(fs, rows) && !Divisible(rows)
  }

  /** The paragraph of the revenue section, if any. */
  function RevenueSection(fs: set<Field>, rows: seq<Row>): (r: seq<Insight>)
    requires !TrendRaises(fs, rows)
    ensures |r| == (if HasRevenueTrend(fs, rows) then 1 else 0)
    ensures forall x :: x in r ==> x.ConsistentRevenue? || x.VolatileRevenue?
  {
    if HasRevenueTrend(fs, rows) then [RevenueInsight(Trend(rows).value)] else []
  }

  function ProfitabilitySection(fs: set<Field>, rows: seq<Row>): (r: seq<Insight>)
    ensures |r| == (if HasProfitability(fs, rows) then 1 else 0)
    ensures forall x :: x in r ==> x.Profitability?
  {
    if HasProfitability(fs, rows) then [ProfitabilityOf(rows[|rows| - 1])] else []
  }

  function CostSection(fs: set<Field>, rows: seq<Row>): (r: seq<Insight>)
    ensures |r| == (if HasCostStructure(fs, rows) then 1 else 0)
    ensures forall x :: x in r ==> x.CostStructure?
  {
    if HasCostStructure(fs, rows) then [CostStructureOf(rows)] else []
  }

  function NetAssetSection(fs: set<Field>, rows: seq<Row>): (r: seq<Insight>)
    ensures |r| == (if HasNetAsset(fs, rows) then 1 else 0)
    ensures forall x :: x in r ==> x.NetAssetValue?
  {
    if HasNetAsset(fs, rows) then [NetAssetOf(rows[|rows| - 1])] else []
  }

  /** The paragraphs for the annual rows `rows` of a table with numeric columns fs, section
      by section; the fallback text alone when the trend loop raises. */
  function InsightsFor(fs: set<Field>, rows: seq<Row>): seq<Insight> {
    if TrendRaises(fs, rows) then [Unavailable]
    else
      RevenueSection(fs, rows) + ProfitabilitySection(fs, rows)
      + (if HasEps(fs, rows) then EpsSection(rows) else [])
      + CostSection(fs, rows) + NetAssetSection(fs, rows)
  }

  /** generate_insights on a table. */
  function InsightsOf(t: Table): seq<Insight> {
    if Selectable(t) then InsightsFor(t.fields, Annual(t)) else [Unavailable]
  }

  /** generate_insights: select the annual rows, then write the paragraphs. */
  method GenerateInsights(data: Table) returns (insights: seq<Insight>)
    ensures insights == InsightsOf(data)
  {
    if !Selectable(data) {
      return [Unavailable];
    }
    var annual := Annual(data);
    insights := Paragraphs(data.fields, annual);
  }

  /** The body of generate_insights, appending one paragraph per section as the source
      does. */
  method Paragraphs(fs: set<Field>, annual: seq<Row>) returns (insights: seq<Insight>)
    ensures insights == InsightsFor(fs, annual)
  {
    var n := |annual|;
    insights := [];
    if Value(Revenue) in fs && n > 1 {
      var trend := RevenueTrend(annual);
      if trend.None? {
        return [Unavailable];
      }
      insights := insights + [RevenueInsight(trend.value)];
    }
    assert insights == RevenueSection(fs, annual);
    ghost var written := insights;
    if Margin(GrossProfit) in fs && Margin(NetProfit) in fs && n > 0 {
      insights := insights + [ProfitabilityOf(annual[n - 1])];
    }
    assert insights == written + ProfitabilitySection(fs, annual);
    written := insights;
    if Value(Eps) in fs && n > 1 {
      var growth := EpsGrowthOf(EpsChange(annual));
      if growth.Some? {
        insights := insights + [EarningsPerShare(annual[n - 1].year, growth.value)];
      }
    }
    assert insights == written + (if HasEps(fs, annual) then EpsSection(annual) else []);
    written := insights;
    if Value(CostOfSales) in fs && Value(OperatingExpenses) in fs && Value(Revenue) in fs && n > 1 {
      insights := insights + [CostStructureOf(annual)];
    }
    assert insights == written + CostSection(fs, annual);
    written := insights;
    if Value(NetAssetPerShare) in fs && n > 0 {
      insights := insights + [NetAssetOf(annual[n - 1])];
    }
    assert insights == written + NetAssetSection(fs, annual);
  }

  /** At most one paragraph per section, so at most five; the fallback text comes alone
      and exactly when the trend loop raises. */
  lemma InsightsAtMostFive(fs: set<Field>, rows: seq<Row>)
    ensures var r := InsightsFor(fs, rows);
      && |r| <= 5
      && (r == [Unavailable] <==> TrendRaises(fs, rows))
      && (!TrendRaises(fs, rows) ==> Unavailable !in r)
  {
    var r := InsightsFor(fs, rows);
    if !TrendRaises(fs, rows) {
      var e := if HasEps(fs, rows) then EpsSection(rows) else [];
      assert |e| <= 1 && forall x :: x in e ==> x.EarningsPerShare?;
      var parts := RevenueSection(fs, rows) + ProfitabilitySection(fs, rows) + e + CostSection(fs, rows) + NetAssetSection(fs, rows);
      assert r == parts;
      assert Unavailable !in r;
    }
  }

  /** Each section's paragraph is present exactly when its columns are and there are
      enough annual rows, the EPS one also needing a growth that is a number. */
  lemma InsightsSections(fs: set<Field>, rows: seq<Row>)
    requires !TrendRaises(fs, rows)
    ensures var r := InsightsFor(fs, rows);
      && ((exists x :: x in r && (x.ConsistentRevenue? || x.VolatileRevenue?)) <==> HasRevenueTrend(fs, rows))
      && ((exists x :: x in r && x.Profitability?) <==> HasProfitability(fs, rows))
      && ((exists x :: x in r && x.EarningsPerShare?) <==> HasEps(fs, rows) && !EpsChange(rows).NaN?)
      && ((exists x :: x in r && x.CostStructure?) <==> HasCostStructure(fs, rows))
      && ((exists x :: x in r && x.NetAssetValue?) <==> HasNetAsset(fs, rows))
  {
    var a := RevenueSection(fs, rows);
    var b := ProfitabilitySection(fs, rows);
    var c := if HasEps(fs, rows) then EpsSection(rows) else [];
    var d := CostSection(fs, rows);
    var e := NetAssetSection(fs, rows);
    assert forall x :: x in c ==> x.EarningsPerShare?;
    assert |c| == 1 <==> HasEps(fs, rows) && !EpsChange(rows).NaN?;
    var r := InsightsFor(fs, rows);
    assert r == a + b + c + d + e;
    InParts(a, b, c, d, e);
  }

  lemma InParts(a: seq<Insight>, b: seq<Insight>, c: seq<Insight>, d: seq<Insight>, e: seq<Insight>)
    requires |a| <= 1 && |b| <= 1 && |c| <= 1 && |d| <= 1 && |e| <= 1
    requires forall x :: x in a ==> x.ConsistentRevenue? || x.VolatileRevenue?
    requires forall x :: x in b ==> x.Profitability?
    requires forall x :: x in c ==> x.EarningsPerShare?
    requires forall x :: x in d ==> x.CostStructure?
    requires forall x :: x in e ==> x.NetAssetValue?
    ensures var r := a + b + c + d + e;
      && ((exists x :: x in r && (x.ConsistentRevenue? || x.VolatileRevenue?)) <==> |a| == 1)
      && ((exists x :: x in r && x.Profitability?) <==> |b| == 1)
      && ((exists x :: x in r && x.EarningsPerShare?) <==> |c| == 1)
      && ((exists x :: x in r && x.CostStructure?) <==> |d| == 1)
      && ((exists x :: x in r && x.NetAssetValue?) <==> |e| == 1)
  {
    var r := a + b + c + d + e;
    assert forall x :: x in r <==> x in a || x in b || x in c || x in d || x in e;
    if |a| == 1 { assert a[0] in r; }
    if |b| == 1 { assert b[0] in r; }
    if |c| == 1 { assert c[0] in r; }
    if |d| == 1 { assert d[0] in r; }
    if |e| == 1 { assert e[0] in r; }
  }

  // ---------------------------------------------------------------------------
  // generate_summary
  // ---------------------------------------------------------------------------

  /** A financial highlight: the metric, its latest value and currency, and, when there is
      a previous year, whether the change reads "increase" (growth at least zero). */
  datatype Highlight = Highlight(metric: Metric, value: Option<real>, currency: string, increase: Option<bool>)

  /** The four-way split on two signs (first, second): (profit growth, revenue growth) for
      the performance statement, (gross, net margin change) for the margin statement. */
  datatype Quadrant = BothUp | FirstOnly | SecondOnly | BothDown

  datatype MarginStatement = MarginStatement(gross: Option<real>, net: Option<real>, trend: Option<Quadrant>)

  datatype Outlook = Positive | Challenging | Mixed

  datatype Summary =
    | Summary(year: int, highlights: seq<Highlight>, performance: Option<Quadrant>,
              margins: Option<MarginStatement>, positives: nat, negatives: nat, outlook: Outlook)
    | Insufficient  // no annual row
    | Unable        // the text returned when an exception is caught

  const HighlightMetrics: seq<Metric> := [Revenue, NetProfit, Eps, NetAssetPerShare]
  const OutlookMetrics: seq<Metric> := [Revenue, Eps, NetAssetPerShare]

  /** The latest growth of metric m, last annual row against the one before. */
  function GrowthOf(rows: seq<Row>, m: Metric): Quotient
    requires |rows| > 1
  {
    Growth(Cell(rows[|rows| - 2], Value(m)), Cell(rows[|rows| - 1], Value(m)))
  }

  /** `latest_data.get('Currency', 'LKR')`. */
  function CurrencyOf(t: Table, r: Row): string {
    if t.hasCurrency then r.currency else "LKR"
  }

  /** The highlight of metric m: its latest value and currency and, with a previous year,
      "increase" exactly when the growth is at least zero (a NaN growth reads "decrease"). */
  function HighlightOf(t: Table, rows: seq<Row>, m: Metric): (h: Highlight)
    requires |rows| > 0
    ensures h.metric == m && h.value == Cell(rows[|rows| - 1], Value(m))
    ensures h.currency == (if t.hasCurrency then rows[|rows| - 1].currency else "LKR")
    ensures h.increase.Some? <==> |rows| > 1
    ensures |rows| > 1 ==> (h.increase == Some(true) <==> NotNegative(GrowthOf(rows, m)))
  {
    var last := rows[|rows| - 1];
    Highlight(m, Cell(last, Value(m)), CurrencyOf(t, last),
              if |rows| > 1 then Some(NotNegative(GrowthOf(rows, m))) else None)
  }

  /** A metric missing in either of the last two years has a NaN growth, which reads
      "decrease". */
  lemma HighlightMissingValue(t: Table, rows: seq<Row>, m: Metric)
    requires |rows| > 1
    requires Cell(rows[|rows| - 1], Value(m)).None? || Cell(rows[|rows| - 2], Value(m)).None?
    ensures HighlightOf(t, rows, m).increase == Some(false)
  {
  }

  /** The highlights of the metrics in ms that are columns, in order. */
  function Highlights(t: Table, rows: seq<Row>, ms: seq<Metric>): (hs: seq<Highlight>)
    requires |rows| > 0
    ensures |hs| <= |ms|
    ensures forall h :: h in hs ==> h.metric in ms && Value(h.metric) in t.fields && h == HighlightOf(t, rows, h.metric)
    ensures forall m :: m in ms && Value(m) in t.fields ==> exists h :: h in hs && h.metric == m
  {
    if ms == [] then []
    else (if Value(ms[0]) in t.fields then [HighlightOf(t, rows, ms[0])] else []) + Highlights(t, rows, ms[1..])
  }

  /** How a float64 compares with zero: `> 0`, `<= 0`, or neither, for NaN. */
  datatype Sign = AboveZero | AtMostZero | Unordered

  /** The comparison of a quotient with zero; only NaN is unordered. */
  function SignOf(g: Quotient): (s: Sign)
    ensures s == AboveZero <==> Exceeds(g, 0.0)
    ensures s == AtMostZero <==> (g.Finite? && g.v <= 0.0) || g.NegInf?
    ensures s == Unordered <==> g.NaN?
  {
    if Exceeds(g, 0.0) then AboveZero else if g.NaN? then Unordered else AtMostZero
  }

  /** The comparison of a cell with zero; a NaN cell is unordered. */
  function CellSign(x: Option<real>): (s: Sign)
    ensures s == AboveZero <==> x.Some? && x.value > 0.0
    ensures s == AtMostZero <==> x.Some? && x.value <= 0.0
    ensures s == Unordered <==> x.None?
  {
    if x.None? then Unordered else if x.value > 0.0 then AboveZero else AtMostZero
  }

  /** The chain `a > 0 and b > 0`, `a > 0 and b <= 0`, `a <= 0 and b > 0`, `else`: a
      quadrant other than the last needs both comparisons to hold, so a NaN on either
      side falls through to the last one. */
  function QuadrantOf(first: Sign, second: Sign): (q: Quadrant)
    ensures q == BothUp <==> first == AboveZero && second == AboveZero
    ensures q == FirstOnly <==> first == AboveZero && second == AtMostZero
    ensures q == SecondOnly <==> first == AtMostZero && second == AboveZero
    ensures q == BothDown <==> first == Unordered || second == Unordered || (first == AtMostZero && second == AtMostZero)
  {
    match (first, second)
    case (AboveZero, AboveZero) => BothUp
    case (AboveZero, AtMostZero) => FirstOnly
    case (AtMostZero, AboveZero) => SecondOnly
    case _ => BothDown
  }

  /** The performance statement: profit growth against revenue growth; none without
      both columns and a previous year. */
  function PerformanceOf(fs: set<Field>, rows: seq<Row>): (p: Option<Quadrant>)
    requires |rows| > 0
    ensures p.Some? <==> Value(NetProfit) in fs && Value(Revenue) in fs && |rows| > 1
  {
    if Value(NetProfit) in fs && Value(Revenue) in fs && |rows| > 1 then
      Some(QuadrantOf(SignOf(GrowthOf(rows, NetProfit)), SignOf(GrowthOf(rows, Revenue))))
    else None
  }

  /** Which statement is made, in terms of the two growths: "strong performance" when
      both rose, "maintained profitability" when profit rose and revenue did not, "pressure
      on profit margins" when revenue rose and profit did not, and "declines in both"
      otherwise, including whenever either growth is NaN. */
  lemma PerformanceQuadrants(fs: set<Field>, rows: seq<Row>)
    requires Value(NetProfit) in fs && Value(Revenue) in fs && |rows| > 1
    ensures var p := GrowthOf(rows, NetProfit); var r := GrowthOf(rows, Revenue);
      && (PerformanceOf(fs, rows) == Some(BothUp) <==> Exceeds(p, 0.0) && Exceeds(r, 0.0))
      && (PerformanceOf(fs, rows) == Some(FirstOnly) <==> Exceeds(p, 0.0) && !r.NaN? && !Exceeds(r, 0.0))
      && (PerformanceOf(fs, rows) == Some(SecondOnly) <==> !p.NaN? && !Exceeds(p, 0.0) && Exceeds(r, 0.0))
      && (p.NaN? || r.NaN? ==> PerformanceOf(fs, rows) == Some(BothDown))
  {
    var p := GrowthOf(rows, NetProfit);
    var r := GrowthOf(rows, Revenue);
    assert PerformanceOf(fs, rows) == Some(QuadrantOf(SignOf(p), SignOf(r)));
  }

  /** A missing profit or revenue in either year makes the growth NaN, and the statement
      is the one on declines in both. */
  lemma PerformanceMissingValue(fs: set<Field>, rows: seq<Row>, m: Metric)
    requires Value(NetProfit) in fs && Value(Revenue) in fs && |rows| > 1
    requires m == NetProfit || m == Revenue
    requires Cell(rows[|rows| - 1], Value(m)).None? || Cell(rows[|rows| - 2], Value(m)).None?
    ensures PerformanceOf(fs, rows) == Some(BothDown)
  {
    assert GrowthOf(rows, m).NaN?;
    PerformanceQuadrants(fs, rows);
  }

  /** The margin statement: the latest margins, and with a previous year the split on
      whether each margin rose. */
  function MarginsOf(fs: set<Field>, rows: seq<Row>): (s: Option<MarginStatement>)
    requires |rows| > 0
    ensures s.Some? <==> Margin(GrossProfit) in fs && Margin(NetProfit) in fs
    ensures s.Some? ==> && s.value.gross == Cell(rows[|rows| - 1], Margin(GrossProfit))
                        && s.value.net == Cell(rows[|rows| - 1], Margin(NetProfit))
                        && (s.value.trend.Some? <==> |rows| > 1)
  {
    if Margin(GrossProfit) in fs && Margin(NetProfit) in fs then
      var last := rows[|rows| - 1];
      var gross := Cell(last, Margin(GrossProfit));
      var net := Cell(last, Margin(NetProfit));
      Some(MarginStatement(gross, net,
        if |rows| > 1 then
          var prev := rows[|rows| - 2];
          Some(QuadrantOf(CellSign(DataProcessor.Minus(gross, Cell(prev, Margin(GrossProfit)))),
                          CellSign(DataProcessor.Minus(net, Cell(prev, Margin(NetProfit))))))
        else None))
    else None
  }

  /** The change of margin f, latest year against the one before. */
  function MarginChange(rows: seq<Row>, f: Field): Option<real>
    requires |rows| > 1
  {
    DataProcessor.Minus(Cell(rows[|rows| - 1], f), Cell(rows[|rows| - 2], f))
  }

  /** Which margin statement is made: "improvements in both" when both margins rose,
      "improved gross margins" when only the gross one did and the net one is a number,
      "enhanced bottom-line efficiency" when only the net one did and the gross one is a
      number, and "margin compression at both levels" otherwise, including whenever a
      margin of either year is NaN. */
  lemma MarginQuadrants(fs: set<Field>, rows: seq<Row>)
    requires Margin(GrossProfit) in fs && Margin(NetProfit) in fs && |rows| > 1
    ensures var g := MarginChange(rows, Margin(GrossProfit)); var n := MarginChange(rows, Margin(NetProfit));
      var t := MarginsOf(fs, rows).value.trend;
      && (t == Some(BothUp) <==> g.Some? && g.value > 0.0 && n.Some? && n.value > 0.0)
      && (t == Some(FirstOnly) <==> g.Some? && g.value > 0.0 && n.Some? && n.value <= 0.0)
      && (t == Some(SecondOnly) <==> g.Some? && g.value <= 0.0 && n.Some? && n.value > 0.0)
      && (g.None? || n.None? ==> t == Some(BothDown))
  {
    var last := rows[|rows| - 1];
    var prev := rows[|rows| - 2];
    var g := MarginChange(rows, Margin(GrossProfit));
    var n := MarginChange(rows, Margin(NetProfit));
    assert MarginsOf(fs, rows).value.trend == Some(QuadrantOf(CellSign(g), CellSign(n)));
  }

  /** A margin missing in either year gives the statement on margin compression. */
  lemma MarginMissingValue(fs: set<Field>, rows: seq<Row>, f: Field, older: bool)
    requires Margin(GrossProfit) in fs && Margin(NetProfit) in fs && |rows| > 1
    requires f == Margin(GrossProfit) || f == Margin(NetProfit)
    requires Cell(rows[if older then |rows| - 2 else |rows| - 1], f).None?
    ensures MarginsOf(fs, rows).value.trend == Some(BothDown)
  {
    assert MarginChange(rows, f).None?;
    MarginQuadrants(fs, rows);
  }

  /** The metrics of ms that are columns. */
  function Present(fs: set<Field>, ms: seq<Metric>): (p: seq<Metric>)
    ensures |p| <= |ms|
    ensures forall m :: m in p <==> m in ms && Value(m) in fs
  {
    if ms == [] then [] else (if Value(ms[0]) in fs then [ms[0]] else []) + Present(fs, ms[1..])
  }

  /** The (positive, negative) indicator counts over the metrics ms: each metric that is a
      column adds one to exactly one of them. */
  function Counts(fs: set<Field>, rows: seq<Row>, ms: seq<Metric>): (nat, nat)
    requires |rows| > 1
  {
    if ms == [] then (0, 0)
    else
      var t := Tally(fs, rows, ms[0]);
      var rest := Counts(fs, rows, ms[1..]);
      (t.0 + rest.0, t.1 + rest.1)
  }

  /** What metric m adds to the (positive, negative) counts. */
  function Tally(fs: set<Field>, rows: seq<Row>, m: Metric): (nat, nat)
    requires |rows| > 1
  {
    if Value(m) !in fs then (0, 0)
    else if Exceeds(GrowthOf(rows, m), 0.0) then (1, 0)
    else (0, 1)
  }

  /** The outlook from the indicator counts. */
  function OutlookOf(positives: nat, negatives: nat): (o: Outlook)
    ensures o == Positive <==> positives > negatives
    ensures o == Challenging <==> positives < negatives
    ensures o == Mixed <==> positives == negatives
  {
    if positives > negatives then Positive
    else if positives < negatives then Challenging
    else Mixed
  }

  /** The indicator counts: nothing without a previous year. */
  function Indicators(fs: set<Field>, rows: seq<Row>): (nat, nat) {
    if |rows| > 1 then Counts(fs, rows, OutlookMetrics) else (0, 0)
  }

  /** The rising metrics of ms: columns whose latest growth is above zero. */
  function Rising(fs: set<Field>, rows: seq<Row>, ms: seq<Metric>): (p: seq<Metric>)
    requires |rows| > 1
    ensures forall m :: m in p <==> m in ms && Value(m) in fs && Exceeds(GrowthOf(rows, m), 0.0)
  {
    if ms == [] then []
    else (if Value(ms[0]) in fs && Exceeds(GrowthOf(rows, ms[0]), 0.0) then [ms[0]] else []) + Rising(fs, rows, ms[1..])
  }

  /** The summary for the annual rows of t, when there is one: the latest year, a
      highlight for each highlight metric that is a column, the performance statement when
      profit and revenue are columns and there is a previous year, and the margin
      statement when both margins are columns. */
  function SummaryFor(t: Table, rows: seq<Row>): (s: Summary)
    requires |rows| > 0
    ensures s.Summary? && s.year == rows[|rows| - 1].year
    ensures |s.highlights| <= 4
    ensures forall h :: h in s.highlights ==> Value(h.metric) in t.fields && h == HighlightOf(t, rows, h.metric)
    ensures forall m :: m in HighlightMetrics && Value(m) in t.fields ==> exists h :: h in s.highlights && h.metric == m
    ensures s.performance.Some? <==> Value(NetProfit) in t.fields && Value(Revenue) in t.fields && |rows| > 1
    ensures s.margins.Some? <==> Margin(GrossProfit) in t.fields && Margin(NetProfit) in t.fields
    ensures s.outlook == OutlookOf(s.positives, s.negatives)
  {
    var c := Indicators(t.fields, rows);
    Summary(rows[|rows| - 1].year, Highlights(t, rows, HighlightMetrics), PerformanceOf(t.fields, rows),
            MarginsOf(t.fields, rows), c.0, c.1, OutlookOf(c.0, c.1))
  }

  /** generate_summary on a table. */
  function SummaryOf(t: Table): Summary {
    if !Selectable(t) then Unable
    else if |Annual(t)| == 0 then Insufficient
    else SummaryFor(t, Annual(t))
  }

  /** generate_summary: the fixed texts, or the summary of the latest annual row. */
  method GenerateSummary(data: Table) returns (s: Summary)
    ensures s == SummaryOf(data)
  {
    if !Selectable(data) {
      return Unable;
    }
    var annual := Annual(data);
    var n := |annual|;
    if n == 0 {
      return Insufficient;
    }
    var positives, negatives := CountIndicators(data.fields, annual);
    s := Summary(annual[n - 1].year, Highlights(data, annual, HighlightMetrics), PerformanceOf(data.fields, annual),
                 MarginsOf(data.fields, annual), positives, negatives, OutlookOf(positives, negatives));
  }

  /** The outlook's counters, incremented metric by metric as the source does. */
  method CountIndicators(fs: set<Field>, annual: seq<Row>) returns (positives: nat, negatives: nat)
    ensures (positives, negatives) == Indicators(fs, annual)
  {
    positives, negatives := 0, 0;
    if |annual| > 1 {
      if Value(Revenue) in fs {
        if Exceeds(GrowthOf(annual, Revenue), 0.0) {
          positives := positives + 1;
        } else {
          negatives := negatives + 1;
        }
      }
      ghost var r := Tally(fs, annual, Revenue);
      assert (positives, negatives) == r;
      if Value(Eps) in fs {
        if Exceeds(GrowthOf(annual, Eps), 0.0) {
          positives := positives + 1;
        } else {
          negatives := negatives + 1;
        }
      }
      ghost var e := Tally(fs, annual, Eps);
      assert (positives, negatives) == (r.0 + e.0, r.1 + e.1);
      if Value(NetAssetPerShare) in fs {
        if Exceeds(GrowthOf(annual, NetAssetPerShare), 0.0) {
          positives := positives + 1;
        } else {
          negatives := negatives + 1;
        }
      }
      ghost var a := Tally(fs, annual, NetAssetPerShare);
      assert (positives, negatives) == (r.0 + e.0 + a.0, r.1 + e.1 + a.1);
      CountsOutlook(fs, annual);
    }
  }

  /** The counts over the outlook metrics, metric by metric. */
  lemma CountsOutlook(fs: set<Field>, rows: seq<Row>)
    requires |rows| > 1
    ensures var r := Tally(fs, rows, Revenue); var e := Tally(fs, rows, Eps); var a := Tally(fs, rows, NetAssetPerShare);
      Counts(fs, rows, OutlookMetrics) == (r.0 + e.0 + a.0, r.1 + e.1 + a.1)
  {
    var a := Tally(fs, rows, NetAssetPerShare);
    var e := Tally(fs, rows, Eps);
    assert [NetAssetPerShare][1..] == [];
    assert Counts(fs, rows, [NetAssetPerShare]) == (a.0, a.1);
    assert [Eps, NetAssetPerShare][1..] == [NetAssetPerShare];
    assert Counts(fs, rows, [Eps, NetAssetPerShare]) == (e.0 + a.0, e.1 + a.1);
    assert OutlookMetrics[1..] == [Eps, NetAssetPerShare];
  }

  /** With at least one annual row: at most three indicators are counted (none for a
      single year), one per outlook metric that is a column, the positive ones being the
      rising metrics, and the outlook follows their balance. */
  lemma SummaryOutlook(t: Table, rows: seq<Row>)
    requires |rows| > 0
    ensures var s := SummaryFor(t, rows);
      && s.positives + s.negatives <= 3
      && s.positives + s.negatives == (if |rows| > 1 then |Present(t.fields, OutlookMetrics)| else 0)
      && (|rows| > 1 ==> s.positives == |Rising(t.fields, rows, OutlookMetrics)|)
      && (s.outlook == Positive <==> s.positives > s.negatives)
      && (s.outlook == Mixed <==> s.positives == s.negatives)
      && (|rows| == 1 ==> s.outlook == Mixed)
  {
    if |rows| > 1 {
      CountsRising(t.fields, rows, OutlookMetrics);
    }
  }

  /** Each metric of ms that is a column adds one indicator, a positive one when it is
      rising. */
  lemma {:induction false} CountsRising(fs: set<Field>, rows: seq<Row>, ms: seq<Metric>)
    requires |rows| > 1
    ensures Counts(fs, rows, ms).0 + Counts(fs, rows, ms).1 == |Present(fs, ms)|
    ensures Counts(fs, rows, ms).0 == |Rising(fs, rows, ms)|
    decreases |ms|
  {
    if ms != [] {
      CountsRising(fs, rows, ms[1..]);
    }
  }

  /** The summary is the fixed "insufficient data" text exactly when the table has the
      columns to select by and no annual row. */
  lemma SummaryInsufficient(t: Table)
    ensures SummaryOf(t).Insufficient? <==> Selectable(t) && |Annual(t)| == 0
    ensures SummaryOf(t).Unable? <==> !Selectable(t)
  {
  }
}
