/** The forecast of one metric a few years past the last annual row: the checks on the
    data, the forecast years, the confidence band around a fitted model's forecast, and
    the simple growth projection used when the model cannot be fitted. The ARIMA
    forecast and the standard deviation of the series come from numerical libraries and
    enter as inputs. */
module Forecasting {
  import opened Common
  import opened Frame

  datatype ForecastError =
    | MissingKeyColumn          // no Quarter or no Year column: KeyError
    | UnknownMetric             // the metric is not a column
    | TooFewRows(found: nat)    // fewer than 3 annual rows
    | TooFewPoints(found: nat)  // fewer than 3 values that are not NaN
    | NoForecastYears           // periods < 1: reading the last forecast year raises

  /** How the values were forecast: by the fitted model, with a band of 1.96 standard
      deviations around it, or by compounding the median historical growth rate. */
  datatype Model = Arima(lower: seq<real>, upper: seq<real>) | SimpleGrowth(rate: real)

  datatype Forecast = Forecast(years: seq<int>, values: seq<real>, model: Model)

  const MinimumPoints: nat := 3
  const DefaultGrowthRate: real := 0.05
  const BandWidth: real := 1.96

  /** The values of column f that are not NaN, in row order (`dropna`). */
  function Points(rows: seq<Row>, f: Field): (p: seq<real>)
    ensures |p| <= |rows|
    decreases |rows|
  {
    if rows == [] then []
    else
      var c := Cell(rows[0], f);
      (if c.Some? then [c.value] else []) + Points(rows[1..], f)
  }

  /** `range(last_year + 1, last_year + periods + 1)`. */
  function ForecastYears(lastYear: int, periods: nat): (ys: seq<int>)
    ensures |ys| == periods
    ensures forall k :: 0 <= k < periods ==> ys[k] == lastYear + 1 + k
  {
    seq(periods, k requires 0 <= k < periods => lastYear + 1 + k)
  }

  /** The band `forecast -/+ std * 1.96` around each forecast value. */
  function Band(values: seq<real>, spread: real): (m: Model)
    requires spread >= 0.0
    ensures m.Arima? && |m.lower| == |values| && |m.upper| == |values|
    ensures forall k :: 0 <= k < |values| ==>
      && m.upper[k] - values[k] == values[k] - m.lower[k] == BandWidth * spread
      && m.lower[k] <= values[k] <= m.upper[k]
  {
    Arima(seq(|values|, k requires 0 <= k < |values| => values[k] - spread * BandWidth),
          seq(|values|, k requires 0 <= k < |values| => values[k] + spread * BandWidth))
  }

  // ---------------------------------------------------------------------------
  // The simple growth model
  // ---------------------------------------------------------------------------

  /** The growth rates `curr / prev - 1` over the first n points, for each adjacent pair
      whose previous value is positive, in order. */
  function Ratios(pts: seq<real>, n: nat): (r: seq<real>)
    requires n <= |pts|
    ensures |r| <= n
    decreases n
  {
    if n <= 1 then []
    else Ratios(pts, n - 1) + (if pts[n - 2] > 0.0 then [pts[n - 1] / pts[n - 2] - 1.0] else [])
  }

  /** Every rate comes from an adjacent pair whose previous value is positive, and turns
      that value into the next one. */
  lemma {:induction false} RatiosAreRates(pts: seq<real>, n: nat)
    requires n <= |pts|
    ensures forall x :: x in Ratios(pts, n) ==>
      exists i :: 0 < i < n && pts[i - 1] > 0.0 && x == pts[i] / pts[i - 1] - 1.0 && pts[i - 1] * (1.0 + x) == pts[i]
    decreases n
  {
    if n > 1 {
      RatiosAreRates(pts, n - 1);
      if pts[n - 2] > 0.0 {
        var x := pts[n - 1] / pts[n - 2] - 1.0;
        assert pts[n - 2] * (1.0 + x) == pts[n - 1];
      }
    }
  }

  /** There is no rate exactly when no point but the last is positive. */
  lemma {:induction false} RatiosEmpty(pts: seq<real>, n: nat)
    requires n <= |pts|
    ensures Ratios(pts, n) == [] <==> forall i :: 0 <= i < n - 1 ==> pts[i] <= 0.0
    decreases n
  {
    if n > 1 {
      RatiosEmpty(pts, n - 1);
    }
  }

  /** The loop collecting `growth_rates`. */
  method GrowthRates(pts: seq<real>) returns (rates: seq<real>)
    ensures rates == Ratios(pts, |pts|)
  {
    rates := [];
    var i := 1;
    while i < |pts|
      invariant 1 <= i <= |pts| || (|pts| == 0 && i == 1)
      invariant rates == Ratios(pts, if |pts| == 0 then 0 else i)
    {
      var prev := pts[i - 1];
      var curr := pts[i];
      if prev > 0.0 {
        rates := rates + [curr / prev - 1.0];
      }
      i := i + 1;
    }
  }

  /** Insert x into an ascending sequence. */
  function Insert(x: real, s: seq<real>): (r: seq<real>)
    requires Ascending(s)
    ensures Ascending(r)
    ensures multiset(r) == multiset(s) + multiset{x}
    ensures |r| == |s| + 1
    ensures forall i :: 0 <= i < |r| ==> r[i] == x || r[i] in s
    decreases |s|
  {
    if s == [] then [x]
    else if x <= s[0] then [x] + s
    else
      var rest := Insert(x, s[1..]);
      InsertFront(x, s, rest);
      [s[0]] + rest
  }

  lemma InsertFront(x: real, s: seq<real>, rest: seq<real>)
    requires s != [] && Ascending(s) && s[0] < x
    requires Ascending(rest) && multiset(rest) == multiset(s[1..]) + multiset{x}
    requires forall i :: 0 <= i < |rest| ==> rest[i] == x || rest[i] in s[1..]
    ensures Ascending([s[0]] + rest)
    ensures multiset([s[0]] + rest) == multiset(s) + multiset{x}
  {
    assert s == [s[0]] + s[1..];
    var r := [s[0]] + rest;
    forall i, j | 0 <= i < j < |r| ensures r[i] <= r[j] {
      assert r[j] == rest[j - 1];
      if i == 0 {
        if rest[j - 1] != x {
          var k :| 0 <= k < |s[1..]| && s[1..][k] == rest[j - 1];
          assert s[k + 1] == rest[j - 1];
        }
      } else {
        assert r[i] == rest[i - 1];
      }
    }
  }

  predicate Ascending(s: seq<real>) {
    forall i, j :: 0 <= i < j < |s| ==> s[i] <= s[j]
  }

  /** `sorted`, as np.median sorts its input. */
  function Sort(s: seq<real>): (r: seq<real>)
    ensures Ascending(r)
    ensures multiset(r) == multiset(s)
    ensures |r| == |s|
    decreases |s|
  {
    if s == [] then []
    else
      assert s == [s[0]] + s[1..];
      Insert(s[0], Sort(s[1..]))
  }

  /** `np.median`: the middle value of the sorted rates, or the mean of the two middle
      ones for an even count. */
  function Median(s: seq<real>): real
    requires |s| > 0
  {
    var t := Sort(s);
    var h := |t| / 2;
    if |t| % 2 == 1 then t[h] else (t[h - 1] + t[h]) / 2.0
  }

  /** The median lies between the smallest and the largest rate, and an odd count has a
      median that is one of the rates. */
  lemma MedianBetween(s: seq<real>)
    requires |s| > 0
    ensures exists i :: 0 <= i < |s| && s[i] <= Median(s)
    ensures exists j :: 0 <= j < |s| && Median(s) <= s[j]
    ensures |s| % 2 == 1 ==> Median(s) in s
  {
    var t := Sort(s);
    var h := |t| / 2;
    assert t[0] in multiset(s) && t[|t| - 1] in multiset(s);
    var i :| 0 <= i < |s| && s[i] == t[0];
    var j :| 0 <= j < |s| && s[j] == t[|t| - 1];
    if |t| % 2 == 1 {
      assert t[h] in multiset(s);
    } else {
      assert t[h - 1] <= t[h];
    }
    assert s[i] <= Median(s) <= s[j];
  }

  /** The rate of the simple model: the median growth rate, 5% when there is none. */
  function FallbackRate(pts: seq<real>): real {
    var rates := Ratios(pts, |pts|);
    if rates == [] then DefaultGrowthRate else Median(rates)
  }

  /** `periods` values, each the previous one (the last point at first) times
      `1 + rate`. */
  function Projection(last: real, rate: real, periods: nat): (vs: seq<real>)
    ensures |vs| == periods
  {
    seq(periods, k requires 0 <= k < periods => Grown(last, rate, k + 1))
  }

  /** The k-th projected value (from 0) is the last value times `(1 + rate)^(k + 1)`. */
  lemma ProjectionIsPower(last: real, rate: real, periods: nat)
    ensures var vs := Projection(last, rate, periods);
      forall k :: 0 <= k < periods ==> vs[k] == last * Pow(1.0 + rate, k + 1)
  {
    forall k | 0 <= k < periods {
      GrownIsPower(last, rate, k + 1);
    }
  }

  /** The loop carrying `last_value` forward. */
  method Compound(last: real, rate: real, periods: nat) returns (values: seq<real>)
    ensures values == Projection(last, rate, periods)
  {
    values := [];
    var value := last;
    for i := 0 to periods
      invariant |values| == i
      invariant value == Grown(last, rate, i)
      invariant forall k :: 0 <= k < i ==> values[k] == Grown(last, rate, k + 1)
    {
      var next := value * (1.0 + rate);
      values := values + [next];
      value := next;
    }
  }

  // ---------------------------------------------------------------------------
  // forecast_metrics
  // ---------------------------------------------------------------------------

  /** The forecast once the annual rows are selected and the metric is known to be a
      column: there is one exactly when there are three rows, three values and a period,
      and then it has one value per period, from the model when there is one. */
  function ForecastFrom(rows: seq<Row>, metric: Field, periods: int, arima: Option<seq<real>>, spread: real)
    : (r: Result<Forecast, ForecastError>)
    requires arima.Some? ==> |arima.value| == periods
    requires spread >= 0.0
    ensures r.Ok? <==> |rows| >= 3 && |Points(rows, metric)| >= 3 && periods >= 1
    ensures r == Err(TooFewRows(|rows|)) <==> |rows| < 3
    ensures r.Ok? ==> |r.value.years| == |r.value.values| == periods
    ensures r.Ok? ==> (r.value.model.Arima? <==> arima.Some?)
  {
    if |rows| < MinimumPoints then Err(TooFewRows(|rows|))
    else
      var pts := Points(rows, metric);
      if |pts| < MinimumPoints then Err(TooFewPoints(|pts|))
      else if periods < 1 then Err(NoForecastYears)
      else
        var years := ForecastYears(rows[|rows| - 1].year, periods);
        if arima.Some? then Ok(Forecast(years, arima.value, Band(arima.value, spread)))
        else
          var rate := FallbackRate(pts);
          Ok(Forecast(years, Projection(pts[|pts| - 1], rate, periods), SimpleGrowth(rate)))
  }

  /** The forecast of `metric` for `periods` years. `arima` is the fitted model's forecast,
      None when fitting or forecasting raises; `spread` is the standard deviation of the
      metric's values. The key columns are checked first, then the metric. */
  function ForecastOf(t: Table, metric: Field, periods: int, arima: Option<seq<real>>, spread: real)
    : (r: Result<Forecast, ForecastError>)
    requires arima.Some? ==> |arima.value| == periods
    requires spread >= 0.0
    ensures r == Err(MissingKeyColumn) <==> !Selectable(t)
    ensures r == Err(UnknownMetric) <==> Selectable(t) && metric !in t.fields
    ensures Selectable(t) && metric in t.fields ==> r == ForecastFrom(Annual(t), metric, periods, arima, spread)
  {
    if !Selectable(t) then Err(MissingKeyColumn)
    else if metric !in t.fields then Err(UnknownMetric)
    else ForecastFrom(Annual(t), metric, periods, arima, spread)
  }

  /** forecast_metrics: the checks on the table, then the forecast. */
  method ForecastMetrics(data: Table, metric: Field, periods: int, arima: Option<seq<real>>, spread: real)
    returns (r: Result<Forecast, ForecastError>)
    requires arima.Some? ==> |arima.value| == periods
    requires spread >= 0.0
    ensures r == ForecastOf(data, metric, periods, arima, spread)
  {
    if !Selectable(data) {
      return Err(MissingKeyColumn);
    }
    if metric !in data.fields {
      return Err(UnknownMetric);
    }
    var annual := Annual(data);
    r := ForecastRows(annual, metric, periods, arima, spread);
  }

  /** The rest of forecast_metrics, with the fallback's two loops as the source runs
      them. */
  method ForecastRows(annual: seq<Row>, metric: Field, periods: int, arima: Option<seq<real>>, spread: real)
    returns (r: Result<Forecast, ForecastError>)
    requires arima.Some? ==> |arima.value| == periods
    requires spread >= 0.0
    ensures r == ForecastFrom(annual, metric, periods, arima, spread)
  {
    if |annual| < MinimumPoints {
      return Err(TooFewRows(|annual|));
    }
    var pts := Points(annual, metric);
    if |pts| < MinimumPoints {
      return Err(TooFewPoints(|pts|));
    }
    if periods < 1 {
      return Err(NoForecastYears);
    }
    var years := ForecastYears(annual[|annual| - 1].year, periods);
    if arima.Some? {
      return Ok(Forecast(years, arima.value, Band(arima.value, spread)));
    }
    var rates := GrowthRates(pts);
    var rate := if rates == [] then DefaultGrowthRate else Median(rates);
    var values := Compound(pts[|pts| - 1], rate, periods);
    r := Ok(Forecast(years, values, SimpleGrowth(rate)));
  }

  /** The forecast fails exactly when a check fails, with the first failing check's
      error: key columns, metric column, at least 3 annual rows, at least 3 values that
      are not NaN, at least one period. */
  lemma ForecastChecks(t: Table, metric: Field, periods: int, arima: Option<seq<real>>, spread: real)
    requires arima.Some? ==> |arima.value| == periods
    requires spread >= 0.0
    ensures var r := ForecastOf(t, metric, periods, arima, spread);
      && (r.Ok? <==> Selectable(t) && metric in t.fields && |Annual(t)| >= 3
                     && |Points(Annual(t), metric)| >= 3 && periods >= 1)
      && (r == Err(MissingKeyColumn) <==> !Selectable(t))
      && (r == Err(UnknownMetric) <==> Selectable(t) && metric !in t.fields)
      && (r.Err? && r.error.TooFewRows? ==> r.error.found < 3 && r.error.found == |Annual(t)|)
      && (r.Err? && r.error.TooFewPoints? ==> r.error.found < 3 && |Annual(t)| >= 3)
  {
  }

  /** A forecast covers the `periods` years right after the last annual year, each later
      than every annual row. */
  lemma ForecastYearsAfter(t: Table, metric: Field, periods: int, arima: Option<seq<real>>, spread: real)
    requires arima.Some? ==> |arima.value| == periods
    requires spread >= 0.0
    requires ForecastOf(t, metric, periods, arima, spread).Ok?
    ensures var f := ForecastOf(t, metric, periods, arima, spread).value; var rows := Annual(t);
      && |f.years| == |f.values| == periods
      && (forall k :: 0 <= k < periods ==> f.years[k] == rows[|rows| - 1].year + 1 + k)
      && (forall k, j :: 0 <= k < periods && 0 <= j < |rows| ==> rows[j].year < f.years[k])
  {
    AnnualRows(t);
  }

  /** The model's forecast comes with a band symmetric about it, 1.96 standard
      deviations wide on each side. */
  lemma ForecastBand(rows: seq<Row>, metric: Field, periods: int, arima: Option<seq<real>>, spread: real)
    requires arima.Some? ==> |arima.value| == periods
    requires spread >= 0.0
    requires ForecastFrom(rows, metric, periods, arima, spread).Ok?
    ensures var f := ForecastFrom(rows, metric, periods, arima, spread).value;
      && (f.model.Arima? <==> arima.Some?)
      && (f.model.Arima? ==>
            && f.values == arima.value
            && forall k :: 0 <= k < periods ==>
                 f.model.upper[k] - f.values[k] == f.values[k] - f.model.lower[k] == 1.96 * spread)
  {
  }

  /** Without the model, the forecast (once the checks pass) is the simple model's: the
      last value that is not NaN compounded at the fallback rate, year after year
      (ProjectionIsPower gives the closed form). */
  lemma ForecastFallback(rows: seq<Row>, metric: Field, periods: int, spread: real)
    requires spread >= 0.0
    requires |rows| >= 3 && |Points(rows, metric)| >= 3 && periods >= 1
    ensures var pts := Points(rows, metric);
      ForecastFrom(rows, metric, periods, None, spread)
        == Ok(Forecast(ForecastYears(rows[|rows| - 1].year, periods),
                       Projection(pts[|pts| - 1], FallbackRate(pts), periods),
                       SimpleGrowth(FallbackRate(pts))))
  {
  }

  /** The simple model's rate is 5% when no previous value is positive, and otherwise
      lies between the smallest and the largest growth rate. */
  lemma FallbackRateBounds(pts: seq<real>)
    ensures (forall i :: 0 <= i < |pts| - 1 ==> pts[i] <= 0.0) ==> FallbackRate(pts) == 0.05
    ensures var rates := Ratios(pts, |pts|);
      rates != [] ==> exists i, j :: 0 <= i < |rates| && 0 <= j < |rates| && rates[i] <= FallbackRate(pts) <= rates[j]
  {
    RatiosEmpty(pts, |pts|);
    var rates := Ratios(pts, |pts|);
    if rates != [] {
      MedianBetween(rates);
      var i :| 0 <= i < |rates| && rates[i] <= Median(rates);
      var j :| 0 <= j < |rates| && Median(rates) <= rates[j];
      assert rates[i] <= FallbackRate(pts) <= rates[j];
    }
  }
}
