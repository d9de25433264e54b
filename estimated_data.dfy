/** generate_estimated_data (data_extractor.py): a synthetic annual record and a top-ten
    shareholder list for a year, compounded from 2023 reference values at growth rates
    keyed on the target year and scaled by a variation drawn from the file name.

    The MD5 digest of the path, the uniform noise draws, the `random.random()` draws and
    the shuffled name order are inputs. */
module EstimatedData {
  import opened Common
  import opened Frame
  import DataExtractor

  // ---------------------------------------------------------------------------
  // Variation and growth rates
  // ---------------------------------------------------------------------------

  /** `0.8 + (h % 1000) / 1000 * 0.4` for the digest h of the path, 1.0 without a path. */
  function Variation(digest: Option<nat>): (v: real)
    ensures 0.8 <= v < 1.2
    ensures digest.None? ==> v == 1.0
  {
    if digest.None? then 1.0 else 0.8 + (digest.value % 1000) as real / 1000.0 * 0.4
  }

  /** The growth rates of one year: revenue, cost of sales, operating expenses, EPS and
      net asset value per share (the source also sets a profit rate that nothing reads). */
  datatype Rates = Rates(revenue: real, cost: real, expense: real, eps: real, naps: real)

  /** Every rate keeps `1 + rate` positive, so dividing by it is defined. */
  predicate Admissible(r: Rates) {
    r.revenue > -1.0 && r.cost > -1.0 && r.expense > -1.0 && r.eps > -1.0 && r.naps > -1.0
  }

  /** The rate table before scaling: before 2020, 2020, 2021, 2022, 2023, and later years. */
  function BaseRates(year: int): Rates {
    if year < 2020 then Rates(0.09, 0.08, 0.07, 0.11, 0.08)
    else if year == 2020 then Rates(-0.09, -0.04, 0.02, -0.17, -0.03)
    else if year == 2021 then Rates(0.07, 0.06, 0.05, 0.10, 0.05)
    else if year == 2022 then Rates(0.10, 0.09, 0.08, 0.13, 0.09)
    else if year == 2023 then Rates(0.08, 0.07, 0.06, 0.10, 0.07)
    else Rates(0.07, 0.06, 0.05, 0.09, 0.06)
  }

  /** The rates of the target year, each multiplied by the variation. */
  function YearRates(year: int, digest: Option<nat>): (r: Rates)
    ensures Admissible(r)
    ensures year != 2020 ==> r.revenue > 0.0 && r.cost > 0.0 && r.expense > 0.0 && r.eps > 0.0 && r.naps > 0.0
    ensures year == 2020 ==> r.revenue < 0.0 && r.cost < 0.0 && r.expense > 0.0 && r.eps < 0.0 && r.naps < 0.0
  {
    var v := Variation(digest);
    var b := BaseRates(year);
    Rates(b.revenue * v, b.cost * v, b.expense * v, b.eps * v, b.naps * v)
  }

  // ---------------------------------------------------------------------------
  // Compounding from the 2023 reference
  // ---------------------------------------------------------------------------

  /** The compounded quantities. */
  datatype Bases = Bases(revenue: real, costOfSales: real, operatingExpenses: real, eps: real, netAssetPerShare: real)

  /** The 2023 reference values. The source also names a gross profit of 43.3, an
      operating profit of 19.6 and a net profit of 16.8 for 2023, which nothing reads. */
  const Reference: Bases := Bases(168.5, 125.2, 23.7, 12.75, 98.65)

  /** x divided n times by `1 + rate`: the backward loop's effect on one quantity. */
  function Shrunk(x: real, rate: real, n: nat): real
    requires rate > -1.0
    decreases n
  {
    if n == 0 then x else Shrunk(x, rate, n - 1) / (1.0 + rate)
  }

  /** Compounding back is dividing by the n-th power of `1 + rate`. */
  lemma {:induction false} ShrunkIsPower(x: real, rate: real, n: nat)
    requires rate > -1.0
    ensures Pow(1.0 + rate, n) > 0.0
    ensures Shrunk(x, rate, n) == x / Pow(1.0 + rate, n)
    decreases n
  {
    PowPositive(1.0 + rate, n);
    if n > 0 {
      ShrunkIsPower(x, rate, n - 1);
      var q := 1.0 + rate;
      var p := Pow(q, n - 1);
      assert Shrunk(x, rate, n) == x / p / q;
      DivTwice(x, p, q);
    }
  }

  /** x compounded over d years at `rate`: forward when d > 0, back when d < 0. */
  function Projected(x: real, rate: real, d: int): real
    requires rate > -1.0
  {
    if d >= 0 then Grown(x, rate, d) else Shrunk(x, rate, -d)
  }

  function ProjectedAll(b: Bases, r: Rates, d: int): Bases
    requires Admissible(r)
  {
    Bases(Projected(b.revenue, r.revenue, d), Projected(b.costOfSales, r.cost, d),
          Projected(b.operatingExpenses, r.expense, d), Projected(b.eps, r.eps, d),
          Projected(b.netAssetPerShare, r.naps, d))
  }

  /** Compounding d years back undoes compounding d years forward, and conversely. */
  lemma ProjectedInverse(x: real, rate: real, d: int)
    requires rate > -1.0
    ensures Projected(Projected(x, rate, d), rate, -d) == x
  {
    if d > 0 {
      GrowThenShrink(x, rate, d);
    } else if d < 0 {
      ShrinkThenGrow(x, rate, -d);
    }
  }

  lemma GrowThenShrink(x: real, rate: real, n: nat)
    requires rate > -1.0
    ensures Shrunk(Grown(x, rate, n), rate, n) == x
  {
    var p := Pow(1.0 + rate, n);
    GrownIsPower(x, rate, n);
    var y := Grown(x, rate, n);
    ShrunkIsPower(y, rate, n);
    assert y == x * p && p > 0.0;
    assert Shrunk(y, rate, n) == y / p;
  }

  lemma ShrinkThenGrow(x: real, rate: real, n: nat)
    requires rate > -1.0
    ensures Grown(Shrunk(x, rate, n), rate, n) == x
  {
    var p := Pow(1.0 + rate, n);
    ShrunkIsPower(x, rate, n);
    GrownIsPower(x / p, rate, n);
    assert x / p * p == x;
  }

  lemma {:induction false} PowAboveOne(q: real, n: nat)
    requires q > 1.0 && n >= 1
    ensures Pow(q, n) > 1.0
    decreases n
  {
    if n > 1 {
      PowAboveOne(q, n - 1);
      assert q * Pow(q, n - 1) > Pow(q, n - 1);
    }
  }

  lemma {:induction false} PowBelowOne(q: real, n: nat)
    requires 0.0 < q < 1.0 && n >= 1
    ensures 0.0 < Pow(q, n) < 1.0
    decreases n
  {
    if n > 1 {
      PowBelowOne(q, n - 1);
      assert q * Pow(q, n - 1) < Pow(q, n - 1);
    }
  }

  /** A positive value moves away from the reference in the direction of the rate going
      forward and against it going back: it ends above x exactly when the rate and the
      direction of time have the same sign. */
  lemma ProjectedDirection(x: real, rate: real, d: int)
    requires rate > -1.0 && rate != 0.0 && x > 0.0 && d != 0
    ensures Projected(x, rate, d) > x <==> ((rate > 0.0) == (d > 0))
    ensures Projected(x, rate, d) != x
  {
    var n := if d >= 0 then d else -d;
    var q := 1.0 + rate;
    PowPositive(q, n);
    var p := Pow(q, n);
    if rate > 0.0 {
      PowAboveOne(q, n);
    } else {
      PowBelowOne(q, n);
    }
    if d > 0 {
      GrownIsPower(x, rate, n);
      assert x * p > x <==> p > 1.0;
    } else {
      ShrunkIsPower(x, rate, n);
      QuotientAgainst(x, p);
    }
  }

  /** Dividing a positive number by a positive p raises it exactly when p < 1. */
  lemma QuotientAgainst(x: real, p: real)
    requires x > 0.0 && p > 0.0 && p != 1.0
    ensures x / p > x <==> p < 1.0
    ensures x / p != x
  {
    var a := x / p;
    assert a * p == x;
    assert a > 0.0;
    if p < 1.0 {
      MulStrict(p, 1.0, a);
      assert a > x;
    } else {
      MulStrict(1.0, p, a);
      assert a < x;
    }
  }

  /** The two compounding loops of generate_estimated_data: all five quantities are
      updated together, once per year between 2023 and the target year. */
  method Compound(b: Bases, r: Rates, d: int) returns (p: Bases)
    requires Admissible(r)
    ensures p == ProjectedAll(b, r, d)
  {
    p := b;
    assert Projected(b.revenue, r.revenue, 0) == b.revenue;
    if d > 0 {
      for i := 0 to d
        invariant p == ProjectedAll(b, r, i)
      {
        p := Bases(p.revenue * (1.0 + r.revenue), p.costOfSales * (1.0 + r.cost),
                   p.operatingExpenses * (1.0 + r.expense), p.eps * (1.0 + r.eps),
                   p.netAssetPerShare * (1.0 + r.naps));
      }
    } else if d < 0 {
      for i := 0 to -d
        invariant p == Bases(Shrunk(b.revenue, r.revenue, i), Shrunk(b.costOfSales, r.cost, i),
                             Shrunk(b.operatingExpenses, r.expense, i), Shrunk(b.eps, r.eps, i),
                             Shrunk(b.netAssetPerShare, r.naps, i))
      {
        p := Bases(p.revenue / (1.0 + r.revenue), p.costOfSales / (1.0 + r.cost),
                   p.operatingExpenses / (1.0 + r.expense), p.eps / (1.0 + r.eps),
                   p.netAssetPerShare / (1.0 + r.naps));
      }
      assert Projected(b.revenue, r.revenue, d) == Shrunk(b.revenue, r.revenue, -d);
    } else {
      assert ProjectedAll(b, r, 0) == b;
    }
  }

  // ---------------------------------------------------------------------------
  // The estimated record
  // ---------------------------------------------------------------------------

  /** The six `random.uniform(-0.03, 0.03)` draws, in the order they are taken. */
  datatype Noise = Noise(revenue: real, costOfSales: real, operatingExpenses: real, netProfit: real,
                         eps: real, netAssetPerShare: real)

  datatype Estimate = Estimate(revenue: real, costOfSales: real, grossProfit: real, operatingExpenses: real,
                               operatingProfit: real, netProfit: real, eps: real, netAssetPerShare: real)

  /** The record from the compounded values: net profit as 85% of the operating profit
      before noise, then the noise, after which gross and operating profit are recomputed
      from the noisy values while net profit is only scaled by its own draw. */
  function WithNoise(p: Bases, noise: Noise): (e: Estimate)
    ensures e.grossProfit == e.revenue - e.costOfSales
    ensures e.operatingProfit == e.grossProfit - e.operatingExpenses
    ensures e.netProfit == (p.revenue - p.costOfSales - p.operatingExpenses) * 0.85 * (1.0 + noise.netProfit)
  {
    var netProfit := (p.revenue - p.costOfSales - p.operatingExpenses) * 0.85;
    var revenue := p.revenue * (1.0 + noise.revenue);
    var cost := p.costOfSales * (1.0 + noise.costOfSales);
    var expenses := p.operatingExpenses * (1.0 + noise.operatingExpenses);
    Estimate(revenue, cost, revenue - cost, expenses, revenue - cost - expenses,
             netProfit * (1.0 + noise.netProfit), p.eps * (1.0 + noise.eps),
             p.netAssetPerShare * (1.0 + noise.netAssetPerShare))
  }

  /** The record for a year: the 2023 reference compounded to the year, then the noise. */
  function Estimated(year: int, digest: Option<nat>, noise: Noise): Estimate {
    WithNoise(ProjectedAll(Reference, YearRates(year, digest), year - 2023), noise)
  }

  const NoNoise: Noise := Noise(0.0, 0.0, 0.0, 0.0, 0.0, 0.0)

  /** For 2023 without noise the record is the reference itself, whatever the variation;
      its net profit is 85% of 19.6, not the 16.8 the source lists as the reference. */
  lemma ReferenceYear(digest: Option<nat>)
    ensures var e := Estimated(2023, digest, NoNoise);
      && e.revenue == 168.5 && e.costOfSales == 125.2 && e.grossProfit == 43.3
      && e.operatingExpenses == 23.7 && e.operatingProfit == 19.6 && e.netProfit == 16.66
      && e.eps == 12.75 && e.netAssetPerShare == 98.65
  {
    var r := YearRates(2023, digest);
    assert ProjectedAll(Reference, r, 0) == Reference;
  }

  /** Without noise, revenue after 2023 lies above the reference and before 2023 below
      it, except for 2020: its negative rate, compounded backwards over three years,
      puts the 2020 revenue above the reference. */
  lemma RevenueAgainstReference(year: int, digest: Option<nat>)
    requires year != 2023
    ensures var e := Estimated(year, digest, NoNoise);
      e.revenue > 168.5 <==> (year > 2023 || year == 2020)
  {
    var r := YearRates(year, digest);
    ProjectedDirection(168.5, r.revenue, year - 2023);
    var p := ProjectedAll(Reference, r, year - 2023);
    assert p.revenue == Projected(168.5, r.revenue, year - 2023);
    assert WithNoise(p, NoNoise).revenue == p.revenue * (1.0 + 0.0);
  }

  /** The metrics of the appended row: every one is set. */
  function EstimateValues(e: Estimate): (found: map<Metric, real>)
    ensures found.Keys == DataExtractor.AllMetrics
  {
    map[Revenue := e.revenue, CostOfSales := e.costOfSales, GrossProfit := e.grossProfit,
        OperatingExpenses := e.operatingExpenses, OperatingProfit := e.operatingProfit,
        NetProfit := e.netProfit, Eps := e.eps, NetAssetPerShare := e.netAssetPerShare]
  }

  /** The arithmetic of generate_estimated_data, step by step. */
  method EstimateRecord(year: int, digest: Option<nat>, noise: Noise) returns (e: Estimate)
    ensures e == Estimated(year, digest, noise)
  {
    var rates := RatesOf(year, digest);
    var p := Compound(Reference, rates, year - 2023);
    e := ApplyNoise(p, noise);
  }

  /** The derived metrics and the noise, in the source's order. */
  method ApplyNoise(p: Bases, noise: Noise) returns (e: Estimate)
    ensures e == WithNoise(p, noise)
  {
    var grossProfit := p.revenue - p.costOfSales;
    var operatingProfit := grossProfit - p.operatingExpenses;
    var netProfit := operatingProfit * 0.85;
    var revenue := p.revenue * (1.0 + noise.revenue);
    var cost := p.costOfSales * (1.0 + noise.costOfSales);
    grossProfit := revenue - cost;
    var expenses := p.operatingExpenses * (1.0 + noise.operatingExpenses);
    operatingProfit := grossProfit - expenses;
    netProfit := netProfit * (1.0 + noise.netProfit);
    var eps := p.eps * (1.0 + noise.eps);
    var naps := p.netAssetPerShare * (1.0 + noise.netAssetPerShare);
    e := Estimate(revenue, cost, grossProfit, expenses, operatingProfit, netProfit, eps, naps);
  }

  /** The variation and the rate table of generate_estimated_data. */
  method RatesOf(year: int, digest: Option<nat>) returns (rates: Rates)
    ensures rates == YearRates(year, digest)
  {
    var variation := 1.0;
    if digest.Some? {
      variation := 0.8 + (digest.value % 1000) as real / 1000.0 * 0.4;
    }
    if year < 2020 {
      rates := Rates(0.09 * variation, 0.08 * variation, 0.07 * variation, 0.11 * variation, 0.08 * variation);
    } else if year == 2020 {
      rates := Rates(-0.09 * variation, -0.04 * variation, 0.02 * variation, -0.17 * variation, -0.03 * variation);
    } else if year == 2021 {
      rates := Rates(0.07 * variation, 0.06 * variation, 0.05 * variation, 0.10 * variation, 0.05 * variation);
    } else if year == 2022 {
      rates := Rates(0.10 * variation, 0.09 * variation, 0.08 * variation, 0.13 * variation, 0.09 * variation);
    } else if year == 2023 {
      rates := Rates(0.08 * variation, 0.07 * variation, 0.06 * variation, 0.10 * variation, 0.07 * variation);
    } else {
      rates := Rates(0.07 * variation, 0.06 * variation, 0.05 * variation, 0.09 * variation, 0.06 * variation);
    }
  }

  // ---------------------------------------------------------------------------
  // The shareholder list
  // ---------------------------------------------------------------------------

  const ShareholderNames: seq<string> := [
    "Melstacorp PLC", "Ceylon Guardian Investment Trust", "Employees Provident Fund",
    "HSBC International Nominees", "Sri Lanka Insurance Corporation", "National Savings Bank",
    "Employees Trust Fund Board", "Bank of Ceylon", "Mercantile Investments", "Life Insurance Corporation"]

  /** `random.shuffle(shareholders)`: the same names in some order. */
  predicate IsShuffle(names: seq<string>) {
    multiset(names) == multiset(ShareholderNames)
  }

  lemma ShuffleLength(names: seq<string>)
    requires IsShuffle(names)
    ensures |names| == 10
  {
    assert |names| == |multiset(names)| == |multiset(ShareholderNames)|;
  }

  /** The 2020 holdings and their yearly decline. */
  const OwnerBases: seq<real> := [17.5, 14.8, 12.3, 9.7, 8.4, 7.1, 6.5, 5.8, 4.2, 3.7]
  const OwnerSlopes: seq<real> := [0.2, 0.15, 0.1, 0.05, 0.03, 0.02, 0.01, 0.01, 0.005, 0.005]

  /** Every holder's slope lies in (0, 0.2] and every base is at least 3.7. */
  lemma OwnerBounds(i: nat)
    requires i < 10
    ensures 0.0 < OwnerSlopes[i] <= 0.2 && OwnerBases[i] >= 3.7
  {
    if i < 5 {
      if i == 0 {} else if i == 1 {} else if i == 2 {} else if i == 3 {} else {}
    } else {
      if i == 5 {} else if i == 6 {} else if i == 7 {} else if i == 8 {} else {}
    }
  }

  /** `max(0.5, base - (year - 2020) * slope * (draw * 0.5 + 0.75))` for holder i. */
  function OwnerPercentage(i: nat, year: int, draw: real): (p: real)
    requires i < 10
    ensures p >= 0.5
  {
    MaxReal(0.5, OwnerBases[i] - (year - 2020) as real * OwnerSlopes[i] * (draw * 0.5 + 0.75))
  }

  /** For the years the extractor resolves, the floor of 0.5 never applies: each holding
      stays within its yearly decline of the 2020 value, between one and four years of
      decline at most 1.25 times the slope each. */
  lemma OwnerPercentageUnfloored(i: nat, year: int, draw: real)
    requires i < 10 && 2019 <= year <= 2024 && 0.0 <= draw < 1.0
    ensures var raw := OwnerBases[i] - (year - 2020) as real * OwnerSlopes[i] * (draw * 0.5 + 0.75);
      && OwnerPercentage(i, year, draw) == raw
      && OwnerBases[i] - 5.0 * OwnerSlopes[i] <= raw <= OwnerBases[i] + 1.25 * OwnerSlopes[i]
  {
    var f := draw * 0.5 + 0.75;
    var k := (year - 2020) as real;
    var slope := OwnerSlopes[i];
    OwnerBounds(i);
    assert -1.25 <= k * f <= 5.0 by {
      assert 0.75 <= f < 1.25 && -1.0 <= k <= 4.0;
      if k >= 0.0 {
        MulMonotone(f, 1.25, k);
        MulMonotone(0.0, f, k);
        assert 0.0 <= f * k <= 1.25 * k;
      } else {
        MulMonotone(f, 1.25, -k);
        MulMonotone(k, 0.0, f);
        assert 1.25 * k <= k * f <= 0.0;
      }
    }
    assert k * slope * f == (k * f) * slope;
    MulMonotone(k * f, 5.0, slope);
    MulMonotone(-1.25, k * f, slope);
  }

  /** The ten holdings for the year, in the order of the (possibly shuffled) names. */
  function EstimatedHoldings(year: int, names: seq<string>, draws: seq<real>): (hs: seq<(string, real)>)
    requires |names| == 10 && |draws| == 10
    ensures |hs| == 10
    ensures forall k :: 0 <= k < 10 ==> hs[k].0 == names[k] && hs[k].1 >= 0.5
  {
    seq(10, k requires 0 <= k < 10 => (names[k], OwnerPercentage(k, year, draws[k])))
  }

  /** `shareholders_data` after appending holdings, one entry each. */
  function AppendHoldings(h: DataExtractor.Holders, y: int, hs: seq<(string, real)>): (r: DataExtractor.Holders)
    requires DataExtractor.HoldersAligned(h)
    ensures DataExtractor.HoldersAligned(r)
    decreases |hs|
  {
    if hs == [] then h
    else
      var p := AppendHoldings(h, y, hs[..|hs| - 1]);
      var x := hs[|hs| - 1];
      DataExtractor.Holders(p.years + [y], p.names + [x.0], p.percentages + [x.1])
  }

  /** Appending keeps the entries before and adds the holdings, in order, for year y. */
  lemma {:induction false} AppendHoldingsRows(h: DataExtractor.Holders, y: int, hs: seq<(string, real)>)
    requires DataExtractor.HoldersAligned(h)
    ensures var r := AppendHoldings(h, y, hs); var n := |h.years|;
      && DataExtractor.EntriesFrom(r, n, y, hs)
      && r.years[..n] == h.years && r.names[..n] == h.names && r.percentages[..n] == h.percentages
    decreases |hs|
  {
    if hs != [] {
      var init := hs[..|hs| - 1];
      AppendHoldingsRows(h, y, init);
      DataExtractor.EntriesStep(AppendHoldings(h, y, init), |h.years|, y, init, hs[|hs| - 1]);
      assert init + [hs[|hs| - 1]] == hs;
    }
  }

  /** generate_estimated_data: one row for the year holding every metric, and ten
      shareholder entries. `names` is the name list after the shuffle that runs when a
      path is given; `draws` are the ten `random.random()` values. */
  method GenerateEstimatedData(fd: DataExtractor.FinancialData, sd: DataExtractor.ShareholderData, year: int,
                               digest: Option<nat>, noise: Noise, names: seq<string>, draws: seq<real>)
    requires fd.Valid() && sd.Valid()
    requires |draws| == 10 && IsShuffle(names)
    requires digest.None? ==> names == ShareholderNames
    modifies fd, sd
    ensures fd.Valid() && sd.Valid()
    ensures fd.Snapshot() == DataExtractor.Appended(old(fd.Snapshot()), year, EstimateValues(Estimated(year, digest, noise)))
    ensures sd.Snapshot() == AppendHoldings(old(sd.Snapshot()), year, EstimatedHoldings(year, names, draws))
  {
    ShuffleLength(names);
    AddEstimate(fd, sd, year, digest, noise, names, draws);
  }

  /** The body of generate_estimated_data once the names are in their final order. */
  method AddEstimate(fd: DataExtractor.FinancialData, sd: DataExtractor.ShareholderData, year: int,
                     digest: Option<nat>, noise: Noise, names: seq<string>, draws: seq<real>)
    requires fd.Valid() && sd.Valid() && |draws| == 10 && |names| == 10
    modifies fd, sd
    ensures fd.Valid() && sd.Valid()
    ensures fd.Snapshot() == DataExtractor.Appended(old(fd.Snapshot()), year, EstimateValues(Estimated(year, digest, noise)))
    ensures sd.Snapshot() == AppendHoldings(old(sd.Snapshot()), year, EstimatedHoldings(year, names, draws))
  {
    var e := EstimateRecord(year, digest, noise);
    fd.Append(year, EstimateValues(e));
    AddShareholders(sd, year, names, draws);
  }

  /** The shareholder loop `for i in range(min(10, len(shareholders)))`. */
  method AddShareholders(sd: DataExtractor.ShareholderData, year: int, names: seq<string>, draws: seq<real>)
    requires sd.Valid() && |names| == 10 && |draws| == 10
    modifies sd
    ensures sd.Valid()
    ensures sd.Snapshot() == AppendHoldings(old(sd.Snapshot()), year, EstimatedHoldings(year, names, draws))
  {
    ghost var h := sd.Snapshot();
    ghost var hs := EstimatedHoldings(year, names, draws);
    for i := 0 to 10
      invariant sd.Valid()
      invariant sd.Snapshot() == AppendHoldings(h, year, hs[..i])
    {
      assert hs[..i + 1][..i] == hs[..i];
      sd.Append(year, names[i], OwnerPercentage(i, year, draws[i]));
    }
    assert hs[..10] == hs;
  }

  /** The generated row holds, for every metric, the estimate's value. */
  lemma EstimatedRow(c: DataExtractor.Columns, year: int, digest: Option<nat>, noise: Noise, m: Metric)
    requires DataExtractor.Aligned(c)
    ensures var e := Estimated(year, digest, noise); var r := DataExtractor.Appended(c, year, EstimateValues(e));
      && m in r.values && r.years[|c.years|] == year
      && r.values[m][|c.years|] == Some(EstimateValues(e)[m])
  {
    var e := Estimated(year, digest, noise);
    DataExtractor.EveryMetric(m);
    DataExtractor.AppendedRow(c, year, EstimateValues(e));
    DataExtractor.AppendedCells(c, year, EstimateValues(e), m);
  }
}
