/** The processing stage of the pipeline: derived profit columns and margins,
    year-over-year growth within (Industry, Quarter) groups, and the dashboard's
    year / industry / currency filter. Each operation works on a copy: a Table is a
    value, so the caller's table is never changed. */
module DataProcessor {
  import opened Common
  import opened Frame

  // ---------------------------------------------------------------------------
  // Year-over-year growth (add_growth_rates)
  // ---------------------------------------------------------------------------

  /** The metrics that get a growth column, in the order of the source's `growth_metrics`. */
  const GrowthMetrics: seq<Metric> := [Revenue, GrossProfit, OperatingProfit, NetProfit, Eps, NetAssetPerShare]

  /** The columns add_growth_rates may write. */
  const GrowthFields: set<Field> := set m | m in GrowthMetrics :: YoYGrowth(m)

  /** Growth of one cell against the previous one, in percent; NaN unless both values
      are present and the previous one is not zero. Reading it back recovers the value. */
  function GrowthCell(prev: Option<real>, curr: Option<real>): (g: Option<real>)
    ensures g.Some? <==> prev.Some? && curr.Some? && prev.value != 0.0
    ensures g.Some? ==> curr.value == prev.value * (1.0 + g.value / 100.0)
  {
    if prev.Some? && prev.value != 0.0 && curr.Some? then Some(Percent(prev.value, curr.value)) else None
  }

  /** `(curr - prev) / prev * 100`; applying the change to prev gives curr back. */
  function Percent(prev: real, curr: real): (g: real)
    requires prev != 0.0
    ensures curr == prev * (1.0 + g / 100.0)
  {
    var g := (curr - prev) / prev * 100.0;
    assert prev * (1.0 + g / 100.0) == prev + (curr - prev) by {
      assert g / 100.0 == (curr - prev) / prev;
    }
    g
  }

  /** Growth is grouped when both Industry and Quarter are columns. */
  predicate Grouped(t: Table) {
    t.hasIndustry && t.hasQuarter
  }

  /** The last row before position n whose group key is k. */
  function LastWithKey(rows: seq<Row>, k: (string, string), n: nat): (p: Option<nat>)
    requires n <= |rows|
    ensures p.Some? ==> p.value < n && Key(rows[p.value]) == k
    ensures p.Some? ==> forall i :: p.value < i < n ==> Key(rows[i]) != k
    ensures p.None? ==> forall i :: 0 <= i < n ==> Key(rows[i]) != k
    decreases n
  {
    if n == 0 then None
    else if Key(rows[n - 1]) == k then Some(n - 1)
    else LastWithKey(rows, k, n - 1)
  }

  /** The row growth at position j is measured against: the previous row of its group,
      or, without grouping columns, simply the previous row. */
  function Previous(rows: seq<Row>, grouped: bool, j: nat): (p: Option<nat>)
    requires j < |rows|
    ensures p.Some? ==> p.value < j
  {
    if grouped then LastWithKey(rows, Key(rows[j]), j)
    else if j == 0 then None else Some(j - 1)
  }

  /** The growth cell of metric m at position j. */
  function GrowthAt(rows: seq<Row>, m: Metric, grouped: bool, j: nat): Option<real>
    requires j < |rows|
  {
    match Previous(rows, grouped, j)
    case None => None
    case Some(p) => GrowthCell(Cell(rows[p], Value(m)), Cell(rows[j], Value(m)))
  }

  function GrowthColumn(rows: seq<Row>, m: Metric, grouped: bool): (col: seq<Option<real>>)
    ensures |col| == |rows|
    ensures forall j :: 0 <= j < |rows| ==> col[j] == GrowthAt(rows, m, grouped, j)
  {
    seq(|rows|, j requires 0 <= j < |rows| => GrowthAt(rows, m, grouped, j))
  }

  /** Positions below n whose group key is k, ascending: the index of one group of
      `groupby(['Industry', 'Quarter'])`. */
  function IndicesWithKey(rows: seq<Row>, k: (string, string), n: nat): (idx: seq<nat>)
    requires n <= |rows|
    ensures forall p :: 0 <= p < |idx| ==> idx[p] < n && Key(rows[idx[p]]) == k
    ensures forall p, q :: 0 <= p < q < |idx| ==> idx[p] < idx[q]
    ensures forall j :: 0 <= j < n && Key(rows[j]) == k ==> j in idx
    decreases n
  {
    if n == 0 then []
    else IndicesWithKey(rows, k, n - 1) + (if Key(rows[n - 1]) == k then [n - 1] else [])
  }

  function KeysOf(rows: seq<Row>): set<(string, string)> {
    set j | 0 <= j < |rows| :: Key(rows[j])
  }

  /** Within one group, the row before a member is the member listed before it. */
  lemma GroupPredecessor(rows: seq<Row>, k: (string, string), p: nat)
    requires p < |IndicesWithKey(rows, k, |rows|)|
    ensures var idx := IndicesWithKey(rows, k, |rows|);
      LastWithKey(rows, k, idx[p]) == if p == 0 then None else Some(idx[p - 1])
  {
    var idx := IndicesWithKey(rows, k, |rows|);
    var last := LastWithKey(rows, k, idx[p]);
    if last.Some? {
      var q := last.value;
      assert q in idx;
      var r :| 0 <= r < |idx| && idx[r] == q;
      assert r < p;
    }
  }

  lemma GroupNonEmpty(rows: seq<Row>, k: (string, string))
    requires k in KeysOf(rows)
    ensures |IndicesWithKey(rows, k, |rows|)| > 0
  {
    var j :| 0 <= j < |rows| && Key(rows[j]) == k;
    assert j in IndicesWithKey(rows, k, |rows|);
  }

  /** Cells of the growth column that are final: those of the groups in `done`. */
  predicate FilledFor(a: seq<Option<real>>, target: seq<Option<real>>, rows: seq<Row>, done: set<(string, string)>)
    requires |a| == |target| == |rows|
  {
    forall j :: 0 <= j < |rows| ==> a[j] == if Key(rows[j]) in done then target[j] else None
  }

  /** One iteration of `for _, group in groupby(...)`: walk the group (positions idx,
      in order) and set each cell whose predecessor in the group is present and non-zero. */
  method FillGroup(a: array<Option<real>>, rows: seq<Row>, m: Metric, k: (string, string), idx: seq<nat>)
    requires a.Length == |rows| && |idx| > 0
    requires forall p :: 0 <= p < |idx| ==> idx[p] < |rows| && Key(rows[idx[p]]) == k
    requires forall p, q :: 0 <= p < q < |idx| ==> idx[p] < idx[q]
    requires forall p :: 0 <= p < |idx| ==> a[idx[p]] == None
    modifies a
    ensures forall j :: 0 <= j < |rows| && Key(rows[j]) != k ==> a[j] == old(a[j])
    ensures forall p :: 0 <= p < |idx| ==> a[idx[p]] == if 0 < p then InGroup(rows, m, idx, p) else None
  {
    for i := 1 to |idx|
      invariant forall j :: 0 <= j < |rows| && Key(rows[j]) != k ==> a[j] == old(a[j])
      invariant forall p :: 0 <= p < |idx| ==> a[idx[p]] == if 0 < p < i then InGroup(rows, m, idx, p) else None
    {
      var curr := Cell(rows[idx[i]], Value(m));
      var prev := Cell(rows[idx[i - 1]], Value(m));
      if prev.Some? && prev.value != 0.0 && curr.Some? {
        a[idx[i]] := Some(Percent(prev.value, curr.value));
      }
    }
  }

  /** Growth of the p-th member of a group against the member before it. */
  function InGroup(rows: seq<Row>, m: Metric, idx: seq<nat>, p: nat): Option<real>
    requires 0 < p < |idx| && forall q :: 0 <= q < |idx| ==> idx[q] < |rows|
  {
    GrowthCell(Cell(rows[idx[p - 1]], Value(m)), Cell(rows[idx[p]], Value(m)))
  }

  /** The growth of a group member is its growth against the member listed before it. */
  lemma GroupTarget(rows: seq<Row>, m: Metric, k: (string, string), p: nat)
    requires p < |IndicesWithKey(rows, k, |rows|)|
    ensures var idx := IndicesWithKey(rows, k, |rows|);
      GrowthAt(rows, m, true, idx[p]) == if 0 < p then InGroup(rows, m, idx, p) else None
  {
    GroupPredecessor(rows, k, p);
  }

  lemma GroupFilled(before: seq<Option<real>>, after: seq<Option<real>>, target: seq<Option<real>>, rows: seq<Row>, m: Metric,
                    k: (string, string), idx: seq<nat>, done: set<(string, string)>)
    requires target == GrowthColumn(rows, m, true)
    requires |before| == |after| == |rows| && FilledFor(before, target, rows, done)
    requires idx == IndicesWithKey(rows, k, |rows|)
    requires forall j :: 0 <= j < |rows| && Key(rows[j]) != k ==> after[j] == before[j]
    requires forall p :: 0 <= p < |idx| ==> after[idx[p]] == if 0 < p then InGroup(rows, m, idx, p) else None
    ensures FilledFor(after, target, rows, done + {k})
  {
    forall j | 0 <= j < |rows|
      ensures after[j] == if Key(rows[j]) in done + {k} then target[j] else None
    {
      if Key(rows[j]) == k {
        assert j in idx;
        var p :| 0 <= p < |idx| && idx[p] == j;
        GroupTarget(rows, m, k, p);
      } else {
        assert after[j] == before[j];
      }
    }
  }

  /** The growth column of one metric, written cell by cell as the source does: the
      column starts all NaN and is then filled group by group, or, without grouping
      columns, row by row against the previous row. */
  method GrowthColumnOf(rows: seq<Row>, m: Metric, grouped: bool) returns (col: seq<Option<real>>)
    ensures col == GrowthColumn(rows, m, grouped)
  {
    var a := new Option<real>[|rows|](_ => None);
    if grouped {
      ghost var target := GrowthColumn(rows, m, true);
      FillGroups(a, rows, m, target);
      col := a[..];
      FilledColumn(col, target, rows);
    } else {
      FillInOrder(a, rows, m);
      col := a[..];
    }
  }

  lemma FilledColumn(col: seq<Option<real>>, target: seq<Option<real>>, rows: seq<Row>)
    requires |col| == |target| == |rows| && FilledFor(col, target, rows, KeysOf(rows))
    ensures col == target
  {
    assert forall j :: 0 <= j < |rows| ==> Key(rows[j]) in KeysOf(rows);
  }

  lemma GroupStillEmpty(a: seq<Option<real>>, target: seq<Option<real>>, rows: seq<Row>, k: (string, string),
                        idx: seq<nat>, done: set<(string, string)>)
    requires |a| == |target| == |rows| && FilledFor(a, target, rows, done) && k !in done
    requires forall p :: 0 <= p < |idx| ==> idx[p] < |rows| && Key(rows[idx[p]]) == k
    ensures forall p :: 0 <= p < |idx| ==> a[idx[p]] == None
  {
  }

  /** One group, taken from the column with the groups `done` already filled. */
  method NextGroup(a: array<Option<real>>, rows: seq<Row>, m: Metric, k: (string, string),
                   ghost target: seq<Option<real>>, ghost done: set<(string, string)>)
    requires a.Length == |rows| && target == GrowthColumn(rows, m, true)
    requires k in KeysOf(rows) && k !in done && FilledFor(a[..], target, rows, done)
    modifies a
    ensures FilledFor(a[..], target, rows, done + {k})
  {
    var idx := IndicesWithKey(rows, k, |rows|);
    GroupNonEmpty(rows, k);
    ghost var before := a[..];
    GroupStillEmpty(before, target, rows, k, idx, done);
    FillGroup(a, rows, m, k, idx);
    GroupFilled(before, a[..], target, rows, m, k, idx, done);
  }

  /** `for _, group in groupby(['Industry', 'Quarter'])`, over a column of NaN. */
  method FillGroups(a: array<Option<real>>, rows: seq<Row>, m: Metric, ghost target: seq<Option<real>>)
    requires a.Length == |rows| && forall j :: 0 <= j < a.Length ==> a[j] == None
    requires target == GrowthColumn(rows, m, true)
    modifies a
    ensures FilledFor(a[..], target, rows, KeysOf(rows))
  {
    var remaining := KeysOf(rows);
    ghost var done: set<(string, string)> := {};
    while remaining != {}
      invariant remaining + done == KeysOf(rows) && remaining !! done
      invariant FilledFor(a[..], target, rows, done)
      decreases remaining
    {
      var k :| k in remaining;
      NextGroup(a, rows, m, k, target, done);
      done := done + {k};
      remaining := remaining - {k};
    }
  }

  /** Without grouping columns: each row against the row before it. */
  method FillInOrder(a: array<Option<real>>, rows: seq<Row>, m: Metric)
    requires a.Length == |rows| && forall j :: 0 <= j < a.Length ==> a[j] == None
    modifies a
    ensures a[..] == GrowthColumn(rows, m, false)
  {
    var i := 1;
    while i < |rows|
      invariant 1 <= i
      invariant forall j :: 0 <= j < |rows| ==> a[j] == if j < i then GrowthAt(rows, m, false, j) else None
    {
      var curr := Cell(rows[i], Value(m));
      var prev := Cell(rows[i - 1], Value(m));
      if prev.Some? && prev.value != 0.0 && curr.Some? {
        a[i] := Some(Percent(prev.value, curr.value));
      }
      i := i + 1;
    }
  }

  /** Growth at position j is measured against the nearest earlier row of the same
      (Industry, Quarter) group. */
  lemma GrowthAgainstNearest(rows: seq<Row>, m: Metric, i: nat, j: nat)
    requires i < j < |rows| && Key(rows[i]) == Key(rows[j])
    requires forall h :: i < h < j ==> Key(rows[h]) != Key(rows[j])
    ensures GrowthAt(rows, m, true, j) == GrowthCell(Cell(rows[i], Value(m)), Cell(rows[j], Value(m)))
  {
    var last := LastWithKey(rows, Key(rows[j]), j);
    assert last.Some?;
  }

  /** The first row of each group has no growth value. */
  lemma FirstOfGroupHasNoGrowth(rows: seq<Row>, m: Metric, j: nat)
    requires j < |rows| && forall h :: 0 <= h < j ==> Key(rows[h]) != Key(rows[j])
    ensures GrowthAt(rows, m, true, j) == None
  {
  }

  /** Growth depends only on the group keys and the metric's own column. */
  lemma {:induction false} LastWithKeySame(rows1: seq<Row>, rows2: seq<Row>, k: (string, string), n: nat)
    requires n <= |rows1| == |rows2|
    requires forall j :: 0 <= j < |rows1| ==> Key(rows1[j]) == Key(rows2[j])
    ensures LastWithKey(rows1, k, n) == LastWithKey(rows2, k, n)
    decreases n
  {
    if n > 0 {
      LastWithKeySame(rows1, rows2, k, n - 1);
    }
  }

  lemma GrowthColumnSame(rows1: seq<Row>, rows2: seq<Row>, m: Metric, grouped: bool)
    requires |rows1| == |rows2|
    requires forall j :: 0 <= j < |rows1| ==> Key(rows1[j]) == Key(rows2[j])
    requires forall j :: 0 <= j < |rows1| ==> Cell(rows1[j], Value(m)) == Cell(rows2[j], Value(m))
    ensures GrowthColumn(rows1, m, grouped) == GrowthColumn(rows2, m, grouped)
  {
    forall j | 0 <= j < |rows1|
      ensures GrowthAt(rows1, m, grouped, j) == GrowthAt(rows2, m, grouped, j)
    {
      LastWithKeySame(rows1, rows2, Key(rows1[j]), j);
    }
  }

  /** The growth columns of the metrics ms, computed one after the other. */
  function AddGrowthColumns(s: Table, ms: seq<Metric>): (r: Table)
    decreases |ms|
  {
    if ms == [] then s
    else
      var p := AddGrowthColumns(s, ms[..|ms| - 1]);
      var m := ms[|ms| - 1];
      if Value(m) in p.fields then SetColumn(p, YoYGrowth(m), GrowthColumn(p.rows, m, Grouped(p))) else p
  }

  /** Adding growth columns keeps the key columns and the row count, and adds exactly
      the growth column of each present metric. */
  lemma {:induction false} AddGrowthShape(s: Table, ms: seq<Metric>)
    requires forall i :: 0 <= i < |ms| ==> ms[i] in GrowthMetrics
    ensures var r := AddGrowthColumns(s, ms);
      && r.hasYear == s.hasYear && r.hasQuarter == s.hasQuarter
      && r.hasIndustry == s.hasIndustry && r.hasCurrency == s.hasCurrency
      && |r.rows| == |s.rows|
      && (WellFormed(s) ==> WellFormed(r))
      && (forall f :: f !in GrowthFields ==> (f in r.fields <==> f in s.fields))
      && (forall m :: m in ms && Value(m) in s.fields ==> YoYGrowth(m) in r.fields)
    decreases |ms|
  {
    if ms != [] {
      var init := ms[..|ms| - 1];
      var m := ms[|ms| - 1];
      AddGrowthShape(s, init);
      assert YoYGrowth(m) in GrowthFields;
      assert Value(m) !in GrowthFields;
      forall m' | m' in ms && m' != m ensures m' in init {
      }
    }
  }

  /** Adding growth columns changes no cell outside the growth columns. */
  lemma {:induction false} AddGrowthKeepsCells(s: Table, ms: seq<Metric>)
    requires forall i :: 0 <= i < |ms| ==> ms[i] in GrowthMetrics
    ensures var r := AddGrowthColumns(s, ms);
      |r.rows| == |s.rows| && forall j :: 0 <= j < |s.rows| ==> SameOutside(s.rows[j], r.rows[j], GrowthFields)
    decreases |ms|
  {
    if ms != [] {
      var init := ms[..|ms| - 1];
      var m := ms[|ms| - 1];
      AddGrowthShape(s, init);
      AddGrowthKeepsCells(s, init);
      assert YoYGrowth(m) in GrowthFields;
    }
  }

  /** The growth column of each present metric holds the growth of the rows the columns
      were added to. */
  lemma {:induction false} AddGrowthCells(s: Table, ms: seq<Metric>)
    requires forall i :: 0 <= i < |ms| ==> ms[i] in GrowthMetrics
    ensures var r := AddGrowthColumns(s, ms);
      |r.rows| == |s.rows| &&
      forall m, j :: m in ms && Value(m) in s.fields && 0 <= j < |s.rows| ==>
        Cell(r.rows[j], YoYGrowth(m)) == GrowthColumn(s.rows, m, Grouped(s))[j]
    decreases |ms|
  {
    if ms != [] {
      var init := ms[..|ms| - 1];
      var m := ms[|ms| - 1];
      AddGrowthShape(s, init);
      AddGrowthCells(s, init);
      var p := AddGrowthColumns(s, init);
      assert Value(m) !in GrowthFields;
      if Value(m) in p.fields {
        AddGrowthKeepsCells(s, init);
        RowsAgreeOnMetric(s.rows, p.rows, m);
        GrowthColumnSame(p.rows, s.rows, m, Grouped(s));
        forall m' | m' in ms && m' != m ensures m' in init {
        }
      } else {
        forall m' | m' in ms && Value(m') in s.fields ensures m' in init {
        }
      }
    }
  }

  lemma RowsAgreeOnMetric(a: seq<Row>, b: seq<Row>, m: Metric)
    requires |a| == |b| && forall j :: 0 <= j < |a| ==> SameOutside(a[j], b[j], GrowthFields)
    ensures forall j :: 0 <= j < |a| ==> Key(b[j]) == Key(a[j]) && Cell(b[j], Value(m)) == Cell(a[j], Value(m))
  {
    assert Value(m) !in GrowthFields;
  }

  /** The rows in the order growth is computed in: by year when there is a Year column. */
  function Sorted(t: Table): Table {
    if t.hasYear then t.(rows := SortByYear(t.rows)) else t
  }

  /** With Industry and Quarter but no Year column, sorting a group by Year raises a
      KeyError as soon as a growth metric is present and there is a row to group. */
  predicate GrowthRaises(t: Table) {
    !t.hasYear && Grouped(t) && |t.rows| > 0 && exists m :: m in GrowthMetrics && Value(m) in t.fields
  }

  /** add_growth_rates: the input itself when it raises, the sorted rows with growth
      columns otherwise. */
  function WithGrowth(t: Table): Table {
    if GrowthRaises(t) then t else AddGrowthColumns(Sorted(t), GrowthMetrics)
  }

  /** add_growth_rates, metric by metric as the source's loop runs. */
  method AddGrowthRates(data: Table) returns (r: Table)
    ensures r == WithGrowth(data)
  {
    var t := data;
    if t.hasYear {
      t := t.(rows := SortByYear(t.rows));
    }
    ghost var sorted := t;
    for k := 0 to |GrowthMetrics|
      invariant t == AddGrowthColumns(sorted, GrowthMetrics[..k])
      invariant !data.hasYear && Grouped(data) && |data.rows| > 0 ==>
        forall i :: 0 <= i < k ==> Value(GrowthMetrics[i]) !in data.fields
    {
      var m := GrowthMetrics[k];
      assert GrowthMetrics[..k + 1][..k] == GrowthMetrics[..k];
      AddGrowthShape(sorted, GrowthMetrics[..k]);
      if Value(m) in t.fields {
        if Grouped(t) && !t.hasYear && |t.rows| > 0 {
          // group.sort_values('Year') on a frame without a Year column
          assert Value(m) !in GrowthFields;
          assert GrowthRaises(data);
          return data;
        }
        var col := GrowthColumnOf(t.rows, m, Grouped(t));
        t := SetColumn(t, YoYGrowth(m), col);
      }
    }
    assert GrowthMetrics[..|GrowthMetrics|] == GrowthMetrics;
    r := t;
  }

  /** When add_growth_rates does not raise, its rows are those of the input, ordered by
      year when there is a Year column, and the table stays well formed. */
  lemma GrowthRatesOrder(t: Table)
    requires WellFormed(t) && !GrowthRaises(t)
    ensures var r := WithGrowth(t); var s := Sorted(t).rows;
      && |r.rows| == |t.rows| && multiset(s) == multiset(t.rows)
      && (t.hasYear ==> SortedByYear(s))
      && WellFormed(r)
  {
    if t.hasYear {
      SortKeepsWellFormed(t);
    }
    AddGrowthShape(Sorted(t), GrowthMetrics);
  }

  /** When add_growth_rates does not raise, only growth columns change, and the growth
      column of each present metric holds, row by row, the growth against the previous
      row of the same group (or the previous row, without grouping columns). */
  lemma GrowthRatesCells(t: Table)
    requires !GrowthRaises(t)
    ensures var r := WithGrowth(t); var s := Sorted(t).rows;
      && |r.rows| == |s|
      && (forall j :: 0 <= j < |s| ==> SameOutside(s[j], r.rows[j], GrowthFields))
      && (forall m, j :: m in GrowthMetrics && Value(m) in t.fields && 0 <= j < |s| ==>
            YoYGrowth(m) in r.fields && Cell(r.rows[j], YoYGrowth(m)) == GrowthColumn(s, m, Grouped(t))[j])
  {
    var s := Sorted(t);
    var r := AddGrowthColumns(s, GrowthMetrics);
    assert WithGrowth(t) == r;
    assert Grouped(s) == Grouped(t) && s.fields == t.fields;
    AddGrowthShape(s, GrowthMetrics);
    AddGrowthKeepsCells(s, GrowthMetrics);
    AddGrowthCells(s, GrowthMetrics);
  }

  /** One growth cell of the result: the growth of row j of the ordered rows against the
      row growth is measured against. */
  lemma GrowthRatesCell(t: Table, m: Metric, j: nat)
    requires !GrowthRaises(t) && m in GrowthMetrics && Value(m) in t.fields && j < |t.rows|
    ensures j < |WithGrowth(t).rows| && j < |Sorted(t).rows|
    ensures Cell(WithGrowth(t).rows[j], YoYGrowth(m)) == GrowthAt(Sorted(t).rows, m, Grouped(t), j)
  {
    GrowthRatesCells(t);
    var s := Sorted(t).rows;
    var r := WithGrowth(t);
    assert Cell(r.rows[j], YoYGrowth(m)) == GrowthColumn(s, m, Grouped(t))[j];
  }

  /** Revenue 100, 110, 121 over 2022 to 2024 in one industry and quarter. */
  function RevenueSeries(industry: string, quarter: string, currency: string): Table {
    Table(true, true, true, true, {Value(Revenue)}, [
      Row(2022, quarter, industry, currency, map[Value(Revenue) := Some(100.0)]),
      Row(2023, quarter, industry, currency, map[Value(Revenue) := Some(110.0)]),
      Row(2024, quarter, industry, currency, map[Value(Revenue) := Some(121.0)])])
  }

  lemma RevenueSeriesOrdered(industry: string, quarter: string, currency: string)
    ensures var t := RevenueSeries(industry, quarter, currency);
      WellFormed(t) && !GrowthRaises(t) && Sorted(t).rows == t.rows
  {
    var t := RevenueSeries(industry, quarter, currency);
    YearsInOrder(t.rows);
    RevenueSeriesWellFormed(t, 100.0, 110.0, 121.0);
  }

  lemma RevenueSeriesWellFormed(t: Table, a: real, b: real, c: real)
    requires t.fields == {Value(Revenue)} && |t.rows| == 3
    requires t.rows[0].cells == map[Value(Revenue) := Some(a)]
    requires t.rows[1].cells == map[Value(Revenue) := Some(b)]
    requires t.rows[2].cells == map[Value(Revenue) := Some(c)]
    ensures WellFormed(t)
  {
  }

  lemma YearsInOrder(rows: seq<Row>)
    requires |rows| == 3 && rows[0].year == 2022 && rows[1].year == 2023 && rows[2].year == 2024
    ensures SortByYear(rows) == rows
  {
    forall i, j | 0 <= i < j < |rows| ensures rows[i].year <= rows[j].year {
    }
    SortSorted(rows);
  }

  lemma RevenueSeriesGrowth(industry: string, quarter: string, currency: string)
    ensures var rows := RevenueSeries(industry, quarter, currency).rows;
      && GrowthAt(rows, Revenue, true, 0) == None
      && GrowthAt(rows, Revenue, true, 1) == Some(10.0)
      && GrowthAt(rows, Revenue, true, 2) == Some(10.0)
  {
    var rows := RevenueSeries(industry, quarter, currency).rows;
    GrowthAgainstNearest(rows, Revenue, 0, 1);
    GrowthAgainstNearest(rows, Revenue, 1, 2);
    assert Percent(100.0, 110.0) == 10.0;
    assert Percent(110.0, 121.0) == 10.0;
  }

  /** The worked series of the documentation: revenue 100, 110, 121 over three years of
      one industry and quarter grows by NaN, 10 % and 10 %. */
  lemma GrowthSeriesExample(industry: string, quarter: string, currency: string)
    ensures var r := WithGrowth(RevenueSeries(industry, quarter, currency));
      |r.rows| == 3
      && Cell(r.rows[0], YoYGrowth(Revenue)) == None
      && Cell(r.rows[1], YoYGrowth(Revenue)) == Some(10.0)
      && Cell(r.rows[2], YoYGrowth(Revenue)) == Some(10.0)
  {
    var t := RevenueSeries(industry, quarter, currency);
    RevenueSeriesOrdered(industry, quarter, currency);
    RevenueSeriesGrowth(industry, quarter, currency);
    GrowthRatesOrder(t);
    assert Revenue in GrowthMetrics;
    GrowthRatesCell(t, Revenue, 0);
    GrowthRatesCell(t, Revenue, 1);
    GrowthRatesCell(t, Revenue, 2);
  }

  // ---------------------------------------------------------------------------
  // Growth cells written by row label, as the source writes them
  // ---------------------------------------------------------------------------

  /* The source stores each growth value with `.at[label, growth_col]`. A Table has no
     row index, and the functions above write by position, which is what `.at` does on
     a frame whose labels are all different. The callers concatenate one-row frames
     without `ignore_index`, so every row carries the label 0, and `.at` on a repeated
     label sets every row that carries it. The members below model the writes by label
     over an explicit list of labels, one per row. */

  /** No two rows share a label. */
  predicate DistinctLabels(labels: seq<int>) {
    forall i, j :: 0 <= i < |labels| && 0 <= j < |labels| && labels[i] == labels[j] ==> i == j
  }

  /** `.at[name, col] = v`: every row carrying the label `name` gets v, the others keep their
      cell. With distinct labels this is the write of one position. */
  function AtLabel(col: seq<Option<real>>, labels: seq<int>, name: int, v: real): (r: seq<Option<real>>)
    requires |labels| == |col|
    ensures |r| == |col|
    ensures forall j :: 0 <= j < |col| ==> r[j] == if labels[j] == name then Some(v) else col[j]
  {
    seq(|col|, j requires 0 <= j < |col| => if labels[j] == name then Some(v) else col[j])
  }

  /** The first n steps of one group's loop (positions idx, in order), each present
      growth written at its row's label. */
  function GroupAtLabels(col: seq<Option<real>>, labels: seq<int>, rows: seq<Row>, m: Metric, idx: seq<nat>, n: nat)
    : (r: seq<Option<real>>)
    requires |col| == |labels| == |rows| && n <= |idx|
    requires forall q :: 0 <= q < |idx| ==> idx[q] < |rows|
    ensures |r| == |col|
    decreases n
  {
    if n <= 1 then col
    else
      var c := GroupAtLabels(col, labels, rows, m, idx, n - 1);
      var g := InGroup(rows, m, idx, n - 1);
      if g.Some? then AtLabel(c, labels, labels[idx[n - 1]], g.value) else c
  }

  /** The grouped loop as written, over the group keys in the order groupby lists them. */
  function GroupsAtLabels(col: seq<Option<real>>, labels: seq<int>, rows: seq<Row>, m: Metric, keys: seq<(string, string)>)
    : (r: seq<Option<real>>)
    requires |col| == |labels| == |rows|
    ensures |r| == |col|
    decreases |keys|
  {
    if keys == [] then col
    else
      var idx := IndicesWithKey(rows, keys[0], |rows|);
      GroupsAtLabels(GroupAtLabels(col, labels, rows, m, idx, |idx|), labels, rows, m, keys[1..])
  }

  /** The ungrouped loop as written: steps 1 to n - 1, each row against the row before. */
  function InOrderAtLabels(col: seq<Option<real>>, labels: seq<int>, rows: seq<Row>, m: Metric, n: nat)
    : (r: seq<Option<real>>)
    requires |col| == |labels| == |rows| && n <= |rows|
    ensures |r| == |col|
    decreases n
  {
    if n <= 1 then col
    else
      var c := InOrderAtLabels(col, labels, rows, m, n - 1);
      var g := GrowthAt(rows, m, false, n - 1);
      if g.Some? then AtLabel(c, labels, labels[n - 1], g.value) else c
  }

  /** With distinct labels, the first n steps of a group's loop set exactly the members
      1 to n - 1 that have a growth, and no row outside the group. */
  lemma {:induction false} GroupAtLabelsDistinct(col: seq<Option<real>>, labels: seq<int>, rows: seq<Row>, m: Metric,
                                                 idx: seq<nat>, n: nat)
    requires |col| == |labels| == |rows| && DistinctLabels(labels) && n <= |idx|
    requires forall q :: 0 <= q < |idx| ==> idx[q] < |rows|
    requires forall p, q :: 0 <= p < q < |idx| ==> idx[p] < idx[q]
    ensures var r := GroupAtLabels(col, labels, rows, m, idx, n);
      && (forall j :: 0 <= j < |rows| && j !in idx ==> r[j] == col[j])
      && (forall p :: 0 <= p < |idx| ==>
            r[idx[p]] == if 0 < p < n && InGroup(rows, m, idx, p).Some? then InGroup(rows, m, idx, p) else col[idx[p]])
    decreases n
  {
    if n > 1 {
      GroupAtLabelsDistinct(col, labels, rows, m, idx, n - 1);
      var c := GroupAtLabels(col, labels, rows, m, idx, n - 1);
      var r := GroupAtLabels(col, labels, rows, m, idx, n);
      var g := InGroup(rows, m, idx, n - 1);
      var last := idx[n - 1];
      if g.Some? {
        forall j | 0 <= j < |rows|
          ensures r[j] == if j == last then g else c[j]
        {
          if labels[j] == labels[last] {
            assert j == last;
          }
        }
      }
      forall p | 0 <= p < |idx| && p != n - 1
        ensures idx[p] != last
      {
      }
    }
  }

  /** With distinct labels, one group's loop over a group that is still empty fills it
      as the positional writes do. */
  lemma GroupAtLabelsFills(col: seq<Option<real>>, labels: seq<int>, rows: seq<Row>, m: Metric,
                           k: (string, string), done: set<(string, string)>)
    requires |col| == |labels| == |rows| && DistinctLabels(labels) && k !in done
    requires FilledFor(col, GrowthColumn(rows, m, true), rows, done)
    ensures var idx := IndicesWithKey(rows, k, |rows|);
      FilledFor(GroupAtLabels(col, labels, rows, m, idx, |idx|), GrowthColumn(rows, m, true), rows, done + {k})
  {
    var target := GrowthColumn(rows, m, true);
    var idx := IndicesWithKey(rows, k, |rows|);
    var after := GroupAtLabels(col, labels, rows, m, idx, |idx|);
    GroupAtLabelsDistinct(col, labels, rows, m, idx, |idx|);
    GroupStillEmpty(col, target, rows, k, idx, done);
    forall j | 0 <= j < |rows| && Key(rows[j]) != k
      ensures after[j] == col[j]
    {
      assert j !in idx;
    }
    GroupFilled(col, after, target, rows, m, k, idx, done);
  }

  /** The keys of a listing, as a set. */
  function Listed(keys: seq<(string, string)>): (s: set<(string, string)>)
    ensures forall x :: x in s <==> x in keys
    decreases |keys|
  {
    if keys == [] then {} else {keys[0]} + Listed(keys[1..])
  }

  /** With distinct labels, the loop over groups that are still empty fills each of them
      as the positional writes do. */
  lemma {:induction false} GroupsAtLabelsDistinct(col: seq<Option<real>>, labels: seq<int>, rows: seq<Row>, m: Metric,
                                                  keys: seq<(string, string)>, done: set<(string, string)>)
    requires |col| == |labels| == |rows| && DistinctLabels(labels)
    requires FilledFor(col, GrowthColumn(rows, m, true), rows, done)
    requires forall i, j :: 0 <= i < j < |keys| ==> keys[i] != keys[j]
    requires forall i :: 0 <= i < |keys| ==> keys[i] !in done
    ensures FilledFor(GroupsAtLabels(col, labels, rows, m, keys), GrowthColumn(rows, m, true), rows, done + Listed(keys))
    decreases |keys|
  {
    if keys != [] {
      var k := keys[0];
      var idx := IndicesWithKey(rows, k, |rows|);
      var after := GroupAtLabels(col, labels, rows, m, idx, |idx|);
      GroupAtLabelsFills(col, labels, rows, m, k, done);
      var rest := keys[1..];
      forall i | 0 <= i < |rest|
        ensures rest[i] !in done + {k}
      {
        assert rest[i] == keys[i + 1];
      }
      GroupsAtLabelsDistinct(after, labels, rows, m, rest, done + {k});
      assert GroupsAtLabels(col, labels, rows, m, keys) == GroupsAtLabels(after, labels, rows, m, rest);
      assert done + {k} + Listed(rest) == done + Listed(keys);
    }
  }

  /** With distinct labels, the grouped writes by label, over every group key once, give
      the growth column. */
  lemma GroupsAtLabelsIsGrowth(labels: seq<int>, rows: seq<Row>, m: Metric, keys: seq<(string, string)>)
    requires |labels| == |rows| && DistinctLabels(labels)
    requires forall i, j :: 0 <= i < j < |keys| ==> keys[i] != keys[j]
    requires forall k :: k in KeysOf(rows) ==> k in keys
    ensures GroupsAtLabels(seq(|rows|, _ => None), labels, rows, m, keys) == GrowthColumn(rows, m, true)
  {
    var empty: seq<Option<real>> := seq(|rows|, _ => None);
    var target := GrowthColumn(rows, m, true);
    GroupsAtLabelsDistinct(empty, labels, rows, m, keys, {});
    var r := GroupsAtLabels(empty, labels, rows, m, keys);
    forall j | 0 <= j < |rows|
      ensures r[j] == target[j]
    {
      assert Key(rows[j]) in KeysOf(rows);
      var i :| 0 <= i < |keys| && keys[i] == Key(rows[j]);
    }
  }

  /** With distinct labels, the ungrouped writes by label give the growth column. */
  lemma {:induction false} InOrderAtLabelsDistinct(labels: seq<int>, rows: seq<Row>, m: Metric, n: nat)
    requires |labels| == |rows| && DistinctLabels(labels) && n <= |rows|
    ensures var r := InOrderAtLabels(seq(|rows|, _ => None), labels, rows, m, n);
      forall j :: 0 <= j < |rows| ==> r[j] == if j < n then GrowthAt(rows, m, false, j) else None
    decreases n
  {
    if n > 1 {
      InOrderAtLabelsDistinct(labels, rows, m, n - 1);
      var empty: seq<Option<real>> := seq(|rows|, _ => None);
      var c := InOrderAtLabels(empty, labels, rows, m, n - 1);
      var r := InOrderAtLabels(empty, labels, rows, m, n);
      forall j | 0 <= j < |rows| && j != n - 1
        ensures r[j] == c[j]
      {
        assert labels[j] != labels[n - 1];
      }
    }
  }

  /** Three rows of one group that all carry the label 0: each write lands on all three
      rows, so the last growth of the group ends up in every row. */
  lemma SharedLabelWrites(rows: seq<Row>, m: Metric, a: real, b: real)
    requires |rows| == 3
    requires InGroup(rows, m, [0, 1, 2], 1) == Some(a) && InGroup(rows, m, [0, 1, 2], 2) == Some(b)
    ensures GroupAtLabels([None, None, None], [0, 0, 0], rows, m, [0, 1, 2], 3) == [Some(b), Some(b), Some(b)]
  {
    var once := GroupAtLabels([None, None, None], [0, 0, 0], rows, m, [0, 1, 2], 2);
    assert once == [Some(a), Some(a), Some(a)];
  }

  /** Three rows of one key form one group, in row order. */
  lemma OneGroupOfThree(rows: seq<Row>, k: (string, string))
    requires |rows| == 3 && Key(rows[0]) == k && Key(rows[1]) == k && Key(rows[2]) == k
    ensures IndicesWithKey(rows, k, 3) == [0, 1, 2]
  {
    var i0 := IndicesWithKey(rows, k, 0);
    var i1 := IndicesWithKey(rows, k, 1);
    var i2 := IndicesWithKey(rows, k, 2);
    assert i0 == [];
    assert i1 == i0 + [0];
    assert i2 == i1 + [1];
    assert IndicesWithKey(rows, k, 3) == i2 + [2];
  }

  /** The revenue series built by concatenating three one-row frames: every row carries
      the label 0. Each write of the grouped loop then lands on all three rows, so the
      first year shows a growth of 10 % where the growth column has NaN. */
  lemma ConcatenatedSeriesGrowth(industry: string, quarter: string, currency: string)
    ensures var rows := RevenueSeries(industry, quarter, currency).rows;
      && GroupsAtLabels([None, None, None], [0, 0, 0], rows, Revenue, [(industry, quarter)])
           == [Some(10.0), Some(10.0), Some(10.0)]
      && GrowthColumn(rows, Revenue, true)[0] == None
  {
    var rows := RevenueSeries(industry, quarter, currency).rows;
    OneGroupOfThree(rows, (industry, quarter));
    RevenueSeriesGrowth(industry, quarter, currency);
    GrowthAgainstNearest(rows, Revenue, 0, 1);
    GrowthAgainstNearest(rows, Revenue, 1, 2);
    SharedLabelWrites(rows, Revenue, 10.0, 10.0);
    assert [(industry, quarter)][1..] == [];
  }

  // ---------------------------------------------------------------------------
  // Derived columns (process_financial_data)
  // ---------------------------------------------------------------------------

  /** `a - b` on two cells: NaN when either is NaN. */
  function Minus(a: Option<real>, b: Option<real>): (r: Option<real>)
    ensures r.Some? <==> a.Some? && b.Some?
    ensures r.Some? ==> r.value + b.value == a.value
  {
    if a.Some? && b.Some? then Some(a.value - b.value) else None
  }

  /** `part / revenue * 100` on two cells: NaN when either is NaN, and also when revenue
      is zero (where pandas gives an infinity). */
  function PercentOf(part: Option<real>, revenue: Option<real>): (r: Option<real>)
    ensures r.Some? <==> part.Some? && revenue.Some? && revenue.value != 0.0
    ensures r.Some? ==> r.value * revenue.value == part.value * 100.0
  {
    if part.Some? && revenue.Some? && revenue.value != 0.0 then Some(part.value / revenue.value * 100.0) else None
  }

  /** The table has (or gets) a Gross_Profit column. */
  predicate HasGross(fs: set<Field>) {
    Value(GrossProfit) in fs || (Value(Revenue) in fs && Value(CostOfSales) in fs)
  }

  /** The table has (or gets) an Operating_Profit column. */
  predicate HasOperating(fs: set<Field>) {
    Value(OperatingProfit) in fs || (HasGross(fs) && Value(OperatingExpenses) in fs)
  }

  /** The margin of metric m is (re)computed: its numerator column and Revenue exist. */
  predicate MarginComputed(fs: set<Field>, m: Metric) {
    Value(Revenue) in fs &&
    match m
    case GrossProfit => HasGross(fs)
    case OperatingProfit => HasOperating(fs)
    case NetProfit => Value(NetProfit) in fs
    case _ => false
  }

  /** Gross profit of a row: the reported one, or revenue minus cost of sales. */
  function GrossOf(fs: set<Field>, r: Row): Option<real> {
    if Value(GrossProfit) in fs then Cell(r, Value(GrossProfit))
    else Minus(Cell(r, Value(Revenue)), Cell(r, Value(CostOfSales)))
  }

  const MarginMetrics: seq<Metric> := [GrossProfit, OperatingProfit, NetProfit]

  /** `df[a] - df[b]`, row by row. */
  function Differences(rows: seq<Row>, a: Field, b: Field): (col: seq<Option<real>>)
    ensures |col| == |rows|
    ensures forall j :: 0 <= j < |rows| ==> col[j] == Minus(Cell(rows[j], a), Cell(rows[j], b))
  {
    seq(|rows|, j requires 0 <= j < |rows| => Minus(Cell(rows[j], a), Cell(rows[j], b)))
  }

  /** `df[f] / df['Revenue'] * 100`, row by row. */
  function Margins(rows: seq<Row>, f: Field): (col: seq<Option<real>>)
    ensures |col| == |rows|
    ensures forall j :: 0 <= j < |rows| ==> col[j] == PercentOf(Cell(rows[j], f), Cell(rows[j], Value(Revenue)))
  {
    seq(|rows|, j requires 0 <= j < |rows| => PercentOf(Cell(rows[j], f), Cell(rows[j], Value(Revenue))))
  }

  /** Gross_Profit = Revenue - Cost_of_Sales, when it is missing and both parts exist. */
  function GrossStep(t: Table): (r: Table)
    ensures r.fields == t.fields + (if HasGross(t.fields) then {Value(GrossProfit)} else {})
    ensures |r.rows| == |t.rows|
  {
    if Value(GrossProfit) !in t.fields && Value(Revenue) in t.fields && Value(CostOfSales) in t.fields
    then SetColumn(t, Value(GrossProfit), Differences(t.rows, Value(Revenue), Value(CostOfSales)))
    else t
  }

  /** Operating_Profit = Gross_Profit - Operating_Expenses, when it is missing and both parts exist. */
  function OperatingStep(t: Table): (r: Table)
    ensures r.fields == t.fields + (if Value(GrossProfit) in t.fields && Value(OperatingExpenses) in t.fields then {Value(OperatingProfit)} else {})
    ensures |r.rows| == |t.rows|
  {
    if Value(OperatingProfit) !in t.fields && Value(GrossProfit) in t.fields && Value(OperatingExpenses) in t.fields
    then SetColumn(t, Value(OperatingProfit), Differences(t.rows, Value(GrossProfit), Value(OperatingExpenses)))
    else t
  }

  /** margin = numerator / Revenue * 100, when both columns exist (overwriting any margin given). */
  function MarginStep(t: Table, m: Metric): (r: Table)
    ensures r.fields == t.fields + (if Value(m) in t.fields && Value(Revenue) in t.fields then {Margin(m)} else {})
    ensures |r.rows| == |t.rows|
  {
    if Value(m) in t.fields && Value(Revenue) in t.fields then SetColumn(t, Margin(m), Margins(t.rows, Value(m))) else t
  }

  /** The table after the derivation steps of process_financial_data, in the source's order. */
  function Derived(t: Table): (r: Table)
    ensures WellFormed(t) ==> WellFormed(r)
    ensures |r.rows| == |t.rows|
    ensures r.hasYear == t.hasYear && r.hasQuarter == t.hasQuarter
    ensures r.hasIndustry == t.hasIndustry && r.hasCurrency == t.hasCurrency
  {
    MarginStep(MarginStep(MarginStep(OperatingStep(GrossStep(t)), GrossProfit), OperatingProfit), NetProfit)
  }

  lemma GrossStepCell(t: Table, j: nat, g: Field)
    requires j < |t.rows|
    ensures var x := GrossStep(t).rows[j]; var fs := t.fields;
      && Cell(x, g) == (if g == Value(GrossProfit) && Value(GrossProfit) !in fs && HasGross(fs)
                        then Minus(Cell(t.rows[j], Value(Revenue)), Cell(t.rows[j], Value(CostOfSales)))
                        else Cell(t.rows[j], g))
      && x.year == t.rows[j].year && Key(x) == Key(t.rows[j])
  {
    var fs := t.fields;
    if Value(GrossProfit) !in fs && Value(Revenue) in fs && Value(CostOfSales) in fs {
      SetColumnCell(t, Value(GrossProfit), Differences(t.rows, Value(Revenue), Value(CostOfSales)), j, g);
    }
  }

  lemma OperatingStepCell(t: Table, j: nat, g: Field)
    requires j < |t.rows|
    ensures var x := OperatingStep(t).rows[j]; var fs := t.fields;
      && Cell(x, g) == (if g == Value(OperatingProfit) && Value(OperatingProfit) !in fs
                           && Value(GrossProfit) in fs && Value(OperatingExpenses) in fs
                        then Minus(Cell(t.rows[j], Value(GrossProfit)), Cell(t.rows[j], Value(OperatingExpenses)))
                        else Cell(t.rows[j], g))
      && x.year == t.rows[j].year && Key(x) == Key(t.rows[j])
  {
    var fs := t.fields;
    if Value(OperatingProfit) !in fs && Value(GrossProfit) in fs && Value(OperatingExpenses) in fs {
      SetColumnCell(t, Value(OperatingProfit), Differences(t.rows, Value(GrossProfit), Value(OperatingExpenses)), j, g);
    }
  }

  lemma MarginStepCell(t: Table, m: Metric, j: nat, g: Field)
    requires j < |t.rows|
    ensures var x := MarginStep(t, m).rows[j]; var fs := t.fields;
      && Cell(x, g) == (if g == Margin(m) && Value(m) in fs && Value(Revenue) in fs
                        then PercentOf(Cell(t.rows[j], Value(m)), Cell(t.rows[j], Value(Revenue)))
                        else Cell(t.rows[j], g))
      && x.year == t.rows[j].year && Key(x) == Key(t.rows[j])
  {
    if Value(m) in t.fields && Value(Revenue) in t.fields {
      SetColumnCell(t, Margin(m), Margins(t.rows, Value(m)), j, g);
    }
  }

  /** A cell of a column other than the margins, after the three margin steps. */
  lemma MarginStepsCell(t2: Table, j: nat, g: Field)
    requires j < |t2.rows| && !g.Margin?
    ensures var x := MarginStep(MarginStep(MarginStep(t2, GrossProfit), OperatingProfit), NetProfit).rows[j];
      Cell(x, g) == Cell(t2.rows[j], g) && x.year == t2.rows[j].year && Key(x) == Key(t2.rows[j])
  {
    var t3 := MarginStep(t2, GrossProfit);
    var t4 := MarginStep(t3, OperatingProfit);
    MarginStepCell(t2, GrossProfit, j, g);
    MarginStepCell(t3, OperatingProfit, j, g);
    MarginStepCell(t4, NetProfit, j, g);
  }

  /** The columns after derivation: the input's, gross and operating profit when they can
      be derived, and each margin whose numerator and Revenue exist; nothing else. */
  lemma DerivedColumns(t: Table)
    ensures var r := Derived(t);
      && t.fields <= r.fields
      && (Value(GrossProfit) in r.fields <==> HasGross(t.fields))
      && (Value(OperatingProfit) in r.fields <==> HasOperating(t.fields))
      && (forall m :: m in MarginMetrics ==> (Margin(m) in r.fields <==> Margin(m) in t.fields || MarginComputed(t.fields, m)))
      && (forall f :: f in r.fields && f !in t.fields ==> f == Value(GrossProfit) || f == Value(OperatingProfit) || f.Margin?)
  {
    var t1 := GrossStep(t);
    var t2 := OperatingStep(t1);
    var t3 := MarginStep(t2, GrossProfit);
    var t4 := MarginStep(t3, OperatingProfit);
    assert Derived(t) == MarginStep(t4, NetProfit);
    DerivedFieldSet(t.fields, t1.fields, t2.fields, t3.fields, t4.fields, Derived(t).fields);
  }

  /** The columns after each derivation step, as sets of fields. */
  lemma DerivedFieldSet(fs: set<Field>, f1: set<Field>, f2: set<Field>, f3: set<Field>, f4: set<Field>, f5: set<Field>)
    requires f1 == fs + (if HasGross(fs) then {Value(GrossProfit)} else {})
    requires f2 == f1 + (if Value(GrossProfit) in f1 && Value(OperatingExpenses) in f1 then {Value(OperatingProfit)} else {})
    requires f3 == f2 + (if Value(GrossProfit) in f2 && Value(Revenue) in f2 then {Margin(GrossProfit)} else {})
    requires f4 == f3 + (if Value(OperatingProfit) in f3 && Value(Revenue) in f3 then {Margin(OperatingProfit)} else {})
    requires f5 == f4 + (if Value(NetProfit) in f4 && Value(Revenue) in f4 then {Margin(NetProfit)} else {})
    ensures fs <= f5
    ensures Value(GrossProfit) in f5 <==> HasGross(fs)
    ensures Value(OperatingProfit) in f5 <==> HasOperating(fs)
    ensures forall m :: m in MarginMetrics ==> (Margin(m) in f5 <==> Margin(m) in fs || MarginComputed(fs, m))
    ensures forall f :: f in f5 && f !in fs ==> f == Value(GrossProfit) || f == Value(OperatingProfit) || f.Margin?
  {
    assert Value(GrossProfit) in f2 <==> HasGross(fs);
    assert Value(OperatingProfit) in f3 <==> HasOperating(fs);
    forall m | m in MarginMetrics
      ensures Margin(m) in f5 <==> Margin(m) in fs || MarginComputed(fs, m)
    {
      assert m == GrossProfit || m == OperatingProfit || m == NetProfit;
    }
  }

  /** Reported columns are never overwritten, and only the margins are recomputed. */
  lemma DerivedKeepsReported(t: Table, j: nat, f: Field)
    requires j < |t.rows| && f in t.fields && !f.Margin?
    ensures Cell(Derived(t).rows[j], f) == Cell(t.rows[j], f)
    ensures Derived(t).rows[j].year == t.rows[j].year && Key(Derived(t).rows[j]) == Key(t.rows[j])
  {
    var t1 := GrossStep(t);
    GrossStepCell(t, j, f);
    OperatingStepCell(t1, j, f);
    MarginStepsCell(OperatingStep(t1), j, f);
  }

  /** A missing gross profit is revenue minus cost of sales; a missing operating profit is
      the (possibly derived) gross profit minus operating expenses. */
  lemma DerivedProfits(t: Table, j: nat)
    requires j < |t.rows|
    ensures var r := Derived(t).rows[j]; var x := t.rows[j];
      && (Value(GrossProfit) !in t.fields && HasGross(t.fields) ==>
            Cell(r, Value(GrossProfit)) == Minus(Cell(x, Value(Revenue)), Cell(x, Value(CostOfSales))))
      && (Value(OperatingProfit) !in t.fields && HasOperating(t.fields) ==>
            Cell(r, Value(OperatingProfit)) == Minus(GrossOf(t.fields, x), Cell(x, Value(OperatingExpenses))))
  {
    var t1 := GrossStep(t);
    var t2 := OperatingStep(t1);
    GrossStepCell(t, j, Value(GrossProfit));
    GrossStepCell(t, j, Value(OperatingProfit));
    GrossStepCell(t, j, Value(OperatingExpenses));
    OperatingStepCell(t1, j, Value(GrossProfit));
    OperatingStepCell(t1, j, Value(OperatingProfit));
    MarginStepsCell(t2, j, Value(GrossProfit));
    MarginStepsCell(t2, j, Value(OperatingProfit));
  }

  /** A margin cell after the three margin steps: recomputed when its numerator and
      Revenue exist, kept otherwise. */
  lemma MarginStepsMargin(t2: Table, j: nat, m: Metric)
    requires j < |t2.rows| && m in MarginMetrics
    ensures var x := MarginStep(MarginStep(MarginStep(t2, GrossProfit), OperatingProfit), NetProfit).rows[j];
      Cell(x, Margin(m)) == (if Value(m) in t2.fields && Value(Revenue) in t2.fields
                             then PercentOf(Cell(t2.rows[j], Value(m)), Cell(t2.rows[j], Value(Revenue)))
                             else Cell(t2.rows[j], Margin(m)))
  {
    var t3 := MarginStep(t2, GrossProfit);
    var t4 := MarginStep(t3, OperatingProfit);
    MarginStepCell(t2, GrossProfit, j, Margin(m));
    MarginStepCell(t3, OperatingProfit, j, Margin(m));
    MarginStepCell(t4, NetProfit, j, Margin(m));
    MarginStepCell(t2, GrossProfit, j, Value(m));
    MarginStepCell(t3, OperatingProfit, j, Value(m));
    MarginStepCell(t2, GrossProfit, j, Value(Revenue));
    MarginStepCell(t3, OperatingProfit, j, Value(Revenue));
  }

  /** Each computed margin is, in the resulting row itself, its numerator over revenue
      times 100; a margin that is not computed keeps its input value. */
  lemma DerivedMargins(t: Table, j: nat, m: Metric)
    requires j < |t.rows| && m in MarginMetrics
    ensures var r := Derived(t).rows[j];
      if MarginComputed(t.fields, m) then
        Cell(r, Margin(m)) == PercentOf(Cell(r, Value(m)), Cell(r, Value(Revenue)))
      else Cell(r, Margin(m)) == Cell(t.rows[j], Margin(m))
  {
    var t1 := GrossStep(t);
    var t2 := OperatingStep(t1);
    GrossStepCell(t, j, Margin(m));
    OperatingStepCell(t1, j, Margin(m));
    assert Value(m) in t2.fields && Value(Revenue) in t2.fields <==> MarginComputed(t.fields, m);
    MarginStepsMargin(t2, j, m);
    MarginStepsCell(t2, j, Value(m));
    MarginStepsCell(t2, j, Value(Revenue));
  }

  /** process_financial_data: derive gross and operating profit where missing, the three
      margins, then the growth columns. */
  method ProcessFinancialData(raw: Table) returns (r: Table)
    ensures r == WithGrowth(Derived(raw))
  {
    var t := DeriveColumns(raw);
    r := AddGrowthRates(t);
  }

  /** The column assignments of process_financial_data, in order. */
  method DeriveColumns(raw: Table) returns (t: Table)
    ensures t == Derived(raw)
  {
    t := DeriveProfits(raw);
    t := DeriveMargins(t);
  }

  /** Gross and operating profit, each only when missing and its parts exist. */
  method DeriveProfits(raw: Table) returns (t: Table)
    ensures t == OperatingStep(GrossStep(raw))
  {
    t := raw;
    if Value(GrossProfit) !in t.fields && Value(Revenue) in t.fields && Value(CostOfSales) in t.fields {
      t := SetColumn(t, Value(GrossProfit), Differences(t.rows, Value(Revenue), Value(CostOfSales)));
    }
    assert t == GrossStep(raw);
    if Value(OperatingProfit) !in t.fields && Value(GrossProfit) in t.fields && Value(OperatingExpenses) in t.fields {
      t := SetColumn(t, Value(OperatingProfit), Differences(t.rows, Value(GrossProfit), Value(OperatingExpenses)));
    }
  }

  /** The three margins, each when its numerator and Revenue exist. */
  method DeriveMargins(t2: Table) returns (t: Table)
    ensures t == MarginStep(MarginStep(MarginStep(t2, GrossProfit), OperatingProfit), NetProfit)
  {
    t := t2;
    if Value(GrossProfit) in t.fields && Value(Revenue) in t.fields {
      t := SetColumn(t, Margin(GrossProfit), Margins(t.rows, Value(GrossProfit)));
    }
    assert t == MarginStep(t2, GrossProfit);
    ghost var t3 := t;
    if Value(OperatingProfit) in t.fields && Value(Revenue) in t.fields {
      t := SetColumn(t, Margin(OperatingProfit), Margins(t.rows, Value(OperatingProfit)));
    }
    assert t == MarginStep(t3, OperatingProfit);
    if Value(NetProfit) in t.fields && Value(Revenue) in t.fields {
      t := SetColumn(t, Margin(NetProfit), Margins(t.rows, Value(NetProfit)));
    }
  }

  // ---------------------------------------------------------------------------
  // Dashboard filter (filter_data)
  // ---------------------------------------------------------------------------

  /** LKR per USD used by the conversion. */
  const UsdToLkr: real := 200.0

  /** A row survives the year and industry selections. An empty year list, or a table
      without the column, does not filter; nor does the industry "All". */
  predicate Keep(t: Table, years: seq<int>, industry: string, x: Row) {
    && (|years| == 0 || !t.hasYear || x.year in years)
    && (industry == "All" || !t.hasIndustry || x.industry == industry)
  }

  function Selected(t: Table, years: seq<int>, industry: string): seq<Row> {
    Filter(t.rows, (x: Row) => Keep(t, years, industry, x))
  }

  /** Conversion happens when USD is selected, there is a Currency column and some
      selected row is in LKR. */
  predicate Converts(t: Table, rows: seq<Row>, currency: string) {
    currency == "USD" && t.hasCurrency && exists i :: 0 <= i < |rows| && rows[i].currency == "LKR"
  }

  /** An LKR amount in USD; multiplying back by the rate restores it. */
  function ToUsd(v: Option<real>): (r: Option<real>)
    ensures r.Some? <==> v.Some?
    ensures r.Some? ==> r.value * UsdToLkr == v.value
  {
    if v.Some? then Some(v.value / UsdToLkr) else None
  }

  /** `df.loc[df['Currency'] == 'LKR', f] /= rate` for one column f. */
  function ConvertColumn(rows: seq<Row>, f: Field): (r: seq<Row>)
    ensures |r| == |rows|
    ensures forall j :: 0 <= j < |rows| ==>
      r[j] == if rows[j].currency == "LKR" then rows[j].(cells := rows[j].cells[f := ToUsd(Cell(rows[j], f))]) else rows[j]
  {
    seq(|rows|, j requires 0 <= j < |rows| =>
      if rows[j].currency == "LKR" then rows[j].(cells := rows[j].cells[f := ToUsd(Cell(rows[j], f))]) else rows[j])
  }

  /** The conversion applied to the first k columns of NumericMetrics that exist. */
  function ConvertPrefix(rows: seq<Row>, fs: set<Field>, k: nat): (r: seq<Row>)
    requires k <= |NumericMetrics|
    ensures |r| == |rows|
    decreases k
  {
    if k == 0 then rows
    else
      var p := ConvertPrefix(rows, fs, k - 1);
      var f := Value(NumericMetrics[k - 1]);
      if f in fs then ConvertColumn(p, f) else p
  }

  /** `df['Currency'] = currency`. */
  function SetCurrency(rows: seq<Row>, currency: string): (r: seq<Row>)
    ensures |r| == |rows|
    ensures forall j :: 0 <= j < |rows| ==> r[j] == rows[j].(currency := currency)
  {
    seq(|rows|, j requires 0 <= j < |rows| => rows[j].(currency := currency))
  }

  /** filter_data: the selected rows, converted to USD when that applies. */
  function Filtered(t: Table, years: seq<int>, industry: string, currency: string): Table {
    var sel := Selected(t, years, industry);
    t.(rows := if Converts(t, sel, currency) then SetCurrency(ConvertPrefix(sel, t.fields, |NumericMetrics|), currency) else sel)
  }

  /** The two selections of filter_data, as the source applies them one after the other. */
  method SelectRows(data: Table, years: seq<int>, industry: string) returns (rows: seq<Row>)
    ensures rows == Selected(data, years, industry)
  {
    rows := data.rows;
    var byYear := |years| > 0 && data.hasYear;
    var byIndustry := industry != "All" && data.hasIndustry;
    if byYear {
      rows := Filter(rows, (x: Row) => x.year in years);
    }
    if byIndustry {
      rows := Filter(rows, (x: Row) => x.industry == industry);
    }
    var keep := (x: Row) => Keep(data, years, industry, x);
    if byYear && byIndustry {
      FilterTwice(data.rows, (x: Row) => x.year in years, (x: Row) => x.industry == industry, keep);
    } else if byYear {
      FilterSame(data.rows, (x: Row) => x.year in years, keep);
    } else if byIndustry {
      FilterSame(data.rows, (x: Row) => x.industry == industry, keep);
    } else {
      FilterKeepsAll(data.rows, keep);
    }
  }

  method FilterData(data: Table, years: seq<int>, industry: string, currency: string) returns (r: Table)
    ensures r == Filtered(data, years, industry, currency)
  {
    var sel := SelectRows(data, years, industry);
    r := data.(rows := sel);
    if currency == "USD" && r.hasCurrency && exists i :: 0 <= i < |r.rows| && r.rows[i].currency == "LKR" {
      for k := 0 to |NumericMetrics|
        invariant r == data.(rows := ConvertPrefix(sel, data.fields, k))
      {
        var f := Value(NumericMetrics[k]);
        if f in r.fields {
          r := r.(rows := ConvertColumn(r.rows, f));
        }
      }
      r := r.(rows := SetCurrency(r.rows, currency));
    }
  }

  /** One cell after converting the first k columns: an LKR row's converted metric is
      divided by the rate, every other cell is kept, and so are the key columns. */
  lemma {:induction false} ConvertPrefixCell(rows: seq<Row>, fs: set<Field>, k: nat, j: nat, g: Field)
    requires k <= |NumericMetrics| && j < |rows|
    ensures var x := ConvertPrefix(rows, fs, k)[j];
      && x.year == rows[j].year && Key(x) == Key(rows[j]) && x.currency == rows[j].currency
      && Cell(x, g) == if rows[j].currency == "LKR" && g in fs && g.Value? && g.m in NumericMetrics[..k]
                       then ToUsd(Cell(rows[j], g)) else Cell(rows[j], g)
    decreases k
  {
    if k > 0 {
      ConvertPrefixCell(rows, fs, k - 1, j, g);
      assert NumericMetrics[..k] == NumericMetrics[..k - 1] + [NumericMetrics[k - 1]];
      assert NumericMetrics[k - 1] !in NumericMetrics[..k - 1];
    }
  }

  /** The rows kept are exactly the input rows passing both selections, each at most as
      often as in the input; conversion changes neither their number nor their keys. */
  lemma FilteredRows(t: Table, years: seq<int>, industry: string, currency: string)
    ensures var r := Filtered(t, years, industry, currency); var sel := Selected(t, years, industry);
      && r.fields == t.fields && r.hasYear == t.hasYear && r.hasIndustry == t.hasIndustry
      && |r.rows| == |sel| <= |t.rows| && multiset(sel) <= multiset(t.rows)
      && (forall x :: x in sel <==> x in t.rows && Keep(t, years, industry, x))
      && (!Converts(t, sel, currency) ==> r.rows == sel)
      && (forall j :: 0 <= j < |sel| ==> r.rows[j].year == sel[j].year && Key(r.rows[j]) == Key(sel[j]))
  {
    var sel := Selected(t, years, industry);
    if Converts(t, sel, currency) {
      forall j | 0 <= j < |sel| {
        ConvertPrefixCell(sel, t.fields, |NumericMetrics|, j, Value(Revenue));
      }
    }
  }

  /** Every row left has a selected year (when years are selected and there is a Year
      column) and the selected industry (unless "All" or there is no Industry column). */
  lemma FilteredMatchesSelection(t: Table, years: seq<int>, industry: string, currency: string)
    ensures var r := Filtered(t, years, industry, currency);
      forall j :: 0 <= j < |r.rows| ==>
        && (|years| > 0 && t.hasYear ==> r.rows[j].year in years)
        && (industry != "All" && t.hasIndustry ==> r.rows[j].industry == industry)
  {
    var sel := Selected(t, years, industry);
    FilteredRows(t, years, industry, currency);
    forall j | 0 <= j < |sel| ensures Keep(t, years, industry, sel[j]) {
      assert sel[j] in sel;
    }
  }

  /** Without a year or industry selection and without USD, the table is returned as is. */
  lemma FilterWithoutSelection(t: Table, currency: string)
    requires currency != "USD"
    ensures Filtered(t, [], "All", currency) == t
  {
    FilterKeepsAll(t.rows, (x: Row) => Keep(t, [], "All", x));
  }

  /** After conversion every row is in the selected currency; each metric cell of a row
      that was in LKR is divided by the rate, and every other cell is kept. */
  lemma FilteredConversion(t: Table, years: seq<int>, industry: string, currency: string, j: nat, g: Field)
    requires Converts(t, Selected(t, years, industry), currency) && j < |Selected(t, years, industry)|
    ensures var r := Filtered(t, years, industry, currency); var x := Selected(t, years, industry)[j];
      && j < |r.rows| && r.rows[j].currency == "USD"
      && Cell(r.rows[j], g) == if x.currency == "LKR" && g in t.fields && g.Value? then ToUsd(Cell(x, g)) else Cell(x, g)
  {
    var sel := Selected(t, years, industry);
    ConvertPrefixCell(sel, t.fields, |NumericMetrics|, j, g);
    assert NumericMetrics[..|NumericMetrics|] == NumericMetrics;
    if g.Value? {
      assert g.m in NumericMetrics by {
        match g.m
        case Revenue => assert NumericMetrics[0] == g.m;
        case CostOfSales => assert NumericMetrics[1] == g.m;
        case GrossProfit => assert NumericMetrics[2] == g.m;
        case OperatingExpenses => assert NumericMetrics[3] == g.m;
        case OperatingProfit => assert NumericMetrics[4] == g.m;
        case NetProfit => assert NumericMetrics[5] == g.m;
        case Eps => assert NumericMetrics[6] == g.m;
        case NetAssetPerShare => assert NumericMetrics[7] == g.m;
      }
    }
  }
}
