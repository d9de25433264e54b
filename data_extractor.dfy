/** The extractor's table of parallel column lists (`financial_data` in
    data_extractor.py): a Year, Quarter, Industry and Currency list and one list per
    statement metric, all of the same length, one entry per extracted row. Values reach it
    through appends and through upserts keyed on the year.

    Regular-expression searches are inputs: for each pattern, the text of its capture
    group, or None when the pattern does not match. Table cells are their `str()` text. */
module DataExtractor {
  import opened Common
  import opened Text
  import opened Frame
  import ExtractorYear

  /** The metric keys of the dictionary. */
  const AllMetrics: set<Metric> :=
    {Revenue, CostOfSales, GrossProfit, OperatingExpenses, OperatingProfit, NetProfit, Eps, NetAssetPerShare}

  lemma EveryMetric(m: Metric)
    ensures m in AllMetrics
  {
  }

  // ---------------------------------------------------------------------------
  // The column lists as a value
  // ---------------------------------------------------------------------------

  /** The contents of `financial_data`; `values[m]` is the list of metric m. */
  datatype Columns = Columns(years: seq<int>, quarters: seq<string>, industries: seq<string>,
                             currencies: seq<string>, values: map<Metric, seq<Option<real>>>)

  /** Every metric has a list, and all lists have the same length. */
  predicate Aligned(c: Columns) {
    && |c.quarters| == |c.years| && |c.industries| == |c.years| && |c.currencies| == |c.years|
    && (forall m :: m in AllMetrics ==> m in c.values)
    && (forall m :: m in c.values ==> |c.values[m]| == |c.years|)
  }

  /** The dictionary as initialised: every list empty. */
  function Empty(): (c: Columns)
    ensures Aligned(c) && |c.years| == 0
  {
    Columns([], [], [], [], map m | m in AllMetrics :: [])
  }

  /** What a new row holds for metric m: the found value, or NaN. */
  function NewCell(found: map<Metric, real>, m: Metric): (v: Option<real>)
    ensures v.Some? <==> m in found
  {
    if m in found then Some(found[m]) else None
  }

  /** A new row for year y: quarter "Annual", industry "All", currency "LKR", the found
      values and NaN for every other metric. The rows before it are kept. */
  function Appended(c: Columns, y: int, found: map<Metric, real>): (r: Columns)
    requires Aligned(c)
    ensures Aligned(r) && |r.years| == |c.years| + 1 && r.values.Keys == c.values.Keys
  {
    var vs := map m | m in c.values :: c.values[m] + [NewCell(found, m)];
    Columns(c.years + [y], c.quarters + ["Annual"], c.industries + ["All"], c.currencies + ["LKR"], vs)
  }

  /** The appended row, and the rows before it kept. */
  lemma AppendedRow(c: Columns, y: int, found: map<Metric, real>)
    requires Aligned(c)
    ensures var r := Appended(c, y, found); var n := |c.years|;
      && r.years[..n] == c.years && r.years[n] == y
      && r.quarters[..n] == c.quarters && r.quarters[n] == "Annual"
      && r.industries[..n] == c.industries && r.industries[n] == "All"
      && r.currencies[..n] == c.currencies && r.currencies[n] == "LKR"
  {
    var r := Appended(c, y, found);
    var n := |c.years|;
    assert r.years[..n] == c.years;
    assert r.quarters[..n] == c.quarters;
    assert r.industries[..n] == c.industries;
    assert r.currencies[..n] == c.currencies;
  }

  /** A metric list gains the new row's cell and keeps the earlier ones. */
  lemma AppendedCells(c: Columns, y: int, found: map<Metric, real>, m: Metric)
    requires Aligned(c) && m in c.values
    ensures var r := Appended(c, y, found);
      r.values[m][..|c.years|] == c.values[m] && r.values[m][|c.years|] == NewCell(found, m)
  {
    var r := Appended(c, y, found);
    assert r.values[m] == c.values[m] + [NewCell(found, m)];
  }

  /** `years.index(y)`: the first position of y. */
  function IndexOf(s: seq<int>, y: int): (i: nat)
    requires y in s
    ensures i < |s| && s[i] == y
    ensures forall h :: 0 <= h < i ==> s[h] != y
    decreases |s|
  {
    if s[0] == y then 0 else 1 + IndexOf(s[1..], y)
  }

  /** The found values for year y: written into the first row of that year when there is
      one, otherwise into a new row. */
  function Upserted(c: Columns, y: int, found: map<Metric, real>): (r: Columns)
    requires Aligned(c)
    ensures Aligned(r) && y in r.years
    ensures |c.years| <= |r.years| <= |c.years| + 1
  {
    if y in c.years then
      var i := IndexOf(c.years, y);
      c.(values := map m | m in c.values :: if m in found then c.values[m][i := Some(found[m])] else c.values[m])
    else Appended(c, y, found)
  }

  /** For a year already present only the found metrics of its first row change: the row
      count, the key lists and every other cell are as before. */
  lemma UpsertExisting(c: Columns, y: int, found: map<Metric, real>)
    requires Aligned(c) && y in c.years
    ensures var r := Upserted(c, y, found); var i := IndexOf(c.years, y);
      && r.years == c.years && r.quarters == c.quarters
      && r.industries == c.industries && r.currencies == c.currencies
      && forall m, h :: m in r.values && 0 <= h < |c.years| ==>
           r.values[m][h] == (if m in found && h == i then Some(found[m]) else c.values[m][h])
  {
  }

  /** For a new year exactly one row is appended, holding the found values. */
  lemma UpsertNew(c: Columns, y: int, found: map<Metric, real>)
    requires Aligned(c) && y !in c.years
    ensures Upserted(c, y, found) == Appended(c, y, found)
  {
  }

  /** One metric list after an upsert into an existing year. */
  lemma UpsertedList(c: Columns, y: int, found: map<Metric, real>, k: Metric)
    requires Aligned(c) && y in c.years && k in c.values
    ensures var r := Upserted(c, y, found);
      && r.years == c.years && r.quarters == c.quarters && r.industries == c.industries
      && r.currencies == c.currencies && r.values.Keys == c.values.Keys
      && r.values[k] == (if k in found then c.values[k][IndexOf(c.years, y) := Some(found[k])] else c.values[k])
  {
  }

  /** A second upsert of the same metric for the same year overwrites the first. */
  lemma UpsertLastWins(c: Columns, y: int, m: Metric, a: real, b: real)
    requires Aligned(c)
    ensures Upserted(Upserted(c, y, map[m := a]), y, map[m := b]) == Upserted(c, y, map[m := b])
  {
    if y in c.years {
      UpsertTwiceExisting(c, y, m, a, b);
    } else {
      UpsertTwiceNew(c, y, m, a, b);
    }
  }

  lemma UpsertTwiceExisting(c: Columns, y: int, m: Metric, a: real, b: real)
    requires Aligned(c) && y in c.years
    ensures Upserted(Upserted(c, y, map[m := a]), y, map[m := b]) == Upserted(c, y, map[m := b])
  {
    var c1 := Upserted(c, y, map[m := a]);
    var r := Upserted(c1, y, map[m := b]);
    var s := Upserted(c, y, map[m := b]);
    EveryMetric(m);
    UpsertedList(c, y, map[m := a], m);
    forall k | k in c.values ensures k in c1.values && r.values[k] == s.values[k] {
      UpsertedList(c, y, map[m := a], k);
      UpsertedList(c1, y, map[m := b], k);
      UpsertedList(c, y, map[m := b], k);
    }
    assert r.values == s.values;
  }

  lemma UpsertTwiceNew(c: Columns, y: int, m: Metric, a: real, b: real)
    requires Aligned(c) && y !in c.years
    ensures Upserted(Upserted(c, y, map[m := a]), y, map[m := b]) == Upserted(c, y, map[m := b])
  {
    var c1 := Appended(c, y, map[m := a]);
    var r := Upserted(c1, y, map[m := b]);
    var s := Appended(c, y, map[m := b]);
    forall k | k in c.values ensures k in c1.values && r.values[k] == s.values[k] {
      UpsertTwiceNewList(c, y, m, a, b, k);
    }
    assert r.values == s.values;
  }

  /** One metric list after the two upserts into a new year. */
  lemma UpsertTwiceNewList(c: Columns, y: int, m: Metric, a: real, b: real, k: Metric)
    requires Aligned(c) && y !in c.years && k in c.values
    ensures var c1 := Appended(c, y, map[m := a]);
      && k in c1.values && c1.years == c.years + [y]
      && Upserted(c1, y, map[m := b]).values[k] == Appended(c, y, map[m := b]).values[k]
  {
    var c1 := Appended(c, y, map[m := a]);
    IndexOfLast(c.years, y);
    UpsertedList(c1, y, map[m := b], k);
    var before := c.values[k];
    assert c1.values[k] == before + [NewCell(map[m := a], k)];
    assert Appended(c, y, map[m := b]).values[k] == before + [NewCell(map[m := b], k)];
    if k == m {
      LastReplaced(before, Some(a), Some(b));
    }
  }

  /** Overwriting the last element of a list. */
  lemma LastReplaced<T>(s: seq<T>, a: T, b: T)
    ensures (s + [a])[|s| := b] == s + [b]
  {
    assert forall i :: 0 <= i < |s| ==> (s + [a])[|s| := b][i] == s[i];
  }

  /** A year appended to a list without it is found at the end. */
  lemma IndexOfLast(s: seq<int>, y: int)
    requires y !in s
    ensures IndexOf(s + [y], y) == |s|
  {
    assert (s + [y])[|s|] == y;
    assert forall h :: 0 <= h < |s| ==> (s + [y])[h] == s[h];
  }

  predicate Distinct(s: seq<int>) {
    forall i, j :: 0 <= i < j < |s| ==> s[i] != s[j]
  }

  /** Upserts never repeat a year. */
  lemma UpsertKeepsYearsDistinct(c: Columns, y: int, found: map<Metric, real>)
    requires Aligned(c) && Distinct(c.years)
    ensures Distinct(Upserted(c, y, found).years)
  {
    if y !in c.years {
      var r := Upserted(c, y, found);
      forall i, j | 0 <= i < j < |r.years| ensures r.years[i] != r.years[j] {
        if j == |c.years| {
          assert r.years[i] == c.years[i];
        } else {
          assert r.years[i] == c.years[i] && r.years[j] == c.years[j];
        }
      }
    }
  }

  // ---------------------------------------------------------------------------
  // The dictionary of lists, updated in place
  // ---------------------------------------------------------------------------

  /** `financial_data`: one list per column, appended to and assigned by index. */
  class FinancialData {
    var years: seq<int>
    var quarters: seq<string>
    var industries: seq<string>
    var currencies: seq<string>
    var values: map<Metric, seq<Option<real>>>

    function Snapshot(): Columns
      reads this
    {
      Columns(years, quarters, industries, currencies, values)
    }

    predicate Valid()
      reads this
    {
      Aligned(Snapshot())
    }

    constructor ()
      ensures Snapshot() == Empty() && Valid()
    {
      years, quarters, industries, currencies := [], [], [], [];
      values := map m | m in AllMetrics :: [];
    }

    /** Appends a row: the key columns, then every metric list. */
    method Append(y: int, found: map<Metric, real>)
      requires Valid()
      modifies this
      ensures Snapshot() == Appended(old(Snapshot()), y, found)
      ensures Valid()
    {
      years := years + [y];
      quarters := quarters + ["Annual"];
      industries := industries + ["All"];
      currencies := currencies + ["LKR"];
      values := ExtendLists(values, found);
    }

    /** The upsert of lines 400-412 and its copies: assign into the first row of year y
        when there is one, otherwise append a row. */
    method Upsert(y: int, found: map<Metric, real>)
      requires Valid()
      modifies this
      ensures Snapshot() == Upserted(old(Snapshot()), y, found)
      ensures Valid()
    {
      if y in years {
        var i := IndexOf(years, y);
        forall m | m in found ensures m in values {
          EveryMetric(m);
        }
        values := AssignLists(values, i, found);
      } else {
        Append(y, found);
      }
    }
  }

  /** The loop over the dictionary's metric keys that appends the found value or NaN to
      each list. */
  method ExtendLists(lists: map<Metric, seq<Option<real>>>, found: map<Metric, real>)
    returns (r: map<Metric, seq<Option<real>>>)
    ensures r == map m | m in lists :: lists[m] + [NewCell(found, m)]
  {
    r := lists;
    var remaining := lists.Keys;
    while remaining != {}
      invariant remaining <= lists.Keys && r.Keys == lists.Keys
      invariant forall m :: m in r ==> r[m] == if m in remaining then lists[m] else lists[m] + [NewCell(found, m)]
      decreases |remaining|
    {
      var m :| m in remaining;
      r := r[m := r[m] + [NewCell(found, m)]];
      remaining := remaining - {m};
    }
  }

  /** `for key, value in found_metrics.items(): financial_data[key][idx] = value`. */
  method AssignLists(lists: map<Metric, seq<Option<real>>>, i: nat, found: map<Metric, real>)
    returns (r: map<Metric, seq<Option<real>>>)
    requires found.Keys <= lists.Keys
    requires forall m :: m in lists ==> i < |lists[m]|
    ensures r == map m | m in lists :: if m in found then lists[m][i := Some(found[m])] else lists[m]
  {
    r := lists;
    var remaining := found.Keys;
    while remaining != {}
      invariant remaining <= found.Keys && r.Keys == lists.Keys
      invariant forall m :: m in r ==> r[m] == if m in found && m !in remaining then lists[m][i := Some(found[m])] else lists[m]
      decreases |remaining|
    {
      var m :| m in remaining;
      r := r[m := r[m][i := Some(found[m])]];
      remaining := remaining - {m};
    }
  }

  // ---------------------------------------------------------------------------
  // Table cells
  // ---------------------------------------------------------------------------

  /** `float(re.sub(r'[^\d.]', '', str(value)))`: None where Python raises ValueError. */
  function CellNumber(s: string): (v: Option<real>)
    ensures v.Some? ==> v.value >= 0.0
  {
    ParseDecimal(CleanNumber(s))
  }

  /** Signs around a number are dropped before the conversion. */
  lemma CleanedExample()
    ensures CellNumber("2.5%") == Some(2.5)
  {
    PercentSignCleaned();
    TwoPointFiveParsed();
  }

  lemma PercentSignCleaned()
    ensures CleanNumber("2.5%") == "2.5"
  {
    var s := "2.5";
    CleanNumberDrops(s, '%', "");
    assert s + ['%'] + "" == "2.5%";
    assert s + "" == s;
    CleanNumberKeepsClean(s);
  }

  lemma TwoPointFiveParsed()
    ensures ParseDecimal("2.5") == Some(2.5)
  {
    var s := "2.5";
    assert PointIndex(s) == 1;
    assert s[..1] == "2" && s[2..] == "5";
    assert ParseNat("2") == 2 by { assert "2"[..0] == ""; }
    assert ParseNat("5") == 5 by { assert "5"[..0] == ""; }
  }

  /** Any character other than a digit or a point, a thousands separator say, is dropped
      before the conversion: "1,234.5" reads as "1234.5" does. */
  lemma {:induction false} SeparatorDropped(a: string, c: char, b: string)
    requires !IsDigit(c) && c != '.'
    ensures CellNumber(a + [c] + b) == CellNumber(a + b)
  {
    CleanNumberDrops(a, c, b);
  }

  /** Whether some cell of the row mentions one of the keywords, in lower case. */
  predicate Mentions(row: seq<string>, keywords: seq<string>) {
    exists i, k :: 0 <= i < |row| && 0 <= k < |keywords| && Contains(Lower(row[i]), keywords[k])
  }

  /** The first of columns 1 to 4, from `col` on, whose number is positive. */
  function FirstPositiveFrom(row: seq<string>, col: nat): (v: Option<real>)
    ensures v.Some? ==> v.value > 0.0
    decreases 5 - col
  {
    if col >= MinInt(5, |row|) then None
    else
      var v := CellNumber(row[col]);
      if v.Some? && v.value > 0.0 then v else FirstPositiveFrom(row, col + 1)
  }

  /** The value looked for next to a keyword: the first positive number among the cells
      after the first one, at most four of them. */
  function FirstPositive(row: seq<string>): (v: Option<real>)
    ensures v.Some? ==> v.value > 0.0
    ensures |row| <= 1 ==> v.None?
  {
    FirstPositiveFrom(row, 1)
  }

  /** Cell j, among columns `col` to 4, holds the number v, and no cell before it in that
      range holds a positive number. */
  predicate FirstAt(row: seq<string>, col: nat, j: nat, v: Option<real>) {
    && col <= j < MinInt(5, |row|) && CellNumber(row[j]) == v
    && forall h :: col <= h < j ==> CellNumber(row[h]).None? || CellNumber(row[h]).value <= 0.0
  }

  /** The value found is the number of some cell among columns 1 to 4, and every cell
      before it in that range holds no positive number. */
  lemma {:induction false} FirstPositiveIsFirst(row: seq<string>, col: nat)
    requires 1 <= col && FirstPositiveFrom(row, col).Some?
    ensures exists j :: FirstAt(row, col, j, FirstPositiveFrom(row, col))
    decreases 5 - col
  {
    var v := CellNumber(row[col]);
    if !(v.Some? && v.value > 0.0) {
      FirstPositiveIsFirst(row, col + 1);
      var j :| FirstAt(row, col + 1, j, FirstPositiveFrom(row, col + 1));
      assert FirstAt(row, col, j, FirstPositiveFrom(row, col));
    } else {
      assert FirstAt(row, col, col, FirstPositiveFrom(row, col));
    }
  }

  /** The column loop `for col_idx in range(1, min(5, len(row)))` with its break. */
  method FirstPositiveCell(row: seq<string>) returns (v: Option<real>)
    ensures v == FirstPositive(row)
  {
    var last := if |row| < 5 then |row| else 5;
    var col := 1;
    while col < last
      invariant 1 <= col
      invariant FirstPositive(row) == FirstPositiveFrom(row, col)
      decreases last - col
    {
      var x := CellNumber(row[col]);
      if x.Some? && x.value > 0.0 {
        return x;
      }
      col := col + 1;
    }
    return None;
  }

  /** What one row of a keyword table yields: when a cell mentions a keyword, the first
      positive number after the first cell. */
  function RowValue(row: seq<string>, keywords: seq<string>): (v: Option<real>)
    ensures v.Some? ==> v.value > 0.0 && |row| >= 2
    ensures !Mentions(row, keywords) ==> v.None?
  {
    if Mentions(row, keywords) then FirstPositive(row) else None
  }

  /** The body of the row loops of process_revenue_table, process_eps_data and
      process_net_asset_data, up to the store. */
  method RowValueOf(row: seq<string>, keywords: seq<string>) returns (v: Option<real>)
    ensures v == RowValue(row, keywords)
  {
    if Mentions(row, keywords) {
      v := FirstPositiveCell(row);
    } else {
      v := None;
    }
  }

  /** The values found in the rows of a table, in row order. */
  function Hits(table: seq<seq<string>>, keywords: seq<string>): (vs: seq<real>)
    ensures |vs| <= |table|
    ensures forall k :: 0 <= k < |vs| ==> vs[k] > 0.0
    decreases |table|
  {
    if table == [] then []
    else
      var v := RowValue(table[|table| - 1], keywords);
      Hits(table[..|table| - 1], keywords) + (if v.Some? then [v.value] else [])
  }

  /** A table of single cells yields no value. */
  lemma {:induction false} NarrowTableHits(table: seq<seq<string>>, keywords: seq<string>)
    requires forall i :: 0 <= i < |table| ==> |table[i]| <= 1
    ensures Hits(table, keywords) == []
    decreases |table|
  {
    if table != [] {
      NarrowTableHits(table[..|table| - 1], keywords);
    }
  }

  // ---------------------------------------------------------------------------
  // Table processors
  // ---------------------------------------------------------------------------

  /** One appended row per value, without looking for the year first. */
  function AppendAll(c: Columns, y: int, m: Metric, vs: seq<real>): (r: Columns)
    requires Aligned(c)
    ensures Aligned(r)
    decreases |vs|
  {
    if vs == [] then c else Appended(AppendAll(c, y, m, vs[..|vs| - 1]), y, map[m := vs[|vs| - 1]])
  }

  /** Rows n, n+1, ... of c are for year y and hold the values vs for metric m. */
  predicate RowsFrom(c: Columns, n: nat, y: int, m: Metric, vs: seq<real>)
    requires Aligned(c)
  {
    && m in c.values && |c.years| == n + |vs|
    && forall k :: 0 <= k < |vs| ==> RowAt(c, n, y, m, vs, k)
  }

  /** Row n + k is for year y and holds vs[k] for metric m. */
  predicate RowAt(c: Columns, n: nat, y: int, m: Metric, vs: seq<real>, k: nat)
    requires Aligned(c) && m in c.values && |c.years| == n + |vs| && k < |vs|
  {
    c.years[n + k] == y && c.values[m][n + k] == Some(vs[k])
  }

  /** Appending one more value extends the run of rows, keeping the rows before it. */
  lemma AppendStep(p: Columns, n: nat, y: int, m: Metric, vs: seq<real>, v: real)
    requires Aligned(p) && RowsFrom(p, n, y, m, vs)
    ensures var r := Appended(p, y, map[m := v]);
      RowsFrom(r, n, y, m, vs + [v]) && r.years[..n] == p.years[..n]
  {
    var r := Appended(p, y, map[m := v]);
    AppendedRow(p, y, map[m := v]);
    AppendedCells(p, y, map[m := v], m);
    var ws := vs + [v];
    assert m in r.values && |r.years| == n + |ws|;
    forall k | 0 <= k < |ws| ensures RowAt(r, n, y, m, ws, k) {
      if k < |vs| {
        assert ws[k] == vs[k];
        assert RowAt(p, n, y, m, vs, k);
        assert r.years[n + k] == r.years[..|p.years|][n + k];
        assert r.values[m][n + k] == r.values[m][..|p.years|][n + k];
      } else {
        assert n + k == |p.years|;
      }
    }
    assert r.years[..n] == r.years[..|p.years|][..n];
    assert RowsFrom(r, n, y, m, ws);
  }

  /** Appending adds one row per value, each for year y holding that value, and keeps
      the rows before. */
  lemma {:induction false} AppendAllRows(c: Columns, y: int, m: Metric, vs: seq<real>)
    requires Aligned(c)
    ensures var r := AppendAll(c, y, m, vs);
      RowsFrom(r, |c.years|, y, m, vs) && r.years[..|c.years|] == c.years
    decreases |vs|
  {
    EveryMetric(m);
    if vs != [] {
      var init := vs[..|vs| - 1];
      AppendAllRows(c, y, m, init);
      AppendStep(AppendAll(c, y, m, init), |c.years|, y, m, init, vs[|vs| - 1]);
      assert init + [vs[|vs| - 1]] == vs;
    }
  }

  /** The revenue table can repeat a year: a value found for a year already present adds
      a second row for it. */
  lemma RevenueTableRepeatsYear(c: Columns, y: int, vs: seq<real>)
    requires Aligned(c) && y in c.years && vs != []
    ensures var r := AppendAll(c, y, Revenue, vs);
      exists i, j :: 0 <= i < j < |r.years| && r.years[i] == y && r.years[j] == y
  {
    AppendAllRows(c, y, Revenue, vs);
    var r := AppendAll(c, y, Revenue, vs);
    var i := IndexOf(c.years, y);
    assert r.years[i] == r.years[..|c.years|][i];
    assert RowAt(r, |c.years|, y, Revenue, vs, 0);
  }

  /** One upsert per value, in order. */
  function UpsertAll(c: Columns, y: int, m: Metric, vs: seq<real>): (r: Columns)
    requires Aligned(c)
    ensures Aligned(r)
    decreases |vs|
  {
    if vs == [] then c else Upserted(UpsertAll(c, y, m, vs[..|vs| - 1]), y, map[m := vs[|vs| - 1]])
  }

  /** Repeated upserts of one metric for one year leave the last value only. */
  lemma {:induction false} UpsertAllLast(c: Columns, y: int, m: Metric, vs: seq<real>)
    requires Aligned(c) && vs != []
    ensures UpsertAll(c, y, m, vs) == Upserted(c, y, map[m := vs[|vs| - 1]])
    decreases |vs|
  {
    var init := vs[..|vs| - 1];
    if init != [] {
      UpsertAllLast(c, y, m, init);
      assert init[|init| - 1] == vs[|vs| - 2];
      UpsertLastWins(c, y, m, vs[|vs| - 2], vs[|vs| - 1]);
    }
  }

  /** After an upsert, the first row of the year holds every found value. */
  lemma UpsertedHolds(c: Columns, y: int, found: map<Metric, real>, m: Metric)
    requires Aligned(c) && m in found
    ensures var r := Upserted(c, y, found);
      m in r.values && r.values[m][IndexOf(r.years, y)] == Some(found[m])
  {
    EveryMetric(m);
    if y in c.years {
      UpsertedList(c, y, found, m);
    } else {
      var r := Appended(c, y, found);
      AppendedRow(c, y, found);
      AppendedCells(c, y, found, m);
      assert IndexOf(r.years, y) == |c.years| by {
        assert forall h :: 0 <= h < |c.years| ==> r.years[h] == c.years[h];
      }
    }
  }

  /** A row's value stored by appending a row (process_revenue_table) or by an upsert
      (process_eps_data, process_net_asset_data); nothing when the row has none. */
  function Stored(c: Columns, y: int, m: Metric, v: Option<real>, append: bool): (r: Columns)
    requires Aligned(c)
    ensures Aligned(r)
  {
    if v.None? then c else if append then Appended(c, y, map[m := v.value]) else Upserted(c, y, map[m := v.value])
  }

  /** The dictionary after the row loop of a keyword table. */
  function TableStored(c: Columns, y: int, m: Metric, table: seq<seq<string>>, keywords: seq<string>, append: bool): (r: Columns)
    requires Aligned(c)
    ensures Aligned(r)
    decreases |table|
  {
    if table == [] then c
    else Stored(TableStored(c, y, m, table[..|table| - 1], keywords, append), y, m, RowValue(table[|table| - 1], keywords), append)
  }

  /** The hits of a table are those of its rows but the last, then the last row's value. */
  lemma HitsLast(table: seq<seq<string>>, keywords: seq<string>)
    requires table != []
    ensures var v := RowValue(table[|table| - 1], keywords); var hs := Hits(table[..|table| - 1], keywords);
      && (v.None? ==> Hits(table, keywords) == hs)
      && (v.Some? ==> Hits(table, keywords) == hs + [v.value] && (hs + [v.value])[..|hs|] == hs)
  {
    var hs := Hits(table[..|table| - 1], keywords);
    assert hs + [] == hs;
  }

  /** Appending in the row loop appends exactly the table's hits. */
  lemma {:induction false} TableStoredAppends(c: Columns, y: int, m: Metric, table: seq<seq<string>>, keywords: seq<string>)
    requires Aligned(c)
    ensures TableStored(c, y, m, table, keywords, true) == AppendAll(c, y, m, Hits(table, keywords))
    decreases |table|
  {
    if table != [] {
      TableStoredAppends(c, y, m, table[..|table| - 1], keywords);
      HitsLast(table, keywords);
    }
  }

  /** Upserting in the row loop upserts exactly the table's hits, one after the other. */
  lemma {:induction false} TableStoredUpserts(c: Columns, y: int, m: Metric, table: seq<seq<string>>, keywords: seq<string>)
    requires Aligned(c)
    ensures TableStored(c, y, m, table, keywords, false) == UpsertAll(c, y, m, Hits(table, keywords))
    decreases |table|
  {
    if table != [] {
      TableStoredUpserts(c, y, m, table[..|table| - 1], keywords);
      HitsLast(table, keywords);
    }
  }

  /** A table of single cells stores nothing. */
  lemma {:induction false} NarrowTableStored(c: Columns, y: int, m: Metric, table: seq<seq<string>>, keywords: seq<string>, append: bool)
    requires Aligned(c)
    requires forall i :: 0 <= i < |table| ==> |table[i]| <= 1
    ensures TableStored(c, y, m, table, keywords, append) == c
    decreases |table|
  {
    if table != [] {
      NarrowTableStored(c, y, m, table[..|table| - 1], keywords, append);
    }
  }

  /** The row loop shared by process_revenue_table (appending) and process_eps_data and
      process_net_asset_data (upserting). */
  method ProcessKeywordRows(table: seq<seq<string>>, keywords: seq<string>, m: Metric, append: bool,
                            fd: FinancialData, year: int)
    requires fd.Valid()
    modifies fd
    ensures fd.Valid()
    ensures fd.Snapshot() == TableStored(old(fd.Snapshot()), year, m, table, keywords, append)
  {
    ghost var c := fd.Snapshot();
    for i := 0 to |table|
      invariant fd.Valid()
      invariant fd.Snapshot() == TableStored(c, year, m, table[..i], keywords, append)
    {
      assert table[..i + 1][..i] == table[..i];
      var v := RowValueOf(table[i], keywords);
      if v.Some? {
        if append {
          fd.Append(year, map[m := v.value]);
        } else {
          fd.Upsert(year, map[m := v.value]);
        }
      }
    }
    assert table[..|table|] == table;
  }

  const RevenueKeywords: seq<string> := ["revenue"]
  const EpsKeywords: seq<string> := ["earnings per share", "eps"]
  const NetAssetKeywords: seq<string> := ["net asset"]

  /** process_revenue_table: every row mentioning revenue with a positive number after the
      first cell appends a row with that revenue. */
  method ProcessRevenueTable(table: seq<seq<string>>, fd: FinancialData, year: int)
    requires fd.Valid()
    modifies fd
    ensures fd.Valid()
    ensures fd.Snapshot() == AppendAll(old(fd.Snapshot()), year, Revenue, Hits(table, RevenueKeywords))
  {
    ghost var c := fd.Snapshot();
    ProcessKeywordRows(table, RevenueKeywords, Revenue, true, fd, year);
    TableStoredAppends(c, year, Revenue, table, RevenueKeywords);
  }

  /** process_eps_data: every hit upserts the EPS of the year, so the last hit stands. */
  method ProcessEpsData(table: seq<seq<string>>, fd: FinancialData, year: int)
    requires fd.Valid()
    modifies fd
    ensures fd.Valid()
    ensures fd.Snapshot() == UpsertAll(old(fd.Snapshot()), year, Eps, Hits(table, EpsKeywords))
  {
    ghost var c := fd.Snapshot();
    ProcessKeywordRows(table, EpsKeywords, Eps, false, fd, year);
    TableStoredUpserts(c, year, Eps, table, EpsKeywords);
  }

  /** process_net_asset_data: as process_eps_data, for the net asset value per share. */
  method ProcessNetAssetData(table: seq<seq<string>>, fd: FinancialData, year: int)
    requires fd.Valid()
    modifies fd
    ensures fd.Valid()
    ensures fd.Snapshot() == UpsertAll(old(fd.Snapshot()), year, NetAssetPerShare, Hits(table, NetAssetKeywords))
  {
    ghost var c := fd.Snapshot();
    ProcessKeywordRows(table, NetAssetKeywords, NetAssetPerShare, false, fd, year);
    TableStoredUpserts(c, year, NetAssetPerShare, table, NetAssetKeywords);
  }

  /** The income statement's line items, in the order of the source's dictionary, with
      their labels in lower case. */
  const IncomeItems: seq<(string, Metric)> := [
    ("cost of sales", CostOfSales), ("gross profit", GrossProfit), ("operating expenses", OperatingExpenses),
    ("operating profit", OperatingProfit), ("net profit", NetProfit)]

  /** `found_metrics` after one row, over the first k line items. */
  function RowItems(found: map<Metric, real>, row: seq<string>, k: nat): (r: map<Metric, real>)
    requires k <= |IncomeItems|
    ensures found.Keys <= r.Keys
    decreases k
  {
    if k == 0 then found
    else
      var before := RowItems(found, row, k - 1);
      var v := RowValue(row, [IncomeItems[k - 1].0]);
      if v.Some? then before[IncomeItems[k - 1].1 := v.value] else before
  }

  /** `found_metrics` after the rows of the table. */
  function FoundItems(table: seq<seq<string>>): (r: map<Metric, real>)
    decreases |table|
  {
    if table == [] then map[]
    else RowItems(FoundItems(table[..|table| - 1]), table[|table| - 1], |IncomeItems|)
  }

  /** Every stored line item is a positive number. */
  lemma {:induction false} FoundItemsPositive(table: seq<seq<string>>, m: Metric)
    requires m in FoundItems(table)
    ensures FoundItems(table)[m] > 0.0
    decreases |table|
  {
    var init := table[..|table| - 1];
    RowItemsPositive(FoundItems(init), table[|table| - 1], |IncomeItems|, m);
    if m in FoundItems(init) {
      FoundItemsPositive(init, m);
    }
  }

  lemma {:induction false} RowItemsPositive(found: map<Metric, real>, row: seq<string>, k: nat, m: Metric)
    requires k <= |IncomeItems| && m in RowItems(found, row, k)
    ensures RowItems(found, row, k)[m] > 0.0 || (m in found && RowItems(found, row, k)[m] == found[m])
    decreases k
  {
    if k > 0 {
      var before := RowItems(found, row, k - 1);
      if m in before {
        RowItemsPositive(found, row, k - 1, m);
      }
    }
  }

  /** The loops of process_income_statement that fill `found_metrics`. */
  method FindItems(table: seq<seq<string>>) returns (found: map<Metric, real>)
    ensures found == FoundItems(table)
  {
    found := map[];
    for i := 0 to |table|
      invariant found == FoundItems(table[..i])
    {
      assert table[..i + 1][..i] == table[..i];
      var row := table[i];
      ghost var start := found;
      for k := 0 to |IncomeItems|
        invariant found == RowItems(start, row, k)
      {
        var v := RowValueOf(row, [IncomeItems[k].0]);
        if v.Some? {
          found := found[IncomeItems[k].1 := v.value];
        }
      }
    }
    assert table[..|table|] == table;
  }

  /** The dictionary after process_income_statement: the found line items upserted
      together, or nothing when none was found. */
  function IncomeStored(c: Columns, y: int, table: seq<seq<string>>): (r: Columns)
    requires Aligned(c)
    ensures Aligned(r)
  {
    var found := FoundItems(table);
    if found == map[] then c else Upserted(c, y, found)
  }

  /** Every line item found lands, as a positive number, in the first row of the year. */
  lemma IncomeStoredHolds(c: Columns, y: int, table: seq<seq<string>>, m: Metric)
    requires Aligned(c) && m in FoundItems(table)
    ensures var r := IncomeStored(c, y, table);
      y in r.years && m in r.values && r.values[m][IndexOf(r.years, y)] == Some(FoundItems(table)[m])
      && FoundItems(table)[m] > 0.0
  {
    UpsertedHolds(c, y, FoundItems(table), m);
    FoundItemsPositive(table, m);
  }

  /** process_income_statement. */
  method ProcessIncomeStatement(table: seq<seq<string>>, fd: FinancialData, year: int)
    requires fd.Valid()
    modifies fd
    ensures fd.Valid()
    ensures fd.Snapshot() == IncomeStored(old(fd.Snapshot()), year, table)
  {
    var found := FindItems(table);
    if found != map[] {
      fd.Upsert(year, found);
    }
  }

  /** With no line item in the table there is nothing to store. */
  lemma {:induction false} NarrowTableItems(table: seq<seq<string>>)
    requires forall i :: 0 <= i < |table| ==> |table[i]| <= 1
    ensures FoundItems(table) == map[]
    decreases |table|
  {
    if table != [] {
      NarrowTableItems(table[..|table| - 1]);
      NarrowRowItems(table[|table| - 1], |IncomeItems|);
    }
  }

  lemma {:induction false} NarrowRowItems(row: seq<string>, k: nat)
    requires |row| <= 1 && k <= |IncomeItems|
    ensures RowItems(map[], row, k) == map[]
    decreases k
  {
    if k > 0 {
      NarrowRowItems(row, k - 1);
    }
  }

  // ---------------------------------------------------------------------------
  // Shareholders
  // ---------------------------------------------------------------------------

  /** The contents of `shareholders_data`. */
  datatype Holders = Holders(years: seq<int>, names: seq<string>, percentages: seq<real>)

  predicate HoldersAligned(h: Holders) {
    |h.names| == |h.years| && |h.percentages| == |h.years|
  }

  /** `shareholders_data`: parallel Year, Shareholder_Name and Ownership_Percentage lists. */
  class ShareholderData {
    var years: seq<int>
    var names: seq<string>
    var percentages: seq<real>

    function Snapshot(): Holders
      reads this
    {
      Holders(years, names, percentages)
    }

    predicate Valid()
      reads this
    {
      HoldersAligned(Snapshot())
    }

    constructor ()
      ensures Valid() && Snapshot() == Holders([], [], [])
    {
      years, names, percentages := [], [], [];
    }

    method Append(y: int, name: string, percentage: real)
      requires Valid()
      modifies this
      ensures Valid()
      ensures Snapshot() == Holders(old(years) + [y], old(names) + [name], old(percentages) + [percentage])
    {
      years := years + [y];
      names := names + [name];
      percentages := percentages + [percentage];
    }
  }

  /** The ownership read from a row: the first `\d+\.\d+` in its last cell, kept when it is
      a percentage in (0, 100]. Rows of fewer than two cells are skipped. */
  function Holding(row: seq<string>): (h: Option<(string, real)>)
    ensures h.Some? ==> 0.0 < h.value.1 <= 100.0
    ensures h.Some? ==> |row| >= 2 && h.value.0 == row[0]
  {
    if |row| < 2 then None
    else
      var found := FindDecimal(row[|row| - 1]);
      if found.None? then None
      else
        FindDecimalParses(row[|row| - 1]);
        var p := ParseDecimal(found.value).value;
        if 0.0 < p <= 100.0 then Some((row[0], p)) else None
  }

  /** The body of the row loop of process_shareholder_data, up to the store. */
  method HoldingOf(row: seq<string>) returns (h: Option<(string, real)>)
    ensures h == Holding(row)
  {
    h := None;
    if |row| >= 2 {
      var name := row[0];
      var found := FindDecimal(row[|row| - 1]);
      if found.Some? {
        FindDecimalParses(row[|row| - 1]);
        var p := ParseDecimal(found.value).value;
        if 0.0 < p <= 100.0 {
          h := Some((name, p));
        }
      }
    }
  }

  /** The holdings of the table, in row order. */
  function Holdings(table: seq<seq<string>>): (hs: seq<(string, real)>)
    ensures |hs| <= |table|
    decreases |table|
  {
    if table == [] then []
    else
      var h := Holding(table[|table| - 1]);
      Holdings(table[..|table| - 1]) + (if h.Some? then [h.value] else [])
  }

  /** Every holding is a valid percentage. */
  lemma {:induction false} HoldingsArePercentages(table: seq<seq<string>>)
    ensures forall k :: 0 <= k < |Holdings(table)| ==> 0.0 < Holdings(table)[k].1 <= 100.0
    decreases |table|
  {
    if table != [] {
      HoldingsArePercentages(table[..|table| - 1]);
    }
  }

  /** `shareholders_data` after the row loop of process_shareholder_data. */
  function HoldersAfter(h: Holders, table: seq<seq<string>>, y: int): (r: Holders)
    requires HoldersAligned(h)
    ensures HoldersAligned(r)
    decreases |table|
  {
    if table == [] then h
    else
      var p := HoldersAfter(h, table[..|table| - 1], y);
      var x := Holding(table[|table| - 1]);
      if x.Some? then Holders(p.years + [y], p.names + [x.value.0], p.percentages + [x.value.1]) else p
  }

  /** Entries n, n+1, ... of h are the holdings hs, for year y. */
  predicate EntriesFrom(h: Holders, n: nat, y: int, hs: seq<(string, real)>) {
    && |h.years| == n + |hs| && |h.names| == n + |hs| && |h.percentages| == n + |hs|
    && forall k :: 0 <= k < |hs| ==> EntryAt(h, n + k, y, hs[k])
  }

  /** Entry j of h is the holding x, for year y. */
  predicate EntryAt(h: Holders, j: nat, y: int, x: (string, real)) {
    j < |h.years| && j < |h.names| && j < |h.percentages|
    && h.years[j] == y && h.names[j] == x.0 && h.percentages[j] == x.1
  }

  lemma EntriesStep(p: Holders, n: nat, y: int, hs: seq<(string, real)>, x: (string, real))
    requires EntriesFrom(p, n, y, hs)
    ensures var r := Holders(p.years + [y], p.names + [x.0], p.percentages + [x.1]);
      && EntriesFrom(r, n, y, hs + [x])
      && r.years[..n] == p.years[..n] && r.names[..n] == p.names[..n] && r.percentages[..n] == p.percentages[..n]
  {
    var r := Holders(p.years + [y], p.names + [x.0], p.percentages + [x.1]);
    var ws := hs + [x];
    forall k | 0 <= k < |ws|
      ensures EntryAt(r, n + k, y, ws[k])
    {
      if k < |hs| {
        assert ws[k] == hs[k] && EntryAt(p, n + k, y, hs[k]);
      } else {
        assert ws[k] == x;
      }
    }
    assert r.years[..n] == p.years[..n] && r.names[..n] == p.names[..n] && r.percentages[..n] == p.percentages[..n];
  }

  /** The loop appends one entry per holding, for year y, and keeps the entries before. */
  lemma {:induction false} HoldersAfterRows(h: Holders, table: seq<seq<string>>, y: int)
    requires HoldersAligned(h)
    ensures var r := HoldersAfter(h, table, y); var n := |h.years|;
      && EntriesFrom(r, n, y, Holdings(table))
      && r.years[..n] == h.years && r.names[..n] == h.names && r.percentages[..n] == h.percentages
    decreases |table|
  {
    if table != [] {
      var init := table[..|table| - 1];
      HoldersAfterRows(h, init, y);
      var x := Holding(table[|table| - 1]);
      if x.Some? {
        EntriesStep(HoldersAfter(h, init, y), |h.years|, y, Holdings(init), x.value);
      } else {
        assert Holdings(table) == Holdings(init) + [];
      }
    }
  }

  /** A table of single cells holds no shareholder row. */
  lemma {:induction false} NarrowTableHolders(h: Holders, table: seq<seq<string>>, y: int)
    requires HoldersAligned(h)
    requires forall i :: 0 <= i < |table| ==> |table[i]| <= 1
    ensures HoldersAfter(h, table, y) == h
    decreases |table|
  {
    if table != [] {
      NarrowTableHolders(h, table[..|table| - 1], y);
    }
  }

  /** process_shareholder_data. */
  method ProcessShareholderData(table: seq<seq<string>>, sd: ShareholderData, year: int)
    requires sd.Valid()
    modifies sd
    ensures sd.Valid()
    ensures sd.Snapshot() == HoldersAfter(old(sd.Snapshot()), table, year)
  {
    ghost var h := sd.Snapshot();
    for i := 0 to |table|
      invariant sd.Valid()
      invariant sd.Snapshot() == HoldersAfter(h, table[..i], year)
    {
      assert table[..i + 1][..i] == table[..i];
      var x := HoldingOf(table[i]);
      if x.Some? {
        sd.Append(year, x.value.0, x.value.1);
      }
    }
    assert table[..|table|] == table;
  }

  // ---------------------------------------------------------------------------
  // The table loop of extract_data_from_pdf
  // ---------------------------------------------------------------------------

  /** `any(kw in str(col).lower() for col in table.iloc[:, 0])`: the first cell of some
      row mentions one of the keywords. */
  predicate FirstColumnMentions(table: seq<seq<string>>, keywords: seq<string>) {
    exists i, k :: 0 <= i < |table| && 0 <= k < |keywords| && MentionAt(table, keywords, i, k)
  }

  /** The first cell of row i, lower-cased, contains keyword k. */
  predicate MentionAt(table: seq<seq<string>>, keywords: seq<string>, i: int, k: int) {
    && 0 <= i < |table| && 0 < |table[i]| && 0 <= k < |keywords|
    && Contains(Lower(table[i][0]), keywords[k])
  }

  /** `table.shape[1] >= 2`: the frame has at least two columns. */
  predicate Wide(table: seq<seq<string>>) {
    table != [] && |table[0]| >= 2
  }

  const IncomeStatementKeywords: seq<string> := ["income statement"]
  const ShareholderKeywords: seq<string> := ["shareholders"]

  /** `financial_data` after the processors chosen for one table, in the source's order:
      revenue, income statement, EPS, net asset value per share. */
  function TableEffect(c: Columns, table: seq<seq<string>>, y: int): (r: Columns)
    requires Aligned(c)
    ensures Aligned(r)
  {
    var c1 := if Wide(table) && FirstColumnMentions(table, RevenueKeywords)
      then TableStored(c, y, Revenue, table, RevenueKeywords, true) else c;
    var c2 := if FirstColumnMentions(table, IncomeStatementKeywords) then IncomeStored(c1, y, table) else c1;
    var c3 := if FirstColumnMentions(table, EpsKeywords) then TableStored(c2, y, Eps, table, EpsKeywords, false) else c2;
    if FirstColumnMentions(table, NetAssetKeywords) then TableStored(c3, y, NetAssetPerShare, table, NetAssetKeywords, false) else c3
  }

  /** `shareholders_data` after one table. */
  function HoldersEffect(h: Holders, table: seq<seq<string>>, y: int): (r: Holders)
    requires HoldersAligned(h)
    ensures HoldersAligned(r)
  {
    if FirstColumnMentions(table, ShareholderKeywords) then HoldersAfter(h, table, y) else h
  }

  /** One pass of the table loop. */
  method ProcessTable(table: seq<seq<string>>, fd: FinancialData, sd: ShareholderData, year: int)
    requires fd.Valid() && sd.Valid()
    modifies fd, sd
    ensures fd.Valid() && sd.Valid()
    ensures fd.Snapshot() == TableEffect(old(fd.Snapshot()), table, year)
    ensures sd.Snapshot() == HoldersEffect(old(sd.Snapshot()), table, year)
  {
    ProcessStatements(table, fd, year);
    if FirstColumnMentions(table, ShareholderKeywords) {
      ProcessShareholderData(table, sd, year);
    }
  }

  /** The processors of one table that write `financial_data`. */
  method ProcessStatements(table: seq<seq<string>>, fd: FinancialData, year: int)
    requires fd.Valid()
    modifies fd
    ensures fd.Valid()
    ensures fd.Snapshot() == TableEffect(old(fd.Snapshot()), table, year)
  {
    if Wide(table) && FirstColumnMentions(table, RevenueKeywords) {
      ProcessKeywordRows(table, RevenueKeywords, Revenue, true, fd, year);
    }
    if FirstColumnMentions(table, IncomeStatementKeywords) {
      ProcessIncomeStatement(table, fd, year);
    }
    if FirstColumnMentions(table, EpsKeywords) {
      ProcessKeywordRows(table, EpsKeywords, Eps, false, fd, year);
    }
    if FirstColumnMentions(table, NetAssetKeywords) {
      ProcessKeywordRows(table, NetAssetKeywords, NetAssetPerShare, false, fd, year);
    }
  }

  /** `financial_data` after the tables, in order. */
  function TablesEffect(c: Columns, tables: seq<seq<seq<string>>>, y: int): (r: Columns)
    requires Aligned(c)
    ensures Aligned(r)
    decreases |tables|
  {
    if tables == [] then c else TableEffect(TablesEffect(c, tables[..|tables| - 1], y), tables[|tables| - 1], y)
  }

  /** `shareholders_data` after the tables, in order. */
  function HoldersEffects(h: Holders, tables: seq<seq<seq<string>>>, y: int): (r: Holders)
    requires HoldersAligned(h)
    ensures HoldersAligned(r)
    decreases |tables|
  {
    if tables == [] then h else HoldersEffect(HoldersEffects(h, tables[..|tables| - 1], y), tables[|tables| - 1], y)
  }

  /** `for table in extracted_tables`. */
  method ProcessTables(tables: seq<seq<seq<string>>>, fd: FinancialData, sd: ShareholderData, year: int)
    requires fd.Valid() && sd.Valid()
    modifies fd, sd
    ensures fd.Valid() && sd.Valid()
    ensures fd.Snapshot() == TablesEffect(old(fd.Snapshot()), tables, year)
    ensures sd.Snapshot() == HoldersEffects(old(sd.Snapshot()), tables, year)
  {
    ghost var c := fd.Snapshot();
    ghost var h := sd.Snapshot();
    for i := 0 to |tables|
      invariant fd.Valid() && sd.Valid()
      invariant fd.Snapshot() == TablesEffect(c, tables[..i], year)
      invariant sd.Snapshot() == HoldersEffects(h, tables[..i], year)
    {
      assert tables[..i + 1][..i] == tables[..i];
      ProcessTable(tables[i], fd, sd, year);
    }
    assert tables[..|tables|] == tables;
  }

  /** Single-column tables, like the one-cell frame of the whole text, change nothing:
      every processor looks for its number after the first cell of a row. */
  lemma {:induction false} NarrowTablesEffect(c: Columns, h: Holders, tables: seq<seq<seq<string>>>, y: int)
    requires Aligned(c) && HoldersAligned(h)
    requires forall t, i :: 0 <= t < |tables| && 0 <= i < |tables[t]| ==> |tables[t][i]| <= 1
    ensures TablesEffect(c, tables, y) == c && HoldersEffects(h, tables, y) == h
    decreases |tables|
  {
    if tables != [] {
      var n := |tables| - 1;
      NarrowTablesEffect(c, h, tables[..n], y);
      var table := tables[n];
      assert forall i :: 0 <= i < |table| ==> |table[i]| <= 1;
      NarrowTableStored(c, y, Revenue, table, RevenueKeywords, true);
      NarrowTableItems(table);
      NarrowTableStored(c, y, Eps, table, EpsKeywords, false);
      NarrowTableStored(c, y, NetAssetPerShare, table, NetAssetKeywords, false);
      NarrowTableHolders(h, table, y);
    }
  }

  // ---------------------------------------------------------------------------
  // Text extraction
  // ---------------------------------------------------------------------------

  /** The captures of each pattern list of extract_from_text. */
  datatype TextMatches = TextMatches(revenue: seq<Option<string>>, eps: seq<Option<string>>,
                                     netProfit: seq<Option<string>>, grossProfit: seq<Option<string>>)

  /** The first capture whose cleaned number lies in [lo, hi]; a capture that does not
      convert is skipped. */
  function Plausible(caps: seq<Option<string>>, lo: real, hi: real): (v: Option<real>)
    ensures v.Some? ==> lo <= v.value <= hi
    decreases |caps|
  {
    if caps == [] then None
    else
      var x := if caps[0].Some? then CellNumber(caps[0].value) else None;
      if x.Some? && lo <= x.value <= hi then x else Plausible(caps[1..], lo, hi)
  }

  /** A capture that converts to a number in [lo, hi]. */
  predicate Passes(cap: Option<string>, lo: real, hi: real) {
    cap.Some? && CellNumber(cap.value).Some? && lo <= CellNumber(cap.value).value <= hi
  }

  /** Capture k gives v, and no earlier capture passes. */
  predicate ChosenAt(caps: seq<Option<string>>, k: int, v: Option<real>, lo: real, hi: real) {
    && 0 <= k < |caps| && caps[k].Some? && CellNumber(caps[k].value) == v
    && forall h :: 0 <= h < k ==> !Passes(caps[h], lo, hi)
  }

  /** The chosen value is the one of the earliest pattern whose capture passes; every
      earlier capture is missing, does not convert, or is out of range. */
  lemma {:induction false} PlausibleIsEarliest(caps: seq<Option<string>>, lo: real, hi: real)
    requires Plausible(caps, lo, hi).Some?
    ensures exists k :: ChosenAt(caps, k, Plausible(caps, lo, hi), lo, hi)
    decreases |caps|
  {
    var v := Plausible(caps, lo, hi);
    if Passes(caps[0], lo, hi) {
      assert ChosenAt(caps, 0, v, lo, hi);
    } else {
      var rest := caps[1..];
      assert Plausible(rest, lo, hi) == v;
      PlausibleIsEarliest(rest, lo, hi);
      var k :| ChosenAt(rest, k, v, lo, hi);
      assert caps[k + 1] == rest[k];
      forall h | 0 <= h < k + 1
        ensures !Passes(caps[h], lo, hi)
      {
        if h > 0 {
          assert caps[h] == rest[h - 1];
        }
      }
      assert ChosenAt(caps, k + 1, v, lo, hi);
    }
  }

  /** A pattern loop of extract_from_text, stopping at the first plausible value. */
  method SelectPlausible(caps: seq<Option<string>>, lo: real, hi: real) returns (v: Option<real>)
    ensures v == Plausible(caps, lo, hi)
  {
    var i := 0;
    while i < |caps|
      invariant 0 <= i <= |caps|
      invariant Plausible(caps, lo, hi) == Plausible(caps[i..], lo, hi)
    {
      assert caps[i..][1..] == caps[i + 1..];
      assert caps[i..][0] == caps[i];
      if caps[i].Some? {
        var x := CellNumber(caps[i].value);
        if x.Some? && lo <= x.value <= hi {
          return x;
        }
      }
      i := i + 1;
    }
    return None;
  }

  /** Plausibility ranges: revenue in [1, 1,000,000], EPS in [0.01, 1000], net and gross
      profit in [1, 100,000]. */
  function RevenueFound(tm: TextMatches): Option<real> { Plausible(tm.revenue, 1.0, 1000000.0) }
  function EpsFound(tm: TextMatches): Option<real> { Plausible(tm.eps, 0.01, 1000.0) }
  function NetProfitFound(tm: TextMatches): Option<real> { Plausible(tm.netProfit, 1.0, 100000.0) }
  function GrossProfitFound(tm: TextMatches): Option<real> { Plausible(tm.grossProfit, 1.0, 100000.0) }

  /** An upsert when a value was found. */
  function UpsertFound(c: Columns, y: int, m: Metric, v: Option<real>): (r: Columns)
    requires Aligned(c)
    ensures Aligned(r)
  {
    if v.Some? then Upserted(c, y, map[m := v.value]) else c
  }

  /** The table after extract_from_text: revenue, EPS, net profit, gross profit, in turn. */
  function FromText(c: Columns, y: int, tm: TextMatches): (r: Columns)
    requires Aligned(c)
    ensures Aligned(r)
  {
    var c1 := UpsertFound(c, y, Revenue, RevenueFound(tm));
    var c2 := UpsertFound(c1, y, Eps, EpsFound(tm));
    var c3 := UpsertFound(c2, y, NetProfit, NetProfitFound(tm));
    UpsertFound(c3, y, GrossProfit, GrossProfitFound(tm))
  }

  /** Whether any of the four searches found a value. */
  predicate AnyFound(tm: TextMatches) {
    RevenueFound(tm).Some? || EpsFound(tm).Some? || NetProfitFound(tm).Some? || GrossProfitFound(tm).Some?
  }

  /** extract_from_text: returns whether a value was stored. */
  method ExtractFromText(tm: TextMatches, fd: FinancialData, year: int) returns (extracted: bool)
    requires fd.Valid()
    modifies fd
    ensures fd.Valid()
    ensures fd.Snapshot() == FromText(old(fd.Snapshot()), year, tm)
    ensures extracted == AnyFound(tm)
  {
    extracted := false;
    var revenue := SelectPlausible(tm.revenue, 1.0, 1000000.0);
    if revenue.Some? {
      fd.Upsert(year, map[Revenue := revenue.value]);
      extracted := true;
    }
    var eps := SelectPlausible(tm.eps, 0.01, 1000.0);
    if eps.Some? {
      fd.Upsert(year, map[Eps := eps.value]);
      extracted := true;
    }
    var netProfit := SelectPlausible(tm.netProfit, 1.0, 100000.0);
    if netProfit.Some? {
      fd.Upsert(year, map[NetProfit := netProfit.value]);
      extracted := true;
    }
    var grossProfit := SelectPlausible(tm.grossProfit, 1.0, 100000.0);
    if grossProfit.Some? {
      fd.Upsert(year, map[GrossProfit := grossProfit.value]);
      extracted := true;
    }
  }

  /** The value the text gives for each metric. */
  function TextValue(tm: TextMatches, m: Metric): Option<real> {
    match m
    case Revenue => RevenueFound(tm)
    case Eps => EpsFound(tm)
    case NetProfit => NetProfitFound(tm)
    case GrossProfit => GrossProfitFound(tm)
    case _ => None
  }

  /** A table with no row, or with the single row of year y. */
  predicate AtMostYear(c: Columns, y: int) {
    c.years == [] || (c.years == [y] && c.quarters == ["Annual"] && c.industries == ["All"] && c.currencies == ["LKR"])
  }

  /** The first row's cell of metric k, NaN when there is no row. */
  function Row0(c: Columns, k: Metric): Option<real>
    requires k in c.values && |c.values[k]| == |c.years|
  {
    if c.years == [] then None else c.values[k][0]
  }

  /** One upsert into a table holding at most the row of its year: it stays so, and the
      row's cell of metric k is the upserted value when k is the metric upserted. */
  lemma UpsertSingle(c: Columns, y: int, m: Metric, v: Option<real>, k: Metric)
    requires Aligned(c) && AtMostYear(c, y) && k in c.values
    ensures var r := UpsertFound(c, y, m, v);
      && AtMostYear(r, y) && k in r.values && (r.years == [] <==> c.years == [] && v.None?)
      && Row0(r, k) == (if k == m && v.Some? then v else Row0(c, k))
  {
    if v.Some? {
      if c.years == [] {
        UpsertSingleNew(c, y, m, v, k);
      } else {
        UpsertSingleExisting(c, y, m, v, k);
      }
    }
  }

  lemma UpsertSingleNew(c: Columns, y: int, m: Metric, v: Option<real>, k: Metric)
    requires Aligned(c) && c.years == [] && k in c.values && v.Some?
    ensures var r := UpsertFound(c, y, m, v);
      && AtMostYear(r, y) && k in r.values && r.years != []
      && Row0(r, k) == (if k == m then v else Row0(c, k))
  {
    var found := map[m := v.value];
    AppendedRow(c, y, found);
    AppendedCells(c, y, found, k);
    var r := Appended(c, y, found);
    assert UpsertFound(c, y, m, v) == r;
    assert r.years == [y] && r.quarters == ["Annual"] && r.industries == ["All"] && r.currencies == ["LKR"];
  }

  lemma UpsertSingleExisting(c: Columns, y: int, m: Metric, v: Option<real>, k: Metric)
    requires Aligned(c) && c.years == [y] && k in c.values && v.Some?
    ensures var r := UpsertFound(c, y, m, v);
      && r.years == c.years && r.quarters == c.quarters && r.industries == c.industries && r.currencies == c.currencies
      && k in r.values && Row0(r, k) == (if k == m then v else Row0(c, k))
  {
    assert IndexOf(c.years, y) == 0;
    UpsertedList(c, y, map[m := v.value], k);
  }

  /** extract_from_text on an empty dictionary, metric by metric: the first row holds the
      value the text gives for metric k. */
  lemma FromTextCell(y: int, tm: TextMatches, k: Metric)
    ensures var r := FromText(Empty(), y, tm);
      && AtMostYear(r, y) && k in r.values && (r.years == [] <==> !AnyFound(tm))
      && Row0(r, k) == TextValue(tm, k)
  {
    FourUpserts(y, RevenueFound(tm), EpsFound(tm), NetProfitFound(tm), GrossProfitFound(tm), k);
  }

  /** The four upserts of extract_from_text into an empty dictionary, for any four
      values: the last value given for k is in the single row, if a value was given. */
  lemma FourUpserts(y: int, a: Option<real>, b: Option<real>, c: Option<real>, d: Option<real>, k: Metric)
    ensures var c0 := Empty();
      var r := UpsertFound(UpsertFound(UpsertFound(UpsertFound(c0, y, Revenue, a), y, Eps, b), y, NetProfit, c), y, GrossProfit, d);
      && AtMostYear(r, y) && k in r.values && (r.years == [] <==> a.None? && b.None? && c.None? && d.None?)
      && Row0(r, k) == (if k == Revenue then a else if k == Eps then b else if k == NetProfit then c
                        else if k == GrossProfit then d else None)
  {
    EveryMetric(k);
    var c0 := Empty();
    TwoUpserts(c0, y, Revenue, a, Eps, b, k);
    TwoUpserts(UpsertFound(UpsertFound(c0, y, Revenue, a), y, Eps, b), y, NetProfit, c, GrossProfit, d, k);
  }

  /** Two upserts in a row into a table holding at most the row of their year. */
  lemma TwoUpserts(c: Columns, y: int, m1: Metric, a: Option<real>, m2: Metric, b: Option<real>, k: Metric)
    requires Aligned(c) && AtMostYear(c, y) && k in c.values
    ensures var r := UpsertFound(UpsertFound(c, y, m1, a), y, m2, b);
      && Aligned(r) && AtMostYear(r, y) && k in r.values
      && (r.years == [] <==> c.years == [] && a.None? && b.None?)
      && Row0(r, k) == (if k == m2 && b.Some? then b else if k == m1 && a.Some? then a else Row0(c, k))
  {
    UpsertSingle(c, y, m1, a, k);
    UpsertSingle(UpsertFound(c, y, m1, a), y, m2, b, k);
  }

  /** From an empty dictionary, extract_from_text makes one row for year y holding the
      value found for revenue, EPS, net profit and gross profit, NaN elsewhere, or no row
      when nothing is found. */
  lemma FromTextSingleRow(y: int, tm: TextMatches)
    ensures var r := FromText(Empty(), y, tm);
      && (r.years == [] <==> !AnyFound(tm))
      && (AnyFound(tm) ==>
            && r.years == [y] && r.quarters == ["Annual"] && r.industries == ["All"] && r.currencies == ["LKR"]
            && forall m :: m in r.values ==> r.values[m] == [TextValue(tm, m)])
  {
    FromTextCell(y, tm, Revenue);
    if AnyFound(tm) {
      FromTextValues(y, tm);
    }
  }

  lemma FromTextValues(y: int, tm: TextMatches)
    requires AnyFound(tm)
    ensures var r := FromText(Empty(), y, tm);
      forall m :: m in r.values ==> r.values[m] == [TextValue(tm, m)]
  {
    var r := FromText(Empty(), y, tm);
    forall m | m in r.values
      ensures r.values[m] == [TextValue(tm, m)]
    {
      FromTextCell(y, tm, m);
      assert |r.values[m]| == 1;
    }
  }

  // ---------------------------------------------------------------------------
  // The whole extraction
  // ---------------------------------------------------------------------------

  /** A report as the extractor sees it: the file's base name, the regular-expression
      captures of the year search on each page, the full text and the captures of the
      text patterns on it. */
  datatype Report = Report(baseName: string, pages: seq<ExtractorYear.Page>, text: string, matches: TextMatches)

  /** What extract_data_from_pdf returns: the table when a value was extracted, otherwise
      None (the no-data path names an undefined variable at line 186, and the exception
      handler returns None). */
  function ExtractedData(report: Report, year: Option<int>, currentYear: int): (r: Option<Columns>)
    ensures r.Some? ==> Aligned(r.value)
  {
    var y := ExtractorYear.ResolvedYear(year, report.pages, report.baseName, currentYear);
    var c := FromText(Empty(), y, report.matches);
    if |c.years| == 0 then None else Some(c)
  }

  /** The extraction yields a table exactly when a text search found a plausible value,
      and then one row for the resolved year. */
  lemma ExtractedDataRow(report: Report, year: Option<int>, currentYear: int)
    ensures var r := ExtractedData(report, year, currentYear);
      var y := ExtractorYear.ResolvedYear(year, report.pages, report.baseName, currentYear);
      && (r.Some? <==> AnyFound(report.matches))
      && (r.Some? ==>
            && r.value.years == [y] && y <= ExtractorYear.LastYear
            && forall m :: m in r.value.values ==> r.value.values[m] == [TextValue(report.matches, m)])
  {
    var y := ExtractorYear.ResolvedYear(year, report.pages, report.baseName, currentYear);
    FromTextSingleRow(y, report.matches);
    ExtractorYear.ResolvedYearBounds(year, report.pages, report.baseName, currentYear);
  }

  /** extract_data_from_pdf: the year first, then the table loop over the one-cell frame
      holding the whole text, then extract_from_text. */
  method ExtractDataFromPdf(report: Report, year: Option<int>, currentYear: int) returns (r: Option<Columns>)
    ensures r == ExtractedData(report, year, currentYear)
  {
    var detected := ExtractorYear.ResolveYear(year, report.pages, report.baseName, currentYear);
    var fd := new FinancialData();
    var sd := new ShareholderData();
    var tables := [[[report.text]]];
    ProcessTables(tables, fd, sd, detected);
    NarrowTablesEffect(Empty(), Holders([], [], []), tables, detected);
    var _ := ExtractFromText(report.matches, fd, detected);
    if |fd.years| == 0 {
      return None;
    }
    return Some(fd.Snapshot());
  }
}
