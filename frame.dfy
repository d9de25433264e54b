/** The financial table the pipeline passes between its stages (a pandas DataFrame in
    the source): key columns Year, Quarter, Industry and Currency, and numeric columns
    for the eight statement metrics, the three margins and the year-over-year growth
    rates. A key column may be absent from a table; a numeric column is present when its
    field is in `fields`, and then every row has a cell for it. */
module Frame {
  import opened Common

  datatype Metric =
    | Revenue
    | CostOfSales
    | GrossProfit
    | OperatingExpenses
    | OperatingProfit
    | NetProfit
    | Eps
    | NetAssetPerShare

  /** The monetary and per-share columns, in the order of the source's `numeric_columns`. */
  const NumericMetrics: seq<Metric> :=
    [Revenue, CostOfSales, GrossProfit, OperatingExpenses, OperatingProfit, NetProfit, Eps, NetAssetPerShare]

  /** A numeric column: a metric itself, its margin (`Gross_Profit_Margin`, ...), or its
      year-over-year growth (`Revenue_YoY_Growth`, ...). */
  datatype Field = Value(m: Metric) | Margin(m: Metric) | YoYGrowth(m: Metric)

  /** One row; `cells` holds the numeric columns, `None` being NaN. */
  datatype Row = Row(year: int, quarter: string, industry: string, currency: string,
                     cells: map<Field, Option<real>>)

  datatype Table = Table(hasYear: bool, hasQuarter: bool, hasIndustry: bool, hasCurrency: bool,
                         fields: set<Field>, rows: seq<Row>)

  /** Every row has exactly the table's numeric columns. */
  predicate WellFormed(t: Table) {
    forall j :: 0 <= j < |t.rows| ==> t.rows[j].cells.Keys == t.fields
  }

  /** The cell of a row in a column, NaN when the row has no such column. */
  function Cell(r: Row, f: Field): Option<real> {
    if f in r.cells then r.cells[f] else None
  }

  /** The group key of `groupby(['Industry', 'Quarter'])`. */
  function Key(r: Row): (string, string) {
    (r.industry, r.quarter)
  }

  /** Same key columns, and same cells outside the columns `changed`. */
  predicate SameOutside(a: Row, b: Row, changed: set<Field>) {
    && a.year == b.year && a.quarter == b.quarter && a.industry == b.industry && a.currency == b.currency
    && (forall f :: f in a.cells && f !in changed ==> f in b.cells && b.cells[f] == a.cells[f])
    && (forall f :: f in b.cells && f !in changed ==> f in a.cells)
  }

  /** `df[f] = col`: add column f, or overwrite it, with one value per row. */
  function SetColumn(t: Table, f: Field, col: seq<Option<real>>): (r: Table)
    requires |col| == |t.rows|
    ensures r.hasYear == t.hasYear && r.hasQuarter == t.hasQuarter
    ensures r.hasIndustry == t.hasIndustry && r.hasCurrency == t.hasCurrency
    ensures r.fields == t.fields + {f} && |r.rows| == |t.rows|
    ensures WellFormed(t) ==> WellFormed(r)
    ensures forall j :: 0 <= j < |r.rows| ==> r.rows[j] == t.rows[j].(cells := t.rows[j].cells[f := col[j]])
  {
    var rows := seq(|t.rows|, j requires 0 <= j < |t.rows| => t.rows[j].(cells := t.rows[j].cells[f := col[j]]));
    t.(fields := t.fields + {f}, rows := rows)
  }

  /** Setting column f changes, in each row, the cell of f and nothing else. */
  lemma SetColumnCells(t: Table, f: Field, col: seq<Option<real>>)
    requires |col| == |t.rows|
    ensures var r := SetColumn(t, f, col);
      forall j :: 0 <= j < |r.rows| ==> SameOutside(t.rows[j], r.rows[j], {f}) && Cell(r.rows[j], f) == col[j]
  {
  }

  /** One cell after setting column f. */
  lemma SetColumnCell(t: Table, f: Field, col: seq<Option<real>>, j: nat, g: Field)
    requires |col| == |t.rows| && j < |t.rows|
    ensures var x := SetColumn(t, f, col).rows[j];
      && Cell(x, g) == (if g == f then col[j] else Cell(t.rows[j], g))
      && x.year == t.rows[j].year && Key(x) == Key(t.rows[j]) && x.currency == t.rows[j].currency
  {
  }

  /** Boolean-mask selection `df[mask]`: the rows satisfying p, in their order. */
  function Filter(s: seq<Row>, p: Row -> bool): (r: seq<Row>)
    ensures |r| <= |s|
    ensures forall x :: x in r <==> x in s && p(x)
    ensures multiset(r) <= multiset(s)
    decreases |s|
  {
    if s == [] then []
    else
      var rest := Filter(s[1..], p);
      assert s == [s[0]] + s[1..];
      if p(s[0]) then [s[0]] + rest else rest
  }

  /** Selecting with a mask every row passes changes nothing. */
  lemma {:induction false} FilterKeepsAll(s: seq<Row>, p: Row -> bool)
    requires forall x :: x in s ==> p(x)
    ensures Filter(s, p) == s
    decreases |s|
  {
    if s != [] {
      FilterKeepsAll(s[1..], p);
      assert s == [s[0]] + s[1..];
    }
  }

  /** Selections by conditions that agree on the rows are the same selection. */
  lemma {:induction false} FilterSame(s: seq<Row>, p: Row -> bool, q: Row -> bool)
    requires forall x :: x in s ==> p(x) == q(x)
    ensures Filter(s, p) == Filter(s, q)
    decreases |s|
  {
    if s != [] {
      FilterSame(s[1..], p, q);
    }
  }

  /** Two successive selections are one selection by both conditions. */
  lemma {:induction false} FilterTwice(s: seq<Row>, p: Row -> bool, q: Row -> bool, pq: Row -> bool)
    requires forall x :: pq(x) == (p(x) && q(x))
    ensures Filter(Filter(s, p), q) == Filter(s, pq)
    decreases |s|
  {
    if s != [] {
      FilterTwice(s[1..], p, q, pq);
      var rest := Filter(s[1..], p);
      if p(s[0]) {
        assert ([s[0]] + rest)[1..] == rest;
      }
    }
  }

  predicate SortedByYear(s: seq<Row>) {
    forall i, j :: 0 <= i < j < |s| ==> s[i].year <= s[j].year
  }

  /** Insert x before the first row whose year is not below its own. */
  function InsertByYear(x: Row, s: seq<Row>): (r: seq<Row>)
    requires SortedByYear(s)
    ensures SortedByYear(r)
    ensures multiset(r) == multiset(s) + multiset{x}
    ensures |r| == |s| + 1
    ensures forall i :: 0 <= i < |r| ==> r[i] == x || r[i] in s
    decreases |s|
  {
    if s == [] then [x]
    else if x.year <= s[0].year then [x] + s
    else
      var rest := InsertByYear(x, s[1..]);
      InsertByYearFront(x, s, rest);
      [s[0]] + rest
  }

  lemma InsertByYearFront(x: Row, s: seq<Row>, rest: seq<Row>)
    requires s != [] && SortedByYear(s) && s[0].year < x.year
    requires SortedByYear(rest) && multiset(rest) == multiset(s[1..]) + multiset{x}
    requires forall i :: 0 <= i < |rest| ==> rest[i] == x || rest[i] in s[1..]
    ensures SortedByYear([s[0]] + rest)
    ensures multiset([s[0]] + rest) == multiset(s) + multiset{x}
  {
    assert s == [s[0]] + s[1..];
    var r := [s[0]] + rest;
    forall i, j | 0 <= i < j < |r| ensures r[i].year <= r[j].year {
      assert r[j] == rest[j - 1];
      if i == 0 {
        if rest[j - 1] != x {
          var k :| 0 <= k < |s[1..]| && s[1..][k] == rest[j - 1];
          assert s[k + 1] == rest[j - 1];
        }
      } else {
        assert r[i] == rest[i - 1];
      }
    }
  }

  /** `sort_values('Year')`: the rows ordered by year. Among rows of the same year this
      keeps the input order; pandas' default quicksort leaves that order unspecified. */
  function SortByYear(s: seq<Row>): (r: seq<Row>)
    ensures SortedByYear(r)
    ensures multiset(r) == multiset(s)
    ensures |r| == |s|
    decreases |s|
  {
    if s == [] then []
    else
      assert s == [s[0]] + s[1..];
      InsertByYear(s[0], SortByYear(s[1..]))
  }

  /** Sorting rows that are already in year order changes nothing. */
  lemma {:induction false} SortSorted(s: seq<Row>)
    requires SortedByYear(s)
    ensures SortByYear(s) == s
    decreases |s|
  {
    if s != [] {
      var rest := s[1..];
      assert SortedByYear(rest);
      SortSorted(rest);
      InsertFirst(s[0], rest);
      assert s == [s[0]] + rest;
    }
  }

  /** A row whose year is not above the first year of a sorted list goes to its front. */
  lemma InsertFirst(x: Row, s: seq<Row>)
    requires SortedByYear(s) && (s != [] ==> x.year <= s[0].year)
    ensures InsertByYear(x, s) == [x] + s
  {
  }

  /** Sorting keeps every row's cells: the table stays well formed. */
  lemma SortKeepsWellFormed(t: Table)
    requires WellFormed(t)
    ensures WellFormed(t.(rows := SortByYear(t.rows)))
  {
    var s := SortByYear(t.rows);
    forall j | 0 <= j < |s| ensures s[j].cells.Keys == t.fields {
      assert s[j] in multiset(t.rows);
    }
  }

  /** The annual rows `data[data['Quarter'] == 'Annual'].sort_values('Year')` that the
      insights, the summary and the forecast work on. */
  function Annual(t: Table): seq<Row> {
    SortByYear(Filter(t.rows, (x: Row) => x.quarter == "Annual"))
  }

  /** The annual rows are the table's rows of quarter "Annual", in year order, so the
      last of them carries the latest year. */
  lemma AnnualRows(t: Table)
    ensures var rows := Annual(t);
      && SortedByYear(rows)
      && (forall x :: x in rows <==> x in t.rows && x.quarter == "Annual")
      && (forall j :: 0 <= j < |rows| ==> rows[j].year <= rows[|rows| - 1].year)
  {
    var s := Filter(t.rows, (x: Row) => x.quarter == "Annual");
    var a := SortByYear(s);
    assert multiset(a) == multiset(s);
    forall x ensures x in a <==> x in t.rows && x.quarter == "Annual" {
      assert x in a <==> x in multiset(a);
      assert x in s <==> x in multiset(s);
      assert x in s <==> x in t.rows && x.quarter == "Annual";
    }
    SortedLast(a);
  }

  /** In year order, no row has a later year than the last one. */
  lemma SortedLast(s: seq<Row>)
    requires SortedByYear(s)
    ensures forall j :: 0 <= j < |s| ==> s[j].year <= s[|s| - 1].year
  {
    forall j | 0 <= j < |s| - 1 ensures s[j].year <= s[|s| - 1].year {
    }
  }

  /** Selecting the annual rows reads the Quarter column and sorting reads the Year
      column: without either, pandas raises KeyError. */
  predicate Selectable(t: Table) {
    t.hasQuarter && t.hasYear
  }
}
