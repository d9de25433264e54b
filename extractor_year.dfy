/** How the extractor settles on the reporting year of an annual report
    (data_extractor.py, extract_data_from_pdf, lines 49-128).

    The regular-expression searches are inputs: for each of the first pages, the captures
    of the eight year patterns (in pattern order, each in match order) and the captures of
    the two date patterns. The clock is an input too (`currentYear`). */
module ExtractorYear {
  import opened Common
  import opened Text

  const FirstYear: int := 2019
  const LastYear: int := 2024

  /** Years of the dataset. */
  predicate InRange(y: int) {
    FirstYear <= y <= LastYear
  }

  /** A day-month-year or year-month-day capture: the three groups of the date pattern. */
  datatype DateMatch = DateMatch(first: string, second: string, third: string)

  /** What the regular expressions find on one page. */
  datatype Page = Page(yearCaptures: seq<string>, dayFirst: seq<DateMatch>, yearFirst: seq<DateMatch>)

  /** Only the first ten pages are searched for a year. */
  function PagesSearched(pages: seq<Page>): (n: nat)
    ensures n <= |pages| && n <= 10
    ensures n == |pages| || n == 10
  {
    if |pages| < 10 then |pages| else 10
  }

  // ---------------------------------------------------------------------------
  // Year patterns
  // ---------------------------------------------------------------------------

  /** A two-character capture such as "23" in "2022/23" stands for "2023". */
  function Expand(token: string): (s: string)
    ensures |token| == 2 ==> s == "20" + token
    ensures |token| != 2 ==> s == token
  {
    if |token| == 2 then "20" + token else token
  }

  /** `int(year_str)` on the expanded capture, kept only when it is a year of the dataset. */
  function Candidate(token: string): (y: Option<int>)
    ensures y.Some? ==> InRange(y.value)
    ensures y.Some? <==> ParseInt(Expand(token)).Some? && InRange(ParseInt(Expand(token)).value)
  {
    var v := ParseInt(Expand(token));
    if v.Some? && InRange(v.value) then v else None
  }

  /** A two-digit capture names a year of the twenty-first century. */
  lemma CandidateTwoDigits(token: string)
    requires |token| == 2 && AllDigits(token)
    ensures ParseInt(Expand(token)) == Some(2000 + ParseNat(token))
    ensures Candidate(token).Some? <==> 19 <= ParseNat(token) <= 24
  {
    var s := "20" + token;
    assert AllDigits(s);
    assert s[..|s| - 1][..|s| - 2] == "20";
    assert s[..|s| - 1][..|s| - 2][..1] == "2";
    assert s[..|s| - 1][..|s| - 2][..1][..0] == "";
    assert token[..1][..0] == "";
    calc {
      ParseNat(s);
      ParseNat(s[..|s| - 1]) * 10 + DigitValue(token[1]);
      { assert s[..|s| - 1][..|s| - 2] == "20"; }
      (ParseNat("20") * 10 + DigitValue(token[0])) * 10 + DigitValue(token[1]);
      { assert ParseNat("20") == 20 by { assert "20"[..1] == "2"; assert "2"[..0] == ""; } }
      2000 + DigitValue(token[0]) * 10 + DigitValue(token[1]);
      { assert token[..1] == [token[0]]; assert [token[0]][..0] == ""; }
      2000 + ParseNat(token);
    }
  }

  /** The first capture, in order, that gives a year of the dataset. */
  function FirstCandidate(tokens: seq<string>): (y: Option<int>)
    ensures y.Some? ==> InRange(y.value)
    decreases |tokens|
  {
    if tokens == [] then None
    else if Candidate(tokens[0]).Some? then Candidate(tokens[0])
    else FirstCandidate(tokens[1..])
  }

  /** The scan stops at the earliest acceptable capture: it gives that capture's year, and
      no capture before it is acceptable; it finds nothing only when no capture is acceptable. */
  lemma {:induction false} FirstCandidateIsEarliest(tokens: seq<string>)
    ensures FirstCandidate(tokens).None? <==> forall i :: 0 <= i < |tokens| ==> Candidate(tokens[i]).None?
    ensures FirstCandidate(tokens).Some? ==>
      exists i :: 0 <= i < |tokens| && Candidate(tokens[i]) == FirstCandidate(tokens)
        && forall h :: 0 <= h < i ==> Candidate(tokens[h]).None?
    decreases |tokens|
  {
    if tokens != [] {
      FirstCandidateIsEarliest(tokens[1..]);
      if Candidate(tokens[0]).None? {
        if FirstCandidate(tokens).Some? {
          var i :| 0 <= i < |tokens[1..]| && Candidate(tokens[1..][i]) == FirstCandidate(tokens)
            && forall h :: 0 <= h < i ==> Candidate(tokens[1..][h]).None?;
          assert Candidate(tokens[i + 1]) == FirstCandidate(tokens);
          assert forall h :: 0 <= h < i + 1 ==> Candidate(tokens[h]).None? by {
            forall h | 0 <= h < i + 1 ensures Candidate(tokens[h]).None? {
              if h > 0 {
                assert tokens[h] == tokens[1..][h - 1];
              }
            }
          }
        } else {
          forall i | 0 <= i < |tokens| ensures Candidate(tokens[i]).None? {
            if i > 0 {
              assert tokens[i] == tokens[1..][i - 1];
            }
          }
        }
      }
    }
  }

  /** The captures in the order the nested loops visit them: page by page, and on a page
      pattern by pattern, each pattern's matches in order. */
  function Captures(pages: seq<Page>): seq<string>
  {
    if pages == [] then [] else pages[0].yearCaptures + Captures(pages[1..])
  }

  /** The pattern search of lines 51-88, with its three nested breaks flattened into one
      scan over the captures in visiting order. */
  method ScanCaptures(tokens: seq<string>) returns (detected: Option<int>)
    ensures detected == FirstCandidate(tokens)
  {
    detected := None;
    var i := 0;
    while i < |tokens|
      invariant 0 <= i <= |tokens|
      invariant FirstCandidate(tokens) == FirstCandidate(tokens[i..])
    {
      assert tokens[i..][1..] == tokens[i + 1..];
      var v := ParseInt(Expand(tokens[i]));
      if v.Some? && InRange(v.value) {
        detected := v;
        return;
      }
      i := i + 1;
    }
  }

  // ---------------------------------------------------------------------------
  // Date patterns
  // ---------------------------------------------------------------------------

  /** The year of a date capture: the third group when it has four digits and is a year of
      the dataset, otherwise the first group on the same terms. */
  function DateYear(d: DateMatch): (y: Option<int>)
    ensures y.Some? ==> InRange(y.value)
    ensures y.Some? ==> (|d.third| == 4 && ParseInt(d.third) == y) || (|d.first| == 4 && ParseInt(d.first) == y)
  {
    var c := ParseInt(d.third);
    var a := ParseInt(d.first);
    if |d.third| == 4 && c.Some? && InRange(c.value) then c
    else if |d.first| == 4 && a.Some? && InRange(a.value) then a
    else None
  }

  /** The first date capture of a page that gives a year. */
  function FirstDateYear(ds: seq<DateMatch>): (y: Option<int>)
    ensures y.Some? ==> InRange(y.value)
    ensures y.None? <==> forall i :: 0 <= i < |ds| ==> DateYear(ds[i]).None?
    decreases |ds|
  {
    if ds == [] then None
    else if DateYear(ds[0]).Some? then DateYear(ds[0])
    else
      assert forall i :: 1 <= i < |ds| ==> ds[i] == ds[1..][i - 1];
      FirstDateYear(ds[1..])
  }

  function DateCaptures(page: Page, pattern: nat): seq<DateMatch> {
    if pattern == 0 then page.dayFirst else page.yearFirst
  }

  /** The page loop of one date pattern, from page `from` on, with the year found so far:
      each page's first year replaces it, and the loop stops after the first page that
      leaves a year in hand. */
  function ScanPages(pages: seq<Page>, pattern: nat, n: nat, found: Option<int>, from: nat): (y: Option<int>)
    requires n <= |pages|
    requires found.Some? ==> InRange(found.value)
    ensures y.Some? ==> InRange(y.value)
    decreases n - from
  {
    if from >= n then found
    else
      var here := FirstDateYear(DateCaptures(pages[from], pattern));
      var now := if here.Some? then here else found;
      if now.Some? then now else ScanPages(pages, pattern, n, now, from + 1)
  }

  /** Lines 91-112: the day-first pattern over the searched pages, then the year-first one. */
  function DatesYear(pages: seq<Page>): (y: Option<int>)
    ensures y.Some? ==> InRange(y.value)
  {
    var n := PagesSearched(pages);
    ScanPages(pages, 1, n, ScanPages(pages, 0, n, None, 0), 0)
  }

  /** The first year the date pattern gives on page p. */
  function PageYear(pages: seq<Page>, pattern: nat, p: nat): Option<int>
    requires p < |pages|
  {
    FirstDateYear(DateCaptures(pages[p], pattern))
  }

  /** Starting with nothing in hand, the page loop finds the first page with a year. */
  lemma ScanPagesFirst(pages: seq<Page>, pattern: nat, n: nat, from: nat)
    requires n <= |pages|
    ensures var y := ScanPages(pages, pattern, n, None, from);
      && (y.None? <==> forall p :: from <= p < n ==> PageYear(pages, pattern, p).None?)
      && (y.Some? ==> exists p :: from <= p < n && y == PageYear(pages, pattern, p))
  {
    ScanPagesNone(pages, pattern, n, from);
    ScanPagesFound(pages, pattern, n, from);
  }

  lemma {:induction false} ScanPagesNone(pages: seq<Page>, pattern: nat, n: nat, from: nat)
    requires n <= |pages|
    ensures ScanPages(pages, pattern, n, None, from).None? <==> forall p :: from <= p < n ==> PageYear(pages, pattern, p).None?
    decreases n - from
  {
    if from < n {
      ScanPagesNone(pages, pattern, n, from + 1);
      if PageYear(pages, pattern, from).Some? {
        assert ScanPages(pages, pattern, n, None, from) == PageYear(pages, pattern, from);
      } else {
        assert ScanPages(pages, pattern, n, None, from) == ScanPages(pages, pattern, n, None, from + 1);
      }
    }
  }

  lemma {:induction false} ScanPagesFound(pages: seq<Page>, pattern: nat, n: nat, from: nat)
    requires n <= |pages|
    ensures var y := ScanPages(pages, pattern, n, None, from);
      y.Some? ==> exists p :: from <= p < n && y == PageYear(pages, pattern, p)
    decreases n - from
  {
    if from < n {
      ScanPagesFound(pages, pattern, n, from + 1);
      if PageYear(pages, pattern, from).Some? {
        assert ScanPages(pages, pattern, n, None, from) == PageYear(pages, pattern, from);
      } else {
        assert ScanPages(pages, pattern, n, None, from) == ScanPages(pages, pattern, n, None, from + 1);
      }
    }
  }

  /** The date loops do not stop between the two patterns: once the day-first pattern has
      found a year, the year-first pattern is still tried, but on the first page only (the
      page loop stops after it because a year is in hand), and a year it finds there wins. */
  lemma DatesYearChoice(pages: seq<Page>)
    ensures var n := PagesSearched(pages);
      var dayFirst := ScanPages(pages, 0, n, None, 0);
      && (dayFirst.None? ==> DatesYear(pages) == ScanPages(pages, 1, n, None, 0))
      && (dayFirst.Some? ==>
            (n > 0 && DatesYear(pages) ==
               (if FirstDateYear(pages[0].yearFirst).Some? then FirstDateYear(pages[0].yearFirst) else dayFirst)))
  {
    var n := PagesSearched(pages);
    ScanPagesFirst(pages, 0, n, 0);
  }

  /** The date search of lines 91-112 as written: two pattern loops, each over the pages,
      each page over its captures. */
  method ScanDates(pages: seq<Page>) returns (detected: Option<int>)
    ensures detected == DatesYear(pages)
  {
    var n := PagesSearched(pages);
    detected := None;
    for pattern := 0 to 2
      invariant detected == (if pattern == 0 then None
                             else if pattern == 1 then ScanPages(pages, 0, n, None, 0)
                             else DatesYear(pages))
    {
      ghost var start := detected;
      var page := 0;
      while page < n
        invariant 0 <= page <= n
        invariant detected.Some? ==> InRange(detected.value)
        invariant ScanPages(pages, pattern, n, detected, page) == ScanPages(pages, pattern, n, start, 0)
      {
        var here := ScanPage(DateCaptures(pages[page], pattern));
        if here.Some? {
          detected := here;
        }
        if detected.Some? {
          break;
        }
        page := page + 1;
      }
    }
  }

  /** The capture loop of one page, stopping at the first year. */
  method ScanPage(ds: seq<DateMatch>) returns (y: Option<int>)
    ensures y == FirstDateYear(ds)
  {
    y := None;
    var i := 0;
    while i < |ds|
      invariant 0 <= i <= |ds|
      invariant FirstDateYear(ds) == FirstDateYear(ds[i..])
      invariant y.None?
    {
      assert ds[i..][1..] == ds[i + 1..];
      assert ds[i..][0] == ds[i];
      y := DateYear(ds[i]);
      if y.Some? {
        return;
      }
      i := i + 1;
    }
  }

  // ---------------------------------------------------------------------------
  // File name and the fallback chain
  // ---------------------------------------------------------------------------

  /** The first year, from `from` to 2024, whose digits occur in the file name. */
  function NameYearFrom(name: string, from: int): (y: Option<int>)
    requires FirstYear <= from
    ensures y.Some? ==> from <= y.value <= LastYear && Contains(name, DigitString(y.value))
    ensures y.Some? ==> forall z :: from <= z < y.value ==> !Contains(name, DigitString(z))
    ensures y.None? ==> forall z :: from <= z <= LastYear ==> !Contains(name, DigitString(z))
    decreases LastYear + 1 - from
  {
    if from > LastYear then None
    else if Contains(name, DigitString(from)) then Some(from)
    else NameYearFrom(name, from + 1)
  }

  function NameYear(name: string): (y: Option<int>)
    ensures y.Some? ==> InRange(y.value)
  {
    NameYearFrom(name, FirstYear)
  }

  /** Lines 120-123: the years 2019 to 2024 in turn, stopping at the first in the name. */
  method ScanName(name: string) returns (y: Option<int>)
    ensures y == NameYear(name)
  {
    y := None;
    for candidate := FirstYear to LastYear + 1
      invariant NameYear(name) == NameYearFrom(name, candidate)
    {
      if Contains(name, DigitString(candidate)) {
        y := Some(candidate);
        return;
      }
    }
  }

  /** Whether the caller supplied a year: Python treats None and 0 alike. */
  predicate Given(year: Option<int>) {
    year.Some? && year.value != 0
  }

  /** The year detected before the fallback chain: the supplied one, or when none is
      supplied, what the pattern searches find. */
  function Detected(year: Option<int>, pages: seq<Page>): Option<int> {
    if Given(year) then year
    else
      var fromPatterns := FirstCandidate(Captures(pages[..PagesSearched(pages)]));
      if fromPatterns.Some? then fromPatterns else DatesYear(pages)
  }

  /** The reporting year: the detected one when it is in range, else one named in the
      file's base name, else the current year capped at 2024. The source's intermediate
      fallback to the supplied year (line 116) never applies: a supplied year in range is
      the detected year already. */
  function ResolvedYear(year: Option<int>, pages: seq<Page>, baseName: string, currentYear: int): (y: int)
    ensures Detected(year, pages).Some? && InRange(Detected(year, pages).value) ==> y == Detected(year, pages).value
    ensures y == currentYear || InRange(y)
    ensures !InRange(y) ==> NameYear(baseName).None? && y < FirstYear
  {
    var d := Detected(year, pages);
    if d.Some? && InRange(d.value) then d.value
    else if NameYear(baseName).Some? then NameYear(baseName).value
    else MinInt(currentYear, LastYear)
  }

  /** Lines 49-128 as a whole. */
  method ResolveYear(year: Option<int>, pages: seq<Page>, baseName: string, currentYear: int) returns (detected: int)
    ensures detected == ResolvedYear(year, pages, baseName, currentYear)
  {
    var found := year;
    if !Given(year) {
      var n := PagesSearched(pages);
      found := ScanCaptures(Captures(pages[..n]));
      if found.None? {
        found := ScanDates(pages);
      }
    }
    if found.Some? && InRange(found.value) {
      return found.value;
    }
    var named := ScanName(baseName);
    if named.Some? {
      return named.value;
    }
    detected := if currentYear <= LastYear then currentYear else LastYear;
  }

  /** The resolved year is never after 2024; it is before 2019 only when the clock is. */
  lemma ResolvedYearBounds(year: Option<int>, pages: seq<Page>, baseName: string, currentYear: int)
    ensures var y := ResolvedYear(year, pages, baseName, currentYear);
      && y <= LastYear
      && (InRange(y) || y == currentYear)
      && (currentYear >= FirstYear ==> InRange(y))
  {
  }

  /** A supplied year of the dataset is used as it is, whatever the report says. */
  lemma GivenYearWins(year: int, pages: seq<Page>, baseName: string, currentYear: int)
    requires InRange(year)
    ensures ResolvedYear(Some(year), pages, baseName, currentYear) == year
  {
  }

  /** A supplied year outside the dataset is not searched for in the report: the file name
      or the clock decides. */
  lemma GivenOutOfRange(year: int, pages: seq<Page>, baseName: string, currentYear: int)
    requires year != 0 && !InRange(year)
    ensures ResolvedYear(Some(year), pages, baseName, currentYear) ==
      (if NameYear(baseName).Some? then NameYear(baseName).value else MinInt(currentYear, LastYear))
  {
  }

  /** With no year supplied, a year-pattern capture on the searched pages decides, and it
      is the earliest acceptable one. */
  lemma PatternYearWins(pages: seq<Page>, baseName: string, currentYear: int, i: nat)
    requires var tokens := Captures(pages[..PagesSearched(pages)]);
      i < |tokens| && Candidate(tokens[i]).Some? && forall h :: 0 <= h < i ==> Candidate(tokens[h]).None?
    ensures ResolvedYear(None, pages, baseName, currentYear) == Candidate(Captures(pages[..PagesSearched(pages)])[i]).value
  {
    var tokens := Captures(pages[..PagesSearched(pages)]);
    FirstCandidateAt(tokens, i);
  }

  lemma {:induction false} FirstCandidateAt(tokens: seq<string>, i: nat)
    requires i < |tokens| && Candidate(tokens[i]).Some? && forall h :: 0 <= h < i ==> Candidate(tokens[h]).None?
    ensures FirstCandidate(tokens) == Candidate(tokens[i])
    decreases i
  {
    if i > 0 {
      assert forall h :: 0 <= h < i - 1 ==> tokens[1..][h] == tokens[h + 1];
      FirstCandidateAt(tokens[1..], i - 1);
    }
  }
}
