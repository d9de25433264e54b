/** Character-level helpers standing in for the Python string operations the
    extractor relies on: `str.lower()` (ASCII letters), `in` on strings, `str(n)`,
    `int(s)` and `float(s)` on strings of digits, `re.sub(r'[^\d.]', '', s)` and
    `re.search(r'(\d+\.\d+)', s)`. */
module Text {
  import opened Common

  predicate IsDigit(c: char) {
    '0' <= c <= '9'
  }

  predicate AllDigits(s: string) {
    forall i :: 0 <= i < |s| ==> IsDigit(s[i])
  }

  function DigitValue(c: char): (d: nat)
    requires IsDigit(c)
    ensures d < 10
  {
    c as int - '0' as int
  }

  function DigitChar(d: nat): (c: char)
    requires d < 10
    ensures IsDigit(c) && DigitValue(c) == d
  {
    ('0' as int + d) as char
  }

  /** ASCII `str.lower()`: upper-case letters move down by 32, every other character stays. */
  function Lower(s: string): (r: string)
    ensures |r| == |s|
    ensures forall i :: 0 <= i < |s| ==> ('A' <= s[i] <= 'Z' ==> r[i] as int == s[i] as int + 32)
    ensures forall i :: 0 <= i < |s| ==> (!('A' <= s[i] <= 'Z') ==> r[i] == s[i])
  {
    if s == [] then []
    else [if 'A' <= s[0] <= 'Z' then (s[0] as int + 32) as char else s[0]] + Lower(s[1..])
  }

  predicate IsPrefix(p: string, s: string) {
    |p| <= |s| && s[..|p|] == p
  }

  /** Python's `needle in hay` for strings. */
  predicate Contains(hay: string, needle: string)
    decreases |hay|
  {
    IsPrefix(needle, hay) || (hay != [] && Contains(hay[1..], needle))
  }

  lemma {:induction false} ContainsAt(hay: string, needle: string, i: nat)
    requires i + |needle| <= |hay| && hay[i..i + |needle|] == needle
    ensures Contains(hay, needle)
    decreases i
  {
    if i > 0 {
      assert hay[1..][i - 1..i - 1 + |needle|] == hay[i..i + |needle|];
      ContainsAt(hay[1..], needle, i - 1);
    }
  }

  /** `str(n)` for a natural number: decimal digits without leading zeros. */
  function DigitString(n: nat): (s: string)
    ensures |s| >= 1 && AllDigits(s)
    decreases n
  {
    if n < 10 then [DigitChar(n)] else DigitString(n / 10) + [DigitChar(n % 10)]
  }

  /** The value of a string of decimal digits (the empty string counts as 0). */
  function ParseNat(s: string): nat
    requires AllDigits(s)
    decreases |s|
  {
    if s == [] then 0 else ParseNat(s[..|s| - 1]) * 10 + DigitValue(s[|s| - 1])
  }

  /** Reading back what `str(n)` printed gives n again. */
  lemma {:induction false} ParseDigitString(n: nat)
    ensures ParseNat(DigitString(n)) == n
    decreases n
  {
    var s := DigitString(n);
    if n >= 10 {
      ParseDigitString(n / 10);
      assert s[..|s| - 1] == DigitString(n / 10);
    }
  }

  /** `int(s)` on a regular-expression capture: defined for non-empty strings of digits,
      a ValueError (None) otherwise. */
  function ParseInt(s: string): (r: Option<int>)
    ensures r.Some? <==> (s != [] && AllDigits(s))
    ensures r.Some? ==> r.value >= 0
  {
    if s != [] && AllDigits(s) then Some(ParseNat(s)) else None
  }

  /** `re.sub(r'[^\d.]', '', s)`: drop every character that is neither a digit nor a point. */
  function CleanNumber(s: string): (r: string)
    ensures |r| <= |s|
    ensures forall i :: 0 <= i < |r| ==> IsDigit(r[i]) || r[i] == '.'
    decreases |s|
  {
    if s == [] then []
    else (if IsDigit(s[0]) || s[0] == '.' then [s[0]] else []) + CleanNumber(s[1..])
  }

  /** Cleaning keeps, in order, exactly the digits and points: it is the identity on a clean string. */
  lemma {:induction false} CleanNumberKeepsClean(s: string)
    requires forall i :: 0 <= i < |s| ==> IsDigit(s[i]) || s[i] == '.'
    ensures CleanNumber(s) == s
    decreases |s|
  {
    if s != [] {
      CleanNumberKeepsClean(s[1..]);
      assert [s[0]] + s[1..] == s;
    }
  }

  lemma {:induction false} CleanNumberAppend(a: string, b: string)
    ensures CleanNumber(a + b) == CleanNumber(a) + CleanNumber(b)
    decreases |a|
  {
    if a != [] {
      CleanNumberAppend(a[1..], b);
      assert (a + b)[1..] == a[1..] + b;
    } else {
      assert a + b == b;
    }
  }

  /** Cleaning drops a character other than a digit or a point wherever it stands. */
  lemma {:induction false} CleanNumberDrops(a: string, c: char, b: string)
    requires !IsDigit(c) && c != '.'
    ensures CleanNumber(a + [c] + b) == CleanNumber(a + b)
  {
    CleanNumberAppend(a + [c], b);
    CleanNumberAppend(a, [c]);
    CleanNumberAppend(a, b);
    assert [c][1..] == [];
    assert CleanNumber([c]) == [];
    assert CleanNumber(a) + [] == CleanNumber(a);
  }

  /** Python's `float(s)` for a string of digits and points: at most one point and at
      least one digit; otherwise a ValueError (None). */
  function ParseDecimal(s: string): (r: Option<real>)
    requires forall i :: 0 <= i < |s| ==> IsDigit(s[i]) || s[i] == '.'
    ensures r.Some? ==> r.value >= 0.0
  {
    var k := PointIndex(s);
    if k == |s| then
      if s == [] then None else Some(ParseNat(s) as real)
    else
      var whole, frac := s[..k], s[k + 1..];
      if !AllDigits(frac) || |whole| + |frac| == 0 then None
      else
        assert Pow(10.0, |frac|) > 0.0 by { PowPositive(10.0, |frac|); }
        Some(ParseNat(whole) as real + ParseNat(frac) as real / Pow(10.0, |frac|))
  }

  /** Index of the first point in s, or |s| when there is none. */
  function PointIndex(s: string): (k: nat)
    ensures k <= |s|
    ensures forall i :: 0 <= i < k ==> s[i] != '.'
    ensures k < |s| ==> s[k] == '.'
    decreases |s|
  {
    if s == [] then 0 else if s[0] == '.' then 0 else 1 + PointIndex(s[1..])
  }

  /** A printed natural number reads back as itself. */
  lemma ParseDecimalOfDigits(n: nat)
    ensures forall i :: 0 <= i < |DigitString(n)| ==> IsDigit(DigitString(n)[i])
    ensures ParseDecimal(DigitString(n)) == Some(n as real)
  {
    var s := DigitString(n);
    NoPointInDigits(s);
    ParseDigitString(n);
  }

  lemma NoPointInDigits(s: string)
    requires AllDigits(s)
    ensures PointIndex(s) == |s|
  {
    assert forall i :: 0 <= i < |s| ==> s[i] != '.';
  }

  /** The end of the run of digits of s that starts at j. */
  function DigitsFrom(s: string, j: nat): (e: nat)
    requires j <= |s|
    ensures j <= e <= |s|
    ensures forall i :: j <= i < e ==> IsDigit(s[i])
    ensures e < |s| ==> !IsDigit(s[e])
    decreases |s| - j
  {
    if j < |s| && IsDigit(s[j]) then DigitsFrom(s, j + 1) else j
  }

  /** `re.search(r'(\d+\.\d+)', s)`: the leftmost run of digits, a point and a run of digits.
      At a given start the greedy first run cannot give back digits usefully (the character
      after a shorter run is a digit, not a point), so a start matches exactly when its
      maximal digit run is followed by a point and a digit. */
  function FindDecimal(s: string): (r: Option<string>)
    ensures r.Some? ==> |r.value| >= 3
    ensures r.Some? ==> forall i :: 0 <= i < |r.value| ==> IsDigit(r.value[i]) || r.value[i] == '.'
    ensures r.Some? ==> PointIndex(r.value) < |r.value| - 1 && AllDigits(r.value[PointIndex(r.value) + 1..])
    ensures r.Some? ==> PointIndex(r.value) > 0
  {
    FindDecimalFrom(s, 0)
  }

  /** The search from start position p on. */
  function FindDecimalFrom(s: string, p: nat): (r: Option<string>)
    requires p <= |s|
    ensures r.Some? ==> DecimalShaped(r.value)
    decreases |s| - p
  {
    if p == |s| then None
    else
      var k := DigitsFrom(s, p);
      if p < k && k + 1 < |s| && s[k] == '.' && IsDigit(s[k + 1]) then
        DecimalAt(s, p, k);
        Some(s[p..DigitsFrom(s, k + 1)])
      else FindDecimalFrom(s, p + 1)
  }

  /** Digits, a point, at least one digit: the shape of a capture. */
  predicate DecimalShaped(w: string) {
    && |w| >= 3
    && (forall i :: 0 <= i < |w| ==> IsDigit(w[i]) || w[i] == '.')
    && 0 < PointIndex(w) < |w| - 1 && AllDigits(w[PointIndex(w) + 1..])
  }

  /** A digit run from p to k followed by a point and a digit: the capture of the digits,
      the point and the digits after it is shaped as a decimal. */
  lemma DecimalAt(s: string, p: nat, k: nat)
    requires p <= |s| && k == DigitsFrom(s, p) && p < k && k + 1 < |s| && s[k] == '.' && IsDigit(s[k + 1])
    ensures DecimalShaped(s[p..DigitsFrom(s, k + 1)])
  {
    var e := DigitsFrom(s, k + 1);
    var w := s[p..e];
    forall i | 0 <= i < |w| ensures IsDigit(w[i]) || w[i] == '.' {
      assert w[i] == s[p + i];
    }
    assert w[k - p] == s[k];
    FirstPoint(w, k - p);
    var u := w[k - p + 1..];
    forall j | 0 <= j < |u| ensures IsDigit(u[j]) {
      assert u[j] == s[k + 1 + j];
    }
  }

  /** A point preceded by no point is the first one. */
  lemma FirstPoint(w: string, k: nat)
    requires k < |w| && w[k] == '.' && forall i :: 0 <= i < k ==> w[i] != '.'
    ensures PointIndex(w) == k
  {
  }

  /** What `re.search(r'(\d+\.\d+)', s)` captures always converts with `float`, to a value at least 0. */
  lemma FindDecimalParses(s: string)
    requires FindDecimal(s).Some?
    ensures ParseDecimal(FindDecimal(s).value).Some?
  {
  }
}
