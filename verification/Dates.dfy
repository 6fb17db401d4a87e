/**
  Copyright years in `find_copyrights.py`: `datestr` prints a set of years as
  comma-separated years and ranges, `process_dates` reads such a text.
*/
module Dates {
  import opened Common
  import opened StableSort
  import opened Text

  /** The years from `first` to `last`. */
  datatype Run = Run(first: int, last: int)

  predicate Within(r: Run, y: int) { r.first <= y <= r.last }

  /** Whether a list of years and ranges contains a year. */
  predicate Denotes(runs: seq<Run>, y: int)
  {
    runs != [] && (Within(runs[0], y) || Denotes(runs[1..], y))
  }

  /** The sorted list of a set of years. */
  ghost predicate Increasing(d: seq<int>)
  {
    forall i, j :: 0 <= i < j < |d| ==> d[i] < d[j]
  }

  // ---------------------------------------------------------------- printing

  /** The runs of a list that goes on after `first` to `last`. */
  function RunsFrom(first: int, last: int, rest: seq<int>): (r: seq<Run>)
    ensures r != [] && r[0].first == first
    decreases |rest|
  {
    if rest == [] then [Run(first, last)]
    else if rest[0] == last + 1 then RunsFrom(first, rest[0], rest[1..])
    else [Run(first, last)] + RunsFrom(rest[0], rest[0], rest[1..])
  }

  function Runs(d: seq<int>): seq<Run>
    requires d != []
  {
    RunsFrom(d[0], d[0], d[1..])
  }

  function RunText(r: Run): string
  {
    if r.first == r.last then ShowInt(r.first) else ShowInt(r.first) + "-" + ShowInt(r.last)
  }

  function Texts(runs: seq<Run>): seq<string>
  {
    if runs == [] then [] else [RunText(runs[0])] + Texts(runs[1..])
  }

  lemma TextsCons(r: Run, runs: seq<Run>)
    ensures Texts([r] + runs) == [RunText(r)] + Texts(runs)
  {
    assert ([r] + runs)[1..] == runs;
  }

  function DateText(d: seq<int>): string
    requires d != []
  {
    Join(Texts(Runs(d)), ',')
  }

  // ---------------------------------------------------------------- the runs

  /** Runs that are not empty and leave a gap before the next one. */
  ghost predicate Maximal(runs: seq<Run>)
  {
    && (forall i :: 0 <= i < |runs| ==> runs[i].first <= runs[i].last)
    && (forall i :: 0 <= i < |runs| - 1 ==> runs[i].last + 1 < runs[i + 1].first)
  }

  lemma {:induction false} RunsFromMaximal(first: int, last: int, rest: seq<int>)
    requires first <= last && Increasing([last] + rest)
    ensures Maximal(RunsFrom(first, last, rest))
    decreases |rest|
  {
    if rest != [] {
      var all, y, more := [last] + rest, rest[0], rest[1..];
      assert all[0] < all[1] && [y] + more == all[1..];
      if y == last + 1 {
        RunsFromMaximal(first, y, more);
      } else {
        RunsFromMaximal(y, y, more);
        var tail := RunsFrom(y, y, more);
        var r := [Run(first, last)] + tail;
        assert forall i :: 1 <= i < |r| ==> r[i] == tail[i - 1];
      }
    }
  }

  lemma {:induction false} RunsFromDenote(first: int, last: int, rest: seq<int>, y: int)
    requires first <= last
    ensures Denotes(RunsFrom(first, last, rest), y) <==> Within(Run(first, last), y) || y in rest
    decreases |rest|
  {
    if rest == [] {
      assert [Run(first, last)][1..] == [];
    } else {
      var z, more := rest[0], rest[1..];
      assert y in rest <==> y == z || y in more;
      if z == last + 1 {
        RunsFromDenote(first, z, more, y);
      } else {
        RunsFromDenote(z, z, more, y);
        assert ([Run(first, last)] + RunsFrom(z, z, more))[1..] == RunsFrom(z, z, more);
      }
    }
  }

  /** The printed runs are the maximal runs of the years. */
  lemma RunsMeaning(d: seq<int>, y: int)
    requires d != [] && Increasing(d)
    ensures Maximal(Runs(d)) && (Denotes(Runs(d), y) <==> y in d)
  {
    assert d == [d[0]] + d[1..];
    RunsFromMaximal(d[0], d[0], d[1..]);
    RunsFromDenote(d[0], d[0], d[1..], y);
  }

  lemma {:induction false} DenotedBy(runs: seq<Run>, y: int) returns (i: nat)
    requires Denotes(runs, y)
    ensures i < |runs| && Within(runs[i], y)
  {
    i := 0;
    if !Within(runs[0], y) {
      i := DenotedBy(runs[1..], y);
      i := i + 1;
    }
  }

  lemma {:induction false} WithinDenotes(runs: seq<Run>, i: nat, y: int)
    requires i < |runs| && Within(runs[i], y)
    ensures Denotes(runs, y)
  {
    if i > 0 { WithinDenotes(runs[1..], i - 1, y); }
  }

  // ---------------------------------------------------------------- no shorter list

  lemma {:induction false} RunsApart(runs: seq<Run>, i: nat, j: nat)
    requires Maximal(runs) && i < j < |runs|
    ensures runs[i].last + 1 < runs[j].first
    decreases j
  {
    if i < j - 1 { RunsApart(runs, i, j - 1); }
  }

  /** The year after a run is not in the set. */
  lemma GapAfter(runs: seq<Run>, i: nat)
    requires Maximal(runs) && i < |runs|
    ensures !Denotes(runs, runs[i].last + 1)
  {
    var y := runs[i].last + 1;
    if Denotes(runs, y) {
      var j := DenotedBy(runs, y);
      if j < i { RunsApart(runs, j, i); }
      if i < j { RunsApart(runs, i, j); }
    }
  }

  /** For each run, an interval of another list that contains its first year. */
  lemma {:induction false} Cover(runs: seq<Run>, other: seq<Run>, n: nat) returns (g: seq<int>)
    requires n <= |runs| && Maximal(runs) && forall y: int :: Denotes(other, y) <==> Denotes(runs, y)
    ensures |g| == n
    ensures forall i :: 0 <= i < n ==> 0 <= g[i] < |other| && Within(other[g[i]], runs[i].first)
  {
    g := [];
    if n > 0 {
      var h := Cover(runs, other, n - 1);
      WithinDenotes(runs, n - 1, runs[n - 1].first);
      var k := DenotedBy(other, runs[n - 1].first);
      g := h + [k];
    }
  }

  /** An interval inside the set contains the first year of at most one run. */
  lemma OneRunPerInterval(runs: seq<Run>, other: seq<Run>, k: nat, i: nat, j: nat)
    requires Maximal(runs) && i < j < |runs| && k < |other| && Within(other[k], runs[i].first)
    requires forall y: int :: Denotes(other, y) <==> Denotes(runs, y)
    ensures !Within(other[k], runs[j].first)
  {
    RunsApart(runs, i, j);
    GapAfter(runs, i);
    if Within(other[k], runs[i].last + 1) { WithinDenotes(other, k, runs[i].last + 1); }
  }

  lemma {:induction false} Pigeonhole(g: seq<int>, m: nat)
    requires forall i :: 0 <= i < |g| ==> 0 <= g[i] < m
    requires forall i, j :: 0 <= i < j < |g| ==> g[i] != g[j]
    ensures |g| <= m
    decreases m
  {
    if g != [] {
      assert 0 <= g[0] < m;
      if m - 1 in g {
        var k :| 0 <= k < |g| && g[k] == m - 1;
        Pigeonhole(g[..k] + g[k + 1..], m - 1);
      } else {
        Pigeonhole(g, m - 1);
      }
    }
  }

  /** No shorter list of years and ranges denotes the same set. */
  lemma RunsAreFewest(d: seq<int>, other: seq<Run>)
    requires d != [] && Increasing(d) && forall y: int :: Denotes(other, y) <==> y in d
    ensures |Runs(d)| <= |other|
  {
    var runs := Runs(d);
    forall y: int ensures Denotes(other, y) <==> Denotes(runs, y) { RunsMeaning(d, y); }
    RunsMeaning(d, 0);
    var g := Cover(runs, other, |runs|);
    forall i, j | 0 <= i < j < |g| ensures g[i] != g[j] { OneRunPerInterval(runs, other, g[i], i, j); }
    Pigeonhole(g, |other|);
  }

  // ---------------------------------------------------------------- reading

  /** The end of the blanks from `k` on. */
  function SkipSpaces(s: string, k: nat): (e: nat)
    requires k <= |s|
    ensures k <= e <= |s|
    decreases |s| - k
  {
    if k < |s| && IsSpace(s[k]) then SkipSpaces(s, k + 1) else k
  }

  predicate FourDigits(s: string, k: nat) { k + 4 <= |s| && AllDigits(s[k..k + 4]) }

  /** `date_range_re.match`: four digits, a dash, four digits; what follows is ignored. */
  function MatchRange(s: string): Option<Run>
  {
    if !FourDigits(s, 0) then None
    else
      var dash := SkipSpaces(s, 4);
      if dash == |s| || s[dash] != '-' then None
      else
        var k := SkipSpaces(s, dash + 1);
        if FourDigits(s, k) then Some(Run(Value(s[0..4]), Value(s[k..k + 4]))) else None
  }

  /** Whether one comma-separated part adds the year `y`; a part that is no number adds nothing. */
  predicate Adds(part: string, y: int)
  {
    var date := Strip(part);
    match MatchRange(date)
    case Some(r) => Within(r, y)
    case None => ParseInt(date) == Some(y)
  }

  predicate SomeAdds(parts: seq<string>, y: int)
  {
    parts != [] && (Adds(parts[0], y) || SomeAdds(parts[1..], y))
  }

  // ---------------------------------------------------------------- round trip

  lemma FourDigitNumber(n: nat)
    ensures |Show(n)| == 4 <==> 1000 <= n <= 9999
    ensures |Show(n)| > 4 <==> n > 9999
  {
    assert Show(n) == if n < 10 then [Digit(n)] else Show(n / 10) + [Digit(n % 10)];
    var a := n / 10;
    assert Show(a) == if a < 10 then [Digit(a)] else Show(a / 10) + [Digit(a % 10)];
    var b := a / 10;
    assert Show(b) == if b < 10 then [Digit(b)] else Show(b / 10) + [Digit(b % 10)];
    var c := b / 10;
    assert Show(c) == if c < 10 then [Digit(c)] else Show(c / 10) + [Digit(c % 10)];
  }

  lemma {:induction false} ValueBound(s: string)
    requires AllDigits(s) && |s| <= 4
    ensures Value(s) <=
      (if |s| == 0 then 0 else if |s| == 1 then 9 else if |s| == 2 then 99 else if |s| == 3 then 999 else 9999)
  {
    if s != "" { ValueBound(s[..|s| - 1]); }
  }

  lemma PlainStrip(s: string)
    requires s != "" && forall i :: 0 <= i < |s| ==> !IsSpace(s[i])
    ensures Strip(s) == s
  {
  }

  lemma NoSpaces(n: int)
    ensures ShowInt(n) != "" && forall i :: 0 <= i < |ShowInt(n)| ==> !IsSpace(ShowInt(n)[i])
  {
  }

  lemma SkipNothing(s: string, k: nat)
    requires k <= |s| && (k < |s| ==> !IsSpace(s[k]))
    ensures SkipSpaces(s, k) == k
  {
  }

  /** A single year reads back, whatever its length. */
  lemma SingleYear(n: int, y: int)
    ensures Adds(ShowInt(n), y) <==> y == n
  {
    var s := ShowInt(n);
    NoSpaces(n);
    PlainStrip(s);
    ParseShowInt(n);
    assert MatchRange(s).None? by {
      if FourDigits(s, 0) && |s| > 4 {
        assert IsDigit(s[0..4][0]);
        SkipNothing(s, 4);
      }
    }
  }

  /** A number with a dash after its digits is not an integer. */
  lemma DashNumber(a: string, b: string)
    requires a != "" && AllDigits(a) && AllDigits(b)
    ensures Strip(a + "-" + b) == a + "-" + b && ParseInt(a + "-" + b).None?
  {
    var s := a + "-" + b;
    assert s[|a|] == '-' && s[0] == a[0];
    assert forall i :: 0 <= i < |s| ==> s[i] == '-' || IsDigit(s[i]);
    PlainStrip(s);
    assert !AllDigits(s);
  }

  lemma MatchNotFour(a: string, b: string)
    requires a != "" && AllDigits(a) && AllDigits(b) && |a| != 4
    ensures MatchRange(a + "-" + b).None?
  {
    var s := a + "-" + b;
    assert s[|a|] == '-';
    if |a| < 4 {
      if |s| >= 4 { assert s[0..4][|a|] == '-'; }
    } else {
      assert s[4] == a[4];
      assert SkipSpaces(s, 4) == 4;
    }
  }

  lemma MatchDash(s: string)
    requires FourDigits(s, 0) && |s| > 4 && s[4] == '-' && (|s| > 5 ==> !IsSpace(s[5]))
    ensures MatchRange(s) == if FourDigits(s, 5) then Some(Run(Value(s[0..4]), Value(s[5..9]))) else None
  {
    SkipNothing(s, 4);
    SkipNothing(s, 5);
  }

  lemma MatchFour(a: string, b: string)
    requires AllDigits(a) && AllDigits(b) && |a| == 4
    ensures MatchRange(a + "-" + b) == if |b| >= 4 then Some(Run(Value(a), Value(b[..4]))) else None
  {
    var s := a + "-" + b;
    assert s[0..4] == a && s[4] == '-' && s[5..] == b;
    if b != "" { assert s[5] == b[0]; }
    if |b| >= 4 { assert s[5..9] == b[..4]; }
    MatchDash(s);
  }

  /** A printed range that starts before the year 0 adds nothing. */
  lemma NegativeRange(f: int, l: int, y: int)
    requires f < 0
    ensures !Adds(ShowInt(f) + "-" + ShowInt(l), y)
  {
    var a, b := ShowInt(f), ShowInt(l);
    var s := a + "-" + b;
    NoSpaces(f);
    NoSpaces(l);
    assert forall i :: 0 <= i < |s| ==> s[i] == '-' || s[i] in a || s[i] in b;
    PlainStrip(s);
    assert s[0] == '-' && s[1..][|a| - 1] == '-';
    if |s| >= 4 { assert s[0..4][0] == '-'; }
  }

  /** What a printed range of at least two years reads as. */
  lemma NaturalRange(f: nat, l: nat, y: int)
    ensures 1000 <= f && l <= 9999 && f <= l ==> (Adds(Show(f) + "-" + Show(l), y) <==> f <= y <= l)
    ensures Adds(Show(f) + "-" + Show(l), y) ==> 1000 <= y <= 9999
  {
    var a, b := Show(f), Show(l);
    FourDigitNumber(f);
    FourDigitNumber(l);
    ShowValue(f);
    ShowValue(l);
    DashNumber(a, b);
    if |a| == 4 {
      MatchFour(a, b);
      if |b| >= 4 { ValueBound(b[..4]); }
      if |b| == 4 { assert b[..4] == b; }
    } else {
      MatchNotFour(a, b);
    }
    if 1000 <= f && l <= 9999 && f <= l { ShowLength(f, l); }
  }

  /** A range of at least two years must have ends of four digits to be read. */
  predicate FourDigitRange(r: Run) { r.first < r.last ==> 1000 <= r.first && r.last <= 9999 }

  lemma RunAdds(r: Run, y: int)
    requires r.first <= r.last
    ensures FourDigitRange(r) ==> (Adds(RunText(r), y) <==> Within(r, y))
    ensures Adds(RunText(r), y) ==> (r.first == r.last && y == r.first) || (r.first < r.last && 1000 <= y <= 9999)
  {
    if r.first == r.last {
      SingleYear(r.first, y);
    } else if r.first < 0 {
      NegativeRange(r.first, r.last, y);
    } else {
      NaturalRange(r.first, r.last, y);
    }
  }

  lemma {:induction false} TextsAdd(runs: seq<Run>, y: int)
    requires forall i :: 0 <= i < |runs| ==> runs[i].first <= runs[i].last && FourDigitRange(runs[i])
    ensures SomeAdds(Texts(runs), y) <==> Denotes(runs, y)
  {
    if runs != [] {
      var t := Texts(runs);
      assert t[0] == RunText(runs[0]) && t[1..] == Texts(runs[1..]);
      RunAdds(runs[0], y);
      TextsAdd(runs[1..], y);
    }
  }

  lemma {:induction false} TextsPlain(runs: seq<Run>)
    ensures |Texts(runs)| == |runs|
    ensures forall i :: 0 <= i < |runs| ==> ',' !in Texts(runs)[i]
  {
    if runs != [] { TextsPlain(runs[1..]); }
  }

  /** Splitting the printed text gives back the texts of the runs. */
  lemma SplitText(d: seq<int>)
    requires d != []
    ensures Split(DateText(d), ',') == Texts(Runs(d))
  {
    TextsPlain(Runs(d));
    SplitJoin(Texts(Runs(d)), ',');
  }

  lemma {:induction false} AddedByPart(parts: seq<string>, y: int) returns (i: nat)
    requires SomeAdds(parts, y)
    ensures i < |parts| && Adds(parts[i], y)
  {
    i := 0;
    if !Adds(parts[0], y) {
      i := AddedByPart(parts[1..], y);
      i := i + 1;
    }
  }

  lemma {:induction false} TextAt(runs: seq<Run>, i: nat)
    requires i < |Texts(runs)|
    ensures i < |runs| && Texts(runs)[i] == RunText(runs[i])
  {
    if i > 0 { TextAt(runs[1..], i - 1); }
  }

  lemma AddedBy(runs: seq<Run>, y: int) returns (i: nat)
    requires SomeAdds(Texts(runs), y)
    ensures i < |runs| && Adds(RunText(runs[i]), y)
  {
    i := AddedByPart(Texts(runs), y);
    TextAt(runs, i);
  }

  /** A range with an end that has not four digits loses that end. */
  lemma BadRangeLoses(runs: seq<Run>, k: nat) returns (y: int)
    requires Maximal(runs) && k < |runs| && !FourDigitRange(runs[k])
    ensures Denotes(runs, y) && !SomeAdds(Texts(runs), y)
  {
    y := if runs[k].first < 1000 then runs[k].first else runs[k].last;
    WithinDenotes(runs, k, y);
    if SomeAdds(Texts(runs), y) {
      var i := AddedBy(runs, y);
      RunAdds(runs[i], y);
      if i < k { RunsApart(runs, i, k); }
      if k < i { RunsApart(runs, k, i); }
    }
  }

  /** Blanks around a part do not matter. */
  lemma BlanksAround(a: string, part: string, b: string, y: int)
    requires Blank(a) && Blank(b)
    ensures Adds(a + part + b, y) <==> Adds(part, y)
  {
    StripAround(a, part, b);
  }

  /** Whether there are only blanks from `k` up to `e`, which is no blank. */
  predicate BlankTo(s: string, k: nat, e: nat) { e < |s| && !IsSpace(s[e]) && forall i :: k <= i < e ==> IsSpace(s[i]) }

  lemma {:induction false} SkipTo(s: string, k: nat, e: nat)
    requires k <= e && BlankTo(s, k, e)
    ensures SkipSpaces(s, k) == e
    decreases e - k
  {
    if k < e { SkipTo(s, k + 1, e); }
  }

  lemma MatchAt(s: string, dash: nat, k: nat)
    requires FourDigits(s, 0) && FourDigits(s, k)
    requires 4 <= dash < k && BlankTo(s, 4, dash) && s[dash] == '-' && BlankTo(s, dash + 1, k)
    ensures MatchRange(s) == Some(Run(Value(s[0..4]), Value(s[k..k + 4])))
  {
    SkipTo(s, 4, dash);
    SkipTo(s, dash + 1, k);
  }

  /** Nor do blanks around the dash of a range: four digits, a dash at `dash`, and four digits from `k` on. */
  lemma SpacedRange(s: string, dash: nat, k: nat, y: int)
    requires |s| == k + 4 && FourDigits(s, 0) && FourDigits(s, k)
    requires 4 <= dash < k && BlankTo(s, 4, dash) && s[dash] == '-' && BlankTo(s, dash + 1, k)
    ensures Adds(s, y) <==> Value(s[0..4]) <= y <= Value(s[k..k + 4])
  {
    assert IsDigit(s[0..4][0]) && IsDigit(s[k..k + 4][3]);
    StripNothing(s);
    MatchAt(s, dash, k);
  }

  /** What `process_dates` returns for a text: the years that some part adds. */
  ghost predicate Reads(text: string, years: set<int>)
  {
    forall y: int :: y in years <==> SomeAdds(Split(text, ','), y)
  }

  /**
    Reading the printed text gives back the years exactly when every range of at least
    two years has ends of four digits; for years of four digits it always does.
  */
  lemma DatesRoundTrip(d: seq<int>, years: set<int>)
    requires d != [] && Increasing(d) && Reads(DateText(d), years)
    ensures (forall y: int :: y in years <==> y in d) <==>
      forall k :: 0 <= k < |Runs(d)| ==> FourDigitRange(Runs(d)[k])
  {
    var runs := Runs(d);
    SplitText(d);
    RunsMeaning(d, 0);
    if k :| 0 <= k < |runs| && !FourDigitRange(runs[k]) {
      var y := BadRangeLoses(runs, k);
      RunsMeaning(d, y);
      assert y in d && y !in years;
    } else {
      forall y: int ensures y in years <==> y in d {
        TextsAdd(runs, y);
        RunsMeaning(d, y);
      }
    }
  }

  lemma {:induction false} FourDigitRuns(first: int, last: int, rest: seq<int>, k: nat)
    requires 1000 <= first <= last <= 9999 && forall i :: 0 <= i < |rest| ==> 1000 <= rest[i] <= 9999
    requires k < |RunsFrom(first, last, rest)|
    ensures FourDigitRange(RunsFrom(first, last, rest)[k])
    decreases |rest|
  {
    if rest != [] {
      if rest[0] == last + 1 {
        FourDigitRuns(first, rest[0], rest[1..], k);
      } else if k > 0 {
        FourDigitRuns(rest[0], rest[0], rest[1..], k - 1);
      }
    }
  }

  // ---------------------------------------------------------------- sets of years

  function Year(y: int): int { y }

  lemma {:induction false} SortedIncreases(s: seq<int>)
    requires Sorted(s, Year) && NoRepeats(s)
    ensures Increasing(s)
  {
    if s != [] {
      var rest := s[1..];
      SortedIncreases(rest);
      forall i, j | 0 <= i < j < |s| ensures s[i] < s[j] {
        assert s[j] == rest[j - 1] && s[j] in rest;
        if i > 0 { assert s[i] == rest[i - 1]; }
      }
    }
  }

  lemma {:induction false} InsertNoRepeats(x: int, s: seq<int>)
    requires NoRepeats(s) && x !in s
    ensures NoRepeats(Insert(x, s, Year))
  {
    if s != [] && Year(x) > Year(s[0]) {
      var rest := Insert(x, s[1..], Year);
      InsertNoRepeats(x, s[1..]);
      InsertMembers(x, s[1..], Year);
      forall i | 0 <= i < |rest| ensures rest[i] != s[0] {
        assert rest[i] in rest;
        assert forall j :: 0 <= j < |s[1..]| ==> s[1..][j] == s[j + 1];
      }
      assert Insert(x, s, Year) == [s[0]] + rest;
    }
  }

  lemma {:induction false} SortNoRepeats(s: seq<int>)
    requires NoRepeats(s)
    ensures NoRepeats(Sort(s, Year))
  {
    if s != [] {
      SortNoRepeats(s[1..]);
      SortMembers(s[1..], Year);
      InsertNoRepeats(s[0], Sort(s[1..], Year));
    }
  }

  /** However the set is listed, sorting gives its increasing list. */
  lemma SortedYears(list: seq<int>)
    requires NoRepeats(list)
    ensures Increasing(Sort(list, Year)) && forall y: int :: y in Sort(list, Year) <==> y in list
  {
    SortSorted(list, Year);
    SortMembers(list, Year);
    SortNoRepeats(list);
    SortedIncreases(Sort(list, Year));
  }

  /** Every non-empty set of four-digit years survives, in whatever order it is listed. */
  lemma YearsRoundTrip(all: set<int>, list: seq<int>, years: set<int>)
    requires list != [] && NoRepeats(list) && (forall y: int :: y in list <==> y in all)
    requires forall y: int :: y in all ==> 1000 <= y <= 9999
    requires Reads(DateText(Sort(list, Year)), years)
    ensures years == all
  {
    var d := Sort(list, Year);
    SortedYears(list);
    forall i | 0 <= i < |d| ensures 1000 <= d[i] <= 9999 { assert d[i] in d; }
    forall k | 0 <= k < |Runs(d)| ensures FourDigitRange(Runs(d)[k]) { FourDigitRuns(d[0], d[0], d[1..], k); }
    DatesRoundTrip(d, years);
    assert forall y: int :: y in years <==> y in all;
  }

  // ---------------------------------------------------------------- the program

  /** `datestr` on the elements of a set, listed in any order; the empty set raises. */
  method DateStr(years: seq<int>) returns (text: Option<string>)
    ensures text == if years == [] then None else Some(DateText(Sort(years, Year)))
  {
    var dates := Sort(years, Year);
    if dates == [] { return None; }
    var output: seq<string> := [];
    ghost var runs := Runs(dates);
    var first, second := dates[0], dates[0];
    dates := dates[1..];
    while dates != []
      invariant Texts(runs) == output + Texts(RunsFrom(first, second, dates))
      decreases |dates|
    {
      var next := dates[0];
      dates := dates[1..];
      if next == second + 1 {
        second := next;
      } else {
        TextsCons(Run(first, second), RunsFrom(next, next, dates));
        output := output + [RunText(Run(first, second))];
        first, second := next, next;
      }
    }
    assert Texts(RunsFrom(first, second, dates)) == [RunText(Run(first, second))] by { TextsCons(Run(first, second), []); }
    output := output + [RunText(Run(first, second))];
    assert output == Texts(runs);
    return Some(Join(output, ','));
  }

  lemma {:induction false} SomeAddsSnoc(parts: seq<string>, p: string, y: int)
    ensures SomeAdds(parts + [p], y) <==> SomeAdds(parts, y) || Adds(p, y)
  {
    if parts == [] {
      assert ([p])[1..] == [];
    } else {
      assert (parts + [p])[1..] == parts[1..] + [p];
      SomeAddsSnoc(parts[1..], p, y);
    }
  }

  /** `process_dates`. */
  method ProcessDates(dates: string) returns (output: set<int>)
    ensures Reads(dates, output)
  {
    var parts := Split(dates, ',');
    output := {};
    for n := 0 to |parts|
      invariant forall y: int :: y in output <==> SomeAdds(parts[..n], y)
    {
      ghost var before := output;
      var date := Strip(parts[n]);
      match MatchRange(date) {
        case Some(r) =>
          var i := r.first;
          while i < r.last + 1
            invariant r.first <= i <= r.last + 1 || r.last + 1 < i == r.first
            invariant forall y: int :: y in output <==> y in before || r.first <= y < i
          {
            output := output + {i};
            i := i + 1;
          }
        case None =>
          match ParseInt(date) {
            case Some(year) => output := output + {year};
            case None =>
          }
      }
      assert parts[..n + 1] == parts[..n] + [parts[n]];
      forall y: int ensures y in output <==> SomeAdds(parts[..n + 1], y) {
        SomeAddsSnoc(parts[..n], parts[n], y);
      }
    }
    assert parts[..|parts|] == parts;
  }
}
