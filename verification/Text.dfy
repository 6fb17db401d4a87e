/** The string operations of Python that the models use, on sequences of characters. */
module Text {
  import opened Common

  // ---------------------------------------------------------------- decimal numbers

  predicate IsDigit(c: char) { '0' <= c <= '9' }

  function Digit(d: nat): (c: char)
    requires d < 10
    ensures IsDigit(c) && DigitValue(c) == d
  {
    (d + '0' as int) as char
  }

  function DigitValue(c: char): (d: nat)
    requires IsDigit(c)
    ensures d < 10
  {
    c as int - '0' as int
  }

  predicate AllDigits(s: string) { forall i :: 0 <= i < |s| ==> IsDigit(s[i]) }

  /** `str(n)` for a natural number. */
  function Show(n: nat): (s: string)
    ensures s != "" && AllDigits(s)
  {
    if n < 10 then [Digit(n)] else Show(n / 10) + [Digit(n % 10)]
  }

  function Value(s: string): nat
    requires AllDigits(s)
  {
    if s == "" then 0 else Value(s[..|s| - 1]) * 10 + DigitValue(s[|s| - 1])
  }

  lemma {:induction false} ShowValue(n: nat)
    ensures Value(Show(n)) == n
  {
    if n >= 10 {
      ShowValue(n / 10);
      var s := Show(n);
      assert s[..|s| - 1] == Show(n / 10);
    } else {
      assert Show(n)[..0] == "";
    }
  }

  lemma ShowInjective(m: nat, n: nat)
    requires Show(m) == Show(n)
    ensures m == n
  {
    ShowValue(m);
    ShowValue(n);
  }

  predicate IsSpace(c: char) { c == ' ' || '\t' <= c <= '\r' }

  /** Blank, tab, line feed, vertical tab, form feed and carriage return. */
  lemma IsSpaceMeaning(c: char)
    ensures IsSpace(c) <==> c in {' ', '\t', '\n', '\U{0B}', '\U{0C}', '\r'}
  {
    assert c as int == 0x0B <==> c == '\U{0B}';
    assert c as int == 0x0C <==> c == '\U{0C}';
  }

  /** `s.strip()`. */
  function Strip(s: string): (r: string)
    ensures |r| <= |s|
  {
    if s != "" && IsSpace(s[0]) then Strip(s[1..])
    else if s != "" && IsSpace(s[|s| - 1]) then Strip(s[..|s| - 1])
    else s
  }

  lemma StripNothing(s: string)
    requires s == "" || (!IsSpace(s[0]) && !IsSpace(s[|s| - 1]))
    ensures Strip(s) == s
  {
  }

  predicate Blank(s: string) { forall i :: 0 <= i < |s| ==> IsSpace(s[i]) }

  /** Whether `s` is blank outside of `lo` to `hi` and neither starts nor ends with a blank inside. */
  predicate Core(s: string, lo: nat, hi: nat)
  {
    && lo <= hi <= |s| && (forall i :: 0 <= i < |s| && !(lo <= i < hi) ==> IsSpace(s[i]))
    && (lo < hi ==> !IsSpace(s[lo]) && !IsSpace(s[hi - 1]))
  }

  /** Surrounding blanks are removed, and nothing else. */
  lemma {:induction false} StripCore(s: string, lo: nat, hi: nat)
    requires Core(s, lo, hi)
    ensures Strip(s) == s[lo..hi]
    decreases |s|
  {
    if lo > 0 {
      StripCore(s[1..], lo - 1, hi - 1);
      assert s[1..][lo - 1..hi - 1] == s[lo..hi];
    } else if hi == 0 && s != "" {
      StripCore(s[1..], 0, 0);
    } else if hi < |s| {
      StripCore(s[..|s| - 1], 0, hi);
      assert s[..|s| - 1][0..hi] == s[0..hi];
    }
  }

  lemma {:induction false} CoreOf(s: string) returns (lo: nat, hi: nat)
    ensures Core(s, lo, hi)
  {
    if s != "" && IsSpace(s[0]) {
      lo, hi := CoreOf(s[1..]);
      assert forall i :: 0 < i < |s| ==> s[i] == s[1..][i - 1];
      lo, hi := lo + 1, hi + 1;
    } else if s != "" && IsSpace(s[|s| - 1]) {
      lo, hi := CoreOf(s[..|s| - 1]);
    } else {
      lo, hi := 0, |s|;
    }
  }

  lemma StripAround(a: string, s: string, b: string)
    requires Blank(a) && Blank(b)
    ensures Strip(a + s + b) == Strip(s)
  {
    var lo, hi := CoreOf(s);
    StripCore(s, lo, hi);
    var t := a + s + b;
    assert forall i :: 0 <= i < |s| ==> t[|a| + i] == s[i];
    StripCore(t, |a| + lo, |a| + hi);
    assert t[|a| + lo..|a| + hi] == s[lo..hi];
  }

  lemma {:induction false} StripEnd(s: string, c: char)
    requires IsSpace(c) && (s == "" || !IsSpace(s[0]))
    ensures Strip(s + [c]) == Strip(s)
  {
    assert s == "" ==> (s + [c])[1..] == "";
    assert (s + [c])[..|s|] == s;
  }

  /** `int(s)`: surrounding blanks and a sign are allowed; `None` is a ValueError. */
  function ParseInt(s: string): Option<int>
  {
    var t := Strip(s);
    if t != "" && AllDigits(t) then Some(Value(t))
    else if |t| > 1 && t[0] in "+-" && AllDigits(t[1..]) then
      var n: int := if t[0] == '-' then 0 - Value(t[1..]) else Value(t[1..]);
      Some(n)
    else None
  }

  lemma ParseShow(n: nat)
    ensures ParseInt(Show(n)) == Some(n)
  {
    StripNothing(Show(n));
    ShowValue(n);
  }

  /** `str(n)` for an integer. */
  function ShowInt(n: int): string { if n < 0 then "-" + Show(-n) else Show(n) }

  lemma ParseShowInt(n: int)
    ensures ParseInt(ShowInt(n)) == Some(n)
    ensures n >= 0 ==> ShowInt(n) == Show(n)
  {
    if n < 0 {
      ShowValue(-n);
      ParseNegative(Show(-n));
      assert ShowInt(n) == "-" + Show(-n) && 0 - Value(Show(-n)) == n;
    } else {
      ParseShow(n);
    }
  }

  /** What counts as an integer: digits, after a sign or not, between blanks. */
  lemma ParseIntMeaning(s: string)
    ensures var t := Strip(s);
      && (t != "" && AllDigits(t) ==> ParseInt(s) == Some(Value(t)))
      && (|t| > 1 && t[0] == '+' && AllDigits(t[1..]) ==> ParseInt(s) == Some(Value(t[1..])))
      && (|t| > 1 && t[0] == '-' && AllDigits(t[1..]) ==> ParseInt(s) == Some(0 - Value(t[1..])))
      && (ParseInt(s).Some? ==>
            t != "" && (AllDigits(t) || (|t| > 1 && (t[0] == '+' || t[0] == '-') && AllDigits(t[1..]))))
  {
    assert forall c :: c in "+-" <==> c == '+' || c == '-';
  }

  lemma ParseNegative(t: string)
    requires t != "" && AllDigits(t)
    ensures ParseInt("-" + t) == Some(0 - Value(t))
  {
    var s := "-" + t;
    assert s[0] == '-' && s[1..] == t;
    assert forall i :: 0 <= i < |s| ==> s[i] == '-' || IsDigit(s[i]);
    StripNothing(s);
    assert !IsDigit(s[0]) && !AllDigits(s);
  }

  lemma {:induction false} ShowLength(m: nat, n: nat)
    requires m <= n
    ensures |Show(m)| <= |Show(n)|
    decreases n
  {
    if m >= 10 { ShowLength(m / 10, n / 10); }
  }

  /** `s.zfill(w)` for a string of digits. */
  function Zfill(s: string, w: nat): (r: string)
    ensures |r| == if |s| < w then w else |s|
  {
    seq(if |s| < w then w - |s| else 0, _ => '0') + s
  }

  lemma {:induction false} ValueOfZeros(k: nat, s: string)
    requires AllDigits(s)
    ensures AllDigits(seq(k, _ => '0') + s) && Value(seq(k, _ => '0') + s) == Value(s)
    decreases |s|, k
  {
    var z := seq(k, _ => '0');
    if s != "" {
      assert (z + s)[..|z + s| - 1] == z + s[..|s| - 1];
      ValueOfZeros(k, s[..|s| - 1]);
    } else if k > 0 {
      assert (z + s)[..k - 1] == seq(k - 1, _ => '0') + "";
      ValueOfZeros(k - 1, "");
    }
  }

  /** Equal texts of padded numbers stand for equal numbers. */
  lemma ZfillInjective(m: nat, n: nat, w: nat)
    requires Zfill(Show(m), w) == Zfill(Show(n), w)
    ensures m == n
  {
    ZfillValue(m, w);
    ZfillValue(n, w);
  }

  lemma ZfillValue(n: nat, w: nat)
    ensures AllDigits(Zfill(Show(n), w)) && Value(Zfill(Show(n), w)) == n
  {
    ShowValue(n);
    ValueOfZeros(if |Show(n)| < w then w - |Show(n)| else 0, Show(n));
  }

  // ---------------------------------------------------------------- order

  /** The order of strings. */
  predicate LexLess(a: string, b: string)
  {
    b != [] && (a == [] || a[0] < b[0] || (a[0] == b[0] && LexLess(a[1..], b[1..])))
  }

  /** Of two different strings exactly one comes first. */
  lemma {:induction false} LexTotal(a: string, b: string)
    ensures a == b <==> !LexLess(a, b) && !LexLess(b, a)
    ensures !(LexLess(a, b) && LexLess(b, a))
  {
    if a != [] && b != [] {
      LexTotal(a[1..], b[1..]);
      assert a == [a[0]] + a[1..] && b == [b[0]] + b[1..];
    }
  }

  // ---------------------------------------------------------------- splitting

  /** `s.split(c)`: always at least one part. */
  function Split(s: string, c: char): (parts: seq<string>)
    ensures parts != []
  {
    if s == "" then [""]
    else if s[0] == c then [""] + Split(s[1..], c)
    else
      var rest := Split(s[1..], c);
      [[s[0]] + rest[0]] + rest[1..]
  }

  /** `c.join(parts)`. */
  function Join(parts: seq<string>, c: char): string
  {
    if parts == [] then ""
    else if |parts| == 1 then parts[0]
    else parts[0] + [c] + Join(parts[1..], c)
  }

  lemma {:induction false} SplitNone(s: string, c: char)
    requires c !in s
    ensures Split(s, c) == [s]
  {
    if s != "" {
      SplitNone(s[1..], c);
      assert [s[0]] + s[1..] == s;
    }
  }

  lemma {:induction false} SplitFirst(a: string, c: char, b: string)
    requires c !in a
    ensures Split(a + [c] + b, c) == [a] + Split(b, c)
  {
    var s := a + [c] + b;
    if a == "" {
      assert s[1..] == b;
    } else {
      SplitFirst(a[1..], c, b);
      assert s[1..] == a[1..] + [c] + b && s[0] == a[0];
      assert [a[0]] + a[1..] == a;
    }
  }

  /** Splitting undoes joining parts that do not contain the separator. */
  lemma {:induction false} SplitJoin(parts: seq<string>, c: char)
    requires parts != [] && forall i :: 0 <= i < |parts| ==> c !in parts[i]
    ensures Split(Join(parts, c), c) == parts
  {
    if |parts| == 1 {
      SplitNone(parts[0], c);
    } else {
      SplitFirst(parts[0], c, Join(parts[1..], c));
      SplitJoin(parts[1..], c);
      assert parts == [parts[0]] + parts[1..];
    }
  }

  lemma {:induction false} JoinLast(parts: seq<string>, x: string, c: char)
    requires parts != []
    ensures Join(parts + [x], c) == Join(parts, c) + [c] + x
  {
    if |parts| == 1 {
      assert (parts + [x])[1..] == [x];
    } else {
      assert (parts + [x])[1..] == parts[1..] + [x];
      JoinLast(parts[1..], x, c);
    }
  }

  lemma JoinThree(a: string, b: string, d: string, c: char)
    ensures Join([a, b, d], c) == a + [c] + b + [c] + d
  {
    assert [a, b, d][1..] == [b, d] && [b, d][1..] == [d];
    assert Join([b, d], c) == b + [c] + Join([d], c);
    assert a + [c] + (b + [c] + d) == a + [c] + b + [c] + d;
  }

  lemma {:induction false} JoinLacks(parts: seq<string>, c: char, x: char)
    requires x != c && forall i :: 0 <= i < |parts| ==> x !in parts[i]
    ensures x !in Join(parts, c)
  {
    if |parts| > 1 { JoinLacks(parts[1..], c, x); }
  }
}
