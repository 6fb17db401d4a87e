/**
  The textual form of a port in `read_config.py`: `__str__` prints "object.port[index]",
  and `from_string` matches it with the regular expression (.*)\.([^.\[]+)(\[(\d+)\])?
*/
module PortText {
  import opened Common
  import opened PortBinder
  import opened Text

  function ToString(p: Port): string
  {
    p.obj + "." + p.name + "[" + ShowInt(p.index) + "]"
  }

  predicate NameChar(c: char) { c != '.' && c != '[' }

  /** Whether the first group of the expression can end at `k`. */
  predicate DotAt(s: string, k: nat)
  {
    k + 1 < |s| && s[k] == '.' && NameChar(s[k + 1]) && '\n' !in s[..k]
  }

  /** The last place below `n` where the first, greedy group can end. */
  function LastDot(s: string, n: nat): (r: Option<nat>)
    requires n <= |s|
    ensures r.Some? ==> r.value < n && DotAt(s, r.value)
  {
    if n == 0 then None else if DotAt(s, n - 1) then Some(n - 1) else LastDot(s, n - 1)
  }

  /** The end of the run of name characters from `k` on. */
  function NameEnd(s: string, k: nat): (e: nat)
    requires k <= |s|
    ensures k <= e <= |s|
    ensures forall i :: k <= i < e ==> NameChar(s[i])
    decreases |s| - k
  {
    if k < |s| && NameChar(s[k]) then NameEnd(s, k + 1) else k
  }

  function DigitsEnd(s: string, k: nat): (e: nat)
    requires k <= |s|
    ensures k <= e <= |s|
    ensures AllDigits(s[k..e])
    decreases |s| - k
  {
    if k < |s| && IsDigit(s[k]) then
      var e := DigitsEnd(s, k + 1);
      assert s[k..e] == [s[k]] + s[k + 1..e];
      e
    else k
  }

  /** The optional index from `k` on; without one the index is 0. */
  function IndexAt(s: string, k: nat): nat
    requires k <= |s|
  {
    if k == |s| || s[k] != '[' then 0
    else
      var e := DigitsEnd(s, k + 1);
      if e > k + 1 && e < |s| && s[e] == ']' then Value(s[k + 1..e]) else 0
  }

  /** `None` when the expression does not match. */
  function FromString(s: string): Option<Port>
  {
    match LastDot(s, |s|)
    case None => None
    case Some(k) =>
      var e := NameEnd(s, k + 1);
      Some(Port(s[..k], s[k + 1..e], IndexAt(s, e)))
  }

  lemma {:induction false} LastDotAt(s: string, k: nat, n: nat)
    requires k < n <= |s| && DotAt(s, k) && forall i :: k < i < n ==> s[i] != '.'
    ensures LastDot(s, n) == Some(k)
  {
    if n - 1 != k { LastDotAt(s, k, n - 1); }
  }

  lemma {:induction false} NameEndAt(s: string, k: nat, e: nat)
    requires k <= e < |s| && s[e] == '[' && forall i :: k <= i < e ==> NameChar(s[i])
    ensures NameEnd(s, k) == e
    decreases e - k
  {
    if k < e { NameEndAt(s, k + 1, e); }
  }

  lemma {:induction false} DigitsEndAt(s: string, k: nat, e: nat)
    requires k <= e < |s| && s[e] == ']' && forall i :: k <= i < e ==> IsDigit(s[i])
    ensures DigitsEnd(s, k) == e
    decreases e - k
  {
    if k < e { DigitsEndAt(s, k + 1, e); }
  }

  /** The ports whose text reads back. */
  predicate Readable(p: Port)
  {
    p.index >= 0 && p.name != "" && '.' !in p.name && '[' !in p.name && '\n' !in p.obj
  }

  /** Where the parts of a printed port lie. */
  lemma Layout(a: string, b: string, n: string)
    ensures var s := a + "." + b + "[" + n + "]";
      var e := |a| + 1 + |b|;
      && |s| == e + 2 + |n|
      && s[..|a|] == a && s[|a|] == '.' && s[|a| + 1..e] == b
      && s[e] == '[' && s[e + 1..e + 1 + |n|] == n && s[e + 1 + |n|] == ']'
  {
  }

  lemma SliceAt(s: string, lo: nat, hi: nat, t: string, i: nat)
    requires lo <= hi <= |s| && s[lo..hi] == t && lo <= i < hi
    ensures s[i] == t[i - lo]
  {
  }

  lemma ParsesAt(s: string, p: Port, k: nat, e: nat, n: string)
    requires Readable(p) && n == Show(p.index) && k == |p.obj| && e == k + 1 + |p.name|
    requires |s| == e + 2 + |n| && s[..k] == p.obj && s[k] == '.' && s[k + 1..e] == p.name
    requires s[e] == '[' && s[e + 1..e + 1 + |n|] == n && s[e + 1 + |n|] == ']'
    ensures FromString(s) == Some(p)
  {
    var g := e + 1 + |n|;
    forall i | k + 1 <= i < e ensures NameChar(s[i]) { SliceAt(s, k + 1, e, p.name, i); }
    forall i | e + 1 <= i < g ensures IsDigit(s[i]) { SliceAt(s, e + 1, g, n, i); }
    DotPart(s, k, e, g);
    NameEndAt(s, k + 1, e);
    ShowValue(p.index);
    IndexPart(s, e, g);
  }

  lemma DotPart(s: string, k: nat, e: nat, g: nat)
    requires k + 1 < e < g < |s| == g + 1 && s[k] == '.' && '\n' !in s[..k] && s[e] == '[' && s[g] == ']'
    requires forall i :: k < i < e ==> NameChar(s[i])
    requires forall i :: e < i < g ==> IsDigit(s[i])
    ensures LastDot(s, |s|) == Some(k)
  {
    LastDotAt(s, k, |s|);
  }

  lemma IndexPart(s: string, e: nat, g: nat)
    requires e + 1 < g < |s| && s[e] == '[' && s[g] == ']' && forall i :: e < i < g ==> IsDigit(s[i])
    ensures AllDigits(s[e + 1..g]) && IndexAt(s, e) == Value(s[e + 1..g])
  {
    DigitsEndAt(s, e + 1, g);
  }

  lemma ReadableParses(p: Port)
    requires Readable(p)
    ensures FromString(ToString(p)) == Some(p)
  {
    var n := Show(p.index);
    Layout(p.obj, p.name, n);
    ParsesAt(ToString(p), p, |p.obj|, |p.obj| + 1 + |p.name|, n);
  }

  /** Whether there is an index of `d` digits in brackets at `k`. */
  predicate BracketAt(s: string, k: nat, d: nat)
  {
    k + 1 + d < |s| && s[k] == '[' && d > 0 && s[k + 1 + d] == ']' && forall i :: k < i <= k + d ==> IsDigit(s[i])
  }

  /** The index is the number in brackets, and 0 if there is none. */
  lemma IndexMeaning(s: string, k: nat)
    requires k <= |s|
    ensures forall d :: BracketAt(s, k, d) ==> AllDigits(s[k + 1..k + 1 + d]) && IndexAt(s, k) == Value(s[k + 1..k + 1 + d])
    ensures (forall d :: !BracketAt(s, k, d)) ==> IndexAt(s, k) == 0
  {
    forall d | BracketAt(s, k, d)
      ensures AllDigits(s[k + 1..k + 1 + d]) && IndexAt(s, k) == Value(s[k + 1..k + 1 + d])
    {
      IndexPart(s, k, k + 1 + d);
    }
    if IndexAt(s, k) != 0 {
      var e := DigitsEnd(s, k + 1);
      forall i | k < i < e ensures IsDigit(s[i]) { SliceAt(s, k + 1, e, s[k + 1..e], i); }
      assert BracketAt(s, k, e - k - 1);
    }
  }

  lemma {:induction false} NameToEnd(s: string, k: nat)
    requires k <= |s| && forall i :: k <= i < |s| ==> NameChar(s[i])
    ensures NameEnd(s, k) == |s|
    decreases |s| - k
  {
    if k < |s| { NameToEnd(s, k + 1); }
  }

  /** A port written without an index has index 0. */
  lemma WithoutIndex(obj: string, name: string)
    requires Readable(Port(obj, name, 0))
    ensures FromString(obj + "." + name) == Some(Port(obj, name, 0))
  {
    var s, k := obj + "." + name, |obj|;
    assert s[..k] == obj && s[k + 1..|s|] == name;
    forall i | k < i < |s| ensures NameChar(s[i]) { SliceAt(s, k + 1, |s|, name, i); }
    LastDotAt(s, k, |s|);
    NameToEnd(s, k + 1);
    assert FromString(s) == Some(Port(s[..k], s[k + 1..|s|], 0));
  }

  /** What is read is always readable. */
  lemma ParsedIsReadable(s: string)
    requires FromString(s).Some?
    ensures Readable(FromString(s).value)
  {
    var k := LastDot(s, |s|).value;
    var e := NameEnd(s, k + 1);
    assert e > k + 1;
    var t := s[k + 1..e];
    assert forall i :: 0 <= i < |t| ==> t[i] == s[k + 1 + i];
  }

  /** Printing and matching a port gives it back exactly when it is readable. */
  lemma PortRoundTrip(p: Port)
    ensures FromString(ToString(p)) == Some(p) <==> Readable(p)
  {
    if Readable(p) {
      ReadableParses(p);
    } else if FromString(ToString(p)).Some? {
      ParsedIsReadable(ToString(p));
    }
  }
}
