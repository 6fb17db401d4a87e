/**
  Python's `list.sort(key=...)` as a function, and the laws of stable sorting that
  the models of its callers need.
*/
module StableSort {

  /** Puts `x` in front of the first element whose key is not smaller. */
  function Insert<T(!new)>(x: T, s: seq<T>, key: T -> int): (r: seq<T>)
    ensures |r| == |s| + 1
  {
    if s == [] then [x]
    else if key(x) <= key(s[0]) then [x] + s
    else [s[0]] + Insert(x, s[1..], key)
  }

  function Sort<T(!new)>(s: seq<T>, key: T -> int): (r: seq<T>)
    ensures |r| == |s|
  {
    if s == [] then [] else Insert(s[0], Sort(s[1..], key), key)
  }

  ghost predicate AllGeq<T(!new)>(v: int, s: seq<T>, key: T -> int)
  {
    forall y :: y in s ==> v <= key(y)
  }

  ghost predicate Sorted<T(!new)>(s: seq<T>, key: T -> int)
  {
    s == [] || (AllGeq(key(s[0]), s[1..], key) && Sorted(s[1..], key))
  }

  lemma {:induction false} InsertMembers<T(!new)>(x: T, s: seq<T>, key: T -> int)
    ensures multiset(Insert(x, s, key)) == multiset{x} + multiset(s)
    ensures forall y :: y in Insert(x, s, key) <==> y == x || y in s
  {
    if s != [] {
      InsertMembers(x, s[1..], key);
      assert s == [s[0]] + s[1..];
    }
  }

  lemma {:induction false} SortMembers<T(!new)>(s: seq<T>, key: T -> int)
    ensures multiset(Sort(s, key)) == multiset(s)
    ensures forall y :: y in Sort(s, key) <==> y in s
  {
    if s != [] {
      SortMembers(s[1..], key);
      InsertMembers(s[0], Sort(s[1..], key), key);
      assert s == [s[0]] + s[1..];
    }
  }

  lemma {:induction false} InsertSorted<T(!new)>(x: T, s: seq<T>, key: T -> int)
    requires Sorted(s, key)
    ensures Sorted(Insert(x, s, key), key)
  {
    if s == [] {
    } else if key(x) <= key(s[0]) {
      assert ([x] + s)[1..] == s;
    } else {
      InsertSorted(x, s[1..], key);
      InsertMembers(x, s[1..], key);
      assert Insert(x, s, key)[1..] == Insert(x, s[1..], key);
    }
  }

  lemma {:induction false} SortSorted<T(!new)>(s: seq<T>, key: T -> int)
    ensures Sorted(Sort(s, key), key)
  {
    if s != [] {
      SortSorted(s[1..], key);
      InsertSorted(s[0], Sort(s[1..], key), key);
    }
  }

  ghost predicate AllLeq<T(!new)>(a: seq<T>, b: seq<T>, key: T -> int)
  {
    forall x :: x in a ==> AllGeq(key(x), b, key)
  }

  lemma {:induction false} SortedSplit<T(!new)>(a: seq<T>, b: seq<T>, key: T -> int)
    ensures Sorted(a + b, key) <==> Sorted(a, key) && Sorted(b, key) && AllLeq(a, b, key)
  {
    if a == [] {
      assert a + b == b;
    } else {
      assert (a + b)[1..] == a[1..] + b;
      SortedSplit(a[1..], b, key);
      assert a == [a[0]] + a[1..];
    }
  }

  /** A sorted prefix whose keys are minimal stays in front. */
  lemma {:induction false} SortPrefix<T(!new)>(a: seq<T>, b: seq<T>, key: T -> int)
    requires Sorted(a, key) && AllLeq(a, b, key)
    ensures Sort(a + b, key) == a + Sort(b, key)
  {
    if a == [] {
      assert a + b == b;
    } else {
      assert a + b == [a[0]] + (a[1..] + b);
      SortCons(a[0], a[1..] + b, key);
      SortPrefix(a[1..], b, key);
      assert AllGeq(key(a[0]), a[1..] + Sort(b, key), key) by {
        SortMembers(b, key);
        assert a[0] in a;
      }
      InsertMinimal(a[0], a[1..] + Sort(b, key), key);
    }
  }

  lemma InsertMinimal<T(!new)>(x: T, s: seq<T>, key: T -> int)
    requires AllGeq(key(x), s, key)
    ensures Insert(x, s, key) == [x] + s
  {
    if s != [] { assert s[0] in s; }
  }

  lemma SortIdempotent<T(!new)>(a: seq<T>, key: T -> int)
    requires Sorted(a, key)
    ensures Sort(a, key) == a
  {
    SortPrefix(a, [], key);
    assert a + [] == a;
  }

  lemma {:induction false} InsertSwap<T(!new)>(x: T, y: T, s: seq<T>, key: T -> int)
    requires key(x) != key(y)
    ensures Insert(x, Insert(y, s, key), key) == Insert(y, Insert(x, s, key), key)
  {
    if s != [] {
      InsertSwap(x, y, s[1..], key);
    }
  }

  lemma SortCons<T(!new)>(x: T, s: seq<T>, key: T -> int)
    ensures Sort([x] + s, key) == Insert(x, Sort(s, key), key)
  {
    assert ([x] + s)[1..] == s;
  }

  lemma {:induction false} InsertInto<T(!new)>(x: T, s: seq<T>, r: seq<T>, key: T -> int)
    ensures Sort(Insert(x, s, key) + r, key) == Insert(x, Sort(s + r, key), key)
  {
    if s == [] || key(x) <= key(s[0]) {
      assert Insert(x, s, key) + r == [x] + (s + r);
      SortCons(x, s + r, key);
    } else {
      assert Insert(x, s, key) + r == [s[0]] + (Insert(x, s[1..], key) + r);
      SortCons(s[0], Insert(x, s[1..], key) + r, key);
      InsertInto(x, s[1..], r, key);
      InsertSwap(x, s[0], Sort(s[1..] + r, key), key);
      SortCons(s[0], s[1..] + r, key);
      assert s + r == [s[0]] + (s[1..] + r);
    }
  }

  /** Sorting a part first does not change the sorted whole. */
  lemma {:induction false} SortInner<T(!new)>(s: seq<T>, r: seq<T>, key: T -> int)
    ensures Sort(Sort(s, key) + r, key) == Sort(s + r, key)
  {
    if s != [] {
      SortInner(s[1..], r, key);
      SortCons(s[0], s[1..] + r, key);
      assert s + r == [s[0]] + (s[1..] + r);
      InsertInto(s[0], Sort(s[1..], key), r, key);
    }
  }

  function Filter<T(!new)>(s: seq<T>, keep: T -> bool): (r: seq<T>)
  {
    if s == [] then []
    else if keep(s[0]) then [s[0]] + Filter(s[1..], keep)
    else Filter(s[1..], keep)
  }

  lemma {:induction false} FilterAppend<T(!new)>(a: seq<T>, b: seq<T>, keep: T -> bool)
    ensures Filter(a + b, keep) == Filter(a, keep) + Filter(b, keep)
  {
    if a == [] {
      assert a + b == b;
    } else {
      assert (a + b)[1..] == a[1..] + b;
      FilterAppend(a[1..], b, keep);
    }
  }

  /** The elements kept, with their multiplicity. */
  lemma {:induction false} FilterCount<T(!new)>(s: seq<T>, keep: T -> bool, x: T)
    ensures multiset(Filter(s, keep))[x] == if keep(x) then multiset(s)[x] else 0
  {
    if s != [] {
      FilterCount(s[1..], keep, x);
      assert s == [s[0]] + s[1..];
    }
  }

  lemma FilterPermutation<T(!new)>(a: seq<T>, b: seq<T>, keep: T -> bool)
    requires multiset(a) == multiset(b)
    ensures multiset(Filter(a, keep)) == multiset(Filter(b, keep))
  {
    forall x ensures multiset(Filter(a, keep))[x] == multiset(Filter(b, keep))[x] {
      FilterCount(a, keep, x);
      FilterCount(b, keep, x);
    }
    assert multiset(Filter(a, keep)) == multiset(Filter(b, keep));
  }

  lemma FilterCons<T(!new)>(x: T, s: seq<T>, keep: T -> bool)
    ensures Filter([x] + s, keep) == if keep(x) then [x] + Filter(s, keep) else Filter(s, keep)
  {
    assert ([x] + s)[1..] == s;
  }

  lemma {:induction false} FilterInsert<T(!new)>(x: T, s: seq<T>, key: T -> int, keep: T -> bool)
    requires Sorted(s, key)
    ensures Filter(Insert(x, s, key), keep) ==
            if keep(x) then Insert(x, Filter(s, keep), key) else Filter(s, keep)
  {
    if s == [] {
      FilterCons(x, s, keep);
    } else if key(x) <= key(s[0]) {
      FilterCons(x, s, keep);
      FilterMembers(s, keep);
      InsertMinimal(x, Filter(s, keep), key);
    } else {
      FilterInsert(x, s[1..], key, keep);
      FilterCons(s[0], Insert(x, s[1..], key), keep);
      if keep(s[0]) { InsertCons(x, s[0], Filter(s[1..], keep), key); }
    }
  }

  lemma InsertCons<T(!new)>(x: T, y: T, s: seq<T>, key: T -> int)
    requires key(y) < key(x)
    ensures Insert(x, [y] + s, key) == [y] + Insert(x, s, key)
  {
    assert ([y] + s)[1..] == s;
  }

  lemma {:induction false} FilterMembers<T(!new)>(s: seq<T>, keep: T -> bool)
    ensures forall x :: x in Filter(s, keep) <==> x in s && keep(x)
  {
    if s != [] { FilterMembers(s[1..], keep); }
  }

  /** Stable sorting commutes with dropping elements. */
  lemma {:induction false} FilterSort<T(!new)>(s: seq<T>, key: T -> int, keep: T -> bool)
    ensures Filter(Sort(s, key), keep) == Sort(Filter(s, keep), key)
  {
    if s != [] {
      FilterSort(s[1..], key, keep);
      SortSorted(s[1..], key);
      FilterInsert(s[0], Sort(s[1..], key), key, keep);
      if keep(s[0]) { SortCons(s[0], Filter(s[1..], keep), key); }
    }
  }

  lemma {:induction false} EqualKeysSorted<T(!new)>(s: seq<T>, key: T -> int, v: int)
    requires forall x :: x in s ==> key(x) == v
    ensures Sorted(s, key)
  {
    if s != [] { EqualKeysSorted(s[1..], key, v); }
  }

  /** Elements with equal keys keep their order. */
  lemma SortStable<T(!new)>(s: seq<T>, key: T -> int, v: int)
    ensures Filter(Sort(s, key), x => key(x) == v) == Filter(s, x => key(x) == v)
  {
    var keep := x => key(x) == v;
    FilterSort(s, key, keep);
    FilterMembers(s, keep);
    var f := Filter(s, keep);
    EqualKeysSorted(f, key, v);
    SortIdempotent(f, key);
  }

  // ---------------------------------------------------------------- up to the first bad element

  ghost predicate All<T(!new)>(s: seq<T>, good: T -> bool) { forall x :: x in s ==> good(x) }

  function TakeWhile<T(!new)>(s: seq<T>, good: T -> bool): seq<T>
  {
    if s == [] || !good(s[0]) then [] else [s[0]] + TakeWhile(s[1..], good)
  }

  lemma {:induction false} TakeWhileAll<T(!new)>(s: seq<T>, good: T -> bool)
    requires All(s, good)
    ensures TakeWhile(s, good) == s
  {
    if s != [] {
      assert s[0] in s;
      TakeWhileAll(s[1..], good);
    }
  }

  lemma AllAppend<T(!new)>(a: seq<T>, b: seq<T>, good: T -> bool)
    ensures All(a + b, good) <==> All(a, good) && All(b, good)
  {
    assert forall x :: x in a + b <==> x in a || x in b;
  }

  lemma {:induction false} TakeWhileAppend<T(!new)>(a: seq<T>, b: seq<T>, good: T -> bool)
    ensures TakeWhile(a + b, good) == if All(a, good) then a + TakeWhile(b, good) else TakeWhile(a, good)
  {
    if a == [] {
      assert a + b == b;
    } else {
      assert (a + b)[0] == a[0] && (a + b)[1..] == a[1..] + b;
      TakeWhileAppend(a[1..], b, good);
      assert [a[0]] + a[1..] == a;
      AllAppend([a[0]], a[1..], good);
    }
  }

  /**
    Writing what passes the filter `keep`, up to the first bad element: `after` is what is
    written then, and `ok` says that there was no bad one.
  */
  ghost predicate Emits<T(!new)>(s: seq<T>, keep: T -> bool, good: T -> bool, before: seq<T>, after: seq<T>, ok: bool)
  {
    (ok <==> All(Filter(s, keep), good)) && after == before + TakeWhile(Filter(s, keep), good)
  }

  lemma EmitsMore<T(!new)>(
    a: seq<T>, b: seq<T>, keep: T -> bool, good: T -> bool, p: seq<T>, q: seq<T>, r: seq<T>, ok: bool)
    requires Emits(a, keep, good, p, q, true) && Emits(b, keep, good, q, r, ok)
    ensures Emits(a + b, keep, good, p, r, ok)
  {
    FilterAppend(a, b, keep);
    GoodThen(Filter(a, keep), Filter(b, keep), good, p);
  }

  lemma GoodThen<T(!new)>(x: seq<T>, y: seq<T>, good: T -> bool, p: seq<T>)
    requires All(x, good)
    ensures All(x + y, good) <==> All(y, good)
    ensures p + TakeWhile(x + y, good) == p + TakeWhile(x, good) + TakeWhile(y, good)
  {
    AllAppend(x, y, good);
    TakeWhileAppend(x, y, good);
    TakeWhileAll(x, good);
    assert p + (x + TakeWhile(y, good)) == p + x + TakeWhile(y, good);
  }

  lemma EmitsNoMore<T(!new)>(a: seq<T>, b: seq<T>, keep: T -> bool, good: T -> bool, p: seq<T>, q: seq<T>)
    requires Emits(a, keep, good, p, q, false)
    ensures Emits(a + b, keep, good, p, q, false)
  {
    var x, y := Filter(a, keep), Filter(b, keep);
    FilterAppend(a, b, keep);
    AllAppend(x, y, good);
    TakeWhileAppend(x, y, good);
  }

  lemma EmitsOne<T(!new)>(x: T, keep: T -> bool, good: T -> bool, q: seq<T>)
    ensures !keep(x) ==> Emits([x], keep, good, q, q, true)
    ensures keep(x) && good(x) ==> Emits([x], keep, good, q, q + [x], true)
    ensures keep(x) && !good(x) ==> Emits([x], keep, good, q, q, false)
  {
    assert [x][1..] == [];
    assert Filter([x], keep) == if keep(x) then [x] else [];
    assert TakeWhile([x], good) == if good(x) then [x] else [];
    if keep(x) && !good(x) { assert x in [x]; }
  }
}
