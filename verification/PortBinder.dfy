/**
  The port binder of `read_config.py`.

  A configuration lists every port-to-port connection in both directions.  The binder
  walks once through the sorted list and binds a direction as soon as both of its ends
  are next in line, by a counter per port; it raises unless exactly half of the list
  was bound.
*/
module PortBinder {
  import opened Common
  import opened Text

  datatype Port = Port(obj: string, name: string, index: int)

  datatype Key = Key(obj: string, name: string)

  function KeyOf(p: Port): Key { Key(p.obj, p.name) }

  datatype Conn = Conn(from: Port, to: Port)
  {
    function Reverse(): Conn { Conn(to, from) }
  }

  type Counters = map<Key, int>

  /** `KeyError`: a port that is never on the left; `Unordered`: less than half could be bound. */
  datatype Result = Bound(made: seq<Conn>) | KeyError | Unordered

  function Initial(conns: seq<Conn>): Counters
  {
    if conns == [] then map[]
    else
      var n := |conns| - 1;
      Initial(conns[..n])[KeyOf(conns[n].from) := 0]
  }

  lemma {:induction false} InitialZero(conns: seq<Conn>)
    ensures forall c :: c in conns ==> KeyOf(c.from) in Initial(conns)
    ensures forall k :: k in Initial(conns) ==> Initial(conns)[k] == 0
  {
    if conns != [] {
      var n := |conns| - 1;
      InitialZero(conns[..n]);
      assert conns == conns[..n] + [conns[n]];
    }
  }

  predicate Correct(ctr: Counters, p: Port)
    requires KeyOf(p) in ctr
  {
    ctr[KeyOf(p)] == p.index
  }

  function Increment(ctr: Counters, p: Port): Counters
    requires KeyOf(p) in ctr
  {
    ctr[KeyOf(p) := ctr[KeyOf(p)] + 1]
  }

  /** Whether the walk stops at `c` with a KeyError. */
  predicate Missing(ctr: Counters, c: Conn)
    requires KeyOf(c.from) in ctr
  {
    Correct(ctr, c.from) && KeyOf(c.to) !in ctr
  }

  predicate Bindable(ctr: Counters, c: Conn)
    requires KeyOf(c.from) in ctr && !Missing(ctr, c)
  {
    Correct(ctr, c.from) && Correct(ctr, c.to)
  }

  /** The connections bound by a walk, with the counters it ends with. */
  datatype Walk = Walk(made: seq<Conn>, ctr: Counters) | Stuck

  function Greedy(order: seq<Conn>, ctr: Counters): (w: Walk)
    requires forall c :: c in order ==> KeyOf(c.from) in ctr
    ensures w.Walk? ==> w.ctr.Keys == ctr.Keys
  {
    if order == [] then Walk([], ctr)
    else
      var c := order[0];
      assert c in order;
      if Missing(ctr, c) then Stuck
      else if Bindable(ctr, c) then
        match Greedy(order[1..], Increment(Increment(ctr, c.from), c.to))
        case Stuck => Stuck
        case Walk(made, ctr') => Walk([c] + made, ctr')
      else Greedy(order[1..], ctr)
  }

  /** The walk over the connections in the given order. */
  function WalkOf(conns: seq<Conn>, order: seq<Conn>): Walk
    requires multiset(order) == multiset(conns)
  {
    SameMembers(order, conns);
    InitialZero(conns);
    Greedy(order, Initial(conns))
  }

  function Outcome(conns: seq<Conn>, order: seq<Conn>): Result
    requires multiset(order) == multiset(conns)
  {
    match WalkOf(conns, order)
    case Stuck => KeyError
    case Walk(made, _) => if 2 * |made| != |conns| then Unordered else Bound(made)
  }

  lemma SameMembers(a: seq<Conn>, b: seq<Conn>)
    requires multiset(a) == multiset(b)
    ensures |a| == |b| && forall c :: c in a <==> c in b
  {
    assert |a| == |multiset(a)| && |b| == |multiset(b)|;
    forall c ensures c in a <==> c in b {
      assert c in a <==> c in multiset(a);
      assert c in b <==> c in multiset(b);
    }
  }

  // ---------------------------------------------------------------- the lists the binder is meant for

  /** Every connection is listed in both directions. */
  ghost predicate Closed(conns: seq<Conn>)
  {
    forall c :: c in conns ==> c.Reverse() in conns
  }

  ghost predicate NoSelfLinks(conns: seq<Conn>)
  {
    forall c :: c in conns ==> c.from != c.to
  }

  // ---------------------------------------------------------------- order of the bindings of a port

  /** The indices at which connections use a port, in order. */
  function Uses(made: seq<Conn>, k: Key): seq<int>
  {
    if made == [] then []
    else UsesOf(made[0], k) + Uses(made[1..], k)
  }

  function UsesOf(c: Conn, k: Key): seq<int>
  {
    (if KeyOf(c.from) == k then [c.from.index] else []) + (if KeyOf(c.to) == k then [c.to.index] else [])
  }

  /** The sequence lo, lo + 1, ..., hi - 1. */
  function Range(lo: int, hi: int): seq<int>
  {
    seq(if lo < hi then hi - lo else 0, i => lo + i)
  }

  /** One binding takes the next index of each of its two ports. */
  lemma BindStep(ctr: Counters, c: Conn, k: Key)
    requires KeyOf(c.from) in ctr && KeyOf(c.to) in ctr && k in ctr
    requires Correct(ctr, c.from) && Correct(ctr, c.to) && c.from != c.to
    ensures UsesOf(c, k) == Range(ctr[k], Increment(Increment(ctr, c.from), c.to)[k])
  {
  }

  lemma RangeJoin(a: int, b: int, c: int)
    requires a <= b <= c
    ensures Range(a, b) + Range(b, c) == Range(a, c)
  {
  }

  lemma UsesCons(c: Conn, made: seq<Conn>, k: Key)
    ensures Uses([c] + made, k) == UsesOf(c, k) + Uses(made, k)
  {
    assert ([c] + made)[1..] == made;
  }

  /** A walk binds the indices of every port in order, without gaps, from where its counter stood. */
  lemma {:induction false} UsesInOrder(order: seq<Conn>, ctr: Counters, k: Key)
    requires forall c :: c in order ==> KeyOf(c.from) in ctr
    requires NoSelfLinks(order) && Greedy(order, ctr).Walk? && k in ctr
    ensures ctr[k] <= Greedy(order, ctr).ctr[k]
    ensures Uses(Greedy(order, ctr).made, k) == Range(ctr[k], Greedy(order, ctr).ctr[k])
  {
    if order != [] {
      var c, rest := order[0], order[1..];
      assert c in order;
      if Bindable(ctr, c) {
        var ctr' := Increment(Increment(ctr, c.from), c.to);
        UsesInOrder(rest, ctr', k);
        BindStep(ctr, c, k);
        UsesCons(c, Greedy(rest, ctr').made, k);
        RangeJoin(ctr[k], ctr'[k], Greedy(rest, ctr').ctr[k]);
      } else {
        UsesInOrder(rest, ctr, k);
      }
    }
  }

  // ---------------------------------------------------------------- every end is used once

  function Ends(c: Conn): set<Port> { {c.from, c.to} }

  lemma {:induction false} UsesMember(made: seq<Conn>, c: Conn, p: Port)
    requires c in made && p in Ends(c)
    ensures p.index in Uses(made, KeyOf(p))
  {
    if made[0] == c {
      assert p.index in UsesOf(c, KeyOf(p));
    } else {
      UsesMember(made[1..], c, p);
    }
  }

  lemma {:induction false} UserOf(made: seq<Conn>, p: Port) returns (c: Conn)
    requires p.index in Uses(made, KeyOf(p))
    ensures c in made && p in Ends(c)
  {
    c := made[0];
    if p.index !in UsesOf(c, KeyOf(p)) { c := UserOf(made[1..], p); }
  }

  /** No indexed end is used by two bindings of a walk. */
  ghost predicate EndsDisjoint(made: seq<Conn>)
  {
    forall i, j :: 0 <= i < j < |made| ==> Ends(made[i]) !! Ends(made[j])
  }

  lemma {:induction false} EndsUsedOnce(order: seq<Conn>, ctr: Counters)
    requires forall c :: c in order ==> KeyOf(c.from) in ctr
    requires NoSelfLinks(order) && Greedy(order, ctr).Walk?
    ensures EndsDisjoint(Greedy(order, ctr).made)
  {
    if order != [] {
      var c, rest := order[0], order[1..];
      assert c in order;
      if Bindable(ctr, c) {
        var ctr' := Increment(Increment(ctr, c.from), c.to);
        EndsUsedOnce(rest, ctr');
        var made := Greedy(rest, ctr').made;
        forall d | d in made ensures Ends(c) !! Ends(d) { NotUsedAgain(rest, ctr', c, d); }
        assert forall j :: 0 <= j < |made| ==> made[j] in made;
      } else {
        EndsUsedOnce(rest, ctr);
      }
    }
  }

  lemma NotUsedAgain(rest: seq<Conn>, ctr: Counters, c: Conn, d: Conn)
    requires forall e :: e in rest ==> KeyOf(e.from) in ctr
    requires NoSelfLinks(rest) && Greedy(rest, ctr).Walk? && d in Greedy(rest, ctr).made
    requires forall p :: p in Ends(c) ==> KeyOf(p) in ctr && p.index < ctr[KeyOf(p)]
    ensures Ends(c) !! Ends(d)
  {
    forall p | p in Ends(c) ensures p !in Ends(d) {
      UsesInOrder(rest, ctr, KeyOf(p));
      if p in Ends(d) { UsesMember(Greedy(rest, ctr).made, d, p); }
    }
  }

  lemma {:induction false} MadeFromOrder(order: seq<Conn>, ctr: Counters)
    requires (forall c :: c in order ==> KeyOf(c.from) in ctr) && Greedy(order, ctr).Walk?
    ensures forall c :: c in Greedy(order, ctr).made ==> c in order
  {
    if order != [] {
      var c := order[0];
      assert c in order;
      MadeFromOrder(order[1..], if Bindable(ctr, c) then Increment(Increment(ctr, c.from), c.to) else ctr);
    }
  }

  lemma {:induction false} NeverStuck(order: seq<Conn>, ctr: Counters)
    requires forall c :: c in order ==> KeyOf(c.from) in ctr && KeyOf(c.to) in ctr
    ensures Greedy(order, ctr).Walk?
  {
    if order != [] {
      var c := order[0];
      assert c in order;
      NeverStuck(order[1..], if Bindable(ctr, c) then Increment(Increment(ctr, c.from), c.to) else ctr);
    }
  }

  // ---------------------------------------------------------------- one direction of each

  lemma {:induction false} SetSize(s: seq<Conn>)
    requires NoRepeats(s)
    ensures |set c | c in s| == |s|
  {
    if s == [] {
      assert (set c | c in s) == {};
    } else {
      SetSize(s[1..]);
      assert (set c | c in s) == {s[0]} + set c | c in s[1..];
      assert s[0] !in s[1..];
    }
  }

  function Reversed(s: set<Conn>): set<Conn> { set c | c in s :: c.Reverse() }

  lemma {:induction false} ReversedSize(s: set<Conn>)
    ensures |Reversed(s)| == |s|
  {
    if s == {} {
      assert Reversed(s) == {};
    } else {
      var c :| c in s;
      ReversedSize(s - {c});
      assert Reversed(s) == Reversed(s - {c}) + {c.Reverse()};
      assert c.Reverse() !in Reversed(s - {c});
    }
  }

  lemma SubsetEqual(a: set<Conn>, b: set<Conn>)
    requires a <= b && |a| == |b|
    ensures a == b
  {
    assert |b - a| == |b| - |a|;
    assert b == a + (b - a);
  }

  /** Exactly one direction of a connection is among the bound ones. */
  ghost predicate OneDirection(made: seq<Conn>, c: Conn)
  {
    (c in made) != (c.Reverse() in made)
  }

  lemma SharedEnd(made: seq<Conn>, i: int, j: int, p: Port)
    requires EndsDisjoint(made) && 0 <= i < |made| && 0 <= j < |made| && p in Ends(made[i]) && p in Ends(made[j])
    ensures i == j
  {
  }

  lemma NotBoth(made: seq<Conn>, c: Conn)
    requires EndsDisjoint(made) && c.from != c.to
    ensures c in made ==> c.Reverse() !in made
  {
    if c in made && c.Reverse() in made {
      var i :| 0 <= i < |made| && made[i] == c;
      var j :| 0 <= j < |made| && made[j] == c.Reverse();
      SharedEnd(made, i, j, c.from);
    }
  }

  /** The bound connections and their reverses. */
  function BothWays(made: seq<Conn>): set<Conn>
  {
    (set c | c in made) + Reversed(set c | c in made)
  }

  lemma BothWaysMember(made: seq<Conn>, c: Conn)
    ensures c in BothWays(made) <==> c in made || c.Reverse() in made
  {
    assert c.Reverse().Reverse() == c;
  }

  lemma BothWaysSize(made: seq<Conn>)
    requires EndsDisjoint(made) && NoSelfLinks(made)
    ensures |BothWays(made)| == 2 * |made|
  {
    var m := set c | c in made;
    forall i, j | 0 <= i < j < |made| ensures made[i] != made[j] { assert made[i].from in Ends(made[i]); }
    SetSize(made);
    ReversedSize(m);
    assert m !! Reversed(m) by {
      forall c | c in m ensures c !in Reversed(m) { NotBoth(made, c); }
    }
  }

  /** Half of the list is bound exactly when each connection is bound in exactly one direction. */
  lemma HalfIffOneDirection(conns: seq<Conn>, made: seq<Conn>)
    requires Closed(conns) && NoRepeats(conns) && NoSelfLinks(conns)
    requires EndsDisjoint(made) && forall c :: c in made ==> c in conns
    ensures 2 * |made| == |conns| <==> forall c :: c in conns ==> OneDirection(made, c)
  {
    var both, all := BothWays(made), set c | c in conns;
    SetSize(conns);
    BothWaysSize(made);
    forall c | c in both ensures c in all { BothWaysMember(made, c); }
    forall c | c in conns ensures OneDirection(made, c) <==> c in both {
      BothWaysMember(made, c);
      NotBoth(made, c);
    }
    assert both == all <==> forall c :: c in conns ==> OneDirection(made, c);
    if 2 * |made| == |conns| { SubsetEqual(both, all); }
  }

  /**
    For a list closed under reversal and without self-links, whatever the order of the
    walk: the binder never fails with a KeyError, it binds no end twice, and it binds
    the indices of every port as 0, 1, 2, ... without gaps.
  */
  lemma BindingIsSafe(conns: seq<Conn>, order: seq<Conn>, k: Key)
    requires multiset(order) == multiset(conns) && Closed(conns) && NoSelfLinks(conns)
    ensures var w := WalkOf(conns, order);
      && w.Walk? && EndsDisjoint(w.made)
      && (forall c :: c in w.made ==> c in conns)
      && (k in w.ctr <==> k in Initial(conns))
      && (k in w.ctr ==> 0 <= w.ctr[k] && Uses(w.made, k) == Range(0, w.ctr[k]))
  {
    KeysKnown(conns, order);
    SafeWalk(order, Initial(conns), k);
  }

  lemma SafeWalk(order: seq<Conn>, ctr: Counters, k: Key)
    requires NoSelfLinks(order) && forall c :: c in order ==> KeyOf(c.from) in ctr && KeyOf(c.to) in ctr
    ensures var w := Greedy(order, ctr);
      && w.Walk? && EndsDisjoint(w.made)
      && (forall c :: c in w.made ==> c in order)
      && (k in w.ctr <==> k in ctr)
      && (k in w.ctr ==> ctr[k] <= w.ctr[k] && Uses(w.made, k) == Range(ctr[k], w.ctr[k]))
  {
    NeverStuck(order, ctr);
    EndsUsedOnce(order, ctr);
    MadeFromOrder(order, ctr);
    if k in ctr { UsesInOrder(order, ctr, k); }
  }

  /** Without repeats in the list, the binder raises exactly when some connection is bound in neither direction. */
  lemma BindsOneDirectionOfEach(conns: seq<Conn>, order: seq<Conn>)
    requires multiset(order) == multiset(conns) && Closed(conns) && NoSelfLinks(conns) && NoRepeats(conns)
    ensures WalkOf(conns, order).Walk?
    ensures var made := WalkOf(conns, order).made;
      Outcome(conns, order) == if forall c :: c in conns ==> OneDirection(made, c) then Bound(made) else Unordered
  {
    BindingIsSafe(conns, order, Key("", ""));
    HalfIffOneDirection(conns, WalkOf(conns, order).made);
  }

  lemma KeysKnown(conns: seq<Conn>, order: seq<Conn>)
    requires multiset(order) == multiset(conns) && Closed(conns) && NoSelfLinks(conns)
    ensures NoSelfLinks(order) && (forall c :: c in order <==> c in conns)
    ensures forall c :: c in order ==> KeyOf(c.from) in Initial(conns) && KeyOf(c.to) in Initial(conns)
    ensures forall k :: k in Initial(conns) ==> Initial(conns)[k] == 0
  {
    SameMembers(order, conns);
    InitialZero(conns);
    forall c | c in order ensures KeyOf(c.from) in Initial(conns) && KeyOf(c.to) in Initial(conns) {
      assert c.Reverse() in conns;
    }
  }

  // ---------------------------------------------------------------- when the walk succeeds

  /** Each indexed end has one peer, as when connections are gathered port by port. */
  ghost predicate Matched(conns: seq<Conn>)
  {
    forall c, d :: c in conns && d in conns && c.from == d.from ==> c == d
  }

  /** The connections of `order` that a mask selects. */
  function Picked(order: seq<Conn>, mask: seq<bool>): seq<Conn>
    requires |mask| == |order|
  {
    if order == [] then []
    else if mask[0] then [order[0]] + Picked(order[1..], mask[1..])
    else Picked(order[1..], mask[1..])
  }

  /** Uses of port `k` that start at `lo` and have no gaps. */
  ghost predicate Consecutive(made: seq<Conn>, k: Key, lo: int)
  {
    var u := Uses(made, k);
    forall i :: 0 <= i < |u| ==> u[i] == lo + i
  }

  ghost predicate BetweenPorts(made: seq<Conn>)
  {
    forall c :: c in made ==> KeyOf(c.from) != KeyOf(c.to)
  }

  /**
    A selection from the list, in the order of the list: it joins different ports, takes
    the indices of every port in order, and covers every connection.
  */
  ghost predicate Selection(conns: seq<Conn>, order: seq<Conn>, mask: seq<bool>)
  {
    && |mask| == |order|
    && BetweenPorts(Picked(order, mask))
    && (forall k :: Consecutive(Picked(order, mask), k, 0))
    && (forall c :: c in conns ==> c in Picked(order, mask) || c.Reverse() in Picked(order, mask))
  }

  predicate Used(ctr: Counters, p: Port)
  {
    KeyOf(p) in ctr && 0 <= p.index < ctr[KeyOf(p)]
  }

  /** A connection has either both of its ends used, or none. */
  ghost predicate Paired(conns: seq<Conn>, ctr: Counters)
  {
    forall c :: c in conns ==> (Used(ctr, c.from) <==> Used(ctr, c.to))
  }

  ghost predicate NonNegative(ctr: Counters)
  {
    forall k :: k in ctr ==> ctr[k] >= 0
  }

  lemma UsedAfterBind(ctr: Counters, d: Conn, p: Port)
    requires KeyOf(d.from) in ctr && KeyOf(d.to) in ctr && NonNegative(ctr)
    requires Correct(ctr, d.from) && Correct(ctr, d.to) && d.from != d.to
    ensures Used(Increment(Increment(ctr, d.from), d.to), p) <==> Used(ctr, p) || p in Ends(d)
  {
  }

  /** The connection that owns an end is determined by it. */
  lemma OwnerOfEnd(conns: seq<Conn>, c: Conn, d: Conn, p: Port)
    requires Matched(conns) && c in conns && c.Reverse() in conns && d in conns && d.Reverse() in conns
    requires p in Ends(c) && p in Ends(d)
    ensures c == d || c == d.Reverse()
  {
    var c' := if p == c.from then c else c.Reverse();
    var d' := if p == d.from then d else d.Reverse();
    assert c' == d';
  }

  lemma BindKeepsPairs(conns: seq<Conn>, ctr: Counters, d: Conn)
    requires Matched(conns) && Closed(conns) && Paired(conns, ctr) && NonNegative(ctr)
    requires d in conns && d.from != d.to
    requires KeyOf(d.from) in ctr && KeyOf(d.to) in ctr && Correct(ctr, d.from) && Correct(ctr, d.to)
    ensures Paired(conns, Increment(Increment(ctr, d.from), d.to))
  {
    forall c | c in conns
      ensures c.from in Ends(d) <==> c.to in Ends(d)
    {
      if c.from in Ends(d) { OwnerOfEnd(conns, c, d, c.from); }
      if c.to in Ends(d) { OwnerOfEnd(conns, c, d, c.to); }
    }
    forall c | c in conns
      ensures var ctr' := Increment(Increment(ctr, d.from), d.to); Used(ctr', c.from) <==> Used(ctr', c.to)
    {
      UsedAfterBind(ctr, d, c.from);
      UsedAfterBind(ctr, d, c.to);
    }
  }

  lemma ConsecutiveTail(c: Conn, rest: seq<Conn>, k: Key, lo: int)
    requires Consecutive([c] + rest, k, lo)
    ensures Consecutive(rest, k, lo + |UsesOf(c, k)|)
    ensures |Uses([c] + rest, k)| == |UsesOf(c, k)| + |Uses(rest, k)|
    ensures UsesOf(c, k) != [] ==> UsesOf(c, k)[0] == lo
  {
    UsesCons(c, rest, k);
    var u, n, v := Uses([c] + rest, k), |UsesOf(c, k)|, Uses(rest, k);
    assert forall i :: 0 <= i < |v| ==> v[i] == u[n + i];
    if n > 0 { assert u[0] == UsesOf(c, k)[0]; }
  }

  /** What the first selected connection says about the counters of the selection. */
  lemma PickedHead(c: Conn, rest: seq<Conn>, cs: Counters, k: Key)
    requires KeyOf(c.from) in cs && KeyOf(c.to) in cs && KeyOf(c.from) != KeyOf(c.to)
    requires Consecutive([c] + rest, KeyOf(c.from), cs[KeyOf(c.from)])
    requires Consecutive([c] + rest, KeyOf(c.to), cs[KeyOf(c.to)])
    requires k in cs && Consecutive([c] + rest, k, cs[k])
    ensures Correct(cs, c.from) && Correct(cs, c.to)
    ensures var cs' := Increment(Increment(cs, c.from), c.to);
      Consecutive(rest, k, cs'[k]) && cs'[k] + |Uses(rest, k)| == cs[k] + |Uses([c] + rest, k)|
  {
    ConsecutiveTail(c, rest, KeyOf(c.from), cs[KeyOf(c.from)]);
    ConsecutiveTail(c, rest, KeyOf(c.to), cs[KeyOf(c.to)]);
    ConsecutiveTail(c, rest, k, cs[k]);
  }

  /** The lists and counters of the comparison with a selection. */
  ghost predicate Comparable(conns: seq<Conn>, order: seq<Conn>, cs: Counters, cg: Counters)
  {
    && Matched(conns) && Closed(conns) && NoSelfLinks(conns) && Paired(conns, cg)
    && (forall c :: c in order ==> c in conns)
    && (forall c :: c in conns ==> KeyOf(c.from) in cg && KeyOf(c.to) in cg)
    && cs.Keys == cg.Keys && NonNegative(cs) && (forall l :: l in cg ==> cs[l] <= cg[l])
  }

  ghost predicate Selects(sel: seq<Conn>, cs: Counters)
  {
    BetweenPorts(sel) && forall l :: l in cs ==> Consecutive(sel, l, cs[l])
  }

  /** The counters after a walk has looked at `c`. */
  function Looked(cg: Counters, c: Conn): Counters
    requires KeyOf(c.from) in cg && KeyOf(c.to) in cg
  {
    if Bindable(cg, c) then Increment(Increment(cg, c.from), c.to) else cg
  }

  lemma SelectsTail(c: Conn, sel: seq<Conn>, cs: Counters)
    requires KeyOf(c.from) in cs && KeyOf(c.to) in cs && Selects([c] + sel, cs)
    ensures KeyOf(c.from) != KeyOf(c.to) && Correct(cs, c.from) && Correct(cs, c.to)
    ensures var cs' := Increment(Increment(cs, c.from), c.to);
      && Selects(sel, cs')
      && forall k :: k in cs ==> cs'[k] + |Uses(sel, k)| == cs[k] + |Uses([c] + sel, k)|
  {
    assert c in [c] + sel;
    var cs' := Increment(Increment(cs, c.from), c.to);
    PickedHead(c, sel, cs, KeyOf(c.from));
    forall l | l in cs
      ensures Consecutive(sel, l, cs'[l]) && cs'[l] + |Uses(sel, l)| == cs[l] + |Uses([c] + sel, l)|
    {
      PickedHead(c, sel, cs, l);
    }
    forall d | d in sel ensures KeyOf(d.from) != KeyOf(d.to) { assert d in [c] + sel; }
  }

  /** The greedy counters never fall behind those of any selection. */
  lemma {:induction false} GreedyDominates(
    conns: seq<Conn>, order: seq<Conn>, mask: seq<bool>, cs: Counters, cg: Counters, k: Key)
    requires Comparable(conns, order, cs, cg) && |mask| == |order| && Selects(Picked(order, mask), cs) && k in cg
    ensures Greedy(order, cg).Walk?
    ensures cs[k] + |Uses(Picked(order, mask), k)| <= Greedy(order, cg).ctr[k]
  {
    NeverStuck(order, cg);
    if order != [] {
      var c, rest := order[0], order[1..];
      assert c in order;
      assert Greedy(order, cg).ctr == Greedy(rest, Looked(cg, c)).ctr by { NeverStuck(rest, Looked(cg, c)); }
      if mask[0] {
        SelectsTail(c, Picked(rest, mask[1..]), cs);
        ComparableNext(conns, order, cs, cg, true);
        GreedyDominates(conns, rest, mask[1..], Increment(Increment(cs, c.from), c.to), Looked(cg, c), k);
      } else {
        ComparableNext(conns, order, cs, cg, false);
        GreedyDominates(conns, rest, mask[1..], cs, Looked(cg, c), k);
      }
    }
  }

  lemma ComparableNext(conns: seq<Conn>, order: seq<Conn>, cs: Counters, cg: Counters, selected: bool)
    requires order != [] && Comparable(conns, order, cs, cg)
    requires KeyOf(order[0].from) in cs && KeyOf(order[0].to) in cs
    requires selected ==>
      KeyOf(order[0].from) != KeyOf(order[0].to) && Correct(cs, order[0].from) && Correct(cs, order[0].to)
    ensures var c := order[0];
      Comparable(conns, order[1..], if selected then Increment(Increment(cs, c.from), c.to) else cs, Looked(cg, c))
  {
    var c := order[0];
    assert c in order;
    if Bindable(cg, c) { BindKeepsPairs(conns, cg, c); }
    if selected { SelectedStep(conns, c, cs, cg); }
  }

  /** A selected connection is bound now, or was bound before. */
  lemma SelectedStep(conns: seq<Conn>, c: Conn, cs: Counters, cg: Counters)
    requires c in conns && c.from != c.to && KeyOf(c.from) != KeyOf(c.to) && Paired(conns, cg)
    requires KeyOf(c.from) in cg && KeyOf(c.to) in cg && cs.Keys == cg.Keys && NonNegative(cs)
    requires (forall l :: l in cg ==> cs[l] <= cg[l]) && Correct(cs, c.from) && Correct(cs, c.to)
    ensures var cs' := Increment(Increment(cs, c.from), c.to);
      forall l :: l in cg ==> cs'[l] <= Looked(cg, c)[l]
  {
    assert Used(cg, c.from) <==> Used(cg, c.to);
  }

  lemma SelectionSucceeds(conns: seq<Conn>, order: seq<Conn>, mask: seq<bool>)
    requires multiset(order) == multiset(conns) && Closed(conns) && NoSelfLinks(conns) && NoRepeats(conns)
    requires Matched(conns) && Selection(conns, order, mask)
    ensures Outcome(conns, order).Bound?
  {
    BindsOneDirectionOfEach(conns, order);
    var made := WalkOf(conns, order).made;
    forall c | c in conns ensures OneDirection(made, c) { SelectedIsBound(conns, order, mask, c); }
  }

  lemma SelectedIsBound(conns: seq<Conn>, order: seq<Conn>, mask: seq<bool>, c: Conn)
    requires multiset(order) == multiset(conns) && Closed(conns) && NoSelfLinks(conns)
    requires Matched(conns) && Selection(conns, order, mask) && c in conns
    ensures WalkOf(conns, order).Walk? && OneDirection(WalkOf(conns, order).made, c)
  {
    var k := KeyOf(c.from);
    BindingIsSafe(conns, order, k);
    var w := WalkOf(conns, order);
    assert 0 <= c.from.index < |Uses(Picked(order, mask), k)| by { CoveredIndex(conns, order, mask, c); }
    InitialZero(conns);
    DominatesFromStart(conns, order, mask, k);
    BoundOwner(conns, w.made, c, w.ctr[k]);
  }

  lemma DominatesFromStart(conns: seq<Conn>, order: seq<Conn>, mask: seq<bool>, k: Key)
    requires multiset(order) == multiset(conns) && Closed(conns) && NoSelfLinks(conns)
    requires Matched(conns) && Selection(conns, order, mask) && k in Initial(conns)
    ensures WalkOf(conns, order).Walk? && k in WalkOf(conns, order).ctr
    ensures |Uses(Picked(order, mask), k)| <= WalkOf(conns, order).ctr[k]
  {
    KeysKnown(conns, order);
    DominatesFromZero(conns, order, mask, Initial(conns), k);
  }

  lemma DominatesFromZero(conns: seq<Conn>, order: seq<Conn>, mask: seq<bool>, ctr: Counters, k: Key)
    requires Closed(conns) && NoSelfLinks(conns) && Matched(conns) && Selection(conns, order, mask)
    requires (forall c :: c in order ==> c in conns) && k in ctr && forall l :: l in ctr ==> ctr[l] == 0
    requires forall c :: c in conns ==> KeyOf(c.from) in ctr && KeyOf(c.to) in ctr
    ensures Greedy(order, ctr).Walk?
    ensures |Uses(Picked(order, mask), k)| <= Greedy(order, ctr).ctr[k]
  {
    GreedyDominates(conns, order, mask, ctr, ctr, k);
  }

  lemma CoveredIndex(conns: seq<Conn>, order: seq<Conn>, mask: seq<bool>, c: Conn)
    requires Selection(conns, order, mask) && c in conns
    ensures 0 <= c.from.index < |Uses(Picked(order, mask), KeyOf(c.from))|
  {
    var sel := Picked(order, mask);
    UsesMember(sel, if c in sel then c else c.Reverse(), c.from);
    assert Consecutive(sel, KeyOf(c.from), 0);
  }

  lemma BoundOwner(conns: seq<Conn>, made: seq<Conn>, c: Conn, n: int)
    requires Closed(conns) && NoSelfLinks(conns) && Matched(conns) && c in conns
    requires EndsDisjoint(made) && forall d :: d in made ==> d in conns
    requires Uses(made, KeyOf(c.from)) == Range(0, n) && 0 <= c.from.index < n
    ensures OneDirection(made, c)
  {
    assert Range(0, n)[c.from.index] == c.from.index;
    var d := UserOf(made, c.from);
    OwnerOfEnd(conns, c, d, c.from);
    NotBoth(made, c);
    NotBoth(made, c.Reverse());
  }

  /** The mask of what the walk binds. */
  function MaskOf(order: seq<Conn>, ctr: Counters): (mask: seq<bool>)
    requires forall c :: c in order ==> KeyOf(c.from) in ctr && KeyOf(c.to) in ctr
    ensures |mask| == |order|
  {
    if order == [] then []
    else
      var c := order[0];
      assert c in order;
      if Bindable(ctr, c) then [true] + MaskOf(order[1..], Increment(Increment(ctr, c.from), c.to))
      else [false] + MaskOf(order[1..], ctr)
  }

  lemma {:induction false} MaskPicksMade(order: seq<Conn>, ctr: Counters)
    requires NoSelfLinks(order) && forall c :: c in order ==> KeyOf(c.from) in ctr && KeyOf(c.to) in ctr
    ensures Greedy(order, ctr).Walk? && Picked(order, MaskOf(order, ctr)) == Greedy(order, ctr).made
    ensures BetweenPorts(Greedy(order, ctr).made)
  {
    NeverStuck(order, ctr);
    if order != [] {
      var c := order[0];
      assert c in order;
      var m := MaskOf(order, ctr);
      if Bindable(ctr, c) {
        var ctr' := Increment(Increment(ctr, c.from), c.to);
        MaskPicksMade(order[1..], ctr');
        assert m[0] && m[1..] == MaskOf(order[1..], ctr');
        assert KeyOf(c.from) != KeyOf(c.to);
      } else {
        MaskPicksMade(order[1..], ctr);
        assert !m[0] && m[1..] == MaskOf(order[1..], ctr);
      }
    }
  }

  lemma {:induction false} UnknownUnused(made: seq<Conn>, k: Key)
    requires forall c :: c in made ==> KeyOf(c.from) != k && KeyOf(c.to) != k
    ensures Uses(made, k) == []
  {
    if made != [] {
      assert made[0] in made;
      UnknownUnused(made[1..], k);
    }
  }

  lemma MadeConsecutive(conns: seq<Conn>, order: seq<Conn>, k: Key)
    requires multiset(order) == multiset(conns) && Closed(conns) && NoSelfLinks(conns)
    ensures WalkOf(conns, order).Walk? && Consecutive(WalkOf(conns, order).made, k, 0)
  {
    BindingIsSafe(conns, order, k);
    if k !in Initial(conns) {
      KeysKnown(conns, order);
      UnknownUnused(WalkOf(conns, order).made, k);
    }
  }

  lemma SuccessIsSelection(conns: seq<Conn>, order: seq<Conn>) returns (mask: seq<bool>)
    requires multiset(order) == multiset(conns) && Closed(conns) && NoSelfLinks(conns) && NoRepeats(conns)
    requires Outcome(conns, order).Bound?
    ensures Selection(conns, order, mask)
  {
    var made := WalkOf(conns, order).made;
    assert forall k :: Consecutive(made, k, 0) by {
      forall k ensures Consecutive(made, k, 0) { MadeConsecutive(conns, order, k); }
    }
    assert forall c :: c in conns ==> c in made || c.Reverse() in made by {
      BindsOneDirectionOfEach(conns, order);
      assert forall c :: c in conns ==> OneDirection(made, c);
    }
    mask := MadeMask(conns, order);
  }

  lemma MadeMask(conns: seq<Conn>, order: seq<Conn>) returns (mask: seq<bool>)
    requires multiset(order) == multiset(conns) && Closed(conns) && NoSelfLinks(conns)
    ensures WalkOf(conns, order).Walk? && BetweenPorts(WalkOf(conns, order).made)
    ensures |mask| == |order| && Picked(order, mask) == WalkOf(conns, order).made
  {
    KeysKnown(conns, order);
    mask := MaskOf(order, Initial(conns));
    MaskPicksMade(order, Initial(conns));
  }

  /** Bindings that take the indices of a port in order do not use an end twice. */
  lemma {:induction false} UsedOnce(made: seq<Conn>, p: Port, lo: int, i: nat, j: nat)
    requires Consecutive(made, KeyOf(p), lo) && i < j < |made| && p in Ends(made[i])
    ensures p !in Ends(made[j])
    decreases i
  {
    var k, rest := KeyOf(p), made[1..];
    assert made == [made[0]] + rest && made[j] == rest[j - 1];
    ConsecutiveTail(made[0], rest, k, lo);
    var next := lo + |UsesOf(made[0], k)|;
    if i > 0 {
      UsedOnce(rest, p, next, i - 1, j - 1);
    } else {
      HeadIndex(made[0], rest, p, lo);
      assert p in Ends(made[j]) ==> p.index in Uses(rest, k) by {
        if p in Ends(made[j]) { UsesMember(rest, made[j], p); }
      }
    }
  }

  lemma HeadIndex(c: Conn, rest: seq<Conn>, p: Port, lo: int)
    requires p in Ends(c) && Consecutive([c] + rest, KeyOf(p), lo)
    ensures p.index < lo + |UsesOf(c, KeyOf(p))| && p.index !in Uses(rest, KeyOf(p))
  {
    var k := KeyOf(p);
    var n, u := |UsesOf(c, k)|, Uses([c] + rest, k);
    UsesCons(c, rest, k);
    ConsecutiveTail(c, rest, k, lo);
    assert forall a :: 0 <= a < n ==> UsesOf(c, k)[a] == u[a] == lo + a;
    assert p.index in UsesOf(c, k);
    assert forall x :: x in Uses(rest, k) ==> x >= lo + n;
  }

  /** Where there is a selection, each indexed end has one peer. */
  lemma SelectionMatched(conns: seq<Conn>, order: seq<Conn>, mask: seq<bool>, c: Conn, d: Conn)
    requires NoSelfLinks(conns) && Selection(conns, order, mask) && c in conns && d in conns && c.from == d.from
    ensures c == d
  {
    var made, p := Picked(order, mask), c.from;
    var x := PickedWay(conns, order, mask, c);
    var y := PickedWay(conns, order, mask, d);
    var i :| 0 <= i < |made| && made[i] == x;
    var j :| 0 <= j < |made| && made[j] == y;
    if i < j { UsedOnce(made, p, 0, i, j); }
    if j < i { UsedOnce(made, p, 0, j, i); }
  }

  lemma PickedWay(conns: seq<Conn>, order: seq<Conn>, mask: seq<bool>, c: Conn) returns (x: Conn)
    requires Selection(conns, order, mask) && c in conns
    ensures x in Picked(order, mask) && (x == c || x == c.Reverse()) && c.from in Ends(x)
  {
    x := if c in Picked(order, mask) then c else c.Reverse();
  }

  /**
    The single walk binds everything exactly when the list, in the order it is walked,
    contains a selection of one direction of each connection that takes the indices of
    every port in order.
  */
  lemma BindsIffSelection(conns: seq<Conn>, order: seq<Conn>)
    requires multiset(order) == multiset(conns) && Closed(conns) && NoSelfLinks(conns) && NoRepeats(conns)
    ensures Outcome(conns, order).Bound? <==> exists mask :: Selection(conns, order, mask)
  {
    if Outcome(conns, order).Bound? {
      var mask := SuccessIsSelection(conns, order);
    }
    if mask :| Selection(conns, order, mask) {
      forall c, d | c in conns && d in conns && c.from == d.from ensures c == d {
        SelectionMatched(conns, order, mask, c, d);
      }
      SelectionSucceeds(conns, order, mask);
    }
  }

  // ---------------------------------------------------------------- the example of the source

  predicate PortLess(p: Port, q: Port)
  {
    LexLess(p.obj, q.obj) || (p.obj == q.obj && (LexLess(p.name, q.name) || (p.name == q.name && p.index < q.index)))
  }

  predicate SortedByFrom(order: seq<Conn>)
  {
    forall i :: 0 <= i < |order| - 1 ==> PortLess(order[i].from, order[i + 1].from)
  }

  function At(k: Key, i: int): Port { Port(k.obj, k.name, i) }

  /** The connections of the comment in `bind_ports`, in the order in which it walks through them. */
  function Example(a: Key, d: Key, e: Key, f: Key): seq<Conn>
  {
    [Conn(At(a, 0), At(d, 1))] + ([Conn(At(a, 1), At(e, 0))] + ([Conn(At(e, 0), At(a, 1))] + ExampleEnd(a, d, f)))
  }

  /** The same connections in an order that works. */
  function Reordered(a: Key, d: Key, e: Key, f: Key): seq<Conn>
  {
    [Conn(At(d, 0), At(f, 0))] + ([Conn(At(d, 1), At(a, 0))] + ([Conn(At(a, 1), At(e, 0))] + ReorderedEnd(a, d, e, f)))
  }

  ghost predicate Distinct(a: Key, d: Key, e: Key, f: Key)
  {
    a != d && a != e && a != f && d != e && d != f && e != f
  }

  ghost predicate Zero(ctr: Counters, a: Key, d: Key, e: Key, f: Key)
  {
    ctr.Keys == {a, d, e, f} && ctr[a] == ctr[d] == ctr[e] == ctr[f] == 0
  }

  lemma GreedySkip(c: Conn, rest: seq<Conn>, ctr: Counters)
    requires forall d :: d in [c] + rest ==> KeyOf(d.from) in ctr && KeyOf(d.to) in ctr
    requires !Bindable(ctr, c)
    ensures Greedy([c] + rest, ctr) == Greedy(rest, ctr)
  {
    assert ([c] + rest)[1..] == rest;
  }

  lemma GreedyBind(c: Conn, rest: seq<Conn>, ctr: Counters)
    requires forall d :: d in [c] + rest ==> KeyOf(d.from) in ctr && KeyOf(d.to) in ctr
    requires Bindable(ctr, c)
    ensures var w := Greedy(rest, Increment(Increment(ctr, c.from), c.to));
      w.Walk? ==> Greedy([c] + rest, ctr) == Walk([c] + w.made, w.ctr)
  {
    assert ([c] + rest)[1..] == rest;
  }

  /** In that order only two of the three connections are bound. */
  lemma ExampleWalk(a: Key, d: Key, e: Key, f: Key, ctr: Counters)
    requires Distinct(a, d, e, f) && Zero(ctr, a, d, e, f)
    ensures Greedy(Example(a, d, e, f), ctr).Walk? && |Greedy(Example(a, d, e, f), ctr).made| == 2
  {
    var r3 := ExampleEnd(a, d, f);
    var r2 := [Conn(At(e, 0), At(a, 1))] + r3;
    var r1 := [Conn(At(a, 1), At(e, 0))] + r2;
    GreedySkip(Conn(At(a, 0), At(d, 1)), r1, ctr);
    GreedySkip(Conn(At(a, 1), At(e, 0)), r2, ctr);
    GreedySkip(Conn(At(e, 0), At(a, 1)), r3, ctr);
    ExampleEndWalk(a, d, e, f, ctr);
  }

  /** The last three connections of the example. */
  function ExampleEnd(a: Key, d: Key, f: Key): seq<Conn>
  {
    [Conn(At(d, 0), At(f, 0))] + ([Conn(At(d, 1), At(a, 0))] + [Conn(At(f, 0), At(d, 0))])
  }

  lemma ExampleEndWalk(a: Key, d: Key, e: Key, f: Key, ctr: Counters)
    requires Distinct(a, d, e, f) && Zero(ctr, a, d, e, f)
    ensures Greedy(ExampleEnd(a, d, f), ctr).Walk? && |Greedy(ExampleEnd(a, d, f), ctr).made| == 2
  {
    var r5 := [Conn(At(f, 0), At(d, 0))];
    var r4 := [Conn(At(d, 1), At(a, 0))] + r5;
    GreedyBind(Conn(At(d, 0), At(f, 0)), r4, ctr);
    var c1 := Increment(Increment(ctr, At(d, 0)), At(f, 0));
    GreedyBind(Conn(At(d, 1), At(a, 0)), r5, c1);
    var c2 := Increment(Increment(c1, At(d, 1)), At(a, 0));
    GreedySkip(Conn(At(f, 0), At(d, 0)), [], c2);
    assert r5 + [] == r5;
  }

  lemma ReorderedWalk(a: Key, d: Key, e: Key, f: Key, ctr: Counters)
    requires Distinct(a, d, e, f) && Zero(ctr, a, d, e, f)
    ensures Greedy(Reordered(a, d, e, f), ctr).Walk? && |Greedy(Reordered(a, d, e, f), ctr).made| == 3
  {
    var r3 := ReorderedEnd(a, d, e, f);
    var r2 := [Conn(At(a, 1), At(e, 0))] + r3;
    var r1 := [Conn(At(d, 1), At(a, 0))] + r2;
    GreedyBind(Conn(At(d, 0), At(f, 0)), r1, ctr);
    var c1 := Increment(Increment(ctr, At(d, 0)), At(f, 0));
    GreedyBind(Conn(At(d, 1), At(a, 0)), r2, c1);
    var c2 := Increment(Increment(c1, At(d, 1)), At(a, 0));
    GreedyBind(Conn(At(a, 1), At(e, 0)), r3, c2);
    var c3 := Increment(Increment(c2, At(a, 1)), At(e, 0));
    ReorderedEndWalk(a, d, e, f, c3);
  }

  /** The reversed connections, which come last in that order. */
  function ReorderedEnd(a: Key, d: Key, e: Key, f: Key): seq<Conn>
  {
    [Conn(At(a, 0), At(d, 1))] + ([Conn(At(e, 0), At(a, 1))] + [Conn(At(f, 0), At(d, 0))])
  }

  lemma ReorderedEndWalk(a: Key, d: Key, e: Key, f: Key, ctr: Counters)
    requires ctr.Keys == {a, d, e, f} && ctr[a] == ctr[d] == 2 && ctr[e] == ctr[f] == 1
    ensures Greedy(ReorderedEnd(a, d, e, f), ctr) == Walk([], ctr)
  {
    var r5 := [Conn(At(f, 0), At(d, 0))];
    var r4 := [Conn(At(e, 0), At(a, 1))] + r5;
    GreedySkip(Conn(At(a, 0), At(d, 1)), r4, ctr);
    GreedySkip(Conn(At(e, 0), At(a, 1)), r5, ctr);
    GreedySkip(Conn(At(f, 0), At(d, 0)), [], ctr);
    assert r5 + [] == r5;
  }

  lemma InitialStep(conns: seq<Conn>, c: Conn)
    ensures Initial(conns + [c]) == Initial(conns)[KeyOf(c.from) := 0]
  {
    assert (conns + [c])[..|conns|] == conns;
  }

  lemma ExampleCounters(a: Key, d: Key, e: Key, f: Key)
    requires Distinct(a, d, e, f)
    ensures Zero(Initial(Example(a, d, e, f)), a, d, e, f)
  {
    var x := Example(a, d, e, f);
    InitialStep([], x[0]);
    InitialStep(x[..1], x[1]);
    InitialStep(x[..2], x[2]);
    InitialStep(x[..3], x[3]);
    InitialStep(x[..4], x[4]);
    InitialStep(x[..5], x[5]);
    assert x[..1] == [] + [x[0]] && x[..2] == x[..1] + [x[1]] && x[..3] == x[..2] + [x[2]];
    assert x[..4] == x[..3] + [x[3]] && x[..5] == x[..4] + [x[4]] && x == x[..5] + [x[5]];
  }

  lemma ExampleReordered(a: Key, d: Key, e: Key, f: Key)
    ensures multiset(Reordered(a, d, e, f)) == multiset(Example(a, d, e, f))
    ensures |Example(a, d, e, f)| == 6
  {
  }

  /**
    Contrary to the comment in the source, sorting does not make one direction of each
    connection bindable.  The binder raises on the comment's own example when the name of
    one port makes the walk of the comment the sorted one; another order of the same list
    binds everything.
  */
  lemma SortedOrderCanFail()
    ensures var (a, d, e, f) := (Key("a", "b"), Key("d", "f"), Key("b", "g"), Key("f", "h"));
      && SortedByFrom(Example(a, d, e, f))
      && Outcome(Example(a, d, e, f), Example(a, d, e, f)) == Unordered
      && multiset(Reordered(a, d, e, f)) == multiset(Example(a, d, e, f))
      && Outcome(Example(a, d, e, f), Reordered(a, d, e, f)).Bound?
  {
    var a, d, e, f := Key("a", "b"), Key("d", "f"), Key("b", "g"), Key("f", "h");
    assert a.obj[0] == 'a' && d.obj[0] == 'd' && e.obj[0] == 'b' && f.obj[0] == 'f';
    ExampleReordered(a, d, e, f);
    ExampleCounters(a, d, e, f);
    ExampleOutcome(a, d, e, f);
    ExampleSorted(a, d, e, f);
  }

  lemma ExampleOutcome(a: Key, d: Key, e: Key, f: Key)
    requires Distinct(a, d, e, f) && multiset(Reordered(a, d, e, f)) == multiset(Example(a, d, e, f))
    ensures Outcome(Example(a, d, e, f), Example(a, d, e, f)) == Unordered
    ensures Outcome(Example(a, d, e, f), Reordered(a, d, e, f)).Bound?
  {
    ExampleReordered(a, d, e, f);
    ExampleCounters(a, d, e, f);
    ExampleWalk(a, d, e, f, Initial(Example(a, d, e, f)));
    ReorderedWalk(a, d, e, f, Initial(Example(a, d, e, f)));
  }

  lemma ExampleSorted(a: Key, d: Key, e: Key, f: Key)
    requires LexLess(a.obj, e.obj) && LexLess(e.obj, d.obj) && LexLess(d.obj, f.obj)
    ensures SortedByFrom(Example(a, d, e, f))
  {
    var x := Example(a, d, e, f);
    assert |x| == 6 && x[0].from == At(a, 0) && x[1].from == At(a, 1) && x[2].from == At(e, 0);
    assert x[3].from == At(d, 0) && x[4].from == At(d, 1) && x[5].from == At(f, 0);
  }

  // ---------------------------------------------------------------- bind_ports

  /** The loop that sets the counter of every left-hand port to 0. */
  method InitialCounters(conns: seq<Conn>) returns (ctr: Counters)
    ensures ctr == Initial(conns)
  {
    ctr := map[];
    for i := 0 to |conns|
      invariant ctr == Initial(conns[..i])
    {
      assert conns[..i + 1][..i] == conns[..i];
      ctr := ctr[KeyOf(conns[i].from) := 0];
    }
    assert conns[..|conns|] == conns;
  }

  /** `bind_ports`, with the sorted list as a parameter. */
  method BindPorts(conns: seq<Conn>, order: seq<Conn>) returns (r: Result)
    requires multiset(order) == multiset(conns)
    ensures r == Outcome(conns, order)
  {
    var ctr := InitialCounters(conns);
    SameMembers(order, conns);
    InitialZero(conns);
    ghost var w := Greedy(order, ctr);
    var made, i := [], 0;
    assert order[0..] == order;
    while i < |order|
      invariant 0 <= i <= |order| && ctr.Keys == Initial(conns).Keys
      invariant forall c :: c in order[i..] ==> KeyOf(c.from) in ctr
      invariant Rest(w, made, Greedy(order[i..], ctr))
    {
      var c := order[i];
      assert c in order && order[i..][0] == c && order[i..][1..] == order[i + 1..];
      if Missing(ctr, c) { return KeyError; }
      if Bindable(ctr, c) {
        ctr := Increment(Increment(ctr, c.from), c.to);
        made := made + [c];
      }
      i := i + 1;
    }
    assert made + [] == made;
    r := if 2 * |made| != |conns| then Unordered else Bound(made);
  }

  /** The walk `w` is `made` followed by the walk `rest`. */
  ghost predicate Rest(w: Walk, made: seq<Conn>, rest: Walk)
  {
    w == match rest case Stuck => Stuck case Walk(more, ctr) => Walk(made + more, ctr)
  }
}
