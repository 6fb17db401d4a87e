/**
  The tree of caches and testers that `memtest.py` builds.

  `caches[0]` is the number of caches closest to memory; each cache fans out to a
  subtree, and `testers[k]` testers sit in every subsystem at depth `k`.  Levels count
  down from the number of cache levels at the memory to 0 at the top of the tree.
*/
module MemTest {
  import opened Common
  import opened DivMod
  import opened Text

  datatype Spec = Spec(caches: seq<int>, testers: seq<int>)
  {
    /** The checks of the script on its two options. */
    predicate Valid()
    {
      && |caches| >= 1
      && |testers| == |caches| + 1
      && testers[|testers| - 1] != 0
      && (forall i :: 0 <= i < |testers| ==> testers[i] >= 0)
      && (forall i :: 0 <= i < |caches| ==> caches[i] >= 1)
    }

    function Levels(): nat { |caches| }

    /** Caches and testers of a subsystem at a level: the levels index backwards. */
    function Fan(level: nat): (c: nat)
      requires Valid() && 0 < level <= Levels()
      ensures c >= 1
    {
      caches[Levels() - level]
    }

    function Testers(level: nat): nat
      requires Valid() && level <= Levels()
    {
      testers[Levels() - level]
    }
  }

  // ---------------------------------------------------------------- numtesters

  function Prod(s: seq<int>): int { if s == [] then 1 else Prod(s[..|s| - 1]) * s[|s| - 1] }

  /** The sum over the first `k` depths of testers per subsystem times subsystems. */
  function SumTesters(caches: seq<int>, testers: seq<int>, k: nat): int
    requires k <= |testers| && k <= |caches| + 1
  {
    if k == 0 then 0 else SumTesters(caches, testers, k - 1) + testers[k - 1] * Prod(caches[..k - 1])
  }

  function NumTestersOf(caches: seq<int>, testers: seq<int>): int
  {
    SumTesters(caches, testers, Min(|testers|, |caches| + 1))
  }

  method NumTesters(caches: seq<int>, testers: seq<int>) returns (total: int)
    ensures total == NumTestersOf(caches, testers)
  {
    var multiplier := [1];
    for i := 0 to |caches|
      invariant |multiplier| == i + 1 && forall k :: 0 <= k <= i ==> multiplier[k] == Prod(caches[..k])
    {
      assert caches[..i + 1][..i] == caches[..i];
      multiplier := multiplier + [multiplier[i] * caches[i]];
    }
    total := 0;
    for k := 0 to Min(|testers|, |multiplier|)
      invariant total == SumTesters(caches, testers, k)
    {
      total := total + testers[k] * multiplier[k];
    }
  }

  // ---------------------------------------------------------------- the tree

  datatype Subsystem = Subsystem(level: nat, index: nat, ntesters: nat)

  /** The next index of each level, and the subsystems created so far. */
  datatype State = State(next: seq<nat>, made: seq<Subsystem>)

  function Enter(sp: Spec, level: nat, st: State): (r: State)
    requires sp.Valid() && level <= sp.Levels() && |st.next| == sp.Levels() + 1
    ensures |r.next| == |st.next|
  {
    State(st.next[level := st.next[level] + 1],
          st.made + [Subsystem(level, st.next[level], sp.Testers(level))])
  }

  /** `make_cache_level` on a subtree. */
  function Build(sp: Spec, level: nat, st: State): (r: State)
    requires sp.Valid() && level <= sp.Levels() && |st.next| == sp.Levels() + 1
    ensures |r.next| == |st.next|
    decreases level, 1, 0
  {
    var entered := Enter(sp, level, st);
    if level == 0 then entered else BuildMany(sp, level, sp.Fan(level), entered)
  }

  /** The subtrees under the first `n` caches of a level. */
  function BuildMany(sp: Spec, level: nat, n: nat, st: State): (r: State)
    requires sp.Valid() && 0 < level <= sp.Levels() && |st.next| == sp.Levels() + 1
    ensures |r.next| == |st.next|
    decreases level, 0, n
  {
    if n == 0 then st else Build(sp, level - 1, BuildMany(sp, level, n - 1, st))
  }

  /** The number of subsystems of level `l` in a subtree. */
  function Count(sp: Spec, level: nat, l: nat): nat
    requires sp.Valid() && level <= sp.Levels()
    decreases level
  {
    if l == level then 1 else if l > level then 0 else MulNat(sp.Fan(level), Count(sp, level - 1, l))
  }

  function MulNat(a: nat, b: nat): nat
  {
    MulNonNegative(a, b);
    a * b
  }

  lemma {:induction false} CountsBuilt(sp: Spec, level: nat, st: State, l: nat)
    requires sp.Valid() && level <= sp.Levels() && |st.next| == sp.Levels() + 1 && l <= sp.Levels()
    ensures Build(sp, level, st).next[l] == st.next[l] + Count(sp, level, l)
    decreases level, 1, 0
  {
    if level > 0 { CountsBuiltMany(sp, level, sp.Fan(level), Enter(sp, level, st), l); }
  }

  lemma {:induction false} CountsBuiltMany(sp: Spec, level: nat, n: nat, st: State, l: nat)
    requires sp.Valid() && 0 < level <= sp.Levels() && |st.next| == sp.Levels() + 1 && l <= sp.Levels()
    ensures BuildMany(sp, level, n, st).next[l] == st.next[l] + n * Count(sp, level - 1, l)
    decreases level, 0, n
  {
    if n > 0 {
      CountsBuiltMany(sp, level, n - 1, st, l);
      CountsBuilt(sp, level - 1, BuildMany(sp, level, n - 1, st), l);
      MulStep(n, Count(sp, level - 1, l));
    }
  }

  /** Level `l` of the whole tree has the product of the fan-outs below it. */
  lemma {:induction false} CountIsProduct(sp: Spec, level: nat, l: nat)
    requires sp.Valid() && l <= level <= sp.Levels()
    ensures Prod(sp.caches[..sp.Levels() - l]) ==
      Prod(sp.caches[..sp.Levels() - level]) * Count(sp, level, l)
    decreases level - l
  {
    if l < level {
      CountIsProduct(sp, level - 1, l);
      var k := sp.Levels() - level;
      assert sp.caches[..k + 1][..k] == sp.caches[..k];
      MulAssociative(Prod(sp.caches[..k]), sp.caches[k], Count(sp, level - 1, l));
    }
  }

  lemma MulAssociative(a: int, b: int, c: int)
    ensures a * b * c == a * (b * c)
  {
  }

  // ---------------------------------------------------------------- testers

  function TesterTotal(made: seq<Subsystem>): nat
  {
    if made == [] then 0 else TesterTotal(made[..|made| - 1]) + made[|made| - 1].ntesters
  }

  function TreeTesters(sp: Spec, level: nat): nat
    requires sp.Valid() && level <= sp.Levels()
  {
    sp.Testers(level) + if level == 0 then 0 else MulNat(sp.Fan(level), TreeTesters(sp, level - 1))
  }

  lemma Accumulate(a: int, b: int, c: int, n: int, x: int)
    requires b == a + (n - 1) * x && c == b + x
    ensures c == a + n * x
  {
    MulStep(n, x);
  }

  lemma {:induction false} TestersBuilt(sp: Spec, level: nat, st: State)
    requires sp.Valid() && level <= sp.Levels() && |st.next| == sp.Levels() + 1
    ensures TesterTotal(Build(sp, level, st).made) == TesterTotal(st.made) + TreeTesters(sp, level)
    decreases level, 1, 0
  {
    var e := Enter(sp, level, st);
    assert e.made[..|e.made| - 1] == st.made;
    if level > 0 { TestersBuiltMany(sp, level, sp.Fan(level), e); }
  }

  lemma {:induction false} TestersBuiltMany(sp: Spec, level: nat, n: nat, st: State)
    requires sp.Valid() && 0 < level <= sp.Levels() && |st.next| == sp.Levels() + 1
    ensures TesterTotal(BuildMany(sp, level, n, st).made) == TesterTotal(st.made) + n * TreeTesters(sp, level - 1)
    decreases level, 0, n
  {
    if n > 0 {
      TestersBuiltMany(sp, level, n - 1, st);
      var before := BuildMany(sp, level, n - 1, st);
      TestersBuilt(sp, level - 1, before);
      Accumulate(TesterTotal(st.made), TesterTotal(before.made), TesterTotal(Build(sp, level - 1, before).made),
                 n, TreeTesters(sp, level - 1));
    }
  }

  /** The nested count of testers is the sum over the depths that `numtesters` computes. */
  lemma {:induction false} TreeIsSum(sp: Spec, level: nat)
    requires sp.Valid() && level <= sp.Levels()
    ensures var k := sp.Levels() - level;
      NumTestersOf(sp.caches, sp.testers) ==
      SumTesters(sp.caches, sp.testers, k) + Prod(sp.caches[..k]) * TreeTesters(sp, level)
    decreases level
  {
    var k := sp.Levels() - level;
    var p, t := Prod(sp.caches[..k]), sp.testers[k];
    if level == 0 {
      MulCommutes(p, t);
    } else {
      var c, sub := sp.caches[k], TreeTesters(sp, level - 1);
      TreeIsSum(sp, level - 1);
      ProdStep(sp.caches, k);
      DepthStep(p, t, c, sub);
      assert TreeTesters(sp, level) == t + c * sub;
    }
  }

  lemma MulCommutes(a: int, b: int)
    ensures a * b == b * a
  {
  }

  lemma ProdStep(s: seq<int>, k: nat)
    requires k < |s|
    ensures Prod(s[..k + 1]) == Prod(s[..k]) * s[k]
  {
    assert s[..k + 1][..k] == s[..k];
  }

  lemma DepthStep(p: int, t: int, c: int, sub: int)
    ensures p * (t + c * sub) == t * p + p * c * sub
  {
    MulAssociative(p, c, sub);
    assert p * (t + c * sub) == p * t + p * (c * sub);
  }

  // ---------------------------------------------------------------- names

  function NameOf(s: Subsystem): string { "l" + Show(s.level) + "subsys" + Show(s.index) }

  /** The number of subsystems of level `l`. */
  function LevelCount(made: seq<Subsystem>, l: nat): nat
  {
    if made == [] then 0
    else LevelCount(made[..|made| - 1], l) + if made[|made| - 1].level == l then 1 else 0
  }

  /** The names already given use up the indices below the counters, each once. */
  ghost predicate Unique(st: State)
  {
    && (forall l :: 0 <= l < |st.next| ==> LevelCount(st.made, l) == st.next[l])
    && (forall i :: 0 <= i < |st.made| ==>
          st.made[i].level < |st.next| && st.made[i].index < st.next[st.made[i].level])
    && (forall i, j :: 0 <= i < j < |st.made| ==>
          st.made[i].level != st.made[j].level || st.made[i].index != st.made[j].index)
  }

  lemma {:induction false} UniqueBuilt(sp: Spec, level: nat, st: State)
    requires sp.Valid() && level <= sp.Levels() && |st.next| == sp.Levels() + 1 && Unique(st)
    ensures Unique(Build(sp, level, st))
    decreases level, 1, 0
  {
    var e := Enter(sp, level, st);
    assert e.made[..|e.made| - 1] == st.made;
    if level > 0 { UniqueBuiltMany(sp, level, sp.Fan(level), e); }
  }

  lemma {:induction false} UniqueBuiltMany(sp: Spec, level: nat, n: nat, st: State)
    requires sp.Valid() && 0 < level <= sp.Levels() && |st.next| == sp.Levels() + 1 && Unique(st)
    ensures Unique(BuildMany(sp, level, n, st))
    decreases level, 0, n
  {
    if n > 0 {
      UniqueBuiltMany(sp, level, n - 1, st);
      UniqueBuilt(sp, level - 1, BuildMany(sp, level, n - 1, st));
    }
  }

  predicate Made(made: seq<Subsystem>, s: Subsystem) { s in made }

  /** Every index below the counters was given out, with the testers of its level. */
  ghost predicate Filled(sp: Spec, st: State)
    requires sp.Valid() && |st.next| == sp.Levels() + 1
  {
    forall l: nat, k: nat :: l <= sp.Levels() && k < st.next[l] ==> Made(st.made, Subsystem(l, k, sp.Testers(l)))
  }

  lemma {:induction false} FilledBuilt(sp: Spec, level: nat, st: State)
    requires sp.Valid() && level <= sp.Levels() && |st.next| == sp.Levels() + 1 && Filled(sp, st)
    ensures Filled(sp, Build(sp, level, st))
    decreases level, 1, 0
  {
    var e := Enter(sp, level, st);
    forall l: nat, k: nat | l <= sp.Levels() && k < e.next[l] ensures Made(e.made, Subsystem(l, k, sp.Testers(l))) {
      if k < st.next[l] { assert Made(st.made, Subsystem(l, k, sp.Testers(l))); }
    }
    if level > 0 { FilledBuiltMany(sp, level, sp.Fan(level), e); }
  }

  lemma {:induction false} FilledBuiltMany(sp: Spec, level: nat, n: nat, st: State)
    requires sp.Valid() && 0 < level <= sp.Levels() && |st.next| == sp.Levels() + 1 && Filled(sp, st)
    ensures Filled(sp, BuildMany(sp, level, n, st))
    decreases level, 0, n
  {
    if n > 0 {
      FilledBuiltMany(sp, level, n - 1, st);
      FilledBuilt(sp, level - 1, BuildMany(sp, level, n - 1, st));
    }
  }

  /** The digits at the start of a text. */
  lemma {:induction false} DigitsThenLetter(a: string, x: string, b: string, y: string)
    requires AllDigits(a) && AllDigits(b) && x != "" && y != "" && !IsDigit(x[0]) && !IsDigit(y[0])
    requires a + x == b + y
    ensures a == b && x == y
  {
    assert (a + x)[0] == if a != "" then a[0] else x[0];
    assert (b + y)[0] == if b != "" then b[0] else y[0];
    if a == "" {
      assert a + x == x && b + y == y;
    } else {
      assert (a + x)[1..] == a[1..] + x && (b + y)[1..] == b[1..] + y;
      DigitsThenLetter(a[1..], x, b[1..], y);
      assert a == [a[0]] + a[1..] && b == [b[0]] + b[1..];
    }
  }

  lemma NameParts(a: string, b: string, c: string, d: string)
    requires AllDigits(a) && AllDigits(c) && "l" + a + "subsys" + b == "l" + c + "subsys" + d
    ensures a == c && b == d
  {
    var x, y := "subsys" + b, "subsys" + d;
    assert ("l" + a + "subsys" + b)[1..] == a + x && ("l" + c + "subsys" + d)[1..] == c + y;
    DigitsThenLetter(a, x, c, y);
    assert x[6..] == b && y[6..] == d;
  }

  lemma NameInjective(s: Subsystem, t: Subsystem)
    requires NameOf(s) == NameOf(t)
    ensures s.level == t.level && s.index == t.index
  {
    NameParts(Show(s.level), Show(s.index), Show(t.level), Show(t.index));
    ShowInjective(s.level, t.level);
    ShowInjective(s.index, t.index);
  }

  // ---------------------------------------------------------------- main results

  function Fresh(sp: Spec): State { State(seq(sp.Levels() + 1, _ => 0), []) }

  /** The whole tree. */
  function Tree(sp: Spec): State
    requires sp.Valid()
  {
    Build(sp, sp.Levels(), Fresh(sp))
  }

  /** The recursion creates exactly the testers that `numtesters` predicts. */
  lemma TestersMatch(sp: Spec)
    requires sp.Valid()
    ensures TesterTotal(Tree(sp).made) == NumTestersOf(sp.caches, sp.testers)
  {
    TestersBuilt(sp, sp.Levels(), Fresh(sp));
    TreeIsSum(sp, sp.Levels());
    assert sp.caches[..0] == [];
  }

  lemma TreeCount(sp: Spec, l: nat)
    requires sp.Valid() && l <= sp.Levels()
    ensures Tree(sp).next[l] == Prod(sp.caches[..sp.Levels() - l])
  {
    CountsBuilt(sp, sp.Levels(), Fresh(sp), l);
    CountIsProduct(sp, sp.Levels(), l);
    assert sp.caches[..0] == [];
  }

  /** Each level has the product of the cache counts between it and the memory, under distinct names. */
  lemma SubsystemsMatch(sp: Spec, l: nat)
    requires sp.Valid() && l <= sp.Levels()
    ensures LevelCount(Tree(sp).made, l) == Prod(sp.caches[..sp.Levels() - l])
    ensures var made := Tree(sp).made;
      forall i, j :: 0 <= i < j < |made| ==> NameOf(made[i]) != NameOf(made[j])
  {
    TreeCount(sp, l);
    UniqueBuilt(sp, sp.Levels(), Fresh(sp));
    var made := Tree(sp).made;
    forall i, j | 0 <= i < j < |made| ensures NameOf(made[i]) != NameOf(made[j]) {
      if NameOf(made[i]) == NameOf(made[j]) { NameInjective(made[i], made[j]); }
    }
  }

  /** The subsystems of a level are numbered from 0 without a gap, and each holds the testers of its depth. */
  lemma NamesOfLevel(sp: Spec, l: nat, k: nat)
    requires sp.Valid() && l <= sp.Levels() && k < Prod(sp.caches[..sp.Levels() - l])
    ensures exists s ::
      && s in Tree(sp).made && s.level == l && s.ntesters == sp.testers[|sp.caches| - l]
      && NameOf(s) == "l" + Show(l) + "subsys" + Show(k)
  {
    TreeCount(sp, l);
    var s := TreeHolds(sp, l, k);
  }

  lemma TreeHolds(sp: Spec, l: nat, k: nat) returns (s: Subsystem)
    requires sp.Valid() && l <= sp.Levels() && k < Tree(sp).next[l]
    ensures s in Tree(sp).made && s == Subsystem(l, k, sp.Testers(l))
  {
    FilledBuilt(sp, sp.Levels(), Fresh(sp));
    s := Subsystem(l, k, sp.Testers(l));
    assert Made(Tree(sp).made, s);
  }

  // ---------------------------------------------------------------- prototypes

  /** The parameters of a cache prototype that the loop scales or toggles. */
  datatype Proto = Proto(
    size: int, assoc: int, mshrs: int, tagLatency: int, dataLatency: int, responseLatency: int,
    mostlyInclusive: bool, writebackClean: bool)

  ghost predicate Scaled(q: Proto, l1: Proto, p: int)
  {
    q.size == l1.size * p && q.assoc == l1.assoc * p && q.mshrs == l1.mshrs * p
  }

  ghost predicate Slowed(q: Proto, l1: Proto, p: int)
  {
    q.tagLatency == l1.tagLatency * p && q.dataLatency == l1.dataLatency * p && q.responseLatency == l1.responseLatency * p
  }

  ghost function Power10(k: nat): nat { if k == 0 then 1 else 10 * Power10(k - 1) }

  lemma NextScaled(prev: Proto, next: Proto, l1: Proto, p: int, scale: int, t: int)
    requires Scaled(prev, l1, p) && Slowed(prev, l1, t) && Scaled(next, prev, scale) && Slowed(next, prev, 10)
    ensures Scaled(next, l1, p * scale) && Slowed(next, l1, 10 * t)
  {
    MulAssociative(l1.size, p, scale);
    MulAssociative(l1.assoc, p, scale);
    MulAssociative(l1.mshrs, p, scale);
  }

  /** Adjacent levels alternate between mostly inclusive and mostly exclusive. */
  ghost predicate Alternating(protos: seq<Proto>)
  {
    forall i :: 0 <= i < |protos| - 1 ==>
      protos[i].mostlyInclusive != protos[i + 1].mostlyInclusive &&
      protos[i].writebackClean != protos[i + 1].writebackClean
  }

  /** Clones and scales the previous level, inserting at the front; the last element is L1. */
  method MakePrototypes(caches: seq<int>, l1: Proto) returns (protos: seq<Proto>)
    requires |caches| >= 1
    ensures |protos| == |caches| && protos[|protos| - 1] == l1 && Alternating(protos)
    ensures forall i :: 0 <= i < |protos| ==>
      Scaled(protos[i], l1, Prod(caches[..|protos| - 1 - i])) && Slowed(protos[i], l1, Power10(|protos| - 1 - i))
  {
    protos := [l1];
    assert Prod([]) == 1;
    for k := 0 to |caches| - 1
      invariant |protos| == k + 1 && protos[k] == l1 && Alternating(protos)
      invariant forall i :: 0 <= i <= k ==>
        Scaled(protos[i], l1, Prod(caches[..k - i])) && Slowed(protos[i], l1, Power10(k - i))
    {
      var prev, scale := protos[0], caches[k];
      assert caches[..k + 1][..k] == caches[..k];
      var next := Proto(prev.size * scale, prev.assoc * scale, prev.mshrs * scale,
                        prev.tagLatency * 10, prev.dataLatency * 10, prev.responseLatency * 10,
                        !prev.mostlyInclusive, !prev.writebackClean);
      NextScaled(prev, next, l1, Prod(caches[..k]), scale, Power10(k));
      ghost var old' := protos;
      protos := [next] + protos;
      assert forall i :: 1 <= i <= k + 1 ==> protos[i] == old'[i - 1];
      assert Alternating(protos) by {
        forall i | 0 <= i < |protos| - 1
          ensures protos[i].mostlyInclusive != protos[i + 1].mostlyInclusive &&
            protos[i].writebackClean != protos[i + 1].writebackClean
        {
          if i > 0 { assert protos[i] == old'[i - 1] && protos[i + 1] == old'[i]; }
        }
      }
    }
  }

  // ---------------------------------------------------------------- make_cache_level

  /** The global `next_subsys_index` and the system that subsystems are added to. */
  class Builder {
    const spec: Spec
    var next: seq<nat>
    var made: seq<Subsystem>

    constructor (sp: Spec)
      ensures spec == sp && State(next, made) == Fresh(sp)
    {
      spec := sp;
      next := seq(sp.Levels() + 1, _ => 0);
      made := [];
    }

    /**
      One subtree.  `ok` is false for the "No next-level cache" error, which only a
      call at level 0 without a cache below can reach.
    */
    method MakeCacheLevel(ncaches: seq<int>, prototypes: seq<Proto>, level: nat, nextCache: bool) returns (ok: bool)
      requires spec.Valid() && level <= spec.Levels() && |next| == spec.Levels() + 1
      requires ncaches == spec.caches[spec.Levels() - level..] && |prototypes| == level
      modifies this
      ensures ok <==> level > 0 || nextCache
      ensures State(next, made) == Build(spec, level, old(State(next, made)))
      decreases level
    {
      var index := next[level];
      next := next[level := next[level] + 1];
      var ntesters := spec.testers[|spec.caches| - level];
      made := made + [Subsystem(level, index, ntesters)];
      if level == 0 {
        // with a single tester the script indexes the list of testers
        assert ntesters >= 1;
        return nextCache;
      }
      ghost var st := State(next, made);
      var proto, fan := prototypes[0], ncaches[0];
      for k := 0 to fan
        invariant |next| == spec.Levels() + 1
        invariant State(next, made) == BuildMany(spec, level, k, st)
      {
        assert ncaches[1..] == spec.caches[spec.Levels() - (level - 1)..];
        var sub := MakeCacheLevel(ncaches[1..], prototypes[1..], level - 1, true);
        assert sub;
      }
      ok := true;
    }

    /** The top-level call, which has no cache below it and never reaches the error. */
    method MakeTree(prototypes: seq<Proto>) returns (ok: bool)
      requires spec.Valid() && State(next, made) == Fresh(spec) && |prototypes| == |spec.caches|
      modifies this
      ensures ok && State(next, made) == Tree(spec)
    {
      assert spec.caches[0..] == spec.caches;
      ok := MakeCacheLevel(spec.caches, prototypes, |spec.caches|, false);
    }
  }
}
