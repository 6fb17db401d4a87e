/**
  The checkpoint upgrader, `cpt_upgrader.py`.

  Every upgrader carries a tag, the tags it depends on, and either an `upgrader` that
  adds its tag to a checkpoint or a `downgrader` that removes it.  A checkpoint is
  processed in batches: all pending migrations whose dependences are present run, in
  the order in which Python iterates over a set, and then the next batch is chosen.
*/
module CptUpgrader {
  import opened Common

  datatype Tag = Tag(name: string)

  /** Only membership in `depends` is ever asked for, so the list is kept as a set. */
  datatype Entry = Entry(depends: set<Tag>, up: bool)

  datatype Registry = Registry(entries: map<Tag, Entry>)
  {
    /** The class variables `tag_set` and `untag_set`. */
    function TagSet(): set<Tag> { set t | t in entries && entries[t].up }
    function UntagSet(): set<Tag> { set t | t in entries && !entries[t].up }

    function Pending(tags: set<Tag>): set<Tag> { (TagSet() - tags) + (UntagSet() * tags) }

    function DependsOf(t: Tag): set<Tag> { if t in entries then entries[t].depends else {} }

    predicate Ready(t: Tag, tags: set<Tag>)
      requires t in entries
    {
      entries[t].depends <= tags
    }

    /** The tags after a batch has run, in whatever order. */
    function After(tags: set<Tag>, batch: set<Tag>): set<Tag>
    {
      tags + batch * TagSet() - batch * UntagSet()
    }

    function ReadySet(tags: set<Tag>, pending: set<Tag>): set<Tag>
      requires pending <= entries.Keys
    {
      set t | t in pending && Ready(t, tags)
    }

    /** The batches that run, the tags at the end, and the migrations that could not run. */
    function Schedule(tags: set<Tag>, pending: set<Tag>): (r: Outcome)
      requires pending <= entries.Keys
      decreases pending
    {
      var ready := ReadySet(tags, pending);
      if ready == {} then Outcome([], tags, pending)
      else
        var rest := Schedule(After(tags, ready), pending - ready);
        Outcome([ready] + rest.batches, rest.tags, rest.left)
    }
  }

  datatype Outcome = Outcome(batches: seq<set<Tag>>, tags: set<Tag>, left: set<Tag>)

  function SetOf(s: seq<Tag>): set<Tag> { set t | t in s }

  /** `q` lists a batch in some order, without repeats. */
  ghost predicate ListsOne(q: seq<Tag>, batch: set<Tag>)
  {
    SetOf(q) == batch && NoRepeats(q)
  }

  /** `log` lists the batches one after the other. */
  ghost predicate Lists(log: seq<seq<Tag>>, batches: seq<set<Tag>>)
  {
    |log| == |batches| && forall k :: 0 <= k < |log| ==> ListsOne(log[k], batches[k])
  }

  function Flatten(log: seq<seq<Tag>>): seq<Tag>
  {
    if log == [] then [] else log[0] + Flatten(log[1..])
  }

  // ---------------------------------------------------------------- final tags

  ghost function Union(batches: seq<set<Tag>>): set<Tag>
  {
    if batches == [] then {} else batches[0] + Union(batches[1..])
  }

  ghost predicate Disjoint(batches: seq<set<Tag>>)
  {
    batches == [] || (batches[0] !! Union(batches[1..]) && Disjoint(batches[1..]))
  }

  /** Each pending migration runs in exactly one batch or is left over. */
  lemma {:induction false} RunsExactlyOnce(r: Registry, tags: set<Tag>, pending: set<Tag>)
    requires pending <= r.entries.Keys
    ensures var o := r.Schedule(tags, pending);
      && Disjoint(o.batches) && Union(o.batches) + o.left == pending && Union(o.batches) !! o.left
      && o.tags == r.After(tags, Union(o.batches))
    decreases pending
  {
    var ready := r.ReadySet(tags, pending);
    if ready != {} {
      var rest := r.Schedule(r.After(tags, ready), pending - ready);
      RunsExactlyOnce(r, r.After(tags, ready), pending - ready);
      var o := r.Schedule(tags, pending);
      assert o.batches[1..] == rest.batches;
      assert r.TagSet() !! r.UntagSet();
    } else {
      assert r.After(tags, {}) == tags;
    }
  }

  /**
    A run that does not abort ends with every upgrade tag present and every downgrade
    tag absent, so that a second run has nothing to apply.
  */
  lemma FinalTags(r: Registry, tags: set<Tag>)
    requires r.Schedule(tags, r.Pending(tags)).left == {}
    ensures var final := r.Schedule(tags, r.Pending(tags)).tags;
      && final == (tags + r.TagSet()) - r.UntagSet()
      && r.Pending(final) == {}
  {
    RunsExactlyOnce(r, tags, r.Pending(tags));
    assert r.TagSet() !! r.UntagSet();
  }

  // ---------------------------------------------------------------- completeness

  /** Each tag of `order` has its dependences in `tags` or earlier in `order`. */
  ghost predicate Respects(r: Registry, tags: set<Tag>, order: seq<Tag>)
  {
    forall i :: 0 <= i < |order| ==> order[i] in r.entries && r.entries[order[i]].depends <= tags + SetOf(order[..i])
  }

  /** An order of all of `pending` that respects the dependences. */
  ghost predicate IsOrder(r: Registry, tags: set<Tag>, pending: set<Tag>, order: seq<Tag>)
  {
    NoRepeats(order) && SetOf(order) == pending && Respects(r, tags, order)
  }

  lemma {:induction false} FirstPending(pending: set<Tag>, order: seq<Tag>, n: nat) returns (k: nat)
    requires n <= |order| && pending != {} && pending <= SetOf(order)
    requires forall i :: 0 <= i < n ==> order[i] !in pending
    ensures k < |order| && order[k] in pending && forall i :: 0 <= i < k ==> order[i] !in pending
    decreases |order| - n
  {
    var t :| t in pending;
    assert t in order;
    if order[n] in pending { k := n; } else { k := FirstPending(pending, order, n + 1); }
  }

  /** While an order covers what is pending, something is ready. */
  lemma FirstPendingReady(r: Registry, tags: set<Tag>, pending: set<Tag>, order: seq<Tag>)
    requires pending != {} && pending <= r.entries.Keys
    requires Respects(r, tags, order) && pending <= SetOf(order) <= pending + tags
    ensures r.ReadySet(tags, pending) != {}
  {
    var k := FirstPending(pending, order, 0);
    forall t | t in SetOf(order[..k]) ensures t in tags {
      assert t in SetOf(order);
    }
    assert order[k] in r.ReadySet(tags, pending);
  }

  lemma {:induction false} OrderImpliesSuccess(r: Registry, tags: set<Tag>, pending: set<Tag>, order: seq<Tag>)
    requires pending <= r.TagSet()
    requires Respects(r, tags, order) && pending <= SetOf(order) <= pending + tags
    ensures r.Schedule(tags, pending).left == {}
    decreases pending
  {
    if pending != {} {
      FirstPendingReady(r, tags, pending, order);
      var ready := r.ReadySet(tags, pending);
      UpgradeStep(r, tags, pending);
      OrderImpliesSuccess(r, tags + ready, pending - ready, order);
    }
  }

  lemma {:induction false} SetOfAppend(a: seq<Tag>, b: seq<Tag>)
    ensures SetOf(a + b) == SetOf(a) + SetOf(b)
  {
  }

  /** Whatever the order inside the batches, a successful run respects the dependences. */
  lemma {:induction false} RunIsOrder(r: Registry, tags: set<Tag>, pending: set<Tag>, log: seq<seq<Tag>>)
    requires pending <= r.TagSet() && r.Schedule(tags, pending).left == {}
    requires Lists(log, r.Schedule(tags, pending).batches)
    ensures IsOrder(r, tags, pending, Flatten(log))
    decreases pending
  {
    var ready := r.ReadySet(tags, pending);
    if ready != {} {
      UpgradeStep(r, tags, pending);
      RunIsOrder(r, tags + ready, pending - ready, log[1..]);
      assert ListsOne(log[0], ready);
      OrderAppend(r, tags, pending, ready, log[0], Flatten(log[1..]));
    }
  }

  /** One batch of upgrades only adds its tags. */
  lemma UpgradeStep(r: Registry, tags: set<Tag>, pending: set<Tag>)
    requires pending <= r.TagSet() && r.ReadySet(tags, pending) != {}
    ensures var ready := r.ReadySet(tags, pending);
      var o, rest := r.Schedule(tags, pending), r.Schedule(tags + ready, pending - ready);
      && r.After(tags, ready) == tags + ready
      && o == Outcome([ready] + rest.batches, rest.tags, rest.left)
  {
    var ready := r.ReadySet(tags, pending);
    assert r.TagSet() !! r.UntagSet();
    assert r.After(tags, ready) == tags + ready;
  }

  lemma OrderAppend(r: Registry, tags: set<Tag>, pending: set<Tag>, ready: set<Tag>, a: seq<Tag>, b: seq<Tag>)
    requires pending <= r.entries.Keys && ready == r.ReadySet(tags, pending)
    requires ListsOne(a, ready) && IsOrder(r, tags + ready, pending - ready, b)
    ensures IsOrder(r, tags, pending, a + b)
  {
    var s := a + b;
    SetOfAppend(a, b);
    forall i, j | 0 <= i < j < |s| ensures s[i] != s[j] {
      if i < |a| { assert s[i] in SetOf(a); }
      if j >= |a| { assert s[j] in SetOf(b); }
    }
    forall i | 0 <= i < |s| ensures s[i] in r.entries && r.entries[s[i]].depends <= tags + SetOf(s[..i]) {
      if i < |a| {
        assert s[i] in SetOf(a);
      } else {
        assert s[..i] == a + b[..i - |a|];
        SetOfAppend(a, b[..i - |a|]);
      }
    }
  }

  lemma {:induction false} Listing(s: set<Tag>) returns (q: seq<Tag>)
    ensures ListsOne(q, s)
  {
    q := [];
    if s != {} {
      var t :| t in s;
      var p := Listing(s - {t});
      q := [t] + p;
      assert SetOf(q) == {t} + SetOf(p);
      assert t !in SetOf(p);
      assert forall i :: 0 <= i < |p| ==> p[i] in SetOf(p);
    }
  }

  lemma {:induction false} SomeListing(batches: seq<set<Tag>>) returns (log: seq<seq<Tag>>)
    ensures Lists(log, batches)
    decreases |batches|
  {
    log := [];
    if batches != [] {
      var first := Listing(batches[0]);
      var rest := SomeListing(batches[1..]);
      log := [first] + rest;
    }
  }

  /**
    With no downgrade pending the scheduler aborts exactly when no order of the
    missing upgrades respects their dependences.
  */
  lemma AbortsIffNoOrder(r: Registry, tags: set<Tag>)
    requires r.UntagSet() !! tags
    ensures r.Schedule(tags, r.Pending(tags)).left == {} <==>
      exists order :: IsOrder(r, tags, r.Pending(tags), order)
  {
    var pending := r.Pending(tags);
    assert pending <= r.TagSet();
    if r.Schedule(tags, pending).left == {} {
      var log := SomeListing(r.Schedule(tags, pending).batches);
      RunIsOrder(r, tags, pending, log);
    }
    if order :| IsOrder(r, tags, pending, order) {
      OrderImpliesSuccess(r, tags, pending, order);
    }
  }

  // ---------------------------------------------------------------- what runs before what

  /** The index of the batch in which a tag runs. */
  function BatchOf(batches: seq<set<Tag>>, t: Tag): nat
  {
    if batches == [] || t in batches[0] then 0 else 1 + BatchOf(batches[1..], t)
  }

  /**
    The order between a migration that ran and one of its dependences, with or without
    downgrades: a dependence on an upgrade is present from the start or ran in an
    earlier batch; any other dependence is present from the start and, if it is
    downgraded in this run at all, then not in an earlier batch.
  */
  lemma {:induction false} DependenceOrder(r: Registry, tags: set<Tag>, pending: set<Tag>, u: Tag, d: Tag)
    requires pending <= r.entries.Keys && u in Union(r.Schedule(tags, pending).batches)
    requires d in r.DependsOf(u)
    ensures var b := r.Schedule(tags, pending).batches;
      if d in r.TagSet() then d in tags || (d in Union(b) && BatchOf(b, d) < BatchOf(b, u))
      else d in tags && BatchOf(b, u) <= BatchOf(b, d)
    decreases pending
  {
    var ready := r.ReadySet(tags, pending);
    var rest := r.Schedule(r.After(tags, ready), pending - ready).batches;
    assert r.Schedule(tags, pending).batches[1..] == rest;
    if u !in ready { DependenceOrder(r, r.After(tags, ready), pending - ready, u, d); }
  }

  /** A migration that depends on a tag which is gone from the start, and which no upgrade adds, never runs. */
  lemma DowngradedDependenceBlocks(r: Registry, tags: set<Tag>, u: Tag, d: Tag)
    requires u in r.Pending(tags) && d in r.DependsOf(u) && d !in r.TagSet() && d !in tags
    ensures u in r.Schedule(tags, r.Pending(tags)).left
  {
    RunsExactlyOnce(r, tags, r.Pending(tags));
    if u in Union(r.Schedule(tags, r.Pending(tags)).batches) { DependenceOrder(r, tags, r.Pending(tags), u, d); }
  }

  /**
    The rule of the header text: a migration that depends on a tag with a downgrader runs
    in a later batch than that downgrader.
  */
  ghost predicate HeaderRule(r: Registry, b: seq<set<Tag>>)
  {
    forall u, d :: u in Union(b) && d in r.DependsOf(u) && d in r.UntagSet() ==> BatchOf(b, d) < BatchOf(b, u)
  }

  /** The code never makes a migration wait for a downgrader: the rule holds only where nothing asks for it. */
  lemma HeaderRuleIff(r: Registry, tags: set<Tag>, pending: set<Tag>)
    requires pending <= r.entries.Keys
    ensures var b := r.Schedule(tags, pending).batches;
      HeaderRule(r, b) <==> forall u :: u in Union(b) ==> r.DependsOf(u) !! r.UntagSet()
  {
    var b := r.Schedule(tags, pending).batches;
    forall u, d | u in Union(b) && d in r.DependsOf(u) && d in r.UntagSet()
      ensures BatchOf(b, u) <= BatchOf(b, d)
    {
      DependenceOrder(r, tags, pending, u, d);
    }
    if HeaderRule(r, b) {
      forall u | u in Union(b) ensures r.DependsOf(u) !! r.UntagSet() {
        forall d | d in r.DependsOf(u) ensures d !in r.UntagSet() { }
      }
    }
  }

  /** For a run that does not abort, by what can be asked before it starts. */
  lemma HeaderRuleIffNoneAsks(r: Registry, tags: set<Tag>)
    requires r.Schedule(tags, r.Pending(tags)).left == {}
    ensures HeaderRule(r, r.Schedule(tags, r.Pending(tags)).batches) <==>
      forall u :: u in r.Pending(tags) ==> r.DependsOf(u) !! r.UntagSet()
  {
    RunsExactlyOnce(r, tags, r.Pending(tags));
    HeaderRuleIff(r, tags, r.Pending(tags));
  }

  // ---------------------------------------------------------------- inside a batch

  /** Each migration of `order` finds all its dependences among the tags when it runs. */
  ghost predicate DependencesPresent(r: Registry, tags: set<Tag>, order: seq<Tag>)
  {
    forall i :: 0 <= i < |order| ==> PresentAt(r, tags, order, i)
  }

  ghost predicate PresentAt(r: Registry, tags: set<Tag>, order: seq<Tag>, i: nat)
    requires i < |order|
  {
    r.DependsOf(order[i]) <= r.After(tags, SetOf(order[..i]))
  }

  /** A batch with a migration and, beside it, a downgrade that it depends on. */
  ghost predicate Conflicting(r: Registry, batch: set<Tag>, u: Tag, d: Tag)
  {
    u in batch && d in batch && d != u && d in r.DependsOf(u) && d in r.UntagSet()
  }

  ghost predicate Conflict(r: Registry, b: seq<set<Tag>>)
  {
    exists k, u, d :: 0 <= k < |b| && Conflicting(r, b[k], u, d)
  }

  lemma AfterTwice(r: Registry, tags: set<Tag>, a: set<Tag>, b: set<Tag>)
    ensures r.After(r.After(tags, a), b) == r.After(tags, a + b)
  {
    assert r.TagSet() !! r.UntagSet();
  }

  lemma PresentInBatch(r: Registry, tags: set<Tag>, pending: set<Tag>, a: seq<Tag>, rest: seq<Tag>, i: nat)
    requires pending <= r.entries.Keys && ListsOne(a, r.ReadySet(tags, pending)) && i < |a|
    requires !exists u, d :: Conflicting(r, r.ReadySet(tags, pending), u, d)
    ensures PresentAt(r, tags, a + rest, i)
  {
    var u, done := a[i], SetOf(a[..i]);
    assert (a + rest)[..i] == a[..i];
    assert u in SetOf(a) && u !in done;
    assert r.DependsOf(u) <= tags;
    forall d | d in r.DependsOf(u) ensures d in r.After(tags, done) {
      assert !Conflicting(r, r.ReadySet(tags, pending), u, d);
      assert d in done ==> d in SetOf(a) && d != u;
    }
  }

  lemma {:induction false} NoConflictPresent(r: Registry, tags: set<Tag>, pending: set<Tag>, log: seq<seq<Tag>>)
    requires pending <= r.entries.Keys && Lists(log, r.Schedule(tags, pending).batches)
    requires !Conflict(r, r.Schedule(tags, pending).batches)
    ensures DependencesPresent(r, tags, Flatten(log))
    decreases pending
  {
    var ready := r.ReadySet(tags, pending);
    if ready != {} {
      var b := r.Schedule(tags, pending).batches;
      var next := r.After(tags, ready);
      var rest := r.Schedule(next, pending - ready).batches;
      assert b[0] == ready && b[1..] == rest;
      assert forall k :: 0 <= k < |rest| ==> rest[k] == b[k + 1];
      var a, more := log[0], Flatten(log[1..]);
      NoConflictPresent(r, next, pending - ready, log[1..]);
      assert ListsOne(a, ready);
      forall i | 0 <= i < |a + more| ensures PresentAt(r, tags, a + more, i) {
        if i < |a| {
          PresentInBatch(r, tags, pending, a, more, i);
        } else {
          var j := i - |a|;
          assert (a + more)[..i] == a + more[..j];
          SetOfAppend(a, more[..j]);
          AfterTwice(r, tags, ready, SetOf(more[..j]));
          assert PresentAt(r, next, more, j);
        }
      }
    }
  }

  /** A listing of the batches that puts `d` before `u` where both are in one batch. */
  lemma {:induction false} ListingWith(b: seq<set<Tag>>, k: nat, u: Tag, d: Tag) returns (log: seq<seq<Tag>>, i: nat)
    requires k < |b| && u in b[k] && d in b[k] && u != d
    ensures Lists(log, b) && i < |Flatten(log)| && Flatten(log)[i] == u && d in SetOf(Flatten(log)[..i])
    decreases |b|
  {
    if k == 0 {
      var q := Listing(b[0] - {d});
      var rest := SomeListing(b[1..]);
      var first := [d] + q;
      LogFirst(q, d);
      log := [first] + rest;
      assert u in SetOf(first);
      i :| 0 <= i < |first| && first[i] == u;
      assert log[1..] == rest && Flatten(log)[0] == d;
      assert Flatten(log)[..i][0] == d;
    } else {
      var first := Listing(b[0]);
      var rest, j := ListingWith(b[1..], k - 1, u, d);
      log, i := [first] + rest, |first| + j;
      assert log[1..] == rest;
      assert Flatten(log)[..i] == first + Flatten(rest)[..j];
      SetOfAppend(first, Flatten(rest)[..j]);
    }
  }

  lemma LogFirst(q: seq<Tag>, d: Tag)
    requires NoRepeats(q) && d !in SetOf(q)
    ensures NoRepeats([d] + q) && SetOf([d] + q) == {d} + SetOf(q)
  {
    assert forall i :: 0 <= i < |q| ==> q[i] in SetOf(q);
  }

  /**
    In whatever order the batches are iterated, every migration runs while all its
    dependences are present, exactly when no batch holds a migration together with a
    downgrade that it depends on.  Otherwise the iteration order decides.
  */
  lemma PresentIffNoConflict(r: Registry, tags: set<Tag>, pending: set<Tag>)
    requires pending <= r.entries.Keys
    ensures var b := r.Schedule(tags, pending).batches;
      (forall log :: Lists(log, b) ==> DependencesPresent(r, tags, Flatten(log))) <==> !Conflict(r, b)
  {
    var b := r.Schedule(tags, pending).batches;
    if k, u, d :| 0 <= k < |b| && Conflicting(r, b[k], u, d) {
      var log, i := ListingWith(b, k, u, d);
      assert r.TagSet() !! r.UntagSet();
      assert d !in r.After(tags, SetOf(Flatten(log)[..i]));
      assert !PresentAt(r, tags, Flatten(log), i);
    } else {
      forall log | Lists(log, b) ensures DependencesPresent(r, tags, Flatten(log)) {
        NoConflictPresent(r, tags, pending, log);
      }
    }
  }

  /** A downgrade of `d` without dependences, and an upgrade of `u` that depends on `d`. */
  function Pair(u: Tag, d: Tag): Registry { Registry(map[d := Entry({}, false), u := Entry({d}, true)]) }

  lemma PairSchedule(u: Tag, d: Tag)
    requires u != d
    ensures Pair(u, d).TagSet() == {u} && Pair(u, d).UntagSet() == {d}
    ensures Pair(u, d).Schedule({d}, Pair(u, d).Pending({d})) == Outcome([{u, d}], {u}, {})
  {
    var r := Pair(u, d);
    assert r.TagSet() == {u} && r.UntagSet() == {d};
    assert r.Pending({d}) == {u, d} && r.ReadySet({d}, {u, d}) == {u, d};
    assert r.After({d}, {u, d}) == {u} && {u, d} - {u, d} == {};
  }

  lemma PairOrders(u: Tag, d: Tag)
    requires u != d
    ensures DependencesPresent(Pair(u, d), {d}, [u, d]) && !DependencesPresent(Pair(u, d), {d}, [d, u])
  {
    var r := Pair(u, d);
    PairSchedule(u, d);
    assert [d, u][..1] == [d] && SetOf([d]) == {d};
    assert r.After({d}, {d}) == {} && !PresentAt(r, {d}, [d, u], 1);
    assert [u, d][..0] == [] && SetOf([]) == {} && r.After({d}, {}) == {d};
    assert PresentAt(r, {d}, [u, d], 0) && PresentAt(r, {d}, [u, d], 1);
  }

  /**
    The smallest case against the header text: an upgrade that depends on a tag which
    this run removes.  Both run in one batch, in either order: before the removal,
    against the header's rule, or after it, without the dependence.
  */
  lemma HeaderRuleFails(u: Tag, d: Tag)
    requires u != d
    ensures var r := Pair(u, d);
      var o := r.Schedule({d}, r.Pending({d}));
      && o == Outcome([{u, d}], {u}, {}) && !HeaderRule(r, o.batches)
      && Lists([[u, d]], o.batches) && DependencesPresent(r, {d}, Flatten([[u, d]]))
      && Lists([[d, u]], o.batches) && !DependencesPresent(r, {d}, Flatten([[d, u]]))
  {
    PairSchedule(u, d);
    PairOrders(u, d);
    FlattenOne([u, d]);
    FlattenOne([d, u]);
    var b := [{u, d}];
    assert u in Union(b) && BatchOf(b, u) == BatchOf(b, d) == 0;
    assert SetOf([u, d]) == {u, d} == SetOf([d, u]);
  }

  lemma FlattenOne(q: seq<Tag>)
    ensures Flatten([q]) == q
  {
    assert [q][1..] == [];
  }

  // ---------------------------------------------------------------- legacy versions

  /** Legacy versions that are all missing run in increasing order. */
  lemma {:induction false} LegacyOrder(r: Registry, tags: set<Tag>, legacy: map<int, Tag>, i: int, j: int)
    requires i < j && forall k :: i <= k <= j ==> k in legacy && legacy[k] in r.TagSet() && legacy[k] !in tags
    requires forall k :: i < k <= j ==> legacy[k - 1] in r.DependsOf(legacy[k])
    requires legacy[j] in Union(r.Schedule(tags, r.Pending(tags)).batches)
    ensures var b := r.Schedule(tags, r.Pending(tags)).batches;
      legacy[i] in Union(b) && BatchOf(b, legacy[i]) < BatchOf(b, legacy[j])
    decreases j - i
  {
    DependenceOrder(r, tags, r.Pending(tags), legacy[j], legacy[j - 1]);
    if i < j - 1 { LegacyOrder(r, tags, legacy, i, j - 1); }
  }

  /** Versions 4 and 6 missing and 5 present: both run in the first batch, and 6 may come before 4. */
  lemma LegacyHole(four: Tag, five: Tag, six: Tag)
    requires four != five && five != six && four != six
    ensures var r := Registry(map[four := Entry({}, true), five := Entry({four}, true), six := Entry({five}, true)]);
      var b := r.Schedule({five}, r.Pending({five})).batches;
      b == [{four, six}] && Lists([[six, four]], b)
  {
    var r := Registry(map[four := Entry({}, true), five := Entry({four}, true), six := Entry({five}, true)]);
    assert r.TagSet() == {four, five, six} && r.UntagSet() == {};
    assert r.Pending({five}) == {four, six} && r.ReadySet({five}, {four, six}) == {four, six};
    assert {four, six} - {four, six} == {};
    assert SetOf([six, four]) == {four, six};
  }

  /** The tags that stand for a legacy version number. */
  function VersionTags(legacy: map<int, Tag>, version: int): set<Tag>
    requires forall k :: 2 <= k <= version ==> k in legacy
  {
    set k | 2 <= k <= version :: legacy[k]
  }

  // ---------------------------------------------------------------- process_file

  /** Runs one ready batch in some order; a downgrade always finds its tag. */
  method RunBatch(r: Registry, tags: set<Tag>, ready: set<Tag>) returns (tags': set<Tag>, log: seq<Tag>)
    requires ready <= r.entries.Keys && ready * r.UntagSet() <= tags
    ensures tags' == r.After(tags, ready)
    ensures ListsOne(log, ready)
  {
    tags', log := tags, [];
    var todo := ready;
    ghost var done: set<Tag> := {};
    while todo != {}
      invariant done !! todo && done + todo == ready && ListsOne(log, done)
      invariant tags' == r.After(tags, done)
      decreases todo
    {
      var t :| t in todo;
      UpdateOne(r, tags, done, t);
      LogOne(log, t);
      if r.entries[t].up {
        tags' := tags' + {t};
      } else {
        assert t in ready * r.UntagSet();
        assert t in tags';
        tags' := tags' - {t};
      }
      log, done, todo := log + [t], done + {t}, todo - {t};
    }
  }

  /** What `update` does for one tag, after those of `done`. */
  lemma UpdateOne(r: Registry, tags: set<Tag>, done: set<Tag>, t: Tag)
    requires t in r.entries && t !in done
    ensures r.After(tags, done + {t}) ==
      if r.entries[t].up then r.After(tags, done) + {t} else r.After(tags, done) - {t}
    ensures !r.entries[t].up ==> t in r.UntagSet() && (t in r.After(tags, done) <==> t in tags)
  {
    if r.entries[t].up {
      assert t in r.TagSet() && t !in r.UntagSet();
    } else {
      assert t !in r.TagSet() && t in r.UntagSet();
    }
  }

  lemma LogOne(log: seq<Tag>, t: Tag)
    requires NoRepeats(log) && t !in SetOf(log)
    ensures NoRepeats(log + [t]) && SetOf(log + [t]) == SetOf(log) + {t}
  {
    assert forall i :: 0 <= i < |log| ==> log[i] in SetOf(log);
  }

  /** The work loop of `process_file`: the outcome does not depend on the order inside a batch. */
  method ProcessFile(r: Registry, tags0: set<Tag>) returns (ok: bool, tags: set<Tag>, log: seq<seq<Tag>>)
    ensures var o := r.Schedule(tags0, r.Pending(tags0));
      (ok <==> o.left == {}) && tags == o.tags && Lists(log, o.batches)
  {
    tags, log := tags0, [];
    var toApply := r.Pending(tags0);
    ghost var done: seq<set<Tag>> := [];
    ghost var o := r.Schedule(tags0, toApply);
    assert [] + o.batches == o.batches;
    while toApply != {}
      invariant toApply <= r.entries.Keys && toApply * r.UntagSet() <= tags && Lists(log, done)
      invariant var rest := r.Schedule(tags, toApply);
        o == Outcome(done + rest.batches, rest.tags, rest.left)
      decreases toApply
    {
      var ready := r.ReadySet(tags, toApply);
      if ready == {} {
        assert done + [] == done;
        return false, tags, log;
      }
      ghost var rest := r.Schedule(r.After(tags, ready), toApply - ready);
      assert done + ([ready] + rest.batches) == done + [ready] + rest.batches;
      var more;
      tags, more := RunBatch(r, tags, ready);
      log, done := log + [more], done + [ready];
      toApply := toApply - ready;
    }
    assert done + [] == done;
    ok := true;
  }

  // ---------------------------------------------------------------- load_all

  /** One upgrader script. */
  datatype Source = Source(tag: Tag, depends: set<Tag>, fwd: seq<Tag>, up: bool, legacy: Option<int>)

  /** `Upgrader.by_tag`: the last script that uses a tag owns it. */
  function ByTag(files: seq<Source>): map<Tag, Source>
  {
    if files == [] then map[]
    else
      var f := files[|files| - 1];
      ByTag(files[..|files| - 1])[f.tag := f]
  }

  /** `Upgrader.legacy`: the last script that claims a version owns it. */
  function Legacy(files: seq<Source>): map<int, Source>
  {
    if files == [] then map[]
    else
      var f, m := files[|files| - 1], Legacy(files[..|files| - 1]);
      if f.legacy.Some? then m[f.legacy.value := f] else m
  }

  /** `Upgrader.tag_set` and `Upgrader.untag_set`. */
  function UpTags(files: seq<Source>): set<Tag> { set f | f in files && f.up :: f.tag }
  function DownTags(files: seq<Source>): set<Tag> { set f | f in files && !f.up :: f.tag }

  /** Whether a script is the one that its tag stands for. */
  predicate Live(files: seq<Source>, f: Source) { f.tag in ByTag(files) && ByTag(files)[f.tag] == f }

  lemma {:induction false} Owner(files: seq<Source>, t: Tag)
    requires t in ByTag(files)
    ensures ByTag(files)[t] in files && ByTag(files)[t].tag == t
  {
    if files[|files| - 1].tag != t { Owner(files[..|files| - 1], t); }
  }

  /** A script is live unless a later one uses its tag. */
  lemma {:induction false} LastIsLive(files: seq<Source>, i: nat)
    requires i < |files|
    ensures files[i].tag in ByTag(files)
    ensures (forall j :: i < j < |files| ==> files[j].tag != files[i].tag) ==> Live(files, files[i])
  {
    if i < |files| - 1 { LastIsLive(files[..|files| - 1], i); }
  }

  lemma {:induction false} LegacyOwner(files: seq<Source>, v: int)
    requires v in Legacy(files)
    ensures Legacy(files)[v] in files && Legacy(files)[v].legacy == Some(v)
  {
    if files[|files| - 1].legacy != Some(v) { LegacyOwner(files[..|files| - 1], v); }
  }

  /** Whether the linear legacy chain below version `top` overrides the dependences of `f`. */
  predicate Chained(legacy: map<int, Source>, f: Source, top: int)
  {
    f.legacy.Some? && 3 <= f.legacy.value < top && f.legacy.value in legacy && legacy[f.legacy.value] == f
  }

  /** The dependences of `f` once the legacy chain has been linked up to, but without, `top`. */
  function BaseDepends(legacy: map<int, Source>, f: Source, top: int): set<Tag>
    requires top > 3 ==> forall k :: 2 <= k < top ==> k in legacy
  {
    if Chained(legacy, f, top) then {legacy[f.legacy.value - 1].tag} else f.depends
  }

  /** Of the tags in `done`, those whose scripts name `t` in `fwd_depends`. */
  function Forward(byTag: map<Tag, Source>, done: set<Tag>, t: Tag): set<Tag>
    requires done <= byTag.Keys
  {
    set u | u in done && t in byTag[u].fwd
  }

  /** The version after the last one of the chain that starts at 3. */
  function ChainEnd(legacy: map<int, Source>, i: int): (top: int)
    requires i >= 3
    ensures top >= i && top !in legacy
    ensures forall k :: i <= k < top ==> k in legacy
    decreases legacy.Keys - set k | k in legacy && k < i
  {
    if i !in legacy then i
    else
      assert i in legacy.Keys - set k | k in legacy && k < i;
      assert i !in legacy.Keys - set k | k in legacy && k < i + 1;
      ChainEnd(legacy, i + 1)
  }

  /** Whether the chain of legacy versions has its first link. */
  predicate Linkable(legacy: map<int, Source>) { 3 in legacy ==> 2 in legacy }

  /** The dependences of the scripts after the legacy chain is linked, and those that `load_all` computes. */
  function LinkedDepends(files: seq<Source>, t: Tag): set<Tag>
    requires Linkable(Legacy(files)) && t in ByTag(files)
  {
    BaseDepends(Legacy(files), ByTag(files)[t], ChainEnd(Legacy(files), 3))
  }

  function FinalDepends(files: seq<Source>, t: Tag): set<Tag>
    requires Linkable(Legacy(files)) && t in ByTag(files)
  {
    LinkedDepends(files, t) + Forward(ByTag(files), ByTag(files).Keys, t)
  }

  /** Whether every tag that the script of `t` names is known. */
  ghost predicate NamesKnown(byTag: map<Tag, Source>, base: map<Tag, Entry>, t: Tag)
    requires t in byTag && t in base
  {
    SetOf(byTag[t].fwd) <= base.Keys && base[t].depends <= base.Keys
  }

  /** When `load_all` succeeds: version 2 exists if version 3 does, and every named tag exists. */
  ghost predicate Loadable(files: seq<Source>)
  {
    Linkable(Legacy(files)) &&
    forall t :: t in ByTag(files) ==>
      SetOf(ByTag(files)[t].fwd) <= ByTag(files).Keys && LinkedDepends(files, t) <= ByTag(files).Keys
  }

  ghost predicate Loaded(files: seq<Source>, r: Registry)
    requires Linkable(Legacy(files))
  {
    && r.entries.Keys == ByTag(files).Keys
    && forall t :: t in r.entries ==> r.entries[t] == Entry(FinalDepends(files, t), ByTag(files)[t].up)
  }

  /** After a successful load every dependence names a known tag. */
  lemma LoadedIsClosed(files: seq<Source>, r: Registry, t: Tag)
    requires Loadable(files) && Loaded(files, r) && t in r.entries
    ensures r.DependsOf(t) <= r.entries.Keys
  {
    assert r.DependsOf(t) == FinalDepends(files, t);
    assert Forward(ByTag(files), ByTag(files).Keys, t) <= ByTag(files).Keys;
  }

  /** Unless some tag is used by an upgrade and by a downgrade, the two class variables are those of the registry. */
  lemma TagSetsMatch(files: seq<Source>, r: Registry)
    requires Linkable(Legacy(files)) && Loaded(files, r) && UpTags(files) !! DownTags(files)
    ensures r.TagSet() == UpTags(files) && r.UntagSet() == DownTags(files)
  {
    forall t | t in r.entries ensures r.entries[t].up <==> t in UpTags(files) {
      Owner(files, t);
    }
    forall t | t in r.entries ensures !r.entries[t].up <==> t in DownTags(files) {
      Owner(files, t);
    }
    forall f | f in files ensures f.tag in r.entries {
      var i :| 0 <= i < |files| && files[i] == f;
      LastIsLive(files, i);
    }
  }

  /** After a successful load each live legacy version of the chain depends on the one before. */
  lemma LegacyLinked(files: seq<Source>, r: Registry, i: int)
    requires Linkable(Legacy(files)) && Loaded(files, r)
    requires 3 <= i < ChainEnd(Legacy(files), 3) && Live(files, Legacy(files)[i])
    ensures var legacy := Legacy(files);
      i in legacy && i - 1 in legacy && legacy[i - 1].tag in r.DependsOf(legacy[i].tag)
  {
    var f := Legacy(files)[i];
    LegacyOwner(files, i);
    assert r.entries[f.tag].depends == FinalDepends(files, f.tag);
  }

  /** What one more script adds to the class variables. */
  lemma OneMore(files: seq<Source>, f: Source)
    ensures ByTag(files + [f]) == ByTag(files)[f.tag := f]
    ensures Legacy(files + [f]) == if f.legacy.Some? then Legacy(files)[f.legacy.value := f] else Legacy(files)
  {
    assert (files + [f])[..|files|] == files;
  }

  lemma OneMoreTag(files: seq<Source>, f: Source)
    ensures UpTags(files + [f]) == if f.up then UpTags(files) + {f.tag} else UpTags(files)
    ensures DownTags(files + [f]) == if f.up then DownTags(files) else DownTags(files) + {f.tag}
  {
    assert forall g :: g in files + [f] <==> g in files || g == f;
  }

  /** The constructors: the class variables, and the scripts themselves with their dependences. */
  method Construct(files: seq<Source>)
    returns (byTag: map<Tag, Source>, legacy: map<int, Source>, tagSet: set<Tag>, untagSet: set<Tag>,
             depends: map<Source, set<Tag>>)
    ensures byTag == ByTag(files) && legacy == Legacy(files)
    ensures tagSet == UpTags(files) && untagSet == DownTags(files)
    ensures OwnDepends(files, depends)
  {
    byTag, legacy, tagSet, untagSet, depends := map[], map[], {}, {}, map[];
    for n := 0 to |files|
      invariant byTag == ByTag(files[..n]) && legacy == Legacy(files[..n])
      invariant tagSet == UpTags(files[..n]) && untagSet == DownTags(files[..n])
      invariant OwnDepends(files[..n], depends)
    {
      var f := files[n];
      OneMore(files[..n], f);
      OneMoreTag(files[..n], f);
      assert files[..n + 1] == files[..n] + [f];
      depends := depends[f := f.depends];
      if f.up { tagSet := tagSet + {f.tag}; } else { untagSet := untagSet + {f.tag}; }
      if f.legacy.Some? { legacy := legacy[f.legacy.value := f]; }
      byTag := byTag[f.tag := f];
    }
    assert files[..|files|] == files;
  }

  /** Each script with the dependences that it declares. */
  ghost predicate OwnDepends(files: seq<Source>, depends: map<Source, set<Tag>>)
  {
    forall f :: f in files ==> f in depends && depends[f] == f.depends
  }

  /** The loop that makes linear dependences for the legacy versions. */
  method LinkLegacy(files: seq<Source>, legacy: map<int, Source>, depends0: map<Source, set<Tag>>)
    returns (ok: bool, depends: map<Source, set<Tag>>)
    requires legacy == Legacy(files) && OwnDepends(files, depends0)
    ensures ok <==> Linkable(legacy)
    ensures ok ==>
      forall f :: f in files ==> f in depends && depends[f] == BaseDepends(legacy, f, ChainEnd(legacy, 3))
  {
    depends := depends0;
    var i := 3;
    while i in legacy
      invariant 3 <= i && ChainEnd(legacy, 3) == ChainEnd(legacy, i) && (i > 3 ==> 2 in legacy)
      invariant forall k :: 3 <= k < i ==> k in legacy
      invariant forall f :: f in files ==> f in depends && depends[f] == BaseDepends(legacy, f, i)
      decreases ChainEnd(legacy, 3) - i
    {
      if i - 1 !in legacy { return false, depends; }
      LegacyOwner(files, i);
      depends := depends[legacy[i] := {legacy[i - 1].tag}];
      i := i + 1;
    }
    ok := true;
  }

  /** The entries with the forward dependences of the scripts in `done` added. */
  ghost predicate Extended(byTag: map<Tag, Source>, base: map<Tag, Entry>, entries: map<Tag, Entry>, done: set<Tag>)
    requires done <= byTag.Keys
  {
    && entries.Keys == base.Keys
    && forall t :: t in base ==>
         entries[t].up == base[t].up && entries[t].depends == base[t].depends + Forward(byTag, done, t)
  }

  /** The entries after `u` was appended to the dependences of the tags in `fwd`. */
  ghost predicate Appended(before: map<Tag, Entry>, after: map<Tag, Entry>, u: Tag, fwd: seq<Tag>)
  {
    && after.Keys == before.Keys
    && forall t :: t in before ==>
         after[t] == if t in fwd then before[t].(depends := before[t].depends + {u}) else before[t]
  }

  /** The forward dependences of one script. */
  method ResolveOne(u: Tag, fwd: seq<Tag>, entries0: map<Tag, Entry>) returns (ok: bool, entries: map<Tag, Entry>)
    ensures ok <==> SetOf(fwd) <= entries0.Keys
    ensures ok ==> Appended(entries0, entries, u, fwd)
  {
    entries := entries0;
    for j := 0 to |fwd|
      invariant Appended(entries0, entries, u, fwd[..j]) && forall k :: 0 <= k < j ==> fwd[k] in entries0
    {
      var fd := fwd[j];
      if fd !in entries {
        assert fd in SetOf(fwd);
        return false, entries;
      }
      entries := entries[fd := entries[fd].(depends := entries[fd].depends + {u})];
      assert fwd[..j + 1] == fwd[..j] + [fd];
    }
    assert fwd[..|fwd|] == fwd;
    ok := true;
  }

  lemma ForwardStep(byTag: map<Tag, Source>, done: set<Tag>, u: Tag, t: Tag)
    requires done <= byTag.Keys && u in byTag
    ensures Forward(byTag, done + {u}, t) == Forward(byTag, done, t) + if t in byTag[u].fwd then {u} else {}
  {
  }

  lemma ExtendOne(
    byTag: map<Tag, Source>, base: map<Tag, Entry>, before: map<Tag, Entry>, after: map<Tag, Entry>,
    done: set<Tag>, u: Tag)
    requires done <= byTag.Keys && u in byTag
    requires Extended(byTag, base, before, done) && Appended(before, after, u, byTag[u].fwd)
    ensures Extended(byTag, base, after, done + {u})
  {
    forall t | t in base
      ensures after[t].up == base[t].up && after[t].depends == base[t].depends + Forward(byTag, done + {u}, t)
    {
      ForwardStep(byTag, done, u, t);
    }
  }

  /** Forward dependences never fail the audit. */
  lemma Audit(byTag: map<Tag, Source>, base: map<Tag, Entry>, entries: map<Tag, Entry>, done: set<Tag>, t: Tag)
    requires base.Keys == byTag.Keys && done <= byTag.Keys && Extended(byTag, base, entries, done) && t in base
    ensures entries[t].depends <= entries.Keys <==> base[t].depends <= base.Keys
  {
    assert Forward(byTag, done, t) <= base.Keys;
  }

  ghost predicate AllKnown(byTag: map<Tag, Source>, base: map<Tag, Entry>, done: set<Tag>)
    requires base.Keys == byTag.Keys && done <= byTag.Keys
  {
    forall t :: t in done ==> NamesKnown(byTag, base, t)
  }

  lemma KnownStep(byTag: map<Tag, Source>, base: map<Tag, Entry>, done: set<Tag>, u: Tag)
    requires base.Keys == byTag.Keys && done <= byTag.Keys && u in byTag
    requires AllKnown(byTag, base, done) && NamesKnown(byTag, base, u)
    ensures AllKnown(byTag, base, done + {u})
  {
  }

  lemma ExtendedByNone(byTag: map<Tag, Source>, base: map<Tag, Entry>)
    ensures Extended(byTag, base, base, {})
  {
    assert forall t :: t in base ==> Forward(byTag, {}, t) == {};
  }

  /** The pass after the scripts in `done`, all of which named known tags. */
  ghost predicate Resolving(byTag: map<Tag, Source>, base: map<Tag, Entry>, entries: map<Tag, Entry>, done: set<Tag>)
  {
    base.Keys == byTag.Keys && done <= byTag.Keys && Extended(byTag, base, entries, done) && AllKnown(byTag, base, done)
  }

  lemma ResolvingStart(byTag: map<Tag, Source>, base: map<Tag, Entry>)
    requires base.Keys == byTag.Keys
    ensures Resolving(byTag, base, base, {})
  {
    ExtendedByNone(byTag, base);
  }

  /** One iteration of the pass that resolves forward dependences and audits all dependences. */
  method ResolveScript(
    byTag: map<Tag, Source>, ghost base: map<Tag, Entry>, ghost done: set<Tag>, u: Tag, entries0: map<Tag, Entry>)
    returns (ok: bool, entries: map<Tag, Entry>)
    requires Resolving(byTag, base, entries0, done) && u in byTag
    ensures ok <==> NamesKnown(byTag, base, u)
    ensures ok ==> Resolving(byTag, base, entries, done + {u})
  {
    ok, entries := ResolveOne(u, byTag[u].fwd, entries0);
    if !ok { return; }
    ExtendOne(byTag, base, entries0, entries, done, u);
    Audit(byTag, base, entries, done + {u}, u);
    ok := entries[u].depends <= entries.Keys;
    if ok { KnownStep(byTag, base, done, u); }
  }

  /** The pass over all tags, in whatever order the dictionary has. */
  method Resolve(byTag: map<Tag, Source>, base: map<Tag, Entry>) returns (ok: bool, entries: map<Tag, Entry>)
    requires base.Keys == byTag.Keys
    ensures ok <==> AllKnown(byTag, base, byTag.Keys)
    ensures ok ==> Extended(byTag, base, entries, byTag.Keys)
  {
    ok, entries := true, base;
    ResolvingStart(byTag, base);
    var todo := byTag.Keys;
    ghost var done: set<Tag> := {};
    while todo != {}
      invariant ok && done + todo == byTag.Keys && Resolving(byTag, base, entries, done)
      decreases todo
    {
      var u :| u in todo;
      ok, entries := ResolveScript(byTag, base, done, u, entries);
      if !ok {
        assert u in byTag.Keys && !NamesKnown(byTag, base, u);
        return;
      }
      done, todo := done + {u}, todo - {u};
    }
    assert done == byTag.Keys;
  }

  /** The entries from which the forward dependences start. */
  ghost predicate Linked(files: seq<Source>, base: map<Tag, Entry>)
    requires Linkable(Legacy(files))
  {
    && base.Keys == ByTag(files).Keys
    && forall t :: t in base ==> base[t] == Entry(LinkedDepends(files, t), ByTag(files)[t].up)
  }

  lemma LinkedEntries(files: seq<Source>, depends: map<Source, set<Tag>>)
    requires Linkable(Legacy(files))
    requires forall f :: f in files ==>
      f in depends && depends[f] == BaseDepends(Legacy(files), f, ChainEnd(Legacy(files), 3))
    ensures forall t :: t in ByTag(files) ==>
      ByTag(files)[t] in depends && depends[ByTag(files)[t]] == LinkedDepends(files, t)
  {
    forall t | t in ByTag(files) ensures ByTag(files)[t] in files { Owner(files, t); }
  }

  /** What the pass over linked entries amounts to. */
  lemma LoadedFrom(files: seq<Source>, base: map<Tag, Entry>, entries: map<Tag, Entry>)
    requires Linkable(Legacy(files)) && Linked(files, base)
    ensures AllKnown(ByTag(files), base, ByTag(files).Keys) <==> Loadable(files)
    ensures Extended(ByTag(files), base, entries, ByTag(files).Keys) ==> Loaded(files, Registry(entries))
  {
    var byTag := ByTag(files);
    assert forall t :: t in byTag ==> base[t].depends == LinkedDepends(files, t);
    if AllKnown(byTag, base, byTag.Keys) {
      forall t | t in byTag ensures SetOf(byTag[t].fwd) <= byTag.Keys && LinkedDepends(files, t) <= byTag.Keys {
        assert NamesKnown(byTag, base, t);
      }
    }
  }

  /** `load_all` succeeds exactly on loadable scripts, and then yields their registry and the two class variables. */
  method LoadAll(files: seq<Source>) returns (r: Option<Registry>, tagSet: set<Tag>, untagSet: set<Tag>)
    ensures r.Some? <==> Loadable(files)
    ensures r.Some? ==> Loaded(files, r.value)
    ensures tagSet == UpTags(files) && untagSet == DownTags(files)
  {
    var byTag, legacy, depends, ok;
    byTag, legacy, tagSet, untagSet, depends := Construct(files);
    ok, depends := LinkLegacy(files, legacy, depends);
    if !ok { return None, tagSet, untagSet; }
    LinkedEntries(files, depends);
    var base := map t | t in byTag :: Entry(depends[byTag[t]], byTag[t].up);
    var entries;
    ok, entries := Resolve(byTag, base);
    LoadedFrom(files, base, entries);
    if !ok { return None, tagSet, untagSet; }
    r := Some(Registry(entries));
  }

  function TagsOf(legacy: map<int, Source>): map<int, Tag> { map v | v in legacy :: legacy[v].tag }

  /** Different legacy versions of live scripts belong to different tags. */
  lemma LegacyInjective(files: seq<Source>, k: int, l: int)
    requires k in Legacy(files) && l in Legacy(files) && k != l
    requires Live(files, Legacy(files)[k]) && Live(files, Legacy(files)[l])
    ensures Legacy(files)[k].tag != Legacy(files)[l].tag
  {
    LegacyOwner(files, k);
    LegacyOwner(files, l);
  }

  /** The versions up to `j` are all there, as live upgrades. */
  ghost predicate LiveVersions(files: seq<Source>, r: Registry, j: int)
  {
    forall k :: 2 <= k <= j ==>
      k in Legacy(files) && Live(files, Legacy(files)[k]) && Legacy(files)[k].tag in r.TagSet()
  }

  lemma AllRun(r: Registry, tags: set<Tag>, t: Tag)
    requires r.Schedule(tags, r.Pending(tags)).left == {} && t in r.TagSet() && t !in tags
    ensures t in Union(r.Schedule(tags, r.Pending(tags)).batches)
  {
    RunsExactlyOnce(r, tags, r.Pending(tags));
    assert t in r.Pending(tags);
  }

  lemma LaterMissing(files: seq<Source>, r: Registry, version: int, j: int, k: int)
    requires LiveVersions(files, r, j) && version < k <= j && 2 <= k
    ensures TagsOf(Legacy(files))[k] !in VersionTags(TagsOf(Legacy(files)), version)
  {
    forall l | 2 <= l <= version ensures Legacy(files)[l].tag != Legacy(files)[k].tag { LegacyInjective(files, k, l); }
  }

  /**
    A checkpoint that carries a legacy version number gets the later versions of the
    chain in increasing order, whatever else the registry holds.
  */
  lemma LegacyCheckpoint(files: seq<Source>, r: Registry, version: int, i: int, j: int)
    requires Linkable(Legacy(files)) && Loaded(files, r) && LiveVersions(files, r, j)
    requires 2 <= i < j < ChainEnd(Legacy(files), 3) && version < i
    requires var tags := VersionTags(TagsOf(Legacy(files)), version); r.Schedule(tags, r.Pending(tags)).left == {}
    ensures var legacy := TagsOf(Legacy(files));
      var tags := VersionTags(legacy, version);
      var b := r.Schedule(tags, r.Pending(tags)).batches;
      BatchOf(b, legacy[i]) < BatchOf(b, legacy[j])
  {
    var legacy := TagsOf(Legacy(files));
    var tags := VersionTags(legacy, version);
    forall k | i <= k <= j ensures k in legacy && legacy[k] !in tags && legacy[k] in r.TagSet() {
      LaterMissing(files, r, version, j, k);
    }
    forall k | i < k <= j ensures legacy[k - 1] in r.DependsOf(legacy[k]) { LegacyLinked(files, r, k); }
    AllRun(r, tags, legacy[j]);
    LegacyOrder(r, tags, legacy, i, j);
  }

  // ---------------------------------------------------------------- the order of legacy scripts

  /** A script that upgrades to a legacy version from `lo` to `hi` and has to run. */
  predicate Missing(files: seq<Source>, tags: set<Tag>, lo: int, hi: int, f: Source)
  {
    Live(files, f) && f.up && f.legacy.Some? && lo <= f.legacy.value <= hi && f.tag !in tags
  }

  /** Whether a script owns the version it claims: of several scripts only the last one does. */
  predicate Owns(files: seq<Source>, f: Source)
  {
    f.legacy.Some? && f.legacy.value in Legacy(files) && Legacy(files)[f.legacy.value] == f
  }

  /** The tag that the chain makes a script depend on. */
  function Link(files: seq<Source>, f: Source): set<Tag>
  {
    if Owns(files, f) && 3 <= f.legacy.value && f.legacy.value - 1 in Legacy(files)
    then {Legacy(files)[f.legacy.value - 1].tag} else {}
  }

  /** Loaded scripts whose versions from `lo` to `hi` are owned by live upgrades, and no other dependence is missing. */
  ghost predicate Range(files: seq<Source>, r: Registry, tags: set<Tag>, lo: int, hi: int)
  {
    && Linkable(Legacy(files)) && Loaded(files, r) && 2 <= lo && hi < ChainEnd(Legacy(files), 3)
    && (forall k :: lo <= k <= hi ==>
          k in Legacy(files) && Live(files, Legacy(files)[k]) && Legacy(files)[k].up)
    && (forall f :: Missing(files, tags, lo, hi, f) ==> r.DependsOf(f.tag) <= tags + Link(files, f))
  }

  /** Two scripts that have to run, the first of an older version. */
  predicate Older(files: seq<Source>, tags: set<Tag>, lo: int, hi: int, f: Source, g: Source)
  {
    Missing(files, tags, lo, hi, f) && Missing(files, tags, lo, hi, g) && f.legacy.value < g.legacy.value
  }

  /** Older versions run in earlier batches, over all scripts that have to run. */
  ghost predicate ScriptsInOrder(files: seq<Source>, b: seq<set<Tag>>, tags: set<Tag>, lo: int, hi: int)
  {
    forall f, g :: Older(files, tags, lo, hi, f, g) ==> BatchOf(b, f.tag) < BatchOf(b, g.tag)
  }

  lemma OutOfOrder(files: seq<Source>, b: seq<set<Tag>>, tags: set<Tag>, lo: int, hi: int, f: Source, g: Source)
    requires Older(files, tags, lo, hi, f, g) && BatchOf(b, g.tag) == 0
    ensures !ScriptsInOrder(files, b, tags, lo, hi)
  {
  }

  /** Whether the chain makes `g` wait: it owns its version, and the version before is missing. */
  predicate Waits(files: seq<Source>, tags: set<Tag>, g: Source)
  {
    Owns(files, g) && g.legacy.value - 1 in Legacy(files) && Legacy(files)[g.legacy.value - 1].tag !in tags
  }

  /** Every script that has an older one beside it waits. */
  ghost predicate LaterWait(files: seq<Source>, tags: set<Tag>, lo: int, hi: int)
  {
    forall f, g :: Older(files, tags, lo, hi, f, g) ==> Waits(files, tags, g)
  }

  lemma MissingRuns(files: seq<Source>, r: Registry, tags: set<Tag>, f: Source)
    requires Linkable(Legacy(files)) && Loaded(files, r) && Live(files, f) && f.up && f.tag !in tags
    ensures f.tag in r.TagSet() && f.tag in r.Pending(tags)
  {
    assert r.entries[f.tag] == Entry(FinalDepends(files, f.tag), f.up);
  }

  /** Pending migrations whose dependences are there are in the first batch. */
  lemma ReadyFirst(r: Registry, tags: set<Tag>, t: Tag)
    requires t in r.Pending(tags) && r.DependsOf(t) <= tags
    ensures BatchOf(r.Schedule(tags, r.Pending(tags)).batches, t) == 0
  {
    assert t in r.ReadySet(tags, r.Pending(tags));
  }

  /** A script that the chain does not make wait is in the first batch. */
  lemma FirstBatch(files: seq<Source>, r: Registry, tags: set<Tag>, lo: int, hi: int, g: Source)
    requires Range(files, r, tags, lo, hi) && Missing(files, tags, lo, hi, g) && Link(files, g) <= tags
    ensures BatchOf(r.Schedule(tags, r.Pending(tags)).batches, g.tag) == 0
  {
    MissingRuns(files, r, tags, g);
    ReadyFirst(r, tags, g.tag);
  }

  lemma OwnerMissing(files: seq<Source>, r: Registry, tags: set<Tag>, lo: int, hi: int, g: Source)
    requires Range(files, r, tags, lo, hi) && Missing(files, tags, lo, hi, g) && lo < g.legacy.value
    requires Waits(files, tags, g)
    ensures var h := Legacy(files)[g.legacy.value - 1];
      && Missing(files, tags, lo, hi, h) && h.legacy == Some(g.legacy.value - 1)
      && h.tag in r.DependsOf(g.tag)
  {
    LegacyOwner(files, g.legacy.value - 1);
    LegacyLinked(files, r, g.legacy.value);
  }

  /** What runs depends on no missing upgrade of its own or a later batch. */
  lemma RunsAfter(r: Registry, tags: set<Tag>, t: Tag, d: Tag)
    requires r.Schedule(tags, r.Pending(tags)).left == {} && t in r.TagSet() && t !in tags
    requires d in r.DependsOf(t) && d in r.TagSet() && d !in tags
    ensures var b := r.Schedule(tags, r.Pending(tags)).batches; BatchOf(b, d) < BatchOf(b, t)
  {
    AllRun(r, tags, t);
    DependenceOrder(r, tags, r.Pending(tags), t, d);
  }

  /** A script that waits runs in a later batch than the owner of the version before. */
  lemma AfterOwner(files: seq<Source>, r: Registry, tags: set<Tag>, lo: int, hi: int, g: Source) returns (h: Source)
    requires Range(files, r, tags, lo, hi) && r.Schedule(tags, r.Pending(tags)).left == {}
    requires Missing(files, tags, lo, hi, g) && lo < g.legacy.value && Waits(files, tags, g)
    ensures Missing(files, tags, lo, hi, h) && Owns(files, h) && h.legacy.value == g.legacy.value - 1
    ensures var b := r.Schedule(tags, r.Pending(tags)).batches; BatchOf(b, h.tag) < BatchOf(b, g.tag)
  {
    h := Legacy(files)[g.legacy.value - 1];
    OwnerMissing(files, r, tags, lo, hi, g);
    MissingRuns(files, r, tags, g);
    MissingRuns(files, r, tags, h);
    RunsAfter(r, tags, g.tag, h.tag);
  }

  /** Of two scripts that claim one version, the one that does not own it is in the first batch. */
  lemma OtherFirst(files: seq<Source>, r: Registry, tags: set<Tag>, lo: int, hi: int, f: Source, h: Source)
    requires Range(files, r, tags, lo, hi) && Missing(files, tags, lo, hi, f)
    requires Owns(files, h) && f.legacy.value == h.legacy.value && f != h
    ensures BatchOf(r.Schedule(tags, r.Pending(tags)).batches, f.tag) == 0
  {
    assert Link(files, f) == {};
    FirstBatch(files, r, tags, lo, hi, f);
  }

  lemma {:induction false} WaitingOrder(
    files: seq<Source>, r: Registry, tags: set<Tag>, lo: int, hi: int, f: Source, g: Source)
    requires Range(files, r, tags, lo, hi) && r.Schedule(tags, r.Pending(tags)).left == {}
    requires LaterWait(files, tags, lo, hi) && Older(files, tags, lo, hi, f, g)
    ensures var b := r.Schedule(tags, r.Pending(tags)).batches; BatchOf(b, f.tag) < BatchOf(b, g.tag)
    decreases g.legacy.value
  {
    var h := AfterOwner(files, r, tags, lo, hi, g);
    if f.legacy.value < h.legacy.value {
      WaitingOrder(files, r, tags, lo, hi, f, h);
    } else if f != h {
      OtherFirst(files, r, tags, lo, hi, f, h);
    }
  }

  lemma NoWait(files: seq<Source>, r: Registry, tags: set<Tag>, lo: int, hi: int, f: Source, g: Source)
    requires Range(files, r, tags, lo, hi) && Older(files, tags, lo, hi, f, g) && !Waits(files, tags, g)
    ensures !ScriptsInOrder(files, r.Schedule(tags, r.Pending(tags)).batches, tags, lo, hi)
  {
    assert Link(files, g) <= tags;
    FirstBatch(files, r, tags, lo, hi, g);
    OutOfOrder(files, r.Schedule(tags, r.Pending(tags)).batches, tags, lo, hi, f, g);
  }

  /**
    The scripts that have to run do so in the order of their versions exactly when every
    one that has an older one beside it waits: it owns its version, and the owner of the
    version before is missing.
  */
  lemma LegacyOrderIff(files: seq<Source>, r: Registry, tags: set<Tag>, lo: int, hi: int)
    requires Range(files, r, tags, lo, hi) && r.Schedule(tags, r.Pending(tags)).left == {}
    ensures ScriptsInOrder(files, r.Schedule(tags, r.Pending(tags)).batches, tags, lo, hi) <==>
      LaterWait(files, tags, lo, hi)
  {
    var b := r.Schedule(tags, r.Pending(tags)).batches;
    if f, g :| Older(files, tags, lo, hi, f, g) && !Waits(files, tags, g) {
      NoWait(files, r, tags, lo, hi, f, g);
    } else {
      forall f, g | Older(files, tags, lo, hi, f, g) ensures BatchOf(b, f.tag) < BatchOf(b, g.tag) {
        WaitingOrder(files, r, tags, lo, hi, f, g);
      }
    }
  }

  /** In a checkpoint with a version number, the version before `g` is missing if it comes after that number. */
  lemma WaitsAfter(files: seq<Source>, r: Registry, version: int, hi: int, g: Source)
    requires version <= hi && LiveVersions(files, r, hi) && g.legacy.Some? && 3 <= g.legacy.value <= hi
    ensures var tags := VersionTags(TagsOf(Legacy(files)), version);
      Waits(files, tags, g) <==> Owns(files, g) && version + 1 < g.legacy.value
  {
    var k := g.legacy.value - 1;
    assert k in Legacy(files);
    if k > version {
      LaterMissing(files, r, version, hi, k);
    } else {
      assert TagsOf(Legacy(files))[k] in VersionTags(TagsOf(Legacy(files)), version);
    }
  }

  /**
    For a checkpoint that carries the version number `version`: exactly when every script
    that has an older one beside it owns its version and does not come next after `version`.
  */
  lemma LegacyCheckpointIff(files: seq<Source>, r: Registry, version: int, hi: int)
    requires version <= hi && LiveVersions(files, r, hi)
    requires var tags := VersionTags(TagsOf(Legacy(files)), version);
      Range(files, r, tags, 2, hi) && r.Schedule(tags, r.Pending(tags)).left == {}
    ensures var tags := VersionTags(TagsOf(Legacy(files)), version);
      ScriptsInOrder(files, r.Schedule(tags, r.Pending(tags)).batches, tags, 2, hi) <==>
      forall f, g :: Older(files, tags, 2, hi, f, g) ==> Owns(files, g) && version + 1 < g.legacy.value
  {
    var tags := VersionTags(TagsOf(Legacy(files)), version);
    LegacyOrderIff(files, r, tags, 2, hi);
    forall f, g | Older(files, tags, 2, hi, f, g)
      ensures Waits(files, tags, g) <==> Owns(files, g) && version + 1 < g.legacy.value
    {
      WaitsAfter(files, r, version, hi, g);
    }
  }

  /** Four scripts of the versions 2, 3, 4 and 4. */
  function FourScripts(a: Tag, b: Tag, x: Tag, c: Tag): seq<Source>
  {
    [Claim(a, 2)] + [Claim(b, 3)] + [Claim(x, 4)] + [Claim(c, 4)]
  }

  function Claim(t: Tag, version: int): Source { Source(t, {}, [], true, Some(version)) }

  /** What loading them gives. */
  function FourEntries(a: Tag, b: Tag, x: Tag, c: Tag): Registry
  {
    Registry(map[a := Entry({}, true), b := Entry({a}, true), x := Entry({}, true), c := Entry({b}, true)])
  }

  predicate AllDistinct(a: Tag, b: Tag, x: Tag, c: Tag) { a != b && a != x && a != c && b != x && b != c && x != c }

  lemma FourMaps(a: Tag, b: Tag, x: Tag, c: Tag)
    ensures ByTag(FourScripts(a, b, x, c)) == map[a := Claim(a, 2), b := Claim(b, 3), x := Claim(x, 4), c := Claim(c, 4)]
    ensures Legacy(FourScripts(a, b, x, c)) == map[2 := Claim(a, 2), 3 := Claim(b, 3), 4 := Claim(c, 4)]
  {
    var one := [Claim(a, 2)];
    var two := one + [Claim(b, 3)];
    assert [] + one == one;
    OneMore([], Claim(a, 2));
    assert ByTag([]) == map[] && Legacy([]) == map[];
    OneMore(one, Claim(b, 3));
    OneMore(two, Claim(x, 4));
    OneMore(two + [Claim(x, 4)], Claim(c, 4));
  }

  lemma FourLoaded(a: Tag, b: Tag, x: Tag, c: Tag)
    requires AllDistinct(a, b, x, c)
    ensures Loadable(FourScripts(a, b, x, c)) && Loaded(FourScripts(a, b, x, c), FourEntries(a, b, x, c))
  {
    var files := FourScripts(a, b, x, c);
    FourMaps(a, b, x, c);
    FourLinks(Legacy(files), a, b, x, c);
    var byTag := ByTag(files);
    forall t | t in byTag
      ensures SetOf(byTag[t].fwd) == {} == Forward(byTag, byTag.Keys, t)
      ensures LinkedDepends(files, t) <= byTag.Keys
      ensures FourEntries(a, b, x, c).entries[t] == Entry(FinalDepends(files, t), byTag[t].up)
    {
      assert t == a || t == b || t == x || t == c;
    }
  }

  lemma FourLinks(legacy: map<int, Source>, a: Tag, b: Tag, x: Tag, c: Tag)
    requires AllDistinct(a, b, x, c) && legacy == map[2 := Claim(a, 2), 3 := Claim(b, 3), 4 := Claim(c, 4)]
    ensures ChainEnd(legacy, 3) == 5
    ensures BaseDepends(legacy, Claim(a, 2), 5) == {} && BaseDepends(legacy, Claim(b, 3), 5) == {a}
    ensures BaseDepends(legacy, Claim(x, 4), 5) == {} && BaseDepends(legacy, Claim(c, 4), 5) == {b}
  {
    assert ChainEnd(legacy, 5) == 5 && ChainEnd(legacy, 4) == 5;
  }

  lemma FourBatches(a: Tag, b: Tag, x: Tag, c: Tag)
    requires AllDistinct(a, b, x, c)
    ensures var r := FourEntries(a, b, x, c); r.Schedule({}, r.Pending({})).batches == [{a, x}, {b}, {c}]
  {
    var r := FourEntries(a, b, x, c);
    assert r.TagSet() == {a, b, x, c} && r.UntagSet() == {};
    assert r.Pending({}) == {a, b, x, c} && r.ReadySet({}, {a, b, x, c}) == {a, x};
    assert r.After({}, {a, x}) == {a, x} && {a, b, x, c} - {a, x} == {b, c};
    assert r.ReadySet({a, x}, {b, c}) == {b} && r.After({a, x}, {b}) == {a, x, b} && {b, c} - {b} == {c};
    assert r.ReadySet({a, x, b}, {c}) == {c} && {c} - {c} == {};
    var last := r.After({a, x, b}, {c});
    assert r.Schedule(last, {}).batches == [];
    assert r.Schedule({a, x, b}, {c}).batches == [{c}];
    assert r.Schedule({a, x}, {b, c}).batches == [{b}] + [{c}];
  }

  lemma FourOlder(a: Tag, b: Tag, x: Tag, c: Tag)
    requires AllDistinct(a, b, x, c)
    ensures Older(FourScripts(a, b, x, c), {}, 2, 4, Claim(b, 3), Claim(x, 4))
  {
    FourMaps(a, b, x, c);
  }

  /**
    Two scripts that claim one version: the one that does not own it runs in the first
    batch, before an older version.
  */
  lemma SharedVersion(a: Tag, b: Tag, x: Tag, c: Tag)
    requires AllDistinct(a, b, x, c)
    ensures var files, r := FourScripts(a, b, x, c), FourEntries(a, b, x, c);
      var batches := r.Schedule({}, r.Pending({})).batches;
      && Loadable(files) && Loaded(files, r) && batches == [{a, x}, {b}, {c}]
      && Older(files, {}, 2, 4, Claim(b, 3), Claim(x, 4)) && !ScriptsInOrder(files, batches, {}, 2, 4)
  {
    FourOlder(a, b, x, c);
    FourLoaded(a, b, x, c);
    FourBatches(a, b, x, c);
    assert BatchOf([{a, x}, {b}, {c}], x) == 0;
    OutOfOrder(FourScripts(a, b, x, c), [{a, x}, {b}, {c}], {}, 2, 4, Claim(b, 3), Claim(x, 4));
  }
}
