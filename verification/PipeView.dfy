/**
  The print queue and the trace window of the O3 pipeline viewer, `o3-pipeview.py`.

  Instructions leave the pipeline out of order.  The viewer collects them in a queue,
  and whenever the queue exceeds `maxThreshold` it sorts the queue by sequence number
  and prints from the front until `minThreshold` are left.  A window of ticks or
  sequence numbers lets it skip the start of a trace and stop before its end.
*/
module PipeView {
  import PipeRow
  import opened Common
  import opened StableSort

  /** A line of the trace: a foreign line, or a pipeline stage of the current instruction. */
  datatype Line =
    | Other
    | Fetch(tick: nat, pc: string, upc: string, sn: int, disasm: string)
    | Stage(name: string, tick: nat)
    | Retire(tick: nat, store: nat)

  /** The dictionary that collects the lines of one instruction. */
  datatype Inst = Inst(ticks: map<string, nat>, pc: string, upc: string, sn: int, disasm: string)

  const NO_INST := Inst(map[], "", "", 0, "")

  function Seq(r: Inst): int { r.sn }

  function TickOf(r: Inst, stage: string): int { if stage in r.ticks then r.ticks[stage] else 0 }

  /** The command line: `-1` (any value that is not positive) stands for no upper end. */
  datatype Config = Config(
    startTick: int, stopTick: int, startSn: int, stopSn: int,
    tickDrift: nat, committedOnly: bool, storeCompletions: bool,
    maxThreshold: nat, minThreshold: nat)
  {
    /** What `validate_range` guarantees about the lower ends. */
    predicate Valid() { startTick >= 0 && startSn >= 0 }

    predicate InWindow(tick: int, sn: int)
    {
      && !(startSn > 0 && sn < startSn)
      && !(stopSn > 0 && sn > stopSn)
      && !(startTick > 0 && tick < startTick)
      && !(stopTick > 0 && tick > stopTick)
    }

    /** The filter of `print_insts`. */
    predicate Shown(r: Inst)
    {
      InWindow(TickOf(r, "fetch"), r.sn) && !(committedOnly && TickOf(r, "retire") == 0)
    }

    /**
      Whether `print_inst` gets through: it raises a KeyError without the tick of some
      stage, and an IndexError when no stage was reached.
    */
    predicate Printable(r: Inst)
    {
      Stages(this) <= r.ticks.Keys && exists n :: n in Stages(this) && r.ticks[n] != 0
    }

    /** Whether the main loop stops at this fetch line. */
    predicate Past(l: Line)
      requires l.Fetch?
    {
      || (stopTick > 0 && l.tick > stopTick + tickDrift)
      || (stopSn > 0 && l.sn > stopSn + maxThreshold)
    }
  }

  // ---------------------------------------------------------------- the print queue

  /** What is popped, before filtering, and what stays when the queue is drained to `lower`. */
  function Drain(queue: seq<Inst>, lower: nat): (r: (seq<Inst>, seq<Inst>))
    ensures r.0 + r.1 == Sort(queue, Seq)
    ensures |r.1| == if |queue| > lower then lower else |queue|
  {
    var s := Sort(queue, Seq);
    var n := if |s| > lower then |s| - lower else 0;
    (s[..n], s[n..])
  }

  /** What is popped, and what stays, when one instruction arrives. */
  function Arrive(c: Config, queue: seq<Inst>, x: Inst): (r: (seq<Inst>, seq<Inst>))
  {
    if |queue + [x]| > c.maxThreshold then Drain(queue + [x], c.minThreshold) else ([], queue + [x])
  }

  function Feed(c: Config, queue: seq<Inst>, recs: seq<Inst>): (seq<Inst>, seq<Inst>)
    decreases |recs|
  {
    if recs == [] then ([], queue)
    else
      var d := Arrive(c, queue, recs[0]);
      var rest := Feed(c, d.1, recs[1..]);
      (d.0 + rest.0, rest.1)
  }

  /** Everything popped up to and including the final flush. */
  function Popped(c: Config, queue: seq<Inst>, recs: seq<Inst>): seq<Inst>
  {
    var f := Feed(c, queue, recs);
    f.0 + Sort(f.1, Seq)
  }

  /** Between instructions the queue never holds more than the larger threshold. */
  lemma {:induction false} QueueBounded(c: Config, queue: seq<Inst>, recs: seq<Inst>)
    requires |queue| <= Max(c.maxThreshold, c.minThreshold)
    ensures |Feed(c, queue, recs).1| <= Max(c.maxThreshold, c.minThreshold)
    decreases |recs|
  {
    if recs != [] { QueueBounded(c, Arrive(c, queue, recs[0]).1, recs[1..]); }
  }

  /** So it is after every prefix of a run. */
  lemma QueueBoundedThroughout(c: Config, recs: seq<Inst>)
    ensures forall k :: 0 <= k <= |recs| ==> |Feed(c, [], recs[..k]).1| <= Max(c.maxThreshold, c.minThreshold)
  {
    forall k | 0 <= k <= |recs| ensures |Feed(c, [], recs[..k]).1| <= Max(c.maxThreshold, c.minThreshold) {
      QueueBounded(c, [], recs[..k]);
    }
  }

  function CountAbove(s: seq<Inst>, sn: int): nat
  {
    if s == [] then 0 else (if s[0].sn > sn then 1 else 0) + CountAbove(s[1..], sn)
  }

  /** Each arrival is preceded, in the queue or in the arrivals, by at most `n` later instructions. */
  ghost predicate Displaced(n: nat, queue: seq<Inst>, recs: seq<Inst>)
  {
    forall j :: 0 <= j < |recs| ==> CountAbove(queue + recs[..j], recs[j].sn) <= n
  }

  lemma {:induction false} CountAppend(a: seq<Inst>, b: seq<Inst>, sn: int)
    ensures CountAbove(a + b, sn) == CountAbove(a, sn) + CountAbove(b, sn)
  {
    if a == [] {
      assert a + b == b;
    } else {
      assert (a + b)[1..] == a[1..] + b;
      CountAppend(a[1..], b, sn);
    }
  }

  lemma {:induction false} CountInsert(x: Inst, s: seq<Inst>, sn: int)
    ensures CountAbove(Insert(x, s, Seq), sn) == CountAbove([x] + s, sn)
  {
    assert ([x] + s)[1..] == s;
    if s != [] && s[0].sn < x.sn {
      CountInsert(x, s[1..], sn);
      assert ([x] + s[1..])[1..] == s[1..];
    }
  }

  lemma {:induction false} CountSort(s: seq<Inst>, sn: int)
    ensures CountAbove(Sort(s, Seq), sn) == CountAbove(s, sn)
  {
    if s != [] {
      CountSort(s[1..], sn);
      CountInsert(s[0], Sort(s[1..], Seq), sn);
      assert ([s[0]] + Sort(s[1..], Seq))[1..] == Sort(s[1..], Seq);
    }
  }

  lemma {:induction false} CountAll(s: seq<Inst>, sn: int)
    requires forall x :: x in s ==> x.sn > sn
    ensures CountAbove(s, sn) == |s|
  {
    if s != [] { CountAll(s[1..], sn); }
  }

  /** What a flush prints precedes everything still to come, if no arrival is displaced too far. */
  lemma DrainBeforeRest(q: seq<Inst>, recs: seq<Inst>, lower: nat)
    requires Displaced(lower, q, recs)
    ensures AllLeq(Drain(q, lower).0, recs, Seq)
  {
    var (front, back) := Drain(q, lower);
    forall x, y | x in front && y in recs ensures x.sn <= y.sn {
      var i :| 0 <= i < |front| && front[i] == x;
      var j :| 0 <= j < |recs| && recs[j] == y;
      if x.sn > y.sn { LateArrivals(q, lower, i, recs, j); }
    }
  }

  lemma LateArrivals(q: seq<Inst>, lower: nat, i: nat, recs: seq<Inst>, j: nat)
    requires i < |Drain(q, lower).0| && j < |recs| && Drain(q, lower).0[i].sn > recs[j].sn
    ensures CountAbove(q + recs[..j], recs[j].sn) > lower
  {
    var s, v := Sort(q, Seq), recs[j].sn;
    assert Drain(q, lower).0[i] == s[i];
    SortSorted(q, Seq);
    SortedTail(s, i, v);
    CountAppend(s[..i], s[i..], v);
    assert s == s[..i] + s[i..];
    CountSort(q, v);
    CountAppend(q, recs[..j], v);
  }

  /** From an instruction on, a sorted queue counts in full for everything before it. */
  lemma SortedTail(s: seq<Inst>, i: nat, v: int)
    requires Sorted(s, Seq) && i < |s| && s[i].sn > v
    ensures CountAbove(s[i..], v) == |s| - i
  {
    assert s == s[..i] + s[i..];
    SortedSplit(s[..i], s[i..], Seq);
    var rest := s[i..][1..];
    assert s[i..] == [s[i]] + rest;
    assert forall y :: y in rest ==> Seq(s[i]) <= Seq(y);
    CountAll(s[i..], v);
  }

  lemma DisplacedNext(n: nat, queue: seq<Inst>, recs: seq<Inst>)
    requires recs != [] && Displaced(n, queue, recs)
    ensures Displaced(n, queue + [recs[0]], recs[1..])
  {
    forall j | 0 <= j < |recs[1..]|
      ensures CountAbove(queue + [recs[0]] + recs[1..][..j], recs[1..][j].sn) <= n
    {
      assert queue + [recs[0]] + recs[1..][..j] == queue + recs[..j + 1];
    }
  }

  lemma DisplacedDrain(n: nat, q: seq<Inst>, recs: seq<Inst>)
    requires Displaced(n, q, recs)
    ensures Displaced(n, Drain(q, n).1, recs)
  {
    var (front, back) := Drain(q, n);
    forall j | 0 <= j < |recs| ensures CountAbove(back + recs[..j], recs[j].sn) <= n {
      var v := recs[j].sn;
      CountAppend(back, recs[..j], v);
      CountAppend(q, recs[..j], v);
      CountAppend(front, back, v);
      CountSort(q, v);
    }
  }

  /** The popped sequence is the stable sort of everything that was queued. */
  lemma {:induction false} PoppedIsSorted(c: Config, queue: seq<Inst>, recs: seq<Inst>)
    requires Displaced(c.minThreshold, queue, recs)
    ensures Popped(c, queue, recs) == Sort(queue + recs, Seq)
    decreases |recs|
  {
    if recs == [] {
      assert queue + recs == queue;
    } else {
      var q, rest := queue + [recs[0]], recs[1..];
      assert queue + recs == q + rest;
      DisplacedNext(c.minThreshold, queue, recs);
      var d := Arrive(c, queue, recs[0]);
      if |q| > c.maxThreshold {
        DisplacedDrain(c.minThreshold, q, rest);
        FlushInOrder(q, rest, c.minThreshold);
      }
      PoppedIsSorted(c, d.1, rest);
      PoppedStep(c, queue, recs);
    }
  }

  lemma PoppedStep(c: Config, queue: seq<Inst>, recs: seq<Inst>)
    requires recs != []
    ensures var d := Arrive(c, queue, recs[0]);
      Popped(c, queue, recs) == d.0 + Popped(c, d.1, recs[1..])
  {
    var d := Arrive(c, queue, recs[0]);
    var f := Feed(c, d.1, recs[1..]);
    assert d.0 + f.0 + Sort(f.1, Seq) == d.0 + (f.0 + Sort(f.1, Seq));
  }

  lemma FlushInOrder(q: seq<Inst>, rest: seq<Inst>, lower: nat)
    requires Displaced(lower, q, rest)
    ensures Sort(q + rest, Seq) == Drain(q, lower).0 + Sort(Drain(q, lower).1 + rest, Seq)
  {
    var (front, back) := Drain(q, lower);
    assert Sorted(front, Seq) && AllLeq(front, back + rest, Seq) by {
      SortSorted(q, Seq);
      SortedSplit(front, back, Seq);
      DrainBeforeRest(q, rest, lower);
    }
    SortPrefix(front, back + rest, Seq);
    SortInner(q, rest, Seq);
    assert front + (back + rest) == Sort(q, Seq) + rest;
  }

  /** Whatever the disorder, every queued instruction is popped exactly once. */
  lemma {:induction false} PoppedIsPermutation(c: Config, queue: seq<Inst>, recs: seq<Inst>)
    ensures multiset(Popped(c, queue, recs)) == multiset(queue + recs)
    decreases |recs|
  {
    if recs == [] {
      assert queue + recs == queue;
      SortMembers(queue, Seq);
    } else {
      var q, rest := queue + [recs[0]], recs[1..];
      assert queue + recs == q + rest;
      var d := Arrive(c, queue, recs[0]);
      PoppedIsPermutation(c, d.1, rest);
      PoppedStep(c, queue, recs);
      SortMembers(q, Seq);
      assert multiset(d.0 + d.1) == multiset(q);
    }
  }

  /** A trace of one instruction more than the queue holds, in order, and then one late arrival. */
  function LateTrace(c: Config): seq<Inst>
    requires c.minThreshold <= c.maxThreshold
  {
    seq(c.maxThreshold + 1, (i: nat) => NO_INST.(sn := 2 * i)) +
    [NO_INST.(sn := 2 * (c.maxThreshold - c.minThreshold) - 1)]
  }

  lemma {:induction false} EvenCount(s: seq<Inst>, lo: nat, v: int)
    requires forall i :: 0 <= i < |s| ==> s[i].sn == 2 * (lo + i)
    ensures CountAbove(s, 2 * v - 1) == if v <= lo then |s| else if v >= lo + |s| then 0 else lo + |s| - v
  {
    if s != [] { EvenCount(s[1..], lo + 1, v); }
  }

  lemma {:induction false} EvenSorted(s: seq<Inst>, lo: nat)
    requires forall i :: 0 <= i < |s| ==> s[i].sn == 2 * (lo + i)
    ensures Sorted(s, Seq)
  {
    if s != [] { EvenSorted(s[1..], lo + 1); }
  }

  lemma {:induction false} CountNone(s: seq<Inst>, sn: int)
    requires forall x :: x in s ==> x.sn <= sn
    ensures CountAbove(s, sn) == 0
  {
    if s != [] { CountNone(s[1..], sn); }
  }

  /** Arrivals that fit are only queued. */
  lemma {:induction false} FeedFits(c: Config, queue: seq<Inst>, a: seq<Inst>, b: seq<Inst>)
    requires |queue| + |a| <= c.maxThreshold
    ensures Feed(c, queue, a + b) == Feed(c, queue + a, b)
    decreases |a|
  {
    if a == [] {
      assert a + b == b && queue + a == queue;
    } else {
      assert (a + b)[1..] == a[1..] + b && (a + b)[0] == a[0];
      FeedFits(c, queue + [a[0]], a[1..], b);
      assert queue + [a[0]] + a[1..] == queue + a;
      var f := Feed(c, queue + a, b);
      assert [] + f.0 == f.0;
    }
  }

  lemma LateTraceDisplaced(c: Config)
    requires c.minThreshold <= c.maxThreshold
    ensures Displaced(c.minThreshold + 1, [], LateTrace(c))
  {
    var n, t := c.maxThreshold, LateTrace(c);
    forall j | 0 <= j < |t| ensures CountAbove([] + t[..j], t[j].sn) <= c.minThreshold + 1 {
      assert [] + t[..j] == t[..j];
      if j <= n {
        CountNone(t[..j], t[j].sn);
      } else {
        EvenCount(t[..j], 0, n - c.minThreshold);
      }
    }
  }

  lemma PoppedFits(c: Config, a: seq<Inst>, b: seq<Inst>)
    requires |a| <= c.maxThreshold
    ensures Popped(c, [], a + b) == Popped(c, a, b)
  {
    FeedFits(c, [], a, b);
    assert [] + a == a;
  }

  /** A late arrival that is smaller than something already popped spoils the order. */
  lemma LateSpoils(c: Config, front: seq<Inst>, back: seq<Inst>, late: Inst)
    requires front != [] && front[|front| - 1].sn > late.sn
    ensures !Sorted(front + Popped(c, back, [late]), Seq)
  {
    var rest := Popped(c, back, [late]);
    PoppedIsPermutation(c, back, [late]);
    assert late in multiset(back + [late]);
    assert late in rest;
    SortedSplit(front, rest, Seq);
    assert front[|front| - 1] in front;
  }

  /** The first flush of an ordered trace pops too much for a late arrival. */
  lemma FlushSpoils(c: Config, queue: seq<Inst>, x: Inst, late: Inst)
    requires |queue| == c.maxThreshold && c.minThreshold <= c.maxThreshold
    requires Sort(queue + [x], Seq) == queue + [x]
    requires (queue + [x])[c.maxThreshold - c.minThreshold].sn > late.sn
    ensures !Sorted(Popped(c, [], queue + ([x] + [late])), Seq)
  {
    var all, n, two := queue + [x], c.maxThreshold - c.minThreshold + 1, [x] + [late];
    PoppedFits(c, queue, two);
    PoppedStep(c, queue, two);
    assert two[0] == x && two[1..] == [late];
    FirstFlush(c, queue, x);
    assert all[..n][n - 1] == all[n - 1];
    LateSpoils(c, all[..n], all[n..], late);
  }

  /** What an ordered queue pops when it overflows. */
  lemma FirstFlush(c: Config, queue: seq<Inst>, x: Inst)
    requires |queue| == c.maxThreshold && c.minThreshold <= c.maxThreshold
    requires Sort(queue + [x], Seq) == queue + [x]
    ensures var n := c.maxThreshold - c.minThreshold + 1;
      Arrive(c, queue, x) == ((queue + [x])[..n], (queue + [x])[n..])
  {
  }

  /** The bound cannot be raised: displaced by one place more, an instruction is popped out of order. */
  lemma BoundIsTight(c: Config)
    requires c.minThreshold <= c.maxThreshold
    ensures Displaced(c.minThreshold + 1, [], LateTrace(c))
    ensures Popped(c, [], LateTrace(c)) != Sort(LateTrace(c), Seq)
  {
    LateTraceDisplaced(c);
    var t, n := LateTrace(c), c.maxThreshold;
    LateTraceParts(c);
    FlushSpoils(c, t[..n], t[n], t[n + 1]);
    SortSorted(t, Seq);
  }

  lemma LateTraceParts(c: Config)
    requires c.minThreshold <= c.maxThreshold
    ensures var t, n := LateTrace(c), c.maxThreshold;
      && |t| == n + 2 && t == t[..n] + ([t[n]] + [t[n + 1]])
      && Sort(t[..n] + [t[n]], Seq) == t[..n] + [t[n]]
      && (t[..n] + [t[n]])[n - c.minThreshold].sn > t[n + 1].sn
  {
    var t, n := LateTrace(c), c.maxThreshold;
    EvenSorted(t[..n] + [t[n]], 0);
    SortIdempotent(t[..n] + [t[n]], Seq);
  }

  // ---------------------------------------------------------------- the trace

  function Apply(c: Config, cur: Inst, l: Line): Inst
  {
    match l
    case Other => cur
    case Fetch(tick, pc, upc, sn, disasm) => Inst(cur.ticks["fetch" := tick], pc, upc, sn, disasm)
    case Stage(name, tick) => cur.(ticks := cur.ticks[name := tick])
    case Retire(tick, store) =>
      var t := cur.ticks["retire" := tick];
      cur.(ticks := if c.storeCompletions then t["store" := store] else t,
           disasm := if tick == 0 then "-----" + cur.disasm else cur.disasm)
  }

  /** The instructions queued while `lines` are read, `cur` being the dictionary at their start. */
  function Records(c: Config, cur: Inst, lines: seq<Line>): seq<Inst>
    decreases |lines|
  {
    if lines == [] then []
    else
      var cur' := Apply(c, cur, lines[0]);
      if lines[0].Retire? then [cur'] + Records(c, cur', lines[1..]) else Records(c, cur', lines[1..])
  }

  function After(c: Config, cur: Inst, lines: seq<Line>): Inst
    decreases |lines|
  {
    if lines == [] then cur else After(c, Apply(c, cur, lines[0]), lines[1..])
  }

  /** The first index at or after `from` where a skipping loop stops, or the end of the trace. */
  function FirstTick(lines: seq<Line>, tick: int, from: nat): (i: nat)
    requires from <= |lines|
    ensures from <= i <= |lines|
    ensures i < |lines| ==> !lines[i].Other? && lines[i].tick >= tick
    decreases |lines| - from
  {
    if from == |lines| || (!lines[from].Other? && lines[from].tick >= tick) then from
    else FirstTick(lines, tick, from + 1)
  }

  function FirstSn(lines: seq<Line>, sn: int, from: nat): (i: nat)
    requires from <= |lines|
    ensures from <= i <= |lines|
    ensures i < |lines| ==> lines[i].Fetch? && lines[i].sn >= sn
    decreases |lines| - from
  {
    if from == |lines| || (lines[from].Fetch? && lines[from].sn >= sn) then from
    else FirstSn(lines, sn, from + 1)
  }

  function FirstFetch(lines: seq<Line>, from: nat): (i: nat)
    requires from <= |lines|
    ensures from <= i <= |lines|
    ensures i < |lines| ==> lines[i].Fetch?
    decreases |lines| - from
  {
    if from == |lines| || lines[from].Fetch? then from else FirstFetch(lines, from + 1)
  }

  function FirstPast(c: Config, lines: seq<Line>, from: nat): (i: nat)
    requires from <= |lines|
    ensures from <= i <= |lines|
    ensures i < |lines| ==> lines[i].Fetch? && c.Past(lines[i])
    decreases |lines| - from
  {
    if from == |lines| || (lines[from].Fetch? && c.Past(lines[from])) then from
    else FirstPast(c, lines, from + 1)
  }

  /** What each skipping loop passes over. */
  lemma {:induction false} TickSkips(lines: seq<Line>, tick: int, from: nat, k: nat)
    requires from <= |lines| && from <= k < FirstTick(lines, tick, from)
    ensures lines[k].Other? || lines[k].tick < tick
    decreases k - from
  {
    if from < k { TickSkips(lines, tick, from + 1, k); }
  }

  lemma {:induction false} SnSkips(lines: seq<Line>, sn: int, from: nat, k: nat)
    requires from <= |lines| && from <= k < FirstSn(lines, sn, from)
    ensures lines[k].Fetch? ==> lines[k].sn < sn
    decreases k - from
  {
    if from < k { SnSkips(lines, sn, from + 1, k); }
  }

  lemma {:induction false} FetchSkips(lines: seq<Line>, from: nat, k: nat)
    requires from <= |lines| && from <= k < FirstFetch(lines, from)
    ensures !lines[k].Fetch?
    decreases k - from
  {
    if from < k { FetchSkips(lines, from + 1, k); }
  }

  /** Where the region of interest starts. */
  function Start(c: Config, lines: seq<Line>): (i: nat)
    ensures i <= |lines|
  {
    FirstFetch(lines,
               if c.startTick != 0 then FirstTick(lines, c.startTick, 0)
               else if c.startSn != 0 then FirstSn(lines, c.startSn, 0)
               else 0)
  }

  function Stop(c: Config, lines: seq<Line>): (i: nat)
    ensures Start(c, lines) <= i <= |lines|
  {
    FirstPast(c, lines, Start(c, lines))
  }

  /** Whether the skipping loop of this command line stops at a line. */
  predicate Opens(c: Config, l: Line)
  {
    if c.startTick != 0 then !l.Other? && l.tick >= c.startTick
    else if c.startSn != 0 then l.Fetch? && l.sn >= c.startSn
    else true
  }

  /** The region starts at the first fetch line that is not before a line where skipping stops. */
  lemma StartMeaning(c: Config, lines: seq<Line>)
    ensures var st := Start(c, lines);
      st < |lines| ==> lines[st].Fetch? && exists j :: 0 <= j <= st && Opens(c, lines[j])
    ensures forall j, i :: 0 <= j <= i < Start(c, lines) && Opens(c, lines[j]) ==> !lines[i].Fetch?
  {
    var st := Start(c, lines);
    var from := if c.startTick != 0 then FirstTick(lines, c.startTick, 0)
                else if c.startSn != 0 then FirstSn(lines, c.startSn, 0) else 0;
    if st < |lines| { assert Opens(c, lines[from]); }
    forall j, i | 0 <= j <= i < st && Opens(c, lines[j]) ensures !lines[i].Fetch? {
      if j < from {
        if c.startTick != 0 { TickSkips(lines, c.startTick, 0, j); } else { SnSkips(lines, c.startSn, 0, j); }
      }
      FetchSkips(lines, from, i);
    }
  }

  lemma {:induction false} PastSkips(c: Config, lines: seq<Line>, from: nat, k: nat)
    requires from <= |lines| && from <= k < FirstPast(c, lines, from)
    ensures lines[k].Fetch? ==> !c.Past(lines[k])
    decreases k - from
  {
    if from < k { PastSkips(c, lines, from + 1, k); }
  }

  /** The region stops at its first fetch line beyond an upper end that is set and the allowance for it. */
  lemma StopMeaning(c: Config, lines: seq<Line>)
    ensures forall k :: Start(c, lines) <= k < Stop(c, lines) && lines[k].Fetch? ==>
      && (c.stopTick > 0 ==> lines[k].tick <= c.stopTick + c.tickDrift)
      && (c.stopSn > 0 ==> lines[k].sn <= c.stopSn + c.maxThreshold)
    ensures var sp := Stop(c, lines);
      sp < |lines| ==>
        && lines[sp].Fetch?
        && ((c.stopTick > 0 && lines[sp].tick > c.stopTick + c.tickDrift) ||
            (c.stopSn > 0 && lines[sp].sn > c.stopSn + c.maxThreshold))
  {
    forall k | Start(c, lines) <= k < Stop(c, lines) ensures lines[k].Fetch? ==> !c.Past(lines[k]) {
      PastSkips(c, lines, Start(c, lines), k);
    }
  }

  /** Everything the viewer prints for a trace. */
  function Printed(c: Config, lines: seq<Line>): seq<Inst>
  {
    Filter(Popped(c, [], Records(c, NO_INST, lines[Start(c, lines)..Stop(c, lines)])), c.Shown)
  }

  // ---------------------------------------------------------------- well-formed traces

  const MIDDLE_STAGES: set<string> := {"decode", "rename", "dispatch", "issue", "complete"}

  function Stages(c: Config): set<string>
  {
    {"fetch", "retire"} + MIDDLE_STAGES + if c.storeCompletions then {"store"} else {}
  }

  /** Before the first fetch line, inside the lines of an instruction, or after its retire line. */
  datatype Phase = Lead | Open(seen: set<string>) | Shut

  function NextPhase(ph: Phase, l: Line): Phase
  {
    match l
    case Other => ph
    case Fetch(_, _, _, _, _) => Open({"fetch"})
    case Stage(name, _) => if ph.Open? then Open(ph.seen + {name}) else ph
    case Retire(_, _) => if ph.Open? then Shut else ph
  }

  ghost predicate LineOk(ph: Phase, l: Line)
  {
    match l
    case Stage(name, _) => !ph.Shut? && (ph.Open? ==> name in MIDDLE_STAGES)
    case Retire(_, _) => !ph.Shut? && (ph.Open? ==> ph.seen == MIDDLE_STAGES + {"fetch"})
    case _ => true
  }

  /** The lines of an instruction are its fetch, all middle stages, and then its retire line. */
  ghost predicate WellFormed(ph: Phase, lines: seq<Line>)
    decreases |lines|
  {
    lines == [] || (LineOk(ph, lines[0]) && WellFormed(NextPhase(ph, lines[0]), lines[1..]))
  }

  function PhaseAfter(ph: Phase, lines: seq<Line>): Phase
    decreases |lines|
  {
    if lines == [] then ph else PhaseAfter(NextPhase(ph, lines[0]), lines[1..])
  }

  /** Every instruction of a trace, as the viewer collects it without a window. */
  function AllRecords(c: Config, lines: seq<Line>): seq<Inst>
  {
    Records(c, NO_INST, lines[FirstFetch(lines, 0)..])
  }

  /** The two dictionaries agree on what the current instruction has set so far. */
  ghost predicate Agree(c: Config, ph: Phase, a: Inst, b: Inst)
  {
    && a.ticks.Keys <= Stages(c) && b.ticks.Keys <= Stages(c)
    && (ph.Open? ==>
          && a.(ticks := map[]) == b.(ticks := map[])
          && ph.seen <= a.ticks.Keys && ph.seen <= b.ticks.Keys
          && forall n :: n in ph.seen ==> a.ticks[n] == b.ticks[n])
  }

  /** What an earlier instruction left in the dictionary never shows in a later one. */
  lemma {:induction false} NothingStale(c: Config, ph: Phase, a: Inst, b: Inst, lines: seq<Line>)
    requires WellFormed(ph, lines) && Agree(c, ph, a, b)
    requires ph.Lead? ==> lines != [] && lines[0].Fetch?
    ensures Records(c, a, lines) == Records(c, b, lines)
    decreases |lines|
  {
    if lines != [] {
      var l, a', b' := lines[0], Apply(c, a, lines[0]), Apply(c, b, lines[0]);
      if l.Retire? {
        assert a'.ticks.Keys == Stages(c) == b'.ticks.Keys;
        assert a'.ticks == b'.ticks;
      }
      NothingStale(c, NextPhase(ph, l), a', b', lines[1..]);
    }
  }

  lemma {:induction false} RecordsAppend(c: Config, cur: Inst, a: seq<Line>, b: seq<Line>)
    ensures Records(c, cur, a + b) == Records(c, cur, a) + Records(c, After(c, cur, a), b)
    decreases |a|
  {
    if a == [] {
      assert a + b == b;
    } else {
      assert (a + b)[1..] == a[1..] + b && (a + b)[0] == a[0];
      RecordsAppend(c, Apply(c, cur, a[0]), a[1..], b);
    }
  }

  lemma {:induction false} WellFormedAppend(ph: Phase, a: seq<Line>, b: seq<Line>)
    requires WellFormed(ph, a + b)
    ensures WellFormed(ph, a) && WellFormed(PhaseAfter(ph, a), b)
    decreases |a|
  {
    if a == [] {
      assert a + b == b;
    } else {
      assert (a + b)[1..] == a[1..] + b && (a + b)[0] == a[0];
      WellFormedAppend(NextPhase(ph, a[0]), a[1..], b);
    }
  }

  lemma {:induction false} AfterKeys(c: Config, ph: Phase, cur: Inst, lines: seq<Line>)
    requires WellFormed(ph, lines) && cur.ticks.Keys <= Stages(c)
    requires ph.Lead? ==> lines == [] || lines[0].Fetch?
    ensures After(c, cur, lines).ticks.Keys <= Stages(c)
    decreases |lines|
  {
    if lines != [] { AfterKeys(c, NextPhase(ph, lines[0]), Apply(c, cur, lines[0]), lines[1..]); }
  }

  /** Instructions all of whose fetch lines lie outside the window are not shown. */
  lemma {:induction false} OutsideNotShown(c: Config, ph: Phase, cur: Inst, lines: seq<Line>)
    requires WellFormed(ph, lines)
    requires ph.Lead? ==> lines == [] || lines[0].Fetch?
    requires ph.Open? ==> "fetch" in cur.ticks && !c.InWindow(cur.ticks["fetch"], cur.sn)
    requires forall l :: l in lines && l.Fetch? ==> !c.InWindow(l.tick, l.sn)
    ensures Filter(Records(c, cur, lines), c.Shown) == []
    decreases |lines|
  {
    if lines != [] {
      OutsideNotShown(c, NextPhase(ph, lines[0]), Apply(c, cur, lines[0]), lines[1..]);
    }
  }

  /** No fetch line runs further ahead of a later one than the allowance for each upper end that is set. */
  ghost predicate Drift(c: Config, lines: seq<Line>)
  {
    forall a, b :: 0 <= a < b < |lines| && lines[a].Fetch? && lines[b].Fetch? ==>
      && (c.stopTick > 0 ==> lines[a].tick <= lines[b].tick + c.tickDrift)
      && (c.stopSn > 0 ==> lines[a].sn <= lines[b].sn + c.maxThreshold)
  }

  lemma {:induction false} LeadStays(lines: seq<Line>)
    requires forall l :: l in lines ==> !l.Fetch?
    ensures PhaseAfter(Lead, lines) == Lead
  {
    if lines != [] { LeadStays(lines[1..]); }
  }

  /** What follows a fetch line does not depend on what came before it. */
  lemma FreshAtFetch(c: Config, cur: Inst, ph: Phase, lines: seq<Line>)
    requires WellFormed(ph, lines) && cur.ticks.Keys <= Stages(c)
    requires lines == [] || lines[0].Fetch?
    ensures WellFormed(Lead, lines) && Records(c, cur, lines) == Records(c, NO_INST, lines)
  {
    if lines != [] { NothingStale(c, Lead, cur, NO_INST, lines); }
  }

  /** The part of a trace from one fetch line to the next adds its own instructions. */
  lemma SplitAtFetch(c: Config, a: seq<Line>, b: seq<Line>)
    requires WellFormed(Lead, a + b)
    requires a == [] || a[0].Fetch?
    requires b == [] || b[0].Fetch?
    ensures WellFormed(Lead, a) && WellFormed(Lead, b)
    ensures Records(c, NO_INST, a + b) == Records(c, NO_INST, a) + Records(c, NO_INST, b)
  {
    WellFormedAppend(Lead, a, b);
    RecordsAppend(c, NO_INST, a, b);
    AfterKeys(c, Lead, NO_INST, a);
    FreshAtFetch(c, After(c, NO_INST, a), PhaseAfter(Lead, a), b);
  }

  /** Every fetch line before the start of the region is outside the window. */
  lemma SkippedOutside(c: Config, lines: seq<Line>, k: nat)
    requires c.Valid() && k < Start(c, lines) && lines[k].Fetch?
    ensures !c.InWindow(lines[k].tick, lines[k].sn)
  {
    var from := if c.startTick != 0 then FirstTick(lines, c.startTick, 0)
                else if c.startSn != 0 then FirstSn(lines, c.startSn, 0) else 0;
    if k >= from {
      FetchSkips(lines, from, k);
    } else if c.startTick != 0 {
      TickSkips(lines, c.startTick, 0, k);
    } else {
      SnSkips(lines, c.startSn, 0, k);
    }
  }

  /** Every fetch line from the stop of the region on is outside the window. */
  lemma StoppedOutside(c: Config, lines: seq<Line>, k: nat)
    requires Drift(c, lines) && Stop(c, lines) <= k < |lines| && lines[k].Fetch?
    ensures !c.InWindow(lines[k].tick, lines[k].sn)
  {
    var s := Stop(c, lines);
    assert c.Past(lines[s]);
  }

  /** The instructions that are skipped, read and cut off. */
  function Skipped(c: Config, lines: seq<Line>): seq<Inst>
  {
    var f, st := FirstFetch(lines, 0), Start(c, lines);
    if f <= st then Records(c, NO_INST, lines[f..st]) else []
  }

  function Read(c: Config, lines: seq<Line>): seq<Inst>
  {
    Records(c, NO_INST, lines[Start(c, lines)..Stop(c, lines)])
  }

  function CutOff(c: Config, lines: seq<Line>): seq<Inst>
  {
    Records(c, NO_INST, lines[Stop(c, lines)..])
  }

  lemma StartsAtFetch(c: Config, lines: seq<Line>)
    ensures FirstFetch(lines, 0) <= Start(c, lines)
  {
    if Start(c, lines) < FirstFetch(lines, 0) { FetchSkips(lines, 0, Start(c, lines)); }
  }

  lemma LeadingDropped(lines: seq<Line>)
    requires WellFormed(Lead, lines)
    ensures WellFormed(Lead, lines[FirstFetch(lines, 0)..])
  {
    var f := FirstFetch(lines, 0);
    assert lines == lines[..f] + lines[f..];
    WellFormedAppend(Lead, lines[..f], lines[f..]);
    forall l | l in lines[..f] ensures !l.Fetch? {
      var k :| 0 <= k < f && lines[k] == l;
      FetchSkips(lines, 0, k);
    }
    LeadStays(lines[..f]);
  }

  lemma TraceParts(c: Config, lines: seq<Line>)
    requires WellFormed(Lead, lines)
    ensures var f, st, sp := FirstFetch(lines, 0), Start(c, lines), Stop(c, lines);
      f <= st && WellFormed(Lead, lines[f..st]) && WellFormed(Lead, lines[st..sp]) && WellFormed(Lead, lines[sp..])
    ensures AllRecords(c, lines) == Skipped(c, lines) + Read(c, lines) + CutOff(c, lines)
  {
    StartsAtFetch(c, lines);
    LeadingDropped(lines);
    PartsAt(c, lines, FirstFetch(lines, 0), Start(c, lines), Stop(c, lines));
  }

  lemma PartsAt(c: Config, lines: seq<Line>, f: nat, st: nat, sp: nat)
    requires f <= st <= sp <= |lines| && WellFormed(Lead, lines[f..])
    requires forall i :: i in {f, st, sp} && i < |lines| ==> lines[i].Fetch?
    ensures WellFormed(Lead, lines[f..st]) && WellFormed(Lead, lines[st..sp]) && WellFormed(Lead, lines[sp..])
    ensures Records(c, NO_INST, lines[f..]) ==
      Records(c, NO_INST, lines[f..st]) + Records(c, NO_INST, lines[st..sp]) + Records(c, NO_INST, lines[sp..])
  {
    assert lines[f..] == lines[f..st] + (lines[st..sp] + lines[sp..]);
    ThreeParts(c, lines[f..st], lines[st..sp], lines[sp..]);
  }

  lemma ThreeParts(c: Config, pre: seq<Line>, mid: seq<Line>, post: seq<Line>)
    requires WellFormed(Lead, pre + (mid + post))
    requires pre == [] || pre[0].Fetch?
    requires mid == [] || mid[0].Fetch?
    requires post == [] || post[0].Fetch?
    ensures WellFormed(Lead, pre) && WellFormed(Lead, mid) && WellFormed(Lead, post)
    ensures Records(c, NO_INST, pre + (mid + post)) ==
      Records(c, NO_INST, pre) + Records(c, NO_INST, mid) + Records(c, NO_INST, post)
  {
    assert if mid == [] then mid + post == post else (mid + post)[0] == mid[0];
    SplitAtFetch(c, pre, mid + post);
    SplitAtFetch(c, mid, post);
    var x, y, z := Records(c, NO_INST, pre), Records(c, NO_INST, mid), Records(c, NO_INST, post);
    assert x + (y + z) == x + y + z;
  }

  /** The parts start at fetch lines and are well-formed. */
  ghost predicate Whole(lines: seq<Line>) { WellFormed(Lead, lines) && (lines == [] || lines[0].Fetch?) }

  lemma PartsWhole(c: Config, lines: seq<Line>)
    requires WellFormed(Lead, lines)
    ensures FirstFetch(lines, 0) <= Start(c, lines)
    ensures Whole(lines[FirstFetch(lines, 0)..Start(c, lines)])
    ensures Whole(lines[Start(c, lines)..Stop(c, lines)])
    ensures Whole(lines[Stop(c, lines)..])
  {
    TraceParts(c, lines);
  }

  lemma NoneShown(c: Config, lines: seq<Line>)
    requires Whole(lines) && forall l :: l in lines && l.Fetch? ==> !c.InWindow(l.tick, l.sn)
    ensures Filter(Records(c, NO_INST, lines), c.Shown) == []
  {
    OutsideNotShown(c, Lead, NO_INST, lines);
  }

  lemma SkippedAllOutside(c: Config, lines: seq<Line>)
    requires c.Valid() && FirstFetch(lines, 0) <= Start(c, lines)
    ensures forall l :: l in lines[FirstFetch(lines, 0)..Start(c, lines)] && l.Fetch? ==> !c.InWindow(l.tick, l.sn)
  {
    var f, st := FirstFetch(lines, 0), Start(c, lines);
    var pre := lines[f..st];
    forall l | l in pre && l.Fetch? ensures !c.InWindow(l.tick, l.sn) {
      var k :| 0 <= k < |pre| && pre[k] == l;
      SkippedOutside(c, lines, f + k);
    }
  }

  /** Skipping to the start of the window loses nothing that the filter would show. */
  lemma SkippingLossless(c: Config, lines: seq<Line>)
    requires c.Valid() && WellFormed(Lead, lines)
    ensures Filter(Skipped(c, lines), c.Shown) == []
  {
    PartsWhole(c, lines);
    SkippedAllOutside(c, lines);
    NoneShown(c, lines[FirstFetch(lines, 0)..Start(c, lines)]);
  }

  /** Stopping early loses nothing that the filter would show. */
  lemma StoppingLossless(c: Config, lines: seq<Line>)
    requires WellFormed(Lead, lines) && Drift(c, lines)
    ensures Filter(CutOff(c, lines), c.Shown) == []
  {
    PartsWhole(c, lines);
    CutOffOutside(c, lines);
    NoneShown(c, lines[Stop(c, lines)..]);
  }

  lemma CutOffOutside(c: Config, lines: seq<Line>)
    requires Drift(c, lines)
    ensures forall l :: l in lines[Stop(c, lines)..] && l.Fetch? ==> !c.InWindow(l.tick, l.sn)
  {
    var sp := Stop(c, lines);
    var post := lines[sp..];
    forall l | l in post && l.Fetch? ensures !c.InWindow(l.tick, l.sn) {
      var k :| 0 <= k < |post| && post[k] == l;
      StoppedOutside(c, lines, sp + k);
    }
  }

  /** A contiguous part of a trace is displaced no further than the whole. */
  lemma DisplacedPart(n: nat, a: seq<Inst>, m: seq<Inst>, b: seq<Inst>)
    requires Displaced(n, [], a + m + b)
    ensures Displaced(n, [], m)
  {
    var t := a + m + b;
    forall j | 0 <= j < |m| ensures CountAbove([] + m[..j], m[j].sn) <= n {
      assert [] + t[..|a| + j] == a + m[..j] && t[|a| + j] == m[j];
      CountAppend(a, m[..j], m[j].sn);
      assert [] + m[..j] == m[..j];
    }
  }

  lemma FilterMiddle(c: Config, a: seq<Inst>, m: seq<Inst>, b: seq<Inst>)
    requires Filter(a, c.Shown) == [] && Filter(b, c.Shown) == []
    ensures Filter(a + m + b, c.Shown) == Filter(m, c.Shown)
  {
    FilterAppend(a + m, b, c.Shown);
    FilterAppend(a, m, c.Shown);
  }

  /**
    The windowed viewer prints exactly the instructions of the whole trace that pass
    its filter, each as often as it occurs.
  */
  lemma PrintsTheWindow(c: Config, lines: seq<Line>)
    requires c.Valid() && WellFormed(Lead, lines) && Drift(c, lines)
    ensures multiset(Printed(c, lines)) == multiset(Filter(AllRecords(c, lines), c.Shown))
  {
    var a, m, b := Skipped(c, lines), Read(c, lines), CutOff(c, lines);
    TraceParts(c, lines);
    SkippingLossless(c, lines);
    StoppingLossless(c, lines);
    FilterMiddle(c, a, m, b);
    PoppedIsPermutation(c, [], m);
    assert [] + m == m;
    FilterPermutation(Popped(c, [], m), m, c.Shown);
  }

  /** Which instructions of the trace are printed, in the terms of the command line. */
  lemma PrintedMembers(c: Config, lines: seq<Line>, r: Inst)
    requires c.Valid() && WellFormed(Lead, lines) && Drift(c, lines)
    ensures r in Printed(c, lines) <==>
      && r in AllRecords(c, lines)
      && (c.startSn > 0 ==> c.startSn <= r.sn) && (c.stopSn > 0 ==> r.sn <= c.stopSn)
      && (c.startTick > 0 ==> c.startTick <= TickOf(r, "fetch"))
      && (c.stopTick > 0 ==> TickOf(r, "fetch") <= c.stopTick)
      && (c.committedOnly ==> TickOf(r, "retire") != 0)
  {
    PrintsTheWindow(c, lines);
    FilterMembers(AllRecords(c, lines), c.Shown);
    assert r in Printed(c, lines) <==> r in multiset(Printed(c, lines));
    assert r in Filter(AllRecords(c, lines), c.Shown) <==> r in multiset(Filter(AllRecords(c, lines), c.Shown));
  }

  lemma MiddleInOrder(c: Config, a: seq<Inst>, m: seq<Inst>, b: seq<Inst>)
    requires Filter(a, c.Shown) == [] && Filter(b, c.Shown) == []
    requires Displaced(c.minThreshold, [], a + m + b)
    ensures Filter(Popped(c, [], m), c.Shown) == Filter(Sort(a + m + b, Seq), c.Shown)
  {
    assert Popped(c, [], m) == Sort(m, Seq) by {
      DisplacedPart(c.minThreshold, a, m, b);
      PoppedIsSorted(c, [], m);
      assert [] + m == m;
    }
    FilterMiddle(c, a, m, b);
    FilterSort(m, Seq, c.Shown);
    FilterSort(a + m + b, Seq, c.Shown);
  }

  /**
    If moreover no instruction is preceded by more than `minThreshold` later ones, the
    output is the whole trace, stably sorted by sequence number and then filtered.
  */
  lemma PrintsInOrder(c: Config, lines: seq<Line>)
    requires c.Valid() && WellFormed(Lead, lines) && Drift(c, lines)
    requires Displaced(c.minThreshold, [], AllRecords(c, lines))
    ensures Printed(c, lines) == Filter(Sort(AllRecords(c, lines), Seq), c.Shown)
  {
    TraceParts(c, lines);
    SkippingLossless(c, lines);
    StoppingLossless(c, lines);
    MiddleInOrder(c, Skipped(c, lines), Read(c, lines), CutOff(c, lines));
  }

  // ---------------------------------------------------------------- what is stale

  /** The stages that some lines report. */
  function StagesIn(lines: seq<Line>): set<string>
  {
    if lines == [] then {}
    else (if lines[0].Stage? then {lines[0].name} else {}) + StagesIn(lines[1..])
  }

  /** Lines between the fetch and the retire line of an instruction. */
  predicate Between(lines: seq<Line>)
  {
    forall i :: 0 <= i < |lines| ==> lines[i].Other? || (lines[i].Stage? && lines[i].name in MIDDLE_STAGES)
  }

  lemma {:induction false} PhaseBetween(ph: Phase, lines: seq<Line>)
    requires ph.Open? && Between(lines)
    ensures WellFormed(ph, lines) && PhaseAfter(ph, lines) == Open(ph.seen + StagesIn(lines))
    decreases |lines|
  {
    if lines == [] {
      assert ph.seen + {} == ph.seen;
    } else {
      var next := NextPhase(ph, lines[0]);
      PhaseBetween(next, lines[1..]);
      assert next.seen + StagesIn(lines[1..]) == ph.seen + StagesIn(lines);
    }
  }

  lemma {:induction false} WellFormedJoin(ph: Phase, a: seq<Line>, b: seq<Line>)
    requires WellFormed(ph, a) && WellFormed(PhaseAfter(ph, a), b)
    ensures WellFormed(ph, a + b)
    decreases |a|
  {
    if a == [] {
      assert a + b == b;
    } else {
      assert (a + b)[0] == a[0] && (a + b)[1..] == a[1..] + b;
      WellFormedJoin(NextPhase(ph, a[0]), a[1..], b);
    }
  }

  lemma {:induction false} KeptTick(c: Config, cur: Inst, lines: seq<Line>, stage: string)
    requires Between(lines) && stage !in StagesIn(lines) && stage in cur.ticks
    ensures stage in After(c, cur, lines).ticks && After(c, cur, lines).ticks[stage] == cur.ticks[stage]
    decreases |lines|
  {
    if lines != [] { KeptTick(c, Apply(c, cur, lines[0]), lines[1..], stage); }
  }

  lemma {:induction false} NoRetireBetween(c: Config, cur: Inst, lines: seq<Line>)
    requires Between(lines)
    ensures Records(c, cur, lines) == []
    decreases |lines|
  {
    if lines != [] { NoRetireBetween(c, Apply(c, cur, lines[0]), lines[1..]); }
  }

  /** The record of one instruction. */
  lemma OneRecord(c: Config, cur: Inst, fetch: Line, lines: seq<Line>, retire: Line)
    requires fetch.Fetch? && Between(lines) && retire.Retire?
    ensures Records(c, cur, [fetch] + (lines + [retire])) ==
      [Apply(c, After(c, Apply(c, cur, fetch), lines), retire)]
  {
    var first := Apply(c, cur, fetch);
    assert ([fetch] + (lines + [retire]))[1..] == lines + [retire];
    RecordsAppend(c, first, lines, [retire]);
    NoRetireBetween(c, first, lines);
    assert [retire][1..] == [];
  }

  /** Whether the record of an instruction is the same whatever was in the dictionary before. */
  ghost predicate Fresh(c: Config, lines: seq<Line>)
  {
    forall a: Inst, b: Inst :: a.ticks.Keys <= Stages(c) && b.ticks.Keys <= Stages(c) ==>
      Records(c, a, lines) == Records(c, b, lines)
  }

  lemma StaleStage(c: Config, fetch: Line, lines: seq<Line>, retire: Line, stage: string)
    requires fetch.Fetch? && Between(lines) && retire.Retire? && stage in MIDDLE_STAGES && stage !in StagesIn(lines)
    ensures !Fresh(c, [fetch] + (lines + [retire]))
  {
    var a, b := NO_INST.(ticks := map[stage := 1]), NO_INST.(ticks := map[stage := 2]);
    OneRecord(c, a, fetch, lines, retire);
    OneRecord(c, b, fetch, lines, retire);
    KeptTick(c, Apply(c, a, fetch), lines, stage);
    KeptTick(c, Apply(c, b, fetch), lines, stage);
    var all := [fetch] + (lines + [retire]);
    assert Records(c, a, all)[0].ticks[stage] == 1 && Records(c, b, all)[0].ticks[stage] == 2;
  }

  /**
    The dictionary is never cleared: the record of an instruction is free of data from
    earlier ones exactly when the trace reports all its middle stages.
  */
  lemma FreshIffAllStages(c: Config, fetch: Line, lines: seq<Line>, retire: Line)
    requires fetch.Fetch? && Between(lines) && retire.Retire?
    ensures Fresh(c, [fetch] + (lines + [retire])) <==> MIDDLE_STAGES <= StagesIn(lines)
  {
    if stage :| stage in MIDDLE_STAGES && stage !in StagesIn(lines) {
      StaleStage(c, fetch, lines, retire, stage);
    } else {
      AllStagesWellFormed(fetch, lines, retire);
      var all := [fetch] + (lines + [retire]);
      forall a: Inst, b: Inst | a.ticks.Keys <= Stages(c) && b.ticks.Keys <= Stages(c)
        ensures Records(c, a, all) == Records(c, b, all)
      {
        NothingStale(c, Lead, a, b, all);
      }
    }
  }

  lemma AllStagesWellFormed(fetch: Line, lines: seq<Line>, retire: Line)
    requires fetch.Fetch? && Between(lines) && retire.Retire? && MIDDLE_STAGES <= StagesIn(lines)
    ensures WellFormed(Lead, [fetch] + (lines + [retire]))
  {
    var ph := Open({"fetch"});
    PhaseBetween(ph, lines);
    OnlyMiddle(lines);
    assert [retire][1..] == [];
    WellFormedJoin(ph, lines, [retire]);
    assert ([fetch] + (lines + [retire]))[1..] == lines + [retire];
  }

  lemma {:induction false} OnlyMiddle(lines: seq<Line>)
    requires Between(lines)
    ensures StagesIn(lines) <= MIDDLE_STAGES
  {
    if lines != [] { OnlyMiddle(lines[1..]); }
  }

  // ---------------------------------------------------------------- what a record holds

  /** Whether line `k` is the last of these lines to report its stage. */
  ghost predicate LastReport(lines: seq<Line>, k: nat)
  {
    && k < |lines| && lines[k].Stage?
    && forall j :: k < j < |lines| && lines[j].Stage? ==> lines[j].name != lines[k].name
  }

  lemma {:induction false} StagesInMeaning(lines: seq<Line>, stage: string)
    ensures stage in StagesIn(lines) <==> exists j :: 0 <= j < |lines| && lines[j].Stage? && lines[j].name == stage
  {
    if lines != [] {
      var rest := lines[1..];
      StagesInMeaning(rest, stage);
      assert forall j :: 0 <= j < |rest| ==> rest[j] == lines[j + 1];
      if j :| 0 <= j < |lines| && lines[j].Stage? && lines[j].name == stage { assert j > 0 ==> rest[j - 1] == lines[j]; }
    }
  }

  lemma {:induction false} LastTick(c: Config, cur: Inst, lines: seq<Line>, k: nat)
    requires Between(lines) && LastReport(lines, k)
    ensures lines[k].name in After(c, cur, lines).ticks && After(c, cur, lines).ticks[lines[k].name] == lines[k].tick
    decreases |lines|
  {
    var next, rest := Apply(c, cur, lines[0]), lines[1..];
    assert forall j :: 0 <= j < |rest| ==> rest[j] == lines[j + 1];
    if k > 0 {
      LastTick(c, next, rest, k - 1);
    } else {
      StagesInMeaning(rest, lines[0].name);
      KeptTick(c, next, rest, lines[0].name);
    }
  }

  lemma {:induction false} HeadKept(c: Config, cur: Inst, lines: seq<Line>)
    requires Between(lines)
    ensures After(c, cur, lines).(ticks := map[]) == cur.(ticks := map[])
    decreases |lines|
  {
    if lines != [] { HeadKept(c, Apply(c, cur, lines[0]), lines[1..]); }
  }

  /** The lines of one instruction. */
  datatype Block = Block(fetch: Line, lines: seq<Line>, retire: Line)
  {
    predicate Valid() { fetch.Fetch? && Between(lines) && retire.Retire? }

    function Text(): seq<Line> { [fetch] + (lines + [retire]) }
  }

  /**
    What the record of an instruction holds: the fetch line's own data, the last tick
    reported for each stage, and a mark in front of the text of an instruction that
    never retired.
  */
  ghost predicate RecordOf(c: Config, b: Block, r: Inst)
    requires b.Valid()
  {
    && r.pc == b.fetch.pc && r.upc == b.fetch.upc && r.sn == b.fetch.sn
    && r.disasm == (if b.retire.tick == 0 then "-----" + b.fetch.disasm else b.fetch.disasm)
    && {"fetch", "retire"} <= r.ticks.Keys && r.ticks["fetch"] == b.fetch.tick && r.ticks["retire"] == b.retire.tick
    && (c.storeCompletions ==> "store" in r.ticks && r.ticks["store"] == b.retire.store)
    && (forall k: nat :: LastReport(b.lines, k) ==>
          b.lines[k].name in r.ticks && r.ticks[b.lines[k].name] == b.lines[k].tick)
  }

  lemma RecordMeaning(c: Config, cur: Inst, b: Block)
    requires b.Valid()
    ensures |Records(c, cur, b.Text())| == 1 && RecordOf(c, b, Records(c, cur, b.Text())[0])
  {
    OneRecord(c, cur, b.fetch, b.lines, b.retire);
    var first := Apply(c, cur, b.fetch);
    HeadKept(c, first, b.lines);
    OnlyMiddle(b.lines);
    KeptTick(c, first, b.lines, "fetch");
    var r := Records(c, cur, b.Text())[0];
    forall k: nat | LastReport(b.lines, k)
      ensures b.lines[k].name in r.ticks && r.ticks[b.lines[k].name] == b.lines[k].tick
    {
      LastTick(c, first, b.lines, k);
    }
  }

  function Concat(blocks: seq<Block>): seq<Line>
  {
    if blocks == [] then [] else blocks[0].Text() + Concat(blocks[1..])
  }

  /** A trace has one record for each instruction, in the order of the trace. */
  lemma {:induction false} TraceRecords(c: Config, cur: Inst, blocks: seq<Block>)
    requires forall i :: 0 <= i < |blocks| ==> blocks[i].Valid()
    ensures var recs := Records(c, cur, Concat(blocks));
      |recs| == |blocks| && forall i :: 0 <= i < |recs| ==> RecordOf(c, blocks[i], recs[i])
    decreases |blocks|
  {
    if blocks != [] {
      var b, rest := blocks[0], blocks[1..];
      var next := After(c, cur, b.Text());
      RecordsAppend(c, cur, b.Text(), Concat(rest));
      RecordMeaning(c, cur, b);
      TraceRecords(c, next, rest);
      var recs, later := Records(c, cur, Concat(blocks)), Records(c, next, Concat(rest));
      forall i | 0 <= i < |recs| ensures RecordOf(c, blocks[i], recs[i]) {
        if i > 0 { assert recs[i] == later[i - 1] && blocks[i] == rest[i - 1]; }
      }
    }
  }

  // ---------------------------------------------------------------- what cannot be printed

  /** The ticks of an instruction in the order of the stages. */
  function TicksOf(c: Config, r: Inst): seq<nat>
    requires Stages(c) <= r.ticks.Keys
  {
    var t := r.ticks;
    assert forall n :: n in Stages(c) ==> n in t;
    if c.storeCompletions then
      [t["fetch"], t["decode"], t["rename"], t["dispatch"], t["issue"], t["complete"], t["retire"], t["store"]]
    else
      [t["fetch"], t["decode"], t["rename"], t["dispatch"], t["issue"], t["complete"], t["retire"]]
  }

  /** The second case is that of the row layout. */
  lemma PrintableIff(c: Config, r: Inst, width: int, cycle: int)
    requires Stages(c) <= r.ticks.Keys && width > 0 && cycle > 0
    ensures c.Printable(r) <==> !PipeRow.Raises(PipeRow.Timeline(TicksOf(c, r), width, cycle))
  {
    var t := PipeRow.Timeline(TicksOf(c, r), width, cycle);
    PipeRow.RaisesIffNothing(t);
    if c.Printable(r) {
      var n :| n in Stages(c) && r.ticks[n] != 0;
      StageAt(c, r, n);
    } else {
      forall k | 0 <= k < |t.ticks| ensures t.ticks[k] == 0 { TickAt(c, r, k); }
    }
  }

  lemma StageAt(c: Config, r: Inst, n: string)
    requires Stages(c) <= r.ticks.Keys && n in Stages(c)
    ensures exists k :: 0 <= k < |TicksOf(c, r)| && TicksOf(c, r)[k] == r.ticks[n]
  {
    var k := if n == "fetch" then 0 else if n == "decode" then 1 else if n == "rename" then 2 else if n == "dispatch" then 3
             else if n == "issue" then 4 else if n == "complete" then 5 else if n == "retire" then 6 else 7;
    assert TicksOf(c, r)[k] == r.ticks[n];
  }

  /** The row layout gets the ticks of the stages in the order of their names. */
  lemma TickAt(c: Config, r: Inst, k: nat)
    requires Stages(c) <= r.ticks.Keys && k < |TicksOf(c, r)|
    ensures k < |PipeRow.STAGE_NAMES| && PipeRow.STAGE_NAMES[k] in Stages(c)
    ensures TicksOf(c, r)[k] == r.ticks[PipeRow.STAGE_NAMES[k]]
    ensures |TicksOf(c, r)| == if c.storeCompletions then 8 else 7
  {
    var n := if k == 0 then "fetch" else if k == 1 then "decode" else if k == 2 then "rename" else if k == 3 then "dispatch"
             else if k == 4 then "issue" else if k == 5 then "complete" else if k == 6 then "retire" else "store";
    assert n == PipeRow.STAGE_NAMES[k] && n in Stages(c);
  }

  /** Every record of a well-formed trace whose instructions are fetched after tick 0 can be printed. */
  lemma {:induction false} WellFormedPrintable(c: Config, ph: Phase, cur: Inst, lines: seq<Line>)
    requires WellFormed(ph, lines) && (ph.Lead? ==> lines == [] || lines[0].Fetch?)
    requires forall l :: l in lines && l.Fetch? ==> l.tick > 0
    requires ph.Open? ==> ph.seen <= cur.ticks.Keys && "fetch" in cur.ticks && cur.ticks["fetch"] > 0
    ensures All(Records(c, cur, lines), c.Printable)
    decreases |lines|
  {
    if lines != [] {
      var next := Apply(c, cur, lines[0]);
      assert lines[0] in lines;
      WellFormedPrintable(c, NextPhase(ph, lines[0]), next, lines[1..]);
      if lines[0].Retire? && ph.Open? { assert c.Printable(next) by { assert next.ticks["fetch"] != 0; } }
    }
  }

  /** A viewer run on such a trace prints everything it selects. */
  lemma RunPrintable(c: Config, lines: seq<Line>)
    requires WellFormed(Lead, lines) && forall l :: l in lines && l.Fetch? ==> l.tick > 0
    ensures All(Printed(c, lines), c.Printable)
  {
    PartsWhole(c, lines);
    SliceMembers(lines, Start(c, lines), Stop(c, lines));
    WholePrintable(c, lines[Start(c, lines)..Stop(c, lines)]);
  }

  lemma SliceMembers(lines: seq<Line>, a: nat, b: nat)
    requires a <= b <= |lines|
    ensures forall l :: l in lines[a..b] ==> l in lines
  {
  }

  lemma WholePrintable(c: Config, region: seq<Line>)
    requires Whole(region) && forall l :: l in region && l.Fetch? ==> l.tick > 0
    ensures All(Filter(Popped(c, [], Records(c, NO_INST, region)), c.Shown), c.Printable)
  {
    WellFormedPrintable(c, Lead, NO_INST, region);
    PrintedFromRecords(c, Records(c, NO_INST, region));
  }

  lemma PrintedFromRecords(c: Config, recs: seq<Inst>)
    requires All(recs, c.Printable)
    ensures All(Filter(Popped(c, [], recs), c.Shown), c.Printable)
  {
    PoppedIsPermutation(c, [], recs);
    assert [] + recs == recs;
    var popped := Popped(c, [], recs);
    FilterMembers(popped, c.Shown);
    forall r | r in popped ensures r in recs { assert r in multiset(popped); }
  }

  // ---------------------------------------------------------------- the viewer

  /** The global print queue, and the instructions written to the output so far. */
  class Viewer {
    var queue: seq<Inst>
    var printed: seq<Inst>

    constructor ()
      ensures queue == [] && printed == []
    {
      queue, printed := [], [];
    }

    /** Pops one instruction, and prints it if it is selected; `ok` is false when that raises, which ends the run. */
    method PrintOne(c: Config) returns (ok: bool)
      requires queue != []
      modifies this
      ensures queue == old(queue)[1..]
      ensures Emits([old(queue)[0]], c.Shown, c.Printable, old(printed), printed, ok)
    {
      var item := queue[0];
      queue := queue[1..];
      EmitsOne(item, c.Shown, c.Printable, printed);
      if c.startSn > 0 && item.sn < c.startSn { return true; }
      if c.stopSn > 0 && item.sn > c.stopSn { return true; }
      if c.startTick > 0 && TickOf(item, "fetch") < c.startTick { return true; }
      if c.stopTick > 0 && TickOf(item, "fetch") > c.stopTick { return true; }
      if c.committedOnly && TickOf(item, "retire") == 0 { return true; }
      if !c.Printable(item) { return false; }
      printed := printed + [item];
      return true;
    }

    method PrintInsts(c: Config, lower: nat) returns (ok: bool)
      modifies this
      ensures Emits(Drain(old(queue), lower).0, c.Shown, c.Printable, old(printed), printed, ok)
      ensures ok ==> queue == Drain(old(queue), lower).1
    {
      ghost var s, p, all := Sort(queue, Seq), printed, Drain(queue, lower).0;
      queue := Sort(queue, Seq);
      ghost var n := 0;
      ok := true;
      assert s[..0] == [];
      while |queue| > lower
        invariant ok && 0 <= n <= |all| && queue == s[n..] && Emits(s[..n], c.Shown, c.Printable, p, printed, true)
        decreases |queue|
      {
        ghost var before := printed;
        ok := PrintOne(c);
        EmitsMore(s[..n], [s[n]], c.Shown, c.Printable, p, before, printed, ok);
        assert s[..n + 1] == s[..n] + [s[n]];
        n := n + 1;
        if !ok {
          assert all == s[..n] + s[n..|all|];
          EmitsNoMore(s[..n], s[n..|all|], c.Shown, c.Printable, p, printed);
          return;
        }
      }
      assert s[..n] == all;
    }

    method QueueInst(c: Config, inst: Inst) returns (ok: bool)
      modifies this
      ensures Emits(Arrive(c, old(queue), inst).0, c.Shown, c.Printable, old(printed), printed, ok)
      ensures ok ==> queue == Arrive(c, old(queue), inst).1
    {
      queue := queue + [inst];
      ok := true;
      if |queue| > c.maxThreshold {
        ok := PrintInsts(c, c.minThreshold);
      }
    }

    /** One line of the region: the dictionary, and at a retire line the queue. */
    method ReadOne(c: Config, line: Line, cur: Inst, ghost popped: seq<Inst>, ghost p: seq<Inst>)
      returns (ok: bool, cur': Inst, ghost popped': seq<Inst>)
      requires Emits(popped, c.Shown, c.Printable, p, printed, true)
      modifies this
      ensures cur' == Apply(c, cur, line)
      ensures popped' == if line.Retire? then popped + Arrive(c, old(queue), cur').0 else popped
      ensures ok ==> queue == if line.Retire? then Arrive(c, old(queue), cur').1 else old(queue)
      ensures Emits(popped', c.Shown, c.Printable, p, printed, ok)
    {
      ok, cur', popped' := true, Apply(c, cur, line), popped;
      if line.Retire? {
        ghost var out, before := Arrive(c, queue, cur').0, printed;
        ok := QueueInst(c, cur');
        EmitsMore(popped, out, c.Shown, c.Printable, p, before, printed, ok);
        popped' := popped + out;
      }
    }

    /** The main loop, from the first fetch line of the region to the line that ends it. */
    method ReadRegion(c: Config, trace: seq<Line>, st: nat) returns (ok: bool)
      requires st <= |trace| && queue == []
      modifies this
      ensures var f := Feed(c, [], Records(c, NO_INST, trace[st..FirstPast(c, trace, st)]));
        Emits(f.0, c.Shown, c.Printable, old(printed), printed, ok) && (ok ==> queue == f.1)
    {
      var i, cur := st, NO_INST;
      ghost var popped: seq<Inst>, p := [], printed;
      ok := true;
      assert trace[st..i] == [];
      while i < |trace|
        invariant ok && st <= i <= |trace| && FirstPast(c, trace, i) == FirstPast(c, trace, st)
        invariant RegionRead(c, trace[st..i], cur, popped, queue) && Emits(popped, c.Shown, c.Printable, p, printed, true)
      {
        if trace[i].Fetch? && c.Past(trace[i]) { break; }
        ReadNext(c, trace, st, i, cur, popped, queue);
        ok, cur, popped := ReadOne(c, trace[i], cur, popped, p);
        i := i + 1;
        if !ok {
          RegionRaises(c, trace, st, i, popped, p, printed);
          return;
        }
      }
    }

    /** A whole run: what is written, and whether it got to the end. */
    method ProcessTrace(c: Config, trace: seq<Line>) returns (ok: bool)
      requires c.Valid() && queue == []
      modifies this
      ensures ok <==> All(Printed(c, trace), c.Printable)
      ensures ok ==> queue == []
      ensures printed == old(printed) + TakeWhile(Printed(c, trace), c.Printable)
    {
      var i := FindStart(c, trace);
      if i == |trace| {
        NothingRead(c, trace);
        return true;
      }
      ghost var f := Feed(c, [], Records(c, NO_INST, trace[i..FirstPast(c, trace, i)]));
      FinalFlush(f.1);
      ok := ReadRegion(c, trace, i);
      if !ok {
        EmitsNoMore(f.0, Sort(f.1, Seq), c.Shown, c.Printable, old(printed), printed);
        return;
      }
      ghost var before := printed;
      ok := PrintInsts(c, 0);
      EmitsMore(f.0, Sort(f.1, Seq), c.Shown, c.Printable, old(printed), before, printed, ok);
    }
  }

  lemma {:induction false} FeedAppend(c: Config, queue: seq<Inst>, a: seq<Inst>, b: seq<Inst>)
    ensures Feed(c, queue, a + b).0 == Feed(c, queue, a).0 + Feed(c, Feed(c, queue, a).1, b).0
    decreases |a|
  {
    if a == [] {
      assert a + b == b;
    } else {
      assert (a + b)[0] == a[0] && (a + b)[1..] == a[1..] + b;
      FeedAppend(c, Arrive(c, queue, a[0]).1, a[1..], b);
    }
  }

  /** A run that raised inside the region has written what it would have written of the whole. */
  lemma RegionRaises(c: Config, trace: seq<Line>, st: nat, i: nat, popped: seq<Inst>, p: seq<Inst>, q: seq<Inst>)
    requires st <= |trace| && st <= i <= FirstPast(c, trace, st)
    requires Feed(c, [], Records(c, NO_INST, trace[st..i])).0 == popped && Emits(popped, c.Shown, c.Printable, p, q, false)
    ensures Emits(Feed(c, [], Records(c, NO_INST, trace[st..FirstPast(c, trace, st)])).0, c.Shown, c.Printable, p, q, false)
  {
    var sp := FirstPast(c, trace, st);
    var a, b := trace[st..i], trace[i..sp];
    assert trace[st..sp] == a + b;
    RecordsAppend(c, NO_INST, a, b);
    var recs, more := Records(c, NO_INST, a), Records(c, After(c, NO_INST, a), b);
    FeedAppend(c, [], recs, more);
    EmitsNoMore(popped, Feed(c, Feed(c, [], recs).1, more).0, c.Shown, c.Printable, p, q);
  }

  lemma FinalFlush(queue: seq<Inst>)
    ensures Drain(queue, 0).1 == [] && Drain(queue, 0).0 == Sort(queue, Seq)
  {
    var d := Drain(queue, 0);
    assert d.0 + d.1 == d.0;
  }

  /** The loops that skip to the start of the window and then to the next fetch line. */
  method FindStart(c: Config, trace: seq<Line>) returns (i: nat)
    ensures i == Start(c, trace)
  {
    i := 0;
    if c.startTick != 0 {
      while i < |trace| && (trace[i].Other? || trace[i].tick < c.startTick)
        invariant i <= |trace| && FirstTick(trace, c.startTick, 0) == FirstTick(trace, c.startTick, i)
      {
        i := i + 1;
      }
    } else if c.startSn != 0 {
      while i < |trace| && !(trace[i].Fetch? && trace[i].sn >= c.startSn)
        invariant i <= |trace| && FirstSn(trace, c.startSn, 0) == FirstSn(trace, c.startSn, i)
      {
        i := i + 1;
      }
    }
    ghost var from := i;
    while i < |trace| && !trace[i].Fetch?
      invariant from <= i <= |trace| && FirstFetch(trace, from) == FirstFetch(trace, i)
    {
      i := i + 1;
    }
  }

  lemma NothingRead(c: Config, trace: seq<Line>)
    requires Start(c, trace) == |trace|
    ensures Printed(c, trace) == []
  {
    assert trace[|trace|..|trace|] == [];
  }

  lemma {:induction false} AfterAppend(c: Config, cur: Inst, a: seq<Line>, l: Line)
    ensures After(c, cur, a + [l]) == Apply(c, After(c, cur, a), l)
    decreases |a|
  {
    if a == [] {
      assert a + [l] == [l];
    } else {
      assert (a + [l])[1..] == a[1..] + [l] && (a + [l])[0] == a[0];
      AfterAppend(c, Apply(c, cur, a[0]), a[1..], l);
    }
  }

  lemma {:induction false} FeedLast(c: Config, queue: seq<Inst>, a: seq<Inst>, x: Inst)
    ensures var f := Feed(c, queue, a);
      var d := Arrive(c, f.1, x);
      Feed(c, queue, a + [x]) == (f.0 + d.0, d.1)
    decreases |a|
  {
    if a == [] {
      var d := Arrive(c, queue, x);
      assert a + [x] == [x] && [x][1..] == [] && d.0 + [] == d.0 == [] + d.0;
    } else {
      assert (a + [x])[1..] == a[1..] + [x] && (a + [x])[0] == a[0];
      var d := Arrive(c, queue, a[0]);
      var f := Feed(c, d.1, a[1..]);
      FeedLast(c, d.1, a[1..], x);
      assert d.0 + (f.0 + Arrive(c, f.1, x).0) == d.0 + f.0 + Arrive(c, f.1, x).0;
    }
  }

  /** The state of the main loop after `lines`. */
  ghost predicate RegionRead(c: Config, lines: seq<Line>, cur: Inst, popped: seq<Inst>, queue: seq<Inst>)
  {
    cur == After(c, NO_INST, lines) && Feed(c, [], Records(c, NO_INST, lines)) == (popped, queue)
  }

  /** One more line extends the dictionary, and a retire line the queue. */
  lemma ReadLine(c: Config, lines: seq<Line>, l: Line, cur: Inst, popped: seq<Inst>, queue: seq<Inst>)
    requires RegionRead(c, lines, cur, popped, queue)
    ensures var cur' := Apply(c, cur, l);
      if l.Retire?
      then RegionRead(c, lines + [l], cur', popped + Arrive(c, queue, cur').0, Arrive(c, queue, cur').1)
      else RegionRead(c, lines + [l], cur', popped, queue)
  {
    var recs := Records(c, NO_INST, lines);
    AfterAppend(c, NO_INST, lines, l);
    assert Records(c, NO_INST, lines + [l]) == if l.Retire? then recs + [Apply(c, cur, l)] else recs by {
      RecordsAppend(c, NO_INST, lines, [l]);
      assert [l][1..] == [];
    }
    FeedLast(c, [], recs, Apply(c, cur, l));
  }

  lemma ReadNext(c: Config, trace: seq<Line>, st: nat, i: nat, cur: Inst, popped: seq<Inst>, queue: seq<Inst>)
    requires st <= i < |trace| && RegionRead(c, trace[st..i], cur, popped, queue)
    ensures var l, cur' := trace[i], Apply(c, cur, trace[i]);
      if l.Retire?
      then RegionRead(c, trace[st..i + 1], cur', popped + Arrive(c, queue, cur').0, Arrive(c, queue, cur').1)
      else RegionRead(c, trace[st..i + 1], cur', popped, queue)
  {
    ReadLine(c, trace[st..i], trace[i], cur, popped, queue);
    assert trace[st..i + 1] == trace[st..i] + [trace[i]];
  }
}
