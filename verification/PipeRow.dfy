/**
  The row layout of `print_inst` in `o3-pipeview.py`.

  The events of an instruction are drawn on a timeline of `width` cells of `cycle`
  ticks.  A timeline that fits in one width is drawn on a single row that wraps
  around; a longer one is cut into consecutive rows.
*/
module PipeRow {
  import opened Common
  import opened DivMod
  import opened StableSort
  import opened Text

  const STAGE_NAMES: seq<string> := ["fetch", "decode", "rename", "dispatch", "issue", "complete", "retire", "store"]

  const LETTERS: string := "fdnpicrs"

  /** Alphabetical rank of the stage names, the second key of the event sort. */
  const NAME_RANK: seq<nat> := [3, 1, 5, 2, 4, 0, 6, 7]

  const DISPATCH := 3
  const ISSUE := 4
  const RETIRE := 6

  datatype Event = Event(offset: int, stage: nat, tick: int)

  function Key(e: Event): int { e.offset * 8 + if e.stage < 8 then NAME_RANK[e.stage] else 0 }

  /** The tick of each stage, 0 when the stage was not reached; the eighth is the store completion. */
  datatype Timeline = Timeline(ticks: seq<nat>, width: int, cycle: int)
  {
    predicate Valid() { 7 <= |ticks| <= 8 && width > 0 && cycle > 0 }

    function TimeWidth(): int { width * cycle }

    function Fetch(): int requires Valid() { ticks[0] }

    function Base(): int
      requires Valid()
    {
      TimeWidthPositive(this);
      Fetch() / TimeWidth() * TimeWidth()
    }

    function Last(): int
      requires Valid()
    {
      MaxOf(ticks)
    }

    predicate Compact()
      requires Valid()
    {
      Last() - Fetch() < TimeWidth()
    }

    function Rows(): int
      requires Valid()
    {
      TimeWidthPositive(this);
      if Compact() then 1 else (Last() - Base()) / TimeWidth() + 1
    }

    function RowStart(i: int): int requires Valid() { Base() + i * TimeWidth() }

    function RowEnd(i: int): int
      requires Valid()
    {
      RowStart(i) + TimeWidth() + if Rows() == 1 then Fetch() - Base() else 0
    }

    predicate InRow(i: int, tick: int)
      requires Valid()
    {
      tick != 0 && RowStart(i) <= tick < RowEnd(i)
    }

    function EventOf(stage: nat): Event
      requires Valid() && stage < |ticks|
    {
      TimeWidthPositive(this);
      Event(ticks[stage] % TimeWidth(), stage, ticks[stage])
    }

    /** The events of the first `n` stages that fall in row `i`, in stage order. */
    function Events(i: int, n: nat): seq<Event>
      requires Valid() && n <= |ticks|
    {
      if n == 0 then []
      else if InRow(i, ticks[n - 1]) then Events(i, n - 1) + [EventOf(n - 1)]
      else Events(i, n - 1)
    }

    /** A dispatch in the same tick as the issue is not drawn. */
    predicate Drawn(e: Event)
    {
      !(e.stage == DISPATCH && ISSUE < |ticks| && ticks[DISPATCH] == ticks[ISSUE])
    }

    function Cell(e: Event): int requires Valid() { e.offset / cycle }

    function Dot(): char requires Valid() { if ticks[RETIRE] == 0 then '=' else '.' }

    /** Draws sorted events from cell `pos` on; a repeated cell gets its letter without a dot. */
    function Draw(events: seq<Event>, pos: int): string
      requires Valid()
    {
      if events == [] then Fill(Dot(), width - pos)
      else if Drawn(events[0]) then
        Fill(Dot(), Cell(events[0]) - pos) + [LetterOf(events[0])] + Draw(events[1..], Cell(events[0]) + 1)
      else
        Draw(events[1..], pos)
    }

    function Row(i: int): string
      requires Valid()
    {
      Draw(Sort(Events(i, |ticks|), Key), 0)
    }
  }

  function LetterOf(e: Event): char { if e.stage < 8 then LETTERS[e.stage] else '?' }

  /** Python's `c * n`, which is empty when `n` is not positive. */
  function Fill(c: char, n: int): string { seq(if n > 0 then n else 0, _ => c) }

  function MaxOf(s: seq<int>): (m: int)
    ensures forall x :: x in s ==> x <= m
    ensures s != [] ==> m in s
  {
    if |s| <= 1 then (if s == [] then 0 else s[0])
    else
      var r := MaxOf(s[1..]);
      assert s == [s[0]] + s[1..];
      if s[0] > r then s[0] else r
  }

  lemma TimeWidthPositive(t: Timeline)
    requires t.Valid()
    ensures t.TimeWidth() > 0
  {
    MulStep(t.width, t.cycle);
    MulNonNegative(t.width - 1, t.cycle);
  }

  // ---------------------------------------------------------------- rows

  /** The row that shows a tick. */
  function RowOf(t: Timeline, tick: int): int
    requires t.Valid()
  {
    TimeWidthPositive(t);
    if t.Compact() then 0 else (tick - t.Base()) / t.TimeWidth()
  }

  lemma BaseBounds(t: Timeline)
    requires t.Valid()
    ensures t.Base() <= t.Fetch() < t.Base() + t.TimeWidth()
    ensures t.Rows() == 1 <==> t.Compact()
    ensures t.Rows() >= 1
  {
    TimeWidthPositive(t);
    FloorBounds(t.Fetch(), t.TimeWidth());
    if !t.Compact() { AtLeastOne(t.Last() - t.Base(), t.TimeWidth()); }
  }

  /** The consecutive windows of width `w` tile the ticks. */
  lemma WindowOf(base: int, w: int, i: int, x: int)
    requires w > 0
    ensures base + i * w <= x < base + i * w + w <==> i == (x - base) / w
  {
    var q, r := (x - base) / w, (x - base) % w;
    if base + i * w <= x < base + i * w + w {
      Quotient(x - base, w, i, x - base - i * w);
    }
  }

  /** The first row starts at the last multiple of the time width that is not after the fetch. */
  lemma BaseIsFloor(t: Timeline)
    requires t.Valid()
    ensures t.width * t.cycle > 0 && t.Base() % (t.width * t.cycle) == 0
    ensures t.Base() <= t.ticks[0] < t.Base() + t.width * t.cycle
  {
    BaseBounds(t);
    TimeWidthPositive(t);
    DivExact(t.Fetch() / t.TimeWidth(), t.TimeWidth());
  }

  /** Whether every stage lies before a tick. */
  predicate AllBefore(t: Timeline, tick: int) { forall s :: 0 <= s < |t.ticks| ==> t.ticks[s] < tick }

  /**
    There is one row exactly when all stages lie within one time width of the fetch, and
    otherwise the least number of rows from the base that holds all stages.
  */
  lemma RowCount(t: Timeline)
    requires t.Valid()
    ensures t.Rows() == 1 <==> AllBefore(t, t.ticks[0] + t.width * t.cycle)
    ensures t.Rows() != 1 ==>
      forall n :: n >= t.Rows() <==> AllBefore(t, t.Base() + n * (t.width * t.cycle))
  {
    BaseBounds(t);
    LastBefore(t, t.ticks[0] + t.width * t.cycle);
    if t.Rows() != 1 {
      forall n ensures n >= t.Rows() <==> AllBefore(t, t.Base() + n * (t.width * t.cycle)) {
        RowsEnough(t, n);
        LastBefore(t, t.Base() + n * (t.width * t.cycle));
      }
    }
  }

  lemma LastBefore(t: Timeline, tick: int)
    requires t.Valid()
    ensures t.Last() < tick <==> AllBefore(t, tick)
  {
    if t.Last() < tick {
      forall s | 0 <= s < |t.ticks| ensures t.ticks[s] < tick { assert t.ticks[s] in t.ticks; }
    } else {
      var s :| 0 <= s < |t.ticks| && t.ticks[s] == t.Last();
    }
  }

  lemma RowsEnough(t: Timeline, n: int)
    requires t.Valid() && !t.Compact()
    ensures n >= t.Rows() <==> t.Last() < t.Base() + n * t.TimeWidth()
  {
    TimeWidthPositive(t);
    var x, w := t.Last() - t.Base(), t.TimeWidth();
    FloorBounds(x, w);
    Multiples(n, x / w + 1, w);
    MulStep(x / w + 1, w);
    MulStep(x / w, w);
    Multiples(n, x / w, w);
  }

  lemma Multiples(a: int, b: int, w: int)
    requires w > 0
    ensures a >= b <==> a * w >= b * w
  {
    assert (a - b) * w == a * w - b * w;
    if a < b { NegativeFactor(a - b, w); }
  }

  /**
    Each event that was reached falls in the window of exactly one row, unless its tick lies
    before the first row: then it falls in none.
  */
  lemma EachEventInOneRow(t: Timeline, stage: nat, i: int)
    requires t.Valid() && stage < |t.ticks| && t.ticks[stage] != 0 && 0 <= i < t.Rows()
    ensures var x := t.ticks[stage];
      if t.Base() <= x
      then 0 <= RowOf(t, x) < t.Rows() && (t.InRow(i, x) <==> i == RowOf(t, x))
      else !t.InRow(i, x)
  {
    TimeWidthPositive(t);
    BaseBounds(t);
    var x, w := t.ticks[stage], t.TimeWidth();
    assert x in t.ticks;
    MulNonNegative(i, w);
    if !t.Compact() && t.Base() <= x {
      WindowOf(t.Base(), w, i, x);
      DivMonotone(0, x - t.Base(), w);
      DivMonotone(x - t.Base(), t.Last() - t.Base(), w);
      DivExact(0, w);
    }
  }

  lemma {:induction false} EventsMembers(t: Timeline, i: int, n: nat, e: Event)
    requires t.Valid() && n <= |t.ticks|
    ensures e in t.Events(i, n) <==> e.stage < n && t.InRow(i, t.ticks[e.stage]) && e == t.EventOf(e.stage)
  {
    if n > 0 { EventsMembers(t, i, n - 1, e); }
  }

  /** The sorted row holds exactly the stages whose tick the row shows. */
  lemma RowEvents(t: Timeline, i: int, e: Event)
    requires t.Valid()
    ensures e in Sort(t.Events(i, |t.ticks|), Key) <==>
      e.stage < |t.ticks| && t.InRow(i, t.ticks[e.stage]) && e == t.EventOf(e.stage)
  {
    SortMembers(t.Events(i, |t.ticks|), Key);
    EventsMembers(t, i, |t.ticks|, e);
  }

  /** The ranks are those of the names in alphabetical order. */
  lemma RankOfName(a: nat, b: nat)
    requires a < 8 && b < 8
    ensures LexLess(STAGE_NAMES[a], STAGE_NAMES[b]) <==> NAME_RANK[a] < NAME_RANK[b]
  {
    var x, y := STAGE_NAMES[a], STAGE_NAMES[b];
    if a == b {
      LexTotal(x, x);
    } else if x[0] == y[0] {
      SameInitial(a, b);
    } else {
      assert x != [] && y != [];
    }
  }

  lemma SameInitial(a: nat, b: nat)
    requires a < 8 && b < 8 && a != b && STAGE_NAMES[a][0] == STAGE_NAMES[b][0]
    ensures LexLess(STAGE_NAMES[a], STAGE_NAMES[b]) <==> NAME_RANK[a] < NAME_RANK[b]
  {
    var x, y := STAGE_NAMES[a], STAGE_NAMES[b];
    assert x[1..][0] == x[1] && y[1..][0] == y[1];
    assert x[1..][1..][0] == x[2] && y[1..][1..][0] == y[2];
  }

  /** Events are drawn by their offset in the row, and at the same offset by the names of their stages. */
  lemma EventOrder(t: Timeline, i: int, a: nat, b: nat)
    requires t.Valid() && a < b < |Sort(t.Events(i, |t.ticks|), Key)|
    ensures var x, y := Sort(t.Events(i, |t.ticks|), Key)[a], Sort(t.Events(i, |t.ticks|), Key)[b];
      && x.stage < |t.ticks| && y.stage < |t.ticks|
      && x.offset == x.tick % (t.width * t.cycle) && x.tick == t.ticks[x.stage]
      && (x.offset < y.offset || (x.offset == y.offset && !LexLess(STAGE_NAMES[y.stage], STAGE_NAMES[x.stage])))
  {
    var events := Sort(t.Events(i, |t.ticks|), Key);
    var x, y := events[a], events[b];
    SortSorted(t.Events(i, |t.ticks|), Key);
    SortedAt(events, a, b);
    RowEvents(t, i, x);
    RowEvents(t, i, y);
    RankOfName(y.stage, x.stage);
  }

  lemma {:induction false} SortedAt(events: seq<Event>, a: nat, b: nat)
    requires Sorted(events, Key) && a < b < |events|
    ensures Key(events[a]) <= Key(events[b])
  {
    if a > 0 { SortedAt(events[1..], a - 1, b - 1); } else { assert events[b] == events[1..][b - 1]; }
  }

  /** What a cell says about the tick drawn in it: on a compact row it may have wrapped once. */
  lemma CellMeaning(t: Timeline, i: int, e: Event)
    requires t.Valid() && e in Sort(t.Events(i, |t.ticks|), Key)
    ensures var c := t.RowStart(i) + t.Cell(e) * t.cycle;
      && 0 <= t.Cell(e) < t.width
      && (c <= e.tick < c + t.cycle || (t.Compact() && c + t.TimeWidth() <= e.tick < c + t.TimeWidth() + t.cycle))
  {
    RowEvents(t, i, e);
    TimeWidthPositive(t);
    OffsetInRow(t, i, e.tick);
    CellBounds(e.offset, t.width, t.cycle);
  }

  lemma StartIsMultiple(t: Timeline, i: int)
    requires t.Valid() && t.TimeWidth() > 0
    ensures t.RowStart(i) == (t.Fetch() / t.TimeWidth() + i) * t.TimeWidth()
  {
    var q, w := t.Fetch() / t.TimeWidth(), t.TimeWidth();
    assert (q + i) * w == q * w + i * w;
  }

  lemma OffsetInRow(t: Timeline, i: int, x: int)
    requires t.Valid() && t.InRow(i, x)
    ensures t.TimeWidth() > 0
    ensures x % t.TimeWidth() == x - t.RowStart(i) ||
      (t.Compact() && x % t.TimeWidth() == x - t.RowStart(i) - t.TimeWidth())
  {
    TimeWidthPositive(t);
    BaseBounds(t);
    StartIsMultiple(t, i);
    Remainder(t.RowStart(i), t.TimeWidth(), t.Fetch() / t.TimeWidth() + i, x);
  }

  /** The remainder of a tick in a window of two widths that starts at a multiple of the width. */
  lemma Remainder(start: int, w: int, k: int, x: int)
    requires w > 0 && start == k * w && start <= x < start + 2 * w
    ensures x % w == if x < start + w then x - start else x - start - w
  {
    if x < start + w {
      Quotient(x, w, k, x - start);
    } else {
      MulStep(k + 1, w);
      Quotient(x, w, k + 1, x - start - w);
    }
  }

  lemma CellBounds(offset: int, width: int, cycle: int)
    requires width > 0 && cycle > 0 && 0 <= offset < width * cycle
    ensures 0 <= offset / cycle < width
    ensures offset / cycle * cycle <= offset < offset / cycle * cycle + cycle
  {
    var q := offset / cycle;
    DivMonotone(0, offset, cycle);
    DivExact(0, cycle);
    assert (q - width) * cycle == q * cycle - width * cycle;
    NegativeFactor(q - width, cycle);
  }

  // ---------------------------------------------------------------- drawing

  /** The distinct cells that events occupy. */
  ghost function Occupied(t: Timeline, events: seq<Event>): set<int>
    requires t.Valid()
  {
    set e | e in events :: t.Cell(e)
  }

  ghost predicate CellsOrdered(t: Timeline, events: seq<Event>)
    requires t.Valid()
  {
    events == [] || (
      && 0 <= t.Cell(events[0]) < t.width
      && (forall e :: e in events[1..] ==> t.Cell(events[0]) <= t.Cell(e))
      && CellsOrdered(t, events[1..]))
  }

  lemma {:induction false} DrawShown(t: Timeline, events: seq<Event>, pos: int)
    requires t.Valid()
    ensures t.Draw(events, pos) == t.Draw(Filter(events, t.Drawn), pos)
    decreases |events|
  {
    if events != [] {
      if t.Drawn(events[0]) {
        DrawShown(t, events[1..], t.Cell(events[0]) + 1);
        var s := Filter(events, t.Drawn);
        assert s[0] == events[0] && s[1..] == Filter(events[1..], t.Drawn);
      } else {
        DrawShown(t, events[1..], pos);
      }
    }
  }

  lemma {:induction false} ShownOrdered(t: Timeline, events: seq<Event>)
    requires t.Valid() && CellsOrdered(t, events)
    ensures CellsOrdered(t, Filter(events, t.Drawn))
  {
    if events != [] {
      ShownOrdered(t, events[1..]);
      FilterMembers(events[1..], t.Drawn);
      if t.Drawn(events[0]) {
        var s := Filter(events, t.Drawn);
        assert s[0] == events[0] && s[1..] == Filter(events[1..], t.Drawn);
      }
    }
  }

  /** How many events start a new cell when drawing goes on at `pos`. */
  function NewCells(t: Timeline, events: seq<Event>, pos: int): nat
    requires t.Valid()
    decreases |events|
  {
    if events == [] then 0
    else (if t.Cell(events[0]) >= pos then 1 else 0) + NewCells(t, events[1..], t.Cell(events[0]) + 1)
  }

  lemma {:induction false} DrawLength(t: Timeline, events: seq<Event>, pos: int)
    requires t.Valid() && CellsOrdered(t, events)
    requires forall e :: e in events ==> t.Drawn(e)
    requires pos <= t.width && (events != [] ==> pos <= t.Cell(events[0]) + 1)
    ensures |t.Draw(events, pos)| == t.width - pos + |events| - NewCells(t, events, pos)
    decreases |events|
  {
    if events != [] {
      var c, rest := t.Cell(events[0]), events[1..];
      if rest != [] { assert rest[0] in rest; }
      DrawLength(t, rest, c + 1);
      assert t.Draw(events, pos) == Fill(t.Dot(), c - pos) + [LetterOf(events[0])] + t.Draw(rest, c + 1);
    }
  }

  lemma OccupiedCons(t: Timeline, events: seq<Event>)
    requires t.Valid() && events != []
    ensures Occupied(t, events) == {t.Cell(events[0])} + Occupied(t, events[1..])
  {
    assert events == [events[0]] + events[1..];
  }

  lemma {:induction false} NewCellsCount(t: Timeline, events: seq<Event>, pos: int)
    requires t.Valid() && CellsOrdered(t, events)
    requires events != [] ==> pos <= t.Cell(events[0]) + 1
    ensures NewCells(t, events, pos) + (if events != [] && pos > t.Cell(events[0]) then 1 else 0)
      == |Occupied(t, events)|
    decreases |events|
  {
    if events == [] {
      assert Occupied(t, events) == {};
    } else {
      var c, rest := t.Cell(events[0]), events[1..];
      OccupiedCons(t, events);
      if rest == [] {
        assert Occupied(t, rest) == {};
      } else {
        assert rest[0] in rest;
        NewCellsCount(t, rest, c + 1);
        if t.Cell(rest[0]) == c {
          assert Occupied(t, events) == Occupied(t, rest);
        } else {
          assert c !in Occupied(t, rest) by { AllAtLeast(t, rest); }
        }
      }
    }
  }

  lemma AllAtLeast(t: Timeline, events: seq<Event>)
    requires t.Valid() && events != [] && CellsOrdered(t, events)
    ensures forall x :: x in Occupied(t, events) ==> x >= t.Cell(events[0])
  {
    assert events == [events[0]] + events[1..];
  }

  lemma {:induction false} SortedCells(t: Timeline, events: seq<Event>)
    requires t.Valid() && Sorted(events, Key)
    requires forall e :: e in events ==> 0 <= t.Cell(e) < t.width
    ensures CellsOrdered(t, events)
  {
    if events != [] {
      SortedCells(t, events[1..]);
      assert events[0] in events;
      forall e | e in events[1..] ensures t.Cell(events[0]) <= t.Cell(e) {
        assert Key(events[0]) <= Key(e);
        DivMonotone(events[0].offset, e.offset, t.cycle);
      }
    }
  }

  lemma RowOrdered(t: Timeline, i: int)
    requires t.Valid()
    ensures CellsOrdered(t, Sort(t.Events(i, |t.ticks|), Key))
  {
    var events := Sort(t.Events(i, |t.ticks|), Key);
    SortSorted(t.Events(i, |t.ticks|), Key);
    forall e | e in events ensures 0 <= t.Cell(e) < t.width { CellMeaning(t, i, e); }
    SortedCells(t, events);
  }

  /** Every row is as long as the timeline is wide, plus the drawn events that share a cell. */
  lemma RowLength(t: Timeline, i: int)
    requires t.Valid()
    ensures var shown := Filter(Sort(t.Events(i, |t.ticks|), Key), t.Drawn);
      |t.Row(i)| == t.width + |shown| - |Occupied(t, shown)|
  {
    var events := Sort(t.Events(i, |t.ticks|), Key);
    RowOrdered(t, i);
    ShownOrdered(t, events);
    FilterMembers(events, t.Drawn);
    DrawShown(t, events, 0);
    DrawLength(t, Filter(events, t.Drawn), 0);
    NewCellsCount(t, Filter(events, t.Drawn), 0);
  }

  ghost predicate CellsDistinct(t: Timeline, events: seq<Event>)
    requires t.Valid()
  {
    forall a, b :: 0 <= a < b < |events| ==> t.Cell(events[a]) != t.Cell(events[b])
  }

  function DrawnAt(t: Timeline, events: seq<Event>, x: int): char
    requires t.Valid()
  {
    if events == [] then t.Dot()
    else if t.Cell(events[0]) == x then LetterOf(events[0])
    else DrawnAt(t, events[1..], x)
  }

  lemma {:induction false} DrawAt(t: Timeline, events: seq<Event>, pos: int, x: int)
    requires t.Valid() && CellsOrdered(t, events) && CellsDistinct(t, events)
    requires forall e :: e in events ==> t.Drawn(e)
    requires 0 <= pos <= t.width && (events != [] ==> pos <= t.Cell(events[0]))
    ensures |t.Draw(events, pos)| == t.width - pos
    ensures pos <= x < t.width ==> t.Draw(events, pos)[x - pos] == DrawnAt(t, events, x)
    decreases |events|
  {
    if events != [] {
      var c, rest := t.Cell(events[0]), events[1..];
      RestDistinct(t, events);
      DrawAt(t, rest, c + 1, x);
      if x < c { NothingBefore(t, rest, x); }
      HeadAt(t.Dot(), LetterOf(events[0]), t.Draw(rest, c + 1), c - pos, x - pos);
    }
  }

  lemma RestDistinct(t: Timeline, events: seq<Event>)
    requires t.Valid() && CellsOrdered(t, events) && CellsDistinct(t, events) && events != []
    ensures CellsDistinct(t, events[1..]) && (|events| > 1 ==> t.Cell(events[0]) + 1 <= t.Cell(events[1]))
  {
    var rest := events[1..];
    assert forall a :: 0 <= a < |rest| ==> rest[a] == events[a + 1];
    if rest != [] { assert rest[0] in rest; }
  }

  /** Dots, a letter, and the rest of a row. */
  lemma HeadAt(dot: char, letter: char, rest: string, n: nat, k: int)
    ensures var row := Fill(dot, n) + [letter] + rest;
      && |row| == n + 1 + |rest|
      && (0 <= k < n ==> row[k] == dot) && row[n] == letter && (n < k < |row| ==> row[k] == rest[k - n - 1])
  {
  }

  lemma {:induction false} NothingBefore(t: Timeline, events: seq<Event>, x: int)
    requires t.Valid() && forall e :: e in events ==> t.Cell(e) != x
    ensures DrawnAt(t, events, x) == t.Dot()
  {
    if events != [] {
      assert events[0] in events;
      NothingBefore(t, events[1..], x);
    }
  }

  lemma {:induction false} LetterInCell(t: Timeline, events: seq<Event>, e: Event)
    requires t.Valid() && CellsDistinct(t, events) && e in events
    ensures DrawnAt(t, events, t.Cell(e)) == LetterOf(e)
  {
    if events[0] != e {
      var k :| 0 <= k < |events| && events[k] == e;
      assert events[1..][k - 1] == e;
      LetterInCell(t, events[1..], e);
    }
  }

  /** Without shared cells a row is exactly `width` long and shows each letter in its own cell. */
  lemma RowPicture(t: Timeline, i: int, c: int)
    requires t.Valid() && CellsDistinct(t, Filter(Sort(t.Events(i, |t.ticks|), Key), t.Drawn)) && 0 <= c < t.width
    ensures |t.Row(i)| == t.width
    ensures forall s :: 0 <= s < |t.ticks| && DrawnIn(t, i, s, c) ==> t.Row(i)[c] == "fdnpicrs"[s]
    ensures (forall s :: 0 <= s < |t.ticks| ==> !DrawnIn(t, i, s, c)) ==>
      t.Row(i)[c] == if t.ticks[6] == 0 then '=' else '.'
  {
    var events := Sort(t.Events(i, |t.ticks|), Key);
    var shown := Filter(events, t.Drawn);
    FilterMembers(events, t.Drawn);
    assert t.Row(i) == t.Draw(shown, 0) && |t.Row(i)| == t.width && t.Row(i)[c] == DrawnAt(t, shown, c) by {
      RowOrdered(t, i);
      ShownOrdered(t, events);
      DrawShown(t, events, 0);
      DrawAt(t, shown, 0, c);
    }
    forall s | 0 <= s < |t.ticks| && DrawnIn(t, i, s, c) ensures t.Row(i)[c] == "fdnpicrs"[s] {
      RowEvents(t, i, t.EventOf(s));
      LetterInCell(t, shown, t.EventOf(s));
    }
    if forall s :: 0 <= s < |t.ticks| ==> !DrawnIn(t, i, s, c) {
      forall e | e in shown ensures t.Cell(e) != c {
        RowEvents(t, i, e);
        assert !DrawnIn(t, i, e.stage, c) && t.Drawn(e);
      }
      NothingBefore(t, shown, c);
    }
  }

  /**
    Whether row `i` shows the letter of a stage in cell `c`; a dispatch at the tick of the
    issue is not shown.
  */
  predicate DrawnIn(t: Timeline, i: int, stage: nat, c: int)
    requires t.Valid() && stage < |t.ticks|
  {
    TimeWidthPositive(t);
    && t.InRow(i, t.ticks[stage]) && t.ticks[stage] % (t.width * t.cycle) / t.cycle == c
    && (stage != 3 || t.ticks[3] != t.ticks[4])
  }

  // ---------------------------------------------------------------- print_inst

  /** The inner loop: dots up to the cell of each event, and its letter. */
  method DrawRow(t: Timeline, events: seq<Event>) returns (row: string)
    requires t.Valid()
    ensures row == t.Draw(events, 0)
  {
    var pos, k := 0, 0;
    row := "";
    while k < |events|
      invariant 0 <= k <= |events| && row + t.Draw(events[k..], pos) == t.Draw(events, 0)
    {
      var e := events[k];
      assert events[k..][0] == e && events[k..][1..] == events[k + 1..];
      if t.Drawn(e) {
        row := row + Fill(t.Dot(), t.Cell(e) - pos) + [LetterOf(e)];
        pos := t.Cell(e) + 1;
      }
      k := k + 1;
    }
    row := row + Fill(t.Dot(), t.width - pos);
  }

  /** Whether `print_inst` asks for the first event of a row that has none. */
  predicate Raises(t: Timeline)
    requires t.Valid()
  {
    t.Rows() == 1 && t.Events(0, |t.ticks|) == []
  }

  /** It does exactly when no stage was reached. */
  lemma RaisesIffNothing(t: Timeline)
    requires t.Valid()
    ensures Raises(t) <==> forall s :: 0 <= s < |t.ticks| ==> t.ticks[s] == 0
  {
    BaseBounds(t);
    if s :| 0 <= s < |t.ticks| && t.ticks[s] != 0 {
      if t.Compact() {
        var k := if t.Fetch() != 0 then 0 else s;
        FirstRowShows(t, k);
        EventsMembers(t, 0, |t.ticks|, t.EventOf(k));
      }
    } else {
      var events := t.Events(0, |t.ticks|);
      if events != [] { EventsMembers(t, 0, |t.ticks|, events[0]); }
    }
  }

  lemma FirstRowShows(t: Timeline, k: nat)
    requires t.Valid() && t.Compact() && k < |t.ticks| && t.ticks[k] != 0 && (k == 0 || t.Fetch() == 0)
    ensures t.InRow(0, t.ticks[k])
  {
    BaseBounds(t);
    assert t.ticks[k] in t.ticks && t.RowStart(0) == t.Base();
    if t.Fetch() == 0 { DivExact(0, t.TimeWidth()); }
  }

  /** The rows of one instruction, from the first to the last; `None` is the IndexError of a row without events. */
  method PrintInst(t: Timeline) returns (rows: Option<seq<string>>)
    requires t.Valid()
    ensures rows.None? <==> Raises(t)
    ensures rows.Some? ==> |rows.value| == t.Rows() && forall i :: 0 <= i < t.Rows() ==> rows.value[i] == t.Row(i)
    ensures rows.Some? ==> (|rows.value| == 1 <==> AllBefore(t, t.ticks[0] + t.width * t.cycle))
  {
    BaseBounds(t);
    RowCount(t);
    var done: seq<string> := [];
    for i := 0 to t.Rows()
      invariant |done| == i && forall k :: 0 <= k < i ==> done[k] == t.Row(k)
      invariant i > 0 ==> !Raises(t)
    {
      var events := [];
      for stage := 0 to |t.ticks|
        invariant events == t.Events(i, stage)
      {
        if t.InRow(i, t.ticks[stage]) { events := events + [t.EventOf(stage)]; }
      }
      if t.Rows() == 1 && Sort(events, Key) == [] { return None; }
      var row := DrawRow(t, Sort(events, Key));
      done := done + [row];
    }
    return Some(done);
  }
}
