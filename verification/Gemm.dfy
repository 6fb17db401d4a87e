/**
  The multi-threaded matrix product of `gemm_pthread.cpp`.

  `main` fills `thread_ids`, creates one worker per block of rows and joins them.
  Every worker reads its block number through the address it was given, and
  accumulates each cell of its rows in a private `temp` before one store into the
  shared `C`.  The threads are modelled as a step relation with one step per access
  to shared memory, so a schedule is any sequence of actors that are enabled when
  they move.

  `float` is a type parameter with arbitrary `add` and `mul`: no law of arithmetic
  is used, only the order of the additions.
*/
module Gemm {
  import opened DivMod

  /** The sizes, the inputs and the arithmetic of one execution. */
  datatype Params<!F> = Params(
    I: nat, J: nat, K: nat, threads: nat, A: seq<seq<F>>, B: seq<seq<F>>,
    zero: F, add: (F, F) -> F, mul: (F, F) -> F)
  {
    ghost predicate Valid() {
      && threads > 0
      && |A| == I && (forall i :: 0 <= i < I ==> |A[i]| == K)
      && |B| == J && (forall j :: 0 <= j < J ==> |B[j]| == K)
    }

    /** First row of block `b`: the C expression `b * I/num_threads`. */
    function Lo(b: int): int
      requires threads > 0
    {
      b * I / threads
    }

    function Hi(b: int): int
      requires threads > 0
    {
      Lo(b) + I / threads
    }

    predicate Cell(i: int, j: int) { 0 <= i < I && 0 <= j < J }

    /** The first `k` products of cell (i, j), added from left to right. */
    function Dot(i: int, j: int, k: nat): F
      requires Valid() && Cell(i, j) && k <= K
    {
      if k == 0 then zero else add(Dot(i, j, k - 1), mul(A[i][k - 1], B[j][k - 1]))
    }

    ghost predicate InBlock(b: nat, i: int)
      requires Valid()
    {
      b < threads && Lo(b) <= i < Hi(b)
    }

    ghost predicate Covered(i: int)
      requires Valid()
    {
      exists b: nat :: InBlock(b, i)
    }
  }

  // ---------------------------------------------------------------- row partition

  /** A block ends no later than the next one starts. */
  lemma BlockStep<F>(p: Params<F>, b: nat)
    requires p.Valid()
    ensures p.Hi(b) <= p.Lo(b + 1)
  {
    DivAdd(b * p.I, p.I, p.threads);
    assert (b + 1) * p.I == b * p.I + p.I;
  }

  lemma {:induction false} BlockOrder<F>(p: Params<F>, b: nat, c: nat)
    requires p.Valid() && b < c
    ensures p.Hi(b) <= p.Lo(c)
    decreases c
  {
    BlockStep(p, c - 1);
    if b < c - 1 { BlockOrder(p, b, c - 1); }
  }

  lemma LoEnd<F>(p: Params<F>)
    requires p.Valid()
    ensures p.Lo(p.threads) == p.I
  {
    assert p.threads * p.I == p.I * p.threads;
    assert p.I * p.threads / p.threads == p.I by { DivExact(p.I, p.threads); }
  }

  lemma LoNonNegative<F>(p: Params<F>, b: nat)
    requires p.Valid()
    ensures 0 <= p.Lo(b) <= p.Hi(b)
  {
    DivAdd(0, b * p.I, p.threads);
    DivExact(0, p.threads);
  }

  lemma BlockBounds<F>(p: Params<F>, b: nat)
    requires p.Valid() && b < p.threads
    ensures 0 <= p.Lo(b) <= p.Hi(b) <= p.I
  {
    LoNonNegative(p, b);
    BlockOrder(p, b, p.threads);
    LoEnd(p);
  }

  /** For every I and thread count the row blocks are pairwise disjoint and in bounds. */
  lemma BlocksDisjoint<F>(p: Params<F>, b: nat, c: nat, i: int)
    requires p.Valid() && p.InBlock(b, i)
    ensures 0 <= i < p.I
    ensures p.InBlock(c, i) ==> b == c
  {
    BlockBounds(p, b);
    if b < c { BlockOrder(p, b, c); }
    if c < b { BlockOrder(p, c, b); }
  }

  lemma GapNotIn<F>(p: Params<F>, b: nat, c: nat)
    requires p.Valid() && p.Hi(b) < p.Lo(b + 1)
    ensures !p.InBlock(c, p.Hi(b))
  {
    if c < b {
      BlockOrder(p, c, b);
    } else if c > b + 1 {
      BlockOrder(p, b + 1, c);
    }
  }

  /** Where a gap follows block `b`, the row at the gap belongs to no block. */
  lemma GapUncovered<F>(p: Params<F>, b: nat)
    requires p.Valid() && p.Hi(b) < p.Lo(b + 1)
    ensures !p.Covered(p.Hi(b))
  {
    forall c: nat ensures !p.InBlock(c, p.Hi(b)) { GapNotIn(p, b, c); }
  }

  lemma LoBounds<F>(p: Params<F>, b: nat)
    requires p.Valid() && b <= p.threads
    ensures 0 <= p.Lo(b) <= p.I
  {
    if b < p.threads { BlockBounds(p, b); } else { LoEnd(p); }
  }

  /** Without gaps the blocks tile the rows below `Lo(b)`. */
  lemma {:induction false} NoGaps<F>(p: Params<F>, b: nat)
    requires p.Valid() && b <= p.threads
    requires forall c: nat :: c < b ==> p.Hi(c) == p.Lo(c + 1)
    ensures p.Lo(b) == b * (p.I / p.threads)
    ensures forall i :: 0 <= i < p.Lo(b) ==> p.Covered(i)
  {
    if b == 0 {
      assert p.Lo(0) == 0 by { DivExact(0, p.threads); }
    } else {
      NoGaps(p, b - 1);
      assert b * (p.I / p.threads) == (b - 1) * (p.I / p.threads) + p.I / p.threads;
      assert p.Hi(b - 1) == p.Lo(b);
      forall i | 0 <= i < p.Lo(b) ensures p.Covered(i) {
        if i >= p.Lo(b - 1) { assert p.InBlock(b - 1, i); }
      }
    }
  }

  lemma NoGapIfDivides<F>(p: Params<F>, b: nat)
    requires p.Valid() && p.I % p.threads == 0
    ensures p.Hi(b) == p.Lo(b + 1)
  {
    var q := p.I / p.threads;
    assert p.I == q * p.threads;
    assert b * p.I == (b * q) * p.threads;
    assert (b + 1) * p.I == b * p.I + p.I == (b * q + q) * p.threads;
    DivExact(b * q, p.threads);
    DivExact(b * q + q, p.threads);
  }

  /** The blocks cover every row exactly when the thread count divides I. */
  lemma CoverIffDivides<F>(p: Params<F>)
    requires p.Valid()
    ensures (forall i :: 0 <= i < p.I ==> p.Covered(i)) <==> p.I % p.threads == 0
  {
    LoEnd(p);
    forall b: nat | b < p.threads ensures p.Hi(b) <= p.Lo(b + 1) { BlockStep(p, b); }
    if b: nat :| b < p.threads && p.Hi(b) < p.Lo(b + 1) {
      GapUncovered(p, b);
      LoNonNegative(p, b);
      LoBounds(p, b + 1);
      if p.I % p.threads == 0 { NoGapIfDivides(p, b); }
    } else {
      NoGaps(p, p.threads);
    }
  }

  // ---------------------------------------------------------------- the threads

  /** Where a worker is in `thread_gemm`, with the locals that are live there. */
  datatype Worker<F> =
    | NotCreated
    | Entry                                        // before `i` is initialised
    | RowTest(i: int)                              // before the test of the `i` loop
    | ColTest(i: int, j: int)                      // before the test of the `j` loop
    | DepthTest(i: int, j: int, k: int, temp: F)   // before the test of the `k` loop
    | Finished
    | Faulted                                      // accessed an array out of bounds

  datatype MainPc = Fill(i: nat) | Create(i: nat) | Join(i: nat) | Returned

  /** `C` maps each cell of the shared array to its value. */
  datatype State<F> = State(main: MainPc, ids: seq<int>, workers: seq<Worker<F>>, C: map<(int, int), F>)

  datatype Actor = Main | Thread(t: nat)

  ghost predicate Init<F(!new)>(p: Params<F>, s: State<F>)
    requires p.Valid()
  {
    && s.main == Fill(0)
    && |s.ids| == p.threads
    && |s.workers| == p.threads
    && (forall t :: 0 <= t < p.threads ==> s.workers[t] == NotCreated)
    && (forall i, j :: (i, j) in s.C <==> p.Cell(i, j))
    && (forall i, j :: p.Cell(i, j) ==> s.C[(i, j)] == p.zero)
  }

  /** One step of a worker whose argument address holds `blk`. */
  function WorkerStep<F>(p: Params<F>, blk: int, w: Worker<F>, C: map<(int, int), F>): (Worker<F>, map<(int, int), F>)
    requires p.Valid()
  {
    match w
    case Entry => (RowTest(p.Lo(blk)), C)
    case RowTest(i) => (if i < p.Hi(blk) then ColTest(i, 0) else Finished, C)
    case ColTest(i, j) => (if j < p.J then DepthTest(i, j, 0, p.zero) else RowTest(i + 1), C)
    case DepthTest(i, j, k, temp) =>
      if !p.Cell(i, j) || k < 0 then (Faulted, C)
      else if k < p.K then (DepthTest(i, j, k + 1, p.add(temp, p.mul(p.A[i][k], p.B[j][k]))), C)
      else (ColTest(i, j + 1), C[(i, j) := temp])
    case _ => (w, C)
  }

  function MainStep<F>(p: Params<F>, s: State<F>): State<F>
    requires |s.ids| == |s.workers| == p.threads
  {
    match s.main
    case Fill(i) =>
      if i < p.threads then s.(main := Fill(i + 1), ids := s.ids[i := i]) else s.(main := Create(0))
    case Create(i) =>
      if i < p.threads then s.(main := Create(i + 1), workers := s.workers[i := Entry]) else s.(main := Join(0))
    case Join(i) =>
      if i < p.threads then s.(main := Join(i + 1)) else s.(main := Returned)
    case Returned => s
  }

  /** `pthread_join` blocks until its thread has finished. */
  predicate Enabled<F(==)>(p: Params<F>, s: State<F>, a: Actor)
    requires |s.ids| == |s.workers| == p.threads
  {
    match a
    case Main => s.main != Returned && (s.main.Join? && s.main.i < p.threads ==> s.workers[s.main.i].Finished?)
    case Thread(t) => t < p.threads && !(s.workers[t].NotCreated? || s.workers[t].Finished? || s.workers[t].Faulted?)
  }

  function Step<F>(p: Params<F>, s: State<F>, a: Actor): (s': State<F>)
    requires p.Valid() && |s.ids| == |s.workers| == p.threads
    requires a.Thread? ==> a.t < p.threads
    ensures |s'.ids| == |s'.workers| == p.threads
  {
    match a
    case Main => MainStep(p, s)
    case Thread(t) =>
      var (w, C) := WorkerStep(p, s.ids[t], s.workers[t], s.C);
      s.(workers := s.workers[t := w], C := C)
  }

  /** Whether `sched` is a schedule of `s`: each actor is enabled when it moves. */
  ghost predicate Feasible<F>(p: Params<F>, s: State<F>, sched: seq<Actor>)
    requires p.Valid() && |s.ids| == |s.workers| == p.threads
    decreases |sched|
  {
    sched == [] || (Enabled(p, s, sched[0]) && Feasible(p, Step(p, s, sched[0]), sched[1..]))
  }

  ghost function Exec<F>(p: Params<F>, s: State<F>, sched: seq<Actor>): (s': State<F>)
    requires p.Valid() && |s.ids| == |s.workers| == p.threads && Feasible(p, s, sched)
    ensures |s'.ids| == |s'.workers| == p.threads
    decreases |sched|
  {
    if sched == [] then s else Exec(p, Step(p, s, sched[0]), sched[1..])
  }

  // ---------------------------------------------------------------- invariant

  ghost predicate MainOk<F>(p: Params<F>, s: State<F>)
    requires |s.ids| == |s.workers| == p.threads
  {
    match s.main
    case Fill(i) =>
      && i <= p.threads
      && (forall t :: 0 <= t < i ==> s.ids[t] == t)
      && (forall t :: 0 <= t < p.threads ==> s.workers[t].NotCreated?)
    case Create(i) =>
      && i <= p.threads
      && (forall t :: 0 <= t < p.threads ==> s.ids[t] == t)
      && (forall t :: 0 <= t < p.threads ==> (s.workers[t].NotCreated? <==> i <= t))
    case Join(i) =>
      && i <= p.threads
      && (forall t :: 0 <= t < p.threads ==> s.ids[t] == t && !s.workers[t].NotCreated?)
      && (forall t :: 0 <= t < i ==> s.workers[t].Finished?)
    case Returned =>
      forall t :: 0 <= t < p.threads ==> s.ids[t] == t && s.workers[t].Finished?
  }

  /** The locals of worker `t` stay inside its block and `temp` is a prefix of the sum. */
  ghost predicate WorkerOk<F>(p: Params<F>, t: nat, w: Worker<F>)
    requires p.Valid()
  {
    match w
    case RowTest(i) => p.Lo(t) <= i <= p.Hi(t)
    case ColTest(i, j) => p.Lo(t) <= i < p.Hi(t) && 0 <= j <= p.J
    case DepthTest(i, j, k, temp) =>
      && p.Lo(t) <= i < p.Hi(t)
      && p.Cell(i, j)
      && 0 <= k <= p.K && temp == p.Dot(i, j, k)
    case Faulted => false
    case _ => true
  }

  /** Whether a worker has stored the cell (i, j) of its block. */
  predicate Stored<F>(w: Worker<F>, i: int, j: int)
  {
    match w
    case RowTest(r) => i < r
    case ColTest(r, c) => i < r || (i == r && j < c)
    case DepthTest(r, c, _, _) => i < r || (i == r && j < c)
    case Finished => true
    case _ => false
  }

  /** Every cell holds its full sum once its owner stored it, and 0 until then. */
  ghost predicate CellOk<F>(p: Params<F>, s: State<F>, i: int, j: int)
    requires p.Valid() && |s.workers| == p.threads && p.Cell(i, j) && (i, j) in s.C
  {
    && (forall t: nat :: p.InBlock(t, i) ==>
         s.C[(i, j)] == if Stored(s.workers[t], i, j) then p.Dot(i, j, p.K) else p.zero)
    && (!p.Covered(i) ==> s.C[(i, j)] == p.zero)
  }

  ghost predicate Inv<F(!new)>(p: Params<F>, s: State<F>)
    requires p.Valid()
  {
    && |s.ids| == |s.workers| == p.threads
    && MainOk(p, s)
    && (forall t :: 0 <= t < p.threads ==> WorkerOk(p, t, s.workers[t]))
    && (forall i, j :: (i, j) in s.C <==> p.Cell(i, j))
    && (forall i, j :: p.Cell(i, j) ==> CellOk(p, s, i, j))
  }

  lemma InitInv<F(!new)>(p: Params<F>, s: State<F>)
    requires p.Valid() && Init(p, s)
    ensures Inv(p, s)
  {
  }

  lemma MainStepInv<F(!new)>(p: Params<F>, s: State<F>)
    requires p.Valid() && Inv(p, s) && Enabled(p, s, Main)
    ensures Inv(p, MainStep(p, s))
  {
    var s' := MainStep(p, s);
    forall i, j | p.Cell(i, j) ensures CellOk(p, s', i, j) {
      assert CellOk(p, s, i, j);
      forall t: nat | p.InBlock(t, i)
        ensures Stored(s'.workers[t], i, j) == Stored(s.workers[t], i, j)
      {
      }
    }
  }

  /** What one step of worker `t` does to its own locals and to the cells it owns. */
  lemma LocalStep<F>(p: Params<F>, t: nat, w: Worker<F>, C: map<(int, int), F>)
    requires p.Valid() && t < p.threads && WorkerOk(p, t, w)
    requires !w.NotCreated? && !w.Finished?
    ensures var (w', C') := WorkerStep(p, t, w, C);
      && WorkerOk(p, t, w') && !w'.NotCreated?
      && (forall i, j :: p.InBlock(t, i) && p.Cell(i, j) ==>
           if w.DepthTest? && w.k == p.K && (i, j) == (w.i, w.j)
           then Stored(w', i, j) else Stored(w', i, j) == Stored(w, i, j))
      && (C' == C || (w.DepthTest? && w.k == p.K && C' == C[(w.i, w.j) := p.Dot(w.i, w.j, p.K)]))
      && (w.DepthTest? && w.k == p.K ==> C' == C[(w.i, w.j) := p.Dot(w.i, w.j, p.K)])
  {
    BlockBounds(p, t);
  }

  lemma ThreadStepInv<F(!new)>(p: Params<F>, s: State<F>, t: nat)
    requires p.Valid() && Inv(p, s) && Enabled(p, s, Thread(t))
    ensures Inv(p, Step(p, s, Thread(t)))
  {
    var w := s.workers[t];
    var s' := Step(p, s, Thread(t));
    assert s.ids[t] == t;
    LocalStep(p, t, w, s.C);
    forall i, j | p.Cell(i, j) ensures (i, j) in s'.C && CellOk(p, s', i, j) {
      assert CellOk(p, s, i, j);
      forall u: nat | p.InBlock(u, i)
        ensures s'.C[(i, j)] == if Stored(s'.workers[u], i, j) then p.Dot(i, j, p.K) else p.zero
      {
        if w.DepthTest? && w.k == p.K { BlocksDisjoint(p, t, u, w.i); }
      }
      if !p.Covered(i) && w.DepthTest? { assert p.InBlock(t, w.i); }
    }
  }

  lemma StepInv<F(!new)>(p: Params<F>, s: State<F>, a: Actor)
    requires p.Valid() && Inv(p, s) && Enabled(p, s, a)
    ensures Inv(p, Step(p, s, a))
  {
    match a
    case Main => MainStepInv(p, s);
    case Thread(t) => ThreadStepInv(p, s, t);
  }

  /** The invariant holds in every state of every schedule. */
  lemma {:induction false} ExecInv<F(!new)>(p: Params<F>, s: State<F>, sched: seq<Actor>)
    requires p.Valid() && Inv(p, s) && Feasible(p, s, sched)
    ensures Inv(p, Exec(p, s, sched))
    decreases |sched|
  {
    if sched != [] {
      StepInv(p, s, sched[0]);
      ExecInv(p, Step(p, s, sched[0]), sched[1..]);
    }
  }

  // ---------------------------------------------------------------- main results

  /**
    Once every join has returned, whatever the schedule was, each cell of a row that
    some block covers is the left-to-right sum, and every other cell is still 0.
  */
  lemma ResultOfEverySchedule<F(!new)>(p: Params<F>, s: State<F>, sched: seq<Actor>)
    requires p.Valid() && Init(p, s) && Feasible(p, s, sched) && Exec(p, s, sched).main == Returned
    ensures var C := Exec(p, s, sched).C;
      && (forall i, j :: (i, j) in C <==> p.Cell(i, j))
      && (forall i, j :: p.Cell(i, j) ==>
           C[(i, j)] == if p.Covered(i) then p.Dot(i, j, p.K) else p.zero)
  {
    InitInv(p, s);
    ExecInv(p, s, sched);
    var s' := Exec(p, s, sched);
    forall i, j | p.Cell(i, j) && p.Covered(i) ensures s'.C[(i, j)] == p.Dot(i, j, p.K) {
      assert CellOk(p, s', i, j);
      var t: nat :| p.InBlock(t, i);
    }
    forall i, j | p.Cell(i, j) && !p.Covered(i) ensures s'.C[(i, j)] == p.zero {
      assert CellOk(p, s', i, j);
    }
  }

  /** With a thread count that divides I the result is the full matrix product. */
  lemma ProductWhenDivides<F(!new)>(p: Params<F>, s: State<F>, sched: seq<Actor>)
    requires p.Valid() && Init(p, s) && Feasible(p, s, sched) && Exec(p, s, sched).main == Returned
    requires p.I % p.threads == 0
    ensures forall i, j :: p.Cell(i, j) ==>
      (i, j) in Exec(p, s, sched).C && Exec(p, s, sched).C[(i, j)] == p.Dot(i, j, p.K)
  {
    ResultOfEverySchedule(p, s, sched);
    CoverIffDivides(p);
  }

  /** The cell a worker stores in its next step, if that step is a store. */
  function NextStore<F>(p: Params<F>, w: Worker<F>): set<(int, int)>
  {
    if w.DepthTest? && w.k == p.K then {(w.i, w.j)} else {}
  }

  /**
    In every reachable state: no worker has accessed an array out of bounds, no two
    workers are about to store the same cell, and while any worker still has to read
    its block number `main` neither writes `thread_ids` nor has returned.
  */
  lemma NoConflict<F(!new)>(p: Params<F>, s: State<F>, sched: seq<Actor>, t: nat, u: nat)
    requires p.Valid() && Init(p, s) && Feasible(p, s, sched) && t < p.threads && u < p.threads
    ensures var s' := Exec(p, s, sched);
      && |s'.workers| == p.threads
      && !s'.workers[t].Faulted?
      && (t != u ==> NextStore(p, s'.workers[t]) !! NextStore(p, s'.workers[u]))
      && (Enabled(p, s', Thread(t)) ==> !s'.main.Fill? && !s'.main.Returned?)
  {
    InitInv(p, s);
    ExecInv(p, s, sched);
    var s' := Exec(p, s, sched);
    var w, x := s'.workers[t], s'.workers[u];
    assert WorkerOk(p, t, w) && WorkerOk(p, u, x);
    if w.DepthTest? && x.DepthTest? && w.i == x.i {
      assert p.InBlock(t, w.i) && p.InBlock(u, w.i);
      BlocksDisjoint(p, t, u, w.i);
    }
  }

  /** In every reachable state the next step of a worker stores its sum in that cell and changes no other. */
  lemma StoresOneCell<F(!new)>(p: Params<F>, s: State<F>, sched: seq<Actor>, t: nat, c: (int, int))
    requires p.Valid() && Init(p, s) && Feasible(p, s, sched) && t < p.threads
    ensures var s' := Exec(p, s, sched);
      var next := Step(p, s', Thread(t));
      if c in NextStore(p, s'.workers[t]) then p.Cell(c.0, c.1) && c in next.C && next.C[c] == p.Dot(c.0, c.1, p.K)
      else (c in next.C <==> c in s'.C) && (c in s'.C ==> next.C[c] == s'.C[c])
  {
    InitInv(p, s);
    ExecInv(p, s, sched);
    assert WorkerOk(p, t, Exec(p, s, sched).workers[t]);
  }

  // ---------------------------------------------------------------- termination

  /** Steps of one worker from the test of row `i` to its end. */
  function RowWork<F>(p: Params<F>, t: nat, i: int): int
    requires p.Valid()
  {
    (p.Hi(t) - i) * (p.J * (p.K + 2) + 2) + 1
  }

  function WorkerWork<F>(p: Params<F>, t: nat, w: Worker<F>): int
    requires p.Valid()
  {
    match w
    case RowTest(i) => RowWork(p, t, i)
    case ColTest(i, j) => (p.J - j) * (p.K + 2) + 1 + RowWork(p, t, i + 1)
    case DepthTest(i, j, k, _) => (p.K - k) + 1 + (p.J - j - 1) * (p.K + 2) + 1 + RowWork(p, t, i + 1)
    case Finished => 0
    case Faulted => 0
    case _ => 1 + RowWork(p, t, p.Lo(t))
  }

  function MainWork<F>(p: Params<F>, m: MainPc): int
  {
    match m
    case Fill(i) => p.threads - i + 1 + p.threads + 1 + p.threads + 1
    case Create(i) => p.threads - i + 1 + p.threads + 1
    case Join(i) => p.threads - i + 1
    case Returned => 0
  }

  function WorkersWork<F>(p: Params<F>, ws: seq<Worker<F>>, n: nat): int
    requires p.Valid() && n <= |ws|
  {
    if n == 0 then 0 else WorkersWork(p, ws, n - 1) + WorkerWork(p, n - 1, ws[n - 1])
  }

  /** The number of steps that remain. */
  function Work<F>(p: Params<F>, s: State<F>): int
    requires p.Valid()
  {
    MainWork(p, s.main) + WorkersWork(p, s.workers, |s.workers|)
  }

  lemma {:induction false} WorkersWorkUpdate<F>(p: Params<F>, ws: seq<Worker<F>>, t: nat, w: Worker<F>, n: nat)
    requires p.Valid() && t < |ws| && n <= |ws|
    ensures WorkersWork(p, ws[t := w], n) ==
            WorkersWork(p, ws, n) + if t < n then WorkerWork(p, t, w) - WorkerWork(p, t, ws[t]) else 0
  {
    if n > 0 { WorkersWorkUpdate(p, ws, t, w, n - 1); }
  }

  lemma WorkerStepWork<F>(p: Params<F>, t: nat, w: Worker<F>, C: map<(int, int), F>)
    requires p.Valid() && WorkerOk(p, t, w) && t < p.threads
    requires !w.NotCreated? && !w.Finished?
    ensures WorkerWork(p, t, WorkerStep(p, t, w, C).0) == WorkerWork(p, t, w) - 1
  {
    match w
    case RowTest(i) => MulStep(p.Hi(t) - i, p.J * (p.K + 2) + 2);
    case ColTest(i, j) => MulStep(p.J - j, p.K + 2);
    case _ =>
  }

  lemma StepWork<F(!new)>(p: Params<F>, s: State<F>, a: Actor)
    requires p.Valid() && Inv(p, s) && Enabled(p, s, a)
    ensures Work(p, Step(p, s, a)) == Work(p, s) - 1
  {
    match a
    case Main =>
      if s.main.Create? && s.main.i < p.threads {
        WorkersWorkUpdate(p, s.workers, s.main.i, Entry, p.threads);
      }
    case Thread(t) =>
      assert s.ids[t] == t;
      WorkerStepWork(p, t, s.workers[t], s.C);
      WorkersWorkUpdate(p, s.workers, t, WorkerStep(p, t, s.workers[t], s.C).0, p.threads);
  }

  lemma {:induction false} ExecWork<F(!new)>(p: Params<F>, s: State<F>, sched: seq<Actor>)
    requires p.Valid() && Inv(p, s) && Feasible(p, s, sched)
    ensures Work(p, Exec(p, s, sched)) == Work(p, s) - |sched|
    decreases |sched|
  {
    if sched != [] {
      StepWork(p, s, sched[0]);
      StepInv(p, s, sched[0]);
      ExecWork(p, Step(p, s, sched[0]), sched[1..]);
    }
  }

  lemma {:induction false} WorkersWorkFinished<F>(p: Params<F>, ws: seq<Worker<F>>, n: nat)
    requires p.Valid() && n <= |ws| && forall t :: 0 <= t < n ==> ws[t].Finished?
    ensures WorkersWork(p, ws, n) == 0
  {
    if n > 0 { WorkersWorkFinished(p, ws, n - 1); }
  }

  /** Until `main` returns some actor can move. */
  lemma NoDeadlock<F(!new)>(p: Params<F>, s: State<F>) returns (a: Actor)
    requires p.Valid() && Inv(p, s) && s.main != Returned
    ensures Enabled(p, s, a)
  {
    if s.main.Join? && s.main.i < p.threads && !s.workers[s.main.i].Finished? {
      assert WorkerOk(p, s.main.i, s.workers[s.main.i]);
      a := Thread(s.main.i);
    } else {
      a := Main;
    }
  }

  /**
    Every complete schedule has the same length, and every schedule that is not
    complete is shorter and can be continued: no choice of the scheduler delays
    the join for ever or blocks it.
  */
  lemma EveryScheduleTerminates<F(!new)>(p: Params<F>, s: State<F>, sched: seq<Actor>)
    requires p.Valid() && Init(p, s) && Feasible(p, s, sched)
    ensures Exec(p, s, sched).main == Returned <==> |sched| == Work(p, s)
    ensures |sched| <= Work(p, s)
    ensures |sched| < Work(p, s) ==> exists a :: Enabled(p, Exec(p, s, sched), a)
  {
    InitInv(p, s);
    ExecInv(p, s, sched);
    ExecWork(p, s, sched);
    var s' := Exec(p, s, sched);
    WorkNonNegative(p, s');
    if s'.main == Returned {
      WorkersWorkFinished(p, s'.workers, p.threads);
    } else {
      var a := NoDeadlock(p, s');
    }
  }

  lemma WorkNonNegative<F(!new)>(p: Params<F>, s: State<F>)
    requires p.Valid() && Inv(p, s)
    ensures Work(p, s) >= 0 && (s.main != Returned ==> Work(p, s) > 0)
  {
    WorkersNonNegative(p, s.workers, p.threads);
  }

  lemma {:induction false} WorkersNonNegative<F>(p: Params<F>, ws: seq<Worker<F>>, n: nat)
    requires p.Valid() && n <= |ws| && forall t :: 0 <= t < n ==> WorkerOk(p, t, ws[t])
    ensures WorkersWork(p, ws, n) >= 0
  {
    if n > 0 {
      WorkersNonNegative(p, ws, n - 1);
      WorkerNonNegative(p, n - 1, ws[n - 1]);
    }
  }

  lemma WorkerNonNegative<F>(p: Params<F>, t: nat, w: Worker<F>)
    requires p.Valid() && WorkerOk(p, t, w)
    ensures WorkerWork(p, t, w) >= 0
  {
    match w
    case RowTest(i) => RowWorkPositive(p, t, i);
    case ColTest(i, j) => RowWorkPositive(p, t, i + 1); MulNonNegative(p.J - j, p.K + 2);
    case DepthTest(i, j, k, _) => RowWorkPositive(p, t, i + 1); MulNonNegative(p.J - j - 1, p.K + 2);
    case Finished =>
    case Faulted =>
    case _ => LoNonNegative(p, t); RowWorkPositive(p, t, p.Lo(t));
  }

  lemma RowWorkPositive<F>(p: Params<F>, t: nat, i: int)
    requires p.Valid() && i <= p.Hi(t)
    ensures RowWork(p, t, i) >= 1
  {
    MulNonNegative(p.J, p.K + 2);
    MulNonNegative(p.Hi(t) - i, p.J * (p.K + 2) + 2);
  }

  /** From every state that a schedule can reach, some schedule leads to the end. */
  lemma {:induction false} CanComplete<F(!new)>(p: Params<F>, s: State<F>) returns (sched: seq<Actor>)
    requires p.Valid() && Inv(p, s)
    ensures Feasible(p, s, sched) && Exec(p, s, sched).main == Returned
    decreases Work(p, s)
  {
    sched := [];
    WorkNonNegative(p, s);
    if s.main != Returned {
      var a := NoDeadlock(p, s);
      StepInv(p, s, a);
      StepWork(p, s, a);
      WorkNonNegative(p, Step(p, s, a));
      var rest := CanComplete(p, Step(p, s, a));
      sched := [a] + rest;
      assert sched[1..] == rest;
    }
  }

  lemma SameCells<F(!new)>(p: Params<F>, a: map<(int, int), F>, b: map<(int, int), F>)
    requires forall i, j :: (i, j) in a <==> p.Cell(i, j)
    requires forall i, j :: (i, j) in b <==> p.Cell(i, j)
    requires forall i, j :: p.Cell(i, j) ==> a[(i, j)] == b[(i, j)]
    ensures a == b
  {
    forall c | c in a || c in b ensures c in a && c in b && a[c] == b[c] {
      var (i, j) := c;
      assert (i, j) in a <==> p.Cell(i, j);
      assert (i, j) in b <==> p.Cell(i, j);
    }
  }

  lemma ReturnedState<F(!new)>(p: Params<F>, s: State<F>, sched: seq<Actor>)
    requires p.Valid() && Init(p, s) && Feasible(p, s, sched) && Exec(p, s, sched).main == Returned
    ensures Exec(p, s, sched).ids == seq(p.threads, t => t)
    ensures Exec(p, s, sched).workers == seq(p.threads, t => Finished)
  {
    InitInv(p, s);
    ExecInv(p, s, sched);
  }

  /** Two complete schedules end in the same state, although addition need not be associative. */
  lemma SchedulesAgree<F(!new)>(p: Params<F>, s: State<F>, sched: seq<Actor>, other: seq<Actor>)
    requires p.Valid() && Init(p, s)
    requires Feasible(p, s, sched) && Exec(p, s, sched).main == Returned
    requires Feasible(p, s, other) && Exec(p, s, other).main == Returned
    ensures Exec(p, s, sched) == Exec(p, s, other) && |sched| == |other|
  {
    var a, b := Exec(p, s, sched), Exec(p, s, other);
    EveryScheduleTerminates(p, s, sched);
    EveryScheduleTerminates(p, s, other);
    ResultOfEverySchedule(p, s, sched);
    ResultOfEverySchedule(p, s, other);
    ReturnedState(p, s, sched);
    ReturnedState(p, s, other);
    SameCells(p, a.C, b.C);
  }

  // ---------------------------------------------------------------- thread_gemm alone

  /** `thread_gemm` on the shared array: it stores exactly the cells of its own block. */
  method ThreadGemm<F>(p: Params<F>, blk: nat, C: array2<F>)
    requires p.Valid() && blk < p.threads && C.Length0 == p.I && C.Length1 == p.J
    modifies C
    ensures forall i, j :: p.Cell(i, j) ==>
      C[i, j] == if p.InBlock(blk, i) then p.Dot(i, j, p.K) else old(C[i, j])
  {
    BlockBounds(p, blk);
    var i := p.Lo(blk);
    while i < p.Hi(blk)
      invariant p.Lo(blk) <= i <= p.Hi(blk)
      invariant forall r, c :: p.Cell(r, c) ==>
        C[r, c] == if p.Lo(blk) <= r < i then p.Dot(r, c, p.K) else old(C[r, c])
    {
      var j := 0;
      while j < p.J
        invariant 0 <= j <= p.J
        invariant forall r, c :: p.Cell(r, c) ==>
          C[r, c] == if p.Lo(blk) <= r < i || (r == i && c < j) then p.Dot(r, c, p.K) else old(C[r, c])
      {
        var temp := p.zero;
        var k := 0;
        while k < p.K
          invariant 0 <= k <= p.K && temp == p.Dot(i, j, k)
        {
          temp := p.add(temp, p.mul(p.A[i][k], p.B[j][k]));
          k := k + 1;
        }
        C[i, j] := temp;
        j := j + 1;
      }
      i := i + 1;
    }
  }
}
