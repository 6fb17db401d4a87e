/**
  The driver loops of `configs/common/Simulation.py`: `scriptCheckpoints` and
  `repeatSwitch`, against a simulator that may stop early for any reason.

  The simulator answers each call of `simulate(n)` with one reply: it ran all `n` ticks
  and reports the limit, or it stopped after at most `n` ticks for another reason. A run
  of the driver is any finite sequence of replies; it can end in the middle of a call.
*/
module Simulation {
  import opened Common
  import opened DivMod

  type Cpu = string

  datatype Exit = Limit | Checkpoint | Other(cause: string)

  datatype Reply = Reached | CheckpointAfter(ticks: nat) | StopAfter(ticks: nat, cause: string)

  datatype MemoryMode = Invalid | Atomic | Timing | AtomicNoncaching

  /** What a CPU model declares: the memory mode it needs, and whether it supports a hand-over. */
  datatype CpuKind = CpuKind(mode: MemoryMode, takesOver: bool)

  /**
    The clock, the replies to come, the ticks of checkpoints and switches so far, the
    active CPUs, the memory mode of the system and the ticks at which its caches were
    flushed; `kinds` lists the objects that are CPUs.
  */
  datatype Sim = Sim(
    tick: int, tape: seq<Reply>, taken: seq<int>, switched: seq<int>, active: set<Cpu>, mode: MemoryMode,
    flushed: seq<int>, kinds: map<Cpu, CpuKind>)

  /** A run of a driver: where it is, and what it returned; `None` while it runs or when it raised. */
  datatype Outcome = Outcome(sim: Sim, exit: Option<Exit>)

  function ExitOf(r: Reply): Exit
  {
    match r
    case Reached => Limit
    case CheckpointAfter(_) => Checkpoint
    case StopAfter(_, cause) => Other(cause)
  }

  function Ran(r: Reply, n: nat): nat { if r.Reached? then n else Min(r.ticks, n) }

  /** The simulator takes no negative number of ticks. */
  predicate CanRun(s: Sim, n: int) { 0 <= n && s.tape != [] }

  function Simulated(s: Sim, n: int): Outcome
  {
    if CanRun(s, n) then
      Outcome(s.(tick := s.tick + Ran(s.tape[0], n), tape := s.tape[1..]), Some(ExitOf(s.tape[0])))
    else Outcome(s, None)
  }

  function Mark(s: Sim): Sim { s.(taken := s.taken + [s.tick]) }

  // ---------------------------------------------------------------- scripted checkpoints

  /** Simulate up to the tick `target`, again after each checkpoint request. */
  function Until(s: Sim, target: int): Outcome
    decreases |s.tape|
  {
    var r := Simulated(s, target - s.tick);
    if r.exit == Some(Checkpoint) then Until(r.sim, target) else r
  }

  /** One period: the first call asks for the period, later ones for what is left of it. */
  function Period(s: Sim, simTicks: int, period: int): Outcome
  {
    var r := Simulated(s, period);
    if r.exit == Some(Checkpoint) then Until(r.sim, simTicks + period) else r
  }

  /**
    The second loop of `scriptCheckpoints`: `event` is the last exit event and `cause`
    the cause the loop tests, which is that of the first call in each period.
  */
  function Repeat(s: Sim, simTicks: int, period: int, maxtick: int, room: int, event: Exit, cause: Exit): (r: Outcome)
    ensures |r.sim.tape| <= |s.tape|
    decreases |s.tape|
  {
    if room <= 0 || cause != Limit then Outcome(s, Some(event))
    else if simTicks + period > maxtick then Simulated(s, maxtick - simTicks)
    else
      var r := Period(s, simTicks, period);
      UntilUses(Simulated(s, period).sim, simTicks + period);
      match r.exit
      case None => r
      case Some(e) =>
        var first := ExitOf(s.tape[0]);
        if e == Limit then Repeat(Mark(r.sim), simTicks + period, period, maxtick, room - 1, e, first)
        else Repeat(r.sim, simTicks + period, period, maxtick, room, e, first)
  }

  /** The state after a period, with its checkpoint. */
  function Marked(r: Outcome): Sim { if r.exit == Some(Limit) then Mark(r.sim) else r.sim }

  lemma RepeatStep(s: Sim, simTicks: int, period: int, maxtick: int, room: int, event: Exit)
    requires room > 0 && simTicks + period <= maxtick
    ensures var r := Period(s, simTicks, period);
      var whole := Repeat(s, simTicks, period, maxtick, room, event, Limit);
      if r.exit.None? then whole == r && Marked(r) == r.sim
      else
        && s.tape != []
        && whole == Repeat(Marked(r), simTicks + period, period, maxtick, if r.exit == Some(Limit) then room - 1 else room,
                           r.exit.value, ExitOf(s.tape[0]))
  {
  }

  function Script(s: Sim, when: int, period: int, maxtick: int, max: int): Outcome
  {
    var r := Until(s, when);
    match r.exit
    case None => r
    case Some(e) =>
      if e == Limit then Repeat(Mark(r.sim), when, period, maxtick, max - 1, e, e)
      else Repeat(r.sim, when, period, maxtick, max, e, e)
  }

  lemma {:induction false} UntilUses(s: Sim, target: int)
    ensures |Until(s, target).sim.tape| <= |s.tape|
    ensures Until(s, target).sim.taken == s.taken
    ensures Until(s, target).exit == Some(Limit) ==> Until(s, target).sim.tick == target
    decreases |s.tape|
  {
    var r := Simulated(s, target - s.tick);
    if r.exit == Some(Checkpoint) { UntilUses(r.sim, target); }
  }

  lemma PeriodUses(s: Sim, simTicks: int, period: int)
    ensures var r := Period(s, simTicks, period);
      && r.sim.taken == s.taken && (r.exit.Some? ==> s.tape != [] && |r.sim.tape| < |s.tape|)
      && (r.exit == Some(Limit) && s.tick == simTicks ==> r.sim.tick == simTicks + period)
      && (r.exit.Some? && ExitOf(s.tape[0]) == Limit ==> r.exit == Some(Limit))
  {
    UntilUses(Simulated(s, period).sim, simTicks + period);
  }

  /** Checkpoint `k` is at `when + k * period`; all but the first are at or before `maxtick`. */
  ghost predicate OnSchedule(taken: seq<int>, when: int, period: int, maxtick: int)
  {
    forall k :: 0 <= k < |taken| ==> OnTime(taken[k], k, when, period, maxtick)
  }

  predicate OnTime(tick: int, k: nat, when: int, period: int, maxtick: int)
  {
    tick == when + k * period && (k > 0 ==> tick <= maxtick)
  }

  lemma {:induction false} RepeatOnSchedule(
    s: Sim, simTicks: int, period: int, maxtick: int, room: int, event: Exit, cause: Exit, when: int)
    requires OnSchedule(s.taken, when, period, maxtick)
    requires cause == Limit ==> s.taken != [] && s.tick == simTicks == when + (|s.taken| - 1) * period
    ensures var taken := Repeat(s, simTicks, period, maxtick, room, event, cause).sim.taken;
      OnSchedule(taken, when, period, maxtick) && |taken| <= |s.taken| + Max(room, 0)
    decreases |s.tape|
  {
    if room > 0 && cause == Limit && simTicks + period <= maxtick {
      var r := Period(s, simTicks, period);
      RepeatStep(s, simTicks, period, maxtick, room, event);
      PeriodUses(s, simTicks, period);
      if r.exit.Some? {
        if r.exit == Some(Limit) { MarkOnSchedule(s.taken, simTicks + period, when, period, maxtick); }
        RepeatOnSchedule(Marked(r), simTicks + period, period, maxtick, if r.exit == Some(Limit) then room - 1 else room,
                         r.exit.value, ExitOf(s.tape[0]), when);
      }
    }
  }

  lemma MarkOnSchedule(taken: seq<int>, tick: int, when: int, period: int, maxtick: int)
    requires OnSchedule(taken, when, period, maxtick) && taken != [] && tick <= maxtick
    requires tick == when + (|taken| - 1) * period + period
    ensures OnSchedule(taken + [tick], when, period, maxtick) && tick == when + |taken| * period
  {
    var n := |taken|;
    assert (n - 1) * period + period == n * period;
  }

  /**
    Whatever the simulator does, the checkpoints are at `when`, `when + period`, ...;
    all but the first are at or before `maxtick`; there are at most
    `max(1, max_checkpoints)`.
  */
  lemma ScriptOnSchedule(s: Sim, when: int, period: int, maxtick: int, max: int)
    requires s.taken == []
    ensures var taken := Script(s, when, period, maxtick, max).sim.taken;
      OnSchedule(taken, when, period, maxtick) && |taken| <= Max(max, 1)
  {
    UntilUses(s, when);
    var r := Until(s, when);
    if r.exit == Some(Limit) {
      assert OnTime(Mark(r.sim).taken[0], 0, when, period, maxtick);
      RepeatOnSchedule(Mark(r.sim), when, period, maxtick, max - 1, Limit, Limit, when);
    }
  }

  // ---------------------------------------------------------------- when the schedule is completed

  /** How many checkpoints are still due after one at `simTicks`. */
  function Planned(simTicks: int, period: int, maxtick: int, room: int): nat
    decreases Max(room, 0)
  {
    if room <= 0 || simTicks + period > maxtick then 0
    else 1 + Planned(simTicks + period, period, maxtick, room - 1)
  }

  lemma {:induction false} PlannedMeaning(simTicks: int, period: int, maxtick: int, room: int, k: nat)
    requires 0 <= period
    ensures k < Planned(simTicks, period, maxtick, room) <==> k < room && simTicks + (k + 1) * period <= maxtick
    decreases k
  {
    assert (k + 1) * period == period + k * period && 0 <= k * period;
    if k > 0 { PlannedMeaning(simTicks + period, period, maxtick, room - 1, k - 1); }
  }

  /** The simulator gets to the end of a stretch, with no more than checkpoint requests in between. */
  predicate EndsAtLimit(tape: seq<Reply>)
  {
    tape != [] && (tape[0].Reached? || (tape[0].CheckpointAfter? && EndsAtLimit(tape[1..])))
  }

  /** All of `n` periods but the last pass without any stop; the last one may see checkpoint requests. */
  predicate Straight(tape: seq<Reply>, n: nat)
  {
    n == 0 || (n == 1 && EndsAtLimit(tape)) || (n > 1 && tape != [] && tape[0].Reached? && Straight(tape[1..], n - 1))
  }

  lemma {:induction false} UntilEnds(s: Sim, target: int)
    requires s.tick <= target
    ensures Until(s, target).exit == Some(Limit) <==> EndsAtLimit(s.tape)
    decreases |s.tape|
  {
    var r := Simulated(s, target - s.tick);
    if r.exit == Some(Checkpoint) { UntilEnds(r.sim, target); }
  }

  /** A period that the simulator interrupts is the last one with a checkpoint. */
  lemma InterruptionEnds(s: Sim, simTicks: int, period: int, maxtick: int, room: int, event: Exit)
    requires s.tape != [] && !s.tape[0].Reached?
    ensures |Repeat(s, simTicks, period, maxtick, room, event, Limit).sim.taken| <= |s.taken| + 1
  {
    UntilUses(Simulated(s, period).sim, simTicks + period);
  }

  lemma {:induction false} RepeatCompletes(s: Sim, simTicks: int, period: int, maxtick: int, room: int, event: Exit)
    requires 0 <= period && s.tick == simTicks
    ensures var n := Planned(simTicks, period, maxtick, room);
      |Repeat(s, simTicks, period, maxtick, room, event, Limit).sim.taken| == |s.taken| + n <==> Straight(s.tape, n)
    decreases |s.tape|
  {
    var n := Planned(simTicks, period, maxtick, room);
    if n > 0 && s.tape != [] {
      var r := Simulated(s, period);
      UntilUses(r.sim, simTicks + period);
      if s.tape[0].Reached? {
        RepeatCompletes(Mark(r.sim), simTicks + period, period, maxtick, room - 1, Limit);
      } else {
        InterruptionEnds(s, simTicks, period, maxtick, room, event);
        UntilEnds(r.sim, simTicks + period);
      }
    }
  }

  /**
    Every planned checkpoint is taken exactly when `when` is reached and every period but
    the last passes without any stop: a checkpoint request of the simulated program in an
    earlier period ends the schedule.
  */
  lemma ScriptCompletes(s: Sim, when: int, period: int, maxtick: int, max: int)
    requires s.taken == [] && s.tick <= when && 0 <= period
    ensures var n := Planned(when, period, maxtick, max - 1);
      |Script(s, when, period, maxtick, max).sim.taken| == 1 + n <==>
      (EndsAtLimit(s.tape) && Straight(Until(s, when).sim.tape, n))
  {
    UntilUses(s, when);
    UntilEnds(s, when);
    var r := Until(s, when);
    if r.exit == Some(Limit) { RepeatCompletes(Mark(r.sim), when, period, maxtick, max - 1, Limit); }
  }

  // ---------------------------------------------------------------- when and where a script ends

  lemma {:induction false} UntilInTime(s: Sim, target: int)
    requires s.tick <= target
    ensures Until(s, target).sim.tick <= target
    decreases |s.tape|
  {
    var r := Simulated(s, target - s.tick);
    if r.exit == Some(Checkpoint) { UntilInTime(r.sim, target); }
  }

  lemma {:induction false} RepeatInTime(
    s: Sim, simTicks: int, period: int, maxtick: int, room: int, event: Exit, cause: Exit, end: int)
    requires 0 <= period && s.tick <= end && maxtick <= end && (cause == Limit ==> s.tick == simTicks)
    ensures Repeat(s, simTicks, period, maxtick, room, event, cause).sim.tick <= end
    decreases |s.tape|
  {
    if room > 0 && cause == Limit && simTicks + period <= maxtick {
      var r := Period(s, simTicks, period);
      UntilInTime(Simulated(s, period).sim, simTicks + period);
      RepeatStep(s, simTicks, period, maxtick, room, event);
      PeriodUses(s, simTicks, period);
      if r.exit.Some? {
        RepeatInTime(Marked(r), simTicks + period, period, maxtick, if r.exit == Some(Limit) then room - 1 else room,
                     r.exit.value, ExitOf(s.tape[0]), end);
      }
    }
  }

  /** Whatever the simulator does, a script ends no later than its first checkpoint or `maxtick`. */
  lemma ScriptInTime(s: Sim, when: int, period: int, maxtick: int, max: int)
    requires s.tick <= when && 0 <= period
    ensures Script(s, when, period, maxtick, max).sim.tick <= Max(when, maxtick)
  {
    UntilInTime(s, when);
    UntilUses(s, when);
    var r := Until(s, when);
    if r.exit == Some(Limit) {
      RepeatInTime(Mark(r.sim), when, period, maxtick, max - 1, Limit, Limit, Max(when, maxtick));
    }
  }

  predicate AllReached(tape: seq<Reply>) { forall i :: 0 <= i < |tape| ==> tape[i].Reached? }

  lemma {:induction false} RepeatEnds(s: Sim, simTicks: int, period: int, maxtick: int, room: int)
    requires 0 <= period && s.tick == simTicks <= maxtick && AllReached(s.tape)
    requires |s.tape| > Planned(simTicks, period, maxtick, room)
    ensures var n := Planned(simTicks, period, maxtick, room);
      var r := Repeat(s, simTicks, period, maxtick, room, Limit, Limit);
      && r.exit == Some(Limit) && |r.sim.taken| == |s.taken| + n
      && r.sim.tick == if n < room then maxtick else simTicks + n * period
    decreases |s.tape|
  {
    var n := Planned(simTicks, period, maxtick, room);
    if n > 0 {
      var r := Simulated(s, period);
      assert s.tape[0].Reached? && n * period == (n - 1) * period + period;
      RepeatEnds(Mark(r.sim), simTicks + period, period, maxtick, room - 1);
    }
  }

  /**
    Undisturbed, a script takes every planned checkpoint.  If another one is allowed but
    would come after `maxtick` it ends at `maxtick`, otherwise at its last checkpoint.
  */
  lemma ScriptEnds(s: Sim, when: int, period: int, maxtick: int, max: int)
    requires s.taken == [] && s.tick <= when <= maxtick && 0 <= period && AllReached(s.tape)
    requires |s.tape| >= Planned(when, period, maxtick, max - 1) + 2
    ensures var n := Planned(when, period, maxtick, max - 1);
      var r := Script(s, when, period, maxtick, max);
      && r.exit == Some(Limit) && |r.sim.taken| == n + 1 && r.sim.taken[n] == when + n * period
      && r.sim.tick == if n + 1 < max then maxtick else r.sim.taken[n]
  {
    UntilUses(s, when);
    var r := Until(s, when);
    assert s.tape[0].Reached? && r == Simulated(s, when - s.tick);
    RepeatEnds(Mark(r.sim), when, period, maxtick, max - 1);
    ScriptOnSchedule(s, when, period, maxtick, max);
    var n := Planned(when, period, maxtick, max - 1);
    assert OnTime(Script(s, when, period, maxtick, max).sim.taken[n], n, when, period, maxtick);
  }

  // ---------------------------------------------------------------- switching CPUs

  function Olds(pairs: seq<(Cpu, Cpu)>): set<Cpu> { set i | 0 <= i < |pairs| :: pairs[i].0 }

  function News(pairs: seq<(Cpu, Cpu)>): set<Cpu> { set i | 0 <= i < |pairs| :: pairs[i].1 }

  /** What `switchCpus` checks of one pair. */
  predicate PairOk(s: Sim, pairs: seq<(Cpu, Cpu)>, i: nat)
    requires i < |pairs|
  {
    var (before, after) := pairs[i];
    && before in s.kinds && s.kinds[before].takesOver && before in s.active
    && after in s.kinds && s.kinds[after].takesOver && after !in s.active && after !in Olds(pairs)
    && pairs[0].1 in s.kinds && s.kinds[after].mode == s.kinds[pairs[0].1].mode
  }

  /** Whether `switchCpus` accepts a list. */
  predicate Ready(s: Sim, pairs: seq<(Cpu, Cpu)>)
  {
    pairs != [] && forall i :: 0 <= i < |pairs| ==> PairOk(s, pairs, i)
  }

  /** Whether the old CPUs need one memory mode, which is only asked for when they are to come back. */
  predicate OldsAgree(s: Sim, pairs: seq<(Cpu, Cpu)>)
    requires Ready(s, pairs)
  {
    forall i :: 0 <= i < |pairs| ==> OldAgrees(s, pairs, i)
  }

  predicate OldAgrees(s: Sim, pairs: seq<(Cpu, Cpu)>, i: nat)
    requires Ready(s, pairs) && i < |pairs|
  {
    assert PairOk(s, pairs, i) && PairOk(s, pairs, 0);
    s.kinds[pairs[i].0].mode == s.kinds[pairs[0].0].mode
  }

  function HandOver(s: Sim, pairs: seq<(Cpu, Cpu)>): Sim
    requires Ready(s, pairs)
  {
    assert PairOk(s, pairs, 0);
    var mode := s.kinds[pairs[0].1].mode;
    s.(active := s.active - Olds(pairs) + News(pairs), mode := mode, switched := s.switched + [s.tick],
       flushed := if s.mode != mode && mode == AtomicNoncaching then s.flushed + [s.tick] else s.flushed)
  }

  function Swapped(pairs: seq<(Cpu, Cpu)>): (r: seq<(Cpu, Cpu)>)
    ensures |r| == |pairs|
  {
    if pairs == [] then [] else [(pairs[0].1, pairs[0].0)] + Swapped(pairs[1..])
  }

  lemma {:induction false} SwappedAt(pairs: seq<(Cpu, Cpu)>, i: nat)
    requires i < |pairs|
    ensures Swapped(pairs)[i] == (pairs[i].1, pairs[i].0)
  {
    if i > 0 { SwappedAt(pairs[1..], i - 1); }
  }

  lemma SwappedSides(pairs: seq<(Cpu, Cpu)>)
    ensures Olds(Swapped(pairs)) == News(pairs) && News(Swapped(pairs)) == Olds(pairs)
    ensures Swapped(Swapped(pairs)) == pairs
  {
    var r := Swapped(pairs);
    forall i | 0 <= i < |pairs| ensures r[i] == (pairs[i].1, pairs[i].0) && Swapped(r)[i] == pairs[i] {
      SwappedAt(pairs, i);
      SwappedAt(r, i);
    }
    forall c ensures c in Olds(r) <==> c in News(pairs) {
      if i :| 0 <= i < |r| && r[i].0 == c { assert pairs[i].1 == c; }
      if i :| 0 <= i < |pairs| && pairs[i].1 == c { assert r[i].0 == c; }
    }
    forall c ensures c in News(r) <==> c in Olds(pairs) {
      if i :| 0 <= i < |r| && r[i].1 == c { assert pairs[i].0 == c; }
      if i :| 0 <= i < |pairs| && pairs[i].0 == c { assert r[i].1 == c; }
    }
  }

  /** The memory mode that a CPU of a list needs. */
  function ModeOf(s: Sim, c: Cpu): MemoryMode { if c in s.kinds then s.kinds[c].mode else Invalid }

  /**
    A list is accepted exactly when its old CPUs are active, its new CPUs are not, all of
    them support a hand-over, and the new ones need one memory mode.
  */
  lemma ReadyMeaning(s: Sim, pairs: seq<(Cpu, Cpu)>)
    ensures Ready(s, pairs) <==>
      && pairs != [] && Olds(pairs) <= s.active && News(pairs) !! s.active
      && (forall c :: c in Olds(pairs) + News(pairs) ==> c in s.kinds && s.kinds[c].takesOver)
      && (forall c :: c in News(pairs) ==> ModeOf(s, c) == ModeOf(s, pairs[0].1))
  {
    if Ready(s, pairs) {
      ReadySides(s, pairs);
      forall c | c in Olds(pairs) + News(pairs) ensures c in s.kinds && s.kinds[c].takesOver {
        var i :| 0 <= i < |pairs| && (pairs[i].0 == c || pairs[i].1 == c);
        assert PairOk(s, pairs, i);
      }
      forall c | c in News(pairs) ensures ModeOf(s, c) == ModeOf(s, pairs[0].1) {
        var i :| 0 <= i < |pairs| && pairs[i].1 == c;
        assert PairOk(s, pairs, i);
      }
    } else if pairs != [] {
      var i :| 0 <= i < |pairs| && !PairOk(s, pairs, i);
      assert pairs[i].0 in Olds(pairs) && pairs[i].1 in News(pairs) && pairs[0].1 in News(pairs);
    }
  }

  lemma ReadySides(s: Sim, pairs: seq<(Cpu, Cpu)>)
    requires Ready(s, pairs)
    ensures Olds(pairs) <= s.active && News(pairs) !! s.active
  {
    forall i | 0 <= i < |pairs| ensures pairs[i].0 in s.active && pairs[i].1 !in s.active {
      assert PairOk(s, pairs, i);
    }
  }

  lemma PairBack(s: Sim, pairs: seq<(Cpu, Cpu)>, i: nat)
    requires Ready(s, pairs) && i < |pairs|
    ensures PairOk(HandOver(s, pairs), Swapped(pairs), i) <==> OldAgrees(s, pairs, i)
  {
    assert PairOk(s, pairs, i) && PairOk(s, pairs, 0);
    SwappedAt(pairs, i);
    SwappedAt(pairs, 0);
    SwappedSides(pairs);
    ReadySides(s, pairs);
    assert pairs[i].0 in Olds(pairs) && pairs[i].1 in News(pairs);
  }

  lemma NewsAgree(s: Sim, pairs: seq<(Cpu, Cpu)>, i: nat)
    requires Ready(s, pairs) && Ready(HandOver(s, pairs), Swapped(pairs)) && i < |pairs|
    ensures OldAgrees(HandOver(s, pairs), Swapped(pairs), i)
  {
    assert PairOk(s, pairs, i) && PairOk(s, pairs, 0);
    SwappedAt(pairs, i);
    SwappedAt(pairs, 0);
  }

  /**
    After a hand-over the swapped list is accepted exactly when the old CPUs need one
    memory mode, and switching back then restores the active CPUs.
  */
  lemma HandBack(s: Sim, pairs: seq<(Cpu, Cpu)>)
    requires Ready(s, pairs)
    ensures Ready(HandOver(s, pairs), Swapped(pairs)) <==> OldsAgree(s, pairs)
    ensures OldsAgree(s, pairs) ==> OldsAgree(HandOver(s, pairs), Swapped(pairs))
    ensures OldsAgree(s, pairs) ==> HandOver(HandOver(s, pairs), Swapped(pairs)).active == s.active
  {
    forall i | 0 <= i < |pairs| ensures PairOk(HandOver(s, pairs), Swapped(pairs), i) <==> OldAgrees(s, pairs, i) {
      PairBack(s, pairs, i);
    }
    if OldsAgree(s, pairs) {
      forall i | 0 <= i < |pairs| ensures OldAgrees(HandOver(s, pairs), Swapped(pairs), i) { NewsAgree(s, pairs, i); }
    }
    SwappedSides(pairs);
    ReadySides(s, pairs);
  }

  function Switching(s: Sim, pairs: seq<(Cpu, Cpu)>, maxtick: int, freq: int): Outcome
    decreases |s.tape|
  {
    var r := Simulated(s, freq);
    if r.exit != Some(Limit) then r
    else if !Ready(r.sim, pairs) then Outcome(r.sim, None)
    else
      var u := HandOver(r.sim, pairs);
      if maxtick - u.tick <= freq then Simulated(u, maxtick - u.tick)
      else Switching(u, Swapped(pairs), maxtick, freq)
  }

  /** The clock and the replies do not matter for a switch. */
  lemma ReadyLater(s: Sim, t: Sim, pairs: seq<(Cpu, Cpu)>)
    requires t.active == s.active && t.kinds == s.kinds
    ensures Ready(t, pairs) <==> Ready(s, pairs)
    ensures Ready(s, pairs) ==> (OldsAgree(t, pairs) <==> OldsAgree(s, pairs))
  {
    assert forall i :: 0 <= i < |pairs| ==> (PairOk(t, pairs, i) <==> PairOk(s, pairs, i));
    if Ready(s, pairs) {
      assert forall i :: 0 <= i < |pairs| ==> (OldAgrees(t, pairs, i) <==> OldAgrees(s, pairs, i));
    }
  }

  /** The state after the first interval and switch. */
  function FirstSwitch(s: Sim, pairs: seq<(Cpu, Cpu)>, freq: int): Sim
    requires Simulated(s, freq).exit == Some(Limit) && Ready(Simulated(s, freq).sim, pairs)
  {
    HandOver(Simulated(s, freq).sim, pairs)
  }

  /** With old CPUs of one memory mode the first switch is accepted, and so is the next one. */
  lemma SwitchStep(s: Sim, pairs: seq<(Cpu, Cpu)>, maxtick: int, freq: int)
    requires Ready(s, pairs) && OldsAgree(s, pairs) && Simulated(s, freq).exit == Some(Limit)
    ensures Ready(Simulated(s, freq).sim, pairs) && OldsAgree(Simulated(s, freq).sim, pairs)
    ensures var u := FirstSwitch(s, pairs, freq);
      && u.tick == s.tick + freq && u.tape == s.tape[1..] && u.switched == s.switched + [u.tick]
      && Ready(u, Swapped(pairs)) && OldsAgree(u, Swapped(pairs))
      && Switching(s, pairs, maxtick, freq) ==
         if maxtick - u.tick <= freq then Simulated(u, maxtick - u.tick) else Switching(u, Swapped(pairs), maxtick, freq)
  {
    var r := Simulated(s, freq);
    ReadyLater(s, r.sim, pairs);
    HandBack(r.sim, pairs);
  }

  /** The list of pairs at the end of the same run. */
  function PairsAfter(s: Sim, pairs: seq<(Cpu, Cpu)>, maxtick: int, freq: int): seq<(Cpu, Cpu)>
    decreases |s.tape|
  {
    var r := Simulated(s, freq);
    if r.exit != Some(Limit) || !Ready(r.sim, pairs) then pairs
    else
      var u := HandOver(r.sim, pairs);
      if maxtick - u.tick <= freq then Swapped(pairs) else PairsAfter(u, Swapped(pairs), maxtick, freq)
  }

  /** The number of switches between two states of a run. */
  function Switches(s: Sim, t: Sim): int { |t.switched| - |s.switched| }

  /** Switches are `freq` ticks apart from the start, and the clock is not behind the last one. */
  ghost predicate Paced(s: Sim, t: Sim, freq: int)
  {
    && s.switched <= t.switched
    && (forall k :: |s.switched| <= k < |t.switched| ==> t.switched[k] == s.tick + (k - |s.switched| + 1) * freq)
    && s.tick + Switches(s, t) * freq <= t.tick
  }

  lemma PacedStep(s: Sim, u: Sim, t: Sim, freq: int)
    requires u.tick == s.tick + freq && u.switched == s.switched + [u.tick] && Paced(u, t, freq)
    ensures Paced(s, t, freq)
  {
    var n := |s.switched|;
    forall k | n <= k < |t.switched| ensures t.switched[k] == s.tick + (k - n + 1) * freq {
      assert (k - n + 1) * freq == (k - n) * freq + freq;
      if k == n { assert t.switched[k] == u.switched[k]; }
    }
    assert Switches(s, t) * freq == Switches(u, t) * freq + freq;
  }

  lemma {:induction false} SwitchingPaced(s: Sim, pairs: seq<(Cpu, Cpu)>, maxtick: int, freq: int)
    ensures Paced(s, Switching(s, pairs, maxtick, freq).sim, freq)
    decreases |s.tape|
  {
    var r := Simulated(s, freq);
    if r.exit == Some(Limit) && Ready(r.sim, pairs) {
      var u := HandOver(r.sim, pairs);
      if maxtick - u.tick > freq { SwitchingPaced(u, Swapped(pairs), maxtick, freq); }
      PacedStep(s, u, Switching(s, pairs, maxtick, freq).sim, freq);
    }
  }

  /** The list after `n` switches. */
  function ListAfter(pairs: seq<(Cpu, Cpu)>, n: int): seq<(Cpu, Cpu)>
  {
    if n % 2 == 0 then pairs else Swapped(pairs)
  }

  lemma ListStep(pairs: seq<(Cpu, Cpu)>, n: int)
    ensures ListAfter(Swapped(pairs), n) == ListAfter(pairs, n + 1)
  {
    SwappedSides(pairs);
  }

  /** One more switch comes before those of the rest of a run. */
  lemma SwitchesStep(s: Sim, u: Sim, t: Sim)
    requires |u.switched| == |s.switched| + 1
    ensures Switches(s, t) == Switches(u, t) + 1
  {
  }

  /** Whatever happens, the list is the one given or its swap, by the parity of the number of switches. */
  lemma {:induction false} PairsAlternate(s: Sim, pairs: seq<(Cpu, Cpu)>, maxtick: int, freq: int)
    ensures PairsAfter(s, pairs, maxtick, freq) == ListAfter(pairs, Switches(s, Switching(s, pairs, maxtick, freq).sim))
    decreases |s.tape|
  {
    var r := Simulated(s, freq);
    if r.exit == Some(Limit) && Ready(r.sim, pairs) {
      var u := HandOver(r.sim, pairs);
      if maxtick - u.tick > freq {
        PairsAlternate(u, Swapped(pairs), maxtick, freq);
        var n := Switches(u, Switching(u, Swapped(pairs), maxtick, freq).sim);
        ListStep(pairs, n);
        SwitchesStep(s, u, Switching(s, pairs, maxtick, freq).sim);
      }
    }
  }

  /** The active CPUs after `n` switches. */
  function ActiveAfter(s: Sim, pairs: seq<(Cpu, Cpu)>, n: int): set<Cpu>
    requires Ready(s, pairs)
  {
    if n % 2 == 0 then s.active else HandOver(s, pairs).active
  }

  lemma Flip(s: Sim, pairs: seq<(Cpu, Cpu)>, maxtick: int, freq: int, n: int)
    requires Ready(s, pairs) && OldsAgree(s, pairs) && Simulated(s, freq).exit == Some(Limit)
    ensures Ready(Simulated(s, freq).sim, pairs) && Ready(FirstSwitch(s, pairs, freq), Swapped(pairs))
    ensures ActiveAfter(FirstSwitch(s, pairs, freq), Swapped(pairs), n) == ActiveAfter(s, pairs, n + 1)
  {
    SwitchStep(s, pairs, maxtick, freq);
    HandBack(Simulated(s, freq).sim, pairs);
  }

  lemma {:induction false} ActiveAlternates(s: Sim, pairs: seq<(Cpu, Cpu)>, maxtick: int, freq: int)
    requires Ready(s, pairs) && OldsAgree(s, pairs) && 0 <= freq <= maxtick - s.tick
    ensures var r := Switching(s, pairs, maxtick, freq);
      r.sim.active == ActiveAfter(s, pairs, Switches(s, r.sim)) && (r.exit.None? ==> r.sim.tape == [])
    decreases |s.tape|
  {
    if Simulated(s, freq).exit == Some(Limit) {
      SwitchStep(s, pairs, maxtick, freq);
      var u := FirstSwitch(s, pairs, freq);
      if maxtick - u.tick > freq {
        ActiveAlternates(u, Swapped(pairs), maxtick, freq);
        var t := Switching(u, Swapped(pairs), maxtick, freq).sim;
        Flip(s, pairs, maxtick, freq, Switches(u, t));
        SwitchesStep(s, u, t);
      }
    }
  }

  /**
    Every switch hands over from the active CPUs: if the old CPUs need one memory mode no
    switch is refused, and the active CPUs are those of the start or of the first
    hand-over, and the list is the one given or its swap, by the parity of the number of
    switches.
  */
  lemma SwitchingAlternates(s: Sim, pairs: seq<(Cpu, Cpu)>, maxtick: int, freq: int)
    requires Ready(s, pairs) && OldsAgree(s, pairs) && 0 <= freq <= maxtick - s.tick
    ensures var r := Switching(s, pairs, maxtick, freq);
      var n := Switches(s, r.sim);
      && r.sim.active == ActiveAfter(s, pairs, n) && (r.exit.None? ==> r.sim.tape == [])
      && PairsAfter(s, pairs, maxtick, freq) == ListAfter(pairs, n)
  {
    ActiveAlternates(s, pairs, maxtick, freq);
    PairsAlternate(s, pairs, maxtick, freq);
  }

  /** The memory mode after `n` switches between CPUs of modes `back` and `to`, from mode `start`. */
  function ModeAfter(start: MemoryMode, to: MemoryMode, back: MemoryMode, n: int): MemoryMode
  {
    if n <= 0 then start else if n % 2 == 1 then to else back
  }

  /** The ticks of those switches that enter the mode in which caches are bypassed. */
  function Flushes(start: MemoryMode, to: MemoryMode, back: MemoryMode, ticks: seq<int>): seq<int>
    decreases |ticks|
  {
    if ticks == [] then []
    else (if start != to && to == AtomicNoncaching then [ticks[0]] else []) + Flushes(to, back, to, ticks[1..])
  }

  ghost predicate Follows(s: Sim, t: Sim, to: MemoryMode, back: MemoryMode)
  {
    && |s.switched| <= |t.switched| && t.mode == ModeAfter(s.mode, to, back, Switches(s, t))
    && t.flushed == s.flushed + Flushes(s.mode, to, back, t.switched[|s.switched|..])
  }

  lemma FollowsStep(s: Sim, u: Sim, t: Sim, to: MemoryMode, back: MemoryMode)
    requires u.mode == to && u.switched == s.switched + [u.tick] && u.switched <= t.switched && Follows(u, t, back, to)
    requires u.flushed == s.flushed + if s.mode != to && to == AtomicNoncaching then [u.tick] else []
    ensures Follows(s, t, to, back)
  {
    SwitchedTail(s, u, t);
    ModeStep(s.mode, to, back, Switches(u, t));
    FlushStep(s.mode, to, back, u.tick, t.switched[|u.switched|..]);
    var now := if s.mode != to && to == AtomicNoncaching then [u.tick] else [];
    var later := Flushes(to, back, to, t.switched[|u.switched|..]);
    assert s.flushed + (now + later) == s.flushed + now + later;
  }

  lemma ModeStep(start: MemoryMode, to: MemoryMode, back: MemoryMode, n: int)
    requires n >= 0
    ensures ModeAfter(start, to, back, n + 1) == ModeAfter(to, back, to, n)
  {
  }

  lemma FlushStep(start: MemoryMode, to: MemoryMode, back: MemoryMode, tick: int, ticks: seq<int>)
    ensures Flushes(start, to, back, [tick] + ticks) ==
      (if start != to && to == AtomicNoncaching then [tick] else []) + Flushes(to, back, to, ticks)
  {
    assert ([tick] + ticks)[1..] == ticks;
  }

  /**
    The memory mode follows the CPUs, and the caches are flushed at exactly the switches
    into the mode in which they are bypassed.
  */
  lemma {:induction false} ModesFollow(s: Sim, pairs: seq<(Cpu, Cpu)>, maxtick: int, freq: int)
    requires Ready(s, pairs) && OldsAgree(s, pairs)
    ensures Follows(s, Switching(s, pairs, maxtick, freq).sim, ModeOf(s, pairs[0].1), ModeOf(s, pairs[0].0))
    decreases |s.tape|
  {
    var r, t := Simulated(s, freq), Switching(s, pairs, maxtick, freq).sim;
    assert PairOk(s, pairs, 0);
    ReadyLater(s, r.sim, pairs);
    if r.exit == Some(Limit) {
      var u := HandOver(r.sim, pairs);
      if maxtick - u.tick > freq {
        HandBack(r.sim, pairs);
        SwappedAt(pairs, 0);
        ModesFollow(u, Swapped(pairs), maxtick, freq);
        SwitchingPaced(u, Swapped(pairs), maxtick, freq);
      }
      FollowsStep(s, u, t, ModeOf(s, pairs[0].1), ModeOf(s, pairs[0].0));
    }
  }

  lemma SwitchedTail(s: Sim, u: Sim, t: Sim)
    requires u.switched == s.switched + [u.tick] && u.switched <= t.switched
    ensures t.switched[|s.switched|..] == [u.tick] + t.switched[|u.switched|..]
  {
    assert t.switched[|s.switched|] == u.switched[|s.switched|];
  }

  /** With a CPU that is unknown or does not support a hand-over in the list, no switch ever happens. */
  lemma UnsupportedNeverSwitches(s: Sim, pairs: seq<(Cpu, Cpu)>, maxtick: int, freq: int, c: Cpu)
    requires c in Olds(pairs) + News(pairs) && (c in s.kinds ==> !s.kinds[c].takesOver)
    ensures var r := Switching(s, pairs, maxtick, freq);
      r.sim.switched == s.switched && r.sim.active == s.active && r.exit != Some(Limit)
  {
    var i :| 0 <= i < |pairs| && (pairs[i].0 == c || pairs[i].1 == c);
    assert !PairOk(Simulated(s, freq).sim, pairs, i);
  }

  /** A run in which a switch was refused, or the simulator cannot go on, stops with replies left. */
  ghost predicate NeverRefused(s: Sim, pairs: seq<(Cpu, Cpu)>, maxtick: int, freq: int)
  {
    forall tape ::
      var r := Switching(s.(tape := tape), pairs, maxtick, freq);
      r.exit.None? ==> r.sim.tape == []
  }

  lemma SecondRefused(s: Sim, pairs: seq<(Cpu, Cpu)>, maxtick: int, freq: int)
    requires Ready(s, pairs) && !OldsAgree(s, pairs) && 0 <= freq && 2 * freq < maxtick - s.tick
    requires s.tape == [Reached, Reached, Reached]
    ensures Switching(s, pairs, maxtick, freq).exit.None? && Switching(s, pairs, maxtick, freq).sim.tape == [Reached]
  {
    var r := Simulated(s, freq);
    ReadyLater(s, r.sim, pairs);
    HandBack(r.sim, pairs);
    var u := HandOver(r.sim, pairs);
    ReadyLater(u, Simulated(u, freq).sim, Swapped(pairs));
    assert r.exit == Some(Limit) && u.tape == [Reached, Reached];
    assert Switching(s, pairs, maxtick, freq) == Switching(u, Swapped(pairs), maxtick, freq);
    assert Simulated(u, freq).sim.tape == [Reached];
  }

  lemma OneSwitchFits(s: Sim, pairs: seq<(Cpu, Cpu)>, maxtick: int, freq: int)
    requires Ready(s, pairs) && 0 <= freq <= maxtick - s.tick <= 2 * freq
    ensures var r := Switching(s, pairs, maxtick, freq); r.exit.None? ==> r.sim.tape == []
  {
    ReadyLater(s, Simulated(s, freq).sim, pairs);
  }

  /**
    Whatever the simulator replies, no switch is refused, exactly when the old CPUs need
    one memory mode or there is time for one switch only.
  */
  lemma NeverRefusedIff(s: Sim, pairs: seq<(Cpu, Cpu)>, maxtick: int, freq: int)
    requires Ready(s, pairs) && 0 <= freq <= maxtick - s.tick
    ensures NeverRefused(s, pairs, maxtick, freq) <==> OldsAgree(s, pairs) || maxtick - s.tick <= 2 * freq
  {
    if !OldsAgree(s, pairs) && maxtick - s.tick > 2 * freq {
      var t := s.(tape := [Reached, Reached, Reached]);
      ReadyLater(s, t, pairs);
      SecondRefused(t, pairs, maxtick, freq);
    } else {
      forall tape
        ensures var r := Switching(s.(tape := tape), pairs, maxtick, freq); r.exit.None? ==> r.sim.tape == []
      {
        ReadyLater(s, s.(tape := tape), pairs);
        if OldsAgree(s, pairs) {
          SwitchingAlternates(s.(tape := tape), pairs, maxtick, freq);
        } else {
          OneSwitchFits(s.(tape := tape), pairs, maxtick, freq);
        }
      }
    }
  }

  lemma {:induction false} SwitchingInTime(s: Sim, pairs: seq<(Cpu, Cpu)>, maxtick: int, freq: int)
    requires s.tick <= maxtick && freq <= maxtick - s.tick
    ensures Switching(s, pairs, maxtick, freq).sim.tick <= maxtick
    decreases |s.tape|
  {
    var r := Simulated(s, freq);
    if r.exit == Some(Limit) && Ready(r.sim, pairs) {
      var u := HandOver(r.sim, pairs);
      if maxtick - u.tick > freq { SwitchingInTime(u, Swapped(pairs), maxtick, freq); }
    }
  }

  /** Time stays within `maxtick` against every simulator exactly when one interval fits before it. */
  lemma InTimeIffRoom(s: Sim, pairs: seq<(Cpu, Cpu)>, maxtick: int, freq: int)
    requires s.tick <= maxtick
    ensures (forall tape :: Switching(s.(tape := tape), pairs, maxtick, freq).sim.tick <= maxtick) <==>
      freq <= maxtick - s.tick
  {
    if freq <= maxtick - s.tick {
      forall tape ensures Switching(s.(tape := tape), pairs, maxtick, freq).sim.tick <= maxtick {
        SwitchingInTime(s.(tape := tape), pairs, maxtick, freq);
      }
    } else {
      var t := s.(tape := [Reached]);
      assert Simulated(t, freq).exit == Some(Limit);
      assert Switching(t, pairs, maxtick, freq).sim.tick == s.tick + freq;
    }
  }

  /** With an interval to spare, the number of switches is bounded whatever the simulator replies. */
  lemma SwitchesBounded(s: Sim, pairs: seq<(Cpu, Cpu)>, maxtick: int, freq: int)
    requires 0 < freq <= maxtick - s.tick
    ensures Switches(s, Switching(s, pairs, maxtick, freq).sim) * freq <= maxtick - s.tick
  {
    SwitchingPaced(s, pairs, maxtick, freq);
    SwitchingInTime(s, pairs, maxtick, freq);
  }

  /** The loop has returned once the replies, one interval each, go past `maxtick`. */
  lemma {:induction false} SwitchingEnds(s: Sim, pairs: seq<(Cpu, Cpu)>, maxtick: int, freq: int)
    requires Ready(s, pairs) && OldsAgree(s, pairs)
    requires 0 < freq <= maxtick - s.tick < |s.tape| * freq
    ensures Switching(s, pairs, maxtick, freq).exit.Some?
    decreases |s.tape|
  {
    var r := Simulated(s, freq);
    MoreThanOne(|s.tape|, freq);
    if r.exit == Some(Limit) {
      SwitchStep(s, pairs, maxtick, freq);
      var u := FirstSwitch(s, pairs, freq);
      assert |u.tape| * freq == |s.tape| * freq - freq by { MulStep(|s.tape|, freq); }
      if maxtick - u.tick > freq { SwitchingEnds(u, Swapped(pairs), maxtick, freq); }
    }
  }

  lemma MoreThanOne(n: nat, freq: int)
    requires freq > 0 && n * freq > freq
    ensures n > 1
  {
    assert n == 0 ==> n * freq == 0;
  }

  /** With an interval of 0 ticks and time left, the loop goes on for ever. */
  lemma {:induction false} ZeroNeverEnds(s: Sim, pairs: seq<(Cpu, Cpu)>, maxtick: int)
    requires s.tick < maxtick && AllReached(s.tape)
    ensures Switching(s, pairs, maxtick, 0).exit.None?
    decreases |s.tape|
  {
    var r := Simulated(s, 0);
    if r.exit == Some(Limit) && Ready(r.sim, pairs) {
      ZeroNeverEnds(HandOver(r.sim, pairs), Swapped(pairs), maxtick);
    }
  }

  /** Whether some number of replies is always enough for the loop to return. */
  ghost predicate Ends(s: Sim, pairs: seq<(Cpu, Cpu)>, maxtick: int, freq: int)
  {
    exists n: nat :: EndsWithin(s, pairs, maxtick, freq, n)
  }

  ghost predicate EndsWithin(s: Sim, pairs: seq<(Cpu, Cpu)>, maxtick: int, freq: int, n: nat)
  {
    forall tape: seq<Reply> :: |tape| == n ==> Switching(s.(tape := tape), pairs, maxtick, freq).exit.Some?
  }

  /** The loop returns against every simulator exactly when the interval is positive. */
  lemma EndsIffPositive(s: Sim, pairs: seq<(Cpu, Cpu)>, maxtick: int, freq: int)
    requires Ready(s, pairs) && OldsAgree(s, pairs) && s.tick < maxtick && freq <= maxtick - s.tick
    ensures Ends(s, pairs, maxtick, freq) <==> freq > 0
  {
    if freq > 0 {
      var n := maxtick - s.tick + 1;
      assert n * freq > maxtick - s.tick by { assert n * freq >= n; }
      forall tape: seq<Reply> | |tape| == n ensures Switching(s.(tape := tape), pairs, maxtick, freq).exit.Some? {
        ReadyLater(s, s.(tape := tape), pairs);
        SwitchingEnds(s.(tape := tape), pairs, maxtick, freq);
      }
      assert EndsWithin(s, pairs, maxtick, freq, n);
    } else {
      forall n: nat ensures !EndsWithin(s, pairs, maxtick, freq, n) {
        var tape: seq<Reply> := seq(n, _ => Reached);
        var t := s.(tape := tape);
        if freq == 0 { ZeroNeverEnds(t, pairs, maxtick); }
        assert Switching(t, pairs, maxtick, freq).exit.None?;
      }
    }
  }

  /** Whether a run has ended at `maxtick`, after a switch at every multiple of the interval before it. */
  ghost predicate Completed(s: Sim, r: Outcome, maxtick: int, freq: int)
  {
    var n := Switches(s, r.sim);
    r.exit == Some(Limit) && r.sim.tick == maxtick && n * freq < maxtick - s.tick <= (n + 1) * freq
  }

  lemma CompletedStep(s: Sim, u: Sim, r: Outcome, maxtick: int, freq: int)
    requires u.tick == s.tick + freq && |u.switched| == |s.switched| + 1 && Completed(u, r, maxtick, freq)
    ensures Completed(s, r, maxtick, freq)
  {
    var n := Switches(u, r.sim);
    MulStep(n + 1, freq);
    MulStep(n + 2, freq);
  }

  lemma LastStretch(u: Sim, maxtick: int, freq: int)
    requires u.tape != [] && u.tape[0].Reached? && 0 < maxtick - u.tick <= freq
    ensures Completed(u, Simulated(u, maxtick - u.tick), maxtick, freq)
  {
  }

  /**
    Undisturbed, the run ends at `maxtick` after a switch at every multiple of the
    interval that lies before `maxtick`.
  */
  lemma {:induction false} SwitchingCompletes(s: Sim, pairs: seq<(Cpu, Cpu)>, maxtick: int, freq: int)
    requires Ready(s, pairs) && OldsAgree(s, pairs) && 0 < freq < maxtick - s.tick < |s.tape| * freq
    requires AllReached(s.tape)
    ensures Completed(s, Switching(s, pairs, maxtick, freq), maxtick, freq)
    decreases |s.tape|
  {
    MoreThanOne(|s.tape|, freq);
    assert s.tape[0].Reached? && s.tape[1].Reached?;
    SwitchStep(s, pairs, maxtick, freq);
    var u := FirstSwitch(s, pairs, freq);
    assert |u.tape| * freq == |s.tape| * freq - freq by { MulStep(|s.tape|, freq); }
    if maxtick - u.tick > freq {
      SwitchingCompletes(u, Swapped(pairs), maxtick, freq);
    } else {
      LastStretch(u, maxtick, freq);
    }
    CompletedStep(s, u, Switching(s, pairs, maxtick, freq), maxtick, freq);
  }

  // ---------------------------------------------------------------- the program

  class Simulator {
    var tick: int
    var tape: seq<Reply>
    var taken: seq<int>
    var switched: seq<int>
    var active: set<Cpu>
    var mode: MemoryMode
    var flushed: seq<int>
    const kinds: map<Cpu, CpuKind>

    constructor (tick: int, tape: seq<Reply>, active: set<Cpu>, mode: MemoryMode, kinds: map<Cpu, CpuKind>)
      ensures State() == Sim(tick, tape, [], [], active, mode, [], kinds)
    {
      this.tick, this.tape, this.taken, this.switched, this.active := tick, tape, [], [], active;
      this.mode, this.flushed, this.kinds := mode, [], kinds;
    }

    function State(): Sim
      reads this
    {
      Sim(tick, tape, taken, switched, active, mode, flushed, kinds)
    }

    /** `m5.simulate`: one reply of the simulated machine. */
    method Simulate(n: int) returns (exit: Option<Exit>)
      modifies this
      ensures Outcome(State(), exit) == Simulated(old(State()), n)
    {
      if n < 0 || tape == [] { return None; }
      var reply := tape[0];
      tape := tape[1..];
      tick := tick + Ran(reply, n);
      return Some(ExitOf(reply));
    }

    /** `m5.checkpoint`. */
    method TakeCheckpoint()
      modifies this
      ensures State() == Mark(old(State()))
    {
      taken := taken + [tick];
    }

    /** `m5.switchCpus`: refused unless all its checks on the pairs pass. */
    method SwitchCpus(pairs: seq<(Cpu, Cpu)>) returns (ok: bool)
      modifies this
      ensures ok == Ready(old(State()), pairs)
      ensures State() == if ok then HandOver(old(State()), pairs) else old(State())
    {
      ok := Ready(State(), pairs);
      if ok {
        assert PairOk(State(), pairs, 0);
        active := active - Olds(pairs) + News(pairs);
        if mode != kinds[pairs[0].1].mode {
          if kinds[pairs[0].1].mode == AtomicNoncaching { flushed := flushed + [tick]; }
          mode := kinds[pairs[0].1].mode;
        }
        switched := switched + [tick];
      }
    }

    /** The loops that go on after a checkpoint request. */
    method RunUntil(target: int, exit: Option<Exit>) returns (last: Option<Exit>)
      modifies this
      ensures Outcome(State(), last) ==
        (if exit == Some(Checkpoint) then Until(old(State()), target) else Outcome(old(State()), exit))
    {
      last := exit;
      while last == Some(Checkpoint)
        invariant exit != Some(Checkpoint) ==> State() == old(State()) && last == exit
        invariant exit == Some(Checkpoint) ==>
          Until(old(State()), target) ==
          if last == Some(Checkpoint) then Until(State(), target) else Outcome(State(), last)
        decreases |tape|, last == Some(Checkpoint)
      {
        last := Simulate(target - tick);
      }
    }

    /** One period, with its checkpoint if it ends at the limit; `cause` is the cause of the first call. */
    method RunPeriod(simTicks: int, period: int) returns (event: Option<Exit>, cause: Exit)
      modifies this
      ensures event == Period(old(State()), simTicks, period).exit
      ensures State() == Marked(Period(old(State()), simTicks, period))
      ensures event.Some? ==> |tape| < |old(tape)| && cause == ExitOf(old(tape)[0])
    {
      event := Simulate(period);
      if event.None? { return event, Limit; }
      cause := event.value;
      UntilUses(State(), simTicks + period);
      event := RunUntil(simTicks + period, event);
      if event == Some(Limit) { TakeCheckpoint(); }
    }

    /** The loop over the periods, after `taken0` checkpoints and the exit event `event0`. */
    method RunPeriods(when: int, period: int, maxtick: int, max: int, taken0: int, event0: Exit)
      returns (event: Option<Exit>)
      modifies this
      ensures Outcome(State(), event) == Repeat(old(State()), when, period, maxtick, max - taken0, event0, event0)
    {
      ghost var goal := Repeat(State(), when, period, maxtick, max - taken0, event0, event0);
      event := Some(event0);
      var cause, simTicks, checkpoints := event0, when, taken0;
      while checkpoints < max && cause == Limit
        invariant event.Some? && Repeat(State(), simTicks, period, maxtick, max - checkpoints, event.value, cause) == goal
        decreases |tape|
      {
        if simTicks + period > maxtick {
          event := Simulate(maxtick - simTicks);
          return;
        }
        RepeatStep(State(), simTicks, period, maxtick, max - checkpoints, event.value);
        event, cause := RunPeriod(simTicks, period);
        if event.None? { return; }
        simTicks := simTicks + period;
        if event == Some(Limit) { checkpoints := checkpoints + 1; }
      }
    }

    method ScriptCheckpoints(when: int, period: int, maxtick: int, max: int) returns (event: Option<Exit>)
      requires taken == []
      modifies this
      ensures Outcome(State(), event) == Script(old(State()), when, period, maxtick, max)
      ensures OnSchedule(taken, when, period, maxtick) && |taken| <= Max(max, 1)
      ensures old(tick) <= when && 0 <= period ==> tick <= Max(when, maxtick)
    {
      ScriptOnSchedule(State(), when, period, maxtick, max);
      if tick <= when && 0 <= period { ScriptInTime(State(), when, period, maxtick, max); }
      var checkpoints := 0;
      event := Simulate(when - tick);
      event := RunUntil(when, event);
      if event.None? { return; }
      if event == Some(Limit) {
        TakeCheckpoint();
        checkpoints := checkpoints + 1;
      }
      event := RunPeriods(when, period, maxtick, max, checkpoints, event.value);
    }

    /** `pairs` is the list at the end. */
    method RepeatSwitch(cpuList: seq<(Cpu, Cpu)>, maxtick: int, freq: int)
      returns (event: Option<Exit>, pairs: seq<(Cpu, Cpu)>)
      modifies this
      ensures Outcome(State(), event) == Switching(old(State()), cpuList, maxtick, freq)
      ensures pairs == PairsAfter(old(State()), cpuList, maxtick, freq)
    {
      pairs := cpuList;
      while true
        invariant Switching(State(), pairs, maxtick, freq) == Switching(old(State()), cpuList, maxtick, freq)
        invariant PairsAfter(State(), pairs, maxtick, freq) == PairsAfter(old(State()), cpuList, maxtick, freq)
        decreases if freq > 0 then maxtick - tick else |tape|
      {
        event := Simulate(freq);
        if event != Some(Limit) { return; }
        var ok := SwitchCpus(pairs);
        if !ok { return None, pairs; }
        pairs := SwapAll(pairs);
        if maxtick - tick <= freq {
          event := Simulate(maxtick - tick);
          return;
        }
      }
    }
  }

  /** The loop that rebuilds the list of pairs. */
  method SwapAll(pairs: seq<(Cpu, Cpu)>) returns (swapped: seq<(Cpu, Cpu)>)
    ensures swapped == Swapped(pairs)
  {
    swapped := [];
    for i := 0 to |pairs|
      invariant |swapped| == i && forall k :: 0 <= k < i ==> swapped[k] == (pairs[k].1, pairs[k].0)
    {
      swapped := swapped + [(pairs[i].1, pairs[i].0)];
    }
    forall k | 0 <= k < |pairs| ensures swapped[k] == Swapped(pairs)[k] { SwappedAt(pairs, k); }
  }
}
