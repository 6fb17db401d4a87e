/**
  The ring buffer of `logroll.py`: the last lines of an input, kept in a list that is
  first filled and then overwritten in place.
*/
module LogRoll {
  /** The lines in the order in which `dump_lines` prints them. */
  function Dumped<T>(lines: seq<T>, idx: nat): seq<T>
    requires idx <= |lines|
  {
    lines[idx..] + lines[..idx]
  }

  /** The last `target` lines read; a target below 1 is never reached, so nothing is dropped. */
  function Recent<T>(target: int, read: seq<T>): seq<T>
  {
    if 1 <= target < |read| then read[|read| - target..] else read
  }

  /** The buffer after `read`, while it fills. */
  ghost predicate Filling<T>(target: int, lines: seq<T>, idx: nat, read: seq<T>)
  {
    lines == read && idx == |read| && !(1 <= target <= |read|)
  }

  /** The buffer after `read`, once it is full. */
  ghost predicate Full<T>(target: int, lines: seq<T>, idx: nat, read: seq<T>)
  {
    1 <= target == |lines| <= |read| && idx < target && Dumped(lines, idx) == read[|read| - target..]
  }

  /** The slot after `idx`, as both loops compute it. */
  function Next(target: int, idx: nat): nat { if idx == target - 1 then 0 else idx + 1 }

  lemma Shows<T>(target: int, lines: seq<T>, idx: nat, filled: bool, read: seq<T>)
    requires Holds(target, lines, idx, filled, read)
    ensures idx <= |lines| && Dumped(lines, idx) == Recent(target, read)
  {
  }

  lemma Fill<T>(target: int, lines: seq<T>, idx: nat, read: seq<T>, line: T)
    requires Filling(target, lines, idx, read)
    ensures Holds(target, lines + [line], Next(target, idx), idx == target - 1, read + [line])
  {
    var more := lines + [line];
    if idx == target - 1 { assert more[0..] == more && more[..0] == [] && Dumped(more, 0) == more; }
  }

  /** Overwriting the oldest line and moving on drops it and appends the new one. */
  lemma Overwrite<T>(target: int, lines: seq<T>, idx: nat, read: seq<T>, line: T)
    requires Full(target, lines, idx, read)
    ensures Full(target, lines[idx := line], Next(target, idx), read + [line])
  {
    assert Dumped(lines[idx := line], Next(target, idx)) == Dumped(lines, idx)[1..] + [line];
    assert (read + [line])[|read| + 1 - target..] == read[|read| - target..][1..] + [line];
  }

  /** Whether each entry is the buffer that the input up to there calls for. */
  ghost predicate EachRecent<T>(target: int, incoming: seq<T>, shown: seq<seq<T>>)
  {
    |shown| <= |incoming| && forall k :: 0 <= k < |shown| ==> shown[k] == Recent(target, incoming[..k + 1])
  }

  ghost predicate Holds<T>(target: int, lines: seq<T>, idx: nat, filled: bool, read: seq<T>)
  {
    if filled then Full(target, lines, idx, read) else Filling(target, lines, idx, read)
  }

  lemma ShowMore<T>(target: int, incoming: seq<T>, shown: seq<seq<T>>, dump: seq<T>)
    requires EachRecent(target, incoming, shown) && |shown| < |incoming|
    requires dump == Recent(target, incoming[..|shown|] + [incoming[|shown|]])
    ensures EachRecent(target, incoming, shown + [dump])
    ensures incoming[..|shown + [dump]|] == incoming[..|shown|] + [incoming[|shown|]]
  {
    assert incoming[..|shown| + 1] == incoming[..|shown|] + [incoming[|shown|]];
  }

  method DumpLines<T>(lines: seq<T>, idx: nat) returns (printed: seq<T>)
    requires idx <= |lines|
    ensures printed == Dumped(lines, idx)
  {
    printed := [];
    for k := idx to |lines|
      invariant printed == lines[idx..k]
    {
      printed := printed + [lines[k]];
    }
    for k := 0 to idx
      invariant printed == lines[idx..] + lines[..k]
    {
      printed := printed + [lines[k]];
    }
  }

  /** The first loop of `main`: append lines until the buffer is full or the input ends. */
  method FillLines<T>(target: int, incoming: seq<T>)
    returns (lines: seq<T>, idx: nat, filled: bool, shown: seq<seq<T>>)
    ensures EachRecent(target, incoming, shown) && (|shown| < |incoming| ==> filled)
    ensures Holds(target, lines, idx, filled, incoming[..|shown|])
  {
    lines, idx, filled, shown := [], 0, false, [];
    while |shown| < |incoming| && !filled
      invariant EachRecent(target, incoming, shown)
      invariant Holds(target, lines, idx, filled, incoming[..|shown|])
      decreases |incoming| - |shown|
    {
      var line := incoming[|shown|];
      Fill(target, lines, idx, incoming[..|shown|], line);
      lines := lines + [line];
      if idx == target - 1 {
        idx := 0;
        filled := true;
      } else {
        idx := idx + 1;
      }
      Shows(target, lines, idx, filled, incoming[..|shown|] + [line]);
      ShowMore(target, incoming, shown, Dumped(lines, idx));
      shown := shown + [Dumped(lines, idx)];
    }
  }

  /**
    `main`. `shown[k]` is what a request for the buffer prints once `k + 1` lines are
    consumed, `printed` what is printed at the end of the input.
  */
  method Roll<T>(target: int, incoming: seq<T>) returns (shown: seq<seq<T>>, printed: seq<T>)
    ensures |shown| == |incoming| && EachRecent(target, incoming, shown)
    ensures printed == Recent(target, incoming)
  {
    var lines, idx, filled;
    lines, idx, filled, shown := FillLines(target, incoming);
    while |shown| < |incoming|
      invariant EachRecent(target, incoming, shown) && (|shown| < |incoming| ==> filled)
      invariant Holds(target, lines, idx, filled, incoming[..|shown|])
      decreases |incoming| - |shown|
    {
      var line := incoming[|shown|];
      Overwrite(target, lines, idx, incoming[..|shown|], line);
      lines := lines[idx := line];
      idx := Next(target, idx);
      Shows(target, lines, idx, true, incoming[..|shown|] + [line]);
      ShowMore(target, incoming, shown, Dumped(lines, idx));
      shown := shown + [Dumped(lines, idx)];
    }
    Shows(target, lines, idx, filled, incoming[..|shown|]);
    assert incoming[..|shown|] == incoming;
    printed := DumpLines(lines, idx);
  }
}
