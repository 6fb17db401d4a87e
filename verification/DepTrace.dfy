/**
  The text form of instruction dependency records: `decode_inst_dep_trace.py` prints
  one line per record, `encode_inst_dep_trace.py` parses such lines.
*/
module DepTrace {
  import opened Common
  import opened Text

  datatype RecordType = INVALID | LOAD | STORE | COMP

  /** A record; the optional fields are absent when `HasField` is false. */
  datatype Record = Record(
    seqNum: nat, pc: Option<nat>, weight: Option<nat>, kind: RecordType,
    pAddr: Option<nat>, size: Option<nat>, flags: Option<nat>,
    compDelay: nat, robDep: seq<nat>, regDep: seq<nat>)

  function Name(t: RecordType): string
  {
    match t
    case INVALID => "INVALID"
    case LOAD => "LOAD"
    case STORE => "STORE"
    case COMP => "COMP"
  }

  function TypeNamed(s: string): Option<RecordType>
  {
    if s == "INVALID" then Some(INVALID)
    else if s == "LOAD" then Some(LOAD)
    else if s == "STORE" then Some(STORE)
    else if s == "COMP" then Some(COMP)
    else None
  }

  predicate IsMemory(t: RecordType) { t == LOAD || t == STORE }

  // ---------------------------------------------------------------- printing

  function GetOr(o: Option<nat>, default: nat): nat { if o.Some? then o.value else default }

  function Optional(o: Option<nat>): seq<string> { if o.Some? then [Show(o.value)] else [] }

  /** The comma-separated fields of a record. */
  function Info(r: Record): seq<string>
  {
    Head(r) + Optional(r.pAddr) + Optional(r.size) + Optional(r.flags) + [Show(r.compDelay)]
  }

  function Head(r: Record): seq<string>
  {
    [Show(r.seqNum), Show(GetOr(r.pc, 0)), Show(GetOr(r.weight, 1)), Name(r.kind)]
  }

  function Shown(deps: seq<nat>): seq<string>
  {
    if deps == [] then [] else [Show(deps[0])] + Shown(deps[1..])
  }

  /** Each dependence preceded by a comma. */
  function DepText(deps: seq<nat>): string { Join([""] + Shown(deps), ',') }

  function Body(r: Record): string { Join([Join(Info(r), ','), DepText(r.robDep), DepText(r.regDep)], ':') }

  function LineOf(r: Record): string { Body(r) + "\n" }

  // ---------------------------------------------------------------- parsing

  /** `int(s)` assigned to an unsigned field. */
  function ParseNat(s: string): Option<nat>
  {
    match ParseInt(s)
    case None => None
    case Some(n) => if n >= 0 then Some(n) else None
  }

  /** The loop over the parts of a dependence list: empty parts are skipped. */
  function ParseDeps(parts: seq<string>): Option<seq<nat>>
  {
    if parts == [] then Some([])
    else
      match ParseDeps(parts[1..])
      case None => None
      case Some(rest) =>
        if parts[0] == "" then Some(rest)
        else
          match ParseNat(parts[0])
          case None => None
          case Some(n) => Some([n] + rest)
  }

  /** The fields from the type on: a load or store has three more than other records. */
  datatype Tail = Tail(pAddr: Option<nat>, size: Option<nat>, flags: Option<nat>, compDelay: nat)

  function ParseTail(kind: RecordType, info: seq<string>): Option<Tail>
  {
    if IsMemory(kind) then
      if |info| < 8 then None
      else
        match (ParseNat(info[4]), ParseNat(info[5]), ParseNat(info[6]), ParseNat(info[7]))
        case (Some(a), Some(s), Some(f), Some(d)) => Some(Tail(Some(a), Some(s), Some(f), d))
        case _ => None
    else if |info| < 5 then None
    else
      match ParseNat(info[4])
      case Some(d) => Some(Tail(None, None, None, d))
      case None => None
  }

  /** `None` stands for the ValueError, IndexError or exit of the script. */
  function Parse(line: string): Option<Record>
  {
    var parts := Split(Strip(line), ':');
    if |parts| != 3 then None
    else ParseParts(Split(parts[0], ','), ParseDeps(Split(Strip(parts[1]), ',')), ParseDeps(Split(parts[2], ',')))
  }

  function ParseParts(info: seq<string>, rob: Option<seq<nat>>, reg: Option<seq<nat>>): Option<Record>
  {
    if |info| < 4 || rob.None? || reg.None? then None
    else
      match (ParseNat(info[0]), ParseNat(info[1]), ParseNat(info[2]), TypeNamed(info[3]))
      case (Some(n), Some(p), Some(w), Some(kind)) =>
        if kind == INVALID then None
        else
          (match ParseTail(kind, info)
           case None => None
           case Some(t) =>
             Some(Record(n, Some(p), Some(w), kind, t.pAddr, t.size, t.flags, t.compDelay, rob.value, reg.value)))
      case _ => None
  }

  // ---------------------------------------------------------------- round trip

  /** An absent pc stands for 0, an absent weight for 1. */
  function Normalise(r: Record): Record
  {
    r.(pc := if r.pc.None? then Some(0) else r.pc, weight := if r.weight.None? then Some(1) else r.weight)
  }

  /** The records that the two scripts can carry: the memory fields are there exactly for loads and stores. */
  predicate Regular(r: Record)
  {
    match r.kind
    case INVALID => false
    case LOAD => r.pAddr.Some? && r.size.Some? && r.flags.Some?
    case STORE => r.pAddr.Some? && r.size.Some? && r.flags.Some?
    case COMP => r.pAddr.None? && r.size.None? && r.flags.None?
  }

  lemma ParseNatShow(n: nat)
    ensures ParseNat(Show(n)) == Some(n)
  {
    ParseShow(n);
  }

  lemma {:induction false} ShownPlain(deps: seq<nat>)
    ensures |Shown(deps)| == |deps|
    ensures forall i :: 0 <= i < |deps| ==> Shown(deps)[i] == Show(deps[i])
  {
    if deps != [] { ShownPlain(deps[1..]); }
  }

  lemma {:induction false} ParseShown(deps: seq<nat>)
    ensures ParseDeps(Shown(deps)) == Some(deps)
  {
    if deps != [] {
      var s := Shown(deps);
      assert s[0] == Show(deps[0]) && s[1..] == Shown(deps[1..]);
      ParseShown(deps[1..]);
      ParseNatShow(deps[0]);
      assert [deps[0]] + deps[1..] == deps;
    }
  }

  /** A printed dependence list of any length parses to itself. */
  lemma DepsRoundTrip(deps: seq<nat>)
    ensures ParseDeps(Split(DepText(deps), ',')) == Some(deps)
    ensures ':' !in DepText(deps) && forall c :: c in DepText(deps) ==> !IsSpace(c)
  {
    var parts := [""] + Shown(deps);
    ShownPlain(deps);
    ParseShown(deps);
    assert forall i :: 0 <= i < |parts| ==> parts[i] == "" || AllDigits(parts[i]);
    SplitJoin(parts, ',');
    assert parts[1..] == Shown(deps);
    JoinChars(parts, ',');
  }

  /** A joined text holds only separators and characters of its parts. */
  lemma {:induction false} JoinChars(parts: seq<string>, sep: char)
    ensures forall c :: c in Join(parts, sep) ==> c == sep || exists i :: 0 <= i < |parts| && c in parts[i]
  {
    if |parts| > 1 {
      JoinChars(parts[1..], sep);
      forall c | c in Join(parts, sep) ensures c == sep || exists i :: 0 <= i < |parts| && c in parts[i] {
        if c in Join(parts[1..], sep) && c != sep {
          var i :| 0 <= i < |parts[1..]| && c in parts[1..][i];
          assert c in parts[i + 1];
        }
      }
    }
  }

  /** The characters of a record's fields. */
  predicate PlainChar(c: char) { IsDigit(c) || 'A' <= c <= 'Z' }

  predicate Plain(s: string) { forall i :: 0 <= i < |s| ==> PlainChar(s[i]) }

  predicate AllPlain(parts: seq<string>) { forall i :: 0 <= i < |parts| ==> Plain(parts[i]) }

  lemma PlainAppend(a: seq<string>, b: seq<string>)
    requires AllPlain(a) && AllPlain(b)
    ensures AllPlain(a + b)
  {
  }

  lemma InfoPlain(r: Record)
    ensures AllPlain(Info(r))
  {
    var a, b, c := Optional(r.pAddr), Optional(r.size), Optional(r.flags);
    assert AllPlain(Head(r)) && AllPlain(a) && AllPlain(b) && AllPlain(c) && AllPlain([Show(r.compDelay)]);
    PlainAppend(Head(r), a);
    PlainAppend(Head(r) + a, b);
    PlainAppend(Head(r) + a + b, c);
    PlainAppend(Head(r) + a + b + c, [Show(r.compDelay)]);
  }

  lemma InfoText(r: Record)
    ensures Split(Join(Info(r), ','), ',') == Info(r)
    ensures ':' !in Join(Info(r), ',') && forall c :: c in Join(Info(r), ',') ==> !IsSpace(c)
  {
    InfoPlain(r);
    SplitJoin(Info(r), ',');
    JoinChars(Info(r), ',');
  }

  /** The line splits into its three parts. */
  lemma LineSplits(r: Record)
    ensures Split(Strip(LineOf(r)), ':') == [Join(Info(r), ','), DepText(r.robDep), DepText(r.regDep)]
  {
    var parts := [Join(Info(r), ','), DepText(r.robDep), DepText(r.regDep)];
    InfoText(r);
    DepsRoundTrip(r.robDep);
    DepsRoundTrip(r.regDep);
    SplitJoin(parts, ':');
    JoinChars(parts, ':');
    StripLine(Body(r));
  }

  lemma StripLine(body: string)
    requires forall c :: c in body ==> !IsSpace(c)
    ensures Strip(body + "\n") == body
  {
    if body != "" { assert body[0] in body && body[|body| - 1] in body; }
    StripEnd(body, '\n');
    StripNothing(body);
  }

  lemma TailRoundTrip(r: Record)
    requires r.kind != INVALID
    ensures ParseTail(r.kind, Info(r)) == Some(Tail(r.pAddr, r.size, r.flags, r.compDelay)) <==> Regular(r)
  {
    var info := Info(r);
    ParseNatShow(r.compDelay);
    if r.pAddr.Some? { ParseNatShow(r.pAddr.value); }
    if r.size.Some? { ParseNatShow(r.size.value); }
    if r.flags.Some? { ParseNatShow(r.flags.value); }
  }

  /**
    A printed record parses back, with an absent pc and weight read as 0 and 1, exactly
    when it is not INVALID and carries address, size and flags if and only if it is a
    load or a store.
  */
  lemma RecordRoundTrip(r: Record)
    ensures Parse(LineOf(r)) == Some(Normalise(r)) <==> Regular(r)
  {
    LineSplits(r);
    InfoText(r);
    DepsRoundTrip(r.robDep);
    DepsRoundTrip(r.regDep);
    var rob := DepText(r.robDep);
    if rob != "" { assert rob[0] in rob && rob[|rob| - 1] in rob; }
    StripNothing(rob);
    ParseNatShow(r.seqNum);
    ParseNatShow(GetOr(r.pc, 0));
    ParseNatShow(GetOr(r.weight, 1));
    TypeRoundTrip(r.kind);
    if r.kind != INVALID { TailRoundTrip(r); }
  }

  /** A complete record parses back to itself. */
  lemma CompleteRoundTrip(r: Record)
    requires r.pc.Some? && r.weight.Some?
    ensures Parse(LineOf(r)) == Some(r) <==> Regular(r)
  {
    RecordRoundTrip(r);
  }

  /** A missing pc is read back as 0 and a missing weight as 1; nothing else changes. */
  lemma AbsentFields(r: Record)
    requires Regular(r)
    ensures r.pc.None? && r.weight.Some? ==> Parse(LineOf(r)) == Some(r.(pc := Some(0)))
    ensures r.pc.Some? && r.weight.None? ==> Parse(LineOf(r)) == Some(r.(weight := Some(1)))
    ensures r.pc.None? && r.weight.None? ==> Parse(LineOf(r)) == Some(r.(pc := Some(0), weight := Some(1)))
  {
    RecordRoundTrip(r);
  }

  /** The text of an optional field. */
  function Extra(o: Option<nat>): string { if o.Some? then "," + Show(o.value) else "" }

  /** A line, character by character. */
  lemma LineFormat(r: Record)
    ensures LineOf(r) ==
      Show(r.seqNum) + "," + (if r.pc.Some? then Show(r.pc.value) else "0") +
      "," + (if r.weight.Some? then Show(r.weight.value) else "1") + "," + Name(r.kind) +
      Extra(r.pAddr) + Extra(r.size) + Extra(r.flags) + "," + Show(r.compDelay) +
      ":" + DepText(r.robDep) + ":" + DepText(r.regDep) + "\n"
  {
    InfoFormat(r);
    JoinThree(Join(Info(r), ','), DepText(r.robDep), DepText(r.regDep), ':');
  }

  lemma InfoFormat(r: Record)
    ensures Join(Info(r), ',') ==
      Show(r.seqNum) + "," + (if r.pc.Some? then Show(r.pc.value) else "0") +
      "," + (if r.weight.Some? then Show(r.weight.value) else "1") + "," + Name(r.kind) +
      Extra(r.pAddr) + Extra(r.size) + Extra(r.flags) + "," + Show(r.compDelay)
  {
    var h, a, s, f := Head(r), Optional(r.pAddr), Optional(r.size), Optional(r.flags);
    HeadFormat(r);
    JoinOptional(h, r.pAddr);
    JoinOptional(h + a, r.size);
    JoinOptional(h + a + s, r.flags);
    JoinLast(h + a + s + f, Show(r.compDelay), ',');
  }

  lemma HeadFormat(r: Record)
    ensures Join(Head(r), ',') ==
      Show(r.seqNum) + "," + (if r.pc.Some? then Show(r.pc.value) else "0") +
      "," + (if r.weight.Some? then Show(r.weight.value) else "1") + "," + Name(r.kind)
  {
    assert Show(0) == "0" && Show(1) == "1";
    var h := Head(r);
    JoinThree(h[0], h[1], h[2], ',');
    JoinLast([h[0], h[1], h[2]], h[3], ',');
    assert h == [h[0], h[1], h[2]] + [h[3]];
  }

  lemma JoinOptional(parts: seq<string>, o: Option<nat>)
    requires parts != []
    ensures Join(parts + Optional(o), ',') == Join(parts, ',') + Extra(o)
  {
    if o.Some? { JoinLast(parts, Show(o.value), ','); } else { assert parts + [] == parts; }
  }

  /** A dependence list: a comma in front of every number. */
  lemma DepFormat(deps: seq<nat>)
    ensures DepText([]) == ""
    ensures deps != [] ==> DepText(deps) == "," + Show(deps[0]) + DepText(deps[1..])
  {
    if deps != [] {
      DepJoin(deps);
      var rest := Shown(deps[1..]);
      assert Shown(deps) == [Show(deps[0])] + rest && Shown(deps)[1..] == rest;
      if |deps| > 1 {
        DepJoin(deps[1..]);
        assert Join(Shown(deps), ',') == Show(deps[0]) + "," + Join(rest, ',');
      }
    }
  }

  lemma DepJoin(deps: seq<nat>)
    requires deps != []
    ensures DepText(deps) == "," + Join(Shown(deps), ',')
  {
    assert ([""] + Shown(deps))[1..] == Shown(deps);
  }

  lemma TypeRoundTrip(t: RecordType)
    ensures TypeNamed(Name(t)) == Some(t)
  {
    assert Name(LOAD)[0] == 'L' && Name(STORE)[0] == 'S' && Name(COMP)[0] == 'C' && Name(INVALID)[0] == 'I';
  }

  // ---------------------------------------------------------------- whole traces

  /** The lines of a text, each with its newline. */
  function Lines(s: string): seq<string>
    decreases |s|
  {
    if s == "" then []
    else
      var n := LineEnd(s);
      [s[..n]] + Lines(s[n..])
  }

  function LineEnd(s: string): (n: nat)
    requires s != ""
    ensures 0 < n <= |s|
  {
    if s[0] == '\n' || |s| == 1 then 1 else 1 + LineEnd(s[1..])
  }

  lemma {:induction false} LineEndAt(a: string, rest: string)
    requires '\n' !in a
    ensures LineEnd(a + "\n" + rest) == |a| + 1
  {
    var s := a + "\n" + rest;
    if a != "" {
      assert s[0] == a[0] && s[1..] == a[1..] + "\n" + rest;
      LineEndAt(a[1..], rest);
    }
  }

  function Print(rs: seq<Record>): string
  {
    if rs == [] then "" else LineOf(rs[0]) + Print(rs[1..])
  }

  function ParseAll(lines: seq<string>): Option<seq<Record>>
  {
    if lines == [] then Some([])
    else
      match (Parse(lines[0]), ParseAll(lines[1..]))
      case (Some(r), Some(rest)) => Some([r] + rest)
      case _ => None
  }

  function NormaliseAll(rs: seq<Record>): seq<Record>
  {
    if rs == [] then [] else [Normalise(rs[0])] + NormaliseAll(rs[1..])
  }

  predicate AllRegular(rs: seq<Record>) { forall i :: 0 <= i < |rs| ==> Regular(rs[i]) }

  lemma RegularCons(rs: seq<Record>)
    requires rs != []
    ensures AllRegular(rs) <==> Regular(rs[0]) && AllRegular(rs[1..])
  {
    assert forall i :: 0 < i < |rs| ==> rs[i] == rs[1..][i - 1];
  }

  lemma FirstLine(r: Record, rest: string)
    ensures Lines(LineOf(r) + rest) == [LineOf(r)] + Lines(rest)
  {
    var s := LineOf(r) + rest;
    BodyHasNoNewline(r);
    LineEndAt(Body(r), rest);
    assert s == Body(r) + "\n" + rest;
    assert s[..|LineOf(r)|] == LineOf(r) && s[|LineOf(r)|..] == rest;
  }

  /** A list of lines parses to given records exactly when its first line and the other lines do. */
  lemma ParseCons(line: string, lines: seq<string>, r: Record, rs: seq<Record>)
    ensures ParseAll([line] + lines) == Some([r] + rs) <==> Parse(line) == Some(r) && ParseAll(lines) == Some(rs)
  {
    assert ([line] + lines)[0] == line && ([line] + lines)[1..] == lines;
    if Parse(line).Some? && ParseAll(lines).Some? {
      var x, xs := Parse(line).value, ParseAll(lines).value;
      assert ([x] + xs)[0] == x && ([x] + xs)[1..] == xs && ([r] + rs)[0] == r && ([r] + rs)[1..] == rs;
    }
  }

  /** Encoding what was decoded gives back a whole trace exactly when every record of it is regular. */
  lemma {:induction false} TraceRoundTrip(rs: seq<Record>)
    ensures ParseAll(Lines(Print(rs))) == Some(NormaliseAll(rs)) <==> AllRegular(rs)
  {
    if rs != [] {
      RegularCons(rs);
      RecordRoundTrip(rs[0]);
      TraceRoundTrip(rs[1..]);
      FirstLine(rs[0], Print(rs[1..]));
      ParseCons(LineOf(rs[0]), Lines(Print(rs[1..])), Normalise(rs[0]), NormaliseAll(rs[1..]));
    }
  }

  lemma BodyHasNoNewline(r: Record)
    ensures '\n' !in Body(r)
  {
    InfoText(r);
    DepsRoundTrip(r.robDep);
    DepsRoundTrip(r.regDep);
    var parts := [Join(Info(r), ','), DepText(r.robDep), DepText(r.regDep)];
    assert forall i :: 0 <= i < |parts| ==> '\n' !in parts[i];
    JoinLacks(parts, ':', '\n');
  }

  // ---------------------------------------------------------------- the loops of the scripts

  /** Writes each dependence after a comma. */
  method WriteDeps(deps: seq<nat>) returns (out: string)
    ensures out == DepText(deps)
  {
    out := "";
    for n := 0 to |deps|
      invariant out == DepText(deps[..n])
    {
      ShownLast(deps[..n], deps[n]);
      JoinLast([""] + Shown(deps[..n]), Show(deps[n]), ',');
      assert deps[..n + 1] == deps[..n] + [deps[n]];
      assert [""] + Shown(deps[..n + 1]) == [""] + Shown(deps[..n]) + [Show(deps[n])];
      out := out + "," + Show(deps[n]);
    }
    assert deps[..|deps|] == deps;
  }

  lemma {:induction false} ShownLast(deps: seq<nat>, x: nat)
    ensures Shown(deps + [x]) == Shown(deps) + [Show(x)]
  {
    if deps == [] {
      assert deps + [x] == [x] && [x][1..] == [];
    } else {
      assert (deps + [x])[1..] == deps[1..] + [x];
      ShownLast(deps[1..], x);
    }
  }

  /** One more field after a comma. */
  method Field(out: string, ghost parts: seq<string>, x: string) returns (out': string)
    requires parts != [] && out == Join(parts, ',')
    ensures out' == Join(parts + [x], ',')
  {
    JoinLast(parts, x, ',');
    out' := out + "," + x;
  }

  method OptionalField(out: string, ghost parts: seq<string>, x: Option<nat>) returns (out': string)
    requires parts != [] && out == Join(parts, ',')
    ensures out' == Join(parts + Optional(x), ',')
  {
    if x.Some? {
      out' := Field(out, parts, Show(x.value));
    } else {
      assert parts + [] == parts;
      out' := out;
    }
  }

  method WriteHead(r: Record) returns (out: string)
    ensures out == Join(Head(r), ',')
  {
    out := Show(r.seqNum);
    var pc := if r.pc.Some? then Show(r.pc.value) else "0";
    var weight := if r.weight.Some? then Show(r.weight.value) else "1";
    assert Show(0) == "0" && Show(1) == "1";
    out := Field(out, [Show(r.seqNum)], pc);
    out := Field(out, [Show(r.seqNum), pc], weight);
    assert [Show(r.seqNum), pc] + [weight] == [Show(r.seqNum), pc, weight];
    out := Field(out, [Show(r.seqNum), pc, weight], Name(r.kind));
    assert [Show(r.seqNum), pc, weight] + [Name(r.kind)] == Head(r);
  }

  method WriteInfo(r: Record) returns (out: string)
    ensures out == Join(Info(r), ',')
  {
    out := WriteHead(r);
    out := OptionalField(out, Head(r), r.pAddr);
    out := OptionalField(out, Head(r) + Optional(r.pAddr), r.size);
    out := OptionalField(out, Head(r) + Optional(r.pAddr) + Optional(r.size), r.flags);
    out := Field(out, Head(r) + Optional(r.pAddr) + Optional(r.size) + Optional(r.flags), Show(r.compDelay));
  }

  /** Writes one record as the decoding script does, field by field. */
  method WriteRecord(r: Record) returns (line: string)
    ensures line == LineOf(r)
  {
    var out := WriteInfo(r);
    var rob := WriteDeps(r.robDep);
    var reg := WriteDeps(r.regDep);
    JoinThree(out, rob, reg, ':');
    line := out + ":" + rob + ":" + reg + "\n";
  }

  /** Reads the non-empty parts of a dependence list. */
  method ReadDeps(parts: seq<string>) returns (deps: Option<seq<nat>>)
    ensures deps == ParseDeps(parts)
  {
    var out: seq<nat> := [];
    var i := 0;
    assert parts[0..] == parts;
    if ParseDeps(parts).Some? { assert [] + ParseDeps(parts).value == ParseDeps(parts).value; }
    while i < |parts|
      invariant 0 <= i <= |parts| && Resumes(ParseDeps(parts), out, ParseDeps(parts[i..]))
    {
      assert parts[i..][0] == parts[i] && parts[i..][1..] == parts[i + 1..];
      if parts[i] != "" {
        var n := ParseNat(parts[i]);
        if n.None? { return None; }
        ghost var rest := ParseDeps(parts[i + 1..]);
        if rest.Some? { assert out + ([n.value] + rest.value) == out + [n.value] + rest.value; }
        out := out + [n.value];
      }
      i := i + 1;
    }
    assert out + [] == out;
    deps := Some(out);
  }

  /** The whole list is what was read so far followed by the rest, if the rest can be read. */
  ghost predicate Resumes(all: Option<seq<nat>>, out: seq<nat>, rest: Option<seq<nat>>)
  {
    all == if rest.None? then None else Some(out + rest.value)
  }

  /** Parses one line as the encoding script does. */
  method ReadLine(line: string) returns (r: Option<Record>)
    ensures r == Parse(line)
  {
    var parts := Split(Strip(line), ':');
    if |parts| != 3 { return None; }
    var info := Split(parts[0], ',');
    if |info| < 4 { return None; }
    var n, p, w, kind := ParseNat(info[0]), ParseNat(info[1]), ParseNat(info[2]), TypeNamed(info[3]);
    if n.None? || p.None? || w.None? || kind.None? || kind.value == INVALID { return None; }
    var tail := ParseTail(kind.value, info);
    if tail.None? { return None; }
    var rob := ReadDeps(Split(Strip(parts[1]), ','));
    var reg := ReadDeps(Split(parts[2], ','));
    if rob.None? || reg.None? { return None; }
    var t := tail.value;
    r := Some(Record(n.value, p, w, kind.value, t.pAddr, t.size, t.flags, t.compDelay, rob.value, reg.value));
  }
}
