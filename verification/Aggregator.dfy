/**
  The checkpoint aggregator, `checkpoint_aggregator.py`.

  Several single-system checkpoints become one: their memory images are laid out one
  after the other, the physical addresses in their cpu sections are moved by the pages
  laid out before, and the cpu sections are renamed by the number of their checkpoint.
*/
module Aggregator {
  import opened Common
  import opened Text

  const PAGE := 4096

  /** A section of a checkpoint's configuration file. */
  datatype Section = Section(name: string, items: map<string, string>)

  /** `pages` is `pagePtr` of section "system", `curTick` that of section "Globals". */
  datatype Checkpoint = Checkpoint(sections: seq<Section>, pages: nat, curTick: nat, image: seq<byte>)

  // ---------------------------------------------------------------- section names

  const CPU: string := "cpu"

  predicate StartsWithCpu(s: string) { |s| >= 3 && s[0] == 'c' && s[1] == 'p' && s[2] == 'u' }

  predicate HasCpu(s: string) { s != "" && (StartsWithCpu(s) || HasCpu(s[1..])) }

  /** `re.sub("cpu", "cpu" + d, s)`. */
  function Rename(s: string, d: string): string
  {
    if s == "" then ""
    else if StartsWithCpu(s) then CPU + d + Rename(s[3..], d)
    else [s[0]] + Rename(s[1..], d)
  }

  /** Removes the `w` characters after each "cpu". */
  function Unrename(t: string, w: nat): string
  {
    if t == "" then ""
    else if StartsWithCpu(t) && |t| >= 3 + w then CPU + Unrename(t[3 + w..], w)
    else [t[0]] + Unrename(t[1..], w)
  }

  /** The `w` characters after the first "cpu". */
  function TagOf(t: string, w: nat): string
  {
    if t == "" then ""
    else if StartsWithCpu(t) && |t| >= 3 + w then t[3..3 + w]
    else TagOf(t[1..], w)
  }

  lemma RenameHead(s: string, d: string)
    ensures s == "" <==> Rename(s, d) == ""
    ensures s != "" ==> Rename(s, d)[0] == s[0]
  {
  }

  /** Renaming creates no new "cpu". */
  lemma RenameKeepsCpu(s: string, d: string)
    requires s != "" && !StartsWithCpu(s)
    ensures !StartsWithCpu(Rename(s, d))
  {
    var t, u := Rename(s, d), Rename(s[1..], d);
    assert t == [s[0]] + u;
    if s[0] == 'c' && |s| > 1 {
      RenameHead(s[1..], d);
      if s[1] == 'p' { SecondHead(s[1..], d); }
    }
  }

  lemma SecondHead(s: string, d: string)
    requires s != "" && s[0] == 'p'
    ensures |s| == 1 ==> |Rename(s, d)| == 1
    ensures |s| > 1 ==> |Rename(s, d)| > 1 && Rename(s, d)[1] == s[1]
  {
    assert Rename(s, d) == [s[0]] + Rename(s[1..], d);
    RenameHead(s[1..], d);
  }

  lemma {:induction false} UnrenameRename(s: string, d: string)
    ensures Unrename(Rename(s, d), |d|) == s
    ensures HasCpu(s) ==> TagOf(Rename(s, d), |d|) == d
  {
    var t := Rename(s, d);
    if s == "" {
    } else if StartsWithCpu(s) {
      UnrenameRename(s[3..], d);
      assert t[..3] == CPU && t[3..3 + |d|] == d && t[3 + |d|..] == Rename(s[3..], d);
      assert s == CPU + s[3..];
    } else {
      UnrenameRename(s[1..], d);
      RenameKeepsCpu(s, d);
      assert t[1..] == Rename(s[1..], d);
      assert s == [s[0]] + s[1..];
    }
  }

  lemma {:induction false} RenameHasCpu(s: string, d: string)
    ensures HasCpu(Rename(s, d)) <==> HasCpu(s)
  {
    var t := Rename(s, d);
    if s == "" {
    } else if StartsWithCpu(s) {
      assert t[..3] == CPU;
    } else {
      RenameKeepsCpu(s, d);
      assert t[1..] == Rename(s[1..], d);
      RenameHasCpu(s[1..], d);
    }
  }

  /** The number that is inserted for checkpoint `i` of `n`. */
  function TagFor(i: nat, n: nat): string
    requires i < n
  {
    Zfill(Show(i), |Show(n - 1)|)
  }

  /** It is the number of the checkpoint, with as many digits as the largest one. */
  lemma TagMeaning(i: nat, n: nat)
    requires i < n
    ensures AllDigits(TagFor(i, n)) && Value(TagFor(i, n)) == i && |TagFor(i, n)| == |Show(n - 1)|
  {
    ShowLength(i, n - 1);
    ZfillValue(i, |Show(n - 1)|);
  }

  predicate CpuAt(s: string, k: nat) { k + 2 < |s| && s[k] == 'c' && s[k + 1] == 'p' && s[k + 2] == 'u' }

  lemma {:induction false} HasCpuMeaning(s: string)
    ensures HasCpu(s) <==> exists k :: 0 <= k < |s| && CpuAt(s, k)
  {
    if s != "" {
      HasCpuMeaning(s[1..]);
      assert forall k :: 0 <= k < |s[1..]| ==> (CpuAt(s[1..], k) <==> CpuAt(s, k + 1));
      assert StartsWithCpu(s) <==> CpuAt(s, 0);
      if k :| 0 < k < |s| && CpuAt(s, k) { assert CpuAt(s[1..], k - 1); }
    }
  }

  function NewName(i: nat, n: nat, sec: string): string
    requires i < n
  {
    Rename(sec, TagFor(i, n))
  }

  /** Cpu sections of different checkpoints, or with different names, never collide. */
  lemma NewNameInjective(i: nat, s: string, j: nat, t: string, n: nat)
    requires i < n && j < n && HasCpu(s) && HasCpu(t) && NewName(i, n, s) == NewName(j, n, t)
    ensures i == j && s == t
  {
    ShowLength(i, n - 1);
    ShowLength(j, n - 1);
    UnrenameRename(s, TagFor(i, n));
    UnrenameRename(t, TagFor(j, n));
    ZfillInjective(i, j, |Show(n - 1)|);
  }

  // ---------------------------------------------------------------- sections

  /** Pages of the checkpoints before the `i`-th: `page_ptr` when it is processed. */
  function PagePtr(cpts: seq<Checkpoint>, i: nat): nat
    requires i <= |cpts|
  {
    if i == 0 then 0 else PagePtr(cpts, i - 1) + cpts[i - 1].pages
  }

  function Offset(cpts: seq<Checkpoint>, i: nat): nat
    requires i <= |cpts|
  {
    PagePtr(cpts, i) * PAGE
  }

  predicate AddressOk(items: map<string, string>) { "paddr" in items ==> ParseInt(items["paddr"]).Some? }

  function Relocated(items: map<string, string>, offset: int): map<string, string>
    requires AddressOk(items)
  {
    if "paddr" in items then items["paddr" := ShowInt(ParseInt(items["paddr"]).value + offset)] else items
  }

  /** `re.search("workload.FdMap256$", s)` for a name on one line. */
  predicate IsFdMap(s: string)
  {
    var w, f := "workload", "FdMap256";
    var n := |w| + 1 + |f|;
    |s| >= n && s[|s| - n..|s| - n + |w|] == w && s[|s| - |f| - 1] != '\n' && s[|s| - |f|..] == f
  }

  /** A name that ends in "workload", one character and "FdMap256". */
  ghost predicate FdMapName(s: string)
  {
    exists pre: string, c: char :: s == pre + "workload" + [c] + "FdMap256" && c != '\n'
  }

  lemma IsFdMapMeaning(s: string)
    ensures IsFdMap(s) <==> FdMapName(s)
  {
    if IsFdMap(s) {
      var n := |s| - 17;
      assert s == s[..n] + s[n..n + 8] + [s[n + 8]] + s[n + 9..];
    }
    if FdMapName(s) {
      var pre: string, c: char :| s == pre + "workload" + [c] + "FdMap256" && c != '\n';
      assert s[|s| - 17..|s| - 9] == "workload" && s[|s| - 9] == c && s[|s| - 8..] == "FdMap256";
    }
  }

  /** The section of checkpoint `i` of `n` that a cpu section becomes. */
  function Moved(i: nat, n: nat, offset: int, sec: Section): Section
    requires i < n && AddressOk(sec.items)
  {
    var items := Relocated(sec.items, offset);
    Section(NewName(i, n, sec.name), if IsFdMap(sec.name) then items["M5_pid" := ShowInt(i)] else items)
  }

  /** What the loop over the sections of checkpoint `i` writes; `None` is the ValueError of a bad address. */
  function Merged(i: nat, n: nat, offset: int, secs: seq<Section>): Option<seq<Section>>
    requires i < n
  {
    if secs == [] then Some([])
    else
      match Merged(i, n, offset, secs[..|secs| - 1])
      case None => None
      case Some(done) =>
        var sec := secs[|secs| - 1];
        if HasCpu(sec.name) then
          if AddressOk(sec.items) then Some(done + [Moved(i, n, offset, sec)]) else None
        else if sec.name == "system" || sec.name == "Globals" || i != n - 1 then Some(done)
        else Some(done + [sec])
  }

  /** The sections written for the first `k` checkpoints. */
  function MergedAll(cpts: seq<Checkpoint>, k: nat): Option<seq<Section>>
    requires k <= |cpts|
  {
    if k == 0 then Some([])
    else
      match (MergedAll(cpts, k - 1), Merged(k - 1, |cpts|, Offset(cpts, k - 1), cpts[k - 1].sections))
      case (Some(a), Some(b)) => Some(a + b)
      case _ => None
  }

  /** Whether section `sec` of checkpoint `i` of `n` is written, and as `out`. */
  ghost predicate Becomes(i: nat, n: nat, offset: int, sec: Section, out: Section)
    requires i < n
  {
    if HasCpu(sec.name) then AddressOk(sec.items) && out == Moved(i, n, offset, sec)
    else sec.name != "system" && sec.name != "Globals" && i == n - 1 && out == sec
  }

  lemma {:induction false} MergedHas(i: nat, n: nat, offset: int, secs: seq<Section>, sec: Section, out: Section)
    requires i < n && Merged(i, n, offset, secs).Some? && sec in secs && Becomes(i, n, offset, sec, out)
    ensures out in Merged(i, n, offset, secs).value
  {
    var k := |secs| - 1;
    if sec != secs[k] {
      assert secs == secs[..k] + [secs[k]];
      MergedHas(i, n, offset, secs[..k], sec, out);
    }
  }

  /** Every written section comes from a section of the checkpoint. */
  lemma {:induction false} MergedFrom(i: nat, n: nat, offset: int, secs: seq<Section>, out: Section)
    returns (sec: Section)
    requires i < n && Merged(i, n, offset, secs).Some? && out in Merged(i, n, offset, secs).value
    ensures sec in secs && Becomes(i, n, offset, sec, out)
  {
    var k := |secs| - 1;
    var done := Merged(i, n, offset, secs[..k]).value;
    if out in done {
      sec := MergedFrom(i, n, offset, secs[..k], out);
    } else {
      sec := secs[k];
    }
  }

  lemma {:induction false} MergedIncludes(cpts: seq<Checkpoint>, k: nat, i: nat, out: Section)
    requires i < k <= |cpts| && MergedAll(cpts, k).Some?
    requires Merged(i, |cpts|, Offset(cpts, i), cpts[i].sections).Some?
    requires out in Merged(i, |cpts|, Offset(cpts, i), cpts[i].sections).value
    ensures out in MergedAll(cpts, k).value
  {
    if i < k - 1 { MergedIncludes(cpts, k - 1, i, out); }
  }

  /** Written sections with equal names come from one section of one checkpoint. */
  lemma NamesNeverCollide(i: nat, s: Section, si: Section, j: nat, t: Section, tj: Section, n: nat, oi: int, oj: int)
    requires i < n && j < n && Becomes(i, n, oi, s, si) && Becomes(j, n, oj, t, tj) && si.name == tj.name
    ensures i == j && s.name == t.name
  {
    RenameHasCpu(s.name, TagFor(i, n));
    RenameHasCpu(t.name, TagFor(j, n));
    if HasCpu(s.name) && HasCpu(t.name) { NewNameInjective(i, s.name, j, t.name, n); }
  }

  /** Every checkpoint merges when all of them do. */
  lemma {:induction false} MergedEach(cpts: seq<Checkpoint>, k: nat, i: nat)
    requires i < k <= |cpts| && MergedAll(cpts, k).Some?
    ensures Merged(i, |cpts|, Offset(cpts, i), cpts[i].sections).Some?
  {
    if i < k - 1 { MergedEach(cpts, k - 1, i); }
  }

  lemma {:induction false} AddressesOk(i: nat, n: nat, offset: int, secs: seq<Section>, sec: Section)
    requires i < n && Merged(i, n, offset, secs).Some? && sec in secs && HasCpu(sec.name)
    ensures AddressOk(sec.items)
  {
    if sec != secs[|secs| - 1] {
      assert secs == secs[..|secs| - 1] + [secs[|secs| - 1]];
      AddressesOk(i, n, offset, secs[..|secs| - 1], sec);
    }
  }

  /** Sections are written in the order in which they are read. */
  lemma {:induction false} MergedInOrder(i: nat, n: nat, offset: int, secs: seq<Section>, j: nat)
    requires i < n && j <= |secs| && Merged(i, n, offset, secs).Some?
    ensures Merged(i, n, offset, secs[..j]).Some?
    ensures Merged(i, n, offset, secs[..j]).value <= Merged(i, n, offset, secs).value
    decreases |secs|
  {
    var k := |secs| - 1;
    if j <= k {
      MergedInOrder(i, n, offset, secs[..k], j);
      assert secs[..k][..j] == secs[..j];
    } else {
      assert secs[..j] == secs;
    }
  }

  /** And so are the checkpoints. */
  lemma {:induction false} WrittenInOrder(cpts: seq<Checkpoint>, j: nat, k: nat)
    requires j <= k <= |cpts| && MergedAll(cpts, k).Some?
    ensures MergedAll(cpts, j).Some? && MergedAll(cpts, j).value <= MergedAll(cpts, k).value
    decreases k
  {
    if j < k { WrittenInOrder(cpts, j, k - 1); }
  }

  /** The cpu sections of a checkpoint have addresses that are numbers. */
  predicate GoodAddresses(secs: seq<Section>)
  {
    forall k :: 0 <= k < |secs| && HasCpu(secs[k].name) && "paddr" in secs[k].items ==>
      ParseInt(secs[k].items["paddr"]).Some?
  }

  lemma {:induction false} MergesOne(i: nat, n: nat, offset: int, secs: seq<Section>)
    requires i < n
    ensures Merged(i, n, offset, secs).Some? <==> GoodAddresses(secs)
  {
    if secs != [] {
      var k := |secs| - 1;
      MergesOne(i, n, offset, secs[..k]);
      assert secs == secs[..k] + [secs[k]];
    }
  }

  /** Nothing but a bad address keeps checkpoints from being merged. */
  lemma {:induction false} MergesIff(cpts: seq<Checkpoint>, k: nat)
    requires k <= |cpts|
    ensures MergedAll(cpts, k).Some? <==> forall i :: 0 <= i < k ==> GoodAddresses(cpts[i].sections)
  {
    if k > 0 {
      MergesIff(cpts, k - 1);
      MergesOne(k - 1, |cpts|, Offset(cpts, k - 1), cpts[k - 1].sections);
    }
  }

  // ---------------------------------------------------------------- memory

  /** The bytes that the page loop copies: a short image yields short reads. */
  function Copied(c: Checkpoint): seq<byte>
  {
    if c.pages * PAGE <= |c.image| then c.image[..c.pages * PAGE] else c.image
  }

  predicate Complete(c: Checkpoint) { c.pages * PAGE <= |c.image| }

  function Images(cpts: seq<Checkpoint>, k: nat): seq<byte>
    requires k <= |cpts|
  {
    if k == 0 then [] else Images(cpts, k - 1) + Copied(cpts[k - 1])
  }

  /** `"".zfill(4096)` is a page of the digit 0. */
  function PadPages(pages: nat, memorySize: int): nat
    decreases memorySize - pages * PAGE
  {
    if pages * PAGE < memorySize then 1 + PadPages(pages + 1, memorySize) else 0
  }

  function Padding(n: nat): seq<byte> { seq(n * PAGE, _ => '0' as int) }

  function Memory(cpts: seq<Checkpoint>, memorySize: int): seq<byte>
  {
    Images(cpts, |cpts|) + Padding(PadPages(PagePtr(cpts, |cpts|), memorySize))
  }

  /** `range_size` in the merged configuration. */
  function RangeSize(cpts: seq<Checkpoint>, memorySize: int): nat
  {
    var p := PagePtr(cpts, |cpts|);
    (p + PadPages(p, memorySize)) * PAGE
  }

  /** The image of checkpoint `i` starts at its offset exactly when all images before it are complete. */
  lemma {:induction false} ImagesLength(cpts: seq<Checkpoint>, k: nat)
    requires k <= |cpts|
    ensures |Images(cpts, k)| <= Offset(cpts, k)
    ensures |Images(cpts, k)| == Offset(cpts, k) <==> forall j :: 0 <= j < k ==> Complete(cpts[j])
  {
    if k > 0 { ImagesLength(cpts, k - 1); }
  }

  lemma {:induction false} ImagesPrefix(cpts: seq<Checkpoint>, i: nat, k: nat)
    requires i <= k <= |cpts|
    ensures Images(cpts, i) <= Images(cpts, k)
    decreases k - i
  {
    if i < k { ImagesPrefix(cpts, i, k - 1); }
  }

  lemma {:induction false} OffsetMonotone(cpts: seq<Checkpoint>, i: nat, j: nat)
    requires i < j <= |cpts|
    ensures Offset(cpts, i) + cpts[i].pages * PAGE <= Offset(cpts, j)
    decreases j - i
  {
    if i < j - 1 { OffsetMonotone(cpts, i, j - 1); }
  }

  /** Different checkpoints occupy disjoint addresses of the merged memory. */
  lemma ImagesDisjoint(cpts: seq<Checkpoint>, i: nat, a: nat, j: nat, b: nat)
    requires i < |cpts| && j < |cpts| && a < cpts[i].pages * PAGE && b < cpts[j].pages * PAGE
    requires Offset(cpts, i) + a == Offset(cpts, j) + b
    ensures i == j && a == b
  {
    if i < j { OffsetMonotone(cpts, i, j); }
    if j < i { OffsetMonotone(cpts, j, i); }
  }

  /** Reading the merged memory at a relocated address gives the original byte. */
  lemma RelocationPreservesBytes(cpts: seq<Checkpoint>, memorySize: int, i: nat, a: nat)
    requires i < |cpts| && a < cpts[i].pages * PAGE && forall j :: 0 <= j <= i ==> Complete(cpts[j])
    ensures var p := Offset(cpts, i) + a;
      a < |cpts[i].image| && p < |Memory(cpts, memorySize)| && Memory(cpts, memorySize)[p] == cpts[i].image[a]
  {
    ImagesLength(cpts, i);
    ImagesPrefix(cpts, i + 1, |cpts|);
    var all := Images(cpts, |cpts|);
    var p := Offset(cpts, i) + a;
    assert Images(cpts, i + 1)[p] == Copied(cpts[i])[a];
    assert all[p] == Images(cpts, i + 1)[p];
  }

  /** `range_size` is the number of bytes written exactly when every image is complete. */
  lemma RangeSizeExact(cpts: seq<Checkpoint>, memorySize: int)
    ensures RangeSize(cpts, memorySize) == |Memory(cpts, memorySize)| <==>
      forall j :: 0 <= j < |cpts| ==> Complete(cpts[j])
    ensures RangeSize(cpts, memorySize) >= memorySize && RangeSize(cpts, memorySize) % 4096 == 0
    ensures RangeSize(cpts, memorySize) >= PagePtr(cpts, |cpts|) * 4096
    ensures RangeSize(cpts, memorySize) == PagePtr(cpts, |cpts|) * 4096 || RangeSize(cpts, memorySize) < memorySize + 4096
    ensures forall p :: |Images(cpts, |cpts|)| <= p < |Memory(cpts, memorySize)| ==> Memory(cpts, memorySize)[p] == 48
  {
    ImagesLength(cpts, |cpts|);
    PadEnough(PagePtr(cpts, |cpts|), memorySize);
  }

  lemma {:induction false} PadEnough(pages: nat, memorySize: int)
    ensures (pages + PadPages(pages, memorySize)) * PAGE >= memorySize
    ensures PadPages(pages, memorySize) > 0 ==> (pages + PadPages(pages, memorySize) - 1) * PAGE < memorySize
    decreases memorySize - pages * PAGE
  {
    if pages * PAGE < memorySize { PadEnough(pages + 1, memorySize); }
  }

  /**
    An address keeps its meaning: for a cpu section with physical address `a` inside the
    pages of its checkpoint, the merged configuration has the renamed section, and the
    address in it reads the byte that `a` reads in the original image.
  */
  lemma AddressKeepsMeaning(cpts: seq<Checkpoint>, memorySize: int, i: nat, sec: Section, a: nat)
    requires i < |cpts| && (forall j :: 0 <= j <= i ==> Complete(cpts[j])) && MergedAll(cpts, |cpts|).Some?
    requires sec in cpts[i].sections && HasCpu(sec.name)
    requires "paddr" in sec.items && ParseInt(sec.items["paddr"]) == Some(a) && a < cpts[i].pages * PAGE
    ensures AddressOk(sec.items)
    ensures var out := Moved(i, |cpts|, Offset(cpts, i), sec);
      && out in MergedAll(cpts, |cpts|).value
      && out.name == NewName(i, |cpts|, sec.name)
      && "paddr" in out.items && ParseInt(out.items["paddr"]) == Some(Offset(cpts, i) + a)
    ensures Offset(cpts, i) + a < |Memory(cpts, memorySize)| && a < |cpts[i].image|
    ensures Memory(cpts, memorySize)[Offset(cpts, i) + a] == cpts[i].image[a]
  {
    SectionWritten(cpts, i, sec);
    MovedAddress(i, |cpts|, Offset(cpts, i), sec, a);
    RelocationPreservesBytes(cpts, memorySize, i, a);
  }

  /** A cpu section of a checkpoint is written under its new name. */
  lemma SectionWritten(cpts: seq<Checkpoint>, i: nat, sec: Section)
    requires i < |cpts| && MergedAll(cpts, |cpts|).Some? && sec in cpts[i].sections && HasCpu(sec.name)
    ensures AddressOk(sec.items) && Moved(i, |cpts|, Offset(cpts, i), sec) in MergedAll(cpts, |cpts|).value
  {
    var n, off := |cpts|, Offset(cpts, i);
    MergedEach(cpts, n, i);
    AddressesOk(i, n, off, cpts[i].sections, sec);
    var out := Moved(i, n, off, sec);
    MergedHas(i, n, off, cpts[i].sections, sec, out);
    MergedIncludes(cpts, n, i, out);
  }

  /** Whether `out` has the items of `sec` but for a moved address and the number of its checkpoint. */
  ghost predicate ItemsKept(i: nat, offset: int, sec: Section, out: Section)
  {
    var fd := FdMapName(sec.name);
    && out.items.Keys == sec.items.Keys + (if fd then {"M5_pid"} else {})
    && (forall k :: k in sec.items && k != "paddr" && !(fd && k == "M5_pid") ==> out.items[k] == sec.items[k])
    && (fd ==> ParseInt(out.items["M5_pid"]) == Some(i))
    && ("paddr" in sec.items ==>
          var a := ParseInt(sec.items["paddr"]);
          a.Some? && ParseInt(out.items["paddr"]) == Some(a.value + offset))
  }

  lemma MovedKeeps(i: nat, n: nat, offset: int, sec: Section)
    requires i < n && AddressOk(sec.items)
    ensures ItemsKept(i, offset, sec, Moved(i, n, offset, sec))
  {
    IsFdMapMeaning(sec.name);
    assert "paddr"[0] != "M5_pid"[0];
    ParseShowInt(i);
    if "paddr" in sec.items { MovedAddress(i, n, offset, sec, ParseInt(sec.items["paddr"]).value); }
  }

  /** A cpu section is written under its new name with all its items. */
  lemma SectionKept(cpts: seq<Checkpoint>, i: nat, sec: Section)
    requires i < |cpts| && MergedAll(cpts, |cpts|).Some? && sec in cpts[i].sections && HasCpu(sec.name)
    ensures exists out ::
      && out in MergedAll(cpts, |cpts|).value && out.name == NewName(i, |cpts|, sec.name)
      && ItemsKept(i, PagePtr(cpts, i) * 4096, sec, out)
  {
    SectionWritten(cpts, i, sec);
    MovedKeeps(i, |cpts|, Offset(cpts, i), sec);
  }

  /** The other sections are written as they are, from the last checkpoint only. */
  lemma OtherSections(cpts: seq<Checkpoint>, out: Section)
    requires MergedAll(cpts, |cpts|).Some? && !HasCpu(out.name)
    ensures out in MergedAll(cpts, |cpts|).value <==>
      |cpts| > 0 && out in cpts[|cpts| - 1].sections && out.name !in {"system", "Globals"}
  {
    var n := |cpts|;
    if out in MergedAll(cpts, n).value {
      var i, sec := WrittenFrom(cpts, n, out);
      RenameHasCpu(sec.name, TagFor(i, n));
    }
    if n > 0 && out in cpts[n - 1].sections && out.name !in {"system", "Globals"} {
      MergedEach(cpts, n, n - 1);
      MergedHas(n - 1, n, Offset(cpts, n - 1), cpts[n - 1].sections, out, out);
    }
  }

  /** Every written section comes from a section of some checkpoint. */
  lemma {:induction false} WrittenFrom(cpts: seq<Checkpoint>, k: nat, out: Section) returns (i: nat, sec: Section)
    requires k <= |cpts| && MergedAll(cpts, k).Some? && out in MergedAll(cpts, k).value
    ensures i < k && sec in cpts[i].sections && Becomes(i, |cpts|, Offset(cpts, i), sec, out)
  {
    if out in MergedAll(cpts, k - 1).value {
      i, sec := WrittenFrom(cpts, k - 1, out);
    } else {
      i := k - 1;
      sec := MergedFrom(i, |cpts|, Offset(cpts, i), cpts[i].sections, out);
    }
  }

  lemma MovedAddress(i: nat, n: nat, offset: int, sec: Section, a: int)
    requires i < n && "paddr" in sec.items && ParseInt(sec.items["paddr"]) == Some(a)
    ensures var out := Moved(i, n, offset, sec);
      "paddr" in out.items && ParseInt(out.items["paddr"]) == Some(offset + a)
  {
    var items := Relocated(sec.items, offset);
    assert items["paddr"] == ShowInt(a + offset);
    PidElsewhere(items, ShowInt(i));
    ParseShowInt(a + offset);
  }

  lemma PidElsewhere(items: map<string, string>, pid: string)
    requires "paddr" in items
    ensures "paddr" in items["M5_pid" := pid] && items["M5_pid" := pid]["paddr"] == items["paddr"]
  {
    assert "paddr"[0] != "M5_pid"[0];
  }

  function MaxTick(cpts: seq<Checkpoint>, k: nat): nat
    requires k <= |cpts|
  {
    if k == 0 then 0
    else if cpts[k - 1].curTick > MaxTick(cpts, k - 1) then cpts[k - 1].curTick
    else MaxTick(cpts, k - 1)
  }

  lemma {:induction false} MaxTickIsMaximum(cpts: seq<Checkpoint>, k: nat)
    requires 0 < k <= |cpts|
    ensures forall i :: 0 <= i < k ==> cpts[i].curTick <= MaxTick(cpts, k)
    ensures exists i :: 0 <= i < k && cpts[i].curTick == MaxTick(cpts, k)
  {
    if k > 1 { MaxTickIsMaximum(cpts, k - 1); }
    assert cpts[k - 1].curTick == MaxTick(cpts, k) || (k > 1 && MaxTick(cpts, k - 1) == MaxTick(cpts, k));
  }

  /** The written sections, and the numbers set in "system", "system.physmem.store0" and "Globals". */
  datatype Output = Output(
    sections: seq<Section>, memory: seq<byte>, pagePtr: nat, nextPID: nat, rangeSize: nat, curTick: nat)

  /** The page loop: `pages` reads of at most one page each. */
  method CopyPages(c: Checkpoint) returns (bytes: seq<byte>)
    ensures bytes == Copied(c)
  {
    bytes := [];
    var pos := 0;
    for x := 0 to c.pages
      invariant 0 <= pos <= |c.image| && bytes == c.image[..pos]
      invariant pos == if x * PAGE <= |c.image| then x * PAGE else |c.image|
    {
      var next := if pos + PAGE <= |c.image| then pos + PAGE else |c.image|;
      bytes := bytes + c.image[pos..next];
      pos := next;
    }
  }

  /** The loop over the sections of one checkpoint. */
  method MergeSections(i: nat, n: nat, offset: int, secs: seq<Section>) returns (r: Option<seq<Section>>)
    requires i < n
    ensures r == Merged(i, n, offset, secs)
  {
    var out: seq<Section> := [];
    for k := 0 to |secs|
      invariant Merged(i, n, offset, secs[..k]) == Some(out)
    {
      var sec := secs[k];
      assert secs[..k + 1][..k] == secs[..k];
      if HasCpu(sec.name) {
        if !AddressOk(sec.items) {
          MergedFails(i, n, offset, secs, k + 1);
          return None;
        }
        out := out + [Moved(i, n, offset, sec)];
      } else if sec.name != "system" && sec.name != "Globals" && i == n - 1 {
        out := out + [sec];
      }
    }
    assert secs[..|secs|] == secs;
    r := Some(out);
  }

  lemma {:induction false} MergedFails(i: nat, n: nat, offset: int, secs: seq<Section>, k: nat)
    requires i < n && k <= |secs| && Merged(i, n, offset, secs[..k]) == None
    ensures Merged(i, n, offset, secs) == None
    decreases |secs| - k
  {
    if k == |secs| {
      assert secs[..k] == secs;
    } else {
      assert secs[..k + 1][..k] == secs[..k];
      MergedFails(i, n, offset, secs, k + 1);
    }
  }

  lemma {:induction false} MergedAllFails(cpts: seq<Checkpoint>, k: nat, n: nat)
    requires k <= n <= |cpts| && MergedAll(cpts, k) == None
    ensures MergedAll(cpts, n) == None
    decreases n - k
  {
    if k < n { MergedAllFails(cpts, k, n - 1); }
  }

  /** The section of the last checkpoint that receives `range_size`. */
  predicate HasStore(secs: seq<Section>) { exists k :: 0 <= k < |secs| && secs[k].name == "system.physmem.store0" }

  /** The loop that fills up to the requested size, and the page count after it. */
  method Pad(pages: nat, memorySize: int) returns (padding: seq<byte>, total: nat)
    ensures total == pages + PadPages(pages, memorySize) && padding == Padding(PadPages(pages, memorySize))
  {
    padding, total := [], pages;
    var fileSize := pages * PAGE;
    ghost var pad := 0;
    while fileSize < memorySize
      invariant fileSize == total * PAGE && total == pages + pad && pad >= 0
      invariant pad + PadPages(total, memorySize) == PadPages(pages, memorySize)
      invariant padding == Padding(pad)
      decreases memorySize - fileSize
    {
      assert Padding(pad) + Padding(1) == Padding(pad + 1);
      padding := padding + Padding(1);
      fileSize, total, pad := fileSize + PAGE, total + 1, pad + 1;
    }
  }

  /**
    `aggregate`: everything it writes; `None` when an address is not a number or the last
    checkpoint lacks the section for `range_size`.
  */
  method Aggregate(cpts: seq<Checkpoint>, memorySize: int) returns (r: Option<Output>)
    requires |cpts| > 0
    ensures r.None? <==>
      || MergedAll(cpts, |cpts|).None?
      || !exists sec :: sec in cpts[|cpts| - 1].sections && sec.name == "system.physmem.store0"
    ensures r.Some? ==> var o := r.value;
      && Some(o.sections) == MergedAll(cpts, |cpts|)
      && o.memory == Memory(cpts, memorySize)
      && o.pagePtr == PagePtr(cpts, |cpts|) && o.nextPID == |cpts|
      && o.rangeSize == RangeSize(cpts, memorySize)
      && o.curTick == MaxTick(cpts, |cpts|)
  {
    var sections: seq<Section>, memory: seq<byte>, pagePtr, maxTick := [], [], 0, 0;
    for i := 0 to |cpts|
      invariant MergedAll(cpts, i) == Some(sections) && memory == Images(cpts, i)
      invariant pagePtr == PagePtr(cpts, i) && maxTick == MaxTick(cpts, i)
    {
      var merged := MergeSections(i, |cpts|, pagePtr * PAGE, cpts[i].sections);
      if merged.None? {
        MergedAllFails(cpts, i + 1, |cpts|);
        return None;
      }
      sections := sections + merged.value;
      if cpts[i].curTick > maxTick { maxTick := cpts[i].curTick; }
      pagePtr := pagePtr + cpts[i].pages;
      var bytes := CopyPages(cpts[i]);
      memory := memory + bytes;
    }
    var padding, total := Pad(pagePtr, memorySize);
    memory := memory + padding;
    if !HasStore(cpts[|cpts| - 1].sections) { return None; }
    r := Some(Output(sections, memory, pagePtr, |cpts|, total * PAGE, maxTick));
  }
}
