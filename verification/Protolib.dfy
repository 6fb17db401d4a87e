/**
  The framing of protobuf messages in `protolib.py`: every message is preceded by its
  length as a Base 128 Varint of the Protocol Buffers Encoding specification.
  A message is the sequence of its serialised bytes.
*/
module Protolib {
  import opened Common
  import opened DivMod

  const TWO32 := 0x1_0000_0000
  const TWO63 := 0x8000_0000_0000_0000

  /** 128 to the power `k`: the weight of the byte at position `k`. */
  function Weight(k: nat): (w: nat)
    ensures w >= 1
  {
    if k == 0 then 1 else 128 * Weight(k - 1)
  }

  // ---------------------------------------------------------------- varints

  function Encode(v: nat): (s: seq<byte>)
    ensures s != []
  {
    if v < 128 then [v] else [128 + v % 128] + Encode(v / 128)
  }

  /** A decoded value and the number of its bytes, or the OSError for more than ten bytes. */
  datatype Decoded = Value(value: int, count: nat, rest: seq<byte>) | TooLong(rest: seq<byte>)

  /** The 64-bit value cut to 32 bits; a value beyond 63 bits counts as negative. */
  function Truncate(v: nat): int
  {
    if v >= TWO63 then v % TWO32 - TWO32 else v % TWO32
  }

  /** Decoding after `k` bytes that add up to `result`; the end of the file yields (0, 0). */
  function DecodeFrom(s: seq<byte>, k: nat, result: nat): Decoded
    decreases |s|
  {
    if s == [] then Value(0, 0, [])
    else
      var r := result + s[0] % 128 * Weight(k);
      if s[0] < 128 then Value(Truncate(r), k + 1, s[1..])
      else if 7 * (k + 1) >= 64 then TooLong(s[1..])
      else DecodeFrom(s[1..], k + 1, r)
  }

  lemma WeightStep(v: nat, k: nat)
    ensures v * Weight(k) == v % 128 * Weight(k) + v / 128 * Weight(k + 1)
  {
    var q, r, w := v / 128, v % 128, Weight(k);
    assert v == q * 128 + r;
    calc {
      v * w;
      (q * 128 + r) * w;
      q * 128 * w + r * w;
      r * w + q * (128 * w);
    }
  }

  lemma DigitBound(result: nat, d: nat, w: nat)
    requires result < w && d < 128
    ensures 0 <= result + d * w < 128 * w
  {
    MulNonNegative(d, w);
    MulNonNegative(127 - d, w);
    assert 127 * w == d * w + (127 - d) * w;
  }

  /** A byte with the continuation bit adds its digit and goes on, up to the tenth. */
  lemma DecodeMore(d: nat, s: seq<byte>, k: nat, result: nat)
    requires d < 128
    ensures d * Weight(k) >= 0
    ensures DecodeFrom([128 + d] + s, k, result) ==
      if k >= 9 then TooLong(s) else DecodeFrom(s, k + 1, result + d * Weight(k))
  {
    MulNonNegative(d, Weight(k));
    assert ([128 + d] + s)[1..] == s && (128 + d) % 128 == d;
  }

  lemma DecodeLast(d: nat, s: seq<byte>, k: nat, result: nat)
    requires d < 128
    ensures d * Weight(k) >= 0
    ensures DecodeFrom([d] + s, k, result) == Value(Truncate(result + d * Weight(k)), k + 1, s)
  {
    MulNonNegative(d, Weight(k));
    assert ([d] + s)[1..] == s;
  }

  /** Decoding reads back exactly the bytes of an encoding that fits in ten bytes. */
  lemma {:induction false} DecodeEncoded(v: nat, k: nat, result: nat, rest: seq<byte>)
    requires k < 10 && v < Weight(10 - k)
    ensures v * Weight(k) >= 0
    ensures DecodeFrom(Encode(v) + rest, k, result) ==
      Value(Truncate(result + v * Weight(k)), k + |Encode(v)|, rest)
    decreases v
  {
    if v < 128 {
      DecodeLast(v, rest, k, result);
    } else {
      var q, d := v / 128, v % 128;
      assert Weight(10 - k) == 128 * Weight(9 - k) && Weight(0) == 1;
      assert k + 1 < 10 && q < Weight(9 - k);
      assert Encode(v) + rest == [128 + d] + (Encode(q) + rest);
      DecodeMore(d, Encode(q) + rest, k, result);
      DecodeEncoded(q, k + 1, result + d * Weight(k), rest);
      WeightStep(v, k);
    }
  }

  lemma {:induction false} DecodeOverlong(v: nat, k: nat, result: nat, rest: seq<byte>)
    requires k < 10 && v >= Weight(10 - k)
    ensures DecodeFrom(Encode(v) + rest, k, result).TooLong?
    decreases v
  {
    var q, d := v / 128, v % 128;
    assert Weight(10 - k) == 128 * Weight(9 - k);
    assert Encode(v) + rest == [128 + d] + (Encode(q) + rest);
    DecodeMore(d, Encode(q) + rest, k, result);
    if k < 9 { DecodeOverlong(q, k + 1, result + d * Weight(k), rest); }
  }

  lemma Weight10()
    ensures Weight(9) == TWO63 && Weight(10) == 128 * TWO63
  {
    assert Weight(3) == 0x20_0000;
    assert Weight(6) == 0x400_0000_0000;
  }

  /**
    For every value and whatever follows: below 2^63 the decoder consumes exactly the
    encoder's bytes and returns the value modulo 2^32; below 2^70 it returns that
    minus 2^32; and beyond it fails.
  */
  lemma VarintRoundTrip(v: nat, rest: seq<byte>)
    ensures var d := DecodeFrom(Encode(v) + rest, 0, 0);
      if v < TWO63 then d == Value(v % TWO32, |Encode(v)|, rest)
      else if v < 128 * TWO63 then d == Value(v % TWO32 - TWO32, |Encode(v)|, rest)
      else d.TooLong?
  {
    Weight10();
    if v < 128 * TWO63 { DecodeEncoded(v, 0, 0, rest); } else { DecodeOverlong(v, 0, 0, rest); }
  }

  // ---------------------------------------------------------------- messages

  function Framed(m: seq<byte>): seq<byte> { Encode(|m|) + m }

  /** `read(n)`: at most `n` bytes, or all of them for -1; a size below -1 is a ValueError. */
  function Taken(s: seq<byte>, n: int): (t: nat)
    requires n >= -1
    ensures t <= |s|
  {
    if 0 <= n <= |s| then n else |s|
  }

  /** The message read, the end of the stream, or the ValueError, and what is left of the file. */
  datatype Step = Message(bytes: seq<byte>, rest: seq<byte>) | End(rest: seq<byte>) | Raised(rest: seq<byte>)

  function NextMessage(s: seq<byte>): (r: Step)
    ensures r.Message? ==> |r.rest| < |s|
  {
    DecodeShrinks(s, 0, 0);
    match DecodeFrom(s, 0, 0)
    case TooLong(rest) => End(rest)
    case Value(size, _, rest) =>
      if size == 0 then End(rest)
      else if size < -1 then Raised(rest)
      else Message(rest[..Taken(rest, size)], rest[Taken(rest, size)..])
  }

  lemma {:induction false} DecodeShrinks(s: seq<byte>, k: nat, result: nat)
    ensures DecodeFrom(s, k, result).Value? && DecodeFrom(s, k, result).value != 0 ==>
      |DecodeFrom(s, k, result).rest| < |s|
    decreases |s|
  {
    if s != [] { DecodeShrinks(s[1..], k + 1, result + s[0] % 128 * Weight(k)); }
  }

  /** A framed message comes back exactly when it is not empty and shorter than 2^32 bytes. */
  lemma MessageRoundTrip(m: seq<byte>, rest: seq<byte>)
    requires |m| < TWO63
    ensures NextMessage(Framed(m) + rest) == Message(m, rest) <==> 0 < |m| < TWO32
    ensures m == [] ==> NextMessage(Framed(m) + rest) == End(rest)
  {
    assert Framed(m) + rest == Encode(|m|) + (m + rest);
    VarintRoundTrip(|m|, m + rest);
    TakenBack(m, rest, |m| % TWO32);
    if m == [] { assert m + rest == rest; }
  }

  lemma TakenBack(m: seq<byte>, rest: seq<byte>, size: nat)
    requires size == |m| % TWO32
    ensures |m| < TWO32 ==> size == |m| && (m + rest)[..size] == m && (m + rest)[size..] == rest
    ensures |m| >= TWO32 ==> size < |m| && (m + rest)[..size] != m
  {
    if |m| >= TWO32 { assert |(m + rest)[..size]| == size; }
  }

  lemma {:induction false} TruncatedFrom(v: nat, k: nat, result: nat, j: nat)
    requires j < |Encode(v)| && k + j <= 9
    ensures DecodeFrom(Encode(v)[..j], k, result) == Value(0, 0, [])
    decreases j
  {
    if j > 0 {
      var s := Encode(v)[..j];
      assert s[0] == 128 + v % 128 && s[1..] == Encode(v / 128)[..j - 1];
      TruncatedFrom(v / 128, k + 1, result + s[0] % 128 * Weight(k), j - 1);
    }
  }

  /** A file that ends inside a length field ends the stream, without a message. */
  lemma TruncatedLength(v: nat, j: nat)
    requires j < |Encode(v)| && j <= 9
    ensures DecodeFrom(Encode(v)[..j], 0, 0) == Value(0, 0, []) && NextMessage(Encode(v)[..j]) == End([])
  {
    TruncatedFrom(v, 0, 0, j);
  }

  /** A file that ends inside a message gives the part of it that is there. */
  lemma TruncatedMessage(n: nat, part: seq<byte>)
    requires 0 < n < TWO32 && |part| <= n
    ensures NextMessage(Encode(n) + part) == Message(part, [])
  {
    VarintRoundTrip(n, part);
    assert n % TWO32 == n && part[..|part|] == part && part[|part|..] == [];
  }

  /** A length field from 2^63 on counts as negative: it reads the rest of the file or raises. */
  lemma NegativeLength(v: nat, rest: seq<byte>)
    requires TWO63 <= v < 128 * TWO63
    ensures NextMessage(Encode(v) + rest) == if v % TWO32 == TWO32 - 1 then Message(rest, []) else Raised(rest)
  {
    VarintRoundTrip(v, rest);
    assert rest[..|rest|] == rest && rest[|rest|..] == [];
  }

  function EncodeAll(msgs: seq<seq<byte>>): seq<byte>
  {
    if msgs == [] then [] else Framed(msgs[0]) + EncodeAll(msgs[1..])
  }

  /** The messages of a file, and whether reading ended with the ValueError. */
  datatype Stream = Stream(msgs: seq<seq<byte>>, raised: bool)

  /** What the loop `while decodeMessage(...)` collects. */
  function DecodeAll(s: seq<byte>): Stream
    decreases |s|
  {
    match NextMessage(s)
    case End(_) => Stream([], false)
    case Raised(_) => Stream([], true)
    case Message(m, rest) => var more := DecodeAll(rest); Stream([m] + more.msgs, more.raised)
  }

  /** The messages before the first empty one. */
  function UpToEmpty(msgs: seq<seq<byte>>): seq<seq<byte>>
  {
    if msgs == [] || msgs[0] == [] then [] else [msgs[0]] + UpToEmpty(msgs[1..])
  }

  /** Reading back a file returns the longest prefix without an empty message, and then stops. */
  lemma {:induction false} StreamRoundTrip(msgs: seq<seq<byte>>)
    requires forall i :: 0 <= i < |msgs| ==> |msgs[i]| < TWO32
    ensures DecodeAll(EncodeAll(msgs)) == Stream(UpToEmpty(msgs), false)
  {
    if msgs == [] {
      assert NextMessage([]) == End([]);
    } else {
      MessageRoundTrip(msgs[0], EncodeAll(msgs[1..]));
      if msgs[0] != [] { StreamRoundTrip(msgs[1..]); }
    }
  }

  // ---------------------------------------------------------------- files

  class OutFile {
    var data: seq<byte>

    constructor ()
      ensures data == []
    {
      data := [];
    }

    method EncodeVarint32(value: nat)
      modifies this
      ensures data == old(data) + Encode(value)
    {
      var bits, v := value % 128, value / 128;
      while v != 0
        invariant v >= 0 && 0 <= bits < 128 && data + Encode(v * 128 + bits) == old(data) + Encode(value)
        decreases v
      {
        assert (v * 128 + bits) / 128 == v && (v * 128 + bits) % 128 == bits;
        data := data + [128 + bits];
        bits, v := v % 128, v / 128;
      }
      data := data + [bits];
    }

    method EncodeMessage(m: seq<byte>)
      modifies this
      ensures data == old(data) + Framed(m)
    {
      EncodeVarint32(|m|);
      data := data + m;
    }
  }

  class InFile {
    /** The bytes that have not been read yet. */
    var rest: seq<byte>

    constructor (data: seq<byte>)
      ensures rest == data
    {
      rest := data;
    }

    /** `None` for the ValueError. */
    method Read(n: int) returns (bytes: Option<seq<byte>>)
      modifies this
      ensures if n < -1 then bytes == None && rest == old(rest)
        else bytes == Some(old(rest)[..Taken(old(rest), n)]) && rest == old(rest)[Taken(old(rest), n)..]
    {
      if n < -1 { return None; }
      var t := Taken(rest, n);
      bytes := Some(rest[..t]);
      rest := rest[t..];
    }

    /** `ok` is false for the OSError. */
    method DecodeVarint32() returns (ok: bool, value: int, count: nat)
      modifies this
      ensures match DecodeFrom(old(rest), 0, 0)
        case TooLong(r) => !ok && rest == r
        case Value(v, n, r) => ok && value == v && count == n && rest == r
    {
      var result, shift, pos := 0, 0, 0;
      ghost var d := DecodeFrom(rest, 0, 0);
      while true
        invariant shift == 7 * pos && pos < 10 && 0 <= result < Weight(pos)
        invariant DecodeFrom(rest, pos, result) == d
        decreases 10 - pos
      {
        var c := Read(1);
        if |c.value| == 0 { return true, 0, 0; }
        var b := c.value[0];
        // the bits of `result` lie below the shifted bits, so `|=` is an addition
        DigitBound(result, b % 128, Weight(pos));
        result := result + b % 128 * Weight(pos);
        pos := pos + 1;
        if b < 128 { return true, Truncate(result), pos; }
        shift := shift + 7;
        if shift >= 64 { return false, 0, 0; }
      }
    }

    method DecodeMessage() returns (r: Reply)
      modifies this
      ensures Replied(old(rest), r, rest)
    {
      var ok, size, _ := DecodeVarint32();
      if !ok || size == 0 { return NoMore; }
      var buf := Read(size);
      r := if buf.Some? then Got(buf.value) else ValueError;
    }

    /** The loop of the decoding scripts. */
    method ReadAll() returns (msgs: seq<seq<byte>>, raised: bool)
      modifies this
      ensures Stream(msgs, raised) == DecodeAll(old(rest))
    {
      msgs := [];
      ghost var all := DecodeAll(rest);
      ghost var start := rest;
      var m := DecodeMessage();
      assert [] + all.msgs == all.msgs;
      ResumeStep(all, msgs, start, m, rest);
      while m.Got?
        invariant Resumes(all, msgs, m, rest)
        decreases m.Got?, |rest|
      {
        ghost var before := rest;
        msgs := msgs + [m.bytes];
        m := DecodeMessage();
        ResumeStep(all, msgs, before, m, rest);
      }
      raised := m.ValueError?;
    }
  }

  /** All messages are those read so far, then the one at hand, then those in the rest of the file. */
  ghost predicate Resumes(all: Stream, msgs: seq<seq<byte>>, m: Reply, rest: seq<byte>)
  {
    match m
    case Got(bytes) => var more := DecodeAll(rest); all == Stream(msgs + [bytes] + more.msgs, more.raised)
    case NoMore => all == Stream(msgs, false)
    case ValueError => all == Stream(msgs, true)
  }

  /** What one reply says about the file. */
  ghost predicate Replied(before: seq<byte>, m: Reply, rest: seq<byte>)
  {
    match NextMessage(before)
    case End(s) => m == NoMore && rest == s
    case Raised(s) => m == ValueError && rest == s
    case Message(b, s) => m == Got(b) && rest == s
  }

  lemma ResumeStep(all: Stream, msgs: seq<seq<byte>>, before: seq<byte>, m: Reply, rest: seq<byte>)
    requires Replied(before, m, rest)
    requires all == Stream(msgs + DecodeAll(before).msgs, DecodeAll(before).raised)
    ensures Resumes(all, msgs, m, rest)
  {
    if m.Got? {
      var more := DecodeAll(rest).msgs;
      assert msgs + ([m.bytes] + more) == msgs + [m.bytes] + more;
    } else {
      assert msgs + [] == msgs;
    }
  }

  /** What `decodeMessage` returns or raises. */
  datatype Reply = Got(bytes: seq<byte>) | NoMore | ValueError
}
