/** Length-prefixed frames over a byte stream: `_receive_exact` and `EthernetEndpoint`. */
module Framing {
  import opened Bytes

  const MAX_FRAME_SIZE := 1024 * 1024

  type Frame = seq<byte>

  predicate ValidFrame(f: Frame) { 0 < |f| <= MAX_FRAME_SIZE }

  // ----- "!I" -----

  function Be32(n: int): (s: seq<byte>)
    requires 0 <= n < 0x1_0000_0000
    ensures |s| == 4
  {
    [n / 0x100_0000, n / 0x1_0000 % 256, n / 256 % 256, n % 256]
  }

  function GetBe32(s: seq<byte>): (n: nat)
    requires |s| >= 4
  {
    0x100_0000 * (s[0] as int) + 0x1_0000 * (s[1] as int) + 256 * (s[2] as int) + s[3] as int
  }

  lemma {:induction false} Be32RoundTrip(n: int, rest: seq<byte>)
    requires 0 <= n < 0x1_0000_0000
    ensures GetBe32(Be32(n) + rest) == n
  {
    Le32Sum(n);
  }

  // ----- the byte stream of a list of frames, and its reader -----

  function Encode(f: Frame): (s: seq<byte>)
    requires ValidFrame(f)
    ensures |s| == 4 + |f|
  {
    Be32(|f|) + f
  }

  predicate AllValid(fs: seq<Frame>) { forall i :: 0 <= i < |fs| ==> ValidFrame(fs[i]) }

  function EncodeAll(fs: seq<Frame>): seq<byte>
    requires AllValid(fs)
  {
    if fs == [] then [] else Encode(fs[0]) + EncodeAll(fs[1..])
  }

  /** Why reading stopped. */
  datatype End = Eof | BadLength

  /** One frame off the front of the stream. */
  datatype Item = Item(frame: Frame, rest: seq<byte>) | Stop(end: End)

  function DecodeOne(s: seq<byte>): (r: Item)
    ensures r.Item? ==> |r.rest| < |s| && ValidFrame(r.frame) && s == Encode(r.frame) + r.rest
  {
    if |s| < 4 then Stop(Eof)
    else
      var size := GetBe32(s);
      if size <= 0 || size > MAX_FRAME_SIZE then Stop(BadLength)
      else if |s| < 4 + size then Stop(Eof)
      else
        FrontAgain(s, size);
        Item(s[4..4 + size], s[4 + size..])
  }

  lemma {:induction false} FrontAgain(s: seq<byte>, size: nat)
    requires |s| >= 4 + size && size == GetBe32(s) && size < 0x1_0000_0000
    ensures s == Be32(size) + s[4..4 + size] + s[4 + size..]
  {
    Be32Bytes(s[0], s[1], s[2], s[3]);
    assert Be32(size) == s[..4];
  }

  lemma {:induction false} Be32Bytes(a: byte, b: byte, c: byte, d: byte)
    ensures Be32(0x100_0000 * (a as int) + 0x1_0000 * (b as int) + 256 * (c as int) + d as int) == [a, b, c, d]
  {
    var two: nat := 256 * (a as int) + b as int;
    var three: nat := 256 * two + c as int;
    var n: nat := 256 * three + d as int;
    Split256(a, b);
    Split256(two, c);
    Split256(three, d);
    DivTwice(n);
  }

  lemma {:induction false} Split256(q: nat, r: byte)
    ensures (256 * q + r as int) / 256 == q && (256 * q + r as int) % 256 == r
  {
  }

  lemma {:induction false} DivTwice(n: nat)
    ensures n / 0x1_0000 == n / 256 / 256 && n / 0x100_0000 == n / 256 / 256 / 256
  {
  }

  function DecodeAll(s: seq<byte>): (seq<Frame>, End)
    decreases |s|
  {
    match DecodeOne(s)
    case Stop(end) => ([], end)
    case Item(f, rest) => var (fs, end) := DecodeAll(rest); ([f] + fs, end)
  }

  lemma {:induction false} DecodeEncoded(f: Frame, rest: seq<byte>)
    requires ValidFrame(f)
    ensures DecodeOne(Encode(f) + rest) == Item(f, rest)
  {
    var s := Encode(f) + rest;
    assert s == Be32(|f|) + (f + rest);
    Be32RoundTrip(|f|, f + rest);
    assert s[4..4 + |f|] == f && s[4 + |f|..] == rest;
  }

  lemma {:induction false} LengthBytes(n: nat)
    requires n <= 1_048_576
    ensures Be32(n) == [0, n / 65536, n / 256 % 256, n % 256]
  {
  }

  /** The format on the wire: the length, high byte first, then one to 1,048,576 bytes ... */
  lemma {:induction false} WireFormat(s: seq<byte>, f: Frame, rest: seq<byte>)
    ensures DecodeOne(s) == Item(f, rest) <==>
            1 <= |f| <= 1_048_576 && s == [0, |f| / 65536, |f| / 256 % 256, |f| % 256] + f + rest
  {
    if 1 <= |f| <= 1_048_576 {
      LengthBytes(|f|);
      if s == Encode(f) + rest { DecodeEncoded(f, rest); }
    }
    hide GetBe32, Be32;
  }

  /** ... and any other length is refused as soon as its four bytes are there. */
  lemma {:induction false} BadLengths(s: seq<byte>)
    ensures DecodeOne(s) == Stop(BadLength) <==>
            |s| >= 4 && (s[0] > 0 || s[1] > 16 || (s[1] == 16 && (s[2] > 0 || s[3] > 0)) || s[..4] == [0, 0, 0, 0])
  {
    if |s| >= 4 { assert s[..4] == [s[0], s[1], s[2], s[3]]; }
  }

  /** Reading undoes writing, for every list of frames. */
  lemma {:induction false} FramesRoundTrip(fs: seq<Frame>)
    requires AllValid(fs)
    ensures DecodeAll(EncodeAll(fs)) == (fs, Eof)
  {
    if fs != [] {
      FramesRoundTrip(fs[1..]);
      DecodeEncoded(fs[0], EncodeAll(fs[1..]));
      hide DecodeOne, Encode;
      assert [fs[0]] + fs[1..] == fs;
    }
  }

  /** Whatever is read was on the stream, in this order and from its start. */
  lemma {:induction false} DecodedWasSent(s: seq<byte>)
    ensures AllValid(DecodeAll(s).0)
    ensures EncodeAll(DecodeAll(s).0) <= s
    decreases |s|
  {
    var one := DecodeOne(s);
    if one.Item? {
      DecodedWasSent(one.rest);
      var fs := DecodeAll(one.rest).0;
      assert ([one.frame] + fs)[1..] == fs;
      hide DecodeOne, Encode;
      assert s[|Encode(one.frame)|..] == one.rest;
    }
  }

  lemma {:induction false} ShortFront(f: Frame, s: seq<byte>, rest: seq<byte>)
    requires ValidFrame(f) && s <= Encode(f) + rest && |s| < |Encode(f)|
    ensures DecodeOne(s) == Stop(Eof)
  {
    var whole := Encode(f) + rest;
    if |s| >= 4 {
      assert whole == Be32(|f|) + (f + rest);
      Be32RoundTrip(|f|, f + rest);
      assert s[0] == whole[0] && s[1] == whole[1] && s[2] == whole[2] && s[3] == whole[3];
    }
  }

  lemma {:induction false} LongFront(f: Frame, s: seq<byte>, rest: seq<byte>)
    requires ValidFrame(f) && s <= Encode(f) + rest && |s| >= |Encode(f)|
    ensures s[|Encode(f)|..] <= rest && s == Encode(f) + s[|Encode(f)|..]
  {
    hide Encode;
    assert s == (Encode(f) + rest)[..|s|];
  }

  /** A stream cut anywhere yields exactly the frames that are complete in it. */
  lemma {:induction false} TruncatedStream(fs: seq<Frame>, s: seq<byte>) returns (k: nat)
    requires AllValid(fs) && s <= EncodeAll(fs)
    ensures k <= |fs| && DecodeAll(s) == (fs[..k], Eof)
    ensures |EncodeAll(fs[..k])| <= |s| && (k < |fs| ==> |s| < |EncodeAll(fs[..k + 1])|)
    decreases |fs|
  {
    if fs == [] {
      k := 0;
    } else if |s| < |Encode(fs[0])| {
      k := 0;
      ShortFront(fs[0], s, EncodeAll(fs[1..]));
      EncodeFirst(fs);
    } else {
      var rest := s[|Encode(fs[0])|..];
      LongFront(fs[0], s, EncodeAll(fs[1..]));
      DecodeEncoded(fs[0], rest);
      hide DecodeOne, Encode;
      var j := TruncatedStream(fs[1..], rest);
      k := j + 1;
      FrontFrames(fs, j);
      if k < |fs| { FrontFrames(fs, k); }
    }
  }

  lemma {:induction false} EncodeFirst(fs: seq<Frame>)
    requires AllValid(fs) && fs != []
    ensures EncodeAll(fs[..1]) == Encode(fs[0])
  {
    assert fs[..1][1..] == [];
  }

  lemma {:induction false} FrontFrames(fs: seq<Frame>, j: nat)
    requires AllValid(fs) && j < |fs|
    ensures fs[..j + 1] == [fs[0]] + fs[1..][..j]
    ensures EncodeAll(fs[..j + 1]) == Encode(fs[0]) + EncodeAll(fs[1..][..j])
  {
    hide Encode;
    assert fs[..j + 1][1..] == fs[1..][..j];
  }

  lemma {:induction false} SameHeader(s: seq<byte>, header: seq<byte>)
    requires |s| >= 4 && header == s[..4]
    ensures GetBe32(header) == GetBe32(s)
  {
  }

  // ----- the socket -----

  /** The receiving side of a connection whose peer will close after `pending`.  `Recv` returns
      any non-empty part of what is left, so every fragmentation is covered. */
  class Connection {
    var pending: seq<byte>

    constructor (stream: seq<byte>)
      ensures pending == stream
    {
      pending := stream;
    }

    method Recv(limit: nat) returns (chunk: seq<byte>)
      modifies this
      ensures old(pending) == chunk + pending && |chunk| <= limit
      ensures chunk == [] <==> old(pending) == [] || limit == 0
    {
      if pending == [] || limit == 0 { return []; }
      var k: nat :| 1 <= k <= limit && k <= |pending|;
      chunk := pending[..k];
      pending := pending[k..];
    }

    /** `_receive_exact`; `None` is EOFError. */
    method ReceiveExact(size: nat) returns (r: Option<seq<byte>>)
      modifies this
      ensures r.Some? <==> |old(pending)| >= size
      ensures r.Some? ==> r.value == old(pending)[..size] && pending == old(pending)[size..]
    {
      ghost var all := pending;
      var chunks: seq<byte> := [];
      while |chunks| < size
        invariant |chunks| <= size && all == chunks + pending
        decreases size - |chunks|
      {
        var chunk := Recv(size - |chunks|);
        if chunk == [] { return None; }
        chunks := chunks + chunk;
      }
      return Some(chunks);
    }

    /** `EthernetEndpoint.receive` */
    method Receive() returns (r: Item)
      modifies this
      ensures var one := DecodeOne(old(pending));
              if one.Item? then r == Item(one.frame, pending) && pending == one.rest else r == one
    {
      ghost var all := pending;
      hide GetBe32, Encode;
      var header := ReceiveExact(4);
      if header.None? { return Stop(Eof); }
      var size := GetBe32(header.value);
      SameHeader(all, header.value);
      if size <= 0 || size > MAX_FRAME_SIZE { return Stop(BadLength); }
      var frame := ReceiveExact(size);
      if frame.None? { return Stop(Eof); }
      assert frame.value == all[4..4 + size] && pending == all[4 + size..];
      return Item(frame.value, pending);
    }

    /** The reading loop of `_forward_from`, up to the exception that ends it. */
    method ReceiveAll() returns (frames: seq<Frame>, end: End)
      modifies this
      ensures (frames, end) == DecodeAll(old(pending))
    {
      ghost var all := DecodeAll(pending);
      frames := [];
      while true
        invariant all.0 == frames + DecodeAll(pending).0 && all.1 == DecodeAll(pending).1
        decreases |pending|
      {
        ghost var before, left := frames, pending;
        var one := Receive();
        if one.Stop? {
          assert DecodeAll(left).0 == [] && frames + [] == frames;
          return frames, one.end;
        }
        frames := frames + [one.frame];
        assert before + ([one.frame] + DecodeAll(pending).0) == frames + DecodeAll(pending).0;
      }
    }
  }
}
