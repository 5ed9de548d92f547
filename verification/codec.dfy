/** The length-prefixed binary frame codec shared by the three bots:
    big-endian integers, length-prefixed strings, frames of the form
    length (4 bytes) + header id (2 bytes) + payload, and the scanner that
    splits one received message into frames. */
module Codec {

  datatype Option<+T> = None | Some(value: T)

  /** One octet on the wire. */
  type byte = b: int | 0 <= b < 256

  /** A header id as packed by struct's ">H". */
  type uint16 = n: int | 0 <= n < 0x1_0000

  /** A value that struct's ">i" accepts. */
  type int32 = n: int | -0x8000_0000 <= n < 0x8000_0000

  /** One decoded frame: a header id and the payload that follows it. */
  datatype Frame = Frame(header: uint16, payload: seq<byte>)

  /** A value that struct's ">I" accepts. */
  type uint32 = n: int | 0 <= n < 0x1_0000_0000

  /** struct ">H": 2-byte big-endian. */
  function Be16(n: uint16): (r: seq<byte>)
  {
    [n / 0x100, n % 0x100]
  }

  /** struct ">I": 4-byte big-endian. */
  function Be32(n: uint32): (r: seq<byte>)
  {
    [n / 0x100_0000, (n / 0x1_0000) % 0x100, (n / 0x100) % 0x100, n % 0x100]
  }

  function Pow256(k: nat): (r: nat)
    ensures r >= 1
  {
    if k == 0 then 1 else 0x100 * Pow256(k - 1)
  }

  /** The unsigned value of big-endian bytes: the most significant byte
      first. */
  function BeValue(s: seq<byte>): (v: nat)
    ensures v < Pow256(|s|)
  {
    if s == [] then 0 else BeValue(s[..|s| - 1]) * 0x100 + s[|s| - 1] as int
  }

  /** The unsigned value of 2 big-endian bytes. */
  function Be16Value(s: seq<byte>): (v: uint16)
    requires |s| == 2
  {
    assert Pow256(2) == 0x1_0000;
    BeValue(s)
  }

  /** The unsigned value of 4 big-endian bytes. */
  function Be32Value(s: seq<byte>): (v: uint32)
    requires |s| == 4
  {
    assert Pow256(4) == 0x1_0000_0000;
    BeValue(s)
  }

  lemma Be16Formula(s: seq<byte>)
    requires |s| == 2
    ensures Be16Value(s) == s[0] as int * 0x100 + s[1] as int
  {
    var s1 := s[..1];
    assert s1[..0] == [];
    assert BeValue(s1) == s[0] as int;
  }

  lemma Be32Formula(s: seq<byte>)
    requires |s| == 4
    ensures Be32Value(s) == s[0] as int * 0x100_0000 + s[1] as int * 0x1_0000 + s[2] as int * 0x100 + s[3] as int
  {
    var s3, s2, s1 := s[..3], s[..2], s[..1];
    assert s3[..2] == s2 && s2[..1] == s1 && s1[..0] == [];
    assert BeValue(s1) == s[0] as int;
    assert BeValue(s2) == s[0] as int * 0x100 + s[1] as int;
    assert BeValue(s3) == (s[0] as int * 0x100 + s[1] as int) * 0x100 + s[2] as int;
  }

  lemma Be16RoundTrip(n: uint16)
    ensures Be16Value(Be16(n)) == n
  {
    Be16Formula(Be16(n));
  }

  lemma Be32RoundTrip(n: uint32)
    ensures Be32Value(Be32(n)) == n
  {
    Be32Formula(Be32(n));
    var a, b, c := n / 0x100_0000, n / 0x1_0000, n / 0x100;
    assert b == a * 0x100 + b % 0x100;
    assert c == b * 0x100 + c % 0x100;
    assert n == c * 0x100 + n % 0x100;
  }

  /** Conversely, every 2 bytes are the ">H" encoding of their value. */
  lemma Be16ValueRoundTrip(s: seq<byte>)
    requires |s| == 2
    ensures Be16(Be16Value(s)) == s
  {
    Be16Formula(s);
  }

  /** Every 4 bytes are the ">I" encoding of their value. */
  lemma Be32ValueRoundTrip(s: seq<byte>)
    requires |s| == 4
    ensures Be32(Be32Value(s)) == s
  {
    Be32Formula(s);
    var n := Be32Value(s);
    assert n / 0x100 == s[0] as int * 0x1_0000 + s[1] as int * 0x100 + s[2] as int;
    assert n / 0x1_0000 == s[0] as int * 0x100 + s[1] as int;
    assert n / 0x100_0000 == s[0] as int;
  }

  /** The two's-complement bit pattern of a 32-bit signed value. */
  function Unsigned32(n: int32): (u: uint32)
    ensures n >= 0 ==> u == n
    ensures n < 0 ==> u == n + 0x1_0000_0000
  {
    if n < 0 then n + 0x1_0000_0000 else n
  }

  /** encode_int: 4-byte big-endian signed (struct ">i"). */
  function EncodeInt(n: int32): (r: seq<byte>)
    ensures |r| == 4
  {
    Be32(Unsigned32(n))
  }

  /** The signed value of 4 big-endian bytes (struct ">i" unpacking). */
  function DecodeInt(s: seq<byte>): (n: int32)
    requires |s| == 4
  {
    var u := Be32Value(s);
    if u >= 0x8000_0000 then u - 0x1_0000_0000 else u
  }

  lemma DecodeEncodeInt(n: int32)
    ensures DecodeInt(EncodeInt(n)) == n
  {
    Be32RoundTrip(Unsigned32(n));
  }

  /** Every 4 bytes are the ">i" encoding of the value they unpack to. */
  lemma EncodeDecodeInt(s: seq<byte>)
    requires |s| == 4
    ensures EncodeInt(DecodeInt(s)) == s
  {
    Be32ValueRoundTrip(s);
  }

  /** encode_string on the already UTF-8 encoded bytes: a 2-byte big-endian
      byte count, then the bytes. struct.pack raises past 65535 bytes. */
  function EncodeString(b: seq<byte>): (r: seq<byte>)
    requires |b| < 0x1_0000
    ensures |r| == 2 + |b| && r[2..] == b
    ensures Be16Value(r[..2]) == |b|
  {
    var r := Be16(|b|) + b;
    assert r[..2] == Be16(|b|);
    Be16RoundTrip(|b|);
    r
  }

  /** build_packet: length field 2 + |payload| (4 bytes), header id
      (2 bytes), then the payload. struct.pack raises when the length
      does not fit in 32 bits. */
  function BuildPacket(h: uint16, payload: seq<byte>): (r: seq<byte>)
    requires 2 + |payload| < 0x1_0000_0000
    ensures |r| == 6 + |payload|
  {
    Be32(2 + |payload|) + Be16(h) + payload
  }

  lemma BuildPacketLayout(h: uint16, payload: seq<byte>)
    requires 2 + |payload| < 0x1_0000_0000
    ensures var r := BuildPacket(h, payload);
            Be32Value(r[..4]) == 2 + |payload| && Be16Value(r[4..6]) == h && r[6..] == payload
  {
    var r := BuildPacket(h, payload);
    assert r[..4] == Be32(2 + |payload|);
    assert r[4..6] == Be16(h);
    Be32RoundTrip(2 + |payload|);
    Be16RoundTrip(h);
  }

  /** The declared length at offset o (the 4-byte field). */
  function DeclaredLength(data: seq<byte>, o: nat): uint32
    requires o + 4 <= |data|
  {
    Be32Value(data[o..o + 4])
  }

  /** One step of parse_packets with its cursor at o: None when fewer than 6
      bytes remain or when the declared length runs past the end (the scan
      stops there and the rest is dropped); otherwise the frame and the
      offset of the next one. A declared length below 2 still reads the
      header id from the two bytes after the length field, and its payload
      slice is empty. */
  function NextFrame(data: seq<byte>, o: nat): (r: Option<(Frame, nat)>)
    ensures r.Some? ==> o + 4 <= r.value.1 <= |data|
  {
    if o + 6 > |data| then None
    else
      var length := DeclaredLength(data, o);
      if o + 4 + length > |data| then None
      else
        var payload := if 2 <= length then data[o + 6..o + 4 + length] else [];
        Some((Frame(Be16Value(data[o + 4..o + 6]), payload), o + 4 + length))
  }

  /** The frames parse_packets extracts from data when its cursor stands at o. */
  function ParseFrom(data: seq<byte>, o: nat): (r: seq<Frame>)
    decreases |data| - o
  {
    match NextFrame(data, o)
    case None => []
    case Some((f, next)) => [f] + ParseFrom(data, next)
  }

  function ParseFrames(data: seq<byte>): seq<Frame>
  {
    ParseFrom(data, 0)
  }

  /** parse_packets, as the loop the source runs. */
  method ParsePackets(data: seq<byte>) returns (packets: seq<Frame>)
    ensures packets == ParseFrames(data)
  {
    packets := [];
    var o := 0;
    while o + 6 <= |data|
      invariant o <= |data|
      invariant packets + ParseFrom(data, o) == ParseFrames(data)
      decreases |data| - o
    {
      var length := Be32Value(data[o..o + 4]);
      if o + 4 + length > |data| {
        break;
      }
      var hid := Be16Value(data[o + 4..o + 6]);
      var payload := if 2 <= length then data[o + 6..o + 4 + length] else [];
      var next := o + 4 + length;
      ParseStep(data, packets, o, length, hid, payload, next);
      packets := packets + [Frame(hid, payload)];
      o := next;
    }
  }

  /** One iteration of the loop in ParsePackets, in terms of its variables. */
  lemma ParseStep(data: seq<byte>, packets: seq<Frame>, o: nat, length: nat, hid: uint16, payload: seq<byte>, next: nat)
    requires o + 6 <= |data| && next == o + 4 + length <= |data|
    requires length == Be32Value(data[o..o + 4]) && hid == Be16Value(data[o + 4..o + 6])
    requires payload == if 2 <= length then data[o + 6..o + 4 + length] else []
    ensures packets + ParseFrom(data, o) == (packets + [Frame(hid, payload)]) + ParseFrom(data, next)
  {
    ParseUnfold(data, o, Frame(hid, payload), next);
    AppendAssoc(packets, [Frame(hid, payload)], ParseFrom(data, next));
  }

  /** The frames from cursor o are f, then those from cursor next. */
  predicate Unfolds(data: seq<byte>, o: nat, f: Frame, next: nat)
  {
    ParseFrom(data, o) == [f] + ParseFrom(data, next)
  }

  lemma ParseUnfold(data: seq<byte>, o: nat, f: Frame, next: nat)
    requires NextFrame(data, o) == Some((f, next))
    ensures Unfolds(data, o, f, next)
  {
  }

  lemma AppendAssoc<T>(a: seq<T>, b: seq<T>, c: seq<T>)
    ensures a + (b + c) == (a + b) + c
  {
  }

  /** The step looks only at the bytes from the cursor on. */
  lemma NextFrameShift(pre: seq<byte>, data: seq<byte>, o: nat)
    requires o <= |data|
    ensures NextFrame(data, o).None? ==> NextFrame(pre + data, |pre| + o).None?
    ensures NextFrame(data, o).Some? ==>
      NextFrame(pre + data, |pre| + o) == Some((NextFrame(data, o).value.0, |pre| + NextFrame(data, o).value.1))
  {
    if o + 6 <= |data| {
      SliceShift(pre, data, o, o + 4);
      if o + 4 + DeclaredLength(data, o) <= |data| {
        HeaderShift(pre, data, o);
        PayloadShift(pre, data, o);
      }
    }
  }

  lemma HeaderShift(pre: seq<byte>, data: seq<byte>, o: nat)
    requires o + 6 <= |data|
    requires o + 4 + DeclaredLength(data, o) <= |data|
    ensures NextFrame(pre + data, |pre| + o).Some?
    ensures NextFrame(pre + data, |pre| + o).value.0.header == NextFrame(data, o).value.0.header
  {
    SliceShift(pre, data, o, o + 4);
    SliceShift(pre, data, o + 4, o + 6);
  }

  lemma PayloadShift(pre: seq<byte>, data: seq<byte>, o: nat)
    requires o + 6 <= |data|
    requires o + 4 + DeclaredLength(data, o) <= |data|
    ensures NextFrame(pre + data, |pre| + o).Some?
    ensures NextFrame(pre + data, |pre| + o).value.0.payload == NextFrame(data, o).value.0.payload
  {
    SliceShift(pre, data, o, o + 4);
    var length := DeclaredLength(data, o);
    if 2 <= length {
      SliceShift(pre, data, o + 6, o + 4 + length);
    }
  }

  /** The frames from cursor o are the same with bytes put in front, the
      cursor moved past them. */
  predicate ShiftInvariant(pre: seq<byte>, data: seq<byte>, o: nat)
  {
    ParseFrom(pre + data, |pre| + o) == ParseFrom(data, o)
  }

  /** Parsing only looks at the bytes from the cursor on. */
  lemma {:induction false} ParseFromShift(pre: seq<byte>, data: seq<byte>, o: nat)
    requires o <= |data|
    ensures ShiftInvariant(pre, data, o)
    decreases |data| - o
  {
    if NextFrame(data, o).Some? {
      var (f, next) := NextFrame(data, o).value;
      ParseFromShift(pre, data, next);
      ParseUnfold(data, o, f, next);
      ShiftedUnfold(pre, data, o, f, next);
      ShiftStep(pre, data, o, f, next);
    } else {
      NextFrameShift(pre, data, o);
      ParseStops(data, o);
      ParseStops(pre + data, |pre| + o);
    }
  }

  lemma ShiftedUnfold(pre: seq<byte>, data: seq<byte>, o: nat, f: Frame, next: nat)
    requires o <= |data| && NextFrame(data, o) == Some((f, next))
    ensures Unfolds(pre + data, |pre| + o, f, |pre| + next)
  {
    ShiftedNext(pre, data, o, f, next);
    ParseUnfold(pre + data, |pre| + o, f, |pre| + next);
  }

  lemma ShiftedNext(pre: seq<byte>, data: seq<byte>, o: nat, f: Frame, next: nat)
    requires o <= |data| && NextFrame(data, o) == Some((f, next))
    ensures NextFrame(pre + data, |pre| + o) == Some((f, |pre| + next))
  {
    NextFrameShift(pre, data, o);
  }

  lemma ShiftStep(pre: seq<byte>, data: seq<byte>, o: nat, f: Frame, next: nat)
    requires Unfolds(data, o, f, next) && Unfolds(pre + data, |pre| + o, f, |pre| + next)
    requires ShiftInvariant(pre, data, next)
    ensures ShiftInvariant(pre, data, o)
  {
  }

  lemma ParseStops(data: seq<byte>, o: nat)
    requires NextFrame(data, o).None?
    ensures ParseFrom(data, o) == []
  {
  }

  lemma SliceShift(pre: seq<byte>, data: seq<byte>, i: nat, j: nat)
    requires i <= j <= |data|
    ensures (pre + data)[|pre| + i..|pre| + j] == data[i..j]
  {
  }

  /** An encoded frame followed by anything parses to that frame, then to
      whatever the rest parses to. */
  lemma ParseBuildPacketThen(h: uint16, payload: seq<byte>, rest: seq<byte>)
    requires 2 + |payload| < 0x1_0000_0000
    ensures ParseFrames(BuildPacket(h, payload) + rest) == [Frame(h, payload)] + ParseFrames(rest)
  {
    var pkt := BuildPacket(h, payload);
    var d := pkt + rest;
    BuildPacketLayout(h, payload);
    assert d[..4] == pkt[..4];
    assert d[4..6] == pkt[4..6];
    assert d[6..4 + 2 + |payload|] == payload;
    ParseFromShift(pkt, rest, 0);
    assert ParseFrom(d, 4 + 2 + |payload|) == ParseFrom(rest, 0);
  }

  /** parse_packets(build_packet(h, p)) == [(h, p)]. */
  lemma ParseBuildPacket(h: uint16, payload: seq<byte>)
    requires 2 + |payload| < 0x1_0000_0000
    ensures ParseFrames(BuildPacket(h, payload)) == [Frame(h, payload)]
  {
    ParseBuildPacketThen(h, payload, []);
    assert BuildPacket(h, payload) + [] == BuildPacket(h, payload);
  }

  /** A frame whose payload fits the length field. */
  predicate Encodable(f: Frame)
  {
    2 + |f.payload| < 0x1_0000_0000
  }

  /** The bytes of a list of frames sent back to back. */
  function EncodeAll(frames: seq<Frame>): (r: seq<byte>)
    requires forall i :: 0 <= i < |frames| ==> Encodable(frames[i])
  {
    if frames == [] then []
    else
      assert Encodable(frames[0]);
      BuildPacket(frames[0].header, frames[0].payload) + EncodeAll(frames[1..])
  }

  /** A tail that cannot hold a complete frame: fewer than 6 bytes, or a
      declared length that runs past the end. */
  predicate Incomplete(tail: seq<byte>)
  {
    |tail| < 6 || 4 + DeclaredLength(tail, 0) > |tail|
  }

  lemma IncompleteParsesToNothing(tail: seq<byte>)
    requires Incomplete(tail)
    ensures ParseFrames(tail) == []
  {
  }

  /** Back-to-back frames parse to themselves, in order, and an incomplete
      trailing fragment yields nothing and ends the scan. */
  lemma {:induction false} ParseEncodeAll(frames: seq<Frame>, tail: seq<byte>)
    requires forall i :: 0 <= i < |frames| ==> Encodable(frames[i])
    requires Incomplete(tail)
    ensures ParseFrames(EncodeAll(frames) + tail) == frames
  {
    if frames == [] {
      assert EncodeAll(frames) + tail == tail;
    } else {
      var f := frames[0];
      var pkt := BuildPacket(f.header, f.payload);
      assert EncodeAll(frames) + tail == pkt + (EncodeAll(frames[1..]) + tail);
      ParseBuildPacketThen(f.header, f.payload, EncodeAll(frames[1..]) + tail);
      ParseEncodeAll(frames[1..], tail);
    }
  }

  /** Two concatenated frames parse to both, in order. */
  lemma ParseTwoFrames(f: Frame, g: Frame)
    requires Encodable(f) && Encodable(g)
    ensures ParseFrames(BuildPacket(f.header, f.payload) + BuildPacket(g.header, g.payload)) == [f, g]
  {
    ParseBuildPacketThen(f.header, f.payload, BuildPacket(g.header, g.payload));
    ParseBuildPacket(g.header, g.payload);
  }

  /** With a declared length below 2, the header id is taken from the two
      bytes after the length field, which lie past the frame's end, the
      payload is empty, and the scan resumes only 4 + length bytes on. */
  lemma ShortDeclaredLength(data: seq<byte>)
    requires 6 <= |data| && DeclaredLength(data, 0) < 2
    ensures var l := DeclaredLength(data, 0);
            ParseFrames(data) == [Frame(Be16Value(data[4..6]), [])] + ParseFrom(data, 4 + l)
  {
  }
}
