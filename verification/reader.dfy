/** PayloadReader: a cursor over one packet payload. Each read either
    consumes a fixed-width field and advances the cursor, or fails (the
    source raises ValueError) when too few bytes remain.

    The functions IntAt, ShortAt, RawStringAt, StringAt and BoolAt say what
    a read at a given cursor yields; the class is the mutable reader whose
    methods are proved against them. */
module Reader {
  import opened Codec
  import Text

  /** read_int: 4 bytes, ">i". */
  function IntAt(data: seq<byte>, pos: nat): (r: Option<(int32, nat)>)
    ensures r.Some? <==> pos + 4 <= |data|
    ensures r.Some? ==> r.value.1 == pos + 4
  {
    if pos + 4 <= |data| then Some((DecodeInt(data[pos..pos + 4]), pos + 4)) else None
  }

  /** read_short: 2 bytes, ">H". */
  function ShortAt(data: seq<byte>, pos: nat): (r: Option<(uint16, nat)>)
    ensures r.Some? <==> pos + 2 <= |data|
    ensures r.Some? ==> r.value.1 == pos + 2
  {
    if pos + 2 <= |data| then Some((Be16Value(data[pos..pos + 2]), pos + 2)) else None
  }

  /** The bytes of a read_string: a short length, then that many bytes. */
  function RawStringAt(data: seq<byte>, pos: nat): (r: Option<(seq<byte>, nat)>)
    ensures r.Some? <==> pos + 2 <= |data| && pos + 2 + Be16Value(data[pos..pos + 2]) <= |data|
    ensures r.Some? ==> r.value.1 == pos + 2 + |r.value.0| <= |data| && |r.value.0| < 0x1_0000
  {
    match ShortAt(data, pos)
    case None => None
    case Some((n, p)) => if p + n <= |data| then Some((data[p..p + n], p + n)) else None
  }

  /** What a successful read consumed is exactly the encoding of what it
      returned: encode_int of the integer, the ">H" form of the short,
      encode_string of the string's bytes. */
  lemma ReadsInvertEncoding(data: seq<byte>, pos: nat)
    ensures IntAt(data, pos).Some? ==> EncodeInt(IntAt(data, pos).value.0) == data[pos..pos + 4]
    ensures ShortAt(data, pos).Some? ==> Be16(ShortAt(data, pos).value.0) == data[pos..pos + 2]
    ensures RawStringAt(data, pos).Some? ==>
      data[pos..RawStringAt(data, pos).value.1] == EncodeString(RawStringAt(data, pos).value.0)
  {
    if pos + 4 <= |data| {
      EncodeDecodeInt(data[pos..pos + 4]);
    }
    if pos + 2 <= |data| {
      Be16ValueRoundTrip(data[pos..pos + 2]);
    }
    if RawStringAt(data, pos).Some? {
      var (b, q) := RawStringAt(data, pos).value;
      assert data[pos..q] == data[pos..pos + 2] + b;
      Be16RoundTrip(|b|);
      Be16ValueRoundTrip(data[pos..pos + 2]);
    }
  }

  /** read_string: the bytes decoded to text. */
  function StringAt(data: seq<byte>, pos: nat): (r: Option<(string, nat)>)
    ensures r.Some? <==> RawStringAt(data, pos).Some?
    ensures r.Some? ==> r.value == (Text.Decode(RawStringAt(data, pos).value.0), RawStringAt(data, pos).value.1)
  {
    match RawStringAt(data, pos)
    case None => None
    case Some((b, p)) => Some((Text.Decode(b), p))
  }

  /** read_bool: one byte, true when nonzero. */
  function BoolAt(data: seq<byte>, pos: nat): (r: Option<(bool, nat)>)
    ensures r.Some? <==> pos + 1 <= |data|
    ensures r.Some? ==> r.value.1 == pos + 1 && (r.value.0 <==> data[pos] != 0)
  {
    if pos + 1 <= |data| then Some((data[pos] != 0, pos + 1)) else None
  }

  /** Reading an encode_int field gives back the integer. */
  lemma IntReadBack(data: seq<byte>, pos: nat, n: int32)
    requires pos + 4 <= |data| && data[pos..pos + 4] == EncodeInt(n)
    ensures IntAt(data, pos) == Some((n, pos + 4))
  {
    DecodeEncodeInt(n);
  }

  /** Reading an encode_string field gives back its bytes. */
  lemma RawStringReadBack(data: seq<byte>, pos: nat, b: seq<byte>)
    requires |b| < 0x1_0000
    requires pos + 2 + |b| <= |data| && data[pos..pos + 2 + |b|] == EncodeString(b)
    ensures RawStringAt(data, pos) == Some((b, pos + 2 + |b|))
  {
    var e := EncodeString(b);
    assert data[pos..pos + 2] == e[..2];
    assert data[pos + 2..pos + 2 + |b|] == e[2..];
  }

  // ---- records: fixed sequences of fields ----

  /** The kinds of field a record is made of. */
  datatype Kind = IntField | StringField | BoolField

  datatype Value = IntValue(i: int32) | StringValue(s: string) | BoolValue(b: bool)

  predicate HasKind(v: Value, k: Kind)
  {
    match k
    case IntField => v.IntValue?
    case StringField => v.StringValue?
    case BoolField => v.BoolValue?
  }

  /** The values match the layout field by field. */
  predicate Conforms(vs: seq<Value>, layout: seq<Kind>)
  {
    |vs| == |layout| && forall i :: 0 <= i < |vs| ==> HasKind(vs[i], layout[i])
  }

  /** One read of the given kind. */
  function FieldAt(d: seq<byte>, p: nat, k: Kind): (r: Option<(Value, nat)>)
    ensures r.Some? ==> HasKind(r.value.0, k) && p < r.value.1 <= |d|
  {
    match k
    case IntField => (match IntAt(d, p) case None => None case Some((v, q)) => Some((IntValue(v), q)))
    case StringField => (match StringAt(d, p) case None => None case Some((v, q)) => Some((StringValue(v), q)))
    case BoolField => (match BoolAt(d, p) case None => None case Some((v, q)) => Some((BoolValue(v), q)))
  }

  /** The reads of a layout in order, from cursor p: the values and the
      cursor after the last, or None at the first field that does not fit. */
  function FieldsAt(d: seq<byte>, p: nat, layout: seq<Kind>): (r: Option<(seq<Value>, nat)>)
    requires p <= |d|
    ensures r.Some? ==> Conforms(r.value.0, layout) && p <= r.value.1 <= |d|
    ensures r.Some? && layout != [] ==> p < r.value.1
    decreases |layout|
  {
    if layout == [] then Some(([], p))
    else
      match FieldAt(d, p, layout[0])
      case None => None
      case Some((v, q)) =>
        match FieldsAt(d, q, layout[1..])
        case None => None
        case Some((vs, q2)) => Some(([v] + vs, q2))
  }

  class PayloadReader {
    const data: seq<byte>
    var pos: nat

    ghost predicate Valid()
      reads this
    {
      pos <= |data|
    }

    constructor (data: seq<byte>)
      ensures this.data == data && pos == 0 && Valid()
    {
      this.data := data;
      pos := 0;
    }

    /** remaining(): the bytes not yet consumed. */
    function Remaining(): (n: int)
      reads this
      ensures Valid() ==> n >= 0
      ensures pos + n == |data|
    {
      |data| - pos
    }

    method ReadInt() returns (r: Option<int32>)
      requires Valid()
      modifies this
      ensures Valid()
      ensures IntAt(data, old(pos)).Some? ==> r == Some(IntAt(data, old(pos)).value.0) && pos == old(pos) + 4
      ensures IntAt(data, old(pos)).None? ==> r == None && pos == old(pos)
    {
      if pos + 4 > |data| {
        return None;
      }
      r := Some(DecodeInt(data[pos..pos + 4]));
      pos := pos + 4;
    }

    method ReadShort() returns (r: Option<uint16>)
      requires Valid()
      modifies this
      ensures Valid()
      ensures ShortAt(data, old(pos)).Some? ==> r == Some(ShortAt(data, old(pos)).value.0) && pos == old(pos) + 2
      ensures ShortAt(data, old(pos)).None? ==> r == None && pos == old(pos)
    {
      if pos + 2 > |data| {
        return None;
      }
      r := Some(Be16Value(data[pos..pos + 2]));
      pos := pos + 2;
    }

    /** A failure after the length was read leaves the cursor 2 bytes on,
        as in the source, where read_short has already advanced it. */
    method ReadString() returns (r: Option<string>)
      requires Valid()
      modifies this
      ensures Valid()
      ensures StringAt(data, old(pos)).Some? ==>
        r == Some(StringAt(data, old(pos)).value.0) && pos == StringAt(data, old(pos)).value.1
      ensures StringAt(data, old(pos)).None? ==> r == None
      ensures StringAt(data, old(pos)).None? && ShortAt(data, old(pos)).Some? ==> pos == old(pos) + 2
      ensures ShortAt(data, old(pos)).None? ==> pos == old(pos)
    {
      var length := ReadShort();
      if length.None? {
        return None;
      }
      if pos + length.value > |data| {
        return None;
      }
      r := Some(Text.Decode(data[pos..pos + length.value]));
      pos := pos + length.value;
    }

    method ReadBool() returns (r: Option<bool>)
      requires Valid()
      modifies this
      ensures Valid()
      ensures BoolAt(data, old(pos)).Some? ==> r == Some(BoolAt(data, old(pos)).value.0) && pos == old(pos) + 1
      ensures BoolAt(data, old(pos)).None? ==> r == None && pos == old(pos)
    {
      if pos + 1 > |data| {
        return None;
      }
      r := Some(data[pos] != 0);
      pos := pos + 1;
    }
  }

  /** One read through the reader. */
  method ReadField(r: PayloadReader, k: Kind) returns (v: Option<Value>)
    requires r.Valid()
    modifies r
    ensures r.Valid()
    ensures FieldAt(r.data, old(r.pos), k).None? ==> v.None?
    ensures FieldAt(r.data, old(r.pos), k).Some? ==>
      v == Some(FieldAt(r.data, old(r.pos), k).value.0) && r.pos == FieldAt(r.data, old(r.pos), k).value.1
  {
    match k
    case IntField =>
      var x := r.ReadInt();
      v := if x.Some? then Some(IntValue(x.value)) else None;
    case StringField =>
      var x := r.ReadString();
      v := if x.Some? then Some(StringValue(x.value)) else None;
    case BoolField =>
      var x := r.ReadBool();
      v := if x.Some? then Some(BoolValue(x.value)) else None;
  }

  /** The reads of a layout through the reader, stopping at the first that
      fails. */
  method ReadFields(r: PayloadReader, layout: seq<Kind>) returns (vs: Option<seq<Value>>)
    requires r.Valid()
    modifies r
    ensures r.Valid()
    ensures FieldsAt(r.data, old(r.pos), layout).None? ==> vs.None?
    ensures FieldsAt(r.data, old(r.pos), layout).Some? ==>
      vs == Some(FieldsAt(r.data, old(r.pos), layout).value.0) && r.pos == FieldsAt(r.data, old(r.pos), layout).value.1
    decreases |layout|
  {
    if layout == [] {
      return Some([]);
    }
    var v := ReadField(r, layout[0]);
    if v.None? {
      return None;
    }
    var rest := ReadFields(r, layout[1..]);
    if rest.None? {
      return None;
    }
    vs := Some([v.value] + rest.value);
  }
  // ---- writing fields: the encoders the bots build payloads with ----

  /** The bytes a field is written as: encode_int, or encode_string of the
      UTF-8 form. None when the text is too long for its 2-byte length
      (struct.pack raises) and for a bool, which no bot writes. */
  function EncodeValue(v: Value): (r: Option<seq<byte>>)
    ensures r.Some? ==> |r.value| >= 2
  {
    match v
    case IntValue(i) => Some(EncodeInt(i))
    case StringValue(s) =>
      var b := Text.Utf8(s);
      if |b| < 0x1_0000 then Some(EncodeString(b)) else None
    case BoolValue(_) => None
  }

  /** The fields written back to back; None when one cannot be written. */
  function EncodeValues(vs: seq<Value>): (r: Option<seq<byte>>)
  {
    if vs == [] then Some([])
    else
      match EncodeValue(vs[0])
      case None => None
      case Some(e) =>
        match EncodeValues(vs[1..])
        case None => None
        case Some(es) => Some(e + es)
  }

  function KindOf(v: Value): (k: Kind)
    ensures HasKind(v, k)
  {
    match v
    case IntValue(_) => IntField
    case StringValue(_) => StringField
    case BoolValue(_) => BoolField
  }

  function Kinds(vs: seq<Value>): (ks: seq<Kind>)
    ensures |ks| == |vs|
    ensures forall i :: 0 <= i < |vs| ==> ks[i] == KindOf(vs[i])
  {
    if vs == [] then [] else [KindOf(vs[0])] + Kinds(vs[1..])
  }

  /** Text fields whose characters are all ASCII, the only ones that
      decode back to themselves. */
  predicate AsciiValue(v: Value)
  {
    v.StringValue? ==> Text.IsAscii(v.s)
  }

  /** Reading a written field gives the value back and moves past it. */
  lemma FieldAtEncoded(d: seq<byte>, p: nat, v: Value, e: seq<byte>)
    requires EncodeValue(v) == Some(e) && AsciiValue(v)
    requires p + |e| <= |d| && d[p..p + |e|] == e
    ensures FieldAt(d, p, KindOf(v)) == Some((v, p + |e|))
  {
    match v
    case IntValue(i) =>
      IntReadBack(d, p, i);
    case StringValue(s) =>
      Text.AsciiRoundTrip(s);
      RawStringReadBack(d, p, Text.Utf8(s));
    case BoolValue(_) =>
  }

  /** The fields read from cursor p with the layout of vs. */
  function ReadBack(d: seq<byte>, p: nat, vs: seq<Value>): Option<(seq<Value>, nat)>
    requires p <= |d|
  {
    FieldsAt(d, p, Kinds(vs))
  }

  /** Reading written fields with their own layout gives them all back, in
      order, and stops right after the last: at r. */
  lemma {:induction false} FieldsAtEncoded(d: seq<byte>, p: nat, vs: seq<Value>, e: seq<byte>, r: nat)
    requires EncodeValues(vs) == Some(e) && forall i :: 0 <= i < |vs| ==> AsciiValue(vs[i])
    requires p + |e| <= |d| && d[p..p + |e|] == e && r == p + |e|
    ensures ReadBack(d, p, vs) == Some((vs, r))
    decreases |vs|
  {
    if vs != [] {
      var e0, e1 := EncodedSplit(d, p, vs, e);
      FieldsAtEncoded(d, p + |e0|, vs[1..], e1, r);
      FieldAtEncoded(d, p, vs[0], e0);
      FieldsAtCons(d, p, vs, e0, r);
    } else {
      assert Kinds(vs) == [] && e == [];
    }
  }

  /** The bytes of the first field and of the rest, where they lie in d. */
  lemma EncodedSplit(d: seq<byte>, p: nat, vs: seq<Value>, e: seq<byte>) returns (e0: seq<byte>, e1: seq<byte>)
    requires vs != [] && EncodeValues(vs) == Some(e) && forall i :: 0 <= i < |vs| ==> AsciiValue(vs[i])
    requires p + |e| <= |d| && d[p..p + |e|] == e
    ensures e == e0 + e1 && p + |e0| + |e1| <= |d|
    ensures EncodeValue(vs[0]) == Some(e0) && EncodeValues(vs[1..]) == Some(e1)
    ensures d[p..p + |e0|] == e0 && d[p + |e0|..p + |e0| + |e1|] == e1
    ensures AsciiValue(vs[0]) && forall i :: 0 <= i < |vs[1..]| ==> AsciiValue(vs[1..][i])
  {
    e0 := EncodeValue(vs[0]).value;
    e1 := EncodeValues(vs[1..]).value;
    assert d[p..p + |e0|] == e[..|e0|];
    assert d[p + |e0|..p + |e|] == e[|e0|..];
  }

  lemma FieldsAtCons(d: seq<byte>, p: nat, vs: seq<Value>, e0: seq<byte>, r: nat)
    requires vs != [] && p + |e0| <= |d|
    requires FieldAt(d, p, KindOf(vs[0])) == Some((vs[0], p + |e0|))
    requires ReadBack(d, p + |e0|, vs[1..]) == Some((vs[1..], r))
    ensures ReadBack(d, p, vs) == Some((vs, r))
  {
    var ks := Kinds(vs);
    assert ks[1..] == Kinds(vs[1..]);
    assert [vs[0]] + vs[1..] == vs;
  }
}
