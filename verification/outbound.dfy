/** The frames the bots send. Each command is a header id and a fixed
    list of fields; its payload is those fields written back to back with
    encode_int and encode_string. The header ids are the same in all three
    bots. */
module Outbound {
  import opened Codec
  import opened Reader
  import Text

  const SECURITY_TICKET: uint16 := 2419
  const SECURITY_MACHINE: uint16 := 2490
  const CLIENT_VARIABLES: uint16 := 1053
  const GET_GUEST_ROOM: uint16 := 2230
  const OPEN_FLAT_CONNECTION: uint16 := 2312
  const GET_ROOM_ENTRY_DATA: uint16 := 3898
  const OUT_CHAT: uint16 := 1314
  const OUT_SHOUT: uint16 := 2085
  const MOVE_AVATAR: uint16 := 3320
  const DANCE: uint16 := 2080
  const EXPRESSION: uint16 := 2456
  const SIGN: uint16 := 1975
  const PLACE_OBJECT: uint16 := 1258
  const CLIENT_PONG: uint16 := 2596

  /** The expression id of a wave. */
  const WAVE: int32 := 1
  /** The dance style that stops dancing. */
  const STOP: int32 := 0

  /** One outbound command. */
  datatype Out =
    | SecurityMachine
    | ClientVariables
    | SecurityTicket(ticket: string)
    | GetGuestRoom(room: int32)
    | OpenFlatConnection(room: int32)
    | GetRoomEntryData
    | Chat(text: string)
    | Shout(text: string)
    | MoveAvatar(x: int32, y: int32)
    | Dance(style: int32)
    | Expression(expression: int32)
    | Sign(sign: int32)
    | PlaceObject(placement: string)
    | Pong

  function Header(o: Out): uint16
  {
    match o
    case SecurityMachine => SECURITY_MACHINE
    case ClientVariables => CLIENT_VARIABLES
    case SecurityTicket(_) => SECURITY_TICKET
    case GetGuestRoom(_) => GET_GUEST_ROOM
    case OpenFlatConnection(_) => OPEN_FLAT_CONNECTION
    case GetRoomEntryData => GET_ROOM_ENTRY_DATA
    case Chat(_) => OUT_CHAT
    case Shout(_) => OUT_SHOUT
    case MoveAvatar(_, _) => MOVE_AVATAR
    case Dance(_) => DANCE
    case Expression(_) => EXPRESSION
    case Sign(_) => SIGN
    case PlaceObject(_) => PLACE_OBJECT
    case Pong => CLIENT_PONG
  }

  /** The payload fields, in the order the bots write them: a chat carries
      the text, then 0 and -1; a shout the text, then 0; the handshake's
      client variables are 0, "0" and "". */
  function Fields(o: Out): seq<Value>
  {
    match o
    case SecurityMachine => [StringValue("")]
    case ClientVariables => [IntValue(0), StringValue("0"), StringValue("")]
    case SecurityTicket(t) => [StringValue(t)]
    case GetGuestRoom(r) => [IntValue(r), IntValue(0), IntValue(1)]
    case OpenFlatConnection(r) => [IntValue(r), StringValue("")]
    case GetRoomEntryData => []
    case Chat(t) => [StringValue(t), IntValue(0), IntValue(-1)]
    case Shout(t) => [StringValue(t), IntValue(0)]
    case MoveAvatar(x, y) => [IntValue(x), IntValue(y)]
    case Dance(s) => [IntValue(s)]
    case Expression(e) => [IntValue(e)]
    case Sign(s) => [IntValue(s)]
    case PlaceObject(p) => [StringValue(p)]
    case Pong => []
  }

  /** The frame a command is sent as: build_packet of its header and its
      written fields. None where the source raises: a text longer than
      65535 UTF-8 bytes, or a payload too long for the length field. */
  function Encode(o: Out): (r: Option<Frame>)
    ensures r.Some? ==> r.value.header == Header(o) && Encodable(r.value)
    ensures r.Some? ==> Some(r.value.payload) == EncodeValues(Fields(o))
    ensures r.None? ==> EncodeValues(Fields(o)).None? || 2 + |EncodeValues(Fields(o)).value| >= 0x1_0000_0000
  {
    match EncodeValues(Fields(o))
    case None => None
    case Some(p) => if 2 + |p| < 0x1_0000_0000 then Some(Frame(Header(o), p)) else None
  }

  /** The wire bytes of one send. */
  function Packet(f: Frame): (r: seq<byte>)
    requires Encodable(f)
  {
    BuildPacket(f.header, f.payload)
  }

  /** The frames a run of sends puts on the wire: each command in order,
      until the first that cannot be encoded, whose exception ends the
      run. */
  function Transmit(outs: seq<Out>): (fs: seq<Frame>)
    ensures |fs| <= |outs|
    ensures forall i :: 0 <= i < |fs| ==> Encode(outs[i]) == Some(fs[i])
  {
    if outs == [] then []
    else
      match Encode(outs[0])
      case None => []
      case Some(f) => [f] + Transmit(outs[1..])
  }

  // ---- reading a command back, as the server does ----

  /** The field layout the server expects after a header id. */
  function LayoutOf(h: uint16): Option<seq<Kind>>
  {
    if h == SECURITY_MACHINE || h == SECURITY_TICKET || h == PLACE_OBJECT then Some([StringField])
    else if h == CLIENT_VARIABLES then Some([IntField, StringField, StringField])
    else if h == GET_GUEST_ROOM then Some([IntField, IntField, IntField])
    else if h == OPEN_FLAT_CONNECTION then Some([IntField, StringField])
    else if h == GET_ROOM_ENTRY_DATA || h == CLIENT_PONG then Some([])
    else if h == OUT_CHAT then Some([StringField, IntField, IntField])
    else if h == OUT_SHOUT then Some([StringField, IntField])
    else if h == MOVE_AVATAR then Some([IntField, IntField])
    else if h == DANCE || h == EXPRESSION || h == SIGN then Some([IntField])
    else None
  }

  /** The command a header id and its decoded fields stand for. */
  function FromFields(h: uint16, vs: seq<Value>): Option<Out>
  {
    if h == SECURITY_MACHINE && vs == [StringValue("")] then Some(SecurityMachine)
    else if h == CLIENT_VARIABLES && vs == [IntValue(0), StringValue("0"), StringValue("")] then Some(ClientVariables)
    else if h == SECURITY_TICKET && |vs| == 1 && vs[0].StringValue? then Some(SecurityTicket(vs[0].s))
    else if h == GET_GUEST_ROOM && |vs| == 3 && vs[0].IntValue? && vs[1..] == [IntValue(0), IntValue(1)] then
      Some(GetGuestRoom(vs[0].i))
    else if h == OPEN_FLAT_CONNECTION && |vs| == 2 && vs[0].IntValue? && vs[1] == StringValue("") then
      Some(OpenFlatConnection(vs[0].i))
    else if h == GET_ROOM_ENTRY_DATA && vs == [] then Some(GetRoomEntryData)
    else if h == OUT_CHAT && |vs| == 3 && vs[0].StringValue? && vs[1..] == [IntValue(0), IntValue(-1)] then
      Some(Chat(vs[0].s))
    else if h == OUT_SHOUT && |vs| == 2 && vs[0].StringValue? && vs[1] == IntValue(0) then Some(Shout(vs[0].s))
    else if h == MOVE_AVATAR && |vs| == 2 && vs[0].IntValue? && vs[1].IntValue? then Some(MoveAvatar(vs[0].i, vs[1].i))
    else if h == DANCE && |vs| == 1 && vs[0].IntValue? then Some(Dance(vs[0].i))
    else if h == EXPRESSION && |vs| == 1 && vs[0].IntValue? then Some(Expression(vs[0].i))
    else if h == SIGN && |vs| == 1 && vs[0].IntValue? then Some(Sign(vs[0].i))
    else if h == PLACE_OBJECT && |vs| == 1 && vs[0].StringValue? then Some(PlaceObject(vs[0].s))
    else if h == CLIENT_PONG && vs == [] then Some(Pong)
    else None
  }

  /** A received frame read as a command: its header's layout must decode
      and use up the whole payload. */
  function DecodeOut(f: Frame): Option<Out>
  {
    match LayoutOf(f.header)
    case None => None
    case Some(layout) =>
      match FieldsAt(f.payload, 0, layout)
      case None => None
      case Some((vs, q)) => if q == |f.payload| then FromFields(f.header, vs) else None
  }

  /** Commands whose text fields are ASCII, so that they read back as
      written. */
  predicate AsciiOut(o: Out)
  {
    forall i :: 0 <= i < |Fields(o)| ==> AsciiValue(Fields(o)[i])
  }

  lemma LayoutOfHeader(o: Out)
    ensures LayoutOf(Header(o)) == Some(Kinds(Fields(o)))
  {
    var ks := Kinds(Fields(o));
    assert ks == LayoutOf(Header(o)).value by {
      assert |ks| == |LayoutOf(Header(o)).value|;
      forall i | 0 <= i < |ks|
        ensures ks[i] == LayoutOf(Header(o)).value[i]
      {
      }
    }
  }

  lemma FromFieldsOfFields(o: Out)
    ensures FromFields(Header(o), Fields(o)) == Some(o)
  {
  }

  /** Every frame a bot sends decodes back to the command it was built
      from. */
  lemma DecodeEncode(o: Out)
    requires Encode(o).Some? && AsciiOut(o)
    ensures DecodeOut(Encode(o).value) == Some(o)
  {
    var f := Encode(o).value;
    LayoutOfHeader(o);
    assert f.payload[0..|f.payload|] == f.payload;
    FieldsAtEncoded(f.payload, 0, Fields(o), f.payload, |f.payload|);
    FromFieldsOfFields(o);
  }

  /** A command's frame, once on the wire, parses back to that frame. */
  lemma SentFrameParses(o: Out)
    requires Encode(o).Some?
    ensures ParseFrames(Packet(Encode(o).value)) == [Encode(o).value]
  {
    var f := Encode(o).value;
    ParseBuildPacket(f.header, f.payload);
  }

  /** Short text never makes a send fail: a command encodes whenever each
      of its texts is under 65536 bytes of UTF-8. */
  lemma ShortTextEncodes(o: Out)
    requires forall i :: 0 <= i < |Fields(o)| ==> Fields(o)[i].StringValue? ==> |Text.Utf8(Fields(o)[i].s)| < 0x1_0000
    ensures Encode(o).Some?
  {
    EncodeValuesBound(Fields(o));
  }

  lemma {:induction false} EncodeValuesBound(vs: seq<Value>)
    requires forall i :: 0 <= i < |vs| ==> !vs[i].BoolValue?
    requires forall i :: 0 <= i < |vs| ==> vs[i].StringValue? ==> |Text.Utf8(vs[i].s)| < 0x1_0000
    ensures EncodeValues(vs).Some? && |EncodeValues(vs).value| <= 0x1_0001 * |vs|
  {
    if vs != [] {
      EncodeValuesBound(vs[1..]);
    }
  }

  /** The sends that go through are a prefix of those attempted, and all
      of them go through when every command encodes. */
  lemma TransmitPrefix(outs: seq<Out>)
    ensures |Transmit(outs)| == |outs| <==> forall i :: 0 <= i < |outs| ==> Encode(outs[i]).Some?
  {
    if outs != [] && Encode(outs[0]).Some? {
      TransmitPrefix(outs[1..]);
      assert forall i :: 1 <= i < |outs| ==> outs[i] == outs[1..][i - 1];
    }
  }
}
