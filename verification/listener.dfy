/** The listener of the "claude" bot: for every frame of every inbound
    message it either answers a ping, updates the occupant table, or
    queues an event for the chat handler. Dispatch says what one frame
    does to the listener's state; the class below does it in place and is
    proved to agree. */
module Listener {
  import opened Codec
  import opened Reader
  import opened Tracker
  import opened Outbound
  import opened Session
  import Text

  const IN_CHAT: uint16 := 1446
  const IN_SHOUT: uint16 := 1036
  const IN_WHISPER: uint16 := 1132
  const IN_ROOM_USERS: uint16 := 374
  const IN_USER_REMOVE: uint16 := 2661
  const IN_USER_UPDATE: uint16 := 1640

  const BOT_USERNAME: string := "claude"

  /** The first element of a queued tuple: "new_user", "chat" or "whisper". */
  datatype EventKind = NewUserEvent | ChatEvent | WhisperEvent

  /** One entry of chat_queue: kind, room-unit id, display name, message. */
  datatype Event = Event(kind: EventKind, unitId: int32, name: string, message: string)

  // ---- parse_chat ----

  const ChatLayout: seq<Kind> := [IntField, StringField]

  /** parse_chat: the sender's room-unit id, then the message; None where
      a read raises. */
  function ChatAt(payload: seq<byte>): Option<(int32, string)>
  {
    match FieldsAt(payload, 0, ChatLayout)
    case None => None
    case Some((vs, _)) =>
      assert HasKind(vs[0], IntField) && HasKind(vs[1], StringField);
      Some((vs[0].i, vs[1].s))
  }

  method ParseChat(payload: seq<byte>) returns (c: Option<(int32, string)>)
    ensures c == ChatAt(payload)
  {
    var r := new PayloadReader(payload);
    var ruid := r.ReadInt();
    if ruid.None? {
      return None;
    }
    var message := r.ReadString();
    if message.None? {
      return None;
    }
    c := Some((ruid.value, message.value));
  }

  /** A chat payload written with encode_int and encode_string reads back
      as the sender and the (ASCII) message. */
  lemma ChatRoundTrip(ruid: int32, message: string, e: seq<byte>)
    requires Text.IsAscii(message)
    requires EncodeValues([IntValue(ruid), StringValue(message)]) == Some(e)
    ensures ChatAt(e) == Some((ruid, message))
  {
    var vs := [IntValue(ruid), StringValue(message)];
    assert e[0..|e|] == e;
    FieldsAtEncoded(e, 0, vs, e, |e|);
    assert Kinds(vs) == ChatLayout;
  }

  // ---- the listener's state and one frame's effect ----

  /** room_users, own_room_unit_id, room_loaded, what has been queued for
      the chat handler and what has been sent. */
  datatype ListenerState = ListenerState(
    users: map<int, Occupant>, ownId: Option<int>, loaded: bool, queue: seq<Event>, sent: seq<Out>)

  predicate IsBotName(name: string)
  {
    Text.Lower(name) == BOT_USERNAME
  }

  /** own_room_unit_id after scanning the parsed (id, name) pairs: the
      last id whose name is "claude" in any letter case. */
  function OwnIdAfter(own: Option<int>, parsed: seq<(int32, string)>): Option<int>
  {
    if parsed == [] then own
    else
      var last := parsed[|parsed| - 1];
      if IsBotName(last.1) then Some(last.0 as int) else OwnIdAfter(own, parsed[..|parsed| - 1])
  }

  /** The new_user events for the parsed pairs: one per pair whose id was
      not in the table before the packet and whose name is not the bot's. */
  function Greetings(before: set<int>, parsed: seq<(int32, string)>): (es: seq<Event>)
    ensures |es| <= |parsed|
  {
    if parsed == [] then []
    else
      var last := parsed[|parsed| - 1];
      Greetings(before, parsed[..|parsed| - 1])
      + (if last.0 as int !in before && !IsBotName(last.1) then [Event(NewUserEvent, last.0, last.1, "")] else [])
  }

  /** The name a chat event carries: the table's username for the sender,
      or "User#<id>" for an id not in the table. */
  function SenderName(users: map<int, Occupant>, ruid: int32): string
  {
    if ruid as int in users then users[ruid as int].username else "User#" + Text.Decimal(ruid as int)
  }

  predicate IsChatHeader(h: uint16)
  {
    h == IN_CHAT || h == IN_SHOUT || h == IN_WHISPER
  }

  /** What one inbound frame does, in the listener's order of tests. */
  function Dispatch(s: ListenerState, f: Frame): ListenerState
  {
    if f.header == SERVER_PING then s.(sent := s.sent + [Pong])
    else if f.header == IN_ROOM_USERS then
      var us := RoomUsers(f.payload);
      var parsed := Arrivals(us);
      s.(users := Store(s.users, us),
         ownId := OwnIdAfter(s.ownId, parsed),
         queue := if s.loaded then s.queue + Greetings(s.users.Keys, parsed) else s.queue)
    else if f.header == IN_USER_REMOVE then s.(users := Depart(s.users, f.payload))
    else if f.header == IN_USER_UPDATE then s.(users := Move(s.users, Movements(f.payload)))
    else if IsChatHeader(f.header) then
      match ChatAt(f.payload)
      case None => s
      case Some((ruid, message)) =>
        if s.ownId == Some(ruid as int) then s
        else
          var kind := if f.header == IN_WHISPER then WhisperEvent else ChatEvent;
          s.(queue := s.queue + [Event(kind, ruid, SenderName(s.users, ruid), message)])
    else s
  }

  /** The frames in order. */
  function DispatchAll(s: ListenerState, fs: seq<Frame>): ListenerState
  {
    if fs == [] then s else Dispatch(DispatchAll(s, fs[..|fs| - 1]), fs[|fs| - 1])
  }

  class ChatListener {
    const table: OccupantTable
    var ownId: Option<int>
    var roomLoaded: bool
    var queue: seq<Event>
    var sent: seq<Out>

    function State(): ListenerState
      reads this, table
    {
      ListenerState(table.users, ownId, roomLoaded, queue, sent)
    }

    /** The listener starts from the table and own id the room entry left,
        with nothing queued or sent. */
    constructor (table: OccupantTable, ownId: Option<int>, roomLoaded: bool)
      ensures this.table == table
      ensures State() == ListenerState(table.users, ownId, roomLoaded, [], [])
    {
      this.table := table;
      this.ownId := ownId;
      this.roomLoaded := roomLoaded;
      queue := [];
      sent := [];
    }

    /** The body of the listener's loop for one frame. */
    method HandleFrame(f: Frame)
      modifies this, table
      ensures State() == Dispatch(old(State()), f)
    {
      var h := f.header;
      if h == SERVER_PING {
        sent := sent + [Pong];
        return;
      }
      if h == IN_ROOM_USERS {
        var before := table.users.Keys;
        var parsed := table.ApplyRoomUsers(f.payload);
        ScanOwnId(parsed);
        if roomLoaded {
          QueueArrivals(before, parsed);
        }
        return;
      }
      if h == IN_USER_REMOVE {
        table.ApplyDeparture(f.payload);
        return;
      }
      if h == IN_USER_UPDATE {
        table.ApplyUserUpdate(f.payload);
        return;
      }
      if h == IN_CHAT || h == IN_SHOUT || h == IN_WHISPER {
        var c := ParseChat(f.payload);
        if c.None? {
          return;
        }
        var (ruid, message) := c.value;
        if ownId == Some(ruid as int) {
          return;
        }
        var name := if ruid as int in table.users then table.users[ruid as int].username
                    else "User#" + Text.Decimal(ruid as int);
        var kind := if h == IN_WHISPER then WhisperEvent else ChatEvent;
        queue := queue + [Event(kind, ruid, name, message)];
      }
    }

    /** The scan for the bot's own room-unit id. */
    method ScanOwnId(parsed: seq<(int32, string)>)
      modifies this
      ensures ownId == OwnIdAfter(old(ownId), parsed)
      ensures roomLoaded == old(roomLoaded) && queue == old(queue) && sent == old(sent)
    {
      ghost var own0 := ownId;
      for i := 0 to |parsed|
        invariant ownId == OwnIdAfter(own0, parsed[..i])
        invariant roomLoaded == old(roomLoaded) && queue == old(queue) && sent == old(sent)
      {
        assert parsed[..i + 1][..i] == parsed[..i];
        var (ruid, uname) := parsed[i];
        if Text.Lower(uname) == BOT_USERNAME {
          ownId := Some(ruid as int);
        }
      }
      assert parsed[..|parsed|] == parsed;
    }

    /** The greeting of new arrivals. */
    method QueueArrivals(before: set<int>, parsed: seq<(int32, string)>)
      modifies this
      ensures queue == old(queue) + Greetings(before, parsed)
      ensures ownId == old(ownId) && roomLoaded == old(roomLoaded) && sent == old(sent)
    {
      ghost var q0 := queue;
      for i := 0 to |parsed|
        invariant queue == q0 + Greetings(before, parsed[..i])
        invariant ownId == old(ownId) && roomLoaded == old(roomLoaded) && sent == old(sent)
      {
        assert parsed[..i + 1][..i] == parsed[..i];
        var (ruid, uname) := parsed[i];
        if ruid as int !in before && Text.Lower(uname) != BOT_USERNAME {
          queue := queue + [Event(NewUserEvent, ruid, uname, "")];
        }
      }
      assert parsed[..|parsed|] == parsed;
    }

    /** One binary message: every frame parse_packets finds, in order. */
    method HandleMessage(data: seq<byte>)
      modifies this, table
      ensures State() == DispatchAll(old(State()), ParseFrames(data))
    {
      var frames := ParsePackets(data);
      ghost var s0 := State();
      for i := 0 to |frames|
        invariant State() == DispatchAll(s0, frames[..i])
      {
        assert frames[..i + 1][..i] == frames[..i];
        HandleFrame(frames[i]);
      }
      assert frames[..|frames|] == frames;
    }
  }

  // ---- properties ----

  /** A ping is answered with exactly one pong and nothing else changes. */
  lemma PingGetsPong(s: ListenerState, payload: seq<byte>)
    ensures Dispatch(s, Frame(SERVER_PING, payload)) == s.(sent := s.sent + [Pong])
  {
  }

  /** Only pings send anything, one pong each. */
  lemma {:induction false} PongsMatchPings(s: ListenerState, fs: seq<Frame>)
    ensures DispatchAll(s, fs).sent == s.sent + Pongs(PingCount(fs))
  {
    if fs != [] {
      PongsMatchPings(s, fs[..|fs| - 1]);
    }
  }

  /** A chat, shout or whisper from the bot's own room-unit id queues
      nothing and changes nothing. */
  lemma SelfEchoIgnored(s: ListenerState, f: Frame)
    requires IsChatHeader(f.header)
    requires ChatAt(f.payload).Some? && s.ownId == Some(ChatAt(f.payload).value.0 as int)
    ensures Dispatch(s, f) == s
  {
  }

  /** Any other decodable chat frame queues exactly one event: a whisper
      for IN_WHISPER and a chat otherwise, named from the table or
      "User#<id>", carrying the message. */
  lemma ChatQueuesOne(s: ListenerState, f: Frame)
    requires IsChatHeader(f.header)
    requires ChatAt(f.payload).Some? && s.ownId != Some(ChatAt(f.payload).value.0 as int)
    ensures var (ruid, message) := ChatAt(f.payload).value;
      var s2 := Dispatch(s, f);
      && s2.queue == s.queue + [s2.queue[|s.queue|]]
      && s2.queue[|s.queue|].unitId == ruid
      && s2.queue[|s.queue|].message == message
      && (s2.queue[|s.queue|].kind == WhisperEvent <==> f.header == IN_WHISPER)
      && s2.queue[|s.queue|].kind != NewUserEvent
      && (ruid as int in s.users ==> s2.queue[|s.queue|].name == s.users[ruid as int].username)
      && (ruid as int !in s.users ==> s2.queue[|s.queue|].name == "User#" + Text.Decimal(ruid as int))
      && s2.users == s.users && s2.sent == s.sent && s2.ownId == s.ownId
  {
  }

  /** A chat frame whose fields do not decode is dropped. */
  lemma UndecodableChatIgnored(s: ListenerState, f: Frame)
    requires IsChatHeader(f.header) && ChatAt(f.payload).None?
    ensures Dispatch(s, f) == s
  {
  }

  /** The arrivals queued for a ROOM_USERS packet are exactly the parsed
      pairs whose id was absent before it and whose name is not the
      bot's, and only once the room is loaded. */
  lemma {:induction false} GreetingsExactly(before: set<int>, parsed: seq<(int32, string)>, e: Event)
    ensures e in Greetings(before, parsed) <==>
      e.kind == NewUserEvent && e.message == "" && (e.unitId, e.name) in parsed
      && e.unitId as int !in before && !IsBotName(e.name)
  {
    if parsed != [] {
      var init := parsed[..|parsed| - 1];
      GreetingsExactly(before, init, e);
      assert parsed == init + [parsed[|parsed| - 1]];
    }
  }

  lemma ArrivalsOnlyWhenLoaded(s: ListenerState, payload: seq<byte>)
    ensures var s2 := Dispatch(s, Frame(IN_ROOM_USERS, payload));
      && (!s.loaded ==> s2.queue == s.queue)
      && (s.loaded ==> s2.queue == s.queue + Greetings(s.users.Keys, Arrivals(RoomUsers(payload))))
  {
  }

  /** Tracker packets queue nothing and send nothing; departures and
      position updates never add an id. */
  lemma TrackerFramesQueueNothing(s: ListenerState, f: Frame)
    requires f.header == IN_USER_REMOVE || f.header == IN_USER_UPDATE
    ensures Dispatch(s, f).queue == s.queue && Dispatch(s, f).sent == s.sent
    ensures Dispatch(s, f).users.Keys <= s.users.Keys
  {
    if f.header == IN_USER_UPDATE {
      MoveKeepsEntries(s.users, Movements(f.payload));
    }
  }

  /** The listener never changes whether the room is loaded. */
  lemma {:induction false} LoadedUnchanged(s: ListenerState, fs: seq<Frame>)
    ensures DispatchAll(s, fs).loaded == s.loaded
  {
    if fs != [] {
      LoadedUnchanged(s, fs[..|fs| - 1]);
    }
  }
  /** The scan keeps the last id whose name is the bot's. */
  lemma {:induction false} OwnIdIsLastBotName(own: Option<int>, parsed: seq<(int32, string)>, j: nat)
    requires j < |parsed| && IsBotName(parsed[j].1)
    requires forall k :: j < k < |parsed| ==> !IsBotName(parsed[k].1)
    ensures OwnIdAfter(own, parsed) == Some(parsed[j].0 as int)
  {
    if j < |parsed| - 1 {
      var init := parsed[..|parsed| - 1];
      assert init[j] == parsed[j];
      assert forall k :: j < k < |init| ==> init[k] == parsed[k];
      OwnIdIsLastBotName(own, init, j);
    }
  }

  /** With no name the bot's, the scan keeps the id it had. */
  lemma {:induction false} OwnIdKeptWithoutBotName(own: Option<int>, parsed: seq<(int32, string)>)
    requires forall k :: 0 <= k < |parsed| ==> !IsBotName(parsed[k].1)
    ensures OwnIdAfter(own, parsed) == own
  {
    if parsed != [] {
      var init := parsed[..|parsed| - 1];
      assert forall k :: 0 <= k < |init| ==> init[k] == parsed[k];
      OwnIdKeptWithoutBotName(own, init);
    }
  }
}
