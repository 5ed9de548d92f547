/** Connecting and entering a room, as the builder and the bartender do
    it: three handshake frames, a drain whose packets decide whether the
    login worked, then three room-entry requests each followed by a drain,
    then an announcement. A drain answers every ping with a pong and
    returns every packet it read. The messages a drain receives are a
    parameter: the socket, its timeouts and the sleeps are not modelled. */
module Session {
  import opened Codec
  import opened Outbound

  const SERVER_PING: uint16 := 3928
  const AUTHENTICATED: uint16 := 2491

  /** One WebSocket message: binary, or text (which the bots skip). */
  datatype Inbound = Binary(data: seq<byte>) | TextMessage(text: string)

  /** The packets of the messages, in arrival order. */
  function Collected(msgs: seq<Inbound>): seq<Frame>
  {
    if msgs == [] then []
    else
      var last := msgs[|msgs| - 1];
      Collected(msgs[..|msgs| - 1]) + (if last.Binary? then ParseFrames(last.data) else [])
  }

  /** How many of the packets are pings. */
  function PingCount(fs: seq<Frame>): (n: nat)
    ensures n <= |fs|
  {
    if fs == [] then 0 else PingCount(fs[..|fs| - 1]) + (if fs[|fs| - 1].header == SERVER_PING then 1 else 0)
  }

  function Pongs(n: nat): (ps: seq<Out>)
    ensures |ps| == n && forall i :: 0 <= i < n ==> ps[i] == Pong
  {
    seq(n, _ => Pong)
  }

  /** drain: read until the timeout, collecting every packet and sending a
      pong for every ping. */
  method Drain(msgs: seq<Inbound>) returns (all: seq<Frame>, sent: seq<Out>)
    ensures all == Collected(msgs)
    ensures sent == Pongs(PingCount(all))
  {
    all, sent := [], [];
    for i := 0 to |msgs|
      invariant all == Collected(msgs[..i])
      invariant sent == Pongs(PingCount(all))
    {
      CollectedStep(msgs, i);
      if msgs[i].Binary? {
        all, sent := DrainMessage(all, sent, msgs[i].data);
      }
    }
    assert msgs[..|msgs|] == msgs;
  }

  lemma CollectedStep(msgs: seq<Inbound>, i: nat)
    requires i < |msgs|
    ensures Collected(msgs[..i + 1])
      == Collected(msgs[..i]) + (if msgs[i].Binary? then ParseFrames(msgs[i].data) else [])
  {
    assert msgs[..i + 1][..i] == msgs[..i];
  }

  /** The packets of one binary message, appended to those drained so far,
      with a pong for each ping. */
  method DrainMessage(all0: seq<Frame>, sent0: seq<Out>, data: seq<byte>) returns (all: seq<Frame>, sent: seq<Out>)
    requires sent0 == Pongs(PingCount(all0))
    ensures all == all0 + ParseFrames(data)
    ensures sent == Pongs(PingCount(all))
  {
    var packets := ParsePackets(data);
    all, sent := all0, sent0;
    for j := 0 to |packets|
      invariant all == all0 + packets[..j]
      invariant sent == Pongs(PingCount(all))
    {
      assert packets[..j + 1] == packets[..j] + [packets[j]];
      PingCountAppend(all, packets[j]);
      all := all + [packets[j]];
      if packets[j].header == SERVER_PING {
        sent := sent + [Pong];
      }
    }
    assert packets[..|packets|] == packets;
  }

  lemma PingCountAppend(fs: seq<Frame>, f: Frame)
    ensures PingCount(fs + [f]) == PingCount(fs) + (if f.header == SERVER_PING then 1 else 0)
  {
    assert (fs + [f])[..|fs|] == fs;
  }

  /** The login worked: some drained packet is AUTHENTICATED. */
  predicate Authenticated(packets: seq<Frame>)
  {
    exists i :: 0 <= i < |packets| && packets[i].header == AUTHENTICATED
  }

  /** The handshake: SECURITY_MACHINE, CLIENT_VARIABLES, then the ticket. */
  function Handshake(ticket: string): seq<Out>
  {
    [SecurityMachine, ClientVariables, SecurityTicket(ticket)]
  }

  /** Everything sent from the handshake to the announcement: the
      handshake, the pongs of the login drain and, only when the login
      worked, the room entry requests with the pongs of their drains and
      the announcing shout. */
  function EntrySends(ticket: string, room: int32, announce: string,
                      login: seq<Inbound>, d1: seq<Inbound>, d2: seq<Inbound>, d3: seq<Inbound>): seq<Out>
  {
    var head := Handshake(ticket) + Pongs(PingCount(Collected(login)));
    if !Authenticated(Collected(login)) then head
    else
      head + [GetGuestRoom(room)] + Pongs(PingCount(Collected(d1)))
      + [OpenFlatConnection(room)] + Pongs(PingCount(Collected(d2)))
      + [GetRoomEntryData] + Pongs(PingCount(Collected(d3)))
      + [Shout(announce)]
  }

  /** The start of run_bot in the builder and the bartender. `entered` is
      false when the bot gives up after a failed login. */
  method EnterRoom(ticket: string, room: int32, announce: string,
                   login: seq<Inbound>, d1: seq<Inbound>, d2: seq<Inbound>, d3: seq<Inbound>)
    returns (sent: seq<Out>, entered: bool)
    ensures entered <==> Authenticated(Collected(login))
    ensures sent == EntrySends(ticket, room, announce, login, d1, d2, d3)
  {
    sent := Handshake(ticket);
    var packets, pongs := Drain(login);
    sent := sent + pongs;
    entered := false;
    var i := 0;
    while i < |packets|
      invariant i <= |packets|
      invariant forall k :: 0 <= k < i ==> packets[k].header != AUTHENTICATED
    {
      if packets[i].header == AUTHENTICATED {
        entered := true;
        break;
      }
      i := i + 1;
    }
    if !entered {
      return;
    }
    sent := sent + [GetGuestRoom(room)];
    var _, p1 := Drain(d1);
    sent := sent + p1 + [OpenFlatConnection(room)];
    var _, p2 := Drain(d2);
    sent := sent + p2 + [GetRoomEntryData];
    var _, p3 := Drain(d3);
    sent := sent + p3 + [Shout(announce)];
  }

  // ---- properties ----

  /** A message's packets come out of a drain in the order they were on
      the wire, after those of earlier messages. */
  lemma CollectedAppend(msgs: seq<Inbound>, data: seq<byte>)
    ensures Collected(msgs + [Binary(data)]) == Collected(msgs) + ParseFrames(data)
  {
    assert (msgs + [Binary(data)])[..|msgs|] == msgs;
  }

  /** A drain sends one pong per ping, and no more. */
  lemma {:induction false} PongPerPing(fs: seq<Frame>)
    ensures PingCount(fs) == |set i | 0 <= i < |fs| && fs[i].header == SERVER_PING|
  {
    if fs != [] {
      var init := fs[..|fs| - 1];
      PongPerPing(init);
      var a := set i | 0 <= i < |init| && init[i].header == SERVER_PING;
      var b := set i | 0 <= i < |fs| && fs[i].header == SERVER_PING;
      assert forall i :: 0 <= i < |init| ==> init[i] == fs[i];
      if fs[|fs| - 1].header == SERVER_PING {
        assert b == a + {|fs| - 1};
      } else {
        assert b == a;
      }
    }
  }

  /** Without an AUTHENTICATED packet the bot sends nothing after the
      handshake but pongs: no room is requested. */
  lemma NoRoomWithoutLogin(ticket: string, room: int32, announce: string,
                           login: seq<Inbound>, d1: seq<Inbound>, d2: seq<Inbound>, d3: seq<Inbound>)
    requires !Authenticated(Collected(login))
    ensures var sent := EntrySends(ticket, room, announce, login, d1, d2, d3);
      sent[..3] == Handshake(ticket) && forall i :: 3 <= i < |sent| ==> sent[i] == Pong
  {
  }

  /** After a successful login the room is requested right after the
      login drain's pongs, and the announcement is the last send. */
  lemma RoomAfterLogin(ticket: string, room: int32, announce: string,
                       login: seq<Inbound>, d1: seq<Inbound>, d2: seq<Inbound>, d3: seq<Inbound>)
    requires Authenticated(Collected(login))
    ensures var sent := EntrySends(ticket, room, announce, login, d1, d2, d3);
      var k := 3 + PingCount(Collected(login));
      k < |sent| && sent[k] == GetGuestRoom(room) && sent[|sent| - 1] == Shout(announce)
  {
  }
}
