/** The chat handler of the "claude" bot: each queued event is answered
    by the first rule that matches it. A new arrival is welcomed; then,
    on the lower-cased and stripped message, "dance" anywhere, an exact
    "wave" or "wave!", a follow keyword, a greeting word, and finally a
    message aimed at the bot, which is answered by the AI. The random
    choices and the AI's reply are parameters. */
module Responder {
  import opened Codec
  import opened Tracker
  import opened Outbound
  import opened Listener
  import opened Chunking
  import opened Text

  const GREETING_WORDS: set<string> :=
    {"hi", "hey", "hello", "sup", "yo", "hii", "heyy", "heya", "hiya", "hewwo", "ello", "hai"}

  const FOLLOW_KEYWORDS: seq<string> := ["follow me", "come here", "follow"]

  /** The most history entries kept per sender. */
  const HISTORY_CAP: nat := 6

  /** The chat line length chunk_message is called with. */
  const CHUNK_LEN: nat := 100

  /** The rule that answers an event. */
  datatype Branch = Welcome | DanceReply | WaveReply | FollowReply | GreetReply | AskAI | Ignore

  /** message.lower().strip() */
  function Normalized(message: string): string
  {
    Strip(Lower(message))
  }

  /** The distinct words of the message once "!" and "?" are removed and
      "," and "." become spaces. */
  function GreetingTokens(m: string): set<string>
  {
    var t := ReplaceChar(ReplaceChar(ReplaceChar(ReplaceChar(m, '!', ""), '?', ""), ',', " "), '.', " ");
    set w | w in Words(t)
  }

  predicate HasFollowKeyword(m: string)
  {
    exists k | k in FOLLOW_KEYWORDS :: Contains(m, k)
  }

  /** A greeting word, with the bot's name in the message or at most three
      distinct words. */
  predicate IsGreeting(m: string)
  {
    var ws := GreetingTokens(m);
    ws * GREETING_WORDS != {} && (Contains(m, "claude") || |ws| <= 3)
  }

  /** The message is aimed at the bot. */
  predicate Directed(kind: EventKind, m: string)
  {
    Contains(m, "claude") || kind == WhisperEvent || StartsWith(m, "@claude")
  }

  /** The first rule that matches, in the handler's order. */
  function Classify(e: Event): (b: Branch)
    ensures b == Welcome <==> e.kind == NewUserEvent
  {
    if e.kind == NewUserEvent then Welcome
    else
      var m := Normalized(e.message);
      if Contains(m, "dance") then DanceReply
      else if m == "wave" || m == "wave!" then WaveReply
      else if HasFollowKeyword(m) then FollowReply
      else if IsGreeting(m) then GreetReply
      else if Directed(e.kind, m) then AskAI
      else Ignore
  }

  /** An AI reply that is used: present and not empty. */
  predicate Truthy(reply: Option<string>)
  {
    reply.Some? && reply.value != ""
  }

  function ChatLines(cs: seq<string>): (os: seq<Out>)
    ensures |os| == |cs|
    ensures forall i :: 0 <= i < |cs| ==> os[i] == Chat(cs[i])
  {
    if cs == [] then [] else [Chat(cs[0])] + ChatLines(cs[1..])
  }

  /** The commands the handler sends for an event. `greeting` is the
      random greeting, `style` the random dance style, `reply` what the AI
      answered (None when the call failed). */
  function React(e: Event, users: map<int, Occupant>, greeting: string, style: int32, reply: Option<string>): seq<Out>
  {
    match Classify(e)
    case Welcome => [Expression(WAVE), Chat("Welcome to Clabo Hotel, " + e.name + "!")]
    case DanceReply => [Dance(style), Chat("Sure, I love a good dance!"), Dance(STOP)]
    case WaveReply => [Expression(WAVE)]
    case FollowReply =>
      if e.unitId as int in users then
        [MoveAvatar(users[e.unitId as int].x, users[e.unitId as int].y), Chat("Right behind you!")]
      else []
    case GreetReply => [Expression(WAVE), Chat(greeting + " " + e.name + "!")]
    case AskAI => if Truthy(reply) then ChatLines(Chunks(reply.value, CHUNK_LEN)) else [Chat("hmm idk lol")]
    case Ignore => []
  }

  // ---- per-sender history ----

  datatype Role = SystemRole | UserRole | AssistantRole

  datatype Turn = Turn(role: Role, content: string)

  /** history[-n:] */
  function LastN(h: seq<Turn>, n: nat): (r: seq<Turn>)
    ensures |r| <= n && |r| <= |h|
    ensures r == h[|h| - |r|..]
    ensures |h| <= n ==> r == h
    ensures |h| > n ==> |r| == n
  {
    if |h| > n then h[|h| - n..] else h
  }

  function HistoryOf(histories: map<string, seq<Turn>>, name: string): seq<Turn>
  {
    if name in histories then histories[name] else []
  }

  /** The history after an AI exchange: the sender's line and the reply
      appended, then only the last six entries kept. */
  function Extended(h: seq<Turn>, name: string, message: string, reply: string): seq<Turn>
  {
    LastN(h + [Turn(UserRole, name + ": " + message), Turn(AssistantRole, reply)], HISTORY_CAP)
  }

  /** user_histories after an event: only an AI exchange with a used reply
      changes it, and only the sender's entry. */
  function Remember(histories: map<string, seq<Turn>>, e: Event, reply: Option<string>): map<string, seq<Turn>>
  {
    if Classify(e) == AskAI && Truthy(reply) then
      histories[e.name := Extended(HistoryOf(histories, e.name), e.name, e.message, reply.value)]
    else histories
  }

  /** The messages ai_respond sends: the persona, the sender's history,
      then "name: message". */
  function Prompt(persona: string, h: seq<Turn>, name: string, message: string): seq<Turn>
  {
    [Turn(SystemRole, persona)] + h + [Turn(UserRole, name + ": " + message)]
  }

  class ChatHandler {
    var histories: map<string, seq<Turn>>
    /** The frames sent so far. */
    var sent: seq<Frame>

    constructor ()
      ensures histories == map[] && sent == []
    {
      histories := map[];
      sent := [];
    }

    /** The body of the handler loop for one event. */
    method HandleEvent(e: Event, users: map<int, Occupant>, greeting: string, style: int32, reply: Option<string>)
      modifies this
      ensures histories == Remember(old(histories), e, reply)
      ensures sent == old(sent) + Transmit(React(e, users, greeting, style, reply))
    {
      var outs, exchanged := Reaction(e, users, greeting, style, reply);
      if exchanged {
        var h := if e.name in histories then histories[e.name] else [];
        h := h + [Turn(UserRole, e.name + ": " + e.message), Turn(AssistantRole, reply.value)];
        histories := histories[e.name := LastN(h, HISTORY_CAP)];
      }
      SendAll(outs);
    }

    /** The sends of one event, in order, stopping at the first that
        raises. */
    method SendAll(outs: seq<Out>)
      modifies this
      ensures sent == old(sent) + Transmit(outs)
      ensures histories == old(histories)
    {
      var i := 0;
      while i < |outs|
        invariant i <= |outs|
        invariant old(sent) + Transmit(outs) == sent + Transmit(outs[i..])
        invariant histories == old(histories)
      {
        var f := Encode(outs[i]);
        TransmitStep(outs, i);
        if f.None? {
          assert sent + [] == sent;
          return;
        }
        assert sent + ([f.value] + Transmit(outs[i + 1..])) == (sent + [f.value]) + Transmit(outs[i + 1..]);
        sent := sent + [f.value];
        i := i + 1;
      }
      assert sent + [] == sent;
    }
  }

  /** The rules of the handler in order: the commands to send, and
      whether an AI exchange took place that the history records. */
  method Reaction(e: Event, users: map<int, Occupant>, greeting: string, style: int32, reply: Option<string>)
    returns (outs: seq<Out>, exchanged: bool)
    ensures outs == React(e, users, greeting, style, reply)
    ensures exchanged <==> Classify(e) == AskAI && Truthy(reply)
  {
    outs, exchanged := [], false;
    if e.kind == NewUserEvent {
      outs := [Expression(WAVE), Chat("Welcome to Clabo Hotel, " + e.name + "!")];
      return;
    }
    var m := Strip(Lower(e.message));
    if Contains(m, "dance") {
      outs := [Dance(style), Chat("Sure, I love a good dance!"), Dance(STOP)];
    } else if m == "wave" || m == "wave!" {
      outs := [Expression(WAVE)];
    } else if HasFollowKeyword(m) {
      if e.unitId as int in users {
        var info := users[e.unitId as int];
        outs := [MoveAvatar(info.x, info.y), Chat("Right behind you!")];
      }
    } else if IsGreeting(m) {
      outs := [Expression(WAVE), Chat(greeting + " " + e.name + "!")];
    } else if Contains(m, "claude") || e.kind == WhisperEvent || StartsWith(m, "@claude") {
      if reply.Some? && reply.value != "" {
        exchanged := true;
        var chunks := ChunkMessage(reply.value, CHUNK_LEN);
        outs := ChatLines(chunks);
      } else {
        outs := [Chat("hmm idk lol")];
      }
    }
  }

  lemma TransmitStep(outs: seq<Out>, i: nat)
    requires i < |outs|
    ensures Transmit(outs[i..]) == match Encode(outs[i])
      case None => []
      case Some(f) => [f] + Transmit(outs[i + 1..])
  {
    assert outs[i..][1..] == outs[i + 1..];
  }

  // ---- properties ----

  /** A history kept by the handler never holds more than six entries,
      ends with the exchange just made, and is what came before followed
      by that exchange, cut at the front. */
  lemma ExtendedCapped(h: seq<Turn>, name: string, message: string, reply: string)
    ensures var r := Extended(h, name, message, reply);
      var full := h + [Turn(UserRole, name + ": " + message), Turn(AssistantRole, reply)];
      && |r| == (if |h| + 2 <= HISTORY_CAP then |h| + 2 else HISTORY_CAP)
      && r == full[|full| - |r|..]
      && r[|r| - 2..] == [Turn(UserRole, name + ": " + message), Turn(AssistantRole, reply)]
  {
  }

  /** The cap holds for every sender after every event. */
  lemma RememberKeepsCap(histories: map<string, seq<Turn>>, e: Event, reply: Option<string>)
    requires forall n :: n in histories ==> |histories[n]| <= HISTORY_CAP
    ensures var r := Remember(histories, e, reply);
      (forall n :: n in r ==> |r[n]| <= HISTORY_CAP)
      && (forall n :: n in histories && n != e.name ==> n in r && r[n] == histories[n])
      && (!(Classify(e) == AskAI && Truthy(reply)) ==> r == histories)
  {
  }

  /** With a capped history the AI sees at most eight messages. */
  lemma PromptBound(persona: string, h: seq<Turn>, name: string, message: string)
    requires |h| <= HISTORY_CAP
    ensures |Prompt(persona, h, name, message)| <= HISTORY_CAP + 2
    ensures Prompt(persona, h, name, message)[0].role == SystemRole
  {
  }

  /** "dance" anywhere in the message wins over every later rule. */
  lemma DanceWins(e: Event)
    requires e.kind != NewUserEvent && Contains(Normalized(e.message), "dance")
    ensures Classify(e) == DanceReply
  {
  }

  /** A follow request is never answered by a later rule, and from a
      sender not in the table it sends nothing. */
  lemma FollowUnknownSilent(e: Event, users: map<int, Occupant>, greeting: string, style: int32, reply: Option<string>)
    requires Classify(e) == FollowReply && e.unitId as int !in users
    ensures React(e, users, greeting, style, reply) == []
  {
  }

  /** A follow request from a known sender walks to the sender's tile. */
  lemma FollowKnownWalks(e: Event, users: map<int, Occupant>, greeting: string, style: int32, reply: Option<string>)
    requires Classify(e) == FollowReply && e.unitId as int in users
    ensures React(e, users, greeting, style, reply)[0]
      == MoveAvatar(users[e.unitId as int].x, users[e.unitId as int].y)
  {
  }

  /** The AI is asked only about messages aimed at the bot that no keyword
      rule took, and every whisper that no keyword rule took is aimed at
      it. */
  lemma AskOnlyWhenDirected(e: Event)
    ensures Classify(e) == AskAI ==>
      e.kind != NewUserEvent && (Contains(Normalized(e.message), "claude") || e.kind == WhisperEvent)
    ensures (e.kind == WhisperEvent && Classify(e) != DanceReply && Classify(e) != WaveReply
             && Classify(e) != FollowReply && Classify(e) != GreetReply) ==> Classify(e) == AskAI
  {
    var m := Normalized(e.message);
    if StartsWith(m, "@claude") {
      assert m[1..7] == "claude";
      assert OccursAt(m, "claude", 1);
    }
  }

  /** An AI reply is sent as its chunks, one chat each, joined back to the
      reply's words; a failed or empty reply sends the fallback line. */
  lemma AiReplySent(e: Event, users: map<int, Occupant>, greeting: string, style: int32, reply: Option<string>)
    requires Classify(e) == AskAI
    ensures Truthy(reply) && Words(reply.value) != [] ==>
      var outs := React(e, users, greeting, style, reply);
      |outs| >= 1 && (forall i :: 0 <= i < |outs| ==> outs[i].Chat?)
      && Join(seq(|outs|, i requires 0 <= i < |outs| => outs[i].text)) == Join(Words(reply.value))
    ensures !Truthy(reply) ==> React(e, users, greeting, style, reply) == [Chat("hmm idk lol")]
  {
    if Truthy(reply) && Words(reply.value) != [] {
      var cs := Chunks(reply.value, CHUNK_LEN);
      ChunksSpec(reply.value, CHUNK_LEN);
      var outs := ChatLines(cs);
      assert seq(|outs|, i requires 0 <= i < |outs| => outs[i].text) == cs;
    }
  }
}
