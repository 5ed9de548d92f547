# Clabo hotel bots: the wire codec and the bots' decision logic

Three Python bots connect to a Habbo-style hotel server over a WebSocket:

- `clabo-bot-claude.py` is an AI front-desk bot. It tracks who is in the room, greets arrivals, answers chat keywords, and asks a language model for replies.
- `clabo-bot.py` is a builder. It walks through a build plan, placing furniture, for at most five minutes.
- `clabo-bot-joe.py` is a bartender. It patrols a fixed route, dancing, waving, holding up signs and shouting hype lines.

All three use the same length-prefixed binary protocol. A frame is a 4-byte big-endian length (2 + payload size), a 2-byte header id, and the payload. A payload is built from `encode_int` (4-byte signed big-endian) and `encode_string` (a 2-byte byte count, then UTF-8).

The model has twelve modules:

- `Codec` has the frame codec and `parse_packets`. It is shared by all three files, whose copies are identical.
- `Text` has the string operations the bots use.
- `Reader` is the `PayloadReader` cursor.
- `Tracker` is the occupant table that `parse_room_users`, `parse_user_update` and the departure branch update.
- `Outbound` covers the commands the bots send and how they read back.
- `Session` covers `drain`, the login check and room entry of the builder and the bartender.
- `Listener` is the claude bot's per-frame dispatch.
- `Chunking` is `chunk_message`.
- `Responder` is the chat handler's rule chain and the per-sender history.
- `Ambient` is the claude bot's ambient loop.
- `Builder` is the build-plan loop.
- `Bartender` is the route state machine.

Code that changes state in the source is modelled in the same way. `PayloadReader`, the occupant table, the listener and the chat handler are classes whose methods update their fields. `parse_packets`, `drain`, `chunk_message` and the bots' loops are methods with loops. Each of these is proved against a function that gives the result or the new state. The properties are lemmas about those functions.

Randomness, clocks and the AI's reply are parameters. A random draw becomes a value passed in. A clock reading becomes a function from the step number to the elapsed time. The reply is an optional string.

## Model

| member | source | states |
|---|---|---|
| Codec.Be16RoundTrip | clabo-bot-claude.py:138-140 | the ">H" bytes of a 16-bit value unpack to that value |
| Codec.Be32RoundTrip | clabo-bot-claude.py:138-140 | the ">I" bytes of a 32-bit value unpack to that value |
| Codec.Be16ValueRoundTrip | clabo-bot-claude.py:159 | any 2 bytes are the ">H" packing of the value they unpack to |
| Codec.Be32ValueRoundTrip | clabo-bot-claude.py:156 | any 4 bytes are the ">I" packing of the value they unpack to |
| Codec.Be16Formula | clabo-bot-claude.py:159 | ">H" unpacking is first byte * 256 + second byte |
| Codec.Be32Formula | clabo-bot-claude.py:156 | ">I" unpacking weighs the four bytes by 2^24, 2^16, 2^8 and 1 |
| Codec.Unsigned32 | clabo-bot-claude.py:148-149 | ">i" packs a negative value as its two's complement, value + 2^32, and a non-negative value unchanged |
| Codec.EncodeInt | clabo-bot-claude.py:148-149 | encode_int writes exactly 4 bytes |
| Codec.DecodeEncodeInt | clabo-bot-claude.py:148-149 | unpacking encode_int(n) as ">i" gives n back, for every 32-bit n |
| Codec.EncodeDecodeInt | clabo-bot-claude.py:105-110 | any 4 bytes read as ">i" re-encode to the same bytes |
| Codec.EncodeString | clabo-bot-claude.py:143-145 | encode_string is 2 + byte count long, ends with the bytes, and its 2-byte prefix unpacks to the byte count (the same in clabo-bot.py:139-141 and clabo-bot-joe.py:83-85) |
| Codec.BuildPacket | clabo-bot-claude.py:138-140 | build_packet output is 6 + payload size long |
| Codec.BuildPacketLayout | clabo-bot.py:134-136 | the first 4 bytes unpack to 2 + payload size, the next 2 to the header id, and the rest is the payload |
| Codec.NextFrame | clabo-bot-claude.py:155-162 | one scan step either stops (under 6 bytes left, or the declared length runs past the end) or yields a frame and a next offset at least 4 further on and within the buffer |
| Codec.ParsePackets | clabo-bot-claude.py:152-163 | the offset loop returns exactly the frames of the recursive scan from offset 0 (the same loop in clabo-bot.py:148-158 and clabo-bot-joe.py:92-103) |
| Codec.ParseFromShift | clabo-bot-claude.py:152-163 | the scan looks only at the bytes from the cursor on: bytes put in front change nothing but the offsets |
| Codec.ParseBuildPacketThen | clabo-bot-claude.py:138-163 | a built frame followed by any bytes parses to that frame, then to what the rest parses to |
| Codec.ParseBuildPacket | clabo-bot-claude.py:138-163 | parse_packets(build_packet(h, p)) == [(h, p)], for every copy of the two functions |
| Codec.ParseTwoFrames | clabo-bot-claude.py:152-163 | two concatenated frames parse to both, in order |
| Codec.ParseEncodeAll | clabo-bot.py:148-158 | frames sent back to back, followed by an incomplete fragment, parse to exactly those frames, in order |
| Codec.IncompleteParsesToNothing | clabo-bot-claude.py:155-158 | a fragment under 6 bytes, or one whose declared length runs past the end, yields no frame |
| Codec.ShortDeclaredLength | clabo-bot-claude.py:156-162 | a declared length below 2 still yields a frame: the header comes from the 2 bytes after the length field, the payload is empty, and the scan resumes 4 + length bytes on |
| Reader.IntAt | clabo-bot-claude.py:105-110 | read_int succeeds exactly when 4 bytes remain, and then advances by 4 |
| Reader.ShortAt | clabo-bot-claude.py:112-117 | read_short succeeds exactly when 2 bytes remain, and then advances by 2 |
| Reader.RawStringAt | clabo-bot-claude.py:119-125 | read_string succeeds exactly when the short length and that many bytes fit, and then advances by 2 + length |
| Reader.StringAt | clabo-bot-claude.py:119-125 | read_string's text is the decoding of the bytes read, at the same cursor |
| Reader.BoolAt | clabo-bot-claude.py:127-132 | read_bool succeeds exactly when 1 byte remains, advances by 1, and is true exactly when the byte is nonzero |
| Reader.ReadsInvertEncoding | clabo-bot-claude.py:105-125 | what a successful read consumed is exactly the encode_int, ">H" or encode_string form of what it returned |
| Reader.IntReadBack | clabo-bot-claude.py:105-110 | reading an encode_int(n) field gives n and moves 4 on |
| Reader.RawStringReadBack | clabo-bot-claude.py:119-125 | reading an encode_string field gives its bytes and moves past it |
| Reader.FieldAt | clabo-bot-claude.py:105-132 | a successful read has the requested kind and moves the cursor forward within the payload |
| Reader.FieldsAt | clabo-bot-claude.py:175-185 | reads in sequence succeed with values matching the layout field by field, or fail at the first that does not fit |
| Reader.PayloadReader.constructor | clabo-bot-claude.py:101-103 | a new reader is over the payload with its cursor at 0 |
| Reader.PayloadReader.Remaining | clabo-bot-claude.py:134-135 | remaining() is len(data) - pos and is never negative |
| Reader.PayloadReader.ReadInt | clabo-bot-claude.py:105-110 | the method returns IntAt's value and moves pos by 4, or fails leaving pos where it was |
| Reader.PayloadReader.ReadShort | clabo-bot-claude.py:112-117 | the method returns ShortAt's value and moves pos by 2, or fails leaving pos where it was |
| Reader.PayloadReader.ReadString | clabo-bot-claude.py:119-125 | the method returns StringAt's value and cursor; a failure after the length was read leaves pos 2 bytes on |
| Reader.PayloadReader.ReadBool | clabo-bot-claude.py:127-132 | the method returns BoolAt's value and moves pos by 1, or fails leaving pos where it was |
| Reader.ReadField | clabo-bot-claude.py:175-185 | one read through the reader agrees with FieldAt |
| Reader.ReadFields | clabo-bot-claude.py:175-185 | a run of reads through the reader agrees with FieldsAt and stops at the first failure |
| Reader.EncodeValue | clabo-bot-claude.py:143-149 | every field that can be written takes at least 2 bytes |
| Reader.FieldAtEncoded | clabo-bot-claude.py:105-149 | reading a written int or ASCII string field gives the value back and moves exactly past its bytes |
| Reader.FieldsAtEncoded | clabo-bot-claude.py:105-149 | reading written fields with their own layout gives all of them back, in order, and stops right after the last |
| Text.Words | clabo-bot-claude.py:248 | split() yields non-empty words without whitespace |
| Text.WordsJoin | clabo-bot-claude.py:248 | split() of words joined by single spaces gives the words back |
| Text.JoinAppend | clabo-bot-claude.py:256 | joining one more word appends a space and the word |
| Text.Strip | clabo-bot-claude.py:511 | strip() is no longer than its input and neither starts nor ends with whitespace |
| Text.StripNoSpaceEnds | clabo-bot-claude.py:511 | strip() leaves text without whitespace at either end unchanged |
| Text.Lower | clabo-bot-claude.py:511 | lower() keeps the length and lowers each letter in place |
| Text.StartsWithContains | clabo-bot-claude.py:570-572 | a message starting with a text contains it |
| Text.Decimal | clabo-bot-claude.py:475 | str(n) is non-empty with no whitespace at either end |
| Text.ParseIntDecimal | clabo-bot-claude.py:454 | int(str(n)) == n |
| Text.DecimalChars | clabo-bot.py:267 | str(n) is ASCII and has no whitespace |
| Text.DigitsLength | clabo-bot.py:267 | a number below 10^k has at most k digits |
| Text.JoinBound | clabo-bot.py:267 | joining ASCII words of at most m characters gives ASCII text of at most m + 1 characters per word |
| Text.Decode | clabo-bot-claude.py:123 | decoded text has one character per byte, with the byte's code |
| Text.Utf8 | clabo-bot-claude.py:144 | the UTF-8 form has at least one byte per character |
| Text.AsciiRoundTrip | clabo-bot-claude.py:123-144 | for ASCII text, UTF-8 is one byte per character and decoding gives the text back |
| Tracker.RoomUserAt | clabo-bot-claude.py:175-185 | decoding a record's eleven fixed fields moves the cursor forward, staying within the payload |
| Tracker.TrailerAt | clabo-bot-claude.py:196-211 | skipping a record's type-specific trailing fields never moves the cursor back or past the payload's end |
| Tracker.RoomUsersFrom | clabo-bot-claude.py:174-211 | at most count records are parsed |
| Tracker.Arrivals | clabo-bot-claude.py:193 | the returned list has one (room-unit id, username) pair per stored record, in payload order |
| Tracker.Store | clabo-bot-claude.py:187-192 | afterwards the keys are the old keys plus the stored ids, and every other entry is unchanged |
| Tracker.Depart | clabo-bot-claude.py:450-459 | a departure removes exactly the parsed id and keeps every other entry; an undecodable or non-numeric id leaves the table unchanged |
| Tracker.MovementsFrom | clabo-bot-claude.py:222-229 | at most count position records are read, up to the first that fails |
| Tracker.ReadRoomUser | clabo-bot-claude.py:175-185 | reading a record through the reader agrees with RoomUserAt |
| Tracker.SkipTrailer | clabo-bot-claude.py:196-211 | skipping through the reader succeeds exactly when TrailerAt does, at the same cursor |
| Tracker.ReadMovement | clabo-bot-claude.py:223-229 | reading a position record through the reader agrees with MovementAt |
| Tracker.OccupantTable.constructor | clabo-bot-claude.py:300 | the table starts empty |
| Tracker.OccupantTable.ApplyRoomUsers | clabo-bot-claude.py:167-214 | the table afterwards is the old one with the payload's decodable records stored in order, and the result lists them |
| Tracker.OccupantTable.ApplyUserUpdate | clabo-bot-claude.py:217-234 | the table afterwards is the old one with the decodable position records applied in order |
| Tracker.OccupantTable.ApplyDeparture | clabo-bot-claude.py:450-460 | the table afterwards is Depart of the old one |
| Tracker.RoomUsersBound | clabo-bot-claude.py:173-174 | parse_room_users returns at most max(count, 0) entries |
| Tracker.StoreLastWins | clabo-bot-claude.py:187-192 | each id ends up with the last record naming it |
| Tracker.MoveKeepsEntries | clabo-bot-claude.py:230-232 | position updates neither add nor drop ids, and never change a username or user id |
| Tracker.MoveUntouched | clabo-bot-claude.py:230-232 | an occupant no record names keeps its entry |
| Tracker.MoveLastWins | clabo-bot-claude.py:222-232 | a known occupant ends at the position of the last record naming it |
| Tracker.MoveUnknownIgnored | clabo-bot-claude.py:230 | an id not in the table is never added by a position update |
| Outbound.Encode | clabo-bot-claude.py:588-591 | a sent frame carries the command's header id and its fields written in order; encoding fails only when a field or the frame is too long |
| Outbound.Transmit | clabo-bot-claude.py:586-604 | the frames that go out are those of the commands in order, stopping at the first that raises |
| Outbound.DecodeEncode | clabo-bot.py:268 | every frame a bot sends with ASCII text decodes back to the command it was built from |
| Outbound.SentFrameParses | clabo-bot-claude.py:138-163 | a command's frame on the wire parses back to that frame |
| Outbound.ShortTextEncodes | clabo-bot-claude.py:143-145 | a command always encodes when each of its texts is under 65536 UTF-8 bytes |
| Outbound.TransmitPrefix | clabo-bot-claude.py:586-604 | every send goes through exactly when every command encodes |
| Session.Drain | clabo-bot.py:177-189 | drain collects every packet of every binary message, in arrival order, and sends one pong per ping (the bartender's copy, clabo-bot-joe.py:122-134, is the same) |
| Session.DrainMessage | clabo-bot.py:182-186 | one message's packets are appended, with a pong for each ping |
| Session.CollectedAppend | clabo-bot.py:183-184 | a message's packets come after those of earlier messages, in wire order |
| Session.PongPerPing | clabo-bot.py:185-186 | the pongs sent equal the number of SERVER_PING packets |
| Session.EnterRoom | clabo-bot.py:216-241 | login succeeds exactly when a packet drained after the handshake is AUTHENTICATED, and the sends are the entry sequence of the login outcome (the bartender enters the same way, clabo-bot-joe.py:153-178) |
| Session.NoRoomWithoutLogin | clabo-bot.py:222-225 | without AUTHENTICATED, nothing but pongs follows the handshake |
| Session.RoomAfterLogin | clabo-bot-joe.py:159-178 | after a login the room request directly follows the login pongs, and the announcement is the last send |
| Listener.ParseChat | clabo-bot-claude.py:237-242 | parse_chat through the reader reads the sender id, then the message, or fails |
| Listener.ChatRoundTrip | clabo-bot-claude.py:237-242 | a chat payload written as encode_int + encode_string reads back as the sender and the ASCII message |
| Listener.Greetings | clabo-bot-claude.py:443-446 | no more arrival events than parsed pairs |
| Listener.ChatListener.constructor | clabo-bot-claude.py:299-304 | the listener starts from the given table, own id and loaded flag, with nothing queued or sent |
| Listener.ChatListener.HandleFrame | clabo-bot-claude.py:426-482 | the listener's state after a frame is what Dispatch says: pong, table update, arrivals or one chat event |
| Listener.ChatListener.ScanOwnId | clabo-bot-claude.py:438-440 | the own id becomes the last parsed id whose name lowers to "claude" |
| Listener.ChatListener.QueueArrivals | clabo-bot-claude.py:442-446 | the queue gains exactly the Greetings events, in order |
| Listener.ChatListener.HandleMessage | clabo-bot-claude.py:423-426 | one message dispatches every frame parse_packets finds, in order |
| Listener.PingGetsPong | clabo-bot-claude.py:428-431 | a ping adds one pong and changes nothing else |
| Listener.PongsMatchPings | clabo-bot-claude.py:426-431 | the listener sends one pong per ping and nothing else |
| Listener.SelfEchoIgnored | clabo-bot-claude.py:471-473 | a chat from the bot's own room-unit id changes nothing |
| Listener.ChatQueuesOne | clabo-bot-claude.py:468-479 | any other decodable chat queues exactly one event: a whisper exactly for IN_WHISPER, named from the table or "User#<id>", carrying the message, and nothing else changes |
| Listener.UndecodableChatIgnored | clabo-bot-claude.py:469-481 | a chat frame that fails to parse is dropped |
| Listener.GreetingsExactly | clabo-bot-claude.py:443-446 | an arrival event is queued exactly for a parsed pair whose id was absent before and whose name is not the bot's |
| Listener.ArrivalsOnlyWhenLoaded | clabo-bot-claude.py:442-446 | arrivals are queued only once the room is loaded; the source sets the flag before the listener starts, so there it is always open |
| Listener.TrackerFramesQueueNothing | clabo-bot-claude.py:450-465 | departure and position frames queue and send nothing and never add an id |
| Listener.LoadedUnchanged | clabo-bot-claude.py:420-482 | the listener never changes room_loaded |
| Listener.OwnIdIsLastBotName | clabo-bot-claude.py:438-440 | the own id is the last pair named "claude" in any case |
| Listener.OwnIdKeptWithoutBotName | clabo-bot-claude.py:438-440 | with no pair named "claude", the own id is kept |
| Chunking.Prefix | clabo-bot-claude.py:259 | text[:max_len] is no longer than the text |
| Chunking.ChunkMessage | clabo-bot-claude.py:246-259 | the loop returns exactly Chunks: the greedy packing of the words, or [text[:max_len]] without words |
| Chunking.PackJoin | clabo-bot-claude.py:248-258 | the chunks joined by single spaces are the words joined by single spaces, in order |
| Chunking.PackNonEmpty | clabo-bot-claude.py:257-258 | a chunk under construction is always emitted |
| Chunking.PackFits | clabo-bot-claude.py:251-256 | every chunk is non-empty and fits max_len, unless it is a single word that is longer |
| Chunking.ChunksSpec | clabo-bot-claude.py:246-259 | chunk_message never returns an empty list; with words it joins back to them and each chunk fits or is one word; without words it is [text[:max_len]] |
| Responder.Classify | clabo-bot-claude.py:499-575 | the welcome rule applies exactly to new_user events |
| Responder.ChatLines | clabo-bot-claude.py:586-591 | one chat per chunk, in order |
| Responder.LastN | clabo-bot-claude.py:583 | history[-n:] is the last n entries when the history is longer than n, and the whole history otherwise |
| Responder.ChatHandler.constructor | clabo-bot-claude.py:301 | no histories and nothing sent |
| Responder.ChatHandler.HandleEvent | clabo-bot-claude.py:495-606 | the histories become Remember's and the frames sent are those of React's commands, up to the first that raises |
| Responder.ChatHandler.SendAll | clabo-bot-claude.py:586-604 | the sends go out in order until the first that raises |
| Responder.Reaction | clabo-bot-claude.py:499-601 | the rule chain sends React's commands, and an AI exchange is recorded exactly for a directed message with a non-empty reply |
| Responder.ExtendedCapped | clabo-bot-claude.py:581-583 | a kept history is the old one plus the exchange, cut at the front to six entries, and ends with the exchange |
| Responder.RememberKeepsCap | clabo-bot-claude.py:578-583 | every history stays at most six entries, only the sender's changes, and only after a non-empty AI reply |
| Responder.PromptBound | clabo-bot-claude.py:264-267 | with a capped history the AI gets at most eight messages, the persona first |
| Responder.DanceWins | clabo-bot-claude.py:514 | "dance" anywhere in a chat wins over every later rule |
| Responder.FollowUnknownSilent | clabo-bot-claude.py:536-548 | a follow request from a sender not in the table sends nothing and falls through to no other rule |
| Responder.FollowKnownWalks | clabo-bot-claude.py:537-542 | a follow request from a known sender walks to the sender's tile |
| Responder.AskOnlyWhenDirected | clabo-bot-claude.py:569-575 | the AI is asked only about messages naming "claude" or whispers, and about every whisper no keyword rule took |
| Responder.AiReplySent | clabo-bot-claude.py:577-601 | a reply is sent as chat chunks that join back to its words; a failed or empty reply sends "hmm idk lol" |
| Ambient.AmbientLoop | clabo-bot-claude.py:611-662 | the loop sends exactly what the round-by-round function gives for the rolls |
| Ambient.PatrolCycles | clabo-bot-claude.py:655-659 | the patrol index counts the patrols, the bot is never left dancing between rounds, and the n-th patrol walks to waypoint n mod 7 |
| Ambient.PatrolNeverStopsDance | clabo-bot-claude.py:649-654 | a patrol round sends only its walk: the extra DANCE(0) is never needed |
| Builder.RunBuildPlan | clabo-bot.py:246-272 | placed steps are at most the plan's length, all read before DURATION, the loop stops only at the end or at the first reading at or after DURATION, and the sends are each step's in order |
| Builder.CarryOut | clabo-bot.py:254-269 | one step sends the walk if any, the comment if not empty, then the placement |
| Builder.RunBot | clabo-bot.py:192-291 | a failed login sends only the entry sends; otherwise the entry, the build and then the report, the dance, its stop and the sign-off |
| Builder.PlacedStep | clabo-bot.py:254-269 | each step sends exactly one PLACE_OBJECT, with its own placement text |
| Builder.PlacementsInOrder | clabo-bot.py:247-269 | the placements sent are the steps' placement texts, in plan order, and no others |
| Builder.Placements | clabo-bot.py:267 | one placement text per step |
| Builder.PlacementWords | clabo-bot.py:267 | the placement text splits into four numbers that read back as item id, x, y and rotation |
| Builder.PlacementShort | clabo-bot.py:267 | for numbers of at most nine digits the placement text is ASCII and at most 44 characters long |
| Builder.PlacementReadBack | clabo-bot.py:267-268 | the PLACE_OBJECT frame can be sent and reads back as the same placement text |
| Builder.ReportCount | clabo-bot.py:276 | the report shout has eight words, and the third reads back as the number placed |
| Bartender.Run | clabo-bot-joe.py:185-231 | the route position stays within the route |
| Bartender.Visit | clabo-bot-joe.py:190-226 | one stop sends the stop part, the walk, the action and the hype, and sets the dancing flag as StepOuts says |
| Bartender.Patrol | clabo-bot-joe.py:183-231 | after the given number of rounds, loop_count is that number, and the sends are those of the first rounds * |route| stops |
| Bartender.Round | clabo-bot-joe.py:189-231 | a round visits the route's stops in order and returns to the start of the route |
| Bartender.RunBot | clabo-bot-joe.py:137-231 | a failed login sends only the entry sends; otherwise the entry sends, then the patrol's |
| Bartender.StepWalk | clabo-bot-joe.py:195-202 | DANCE(0) comes first exactly when dancing at a stop that is not a dance stop; then the one walk to the stop's position |
| Bartender.StepActs | clabo-bot-joe.py:207-226 | a dance starts exactly at a dance stop reached while not dancing; a hype line is shouted exactly at hype stops, last; waves and signs are sent; afterwards the flag is set exactly at a dance stop |
| Bartender.StepDanceAfter | clabo-bot-joe.py:195-216 | after a stop, the last DANCE sent agrees with the dancing flag |
| Bartender.StepWalkStill | clabo-bot-joe.py:195-202 | the walk is sent while not dancing unless the stop is a dance stop |
| Bartender.FlagMatchesCommands | clabo-bot-joe.py:195-216 | after any number of stops, the last DANCE sent started a dance exactly when the flag is set |
| Bartender.WalkNotDancing | clabo-bot-joe.py:195-202 | at every stop of the patrol, the bot walks while not dancing unless heading to a dance stop |
| Bartender.RouteCycles | clabo-bot-joe.py:185-189 | stop q * len(ROUTE) + p of the patrol is at route position p |
| Bartender.StepWaitTotal | clabo-bot-joe.py:199-231 | the waits at a stop sum to its pause, plus a second when a dance is stopped first |
| Bartender.RoundStartsStill | clabo-bot-joe.py:51-75 | after any number of whole rounds of ROUTE the bot is not dancing, because the route's last stop is not a dance stop |

## Left out

- WebSocket connect, send and receive are not modelled, nor the `asyncio` timeouts, sleeps, tasks, lock, `responding` event and queue. Sends are collected as a sequence of commands, and each drain's received messages are a parameter.
- `idle_drain` is not modelled: its waits and the pongs it sends. The builder's and the bartender's modelled sends leave out those pongs.
- The claude bot's start-up (`clabo-bot-claude.py:308-416`) is not modelled: the SSO ticket, handshake, login drain, room entry and announcement. The listener starts from the table, own id and loaded flag that the start-up leaves, which are given to `Listener.ChatListener.constructor`. The loaded flag is a free parameter there, although the start-up always sets it (`clabo-bot-claude.py:410`) before the listener runs.
- These are not part of this model: the SSO ticket refresh through `subprocess`, the lock file, the `__main__` entry points and all `print` logging.
- The OpenRouter call in `ai_respond` is not modelled. Its result is the `reply` parameter, and `Responder.Prompt` gives only the messages it would send.
- Random draws (`random.random`, `randint`, `choice`, `uniform`) and `time.time()` are parameters, including the roll thresholds compared as reals. The builder's final idle wait until the five-minute mark sends nothing and is not modelled.
- `Text.Decode` maps each byte to the character with the same code. This agrees with UTF-8 decoding (with `errors="replace"`) only on ASCII, which is why the read-back lemmas require ASCII text.
- `Text.Lower` lowers ASCII letters only. Python's `str.lower()` also lowers other letters.
- `Text.ParseInt` accepts surrounding whitespace, a sign and ASCII digits. It does not accept the underscores or non-ASCII digits that Python's `int()` also accepts. Because `Text.IsSpace` counts U+0085 and U+00A0 as whitespace and `Text.Decode` maps bytes 0x85 and 0xA0 to them, a departure id such as the bytes A0 35 parses as 5 in the model, where the source decodes a replacement character and `int()` raises.
- `Reader.EncodeValue` gives no bytes for a boolean field, because no bot writes one.
- `Bartender.Patrol` runs a given number of rounds. The source loops forever, so only finite prefixes of the patrol are described. `Ambient.AmbientLoop` likewise runs over a given list of rounds.
- `Ambient.AmbientLoop` does not model the wait while a chat is being answered, or the catch-and-retry of exceptions.
- `Builder.PlanStep` gives a step's walk as an optional coordinate pair. A plan entry with `walk_x` set and `walk_y` missing, which would raise in `encode_int`, is not represented. The `BUILD_PLAN` contents and the `ITEM_NAMES` table (used only for printing) are not part of the model. The plan is a parameter.
- `Builder.RunBot` and `Bartender.RunBot` state their sends as commands. The failure of a send whose text exceeds 65535 UTF-8 bytes is modelled only for the chat handler (`Outbound.Transmit`).
