# Termibbl in Dafny

Termibbl is a multiplayer drawing-and-guessing game played in the
terminal. This project models its core:

- **Server.** The server (`GameServer`) keeps the connected users and the
  game rooms. Each game room (`GameRoom`) holds its member sessions, a
  shared canvas, and a turn engine (`Skribbl`) while a game is played.
- **Sessions.** Each client has a session (`UserSession`). It moves from
  Idle to InGame to Stop, forwards the client's requests to the server,
  and reports the client's departure exactly once.
- **Events and framing.** Event queues (`EventQueue`/`EventSender`) carry
  messages between server, sessions and rooms. A length-prefixed codec
  frames messages on the wire.
- **Client.** On the client side, the model covers:
  - the drawing canvas (`TermCanvas`) and its palette;
  - one-line text inputs (`InputText`), the cursor slot, and the
    centring arithmetic;
  - the connection state (`AppServer`).

Code that changes state in place is modelled as classes and methods:
rooms, the server, sessions, queues, the canvas, inputs and the
connection. Their `modifies` clauses name what changes, and their
`ensures` tie the new state to specification functions. Levenshtein
distance fills a matrix in nested loops, so it is a method over a
`nat` array, proved equal to the recursive function `EditDistance`. Code
that only computes is modelled as functions: message helpers, the
codec's framing, hints and centring. Lemmas prove the properties about
those functions.

Messages that a room or the server sends to a player are recorded in an
*outbox*, a map from player id to the sequence of messages sent to that
player. The functions `Room.Mail` and `Room.Post` read and extend it.

The server keeps a ghost record `rosters` of the ids in each room. Its
invariant `Valid` ties three things together:

- a user's recorded room (`InGameUser.roomKey`);
- the room's member sessions;
- that room's footprint, which is disjoint from every other room's.

Every handler preserves `Valid`.

Modules: `Wrappers` (Option, Result, integer widths), `World`, `Message`,
`Codec`, `Events`, `Guessing`, `TurnEngine`, `Room`, `Session`, `Server`,
`Input`, `Canvas`, `Net`.

## Model

| member | source | states |
|---|---|---|
| World.NewUsername | src/world.rs:14-19 | the accessors of a new username give back the name and the id it was built from |
| World.UsernameOrderTotal | src/world.rs:9-12 | the derived order on usernames (name first, then id) is total: two usernames are equal exactly when neither is below the other, and never each below the other |
| World.UsernameLessTransitive | src/world.rs:9-12 | the derived order on usernames is transitive |
| World.StrLessTrichotomy | src/world.rs:9-12 | lexicographic string order: exactly one of equal, below, above |
| World.StrLessTransitive | src/world.rs:9-12 | lexicographic string order is transitive |
| World.PlayerFrom | src/world.rs:45-53 | a player made from a username has that name, score 0 and has not solved the round |
| World.RoomState.World | src/world.rs:159-165 | the world is present exactly in the Playing state, and is the one it carries |
| World.Dimensions | src/world.rs:177 | dimensions are present exactly while Playing, and are the game's |
| World.Canvas | src/world.rs:179-181 | the canvas is present exactly while Playing, and is the game's |
| World.WithWord | src/world.rs:145-149 | replaces the word and keeps every other field of the turn |
| World.InitialHints | src/world.rs:124-133 | the hint map holds exactly the positions of whitespace and '-' characters, each mapped to its character |
| World.GuessWord | src/world.rs:122-140 | the guessing view names the drawer, pre-reveals exactly the whitespace and '-' positions, and records the word's length in UTF-8 bytes |
| World.Utf8LenCountsChars | src/world.rs:136 | the byte length is at least the character count, and equals it exactly for ASCII words |
| World.RemainingRoundTimeClamps | src/world.rs:153-155 | remaining time is 0 once the end instant has passed; otherwise it is the difference, truncated to 32 bits |
| Message.ChatMessage.IsSystem | src/message.rs:55 | holds exactly for System messages |
| Message.ChatMessage.Username | src/message.rs:57-62 | present exactly for User messages, and is their sender |
| Message.ChatMessage.Inner | src/message.rs:64-75 | the text of either kind of message |
| Codec.FromBigEndianBound | src/message.rs:151-153 | a big-endian number of w bytes is below 256^w |
| Codec.BigEndianRoundTrip | src/message.rs:151-153 | reading back a number written big-endian in w bytes gives that number |
| Codec.WidthTagMinimal | src/message.rs:196-207 | the encoder picks the narrowest of 2, 4 or 8 length bytes that can hold the payload length |
| Codec.Frame | src/message.rs:186-217 | a frame is one tag byte, the length field, then the payload |
| Codec.ReadLength | src/message.rs:151-153 | reading a length fails exactly when too few bytes are left, and otherwise reads big-endian |
| Codec.DecodeFrame | src/message.rs:131-174 | with the frame size taken modulo 2^64: consumes nothing unless a payload is produced, never more than the buffer holds, and panics only on an 8-byte length whose frame size reaches 2^64 |
| Codec.Decode | src/message.rs:131-174 | the buffer-mutating decoder returns what DecodeFrame says and drops exactly the consumed bytes; it panics exactly when DecodeFrame does, after dropping the header |
| Codec.Encode | src/message.rs:186-217 | appends exactly one frame, or fails with LargePayload and leaves the buffer as it was |
| Codec.ShortBufferNeedsMore | src/message.rs:138-141 | a buffer of at most 3 bytes yields no message and consumes nothing |
| Codec.TagOutcomes | src/message.rs:147-156 | tag 0 yields no message; a tag other than 0, 2, 4 and 8 is an InvalidLengthByte error |
| Codec.ShortLengthFieldFails | src/message.rs:151-153 | a 4- or 8-byte length field cut short is an I/O error |
| Codec.IncompletePayloadWaits | src/message.rs:160-168 | a frame whose payload has not fully arrived, and whose size fits in a usize, yields no message and consumes nothing |
| Codec.SuccessConsumesFrame | src/message.rs:160-173 | a decoded message is the payload after the header, and exactly header plus payload are consumed |
| Codec.DecodeEncodeRoundTrip | src/message.rs:131-217 | decoding an encoded frame, followed by anything, gives back the payload and leaves the rest; an empty payload alone is not decoded |
| Codec.ShortFramePrefixWaits | src/message.rs:138-168 | every proper prefix of a frame with a 2-byte length waits for more bytes |
| Codec.LongFramePrefixFails | src/message.rs:138-153 | four bytes of a frame with a 4-byte length are an I/O error, not a wait |
| Codec.TwoFramesInOrder | src/message.rs:170-173 | two frames back to back decode to their payloads in order |
| Codec.OverflowingLengthPanics | src/message.rs:158-171 | in any buffer shorter than 2^64 bytes, an 8-byte length whose frame size reaches 2^64 makes decode panic instead of waiting |
| Codec.MaxLengthHeaderPanics | src/message.rs:158-171 | the nine bytes 8, 0xFF x 8 (a length of 2^64 - 1) make decode panic |
| Events.Deliver | src/events.rs:91-93 | send and send_immediate both append to the normal channel and leave the immediate one alone |
| Events.TakeNext | src/events.rs:63-68 | nothing is taken only from empty channels; otherwise the head of the immediate channel, else of the normal one, is removed and nothing is lost |
| Events.DeliverAllAppends | src/events.rs:91-93 | a run of sends appends their values, in order, to the normal channel |
| Events.DrainNormal | src/events.rs:63-68 | successive try_recv calls on a normal channel return its contents in order |
| Events.ReceivedInSendOrder | src/events.rs:63-93 | whatever mix of send and send_immediate is used, messages are received in send order |
| Events.SendImmediateDoesNotOvertake | src/events.rs:93 | a message sent with send_immediate does not overtake one sent earlier with send |
| Events.EventSender.Send | src/events.rs:91 | appends the value to the normal channel |
| Events.EventSender.SendImmediate | src/events.rs:93 | also appends to the normal channel |
| Events.EventSender.Clone | src/events.rs:78-86 | a clone feeds the same channels |
| Events.EventQueue.constructor | src/events.rs:17-29 | a new queue has empty channels that its sender feeds |
| Events.EventQueue.TryRecv | src/events.rs:63-68 | takes the next message as TakeNext says |
| Events.EventQueue.Recv | src/events.rs:39-48 | with a message waiting in the immediate channel, returns it first |
| Guessing.MatchShortcut | src/server/room.rs:489-490 | when the last characters match ignoring ASCII case, the distance is that of the two prefixes |
| Guessing.Borders | src/server/room.rs:481-486 | the first row and column of the table count 0, 1, 2, ... |
| Guessing.CellStep | src/server/room.rs:488-497 | each cell of the table follows the match-or-min-of-three rule |
| Guessing.LevenshteinDistance | src/server/room.rs:472-500 | the table-filling loops return the edit distance, with ASCII case ignored |
| Guessing.DropLastBound | src/server/room.rs:472-500 | dropping one character changes the distance by at most one |
| Guessing.DistanceBounds | src/server/room.rs:472-500 | the distance to an empty word is the other word's length; the distance lies between the difference and the maximum of the lengths |
| Guessing.DistanceZeroIffEqual | src/server/room.rs:472-500 | distance 0 exactly when the words are equal ignoring ASCII case |
| Guessing.DistanceSymmetric | src/server/room.rs:472-500 | the distance does not depend on argument order |
| Guessing.ScoreIncreaseBounds | src/server/room.rs:468-470 | the increase is at least 50, exactly 50 with no time left, and at most 100 within the round duration |
| TurnEngine.HintCapNotEnforced | src/server/room.rs:429-432 | the written early-return test never fires for realistic sizes, yet three of four characters shown should stop it |
| TurnEngine.InitialGame | src/server/room.rs:340-362 | a new game has the configured dimensions and rounds, an empty canvas, round 0 and an empty word |
| TurnEngine.Names | src/server/room.rs:380 | the players' usernames, in order |
| TurnEngine.Skribbl.constructor | src/server/room.rs:340-362 | starts from InitialGame with the configured words, no current word and nobody left in the round |
| TurnEngine.Skribbl.NextTurn | src/server/room.rs:385-396 | the next word comes from the cycling word source; the first player left becomes the drawer and is removed from the list; the guessing view is built from the word |
| TurnEngine.Skribbl.StartRound | src/server/room.rs:376-383 | the round counter goes up by one, every player is owed a turn, and the first of them draws |
| TurnEngine.Skribbl.RevealRandomChar | src/server/room.rs:424-450 | as written: unless the bitwise-NOT guard fires, one more unrevealed position is revealed with its character |
| TurnEngine.Skribbl.RevealRandomCharCapped | src/server/room.rs:423-450 | with the intended guard, the hints never grow past half the word, and revealing only adds positions |
| TurnEngine.Skribbl.DoGuess | src/server/room.rs:455-465 | returns the edit distance; an exact guess adds 50 plus the score increase (at least 100 in all), and any other guess leaves the player as it was |
| Room.Post | src/server/room.rs:78-94 | the message is appended to the mail of exactly the recipients, and nobody else's mail changes |
| Room.PostOneMore | src/server/room.rs:78-82 | sending to one more recipient extends just that recipient's mail |
| Room.TurnStartReachesEachMemberOnce | src/server/room.rs:224-230 | a turn start reaches every member once; the drawer's copy carries the secret word |
| Room.EndedState | src/server/room.rs:243-251 | an ended game goes to Lobby when the room has an owner, and to Waiting otherwise |
| Room.PlayersFrom | src/server/room.rs:103-108 | the player list holds exactly the member players |
| Room.PlayerListEmpty | src/server/room.rs:162 | the player list is empty exactly when the room has no members |
| Room.GameRoom.constructor | src/server/room.rs:50-61 | a new room is in Lobby with an owner and in Waiting without one, and has no members |
| Room.GameRoom.GameState | src/server/room.rs:139-146 | the snapshot sent to clients has the room's state, and while Playing it carries the engine's game |
| Room.GameRoom.NonGuessingIsDrawer | src/server/room.rs:126-137 | nobody has solved the round, so the players who cannot guess are just the drawer, if present |
| Room.GameRoom.Send | src/server/room.rs:64-68 | a message reaches the player only if the player is a member |
| Room.GameRoom.Broadcast | src/server/room.rs:78-82 | a message reaches every member |
| Room.GameRoom.BroadcastExcept | src/server/room.rs:85-94 | a message reaches every member but one, whose mail is untouched |
| Room.GameRoom.EndGame | src/server/room.rs:243-251 | the room goes to Lobby or Waiting, and every member is told the new state |
| Room.GameRoom.StartRound | src/server/room.rs:213-231 | after the last round the game ends; otherwise a round starts and the turn start is sent, the drawer's copy with the word |
| Room.GameRoom.StartTurn | src/server/room.rs:233-241 | the last turn of a round starts the next round; otherwise the next player draws the next word |
| Room.GameRoom.StartGame | src/server/room.rs:206-211 | with enough members a new game is announced and its first round starts; otherwise nothing changes |
| Room.GameRoom.Admit | src/server/room.rs:171-197 | the member is added; the others learn of the new player, the newcomer gets the room snapshot, and everyone gets the join notice |
| Room.GameRoom.Connect | src/server/room.rs:171-204 | adds the member with the join messages; a Waiting room then starts a game |
| Room.GameRoom.Leave | src/server/room.rs:153-160 | the member is removed, and the rest are told who left |
| Room.GameRoom.Disconnect | src/server/room.rs:153-169 | an unknown id changes nothing; the last member leaving ends the game; the drawer leaving before the last turn passes the turn to the next player with the next cycled word, the canvas kept, as start_turn does, and at the last turn starts the next round; anyone else just leaves |
| Room.GameRoom.OnPaintMsg | src/server/room.rs:253-277 | the outcome PaintHandled: only the drawer's action changes the canvas, and it is forwarded to the other members; from anyone else it is ignored |
| Room.PaintPoints | src/server/room.rs:265-269 | the pen strokes paint each point in turn: the canvas becomes PaintAll of the old canvas, and nothing else of the game changes |
| Room.GameRoom.OnGuess | src/server/room.rs:287-302 | a correct guess raises the score and is announced; a near miss is hinted to the guesser alone; any other guess is shown as chat |
| Room.GameRoom.OnChatMsg | src/server/room.rs:279-320 | the outcome ChatHandled: outside a game the chat goes to everyone; the drawer's or a solver's chat goes only to the players who cannot guess; anyone else's is a guess; the turn engine is never changed |
| Room.PaintAll | src/server/room.rs:264-268 | every painted point takes the colour, and all other cells are unchanged |
| Room.ApplyDraw | src/server/room.rs:262-273 | Clear empties the canvas, Erase removes exactly one point, Paint colours the points and keeps the rest |
| Session.StateAfterWrite | src/server/session.rs:101-116 | a JoinRoom enters the game under the joined name; a kick stops the session; anything else leaves the state |
| Session.StopIsFinalUnlessJoined | src/server/session.rs:101-116 | a stopped session leaves Stop only on a JoinRoom |
| Session.Disconnects | src/server/session.rs:202-206 | counts the disconnect notices among forwarded messages |
| Session.UserSession.constructor | src/server/session.rs:74-89 | a new session is Idle, with the heartbeat at the current instant |
| Session.UserSession.HandleMsg | src/server/session.rs:124-159 | the outcome Handled: a Ping refreshes the heartbeat only; Idle forwards a room request under the given or a generated name; InGame forwards everything; Stop forwards nothing; state and output stay |
| Session.UserSession.Send | src/server/session.rs:101-121 | the message is written and the state moves as StateAfterWrite says |
| Session.UserSession.Turn | src/server/session.rs:168-199 | a turn leaves exactly on a missed heartbeat, a decode error or nothing left, changing nothing; otherwise a client message is handled as Handled says, a server message is written and moves the state as StateAfterWrite says, a tick changes nothing; no disconnect notice |
| Session.UserSession.Run | src/server/session.rs:161-206 | every turn taken did not leave, with the heartbeat carried from turn to turn; the loop exits only on Stop or on a turn that leaves (missed heartbeat, decode error, nothing left), and otherwise consumes all wakeups; one disconnect notice is sent, as the last message, exactly when it exits |
| Session.NoNoticeCountsZero | src/server/session.rs:161-206 | messages without a notice count none |
| Session.DisconnectsAppend | src/server/session.rs:202-206 | one more message adds one notice exactly when it is one |
| Server.AllIds | src/server.rs:82-91 | the ids below n, n of them |
| Server.FreeIdExists | src/server.rs:83-90 | with fewer than 256 users some id is free, so the retry loop can return |
| Server.LeaveRoom | src/server.rs:129 | a room left by an id keeps its invariant and loses that member |
| Server.EnterRoom | src/server/room.rs:171-204 | a room entered by a user keeps its invariant and gains that member |
| Server.AgreeOneRoom | src/server.rs:184-189 | users and rosters agreeing, an id is in at most one room |
| Server.Home | src/server.rs:151-159 | the room a user is recorded in, exactly when the user is in a game |
| Server.AgreeAfterRemoval | src/server.rs:122-135 | removing a user and that user's roster entry keeps users and rosters agreeing |
| Server.AgreeNowhereElse | src/server.rs:122-135 | a user is in the roster of its recorded room and of no other |
| Server.AgreeAfterJoin | src/server.rs:205-216 | recording a join in both the user and the room's roster keeps them agreeing |
| Server.GameServer.AtMostOneRoom | src/server.rs:184-189 | no id is a member of two rooms |
| Server.GameServer.constructor | src/server.rs:65-79 | only the "main" room, Waiting and ownerless, with no users |
| Server.GameServer.GenUniqueId | src/server.rs:82-91 | returns an id no connected user has |
| Server.GameServer.OnClientConnect | src/server.rs:94-120 | registers a new, unused id as a user in no game |
| Server.GameServer.LeaveRoomOf | src/server.rs:129 | the roster and the room lose the id; other rooms are untouched |
| Server.GameServer.DropMember | src/server.rs:123-129 | the user is forgotten and leaves its room; other rooms are untouched |
| Server.GameServer.ForgetUser | src/server.rs:122-135 | the user is forgotten and leaves its recorded room, if any; other rooms are untouched |
| Server.GameServer.OnClientDisconnect | src/server.rs:122-135 | the user is forgotten and its room (which had it as member) loses it; no other room had it or changes |
| Server.GameServer.KickUser | src/server.rs:137-148 | an unknown id changes nothing; otherwise the user is sent Kicked with the reason, then disconnected |
| Server.GameServer.ForwardToRoom | src/server.rs:161-166 | a chat has the room's outcome ChatHandled for the sender and the message's inner text, a drawing action PaintHandled for the sender's id; the room keeps its membership and other rooms are untouched |
| Server.GameServer.OnUserGameMsg | src/server.rs:150-173 | a user in no game is ignored; in the user's recorded room a chat has the outcome ChatHandled on its inner text and a drawing action PaintHandled for the sender's id; any other message gets the user kicked from server and room |
| Server.GameServer.ConnectAt | src/server.rs:205-209 | the room gains the member; other rooms are untouched |
| Server.GameServer.JoinRoomOf | src/server.rs:205-209 | the roster and the room gain the member |
| Server.GameServer.KickIdle | src/server.rs:186-196 | a user in no game is kicked and no room changes |
| Server.GameServer.Enter | src/server.rs:202-216 | the user is recorded in the room and becomes a member of it, and no other room changes |
| Server.GameServer.OnRoomRequest | src/server.rs:175-217 | unknown users are ignored; a user already in a game is kicked; a Join of an existing room admits the user; any other request is kicked as RoomNotFound or Unimplemented feature |
| Input.Cursor.constructor | src/client/ui/input.rs:4-5 | no position |
| Input.Cursor.Set | src/client/ui/input.rs:8 | the position is stored |
| Input.Cursor.Take | src/client/ui/input.rs:9 | returns the stored position and forgets it, so after set the first take is Some and the second None |
| Input.KeyEdit | src/client/ui/input.rs:20-48 | typing puts the character just before the cursor; Backspace removes the character before it (nothing at 0); the movement keys move the cursor within the text, without touching it |
| Input.BackspaceUndoesChar | src/client/ui/input.rs:25-34 | Backspace after typing a character restores the input |
| Input.TypingAppends | src/client/ui/input.rs:25-28 | typing a string appends it before the cursor and leaves the text after the cursor alone |
| Input.InputText.constructor | src/client/ui/input.rs:12-17 | empty, cursor at 0, unfocused |
| Input.InputText.OnKeyEvent | src/client/ui/input.rs:20-48 | a focused input reacts as KeyEdit says; an unfocused one ignores every key; the cursor stays within the text |
| Input.InputText.Focus | src/client/ui/input.rs:50 | sets the focus flag |
| Input.InputText.SetContent | src/client/ui/input.rs:54-57 | the new text with the cursor at its end |
| Input.InputText.Drain | src/client/ui/input.rs:63-68 | returns the old text and leaves the input empty with the cursor at 0 |
| Input.AsI16 | src/client/ui/input.rs:74-75 | the signed reading of a 16-bit value, congruent to it modulo 2^16 |
| Input.WrapI16 | src/client/ui/input.rs:74-75 | a signed 16-bit result, equal to the exact one when in range |
| Input.CenteredArea | src/client/ui/input.rs:73-98 | width and height are the smaller of the wanted size and the area's |
| Input.CenteredOffset | src/client/ui/input.rs:74-85 | for sizes below 2^15 the signed difference is positive exactly when the area is larger, and its half is the offset |
| Input.CenteredAreaPlacement | src/client/ui/input.rs:73-97 | the box starts half the spare room into the area where the area is larger, and at 0 otherwise; on a screen at the origin it fits, and its two margins differ by at most one |
| Canvas.NewPalette | src/client/ui/canvas.rs:41-47 | the pen, colour index 0 and the standard palette, whatever palette is passed in |
| Canvas.SelectedColor | src/client/ui/canvas.rs:49 | a colour of the palette |
| Canvas.PaintWithinCells | src/client/ui/canvas.rs:113-119 | painting adds exactly the points on the canvas, in the colour, and every other cell keeps its colour |
| Canvas.PaintIdempotent | src/client/ui/canvas.rs:113-119 | painting the same points twice is the same as once |
| Canvas.TermCanvas.constructor | src/client/ui/canvas.rs:66-78 | the given size, no offset, nothing painted, no background, no grid |
| Canvas.TermCanvas.Dimensions | src/client/ui/canvas.rs:80 | the width and height |
| Canvas.TermCanvas.WithinBounds | src/client/ui/canvas.rs:86 | both coordinates are below the size |
| Canvas.TermCanvas.Clear | src/client/ui/canvas.rs:82 | nothing is painted any more |
| Canvas.TermCanvas.ToggleGrid | src/client/ui/canvas.rs:84-88 | the grid flag flips, so showing_grid changes |
| Canvas.TermCanvas.ResizeCanvas | src/client/ui/canvas.rs:90-95 | the new size, the view offsets back at 0, the painting kept |
| Canvas.TermCanvas.Bg | src/client/ui/canvas.rs:97-101 | the background colour is set |
| Canvas.TermCanvas.Erase | src/client/ui/canvas.rs:111 | exactly that point is removed; every other cell is kept |
| Canvas.TermCanvas.Paint | src/client/ui/canvas.rs:113-119 | the loop leaves the canvas as PaintWithin says |
| Canvas.TermCanvas.Draw | src/client/ui/canvas.rs:103-109 | Clear, Erase and Paint act as clear, erase and paint |
| Net.DefaultStatus | src/client/net.rs:35-37 | NotConnected |
| Net.ServerSession.SendServerMsg | src/client/net.rs:55-57 | the message is queued for the server |
| Net.AppServer.constructor | src/client/net.rs:67-72 | not connected, no session, no attempt |
| Net.AppServer.Addr | src/client/net.rs:94-96 | present exactly with a session, and is its server's address |
| Net.AppServer.SendMessage | src/client/net.rs:87-92 | sent through the session when there is one; dropped otherwise |
| Net.AppServer.Disconnect | src/client/net.rs:117-121 | NotConnected, no attempt and no session, so not connected |
| Net.AppServer.SetStatus | src/client/net.rs:98-104 | the stored status becomes the given one; any status but Connected drops the session and the attempt first, so the client is no longer connected |
| Net.AppServer.SetSession | src/client/net.rs:106-115 | connected through the session with the attempt handle taken; it fails only when an awaited attempt fails |

## Left out

- Sockets, `tokio` tasks and `select!`: the sockets and the async runtime are not modelled. `UserSession::run` is modelled as a loop over a given sequence of wakeups, each with its clock reading. The server's `listen_on` accept-and-dispatch loop is left out; the three handlers it dispatches to are modelled one by one.
- bincode: a message's payload is an opaque byte sequence. A bincode failure on encode and the `Serialization` error on decode are not modelled.
- The wall clock and randomness are parameters or nondeterministic choices: `gen_unique_id`, `generate_name`, the word shuffle and the hint position.
- The word source cycles through the configured words in their given order, as the code does (`words` is the unshuffled list).
- `ROUND_DURATION` is defined in a file that is not part of this model; it is a positive constant here (60).
- `calculate_score_increase` is computed in integer arithmetic, not floating point.
- Codec.DecodeFrame: the decoder follows a 64-bit release build, where `header_size + payload_size` wraps. A debug build panics at that addition instead; for every buffer shorter than 2^64 bytes both builds panic on the same inputs, but the debug build drops no header bytes first.
- Codec.DecodeFrame: the allocation that `src.reserve(current_frame_size)` makes while waiting for a payload is not modelled. A declared length too large to allocate fails there, while the model waits.
- TurnEngine.Skribbl.DoGuess: does not model 32-bit wrap-around of the score, because scores stay far below 2^32 in any real game.
- Sends cannot fail. `PlayerSession::send_message` logs a failure, but the model does not. The `is_ok()` test in `kick_user` is therefore always true.
- `HashMap` iteration order: the room's player list and its broadcasts follow ascending player id, which is one order the map may give.
- Events.EventQueue.Recv: blocking is modelled as returning None, and the flume `Selector`'s free choice between channels is modelled as normal first. `recv_timeout` and the empty `send_after` are not modelled.
- The relative order of messages from a room and from the server to the same player is not captured. Each keeps its own outbox.
- Server.GameServer.OnRoomRequest and Server.GameServer.Enter: they require at least one custom word. With none, starting a game in the main room would panic in the source's cycling word source.
- `Skribbl::end_turn`, `Skribbl::end_game` and `GameRoom::run` are not modelled. The first is never called, and the other two have empty bodies.
- Canvas `resize` has an empty body and is not modelled. `render` and the rest of the terminal UI are rendering, which is not modelled.
- Input.InputText.OnKeyEvent: text is modelled as single-byte characters. The byte positions of `String::insert`/`remove` with multi-byte characters are not captured.
- Input.CenteredArea: the `tui` `Rect::new` clipping of very large areas is not modelled. The i16 and u16 arithmetic wraps as in a release build; a debug build would panic on overflow.
- Net.AppServer.SetSession: a failure of the awaited attempt task is a parameter.
- `AppServer::connect` and `ServerSession`'s reader and writer tasks are not modelled. The same goes for its `Drop` flag, which is an `AtomicBool` shared with those tasks.
- World.RemainingRoundTimeClamps: stated for instants below 2^63, where the i64 conversions are exact.

## Findings

| source | as written | input that shows it | evidently intended | confidence | as-written member | corrected member |
|---|---|---|---|---|---|---|
| src/server/room.rs:429-432 | `!hints.len() < word_length / 2` applies bitwise NOT to the hint count, so the early return never happens | a 4-character word with 3 hints revealed: the guard is false and a fourth character is revealed | stop once half of the word is revealed (`hints.len() >= word_length / 2`), as the doc comment says | not executed; the guard's value follows from Rust's `!` on `usize` | TurnEngine.Skribbl.RevealRandomChar, TurnEngine.HintCapNotEnforced | TurnEngine.Skribbl.RevealRandomCharCapped |
