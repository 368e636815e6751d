/**
 * A game room (`GameRoom`): its members, its state machine
 * (Lobby / Waiting / Playing) and the messages it sends. What each member
 * has been sent is kept as a per-player outbox, in sending order.
 */
module Room {
  import opened Wrappers
  import opened World
  import opened Message
  import opened TurnEngine
  import Guessing

  /** A game starts once this many players are connected. */
  const REQUIRED_PLAYERS: nat := 1

  /** Everything sent so far, per recipient, oldest first. */
  type Outbox = map<PlayerId, seq<ToClient>>

  /** What `id` has been sent so far. */
  function Mail(o: Outbox, id: PlayerId): seq<ToClient> {
    if id in o then o[id] else []
  }

  /** `o` after `msg` is sent once to each player of `to`. */
  function Post(o: Outbox, to: set<PlayerId>, msg: ToClient): (r: Outbox)
    ensures forall id {:trigger Mail(r, id)} | id in to :: Mail(r, id) == Mail(o, id) + [msg]
    ensures forall id {:trigger Mail(r, id)} | id !in to :: Mail(r, id) == Mail(o, id)
  {
    map id | id in o.Keys + to :: if id in to then Mail(o, id) + [msg] else o[id]
  }

  /** Sending to one more player extends a partial delivery by that player's copy. */
  lemma PostOneMore(o: Outbox, done: set<PlayerId>, id: PlayerId, msg: ToClient)
    requires id !in done
    ensures Post(o, done + {id}, msg) == Post(o, done, msg)[id := Mail(Post(o, done, msg), id) + [msg]]
  {
    var a := Post(o, done + {id}, msg);
    var b := Post(o, done, msg)[id := Mail(Post(o, done, msg), id) + [msg]];
    assert a.Keys == b.Keys;
    forall q | q in a.Keys
      ensures a[q] == b[q]
    {
      assert Mail(a, q) == a[q] && Mail(b, q) == b[q];
    }
  }

  /**
   * The announcement of a new turn: every member but the drawer is sent the
   * turn with the guessers' view of the word, the drawer is sent the turn
   * carrying the word itself.
   */
  function TurnStartMail(o: Outbox, members: set<PlayerId>, drawer: PlayerId, t: Turn, word: string): Outbox {
    Post(Post(o, members - {drawer}, TurnStart(t)), members * {drawer}, TurnStart(WithWord(t, DrawingWord.Draw(word))))
  }

  /** Each member receives exactly one turn start, and only the drawer's carries the word. */
  lemma TurnStartReachesEachMemberOnce(o: Outbox, members: set<PlayerId>, drawer: PlayerId, t: Turn, word: string)
    ensures forall id | id in members && id != drawer ::
      Mail(TurnStartMail(o, members, drawer, t, word), id) == Mail(o, id) + [TurnStart(t)]
    ensures drawer in members ==>
      Mail(TurnStartMail(o, members, drawer, t, word), drawer) == Mail(o, drawer) + [TurnStart(t.(word := DrawingWord.Draw(word)))]
    ensures forall id | id !in members :: Mail(TurnStartMail(o, members, drawer, t, word), id) == Mail(o, id)
  {
  }

  /** The state `end_game` moves to: Lobby exactly when the room has an owner. */
  function EndedState<T>(owner: Option<PlayerId>): (r: RoomState<T>)
    ensures r.Lobby? <==> owner.Some?
    ensures r.Waiting? <==> owner.None?
  {
    if owner.Some? then Lobby else Waiting
  }

  /** The players of `s` with an id of at least `k`, in ascending id order. */
  function PlayersFrom(s: map<PlayerId, Player>, k: nat): (r: seq<Player>)
    decreases 256 - k
    ensures forall p | p in r :: p in s.Values
    ensures forall id: PlayerId | k <= id && id in s :: s[id] in r
  {
    if k >= 256 then []
    else
      var rest := PlayersFrom(s, k + 1);
      if k in s then [s[k]] + rest else rest
  }

  /** `player_list`: empty exactly when no one is connected. */
  lemma PlayerListEmpty(s: map<PlayerId, Player>)
    ensures PlayersFrom(s, 0) == [] <==> s == map[]
  {
    if s != map[] {
      var id :| id in s;
      assert s[id] in PlayersFrom(s, 0);
    }
    var r := PlayersFrom(s, 0);
    if r != [] {
      assert r[0] in r;
      assert r[0] in s.Values;
    }
  }

  class GameRoom {
    var state: RoomState<Skribbl>
    const gameOpts: GameOpts
    const ownerId: Option<PlayerId>
    /** The connected players by id; the session's channel is the outbox entry of that id. */
    var sessions: map<PlayerId, Player>
    var outbox: Outbox
    ghost var Repr: set<object>

    /** The engines the room has run (its footprint besides itself) and the invariants of everything but the current turn. */
    ghost predicate Frame()
      reads this`state, this`sessions, this`Repr, Repr
    {
      && (state.Playing? ==> state.world in Repr && |state.world.words| > 0)
      && (ownerId.Some? <==> state.Lobby?)
      && (forall id | id in sessions :: sessions[id].name.id == id && !sessions[id].solvedCurrentRound)
    }

    /** `Frame` and, while Playing, a turn has been handed out. */
    ghost predicate Valid()
      reads this`state, this`sessions, this`Repr, Repr
    {
      Frame() && (state.Playing? ==> state.world.game.turn.word.Guess?)
    }

    /** `GameRoom::new`: Lobby exactly when an owner is given, else Waiting. */
    constructor (opts: GameOpts, owner: Option<PlayerId>)
      ensures Valid() && fresh(Repr)
      ensures state == EndedState(owner)
      ensures gameOpts == opts && ownerId == owner
      ensures sessions == map[] && outbox == map[]
    {
      state := if owner.Some? then Lobby else Waiting;
      gameOpts := opts;
      ownerId := owner;
      sessions := map[];
      outbox := map[];
      Repr := {};
    }

    /** `player_list`, in ascending id order. */
    function PlayerList(): seq<Player>
      reads this
    {
      PlayersFrom(sessions, 0)
    }

    /** `game_state`: the state with the game snapshot in place of the engine. */
    function GameState(): (r: RoomState<Game>)
      reads this, if state.Playing? then {state.world} else {}
      ensures r.Playing? <==> state.Playing?
      ensures r.Playing? ==> r.world == state.world.game
      ensures r.Lobby? <==> state.Lobby?
      ensures r.Waiting? <==> state.Waiting?
    {
      match state
      case FreeDraw => FreeDraw
      case Lobby => Lobby
      case Waiting => Waiting
      case Playing(sk) => Playing(sk.game)
    }

    /** `get_non_guessing_players`: members that solved, or the drawer while Playing. */
    function NonGuessingPlayers(): set<PlayerId>
      reads this, if state.Playing? then {state.world} else {}
      requires state.Playing? ==> state.world.game.turn.word.Guess?
    {
      set id | id in sessions
        && (sessions[id].solvedCurrentRound || (state.Playing? && state.world.IsDrawing(id)))
    }

    /**
     * No one ever solves (the flag is never set), so the non-guessing players
     * are the drawer alone, and only while that player is still connected.
     */
    lemma NonGuessingIsDrawer()
      requires Valid()
      ensures state.Playing? && state.world.DrawingPlayer() in sessions ==>
        NonGuessingPlayers() == {state.world.DrawingPlayer()}
      ensures !(state.Playing? && state.world.DrawingPlayer() in sessions) ==> NonGuessingPlayers() == {}
    {
    }

    /** Sends `msg` to each player of `to`, one at a time. */
    method SendEach(to: set<PlayerId>, msg: ToClient)
      modifies this`outbox
      ensures outbox == Post(old(outbox), to, msg)
    {
      var left := to;
      while left != {}
        invariant left <= to
        invariant outbox == Post(old(outbox), to - left, msg)
        decreases left
      {
        var id :| id in left;
        PostOneMore(old(outbox), to - left, id, msg);
        assert to - left + {id} == to - (left - {id});
        outbox := outbox[id := Mail(outbox, id) + [msg]];
        left := left - {id};
      }
    }

    /** `send`: to one player, if connected. */
    method Send(id: PlayerId, msg: ToClient)
      modifies this`outbox
      ensures outbox == Post(old(outbox), sessions.Keys * {id}, msg)
    {
      SendEach(sessions.Keys * {id}, msg);
    }

    /** `broadcast`: to every connected player. */
    method Broadcast(msg: ToClient)
      modifies this`outbox
      ensures outbox == Post(old(outbox), sessions.Keys, msg)
    {
      SendEach(sessions.Keys, msg);
    }

    /** `broadcast_except`: to every connected player but `id`. */
    method BroadcastExcept(msg: ToClient, id: PlayerId)
      modifies this`outbox
      ensures outbox == Post(old(outbox), sessions.Keys - {id}, msg)
      ensures id in old(outbox) ==> outbox[id] == old(outbox)[id]
    {
      SendEach(sessions.Keys - {id}, msg);
    }

    /** `end_game`: back to Lobby when there is an owner, to Waiting otherwise, and tell everyone. */
    method EndGame()
      requires Frame()
      modifies this`state, this`outbox
      ensures Valid() && Repr == old(Repr)
      ensures state == EndedState(ownerId)
      ensures outbox == Post(old(outbox), sessions.Keys, RoomStateChange(EndedState(ownerId)))
    {
      state := EndedState(ownerId);
      Broadcast(RoomStateChange(GameState()));
    }

    /**
     * What `start_round` leaves behind, from the outbox `o`, game `g` and
     * word count `drawn` it started with: the game ended if `g` was in its
     * last round; otherwise the next round began with the first listed player
     * drawing, and the turn was announced.
     */
    ghost predicate RoundOutcome(o: Outbox, g: Game, drawn: nat)
      reads this, if state.Playing? then {state.world} else {}
    {
      if g.turn.currentRound == g.turn.lastRound then
        state == EndedState(ownerId)
        && outbox == Post(o, sessions.Keys, RoomStateChange(EndedState(ownerId)))
      else
        state.Playing? && PlayerList() != [] && |state.world.words| > 0
        && var sk := state.world;
        var drawer := PlayerList()[0].name;
        && sk.drawn == drawn + 1
        && sk.currentWord == sk.words[drawn % |sk.words|]
        && sk.playersLeftInRound == Names(PlayerList())[1..]
        && sk.game == g.(turn := g.turn.(currentRound := g.turn.currentRound + 1, word := GuessWord(drawer, sk.currentWord)))
        && outbox == TurnStartMail(o, sessions.Keys, drawer.id, sk.game.turn, sk.currentWord)
    }

    /** `GameRoom::start_round`. */
    method StartRound()
      requires Frame() && state.Playing? && sessions != map[]
      modifies this`state, this`outbox, state.world
      ensures Valid() && Repr == old(Repr)
      ensures RoundOutcome(old(outbox), old(state.world.game), old(state.world.drawn))
      ensures !old(state.world.IsLastRound()) ==> state == old(state) && state.world.words == old(state.world.words)
    {
      var players := PlayerList();
      PlayerListEmpty(sessions);
      var sk := state.world;
      if sk.IsLastRound() {
        EndGame();
      } else {
        sk.StartRound(players);
        var turn := sk.game.turn;
        var drawing := sk.DrawingPlayer();
        var word := sk.currentWord;
        BroadcastExcept(TurnStart(turn), drawing);
        Send(drawing, TurnStart(WithWord(turn, DrawingWord.Draw(word))));
      }
    }

    /** `start_turn`: a new round after the round's last turn, else the next player draws. */
    method StartTurn()
      requires Frame() && state.Playing? && (state.world.IsLastTurn() ==> sessions != map[])
      modifies this`state, this`outbox, state.world
      ensures Valid() && Repr == old(Repr)
      ensures old(state.world.IsLastTurn()) ==>
        RoundOutcome(old(outbox), old(state.world.game), old(state.world.drawn))
      ensures !old(state.world.IsLastTurn()) ==>
        && state == old(state) && outbox == old(outbox)
        && state.world.words == old(state.world.words)
        && state.world.drawn == old(state.world.drawn) + 1
        && state.world.currentWord == state.world.words[old(state.world.drawn) % |state.world.words|]
        && state.world.playersLeftInRound == old(state.world.playersLeftInRound)[1..]
        && state.world.game == old(state.world.game).(turn := old(state.world.game.turn).(word :=
             GuessWord(old(state.world.playersLeftInRound)[0], state.world.currentWord)))
    {
      var sk := state.world;
      if sk.IsLastTurn() {
        StartRound();
      } else {
        sk.NextTurn();
      }
    }

    /** `start_game`: with enough players, a fresh game starts and its first round begins. */
    method StartGame()
      requires Frame() && !state.Lobby? && |gameOpts.customWords| > 0
      modifies this, Repr
      ensures Frame() && fresh(Repr - old(Repr)) && sessions == old(sessions)
      ensures |sessions| < REQUIRED_PLAYERS ==> state == old(state) && outbox == old(outbox) && Repr == old(Repr)
      ensures |sessions| >= REQUIRED_PLAYERS ==>
        && Valid() && (state.Playing? ==> fresh(state.world))
        && RoundOutcome(Post(old(outbox), sessions.Keys, RoomStateChange(Playing(InitialGame(gameOpts)))),
                        InitialGame(gameOpts), 0)
    {
      if |sessions| >= REQUIRED_PLAYERS {
        var sk := new Skribbl(gameOpts);
        state := Playing(sk);
        Repr := Repr + {sk};
        Broadcast(RoomStateChange(GameState()));
        StartRound();
      }
    }

    /**
     * What a newcomer's arrival sends: the previous members learn of the new
     * player, the newcomer receives the player list and the room state, and
     * everyone, the newcomer included, is told it joined.
     */
    static function JoinMail(o: Outbox, before: set<PlayerId>, username: Username,
                      list: seq<Player>, initial: RoomState<Game>): Outbox
    {
      Post(Post(Post(o, before, PlayerConnect(PlayerFrom(username))),
                {username.id}, JoinRoom(username, list, initial)),
           before + {username.id}, ToClient.Chat(System(username.name + " joined")))
    }

    /** The three sends of `connect`, step by step, amount to `JoinMail`. */
    static lemma JoinMailSteps(o0: Outbox, o1: Outbox, o2: Outbox, o3: Outbox, before: set<PlayerId>, after: set<PlayerId>,
                               username: Username, list: seq<Player>, initial: RoomState<Game>)
      requires after == before + {username.id}
      requires o1 == Post(o0, before, PlayerConnect(PlayerFrom(username)))
      requires o2 == Post(o1, after * {username.id}, JoinRoom(username, list, initial))
      requires o3 == Post(o2, after, ToClient.Chat(System(username.name + " joined")))
      ensures o3 == JoinMail(o0, before, username, list, initial)
    {
      assert after * {username.id} == {username.id};
    }

    /** The part of `connect` before a Waiting room starts its game. */
    method Admit(username: Username)
      requires Valid()
      modifies this`sessions, this`outbox
      ensures Valid()
      ensures sessions == old(sessions)[username.id := PlayerFrom(username)]
      ensures outbox == JoinMail(old(outbox), old(sessions).Keys, username, PlayerList(), GameState())
    {
      var player := PlayerFrom(username);
      Broadcast(PlayerConnect(player));
      ghost var greeted := outbox;
      sessions := sessions[username.id := player];
      assert Valid();
      var joinMsg := username.name + " joined";
      var playerList := PlayerList();
      var initialState := GameState();
      Send(username.id, JoinRoom(username, playerList, initialState));
      ghost var welcomed := outbox;
      Broadcast(ToClient.Chat(System(joinMsg)));
      JoinMailSteps(old(outbox), greeted, welcomed, outbox, old(sessions).Keys, sessions.Keys, username, playerList, initialState);
    }

    /**
     * `connect`: the newcomer is added and greeted (`JoinMail`), and a
     * Waiting room starts its game.
     */
    method Connect(username: Username)
      requires Valid() && (state.Waiting? ==> |gameOpts.customWords| > 0)
      modifies this, Repr
      ensures Valid() && fresh(Repr - old(Repr))
      ensures sessions == old(sessions)[username.id := PlayerFrom(username)]
      ensures !old(state).Waiting? ==>
        && state == old(state) && (state.Playing? ==> unchanged(state.world))
        && outbox == JoinMail(old(outbox), old(sessions).Keys, username, PlayerList(), old(GameState()))
      ensures old(state).Waiting? ==>
        && (state.Playing? ==> fresh(state.world))
        && RoundOutcome(Post(JoinMail(old(outbox), old(sessions).Keys, username, PlayerList(), Waiting),
                             sessions.Keys, RoomStateChange(Playing(InitialGame(gameOpts)))),
                        InitialGame(gameOpts), 0)
    {
      Admit(username);
      if state.Waiting? {
        StartGame();
      }
    }

    /** What a departure sends to those who remain: a chat line, then the departure itself. */
    static function LeaveMail(o: Outbox, remaining: set<PlayerId>, username: Username): Outbox {
      Post(Post(o, remaining, ToClient.Chat(System(username.name + " left the rooom"))),
           remaining, PlayerDisconnect(username))
    }

    /** The part of `disconnect` that removes a member and tells the others. */
    method Leave(id: PlayerId)
      requires Valid() && id in sessions
      modifies this`sessions, this`outbox
      ensures Valid()
      ensures sessions == old(sessions) - {id}
      ensures outbox == LeaveMail(old(outbox), sessions.Keys, old(sessions)[id].name)
    {
      var username := sessions[id].name;
      sessions := sessions - {id};
      Broadcast(ToClient.Chat(System(username.name + " left the rooom")));
      Broadcast(PlayerDisconnect(username));
    }

    /**
     * `disconnect`: an unknown id changes nothing. Otherwise the player is
     * removed and the others are told (`LeaveMail`); an empty room ends its
     * game, and a departing drawer passes the turn on.
     */
    method Disconnect(id: PlayerId)
      requires Valid()
      modifies this, Repr
      ensures Valid() && Repr == old(Repr)
      ensures sessions == old(sessions) - {id}
      ensures id !in old(sessions) ==>
        outbox == old(outbox) && state == old(state) && (state.Playing? ==> unchanged(state.world))
      ensures id in old(sessions) && sessions == map[] ==>
        && state == EndedState(ownerId)
        && outbox == Post(LeaveMail(old(outbox), {}, old(sessions)[id].name), {}, RoomStateChange(EndedState(ownerId)))
      ensures id in old(sessions) && sessions != map[] && !(old(state).Playing? && old(state.world.IsDrawing(id))) ==>
        && state == old(state) && (state.Playing? ==> unchanged(state.world))
        && outbox == LeaveMail(old(outbox), sessions.Keys, old(sessions)[id].name)
      ensures id in old(sessions) && sessions != map[] && old(state).Playing? && old(state.world.IsDrawing(id))
                && old(state.world.IsLastTurn()) ==>
        RoundOutcome(LeaveMail(old(outbox), sessions.Keys, old(sessions)[id].name), old(state.world.game), old(state.world.drawn))
      ensures id in old(sessions) && sessions != map[] && old(state).Playing? && old(state.world.IsDrawing(id))
                && !old(state.world.IsLastTurn()) ==>
        && state == old(state) && outbox == LeaveMail(old(outbox), sessions.Keys, old(sessions)[id].name)
        && state.world.words == old(state.world.words)
        && state.world.drawn == old(state.world.drawn) + 1
        && state.world.currentWord == state.world.words[old(state.world.drawn) % |state.world.words|]
        && state.world.playersLeftInRound == old(state.world.playersLeftInRound)[1..]
        && state.world.game == old(state.world.game).(turn := old(state.world.game.turn).(word :=
             GuessWord(old(state.world.playersLeftInRound)[0], state.world.currentWord)))
        && state.world.IsDrawing(old(state.world.playersLeftInRound)[0].id)
    {
      if id in sessions {
        Leave(id);
        var players := PlayerList();
        PlayerListEmpty(sessions);
        if players == [] {
          EndGame();
        } else if state.Playing? && state.world.IsDrawing(id) {
          StartTurn();
        }
      }
    }

    /**
     * The outcome of `on_paint_msg(sender, action)`, from the state before
     * it: only the drawer of a Playing room may draw; the action is applied
     * to the game's canvas and sent to every other member. Anything else
     * changes nothing.
     */
    twostate predicate PaintHandled(sender: PlayerId, action: Draw)
      reads this, if state.Playing? then {state.world} else {}
    {
      && state == old(state) && sessions == old(sessions)
      && if state.Playing? && old(state.world.game.turn.word.Guess?) && old(state.world.IsDrawing(sender)) then
           && state.world.game == old(state.world.game).(canvas := ApplyDraw(old(state.world.game.canvas), action))
           && outbox == Post(old(outbox), sessions.Keys - {sender}, ToClient.Draw(action))
           && state.world.currentWord == old(state.world.currentWord)
           && state.world.playersLeftInRound == old(state.world.playersLeftInRound)
           && state.world.words == old(state.world.words) && state.world.drawn == old(state.world.drawn)
         else
           outbox == old(outbox) && (state.Playing? ==> unchanged(state.world))
    }

    /** `on_paint_msg`: the drawing action handled as `PaintHandled` says. */
    method OnPaintMsg(sender: PlayerId, action: Draw)
      requires Valid()
      modifies this, Repr
      ensures Valid() && Repr == old(Repr)
      ensures PaintHandled(sender, action)
    {
      if state.Playing? {
        var sk := state.world;
        if !sk.IsDrawing(sender) {
          return;
        }
        match action {
          case Clear =>
            sk.game := sk.game.(canvas := map[]);
          case Paint(points, color) =>
            PaintPoints(sk, points, color);
          case Erase(point) =>
            sk.game := sk.game.(canvas := sk.game.canvas - {point});
        }
        BroadcastExcept(ToClient.Draw(action), sender);
      }
    }

    /**
     * The result of a guess by `sender` at the current word, from the
     * sessions and outbox it started with: a hit scores and is announced to
     * all, a near miss is told to the sender alone, anything else is shown to all.
     */
    ghost predicate GuessOutcome(sessions0: map<PlayerId, Player>, outbox0: Outbox, sender: Username, chat: string, now: U64)
      reads this, if state.Playing? then {state.world} else {}
      requires state.Playing? && sender.id in sessions0
    {
      var dist := Guessing.EditDistance(chat, state.world.currentWord);
      var p := sessions0[sender.id];
      && (dist == 0 ==>
            && sessions == sessions0[sender.id := p.(score := p.score + 50 +
                 Guessing.CalculateScoreIncrease(RemainingRoundTime(state.world.game, now), false))]
            && outbox == Post(outbox0, sessions.Keys, ToClient.Chat(System(sender.name + " guessed it!"))))
      && (dist == 1 ==>
            sessions == sessions0 && outbox == Post(outbox0, {sender.id}, ToClient.Chat(System("You're very close!"))))
      && (dist > 1 ==>
            sessions == sessions0 && outbox == Post(outbox0, sessions.Keys, ToClient.Chat(User(sender, chat))))
    }

    /** The guessing branch of `on_chat_msg`. */
    method OnGuess(sender: Username, chat: string, now: U64)
      requires Valid() && state.Playing? && sender.id in sessions
      requires !(state.world.IsDrawing(sender.id) || sessions[sender.id].solvedCurrentRound)
      modifies this
      ensures Valid() && Repr == old(Repr) && state == old(state)
      ensures GuessOutcome(old(sessions), old(outbox), sender, chat, now)
    {
      var sk := state.world;
      var dist, updated := sk.DoGuess(sessions[sender.id], chat, now);
      sessions := sessions[sender.id := updated];
      if dist == 0 {
        Broadcast(ToClient.Chat(System(sender.name + " guessed it!")));
      } else if dist == 1 {
        Send(sender.id, ToClient.Chat(System("You're very close!")));
      } else {
        Broadcast(ToClient.Chat(User(sender, chat)));
      }
    }

    /**
     * The outcome of `on_chat_msg(sender, chat)` at `now`, from the state
     * before it. While Playing, a member who may guess has the message
     * scored as a guess (`GuessOutcome`), and chat from the drawer (or a
     * solver) reaches only the non-guessing players. Outside a game the chat
     * goes to everyone. The state, the turn engine and the members stay.
     */
    twostate predicate ChatHandled(sender: Username, chat: string, now: U64)
      reads this, if state.Playing? then {state.world} else {}
    {
      && state == old(state) && sessions.Keys == old(sessions).Keys
      && (state.Playing? ==> unchanged(state.world))
      && (!state.Playing? ==>
            sessions == old(sessions) && outbox == Post(old(outbox), sessions.Keys, ToClient.Chat(User(sender, chat))))
      && (state.Playing? && state.world.game.turn.word.Guess? && sender.id in old(sessions) ==>
            if state.world.IsDrawing(sender.id) || old(sessions)[sender.id].solvedCurrentRound then
              sessions == old(sessions) && outbox == Post(old(outbox), NonGuessingPlayers(), ToClient.Chat(User(sender, chat)))
            else
              GuessOutcome(old(sessions), old(outbox), sender, chat, now))
    }

    /** `on_chat_msg`, the clock passed in as `now`: the chat handled as `ChatHandled` says. */
    method OnChatMsg(sender: Username, chat: string, now: U64)
      requires Valid() && (state.Playing? ==> sender.id in sessions)
      modifies this
      ensures Valid() && Repr == old(Repr)
      ensures ChatHandled(sender, chat, now)
    {
      if state.Playing? {
        var sk := state.world;
        var canGuess := !(sk.IsDrawing(sender.id) || sessions[sender.id].solvedCurrentRound);
        if canGuess {
          OnGuess(sender, chat, now);
        } else {
          SendEach(NonGuessingPlayers(), ToClient.Chat(User(sender, chat)));
        }
      } else {
        Broadcast(ToClient.Chat(User(sender, chat)));
      }
    }
  }

  /** The pen strokes of `on_paint_msg`: each point of `points` takes the colour, one after another. */
  method PaintPoints(sk: Skribbl, points: seq<Coord>, color: Color)
    modifies sk`game
    ensures sk.game == old(sk.game).(canvas := PaintAll(old(sk.game.canvas), points, color))
  {
    var i := 0;
    while i < |points|
      invariant 0 <= i <= |points|
      invariant sk.game == old(sk.game).(canvas := PaintAll(old(sk.game.canvas), points[..i], color))
    {
      assert points[..i + 1][..i] == points[..i];
      sk.game := sk.game.(canvas := sk.game.canvas[points[i] := color]);
      i := i + 1;
    }
    assert points[..|points|] == points;
  }

  /** `canvas` after painting `points` in `color`, one after another. */
  function PaintAll(canvas: map<Coord, Color>, points: seq<Coord>, color: Color): (r: map<Coord, Color>)
    ensures forall q :: q in r <==> q in canvas || q in points
    ensures forall q | q in r :: r[q] == if q in points then color else canvas[q]
  {
    if points == [] then canvas
    else PaintAll(canvas, points[..|points| - 1], color)[points[|points| - 1] := color]
  }

  /** The effect of a draw action on the server's canvas: no bounds are checked. */
  function ApplyDraw(canvas: map<Coord, Color>, action: Draw): (r: map<Coord, Color>)
    ensures action.Clear? ==> r == map[]
    ensures action.Erase? ==> r.Keys == canvas.Keys - {action.point}
    ensures action.Erase? ==> forall q | q in r :: r[q] == canvas[q]
    ensures action.Paint? ==> forall q :: q in r <==> q in canvas || q in action.points
    ensures action.Paint? ==> forall q | q in r :: r[q] == if q in action.points then action.color else canvas[q]
  {
    match action
    case Clear => map[]
    case Erase(p) => canvas - {p}
    case Paint(points, color) => PaintAll(canvas, points, color)
  }
}
