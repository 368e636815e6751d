/**
 * One client's session on the server (`UserSession`): its state machine
 * Idle -> InGame -> Stop, the translation of the client's requests into
 * events for the server, and the exit logic of its control loop.
 */
module Session {
  import opened Wrappers
  import opened World
  import opened Message
  import opened Events

  /** Disconnect a client after this many seconds without a heartbeat. */
  const TIMED_OUT_SECONDS: nat := 10
  const NANOS_PER_SECOND: nat := 1_000_000_000

  /** The names handed to players that request a room without one. */
  const NAMES: seq<string> := ["alice", "bob", "dafny", "spice"]

  /** What a session (or the console) tells the server. */
  datatype ServerMessage =
    | RoomRequest(from: Username, req: Message.RoomRequest)
    | InRoomMessage(from: Username, msg: ToServer)
    | Disconnect(id: PlayerId)
    | CtrlC

  datatype UserState = Idle | InGame(name: string) | Stop

  /**
   * The heartbeat test of `run`, instants in nanoseconds: more than ten
   * seconds since the last heartbeat. An instant before the heartbeat counts
   * as no time at all.
   */
  predicate TimedOut(lastHb: nat, now: nat) {
    now - lastHb > TIMED_OUT_SECONDS * NANOS_PER_SECOND
  }

  /**
   * Whether a turn at `now`, woken by `wakeup`, ends the loop, the last
   * heartbeat being at `hb`: a missed heartbeat, a message that fails to
   * decode, or nothing left to wait on.
   */
  predicate Leaves(hb: nat, now: nat, wakeup: Wakeup) {
    TimedOut(hb, now) || wakeup.NothingLeft? || (wakeup.FromClient? && wakeup.decoded.Err?)
  }

  /** The last heartbeat after a turn that does not leave: only a Ping from the client refreshes it. */
  function HbAfter(hb: nat, now: nat, wakeup: Wakeup): nat {
    if wakeup.FromClient? && wakeup.decoded.Ok? && wakeup.decoded.value.Ping? then now else hb
  }

  /** What one turn of the control loop of `run` can be woken by. */
  datatype Wakeup =
    | HeartbeatTick
    | FromClient(decoded: Result<ToServer, string>)
    | FromServer(msg: ToClient)
    | NothingLeft

  /** How many of `ms` are a disconnect notice. */
  function Disconnects(ms: seq<ServerMessage>): (n: nat)
    ensures n <= |ms|
  {
    if ms == [] then 0 else Disconnects(ms[..|ms| - 1]) + (if ms[|ms| - 1].Disconnect? then 1 else 0)
  }

  /** The next state after writing `msg` to the client. */
  function StateAfterWrite(s: UserState, msg: ToClient): (r: UserState)
    ensures msg.JoinRoom? ==> r == InGame(msg.username.name)
    ensures msg.Kicked? ==> r == Stop
    ensures !msg.JoinRoom? && !msg.Kicked? ==> r == s
  {
    match msg
    case JoinRoom(username, _, _) => InGame(username.name)
    case Kicked(_) => Stop
    case _ => s
  }

  /** A Stop session leaves Stop only by being sent a JoinRoom. */
  lemma StopIsFinalUnlessJoined(msg: ToClient)
    requires !msg.JoinRoom?
    ensures StateAfterWrite(Stop, msg) == Stop
  {
  }

  class UserSession {
    const id: PlayerId
    var state: UserState
    /** The instant of the last heartbeat, in nanoseconds. */
    var lastHb: nat
    /** The handle on the server's event queue. */
    const server: EventSender<ServerMessage>
    /** Everything written to the client's socket, in order. */
    var written: seq<ToClient>

    /** `UserSession::new`, the clock passed in as `now`. */
    constructor (id: PlayerId, server: EventSender<ServerMessage>, now: nat)
      ensures this.id == id && this.server == server
      ensures state == Idle && lastHb == now && written == []
    {
      this.id := id;
      this.server := server;
      state := Idle;
      lastHb := now;
      written := [];
    }

    /**
     * The outcome of `handle_msg(msg)`, from the state before it: a Ping
     * refreshes the heartbeat and nothing else. An Idle session forwards
     * only a room request, under the requested name or one of `NAMES`
     * chosen at random; an InGame session forwards everything as a room
     * message; a stopped session forwards nothing. Nothing is written to
     * the client and the state stays.
     */
    twostate predicate Handled(msg: ToServer, now: nat)
      reads this, server.channels
    {
      && state == old(state) && written == old(written)
      && (msg.Ping? ==> lastHb == now && unchanged(server.channels))
      && (!msg.Ping? ==> lastHb == old(lastHb))
      && (!msg.Ping? && state.Idle? && msg.RequestRoom? ==>
            exists name ::
              && (msg.maybeName.Some? ==> name == msg.maybeName.value)
              && (msg.maybeName.None? ==> name in NAMES)
              && server.channels.Contents() ==
                   Deliver(old(server.channels.Contents()), Normal, RoomRequest(Username(name, id), msg.request)))
      && (!msg.Ping? && state.Idle? && !msg.RequestRoom? ==> unchanged(server.channels))
      && (!msg.Ping? && state.InGame? ==>
            server.channels.Contents() ==
              Deliver(old(server.channels.Contents()), Normal, InRoomMessage(Username(state.name, id), msg)))
      && (!msg.Ping? && state.Stop? ==> unchanged(server.channels))
    }

    /** `handle_msg`: the client's message handled as `Handled` says. */
    method HandleMsg(msg: ToServer, now: nat)
      modifies this`lastHb, server.channels
      ensures Handled(msg, now)
    {
      if msg.Ping? {
        lastHb := now;
        return;
      }
      match state {
        case Idle =>
          if msg.RequestRoom? {
            var name: string;
            if msg.maybeName.Some? {
              name := msg.maybeName.value;
            } else {
              assert NAMES[0] in NAMES;
              name :| name in NAMES;
            }
            server.Send(RoomRequest(NewUsername(name, id), msg.request));
          }
        case InGame(name) =>
          server.Send(InRoomMessage(NewUsername(name, id), msg));
        case Stop =>
      }
    }

    /** `send`: write `msg` to the client; a JoinRoom enters the game, a kick stops the session. */
    method Send(msg: ToClient)
      modifies this`state, this`written
      ensures state == StateAfterWrite(old(state), msg)
      ensures written == old(written) + [msg]
    {
      match msg {
        case JoinRoom(username, _, _) =>
          state := InGame(username.name);
        case Kicked(_) =>
          state := Stop;
        case _ =>
      }
      written := written + [msg];
    }

    /**
     * One turn of the control loop of `run`: it leaves exactly as `Leaves`
     * says, changing nothing; otherwise a message from the client is
     * handled (`handle_msg`), a message from the server is written to the
     * client (`send`), and a heartbeat tick does nothing. A turn forwards no
     * disconnect notice.
     */
    method Turn(now: nat, wakeup: Wakeup) returns (leave: bool)
      modifies this`state, this`lastHb, this`written, server.channels
      ensures leave <==> Leaves(old(lastHb), now, wakeup)
      ensures leave || wakeup.HeartbeatTick? ==>
        state == old(state) && lastHb == old(lastHb) && written == old(written) && unchanged(server.channels)
      ensures !leave && wakeup.FromClient? ==> Handled(wakeup.decoded.value, now)
      ensures !leave && wakeup.FromServer? ==>
        && state == StateAfterWrite(old(state), wakeup.msg) && written == old(written) + [wakeup.msg]
        && lastHb == old(lastHb) && unchanged(server.channels)
      ensures !leave ==> lastHb == HbAfter(old(lastHb), now, wakeup)
      ensures server.channels.immediate == old(server.channels.immediate)
      ensures |server.channels.normal| >= |old(server.channels.normal)|
      ensures server.channels.normal[..|old(server.channels.normal)|] == old(server.channels.normal)
      ensures forall k | |old(server.channels.normal)| <= k < |server.channels.normal| :: !server.channels.normal[k].Disconnect?
    {
      leave := false;
      if TimedOut(lastHb, now) {
        return true;
      }
      match wakeup {
        case HeartbeatTick =>
        case FromClient(decoded) =>
          if decoded.Err? {
            return true;
          }
          HandleMsg(decoded.value, now);
        case FromServer(msg) =>
          Send(msg);
        case NothingLeft =>
          leave := true;
      }
    }

    /**
     * The control loop of `run`, over the wakeups it meets and the clock
     * reading at the top of each turn. The loop ends on Stop, on a missed
     * heartbeat, on a message that fails to decode, or when nothing is left
     * to wait on; it then tells the server exactly once that the client is
     * gone. `exited` is false when the wakeups ran out first.
     *
     * `taken` counts the turns that did not leave, and `hbs[j]` is the last
     * heartbeat at the top of turn `j`. Every turn taken left the loop
     * running; the loop leaves at turn `taken` exactly when that turn
     * `Leaves`, and otherwise because the session stopped or the wakeups ran out.
     */
    method Run(wakeups: seq<(nat, Wakeup)>) returns (exited: bool, ghost taken: nat, ghost hbs: seq<nat>)
      modifies this`state, this`lastHb, this`written, server.channels
      ensures taken <= |wakeups| && |hbs| == taken + 1
      ensures hbs[0] == old(lastHb) && hbs[taken] == lastHb
      ensures forall j | 0 <= j < taken ::
        !Leaves(hbs[j], wakeups[j].0, wakeups[j].1) && hbs[j + 1] == HbAfter(hbs[j], wakeups[j].0, wakeups[j].1)
      ensures !exited ==> taken == |wakeups| && state != Stop
      ensures exited && state != Stop ==> taken < |wakeups| && Leaves(hbs[taken], wakeups[taken].0, wakeups[taken].1)
      ensures server.channels.immediate == old(server.channels.immediate)
      ensures |server.channels.normal| >= |old(server.channels.normal)|
      ensures server.channels.normal[..|old(server.channels.normal)|] == old(server.channels.normal)
      ensures var sent := server.channels.normal[|old(server.channels.normal)|..];
        Disconnects(sent) == (if exited then 1 else 0)
      ensures exited ==> server.channels.normal[|server.channels.normal| - 1] == Disconnect(id)
    {
      ghost var before := server.channels.normal;
      var i := 0;
      exited := false;
      hbs := [lastHb];
      while i < |wakeups| && !state.Stop?
        invariant 0 <= i <= |wakeups|
        invariant |hbs| == i + 1 && hbs[0] == old(lastHb) && hbs[i] == lastHb
        invariant forall j | 0 <= j < i ::
          !Leaves(hbs[j], wakeups[j].0, wakeups[j].1) && hbs[j + 1] == HbAfter(hbs[j], wakeups[j].0, wakeups[j].1)
        invariant server.channels.immediate == old(server.channels.immediate)
        invariant |server.channels.normal| >= |before| && server.channels.normal[..|before|] == before
        invariant forall k | |before| <= k < |server.channels.normal| :: !server.channels.normal[k].Disconnect?
        decreases |wakeups| - i
      {
        var (now, wakeup) := wakeups[i];
        var leave := Turn(now, wakeup);
        if leave {
          exited := true;
          break;
        }
        hbs := hbs + [lastHb];
        i := i + 1;
      }
      taken := i;
      if state.Stop? {
        exited := true;
      }
      ghost var forwarded := server.channels.normal[|before|..];
      NoNoticeCountsZero(forwarded);
      if exited {
        server.Send(Disconnect(id));
        assert server.channels.normal[|before|..] == forwarded + [Disconnect(id)];
        DisconnectsAppend(forwarded, Disconnect(id));
      }
    }
  }

  /** A sequence holding no disconnect notice counts none. */
  lemma {:induction false} NoNoticeCountsZero(ms: seq<ServerMessage>)
    requires forall k | 0 <= k < |ms| :: !ms[k].Disconnect?
    ensures Disconnects(ms) == 0
  {
    if ms != [] {
      NoNoticeCountsZero(ms[..|ms| - 1]);
    }
  }

  /** Counting notices over one more message. */
  lemma DisconnectsAppend(ms: seq<ServerMessage>, m: ServerMessage)
    ensures Disconnects(ms + [m]) == Disconnects(ms) + (if m.Disconnect? then 1 else 0)
  {
    assert (ms + [m])[..|ms|] == ms;
  }
}
