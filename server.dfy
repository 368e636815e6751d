/**
 * The server's orchestrator (`GameServer`): the connected users, the game
 * rooms by key, and the routing of session events to rooms.
 */
module Server {
  import opened Wrappers
  import opened World
  import opened Message
  import opened Room

  /** The room every user is pointed at, created with the server. */
  const MAIN_ROOM: string := "main"

  /** Where a user plays: the key of its room and the name it plays under. */
  datatype InGameUser = InGameUser(roomKey: string, name: string)

  /** A connected user; its channel is the outbox entry of its id and its task is not modelled. */
  datatype User = User(game: Option<InGameUser>)

  /** Every player id, all 256 of them. */
  function AllIds(n: nat): (ids: set<PlayerId>)
    requires n <= 256
    ensures forall id: PlayerId :: id in ids <==> id < n
    ensures |ids| == n
  {
    if n == 0 then {} else
      var below := AllIds(n - 1);
      assert (n - 1) !in below;
      below + {n - 1}
  }

  /** Fewer than 256 ids in use leaves one free, so `gen_unique_id` can succeed. */
  lemma FreeIdExists(used: set<PlayerId>)
    requires |used| < 256
    ensures exists id: PlayerId :: id !in used
  {
    var all := AllIds(256);
    if forall id: PlayerId :: id in used {
      SubsetCardinality(all, used);
    }
  }

  lemma {:induction false} SubsetCardinality(a: set<PlayerId>, b: set<PlayerId>)
    requires a <= b
    ensures |a| <= |b|
    decreases a
  {
    if a != {} {
      var x :| x in a;
      SubsetCardinality(a - {x}, b - {x});
    }
  }

  /** A room's `disconnect`, seen from the server: the member is gone and the room stays valid. */
  method LeaveRoom(room: GameRoom, id: PlayerId)
    requires room.Valid()
    modifies room, room.Repr
    ensures room.Valid() && room.Repr == old(room.Repr)
    ensures room.sessions == old(room.sessions) - {id}
  {
    room.Disconnect(id);
  }

  /** A room's `connect`, seen from the server: the newcomer is a member and the room stays valid. */
  method EnterRoom(room: GameRoom, username: Username)
    requires room.Valid() && (room.state.Waiting? ==> |room.gameOpts.customWords| > 0)
    modifies room, room.Repr
    ensures room.Valid() && fresh(room.Repr - old(room.Repr))
    ensures room.sessions == old(room.sessions)[username.id := PlayerFrom(username)]
  {
    room.Connect(username);
  }

  /**
   * A user recorded in a room is in that room's roster, and every roster
   * member is a connected user recorded in that room.
   */
  predicate Agree(users: map<PlayerId, User>, rosters: map<string, set<PlayerId>>) {
    && (forall id | id in users && users[id].game.Some? ::
          users[id].game.value.roomKey in rosters && id in rosters[users[id].game.value.roomKey])
    && (forall k, id | k in rosters && id in rosters[k] ::
          id in users && users[id].game.Some? && users[id].game.value.roomKey == k)
  }

  /** Agreement means no user is on two rosters. */
  lemma AgreeOneRoom(users: map<PlayerId, User>, rosters: map<string, set<PlayerId>>, id: PlayerId, k1: string, k2: string)
    requires Agree(users, rosters)
    requires k1 in rosters && k2 in rosters && id in rosters[k1] && id in rosters[k2]
    ensures k1 == k2
  {
    assert users[id].game.value.roomKey == k1;
  }

  /** The room a user's record names, if any. */
  function Home(users: map<PlayerId, User>, id: PlayerId): (r: Option<string>)
    ensures r.Some? <==> id in users && users[id].game.Some?
    ensures r.Some? ==> r.value == users[id].game.value.roomKey
  {
    if id in users && users[id].game.Some? then Some(users[id].game.value.roomKey) else None
  }

  /** The rosters once `id` has left the room its record names. */
  function AfterLeave(users: map<PlayerId, User>, rosters: map<string, set<PlayerId>>, id: PlayerId): map<string, set<PlayerId>> {
    var home := Home(users, id);
    if home.Some? && home.value in rosters then rosters[home.value := rosters[home.value] - {id}] else rosters
  }

  /** A user leaving the server, and its room, keeps the record and the rosters in agreement. */
  lemma AgreeAfterRemoval(users: map<PlayerId, User>, rosters: map<string, set<PlayerId>>, id: PlayerId)
    requires Agree(users, rosters)
    ensures Agree(users - {id}, AfterLeave(users, rosters, id))
  {
  }

  /** Under agreement a user is on no roster but the one its record names. */
  lemma AgreeNowhereElse(users: map<PlayerId, User>, rosters: map<string, set<PlayerId>>, id: PlayerId)
    requires Agree(users, rosters)
    ensures forall k | k in rosters && Some(k) != Home(users, id) :: id !in rosters[k]
    ensures Home(users, id).Some? ==> Home(users, id).value in rosters && id in rosters[Home(users, id).value]
  {
  }

  /** A user in no room joining the room under `key` keeps the record and the rosters in agreement. */
  lemma AgreeAfterJoin(users: map<PlayerId, User>, rosters: map<string, set<PlayerId>>, id: PlayerId, key: string, name: string)
    requires Agree(users, rosters) && key in rosters
    requires id in users && users[id].game.None?
    ensures Agree(users[id := User.User(Some(InGameUser(key, name)))], rosters[key := rosters[key] + {id}])
  {
  }

  class GameServer {
    /** Connected users by id. */
    var connectedUsers: map<PlayerId, User>
    /** Game rooms by key. */
    var gameRooms: map<string, GameRoom>
    const defaultGameOpts: GameOpts
    /** What the server itself sends users (kicks), per user, in order. */
    var outbox: Outbox
    /** Who is in each room, by room key. */
    ghost var rosters: map<string, set<PlayerId>>
    ghost var Repr: set<object>

    /** Each room is in the footprint with its own, footprints do not overlap, and each room is valid. */
    ghost predicate RoomsValid()
      reads this`gameRooms, this`Repr, Repr
    {
      && this !in Repr
      && (forall k | k in gameRooms :: gameRooms[k] in Repr && gameRooms[k].Repr <= Repr)
      && (forall k | k in gameRooms :: gameRooms[k].Valid())
      && (forall k1, k2 | k1 in gameRooms && k2 in gameRooms && k1 != k2 ::
            gameRooms[k1] != gameRooms[k2] && gameRooms[k1] !in gameRooms[k2].Repr
            && gameRooms[k1].Repr !! gameRooms[k2].Repr)
    }

    /** The ghost record of who is in each room matches the rooms' sessions. */
    ghost predicate RostersMatch()
      reads this`gameRooms, this`rosters, set k | k in gameRooms :: gameRooms[k]
    {
      && rosters.Keys == gameRooms.Keys
      && forall k | k in gameRooms :: rosters[k] == gameRooms[k].sessions.Keys
    }

    /** The users' record of where they play agrees with the rooms' sessions. */
    ghost predicate Membership()
      reads this`connectedUsers, this`gameRooms, this`rosters, set k | k in gameRooms :: gameRooms[k]
    {
      RostersMatch() && Agree(connectedUsers, rosters)
    }

    ghost predicate Valid()
      reads this`connectedUsers, this`gameRooms, this`rosters, this`Repr, Repr
    {
      && RoomsValid()
      && Membership()
      && (forall k | k in gameRooms :: gameRooms[k].gameOpts == defaultGameOpts)
    }

    /** A user is in at most one room. */
    lemma AtMostOneRoom(id: PlayerId, k1: string, k2: string)
      requires Valid()
      requires k1 in gameRooms && k2 in gameRooms
      requires id in gameRooms[k1].sessions && id in gameRooms[k2].sessions
      ensures k1 == k2
    {
      AgreeOneRoom(connectedUsers, rosters, id, k1, k2);
    }

    /** `GameServer::new`: one room, "main", without owner (so Waiting), and no users. */
    constructor (opts: GameOpts)
      ensures Valid() && fresh(Repr)
      ensures connectedUsers == map[] && outbox == map[] && defaultGameOpts == opts
      ensures gameRooms.Keys == {MAIN_ROOM}
      ensures gameRooms[MAIN_ROOM].state == Waiting && gameRooms[MAIN_ROOM].ownerId == None
      ensures gameRooms[MAIN_ROOM].sessions == map[]
    {
      var main := new GameRoom(opts, None);
      connectedUsers := map[];
      gameRooms := map[MAIN_ROOM := main];
      defaultGameOpts := opts;
      outbox := map[];
      rosters := map[MAIN_ROOM := {}];
      Repr := {main} + main.Repr;
    }

    /** `gen_unique_id`: an id no connected user has; one exists while fewer than 256 are taken. */
    method GenUniqueId() returns (id: PlayerId)
      requires |connectedUsers| < 256
      ensures id !in connectedUsers
    {
      FreeIdExists(connectedUsers.Keys);
      id :| id !in connectedUsers;
    }

    /** The bookkeeping of `on_client_connect`: a fresh id for a user in no room. */
    method OnClientConnect() returns (id: PlayerId)
      requires Valid() && |connectedUsers| < 256
      modifies this
      ensures Valid() && Repr == old(Repr)
      ensures id !in old(connectedUsers)
      ensures connectedUsers == old(connectedUsers)[id := User.User(None)]
      ensures gameRooms == old(gameRooms) && outbox == old(outbox)
    {
      id := GenUniqueId();
      connectedUsers := connectedUsers[id := User.User(None)];
    }

    /** The room under `key` runs its `disconnect(id)`; the other rooms are untouched. */
    method LeaveRoomOf(key: string, id: PlayerId)
      requires RoomsValid() && RostersMatch() && key in gameRooms
      modifies this`rosters, gameRooms[key], gameRooms[key].Repr
      ensures RoomsValid() && RostersMatch()
      ensures rosters == old(rosters)[key := old(rosters)[key] - {id}]
      ensures gameRooms[key].sessions == old(gameRooms[key].sessions) - {id}
      ensures forall k | k in gameRooms && k != key :: unchanged(gameRooms[k])
    {
      var room := gameRooms[key];
      rosters := rosters[key := rosters[key] - {id}];
      LeaveRoom(room, id);
      forall k | k in gameRooms && k != key
        ensures unchanged(gameRooms[k]) && unchanged(gameRooms[k].Repr)
        ensures gameRooms[k].Valid()
      {
        assert gameRooms[k] != room && gameRooms[k] !in room.Repr;
        assert gameRooms[k].Repr !! room.Repr;
      }
    }

    /** A user in the room under `key` leaves it and the server's record. */
    method DropMember(id: PlayerId, key: string)
      requires RoomsValid() && RostersMatch() && key in gameRooms
      modifies this`connectedUsers, this`rosters, gameRooms[key], gameRooms[key].Repr
      ensures RoomsValid() && RostersMatch()
      ensures rosters == old(rosters)[key := old(rosters)[key] - {id}]
      ensures connectedUsers == old(connectedUsers) - {id}
      ensures gameRooms[key].sessions == old(gameRooms[key].sessions) - {id}
      ensures forall k | k in gameRooms && k != key :: unchanged(gameRooms[k])
    {
      connectedUsers := connectedUsers - {id};
      LeaveRoomOf(key, id);
    }

    /**
     * The state changes of `on_client_disconnect`: the user's record goes and
     * the room it names runs `disconnect`.
     */
    method ForgetUser(id: PlayerId)
      requires RoomsValid() && RostersMatch()
      requires Home(connectedUsers, id).Some? ==> Home(connectedUsers, id).value in gameRooms
      modifies this`connectedUsers, this`rosters, Repr
      ensures RoomsValid() && RostersMatch() && gameRooms == old(gameRooms) && Repr == old(Repr) && outbox == old(outbox)
      ensures rosters == AfterLeave(old(connectedUsers), old(rosters), id)
      ensures connectedUsers == old(connectedUsers) - {id}
      ensures Home(old(connectedUsers), id).Some? ==>
        var key := Home(old(connectedUsers), id).value;
        gameRooms[key].sessions == old(gameRooms[key].sessions) - {id}
      ensures forall k | k in gameRooms && Some(k) != Home(old(connectedUsers), id) :: unchanged(gameRooms[k])
    {
      if id in connectedUsers {
        var user := connectedUsers[id];
        if user.game.Some? {
          DropMember(id, user.game.value.roomKey);
        } else {
          connectedUsers := connectedUsers - {id};
        }
      }
    }

    /**
     * `on_client_disconnect`: an unknown id changes nothing; otherwise the
     * user is removed and leaves the room its record names, the only room
     * that changes and the only one it was in.
     */
    method OnClientDisconnect(id: PlayerId)
      requires Valid()
      modifies this, Repr
      ensures Valid() && Repr == old(Repr)
      ensures gameRooms == old(gameRooms) && outbox == old(outbox)
      ensures connectedUsers == old(connectedUsers) - {id}
      ensures Home(old(connectedUsers), id).Some? ==>
        var key := Home(old(connectedUsers), id).value;
        key in gameRooms && id in old(gameRooms[key].sessions) && gameRooms[key].sessions == old(gameRooms[key].sessions) - {id}
      ensures forall k | k in gameRooms && Some(k) != Home(old(connectedUsers), id) ::
        id !in old(gameRooms[k].sessions) && unchanged(gameRooms[k])
    {
      AgreeAfterRemoval(connectedUsers, rosters, id);
      AgreeNowhereElse(connectedUsers, rosters, id);
      ForgetUser(id);
    }

    /**
     * `kick_user`: a connected user is sent `Kicked(reason)` and then
     * disconnected (`on_client_disconnect`); an unknown id changes nothing.
     */
    method KickUser(id: PlayerId, reason: string)
      requires Valid()
      modifies this, Repr
      ensures Valid() && Repr == old(Repr) && gameRooms == old(gameRooms)
      ensures id !in old(connectedUsers) ==> unchanged(this) && unchanged(Repr)
      ensures id in old(connectedUsers) ==>
        && connectedUsers == old(connectedUsers) - {id}
        && outbox == Post(old(outbox), {id}, Kicked(reason))
      ensures Home(old(connectedUsers), id).Some? ==>
        var key := Home(old(connectedUsers), id).value;
        key in gameRooms && gameRooms[key].sessions == old(gameRooms[key].sessions) - {id}
      ensures forall k | k in gameRooms && Some(k) != Home(old(connectedUsers), id) :: unchanged(gameRooms[k])
    {
      if id in connectedUsers {
        outbox := Post(outbox, {id}, Kicked(reason));
        OnClientDisconnect(id);
      }
    }

    /**
     * A chat line or a drawing action handed to the room under `key`: a
     * chat runs the room's `on_chat_msg` on the message's text, a drawing
     * action its `on_paint_msg` for the sender's id. The room keeps its
     * members and no other room changes.
     */
    method ForwardToRoom(key: string, from: Username, msg: ToServer, now: U64)
      requires RoomsValid() && key in gameRooms && (msg.Chat? || msg.Draw?)
      requires gameRooms[key].state.Playing? ==> from.id in gameRooms[key].sessions
      modifies gameRooms[key], gameRooms[key].Repr
      ensures RoomsValid()
      ensures msg.Chat? ==> gameRooms[key].ChatHandled(from, msg.chat.Inner(), now)
      ensures msg.Draw? ==> gameRooms[key].PaintHandled(from.id, msg.action)
      ensures gameRooms[key].sessions.Keys == old(gameRooms[key].sessions.Keys)
      ensures forall k | k in gameRooms && k != key :: unchanged(gameRooms[k]) && unchanged(gameRooms[k].Repr)
    {
      var room := gameRooms[key];
      if msg.Chat? {
        room.OnChatMsg(from, msg.chat.Inner(), now);
      } else {
        room.OnPaintMsg(from.id, msg.action);
      }
      forall k | k in gameRooms && k != key
        ensures unchanged(gameRooms[k]) && unchanged(gameRooms[k].Repr)
        ensures gameRooms[k].Valid()
      {
        assert gameRooms[k] != room && gameRooms[k] !in room.Repr;
        assert gameRooms[k].Repr !! room.Repr;
      }
    }

    /**
     * `on_user_game_msg`: a message from a user in no room is ignored; in
     * a room, a chat runs that room's `on_chat_msg` on its text, a drawing
     * action its `on_paint_msg` for the sender's id, and any other message
     * gets the user kicked.
     */
    method OnUserGameMsg(from: Username, msg: ToServer, now: U64)
      requires Valid()
      modifies this, Repr
      ensures Valid() && Repr == old(Repr) && gameRooms == old(gameRooms)
      ensures Home(old(connectedUsers), from.id).None? ==> unchanged(this) && unchanged(Repr)
      ensures Home(old(connectedUsers), from.id).Some? && (msg.Chat? || msg.Draw?) ==>
        var key := Home(old(connectedUsers), from.id).value;
        && connectedUsers == old(connectedUsers) && outbox == old(outbox)
        && (msg.Chat? ==> gameRooms[key].ChatHandled(from, msg.chat.Inner(), now))
        && (msg.Draw? ==> gameRooms[key].PaintHandled(from.id, msg.action))
        && gameRooms[key].sessions.Keys == old(gameRooms[key].sessions.Keys)
        && (forall k | k in gameRooms && k != key :: unchanged(gameRooms[k]) && unchanged(gameRooms[k].Repr))
      ensures Home(old(connectedUsers), from.id).Some? && !(msg.Chat? || msg.Draw?) ==>
        var key := Home(old(connectedUsers), from.id).value;
        && connectedUsers == old(connectedUsers) - {from.id}
        && outbox == Post(old(outbox), {from.id}, Kicked("You are being naughty, got a unexpected message."))
        && gameRooms[key].sessions == old(gameRooms[key].sessions) - {from.id}
        && (forall k | k in gameRooms && k != key :: unchanged(gameRooms[k]))
    {
      var home := Home(connectedUsers, from.id);
      if home.None? {
        return;
      }
      var key := home.value;
      AgreeNowhereElse(connectedUsers, rosters, from.id);
      if key in gameRooms {
        if msg.Chat? || msg.Draw? {
          ForwardToRoom(key, from, msg, now);
          return;
        }
        KickUser(from.id, "You are being naughty, got a unexpected message.");
      }
    }

    /** The room under `key` runs its `connect`; its new objects join the footprint and no other room changes. */
    method ConnectAt(key: string, username: Username)
      requires RoomsValid() && key in gameRooms
      requires gameRooms[key].state.Waiting? ==> |gameRooms[key].gameOpts.customWords| > 0
      modifies this`Repr, gameRooms[key], gameRooms[key].Repr
      ensures RoomsValid() && fresh(Repr - old(Repr))
      ensures gameRooms[key].sessions == old(gameRooms[key].sessions)[username.id := PlayerFrom(username)]
      ensures forall k | k in gameRooms && k != key :: unchanged(gameRooms[k]) && unchanged(gameRooms[k].Repr)
    {
      var room := gameRooms[key];
      EnterRoom(room, username);
      Repr := Repr + room.Repr;
      forall k | k in gameRooms && k != key
        ensures unchanged(gameRooms[k]) && unchanged(gameRooms[k].Repr)
        ensures gameRooms[k].Valid()
        ensures gameRooms[k] !in room.Repr && gameRooms[k].Repr !! room.Repr
      {
        assert gameRooms[k] != room && gameRooms[k] !in old(room.Repr);
        assert gameRooms[k].Repr !! old(room.Repr);
      }
    }

    /** `ConnectAt`, with the ghost rosters following the room's sessions. */
    method JoinRoomOf(key: string, username: Username)
      requires RoomsValid() && RostersMatch() && key in gameRooms
      requires gameRooms[key].state.Waiting? ==> |gameRooms[key].gameOpts.customWords| > 0
      modifies this`Repr, this`rosters, gameRooms[key], gameRooms[key].Repr
      ensures RoomsValid() && fresh(Repr - old(Repr))
      ensures RostersMatch() && rosters == old(rosters)[key := old(rosters)[key] + {username.id}]
      ensures gameRooms[key].sessions == old(gameRooms[key].sessions)[username.id := PlayerFrom(username)]
      ensures forall k | k in gameRooms && k != key :: unchanged(gameRooms[k]) && unchanged(gameRooms[k].Repr)
    {
      rosters := rosters[key := rosters[key] + {username.id}];
      ConnectAt(key, username);
      assert gameRooms[key].sessions.Keys == old(gameRooms[key].sessions).Keys + {username.id};
    }

    /** `kick_user` of a user in no room: no room changes. */
    method KickIdle(id: PlayerId, reason: string)
      requires Valid() && id in connectedUsers && connectedUsers[id].game.None?
      modifies this, Repr
      ensures Valid() && Repr == old(Repr) && gameRooms == old(gameRooms)
      ensures connectedUsers == old(connectedUsers) - {id}
      ensures outbox == Post(old(outbox), {id}, Kicked(reason))
      ensures forall k | k in gameRooms :: unchanged(gameRooms[k])
    {
      AgreeNowhereElse(connectedUsers, rosters, id);
      KickUser(id, reason);
    }

    /** The joining half of `on_room_request`: the room under `key` connects the user and the record follows. */
    method Enter(key: string, username: Username)
      requires Valid() && |defaultGameOpts.customWords| > 0 && key in gameRooms
      requires username.id in connectedUsers && connectedUsers[username.id].game.None?
      modifies this`connectedUsers, this`rosters, this`Repr, Repr
      ensures Valid() && fresh(Repr - old(Repr)) && gameRooms == old(gameRooms) && outbox == old(outbox)
      ensures connectedUsers == old(connectedUsers)[username.id := User.User(Some(InGameUser(key, username.name)))]
      ensures gameRooms[key].sessions == old(gameRooms[key].sessions)[username.id := PlayerFrom(username)]
      ensures forall k | k in gameRooms && k != key :: unchanged(gameRooms[k]) && unchanged(gameRooms[k].Repr)
    {
      var id := username.id;
      AgreeAfterJoin(connectedUsers, rosters, id, key, username.name);
      connectedUsers := connectedUsers[id := User.User(Some(InGameUser(key, username.name)))];
      JoinRoomOf(key, username);
    }

    /**
     * `on_room_request`: an unknown user changes nothing. A user already in
     * a room, a request other than Join, or a Join of a key with no room
     * gets the user kicked; otherwise the user joins that room under its
     * name and the user's record says so.
     */
    method OnRoomRequest(username: Username, action: RoomRequest)
      requires Valid() && |defaultGameOpts.customWords| > 0
      modifies this, Repr
      ensures Valid() && fresh(Repr - old(Repr)) && gameRooms == old(gameRooms)
      ensures username.id !in old(connectedUsers) ==> unchanged(this) && unchanged(old(Repr))
      ensures username.id in old(connectedUsers) && old(connectedUsers)[username.id].game.Some? ==>
        var key := old(connectedUsers)[username.id].game.value.roomKey;
        && connectedUsers == old(connectedUsers) - {username.id}
        && outbox == Post(old(outbox), {username.id}, Kicked("You are not allowed to join multiple game rooms."))
        && key in gameRooms && gameRooms[key].sessions == old(gameRooms[key].sessions) - {username.id}
        && (forall k | k in gameRooms && k != key :: unchanged(gameRooms[k]))
      ensures username.id in old(connectedUsers) && old(connectedUsers)[username.id].game.None? ==>
        if action.Join? && action.roomKey in gameRooms then
          && connectedUsers == old(connectedUsers)[username.id := User.User(Some(InGameUser(action.roomKey, username.name)))]
          && outbox == old(outbox)
          && gameRooms[action.roomKey].sessions == old(gameRooms[action.roomKey].sessions)[username.id := PlayerFrom(username)]
          && (forall k | k in gameRooms && k != action.roomKey :: unchanged(gameRooms[k]) && unchanged(gameRooms[k].Repr))
        else
          && connectedUsers == old(connectedUsers) - {username.id}
          && outbox == Post(old(outbox), {username.id}, Kicked(if action.Join? then "RoomNotFound" else "Unimplemented feature"))
          && (forall k | k in gameRooms :: unchanged(gameRooms[k]))
    {
      var id := username.id;
      if id !in connectedUsers {
        return;
      }
      var user := connectedUsers[id];
      if user.game.Some? {
        KickUser(id, "You are not allowed to join multiple game rooms.");
        return;
      }
      if !action.Join? {
        KickIdle(id, "Unimplemented feature");
        return;
      }
      var key := action.roomKey;
      if key !in gameRooms {
        KickIdle(id, "RoomNotFound");
        return;
      }
      Enter(key, username);
    }
  }
}
