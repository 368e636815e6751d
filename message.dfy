/**
 * The two closed message enumerations of the wire protocol (client to
 * server and server to client) and the chat message helpers.
 */
module Message {
  import opened Wrappers
  import World

  /** Client -> server. */
  datatype ToServer =
    | Ping
    | Login(login: string)
    | Chat(chat: ChatMessage)
    | Draw(action: World.Draw)
    | RequestRoom(maybeName: Option<string>, request: RoomRequest)
    | ListRoom

  /** Server -> client. */
  datatype ToClient =
    | Chat(chat: ChatMessage)
    | Draw(action: World.Draw)
    | PlayerConnect(player: World.Player)
    | PlayerDisconnect(username: World.Username)
    | Kicked(reason: string)
    | TurnStart(turn: World.Turn)
    | RoomStateChange(state: World.RoomState<World.Game>)
    | JoinRoom(username: World.Username, playerList: seq<World.Player>,
               initialState: World.RoomState<World.Game>)
    | TimeChanged(seconds: U32)

  datatype ChatMessage =
    | System(text: string)
    | User(sender: World.Username, text: string)
  {
    /** `is_system`. */
    predicate IsSystem()
      ensures IsSystem() <==> this == System(text)
    {
      match this
      case System(_) => true
      case User(_, _) => false
    }

    /** `username`: the sender of a user message, nothing for a system message. */
    function Username(): (r: Option<World.Username>)
      ensures r.Some? <==> User?
      ensures r.Some? ==> this == User(r.value, text)
    {
      match this
      case User(u, _) => Some(u)
      case System(_) => None
    }

    /** `inner` and `into_inner`: the text, whichever the variant. */
    function Inner(): (s: string)
      ensures System? ==> this == System(s)
      ensures User? ==> this == User(sender, s)
    {
      match this
      case System(m) => m
      case User(_, m) => m
    }
  }

  datatype RoomRequest = Find | Create | Join(roomKey: string)
}
