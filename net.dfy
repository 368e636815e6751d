/**
 * The client's view of its connection to a server (`AppServer`): the
 * session once connected, the status shown to the user, and the handle on
 * a connection attempt still under way.
 */
module Net {
  import opened Wrappers
  import opened Message
  import opened Events

  datatype ConnectionStatus = NotConnected | Connecting | Connected | NotFound | Dropped | TimedOut

  /** `ConnectionStatus::default`. */
  function DefaultStatus(): (s: ConnectionStatus)
    ensures s == NotConnected
  {
    NotConnected
  }

  /** A handle on the task making a connection attempt; the task itself is not modelled. */
  datatype JoinHandle = JoinHandle(task: nat)

  /** An established connection: the server's address and the sender feeding its writer task. */
  class ServerSession {
    const serverAddr: string
    const sender: EventSender<ToServer>

    constructor (serverAddr: string, sender: EventSender<ToServer>)
      ensures this.serverAddr == serverAddr && this.sender == sender
    {
      this.serverAddr := serverAddr;
      this.sender := sender;
    }

    /** `send_server_msg`: queue the message for the writer task. */
    method SendServerMsg(message: ToServer)
      modifies sender.channels
      ensures sender.channels.Contents() == Deliver(old(sender.channels.Contents()), Normal, message)
    {
      sender.Send(message);
    }
  }

  class AppServer {
    var session: Option<ServerSession>
    var connectionStatus: ConnectionStatus
    var connectionAttemptHandle: Option<JoinHandle>

    /** `AppServer::default`: not connected, no session, no attempt under way. */
    constructor ()
      ensures connectionStatus == NotConnected && session == None && connectionAttemptHandle == None
      ensures !IsConnected() && Status() == NotConnected
    {
      session := None;
      connectionStatus := DefaultStatus();
      connectionAttemptHandle := None;
    }

    /** `is_connected`: a session is held and the stored status says so. */
    predicate IsConnected()
      reads this
    {
      session.Some? && connectionStatus.Connected?
    }

    /** `connection_status`: Connecting while an attempt is under way, else the stored status. */
    function Status(): ConnectionStatus
      reads this
    {
      if connectionAttemptHandle.Some? then Connecting else connectionStatus
    }

    /** `addr`: the address of the server of the current session, if any. */
    function Addr(): (a: Option<string>)
      reads this
      ensures a.Some? <==> session.Some?
      ensures a.Some? ==> a.value == session.value.serverAddr
    {
      match session
      case Some(s) => Some(s.serverAddr)
      case None => None
    }

    /** `send_message`: through the session when there is one; without one the message is dropped. */
    method SendMessage(message: ToServer)
      modifies if session.Some? then {session.value.sender.channels} else {}
      ensures session.Some? ==>
        session.value.sender.channels.Contents() == Deliver(old(session.value.sender.channels.Contents()), Normal, message)
    {
      if session.Some? {
        session.value.SendServerMsg(message);
      }
    }

    /** `disconnect`: back to NotConnected, dropping the session and any attempt. */
    method Disconnect()
      modifies this
      ensures connectionStatus == NotConnected && connectionAttemptHandle == None && session == None
      ensures !IsConnected() && Status() == NotConnected
    {
      connectionStatus := NotConnected;
      connectionAttemptHandle := None;
      session := None;
    }

    /**
     * `set_status`: the stored status becomes `status`; any status other
     * than Connected first disconnects, so no session survives it.
     */
    method SetStatus(status: ConnectionStatus)
      modifies this
      ensures connectionStatus == status
      ensures !status.Connected? ==> session == None && connectionAttemptHandle == None && Status() == status
      ensures !status.Connected? ==> !IsConnected()
      ensures status.Connected? ==> session == old(session) && connectionAttemptHandle == old(connectionAttemptHandle)
      ensures status.Connected? ==> IsConnected() == old(session).Some?
    {
      if !status.Connected? {
        Disconnect();
      }
      connectionStatus := status;
    }

    /**
     * `set_session`: connected through `s`, and the attempt handle is taken
     * and awaited. Whether awaiting the attempt task fails is `joinFails`;
     * its failure is the only error, and it comes after the session is set.
     */
    method SetSession(s: ServerSession, joinFails: bool) returns (r: Result<(), string>)
      modifies this
      ensures connectionStatus == Connected && session == Some(s) && connectionAttemptHandle == None
      ensures IsConnected() && Status() == Connected
      ensures r.Err? <==> old(connectionAttemptHandle).Some? && joinFails
    {
      connectionStatus := Connected;
      session := Some(s);
      var handle := connectionAttemptHandle;
      connectionAttemptHandle := None;
      if handle.Some? && joinFails {
        return Err("the connection attempt task failed");
      }
      return Ok(());
    }
  }
}
