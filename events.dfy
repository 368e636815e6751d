/**
 * The per-actor mailbox: two unbounded FIFO channels (immediate and
 * normal) read immediate-first, and a clonable sending half.
 */
module Events {
  import opened Wrappers

  /** The pending messages of both channels, oldest first. */
  datatype Mailbox<E> = Mailbox(normal: seq<E>, immediate: seq<E>)

  /** How a message was handed to `EventSender`. */
  datatype SendKind = Normal | Immediate

  /**
   * What a send does to the mailbox. `send_immediate` writes to the normal
   * channel, exactly like `send`: the immediate channel is never fed by a sender.
   */
  function Deliver<E>(m: Mailbox<E>, kind: SendKind, v: E): (r: Mailbox<E>)
    ensures r.normal == m.normal + [v] && r.immediate == m.immediate
  {
    match kind
    case Normal => m.(normal := m.normal + [v])
    case Immediate => m.(normal := m.normal + [v])
  }

  /**
   * `try_recv`: the oldest message of the immediate channel if there is one,
   * else the oldest normal message, else nothing.
   */
  function TakeNext<E>(m: Mailbox<E>): (r: (Option<E>, Mailbox<E>))
    ensures r.0.None? <==> m.immediate == [] && m.normal == []
    ensures r.0.None? ==> r.1 == m
    ensures r.0.Some? ==> m.immediate + m.normal == [r.0.value] + r.1.immediate + r.1.normal
    ensures m.immediate != [] ==> r.0 == Some(m.immediate[0]) && r.1.normal == m.normal
    ensures m.immediate == [] ==> r.1.immediate == []
  {
    if m.immediate != [] then (Some(m.immediate[0]), m.(immediate := m.immediate[1..]))
    else if m.normal != [] then (Some(m.normal[0]), m.(normal := m.normal[1..]))
    else (None, m)
  }

  /** The mailbox after a series of sends. */
  function DeliverAll<E>(m: Mailbox<E>, sends: seq<(SendKind, E)>): Mailbox<E>
    decreases |sends|
  {
    if sends == [] then m
    else DeliverAll(Deliver(m, sends[0].0, sends[0].1), sends[1..])
  }

  /** The messages `n` successive `try_recv` calls return (stopping at the first empty read). */
  function Drain<E>(m: Mailbox<E>, n: nat): seq<E>
    decreases n
  {
    if n == 0 then []
    else
      var (x, m') := TakeNext(m);
      match x
      case None => []
      case Some(v) => [v] + Drain(m', n - 1)
  }

  function Values<E>(sends: seq<(SendKind, E)>): (vs: seq<E>)
    ensures |vs| == |sends|
    ensures forall i :: 0 <= i < |sends| ==> vs[i] == sends[i].1
  {
    if sends == [] then [] else [sends[0].1] + Values(sends[1..])
  }

  lemma {:induction false} DeliverAllAppends<E>(m: Mailbox<E>, sends: seq<(SendKind, E)>)
    ensures DeliverAll(m, sends) == Mailbox(m.normal + Values(sends), m.immediate)
    decreases |sends|
  {
    if sends != [] {
      DeliverAllAppends(Deliver(m, sends[0].0, sends[0].1), sends[1..]);
      assert m.normal + [sends[0].1] + Values(sends[1..]) == m.normal + Values(sends);
    }
  }

  lemma {:induction false} DrainNormal<E>(q: seq<E>)
    ensures Drain(Mailbox(q, []), |q|) == q
  {
    if q != [] {
      DrainNormal(q[1..]);
    }
  }

  /**
   * Messages handed to `send` and `send_immediate`, in any mix, come out of
   * `try_recv` in the order they were sent.
   */
  lemma ReceivedInSendOrder<E>(sends: seq<(SendKind, E)>)
    ensures Drain(DeliverAll(Mailbox([], []), sends), |sends|) == Values(sends)
  {
    DeliverAllAppends(Mailbox([], []), sends);
    DrainNormal(Values(sends));
  }

  /** An "immediate" message sent after a normal one does not overtake it. */
  lemma SendImmediateDoesNotOvertake<E>(a: E, b: E)
    ensures TakeNext(Deliver(Deliver(Mailbox([], []), Normal, a), Immediate, b)).0 == Some(a)
  {
  }

  /** The underlying channels, shared by the queue and every clone of its sender. */
  class Channels<E> {
    var normal: seq<E>
    var immediate: seq<E>

    constructor ()
      ensures normal == [] && immediate == []
    {
      normal, immediate := [], [];
    }

    function Contents(): Mailbox<E>
      reads this
    {
      Mailbox(normal, immediate)
    }
  }

  /** The sending half of an `EventQueue`. */
  class EventSender<E> {
    const channels: Channels<E>

    constructor (channels: Channels<E>)
      ensures this.channels == channels
    {
      this.channels := channels;
    }

    /** `send`: append to the back of the normal channel. */
    method Send(value: E)
      modifies channels
      ensures channels.Contents() == Deliver(old(channels.Contents()), Normal, value)
    {
      channels.normal := channels.normal + [value];
    }

    /** `send_immediate`: as written, also the normal channel. */
    method SendImmediate(value: E)
      modifies channels
      ensures channels.Contents() == Deliver(old(channels.Contents()), Immediate, value)
    {
      channels.normal := channels.normal + [value];
    }

    /** `clone`: a new handle on the same channels. */
    method Clone() returns (s: EventSender<E>)
      ensures fresh(s) && s.channels == channels
    {
      s := new EventSender(channels);
    }
  }

  /** The receiving end, owned by one control loop. */
  class EventQueue<E> {
    const sender: EventSender<E>
    const channels: Channels<E>

    ghost predicate Valid()
      reads this
    {
      sender.channels == channels
    }

    /** `EventQueue::default`: fresh, empty channels and a sender writing to them. */
    constructor ()
      ensures Valid() && fresh(channels) && fresh(sender)
      ensures channels.Contents() == Mailbox([], [])
    {
      var c := new Channels();
      channels := c;
      sender := new EventSender(c);
    }

    /** `try_recv`. */
    method TryRecv() returns (r: Option<E>)
      modifies channels
      ensures (r, channels.Contents()) == TakeNext(old(channels.Contents()))
    {
      if channels.immediate != [] {
        r := Some(channels.immediate[0]);
        channels.immediate := channels.immediate[1..];
      } else if channels.normal != [] {
        r := Some(channels.normal[0]);
        channels.normal := channels.normal[1..];
      } else {
        r := None;
      }
    }

    /**
     * `recv`: the immediate channel first when it is not empty, otherwise
     * whichever channel has a message; `None` stands for "would block".
     */
    method Recv() returns (r: Option<E>)
      modifies channels
      ensures old(channels.immediate) != [] ==> r == Some(old(channels.immediate)[0])
      ensures (r, channels.Contents()) == TakeNext(old(channels.Contents()))
    {
      if channels.immediate != [] {
        r := Some(channels.immediate[0]);
        channels.immediate := channels.immediate[1..];
        return;
      }
      if channels.normal != [] {
        r := Some(channels.normal[0]);
        channels.normal := channels.normal[1..];
      } else {
        r := None;
      }
    }
  }
}
