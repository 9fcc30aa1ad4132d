/** A session handle: its closed flag, its bounded outbound queue and its activity clock. */
module Sessions {
  import opened Identity
  import opened Protocol
  import opened Clock

  datatype SendResult = Sent | Full | Disconnected

  datatype EnqueueResult = Accepted | QueueFull | SessionClosed

  /** The mutable state of a session. The queue is a bounded FIFO shared with the receiver. */
  datatype SessionState = SessionState(
    closed: bool,
    queue: seq<Frame>,
    capacity: nat,
    receiving: bool,
    lastActive: int,
    lastHeartbeat: int,
    clientHeartbeat: int)

  // ---------------------------------------------------------------- atomic accesses

  function SendOutcome(st: SessionState): SendResult {
    if !st.receiving then Disconnected
    else if |st.queue| >= st.capacity then Full
    else Sent
  }

  /** `try_send`: the frame goes in only when the receiver is alive and there is room. */
  function TrySend(st: SessionState, frame: Frame): SessionState {
    if SendOutcome(st) == Sent then st.(queue := st.queue + [frame]) else st
  }

  function SetClosed(st: SessionState): SessionState {
    st.(closed := true)
  }

  // ---------------------------------------------------------------- whole operations

  /** The first closer raises the flag and tries to send a close frame. */
  function Closed(st: SessionState, reason: seq<Byte>): SessionState {
    if st.closed then st else TrySend(SetClosed(st), Closing(reason))
  }

  function EnqueueOutcome(st: SessionState): EnqueueResult {
    if st.closed then SessionClosed
    else match SendOutcome(st)
         case Sent => Accepted
         case Full => QueueFull
         case Disconnected => SessionClosed
  }

  /** A session takes the frame exactly when it is open, has a receiver and has room. */
  predicate Takes(st: SessionState) {
    !st.closed && st.receiving && |st.queue| < st.capacity
  }

  function Enqueued(st: SessionState, frame: Frame): SessionState {
    if st.closed then st
    else match SendOutcome(st)
         case Sent => TrySend(st, frame)
         case Full => Closed(st, QUEUE_FULL)
         case Disconnected => Closed(st, RECEIVER_CLOSED)
  }

  function Active(st: SessionState, now: nat): SessionState {
    st.(lastActive := Millis(now))
  }

  function HeartBeaten(st: SessionState, client: Option<int>, now: nat): SessionState {
    st.(lastActive := Millis(now), lastHeartbeat := Millis(now),
        clientHeartbeat := match client case Some(t) => t case None => st.clientHeartbeat)
  }

  /** What an enqueue does, said without its branches: acceptance appends exactly the frame;
      anything else leaves the queue alone and leaves the session closed. */
  lemma EnqueueMeaning(st: SessionState, frame: Frame)
    ensures Takes(st) <==> !st.closed && st.receiving && |st.queue| < st.capacity
    ensures EnqueueOutcome(st) == Accepted <==> Takes(st)
    ensures Takes(st) ==> Enqueued(st, frame) == st.(queue := st.queue + [frame])
    ensures !Takes(st) ==> Enqueued(st, frame) == st.(closed := true)
    ensures EnqueueOutcome(st) == QueueFull <==> !st.closed && st.receiving && |st.queue| >= st.capacity
  {
  }

  class Session {
    const id: SessionId
    const node: NodeId
    const identity: Identity
    const connectedAt: nat
    const capacity: nat
    var queue: seq<Frame>
    var receiving: bool
    var lastActive: int
    var lastHeartbeat: int
    var clientHeartbeat: int
    var closed: bool

    ghost function State(): SessionState
      reads this
    {
      SessionState(closed, queue, capacity, receiving, lastActive, lastHeartbeat, clientHeartbeat)
    }

    /** A zero capacity never reaches the channel: the normalised configuration excludes it. */
    constructor (id: SessionId, node: NodeId, identity: Identity, capacity: nat, now: nat)
      requires capacity > 0
      ensures this.id == id && this.node == node && this.identity == identity
      ensures State() == SessionState(false, [], capacity, true, Millis(now), 0, 0)
    {
      this.id, this.node, this.identity, this.connectedAt := id, node, identity, now;
      this.capacity, queue, receiving := capacity, [], true;
      lastActive, lastHeartbeat, clientHeartbeat, closed := Millis(now), 0, 0, false;
    }

    method MarkActive(now: nat)
      modifies this
      ensures State() == Active(old(State()), now) && lastActive == now / 1_000_000
      ensures State() == old(State()).(lastActive := lastActive)
    {
      lastActive := Millis(now);
    }

    method MarkHeartbeat(client: Option<int>, now: nat)
      modifies this
      ensures State() == HeartBeaten(old(State()), client, now)
      ensures lastActive == now / 1_000_000 && lastHeartbeat == now / 1_000_000
      ensures clientHeartbeat == if client.Some? then client.value else old(clientHeartbeat)
      ensures closed == old(closed) && queue == old(queue) && receiving == old(receiving)
    {
      lastActive := Millis(now);
      lastHeartbeat := Millis(now);
      match client {
        case Some(t) => clientHeartbeat := t;
        case None =>
      }
    }

    /** The sending end of the bounded channel. */
    method Send(frame: Frame) returns (r: SendResult)
      modifies this`queue
      ensures r == SendOutcome(old(State())) && State() == TrySend(old(State()), frame)
    {
      if !receiving {
        return Disconnected;
      }
      if |queue| >= capacity {
        return Full;
      }
      queue := queue + [frame];
      return Sent;
    }

    method Enqueue(frame: Frame) returns (r: EnqueueResult)
      modifies this
      ensures r == EnqueueOutcome(old(State())) && State() == Enqueued(old(State()), frame)
      ensures r == Accepted <==> !old(closed) && old(receiving) && |old(queue)| < capacity
      ensures queue == if r == Accepted then old(queue) + [frame] else old(queue)
      ensures closed == (old(closed) || r != Accepted)
    {
      if closed {
        return SessionClosed;
      }
      var sent := Send(frame);
      match sent {
        case Sent =>
          r := Accepted;
        case Full =>
          Close(QUEUE_FULL);
          r := QueueFull;
        case Disconnected =>
          Close(RECEIVER_CLOSED);
          r := SessionClosed;
      }
    }

    method Close(reason: seq<Byte>)
      modifies this
      ensures State() == Closed(old(State()), reason) && closed
      ensures queue == if !old(closed) && old(receiving) && |old(queue)| < capacity
                       then old(queue) + [Frame(CloseFrame, reason)] else old(queue)
    {
      var already := closed;
      closed := true;
      if !already {
        var _ := Send(Closing(reason));
      }
    }

    /** The receiving end of the channel. */
    method Receive() returns (frame: Option<Frame>)
      modifies this`queue
      ensures old(queue) == [] ==> frame == None && queue == []
      ensures old(queue) != [] ==> frame == Some(old(queue)[0]) && queue == old(queue)[1..]
    {
      if queue == [] {
        return None;
      }
      frame, queue := Some(queue[0]), queue[1..];
    }

    method DropReceiver()
      modifies this`receiving
      ensures State() == old(State()).(receiving := false)
    {
      receiving := false;
    }
  }

  // ---------------------------------------------------------------- runs of whole operations

  datatype Op =
    | Enqueue(frame: Frame)
    | Close(reason: seq<Byte>)
    | Receive
    | DropReceiver

  /** A session with everything its receiver has read, and the position at which `close` put
      its close frame in the stream of accepted frames. */
  datatype Line = Line(st: SessionState, received: seq<Frame>, closeAt: Option<nat>)

  function Stream(line: Line): seq<Frame> {
    line.received + line.st.queue
  }

  /** Whether closing this session now emits a close frame. */
  predicate Emits(st: SessionState) {
    !st.closed && SendOutcome(st) == Sent
  }

  function Performed(line: Line, op: Op): Line {
    match op
    case Enqueue(frame) => line.(st := Enqueued(line.st, frame))
    case Close(reason) =>
      line.(st := Closed(line.st, reason),
            closeAt := if Emits(line.st) then Some(|Stream(line)|) else line.closeAt)
    case Receive =>
      if line.st.queue == [] || !line.st.receiving then line
      else line.(st := line.st.(queue := line.st.queue[1..]),
                 received := line.received + [line.st.queue[0]])
    case DropReceiver => line.(st := line.st.(receiving := false))
  }

  function After(line: Line, ops: seq<Op>): Line
    decreases |ops|
  {
    if ops == [] then line else After(Performed(line, ops[0]), ops[1..])
  }

  /** The emitted close frame, if any, is the last accepted frame of a closed session. */
  predicate CloseIsLast(line: Line) {
    match line.closeAt
    case None => true
    case Some(k) => line.st.closed && k + 1 == |Stream(line)| && Stream(line)[k].kind == CloseFrame
  }

  lemma StepKeepsClose(line: Line, op: Op)
    requires CloseIsLast(line) && |line.st.queue| <= line.st.capacity
    ensures CloseIsLast(Performed(line, op))
    ensures |Performed(line, op).st.queue| <= Performed(line, op).st.capacity
    ensures line.st.closed ==> Performed(line, op).st.closed && Stream(Performed(line, op)) == Stream(line)
    ensures line.closeAt.Some? ==> Performed(line, op).closeAt == line.closeAt
  {
    if op.Receive? && line.st.queue != [] {
      assert [line.st.queue[0]] + line.st.queue[1..] == line.st.queue;
      assert (line.received + [line.st.queue[0]]) + line.st.queue[1..] == Stream(line);
    }
  }

  /** Whatever happens after `close` emitted its frame, that frame stays the last one accepted,
      so nothing follows it at the receiver. */
  lemma {:induction false} CloseIsFinal(line: Line, ops: seq<Op>)
    requires CloseIsLast(line) && |line.st.queue| <= line.st.capacity
    ensures CloseIsLast(After(line, ops))
    ensures line.st.closed ==> After(line, ops).st.closed && Stream(After(line, ops)) == Stream(line)
    ensures line.closeAt.Some? ==> After(line, ops).closeAt == line.closeAt
    decreases |ops|
  {
    if ops != [] {
      StepKeepsClose(line, ops[0]);
      CloseIsFinal(Performed(line, ops[0]), ops[1..]);
    }
  }

  /** A session closed by overflow keeps its queue as it was and never gets a close frame. */
  lemma OverflowEmitsNothing(line: Line, frame: Frame, ops: seq<Op>)
    requires EnqueueOutcome(line.st) == QueueFull && |line.st.queue| <= line.st.capacity
    requires line.closeAt == None
    ensures Performed(line, Enqueue(frame)) == line.(st := line.st.(closed := true))
    ensures Stream(After(line, [Enqueue(frame)] + ops)) == Stream(line)
    ensures After(line, [Enqueue(frame)] + ops).closeAt == None
  {
    EnqueueMeaning(line.st, frame);
    var full := Performed(line, Enqueue(frame));
    assert ([Enqueue(frame)] + ops)[1..] == ops;
    CloseIsFinal(full, ops);
    ClosedEmitsNothing(full, ops);
  }

  lemma {:induction false} ClosedEmitsNothing(line: Line, ops: seq<Op>)
    requires line.st.closed
    ensures After(line, ops).closeAt == line.closeAt
    decreases |ops|
  {
    if ops != [] {
      ClosedEmitsNothing(Performed(line, ops[0]), ops[1..]);
    }
  }
}
