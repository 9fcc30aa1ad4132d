/** Every interleaving of enqueues, closes and receives on one session's queue. */
module SessionRaces {
  import opened Protocol
  import opened Sessions

  /** Where a call stands between its atomic accesses. */
  datatype Call =
    | Checked(frame: Frame)       // enqueue: saw the session open, about to try_send
    | Swapping(reason: seq<Byte>) // close: about to swap the flag
    | Emitting(reason: seq<Byte>) // close: swapped first, about to try_send the close frame

  /** An accepted frame, the call that sent it, and whether that was `close` emitting. */
  datatype Item = Item(frame: Frame, caller: nat, closing: bool)

  /** `accepted` is the log of everything the queue took. When the flag is raised, `racers`
      records the enqueues past their check and `mark` the length of the log. */
  datatype State = State(
    closed: bool,
    queue: seq<Item>,
    capacity: nat,
    receiving: bool,
    received: seq<Item>,
    accepted: seq<Item>,
    calls: map<nat, Call>,
    used: set<nat>,
    racers: set<nat>,
    mark: nat)

  datatype Event =
    | BeginEnqueue(id: nat, frame: Frame)
    | BeginClose(id: nat, reason: seq<Byte>)
    | Advance(id: nat)
    | Receive
    | DropReceiver

  function Start(capacity: nat): State {
    State(false, [], capacity, true, [], [], map[], {}, {}, 0)
  }

  function Outcome(st: State): SendResult {
    if !st.receiving then Disconnected
    else if |st.queue| >= st.capacity then Full
    else Sent
  }

  function Push(st: State, item: Item): State {
    st.(queue := st.queue + [item], accepted := st.accepted + [item])
  }

  function Past(calls: map<nat, Call>): set<nat> {
    set id | id in calls && calls[id].Checked?
  }

  predicate Enabled(st: State, e: Event) {
    match e
    case BeginEnqueue(id, _) => id !in st.used
    case BeginClose(id, _) => id !in st.used
    case Advance(id) => id in st.calls
    case Receive => st.receiving && st.queue != []
    case DropReceiver => true
  }

  function Advanced(st: State, id: nat): State
    requires id in st.calls
  {
    var done := st.(calls := st.calls - {id});
    match st.calls[id]
    case Checked(frame) =>
      (match Outcome(st)
       case Sent => Push(done, Item(frame, id, false))
       case Full => st.(calls := st.calls[id := Swapping(QUEUE_FULL)])
       case Disconnected => st.(calls := st.calls[id := Swapping(RECEIVER_CLOSED)]))
    case Swapping(reason) =>
      if st.closed then done
      else st.(closed := true, racers := Past(st.calls), mark := |st.accepted|,
               calls := st.calls[id := Emitting(reason)])
    case Emitting(reason) =>
      if Outcome(st) == Sent then Push(done, Item(Closing(reason), id, true)) else done
  }

  function Apply(st: State, e: Event): State
    requires Enabled(st, e)
  {
    match e
    case BeginEnqueue(id, frame) =>
      var begun := st.(used := st.used + {id});
      if st.closed then begun else begun.(calls := st.calls[id := Checked(frame)])
    case BeginClose(id, reason) =>
      st.(used := st.used + {id}, calls := st.calls[id := Swapping(reason)])
    case Advance(id) => Advanced(st, id)
    case Receive => st.(queue := st.queue[1..], received := st.received + [st.queue[0]])
    case DropReceiver => st.(receiving := false)
  }

  ghost predicate IsRun(capacity: nat, states: seq<State>, events: seq<Event>) {
    && |states| == |events| + 1
    && states[0] == Start(capacity)
    && forall i :: 0 <= i < |events| ==>
         Enabled(states[i], events[i]) && states[i + 1] == Apply(states[i], events[i])
  }

  // ---------------------------------------------------------------- invariant

  /** Each call sends at most one frame, and only when it ends. */
  ghost predicate OneItemPerCall(st: State) {
    && st.calls.Keys <= st.used
    && (forall i :: 0 <= i < |st.accepted| ==> st.accepted[i].caller in st.used && st.accepted[i].caller !in st.calls)
    && (forall i, j :: 0 <= i < j < |st.accepted| ==> st.accepted[i].caller != st.accepted[j].caller)
  }

  /** One call at most emits the close frame. */
  ghost predicate OneCloser(st: State) {
    && (forall id :: id in st.calls && st.calls[id].Emitting? ==> st.closed)
    && (forall i :: 0 <= i < |st.accepted| && st.accepted[i].closing ==> st.closed)
    && (forall x, y :: x in st.calls && y in st.calls && st.calls[x].Emitting? && st.calls[y].Emitting? ==> x == y)
    && (forall x, i :: x in st.calls && st.calls[x].Emitting? && 0 <= i < |st.accepted| ==> !st.accepted[i].closing)
    && (forall i, j :: 0 <= i < j < |st.accepted| ==> !(st.accepted[i].closing && st.accepted[j].closing))
  }

  /** After the flag is raised only the racers can still get a data frame in. */
  ghost predicate OnlyRacersAreLate(st: State) {
    st.closed ==>
      && st.mark <= |st.accepted|
      && (forall id :: id in st.calls && st.calls[id].Checked? ==> id in st.racers)
      && (forall i :: st.mark <= i < |st.accepted| && !st.accepted[i].closing ==> st.accepted[i].caller in st.racers)
  }

  ghost predicate Inv(st: State) {
    && st.received + st.queue == st.accepted && |st.queue| <= st.capacity
    && OneItemPerCall(st) && OneCloser(st) && OnlyRacersAreLate(st)
  }

  lemma AdvanceKeepsQueue(st: State, id: nat)
    requires id in st.calls && st.received + st.queue == st.accepted && |st.queue| <= st.capacity
    ensures var st' := Advanced(st, id); st'.received + st'.queue == st'.accepted && |st'.queue| <= st'.capacity
  {
    var st' := Advanced(st, id);
    if |st'.queue| > |st.queue| {
      var item := st'.queue[|st.queue|];
      assert st'.received + st'.queue == (st.received + st.queue) + [item];
    }
  }

  lemma QueueKept(st: State, e: Event)
    requires Inv(st) && Enabled(st, e)
    ensures var st' := Apply(st, e); st'.received + st'.queue == st'.accepted && |st'.queue| <= st'.capacity
  {
    var st' := Apply(st, e);
    match e
    case Receive =>
      assert [st.queue[0]] + st.queue[1..] == st.queue;
      assert st'.received + st'.queue == st.received + st.queue;
    case Advance(id) => AdvanceKeepsQueue(st, id);
    case _ =>
  }

  lemma OneItemPerCallKept(st: State, e: Event)
    requires OneItemPerCall(st) && Enabled(st, e)
    ensures OneItemPerCall(Apply(st, e))
  {
  }

  lemma OneCloserKept(st: State, e: Event)
    requires OneCloser(st) && Enabled(st, e)
    ensures OneCloser(Apply(st, e))
  {
  }

  lemma OnlyRacersAreLateKept(st: State, e: Event)
    requires OnlyRacersAreLate(st) && Enabled(st, e)
    ensures OnlyRacersAreLate(Apply(st, e))
  {
  }

  lemma {:induction false} InvHolds(capacity: nat, states: seq<State>, events: seq<Event>, i: nat)
    requires IsRun(capacity, states, events) && i < |states|
    ensures Inv(states[i]) && states[i].capacity == capacity
  {
    if i > 0 {
      InvHolds(capacity, states, events, i - 1);
      QueueKept(states[i - 1], events[i - 1]);
      OneItemPerCallKept(states[i - 1], events[i - 1]);
      OneCloserKept(states[i - 1], events[i - 1]);
      OnlyRacersAreLateKept(states[i - 1], events[i - 1]);
    }
  }

  // ---------------------------------------------------------------- the theorems

  function Frames(items: seq<Item>): (frames: seq<Frame>)
    ensures |frames| == |items|
    ensures forall i :: 0 <= i < |items| ==> frames[i] == items[i].frame
  {
    seq(|items|, i requires 0 <= i < |items| => items[i].frame)
  }

  /** What was received followed by what is queued is what was accepted, in order; the queue
      stays within its capacity; and `close` emitted at most one close frame. */
  lemma QueueConservesFrames(capacity: nat, states: seq<State>, events: seq<Event>, i: nat)
    requires IsRun(capacity, states, events) && i < |states|
    ensures Frames(states[i].received) + Frames(states[i].queue) == Frames(states[i].accepted)
    ensures |states[i].queue| <= capacity
    ensures forall j, k :: 0 <= j < k < |states[i].accepted| ==>
              !(states[i].accepted[j].closing && states[i].accepted[k].closing)
  {
    InvHolds(capacity, states, events, i);
    var st := states[i];
    assert Frames(st.received + st.queue) == Frames(st.received) + Frames(st.queue);
  }

  /** `later` keeps a raised flag with what it recorded, and everything accepted and received. */
  ghost predicate Extends(st: State, later: State) {
    && (st.closed ==> later.closed && later.racers == st.racers && later.mark == st.mark)
    && st.accepted <= later.accepted && st.received <= later.received
  }

  lemma StepExtends(st: State, e: Event)
    requires Enabled(st, e)
    ensures Extends(st, Apply(st, e))
  {
  }

  lemma ExtendsTransitive(a: State, b: State, c: State)
    requires Extends(a, b) && Extends(b, c)
    ensures Extends(a, c)
  {
  }

  /** The flag never goes back, and nothing accepted is ever taken back. */
  lemma {:induction false} ClosedNeverReverts(capacity: nat, states: seq<State>, events: seq<Event>, i: nat, j: nat)
    requires IsRun(capacity, states, events) && i <= j < |states|
    ensures Extends(states[i], states[j])
  {
    if i < j {
      ClosedNeverReverts(capacity, states, events, i, j - 1);
      StepExtends(states[j - 1], events[j - 1]);
      ExtendsTransitive(states[i], states[j - 1], states[j]);
    }
  }

  /** Positions of the data frames accepted after the flag was raised. */
  function LateData(st: State): set<nat> {
    set k | st.mark <= k < |st.accepted| && !st.accepted[k].closing
  }

  lemma {:induction false} DistinctCallersBound(items: seq<Item>, positions: set<nat>, callers: set<nat>)
    requires forall k :: k in positions ==> k < |items| && items[k].caller in callers
    requires forall i, j :: 0 <= i < j < |items| ==> items[i].caller != items[j].caller
    ensures |positions| <= |callers|
    decreases |positions|
  {
    if positions != {} {
      var k :| k in positions;
      DistinctCallersBound(items, positions - {k}, callers - {items[k].caller});
    }
  }

  /** The last step raised the flag: nothing was accepted by it, and `racers` are the enqueues
      that were then past their closed check. */
  ghost predicate RaisedAt(st: State, later: State) {
    !st.closed && later.closed && later.racers == Past(st.calls) && later.mark == |st.accepted|
  }

  lemma {:induction false} RaisedOnce(capacity: nat, states: seq<State>, events: seq<Event>, i: nat) returns (k: nat)
    requires IsRun(capacity, states, events) && i < |states| && states[i].closed
    ensures k < i && RaisedAt(states[k], states[k + 1])
    ensures states[i].racers == states[k + 1].racers && states[i].mark == states[k + 1].mark
  {
    if states[i - 1].closed {
      k := RaisedOnce(capacity, states, events, i - 1);
      StepExtends(states[i - 1], events[i - 1]);
    } else {
      k := i - 1;
    }
  }

  /** Data frames accepted after the flag was raised number at most the enqueues that were
      already past their closed check when it was raised, and come from them. */
  lemma LateDataIsBounded(capacity: nat, states: seq<State>, events: seq<Event>, i: nat) returns (k: nat)
    requires IsRun(capacity, states, events) && i < |states| && states[i].closed
    ensures k < i && !states[k].closed && states[k + 1].closed && states[i].mark == |states[k].accepted|
    ensures |LateData(states[i])| <= |Past(states[k].calls)|
    ensures forall j :: j in LateData(states[i]) ==> states[i].accepted[j].caller in Past(states[k].calls)
  {
    InvHolds(capacity, states, events, i);
    k := RaisedOnce(capacity, states, events, i);
    DistinctCallersBound(states[i].accepted, LateData(states[i]), states[i].racers);
  }

  function Range(low: nat, high: nat): (range: set<nat>)
    requires low <= high
    ensures forall j :: j in range <==> low <= j < high
    ensures |range| == high - low
    decreases high
  {
    if low == high then {} else Range(low, high - 1) + {high - 1}
  }

  /** The frames accepted after the close frame number at most the enqueues past their check
      when step `r` raised the flag. */
  lemma FewFollowTheCloseFrame(capacity: nat, states: seq<State>, events: seq<Event>, i: nat, k: nat) returns (r: nat)
    requires IsRun(capacity, states, events) && i < |states|
    requires k < |states[i].accepted| && states[i].accepted[k].closing
    ensures r < i && !states[r].closed && states[r + 1].closed
    ensures |states[i].accepted| - 1 - k <= |Past(states[r].calls)|
  {
    InvHolds(capacity, states, events, i);
    CloseIsAfterMark(capacity, states, events, i, k);
    r := RaisedOnce(capacity, states, events, i);
    var st := states[i];
    DistinctCallersBound(st.accepted, Range(k + 1, |st.accepted|), st.racers);
  }

  lemma {:induction false} CloseIsAfterMark(capacity: nat, states: seq<State>, events: seq<Event>, i: nat, k: nat)
    requires IsRun(capacity, states, events) && i < |states|
    requires k < |states[i].accepted| && states[i].accepted[k].closing
    ensures states[i].closed && states[i].mark <= k
  {
    if i > 0 {
      InvHolds(capacity, states, events, i - 1);
      var st := states[i - 1];
      if k < |st.accepted| {
        ClosedNeverReverts(capacity, states, events, i - 1, i);
        assert st.accepted[k] == states[i].accepted[k];
        CloseIsAfterMark(capacity, states, events, i - 1, k);
      }
    }
  }

  // ---------------------------------------------------------------- exactly what follows the close frame

  /** The events can happen one after the other. */
  predicate Possible(st: State, events: seq<Event>)
    decreases |events|
  {
    events == [] || (Enabled(st, events[0]) && Possible(Apply(st, events[0]), events[1..]))
  }

  function After(st: State, events: seq<Event>): State
    requires Possible(st, events)
    decreases |events|
  {
    if events == [] then st else After(Apply(st, events[0]), events[1..])
  }

  /** The flag is raised and whoever raised it has tried to send the close frame. */
  ghost predicate CloseTried(st: State) {
    st.closed && forall id :: id in st.calls ==> id in st.used && !st.calls[id].Emitting?
  }

  /** Once the close frame was tried every accepted frame uses up a call past its check. */
  lemma StepAfterClose(st: State, e: Event)
    requires CloseTried(st) && Enabled(st, e)
    ensures var st' := Apply(st, e);
            CloseTried(st') && |st'.accepted| + |Past(st'.calls)| <= |st.accepted| + |Past(st.calls)|
    ensures st.accepted <= Apply(st, e).accepted
  {
    PastAfterClose(st, e);
  }

  /** After the close was tried nobody comes past the check, and an advance there uses it up. */
  lemma PastAfterClose(st: State, e: Event)
    requires CloseTried(st) && Enabled(st, e)
    ensures Past(Apply(st, e).calls) ==
            if e.Advance? && st.calls[e.id].Checked? then Past(st.calls) - {e.id} else Past(st.calls)
  {
  }

  lemma {:induction false} FewFollow(st: State, events: seq<Event>)
    requires CloseTried(st) && Possible(st, events)
    ensures st.accepted <= After(st, events).accepted
    ensures |After(st, events).accepted| <= |st.accepted| + |Past(st.calls)|
    decreases |events|
  {
    if events != [] {
      StepAfterClose(st, events[0]);
      FewFollow(Apply(st, events[0]), events[1..]);
    }
  }

  /** The receiver drains the queue whenever needed, and `n` of the calls past their check send. */
  lemma {:induction false} ManyFollow(st: State, n: nat) returns (events: seq<Event>)
    requires CloseTried(st) && st.receiving && st.capacity > 0 && n <= |Past(st.calls)|
    ensures Possible(st, events) && |After(st, events).accepted| == |st.accepted| + n
    decreases n, |st.queue|
  {
    if n == 0 {
      return [];
    }
    var e: Event;
    var left := n;
    if st.queue != [] {
      e := Event.Receive;
    } else {
      var id :| id in Past(st.calls);
      e, left := Advance(id), n - 1;
      assert Past(Apply(st, e).calls) == Past(st.calls) - {id};
    }
    var rest := ManyFollow(Apply(st, e), left);
    events := [e] + rest;
    assert events[1..] == rest;
  }

  /** Some continuation accepts exactly `n` more frames. */
  ghost predicate CanFollow(st: State, n: nat) {
    exists more :: Possible(st, more) && |After(st, more).accepted| == |st.accepted| + n
  }

  /** From the step that emits the close frame, exactly up to as many frames can follow it as
      enqueues are then past their closed check, whatever the capacity. */
  lemma FollowersExactly(capacity: nat, states: seq<State>, events: seq<Event>, i: nat, id: nat, n: nat)
    requires IsRun(capacity, states, events) && i < |events| && EmitsClose(states[i], events[i], id)
    ensures CanFollow(states[i + 1], n) <==> n <= |Past(states[i].calls)|
  {
    var st := states[i + 1];
    EmissionTried(capacity, states, events, i, id);
    if n <= |Past(st.calls)| {
      var more := ManyFollow(st, n);
    }
    forall more | Possible(st, more)
      ensures |After(st, more).accepted| <= |st.accepted| + |Past(st.calls)|
    {
      FewFollow(st, more);
    }
  }

  /** The call `id` puts the close frame in the queue. */
  predicate EmitsClose(st: State, e: Event, id: nat) {
    e == Advance(id) && id in st.calls && st.calls[id].Emitting? && Outcome(st) == Sent
  }

  lemma EmissionTried(capacity: nat, states: seq<State>, events: seq<Event>, i: nat, id: nat)
    requires IsRun(capacity, states, events) && i < |events| && EmitsClose(states[i], events[i], id)
    ensures CloseTried(states[i + 1]) && Past(states[i + 1].calls) == Past(states[i].calls)
    ensures states[i + 1].receiving && states[i + 1].capacity > 0 && ClosesLast(states[i + 1])
  {
    InvHolds(capacity, states, events, i);
  }

  /** The last accepted frame is the one `close` emitted. */
  predicate ClosesLast(st: State) {
    st.accepted != [] && st.accepted[|st.accepted| - 1].closing
  }

  ghost predicate StaysLast(st: State) {
    forall more :: Possible(st, more) ==> ClosesLast(After(st, more))
  }

  /** The close frame stays the last accepted frame in every continuation exactly when no enqueue
      was past its closed check as it was emitted. */
  lemma CloseStaysLastExactly(capacity: nat, states: seq<State>, events: seq<Event>, i: nat, id: nat)
    requires IsRun(capacity, states, events) && i < |events| && EmitsClose(states[i], events[i], id)
    ensures StaysLast(states[i + 1]) <==> Past(states[i].calls) == {}
  {
    var st := states[i + 1];
    EmissionTried(capacity, states, events, i, id);
    if Past(st.calls) == {} {
      forall more | Possible(st, more)
        ensures ClosesLast(After(st, more))
      {
        FewFollow(st, more);
        assert After(st, more).accepted == st.accepted;
      }
    } else {
      var more := OneFollows(st);
      InvHolds(capacity, states, events, i + 1);
      OneCloserAfter(st, more);
      assert After(st, more).accepted[|st.accepted| - 1].closing;
    }
  }

  lemma OneFollows(st: State) returns (more: seq<Event>)
    requires CloseTried(st) && st.receiving && st.capacity > 0 && Past(st.calls) != {}
    ensures Possible(st, more) && st.accepted <= After(st, more).accepted
    ensures |After(st, more).accepted| == |st.accepted| + 1
  {
    more := ManyFollow(st, 1);
    FewFollow(st, more);
  }

  lemma {:induction false} OneCloserAfter(st: State, events: seq<Event>)
    requires OneCloser(st) && Possible(st, events)
    ensures OneCloser(After(st, events))
    decreases |events|
  {
    if events != [] {
      OneCloserKept(st, events[0]);
      OneCloserAfter(Apply(st, events[0]), events[1..]);
    }
  }

  /** With room for even one frame a data frame can be accepted, and received, behind the close
      frame. */
  lemma DataCanFollowClose(capacity: nat, frame: Frame, reason: seq<Byte>)
      returns (states: seq<State>, events: seq<Event>)
    requires capacity > 0
    ensures IsRun(capacity, states, events)
    ensures Frames(states[|events|].received) == [Closing(reason), frame]
  {
    var s0 := Start(capacity);
    var s1 := Apply(s0, BeginEnqueue(0, frame));
    var s2 := Apply(s1, BeginClose(1, reason));
    var s3 := Apply(s2, Advance(1));
    var s4 := Apply(s3, Advance(1));
    var s5 := Apply(s4, Event.Receive);
    var s6 := Apply(s5, Advance(0));
    var s7 := Apply(s6, Event.Receive);
    states := [s0, s1, s2, s3, s4, s5, s6, s7];
    events := [BeginEnqueue(0, frame), BeginClose(1, reason), Advance(1), Advance(1),
               Event.Receive, Advance(0), Event.Receive];
  }

  // ---------------------------------------------------------------- calls that run alone

  /** The session the queue belongs to, its timestamps left out. */
  function View(st: State): SessionState {
    SessionState(st.closed, Frames(st.queue), st.capacity, st.receiving, 0, 0, 0)
  }

  /** A call that is not interleaved with others performs its remaining accesses in a row. */
  function Finished(st: State, id: nat): State
    decreases if id !in st.calls then 0 else match st.calls[id]
              case Checked(_) => 3 case Swapping(_) => 2 case Emitting(_) => 1
  {
    if id in st.calls then Finished(Advanced(st, id), id) else st
  }

  lemma CloseAlone(st: State, id: nat, reason: seq<Byte>)
    requires id in st.calls && st.calls[id] == Swapping(reason)
    ensures View(Finished(st, id)) == Closed(View(st), reason)
    ensures id !in Finished(st, id).calls
  {
    var next := Advanced(st, id);
    if !st.closed {
      var last := Advanced(next, id);
      assert Finished(next, id) == last;
      assert Frames(last.queue) == TrySend(SetClosed(View(st)), Closing(reason)).queue;
    }
  }

  /** Run alone, the accesses of `enqueue` and `close` compose to the whole operations. */
  lemma AloneIsAtomic(st: State, id: nat, frame: Frame, reason: seq<Byte>)
    requires id !in st.used && st.calls.Keys <= st.used
    ensures View(Finished(Apply(st, BeginEnqueue(id, frame)), id)) == Enqueued(View(st), frame)
    ensures View(Finished(Apply(st, BeginClose(id, reason)), id)) == Closed(View(st), reason)
  {
    var closing := Apply(st, BeginClose(id, reason));
    CloseAlone(closing, id, reason);
    var begun := Apply(st, BeginEnqueue(id, frame));
    if !st.closed {
      var next := Advanced(begun, id);
      match Outcome(st)
      case Sent =>
        assert Finished(next, id) == next;
        assert Frames(next.queue) == Frames(st.queue) + [frame];
      case Full => CloseAlone(next, id, QUEUE_FULL);
      case Disconnected => CloseAlone(next, id, RECEIVER_CLOSED);
    }
  }
}
