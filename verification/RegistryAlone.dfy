/** Operations that are not interrupted: the steps of one insert or removal, performed in a row,
    do to the two indexes what the whole operation does to the flat map. */
module RegistryAlone {
  import opened Identity
  import opened UserIndexes
  import opened RegistryRaces
  import opened Registries

  /** The primary index read as a flat map. */
  function FlatView(c: Setup, bySession: set<SessionId>): FlatRegistry {
    map s | s in bySession :: c.owner(s)
  }

  ghost predicate Consistent(c: Setup, st: State) {
    Agree(FlatView(c, st.bySession), st.byUser)
  }

  // ---------------------------------------------------------------- uninterrupted steps

  /** Task `t` alone takes `st` to `later`. */
  ghost predicate Alone(c: Setup, t: TaskId, st: State, later: State) {
    exists states, events :: AlonePath(c, t, states, events) && states[0] == st && states[|events|] == later
  }

  ghost predicate AlonePath(c: Setup, t: TaskId, states: seq<State>, events: seq<Event>) {
    && |states| == |events| + 1
    && forall i :: 0 <= i < |events| ==>
         events[i].Run? && events[i].t == t &&
         Enabled(c, states[i], events[i]) && states[i + 1] == Apply(c, states[i], events[i])
  }

  lemma AloneAtFirst(c: Setup, t: TaskId, st: State)
    ensures Alone(c, t, st, st)
  {
    var events: seq<Event> := [];
    assert AlonePath(c, t, [st], events) && [st][0] == st && [st][|events|] == st;
  }

  lemma LongerPath(c: Setup, t: TaskId, states: seq<State>, events: seq<Event>, order: seq<SessionId>)
    requires AlonePath(c, t, states, events) && Enabled(c, states[|events|], Run(t, order))
    ensures AlonePath(c, t, states + [Apply(c, states[|events|], Run(t, order))], events + [Run(t, order)])
  {
  }

  lemma AloneApply(c: Setup, t: TaskId, st: State, mid: State, order: seq<SessionId>)
    requires Alone(c, t, st, mid) && Enabled(c, mid, Run(t, order))
    ensures Alone(c, t, st, Apply(c, mid, Run(t, order)))
  {
    var states, events :| AlonePath(c, t, states, events) && states[0] == st && states[|events|] == mid;
    LongerPath(c, t, states, events, order);
    var longer, more := states + [Apply(c, mid, Run(t, order))], events + [Run(t, order)];
    assert longer[0] == st && longer[|more|] == Apply(c, mid, Run(t, order));
  }

  lemma AloneStep(c: Setup, t: TaskId, st: State, mid: State, order: seq<SessionId>, task: Task)
    requires Alone(c, t, st, mid) && Enabled(c, mid, Run(t, order))
    requires task == TaskAfter(c, mid, mid.tasks[t], order)
    ensures Alone(c, t, st, Effect(c, mid, mid.tasks[t].todo[0]).(tasks := mid.tasks[t := task]))
  {
    AloneApply(c, t, st, mid, order);
  }

  /** A step whose head and outcome are known. */
  lemma RunAlone(c: Setup, t: TaskId, first: State, st: State, a: Action, task: Task)
    requires Alone(c, t, first, st) && t in st.tasks && st.tasks[t].todo != [] && st.tasks[t].todo[0] == a
    requires !a.ReserveId? && task == TaskAfter(c, st, st.tasks[t], [])
    ensures Alone(c, t, first, Effect(c, st, a).(tasks := st.tasks[t := task]))
  {
    AloneStep(c, t, first, st, [], task);
  }

  // ---------------------------------------------------------------- removal

  /** What is left of a removal once the bucket has been dealt with. */
  function Rest(s: SessionId, rest: seq<Action>): seq<Action> {
    [DropSession(s), DropRoute(s), Shut(s)] + rest
  }

  lemma DiscardTask(c: Setup, st: State, s: SessionId, rest: seq<Action>, held: seq<SessionId>)
    ensures TaskAfter(c, st, Task(Unregister(s) + rest, held), []) ==
            Task((if ShouldPrune(st.byUser, c.owner(s), s) then [PruneUser(c.owner(s))] else []) + Rest(s, rest), held)
  {
    assert (Unregister(s) + rest)[1..] == Rest(s, rest) && (Unregister(s) + rest)[0] == DiscardId(s);
  }

  lemma PruneTask(c: Setup, st: State, u: UserId, rest: seq<Action>, held: seq<SessionId>)
    ensures TaskAfter(c, st, Task([PruneUser(u)] + rest, held), []) == Task(rest, held)
  {
    assert ([PruneUser(u)] + rest)[1..] == rest && [] + rest == rest;
  }

  lemma BucketAlone(c: Setup, first: State, st: State, t: TaskId, s: SessionId, rest: seq<Action>, held: seq<SessionId>)
    requires t in st.tasks && st.tasks[t] == Task(Unregister(s) + rest, held) && Alone(c, t, first, st)
    ensures Alone(c, t, first, st.(byUser := Indexed(st.byUser, Remove(s, c.owner(s)), c.replace),
                                   tasks := st.tasks[t := Task(Rest(s, rest), held)]))
  {
    var u, discarded := c.owner(s), Discard(st.byUser, c.owner(s), s);
    DiscardTask(c, st, s, rest, held);
    if ShouldPrune(st.byUser, u, s) {
      var pruning := Task([PruneUser(u)] + Rest(s, rest), held);
      RunAlone(c, t, first, st, DiscardId(s), pruning);
      var mid := st.(byUser := discarded, tasks := st.tasks[t := pruning]);
      PruneTask(c, mid, u, Rest(s, rest), held);
      RunAlone(c, t, first, mid, PruneUser(u), Task(Rest(s, rest), held));
      assert mid.tasks[t := Task(Rest(s, rest), held)] == st.tasks[t := Task(Rest(s, rest), held)];
    } else {
      assert [] + Rest(s, rest) == Rest(s, rest);
      RunAlone(c, t, first, st, DiscardId(s), Task(Rest(s, rest), held));
    }
  }

  lemma PlainTask(c: Setup, st: State, a: Action, rest: seq<Action>, held: seq<SessionId>)
    requires a.StoreSession? || a.DropSession? || a.DropRoute? || a.Shut? || a.PublishRoute? || a.Scan?
    ensures TaskAfter(c, st, Task([a] + rest, held), []) == Task(rest, held)
  {
    assert ([a] + rest)[1..] == rest && ([a] + rest)[0] == a && [] + rest == rest;
  }

  /** A step that pushes and collects nothing. */
  lemma PlainStep(c: Setup, first: State, st: State, t: TaskId, a: Action, rest: seq<Action>, held: seq<SessionId>)
    requires t in st.tasks && st.tasks[t] == Task([a] + rest, held) && Alone(c, t, first, st)
    requires a.StoreSession? || a.DropSession? || a.DropRoute? || a.Shut? || a.PublishRoute? || a.Scan?
    ensures Alone(c, t, first, Effect(c, st, a).(tasks := st.tasks[t := Task(rest, held)]))
  {
    PlainTask(c, st, a, rest, held);
    RunAlone(c, t, first, st, a, Task(rest, held));
  }

  lemma RestAlone(c: Setup, first: State, st: State, t: TaskId, s: SessionId, rest: seq<Action>, held: seq<SessionId>)
    requires t in st.tasks && st.tasks[t] == Task(Rest(s, rest), held) && Alone(c, t, first, st)
    ensures Alone(c, t, first, st.(bySession := st.bySession - {s}, routes := st.routes - {s}, closed := st.closed + {s},
                                   tasks := st.tasks[t := Task(rest, held)]))
  {
    var two, one := [DropRoute(s)] + ([Shut(s)] + rest), [Shut(s)] + rest;
    assert Rest(s, rest) == [DropSession(s)] + two;
    PlainStep(c, first, st, t, DropSession(s), two, held);
    var mid := st.(bySession := st.bySession - {s}, tasks := st.tasks[t := Task(two, held)]);
    PlainStep(c, first, mid, t, DropRoute(s), one, held);
    var last := mid.(routes := st.routes - {s}, tasks := mid.tasks[t := Task(one, held)]);
    PlainStep(c, first, last, t, Shut(s), rest, held);
    assert last.tasks[t := Task(rest, held)] == st.tasks[t := Task(rest, held)];
  }

  /** Unregistering without interruption, from consistent indexes, takes the session out of the flat
      map, keeps the indexes consistent, drops the route and closes the session; the task goes on. */
  lemma RemovalAlone(c: Setup, first: State, st: State, t: TaskId, s: SessionId, rest: seq<Action>, held: seq<SessionId>)
      returns (later: State)
    requires t in st.tasks && st.tasks[t] == Task(Unregister(s) + rest, held) && Consistent(c, st)
    requires Alone(c, t, first, st)
    ensures Alone(c, t, first, later) && Consistent(c, later)
    ensures FlatView(c, later.bySession) == FlatView(c, st.bySession) - {s}
    ensures later.routes == st.routes - {s} && later.closed == st.closed + {s}
    ensures later.tasks == st.tasks[t := Task(rest, held)]
  {
    BucketAlone(c, first, st, t, s, rest, held);
    var mid := st.(byUser := Indexed(st.byUser, Remove(s, c.owner(s)), c.replace),
                   tasks := st.tasks[t := Task(Rest(s, rest), held)]);
    RestAlone(c, first, mid, t, s, rest, held);
    later := mid.(bySession := st.bySession - {s}, routes := st.routes - {s}, closed := st.closed + {s},
                  tasks := mid.tasks[t := Task(rest, held)]);
    RemoveAgrees(FlatView(c, st.bySession), st.byUser, s, c.owner(s));
    assert FlatView(c, later.bySession) == FlatView(c, st.bySession) - {s};
    assert later.tasks == st.tasks[t := Task(rest, held)];
  }

  // ---------------------------------------------------------------- insertion

  lemma {:induction false} Enumerate(ids: set<SessionId>) returns (order: seq<SessionId>)
    ensures Lists(order, ids)
    decreases |ids|
  {
    order := [];
    if ids != {} {
      var id :| id in ids;
      var others := Enumerate(ids - {id});
      order := others + [id];
    }
  }

  function SetOf(order: seq<SessionId>): set<SessionId> {
    set s | s in order
  }

  /** Unlinking registered sessions one after the other takes them all out and collects them. */
  lemma {:induction false} UnlinksAlone(c: Setup, first: State, st: State, t: TaskId, order: seq<SessionId>,
                                        rest: seq<Action>, held: seq<SessionId>)
    requires t in st.tasks && st.tasks[t] == Task(Unlinks(order) + rest, held) && Alone(c, t, first, st)
    requires Lists(order, SetOf(order)) && SetOf(order) <= st.bySession
    ensures Alone(c, t, first, Unlinked(st, t, order, rest, held))
    decreases |order|
  {
    if order == [] {
      UnlinkedNone(st, t, rest, held);
    } else {
      UnlinkFirst(order, rest);
      UnlinkTask(c, st, order, rest, held);
      RunAlone(c, t, first, st, Unlink(order[0]), Task(Unlinks(order[1..]) + rest, held + [order[0]]));
      UnlinkedNext(st, t, order, rest, held);
      UnlinksAlone(c, first, UnlinkedOne(st, t, order, rest, held), t, order[1..], rest, held + [order[0]]);
    }
  }

  /** After all the unlinks, and after the first. */
  function Unlinked(st: State, t: TaskId, order: seq<SessionId>, rest: seq<Action>, held: seq<SessionId>): State {
    st.(bySession := st.bySession - SetOf(order), tasks := st.tasks[t := Task(rest, held + order)])
  }

  function UnlinkedOne(st: State, t: TaskId, order: seq<SessionId>, rest: seq<Action>, held: seq<SessionId>): State
    requires order != []
  {
    st.(bySession := st.bySession - {order[0]},
        tasks := st.tasks[t := Task(Unlinks(order[1..]) + rest, held + [order[0]])])
  }

  lemma UnlinkedNone(st: State, t: TaskId, rest: seq<Action>, held: seq<SessionId>)
    requires t in st.tasks && st.tasks[t] == Task(Unlinks([]) + rest, held)
    ensures Unlinked(st, t, [], rest, held) == st
  {
    assert Unlinks([]) + rest == rest && held + [] == held;
    assert st.bySession - SetOf([]) == st.bySession && st.tasks[t := st.tasks[t]] == st.tasks;
  }

  lemma UnlinkedNext(st: State, t: TaskId, order: seq<SessionId>, rest: seq<Action>, held: seq<SessionId>)
    requires order != [] && Lists(order, SetOf(order))
    ensures Unlinked(UnlinkedOne(st, t, order, rest, held), t, order[1..], rest, held + [order[0]]) ==
            Unlinked(st, t, order, rest, held)
  {
    UnlinkFirst(order, rest);
    assert held + [order[0]] + order[1..] == held + order;
    assert st.bySession - {order[0]} - SetOf(order[1..]) == st.bySession - SetOf(order);
    var task := Task(rest, held + order);
    assert UnlinkedOne(st, t, order, rest, held).tasks[t := task] == st.tasks[t := task];
  }

  lemma UnlinkTask(c: Setup, st: State, order: seq<SessionId>, rest: seq<Action>, held: seq<SessionId>)
    requires order != [] && Lists(order, SetOf(order)) && order[0] in st.bySession
    ensures TaskAfter(c, st, Task(Unlinks(order) + rest, held), []) ==
            Task(Unlinks(order[1..]) + rest, held + [order[0]])
  {
    UnlinkFirst(order, rest);
    assert [] + (Unlinks(order[1..]) + rest) == Unlinks(order[1..]) + rest;
  }

  lemma UnlinkFirst(order: seq<SessionId>, rest: seq<Action>)
    requires order != [] && Lists(order, SetOf(order))
    ensures (Unlinks(order) + rest)[0] == Unlink(order[0])
    ensures (Unlinks(order) + rest)[1..] == Unlinks(order[1..]) + rest
    ensures Lists(order[1..], SetOf(order[1..])) && order[0] !in SetOf(order[1..])
    ensures SetOf(order) == {order[0]} + SetOf(order[1..])
  {
    assert forall i :: 0 <= i < |order| - 1 ==> order[1..][i] == order[i + 1];
  }

  lemma InsertSteps(c: Setup, st: State, t: TaskId, s: SessionId, order: seq<SessionId>, rest: seq<Action>)
    requires t in st.tasks && st.tasks[t] == Task([ReserveId(s), StoreSession(s)] + rest, [])
    requires Lists(order, Displaced(st.byUser, c.owner(s), c.replace)) && SetOf(order) <= st.bySession
    ensures Alone(c, t, st, st.(byUser := Reserve(st.byUser, c.owner(s), s, c.replace),
                                bySession := st.bySession - SetOf(order) + {s}, tasks := st.tasks[t := Task(rest, order)]))
  {
    var storing := [StoreSession(s)] + rest;
    assert [ReserveId(s), StoreSession(s)] + rest == [ReserveId(s)] + storing;
    ReserveStep(c, st, t, s, order, storing);
    var mid := st.(byUser := Reserve(st.byUser, c.owner(s), s, c.replace),
                   tasks := st.tasks[t := Task(Unlinks(order) + storing, [])]);
    UnlinksAlone(c, st, mid, t, order, storing, []);
    assert [] + order == order;
    var last := mid.(bySession := st.bySession - SetOf(order), tasks := mid.tasks[t := Task(storing, order)]);
    PlainStep(c, st, last, t, StoreSession(s), rest, order);
    assert last.tasks[t := Task(rest, order)] == st.tasks[t := Task(rest, order)];
  }

  lemma ReserveStep(c: Setup, st: State, t: TaskId, s: SessionId, order: seq<SessionId>, rest: seq<Action>)
    requires t in st.tasks && st.tasks[t].todo == [ReserveId(s)] + rest && st.tasks[t].held == []
    requires Lists(order, Displaced(st.byUser, c.owner(s), c.replace))
    ensures Alone(c, t, st, st.(byUser := Reserve(st.byUser, c.owner(s), s, c.replace),
                                tasks := st.tasks[t := Task(Unlinks(order) + rest, [])]))
  {
    AloneAtFirst(c, t, st);
    assert ([ReserveId(s)] + rest)[1..] == rest;
    AloneStep(c, t, st, st, order, Task(Unlinks(order) + rest, []));
  }

  /** Inserting without interruption, from consistent indexes, is the insert of the flat map: the
      indexes stay consistent, and the task holds exactly the displaced sessions, each once. */
  lemma InsertAlone(c: Setup, st: State, t: TaskId, s: SessionId, rest: seq<Action>) returns (later: State)
    requires t in st.tasks && st.tasks[t] == Task([ReserveId(s), StoreSession(s)] + rest, [])
    requires Consistent(c, st) && s !in st.bySession
    ensures Alone(c, t, st, later) && Consistent(c, later)
    ensures FlatView(c, later.bySession) == Inserted(FlatView(c, st.bySession), s, c.owner(s), c.replace)
    ensures later.routes == st.routes && later.closed == st.closed
    ensures t in later.tasks && later.tasks == st.tasks[t := Task(rest, later.tasks[t].held)]
    ensures Lists(later.tasks[t].held, DisplacedBy(FlatView(c, st.bySession), c.owner(s), c.replace))
  {
    var flat := FlatView(c, st.bySession);
    InsertAgrees(flat, st.byUser, s, c.owner(s), c.replace);
    var displaced := DisplacedBy(flat, c.owner(s), c.replace);
    var order := Enumerate(displaced);
    assert SetOf(order) == displaced && displaced <= st.bySession;
    InsertSteps(c, st, t, s, order, rest);
    later := st.(byUser := Reserve(st.byUser, c.owner(s), s, c.replace),
                 bySession := st.bySession - displaced + {s}, tasks := st.tasks[t := Task(rest, order)]);
    assert FlatView(c, later.bySession) == Inserted(flat, s, c.owner(s), c.replace);
  }

  // ---------------------------------------------------------------- accepts and reaps

  /** The program that unregisters a session and goes back to the loop. */
  function Looping(s: SessionId, shutFirst: bool, rest: seq<Action>): seq<Action> {
    Unregister(s) + ([Settle(shutFirst)] + rest)
  }

  lemma SettleTask(c: Setup, st: State, shutFirst: bool, rest: seq<Action>, held: seq<SessionId>)
    requires held != []
    ensures TaskAfter(c, st, Task([Settle(shutFirst)] + rest, held), []) ==
            Task((if shutFirst then [Shut(held[0])] else []) + Looping(held[0], shutFirst, rest), held[1..])
  {
    var shut := if shutFirst then [Shut(held[0])] else [];
    assert ([Settle(shutFirst)] + rest)[1..] == rest && ([Settle(shutFirst)] + rest)[0] == Settle(shutFirst);
    assert shut + Unregister(held[0]) + [Settle(shutFirst)] + rest == shut + Looping(held[0], shutFirst, rest);
  }

  /** The loop over collected sessions takes the next one, closing it first when told to. */
  lemma SettleNext(c: Setup, first: State, st: State, t: TaskId, shutFirst: bool, rest: seq<Action>, held: seq<SessionId>)
      returns (next: State)
    requires t in st.tasks && st.tasks[t] == Task([Settle(shutFirst)] + rest, held) && held != []
    requires Alone(c, t, first, st)
    ensures Alone(c, t, first, next)
    ensures next == st.(closed := next.closed, tasks := st.tasks[t := Task(Looping(held[0], shutFirst, rest), held[1..])])
    ensures next.closed == if shutFirst then st.closed + {held[0]} else st.closed
  {
    var loop := Task(Looping(held[0], shutFirst, rest), held[1..]);
    SettleTask(c, st, shutFirst, rest, held);
    if shutFirst {
      RunAlone(c, t, first, st, Settle(true), Task([Shut(held[0])] + loop.todo, held[1..]));
      var mid := st.(tasks := st.tasks[t := Task([Shut(held[0])] + loop.todo, held[1..])]);
      PlainStep(c, first, mid, t, Shut(held[0]), loop.todo, held[1..]);
      assert mid.tasks[t := loop] == st.tasks[t := loop];
      next := st.(closed := st.closed + {held[0]}, tasks := st.tasks[t := loop]);
    } else {
      assert [] + loop.todo == loop.todo;
      RunAlone(c, t, first, st, Settle(false), loop);
      next := st.(tasks := st.tasks[t := loop]);
    }
  }

  /** The loop unregisters and closes exactly the collected sessions. */
  lemma {:induction false} SettleAlone(c: Setup, first: State, st: State, t: TaskId, shutFirst: bool, rest: seq<Action>,
                                       held: seq<SessionId>) returns (later: State)
    requires t in st.tasks && st.tasks[t] == Task([Settle(shutFirst)] + rest, held)
    requires Alone(c, t, first, st) && Consistent(c, st)
    ensures Alone(c, t, first, later) && Consistent(c, later)
    ensures FlatView(c, later.bySession) == FlatView(c, st.bySession) - SetOf(held)
    ensures later.routes == st.routes - SetOf(held) && later.closed == st.closed + SetOf(held)
    ensures later.tasks == st.tasks[t := Task(rest, [])]
    decreases |held|
  {
    if held == [] {
      assert ([Settle(shutFirst)] + rest)[1..] == rest && [] + rest == rest;
      RunAlone(c, t, first, st, Settle(shutFirst), Task(rest, []));
      later := st.(tasks := st.tasks[t := Task(rest, [])]);
      assert FlatView(c, st.bySession) - SetOf(held) == FlatView(c, st.bySession);
    } else {
      var next := SettleNext(c, first, st, t, shutFirst, rest, held);
      var removed := RemovalAlone(c, first, next, t, held[0], [Settle(shutFirst)] + rest, held[1..]);
      later := SettleAlone(c, first, removed, t, shutFirst, rest, held[1..]);
      SetSplit(held);
      assert FlatView(c, st.bySession) - {held[0]} - SetOf(held[1..]) == FlatView(c, st.bySession) - SetOf(held);
      assert later.tasks == st.tasks[t := Task(rest, [])];
    }
  }

  lemma SetSplit(order: seq<SessionId>)
    requires order != []
    ensures SetOf(order) == {order[0]} + SetOf(order[1..])
  {
  }

  /** A reap that is not interrupted unregisters and closes exactly the sessions it has seen. */
  lemma ReapAlone(c: Setup, st: State, t: TaskId, held: seq<SessionId>) returns (later: State)
    requires t in st.tasks && st.tasks[t] == Task(ReaperProgram(), held) && Consistent(c, st)
    ensures Alone(c, t, st, later) && Consistent(c, later)
    ensures FlatView(c, later.bySession) == FlatView(c, st.bySession) - SetOf(held)
    ensures later.routes == st.routes - SetOf(held) && later.closed == st.closed + SetOf(held)
    ensures later.tasks == st.tasks[t := Task([], [])]
  {
    AloneAtFirst(c, t, st);
    assert ReaperProgram() == [Scan] + ([Settle(false)] + []);
    PlainStep(c, st, st, t, Scan, [Settle(false)] + [], held);
    var mid := st.(tasks := st.tasks[t := Task([Settle(false)] + [], held)]);
    later := SettleAlone(c, st, mid, t, false, [], held);
    assert later.tasks == st.tasks[t := Task([], [])];
  }

  /** An accept that is not interrupted does what the manager's accept does: the flat map's insert,
      with the displaced sessions closed and without routes, and the new session's route published. */
  lemma AcceptAlone(c: Setup, st: State, s: SessionId) returns (later: State)
    requires Socket(s) in st.tasks && st.tasks[Socket(s)] == Task(SocketProgram(s), [])
    requires Consistent(c, st) && s !in st.bySession
    ensures Alone(c, Socket(s), st, later) && Consistent(c, later)
    ensures FlatView(c, later.bySession) == Inserted(FlatView(c, st.bySession), s, c.owner(s), c.replace)
    ensures var displaced := DisplacedBy(FlatView(c, st.bySession), c.owner(s), c.replace);
            later.routes == st.routes - displaced + {s} && later.closed == st.closed + displaced
    ensures later.tasks == st.tasks[Socket(s) := Task([Serve(s)] + Unregister(s), [])]
  {
    var t, serving := Socket(s), [Serve(s)] + Unregister(s);
    var settling := [Settle(true)] + ([PublishRoute(s)] + serving);
    assert SocketProgram(s) == [ReserveId(s), StoreSession(s)] + settling;
    var inserted := InsertAlone(c, st, t, s, settling);
    var held := inserted.tasks[t].held;
    var displaced := DisplacedBy(FlatView(c, st.bySession), c.owner(s), c.replace);
    assert SetOf(held) == displaced && s !in displaced;
    var settled := SettleAlone(c, st, inserted, t, true, [PublishRoute(s)] + serving, held);
    PlainStep(c, st, settled, t, PublishRoute(s), serving, []);
    later := settled.(routes := settled.routes + {s}, tasks := settled.tasks[t := Task(serving, [])]);
    assert FlatView(c, later.bySession) == Inserted(FlatView(c, st.bySession), s, c.owner(s), c.replace);
    assert later.tasks == st.tasks[t := Task(serving, [])];
  }
}
