/** Concrete runs in which overlapping operations leave the registry in the states that the
    agreement theorems single out. */
module RegistryWitnesses {
  import opened Identity
  import opened UserIndexes
  import opened RegistryRaces
  import opened RegistrySafety
  import opened RegistryAgreement
  import opened RouteRaces

  ghost predicate Reachable(c: Setup, st: State) {
    exists states, events :: IsRun(c, states, events) && states[|states| - 1] == st
  }

  lemma ReachStep(c: Setup, st: State, e: Event) returns (next: State)
    requires Reachable(c, st) && Enabled(c, st, e)
    ensures next == Apply(c, st, e) && Reachable(c, next)
  {
    next := Apply(c, st, e);
    var states, events :| IsRun(c, states, events) && states[|states| - 1] == st;
    var longer := states + [next];
    assert IsRun(c, longer, events + [e]);
    assert longer[|longer| - 1] == next;
  }

  // ---------------------------------------------------------------- one socket

  function Storing(s: SessionId): Task {
    Task([StoreSession(s)] + AfterStore(s), [])
  }

  function Pruning(c: Setup, s: SessionId): Task {
    Task([PruneUser(c.owner(s)), DropSession(s), DropRoute(s), Shut(s)], [])
  }

  ghost function OneSocket(byUser: UserIndex, bySession: set<SessionId>, routes: set<SessionId>, a: SessionId, task: Task): State {
    State(byUser, bySession, routes, {}, map[Socket(a) := task])
  }

  lemma StoringAfter(c: Setup, st: State, s: SessionId)
    ensures TaskAfter(c, st, Storing(s), []) == Task(AfterStore(s), [])
  {
    assert Storing(s).todo[1..] == AfterStore(s);
  }

  lemma ReserveAlone(byUser: UserIndex, user: UserId, id: SessionId, replace: bool)
    requires Bucket(byUser, user) == {}
    ensures Reserve(byUser, user, id, replace) == byUser[user := {id}]
  {
    assert Bucket(byUser, user) + {id} == {id};
  }

  /** The only task performs its next action. */
  lemma RunOnly(c: Setup, st: State, a: SessionId, task: Task, later: Task)
    requires Reachable(c, st) && st.tasks == map[Socket(a) := task] && st.closed == {}
    requires Enabled(c, st, Run(Socket(a), [])) && !task.todo[0].Shut? && later == TaskAfter(c, st, task, [])
    ensures var next := Effect(c, st, task.todo[0]);
            Reachable(c, OneSocket(next.byUser, next.bySession, next.routes, a, later))
  {
    var next := ReachStep(c, st, Run(Socket(a), []));
    assert next.tasks == map[Socket(a) := later];
  }

  lemma ReachReserved(c: Setup, a: SessionId)
    ensures Reachable(c, OneSocket(map[c.owner(a) := {a}], {}, {}, a, Storing(a)))
  {
    assert IsRun(c, [START], []);
    assert [START][|[START]| - 1] == START;
    var entering := Task(SocketProgram(a), []);
    var st := ReachStep(c, START, Open(a));
    assert st == OneSocket(map[], {}, {}, a, entering);
    ReserveAlone(map[], c.owner(a), a, c.replace);
    assert TaskAfter(c, st, entering, []) == Storing(a);
    RunOnly(c, st, a, entering, Storing(a));
  }

  lemma ReachServing(c: Setup, a: SessionId)
    ensures Reachable(c, OneSocket(map[c.owner(a) := {a}], {a}, {}, a, Task(AfterStore(a), [])))
  {
    ReachReserved(c, a);
    var st := OneSocket(map[c.owner(a) := {a}], {}, {}, a, Storing(a));
    StoringAfter(c, st, a);
    RunOnly(c, st, a, Storing(a), Task(AfterStore(a), []));
    assert {} + {a} == {a};
  }

  lemma ReachLive(c: Setup, a: SessionId)
    ensures Reachable(c, OneSocket(map[c.owner(a) := {a}], {a}, {a}, a, Task(AfterPublish(a), [])))
  {
    ReachServing(c, a);
    var settling, publishing := Task(AfterStore(a), []), Task([PublishRoute(a)] + AfterPublish(a), []);
    var st := OneSocket(map[c.owner(a) := {a}], {a}, {}, a, settling);
    assert TaskAfter(c, st, settling, []) == publishing;
    RunOnly(c, st, a, settling, publishing);
    st := OneSocket(st.byUser, {a}, {}, a, publishing);
    assert TaskAfter(c, st, publishing, []) == Task(AfterPublish(a), []);
    RunOnly(c, st, a, publishing, Task(AfterPublish(a), []));
    assert {} + {a} == {a};
  }

  /** `a` is registered and past its bucket removal, its empty bucket to be pruned. */
  lemma ReachEmptied(c: Setup, a: SessionId)
    ensures Reachable(c, OneSocket(map[c.owner(a) := {}], {a}, {a}, a, Pruning(c, a)))
  {
    ReachLive(c, a);
    var st := OneSocket(map[c.owner(a) := {a}], {a}, {a}, a, Task(AfterPublish(a), []));
    assert TaskAfter(c, st, Task(AfterPublish(a), []), []) == Task(Unregister(a), []);
    RunOnly(c, st, a, Task(AfterPublish(a), []), Task(Unregister(a), []));
    st := OneSocket(st.byUser, {a}, {a}, a, Task(Unregister(a), []));
    assert {a} - {a} == {};
    assert TaskAfter(c, st, Task(Unregister(a), []), []) == Pruning(c, a);
    RunOnly(c, st, a, Task(Unregister(a), []), Pruning(c, a));
    assert st.byUser[c.owner(a) := {}] == map[c.owner(a) := {}];
  }

  // ---------------------------------------------------------------- two sockets of one user

  /** Two socket tasks and the shared structures between them. */
  ghost function TwoSockets(byUser: UserIndex, bySession: set<SessionId>, routes: set<SessionId>, closed: set<SessionId>,
                            a: SessionId, first: Task, b: SessionId, second: Task): State
    requires a != b
  {
    State(byUser, bySession, routes, closed, map[Socket(a) := first, Socket(b) := second])
  }

  /** Distinct sessions of one user. */
  ghost predicate SameUser(c: Setup, a: SessionId, b: SessionId) {
    a != b && c.owner(a) == c.owner(b)
  }

  lemma OpenSecond(c: Setup, st: State, a: SessionId, first: Task, b: SessionId)
    requires a != b && Reachable(c, st) && st.tasks == map[Socket(a) := first]
    ensures Reachable(c, TwoSockets(st.byUser, st.bySession, st.routes, st.closed, a, first, b, Task(SocketProgram(b), [])))
  {
    var next := ReachStep(c, st, Open(b));
    assert next.tasks == map[Socket(a) := first, Socket(b) := Task(SocketProgram(b), [])];
  }

  /** The first task performs its next action. */
  lemma RunFirst(c: Setup, st: State, a: SessionId, first: Task, b: SessionId, second: Task, later: Task)
    requires a != b && first.todo != [] && !first.todo[0].ReserveId?
    requires Reachable(c, st) && st.tasks == map[Socket(a) := first, Socket(b) := second]
    requires later == TaskAfter(c, st, first, [])
    ensures var next := Effect(c, st, first.todo[0]);
            Reachable(c, TwoSockets(next.byUser, next.bySession, next.routes, next.closed, a, later, b, second))
  {
    var next := ReachStep(c, st, Run(Socket(a), []));
    assert next.tasks == map[Socket(a) := later, Socket(b) := second];
  }

  /** The second task performs its next action. */
  lemma RunSecond(c: Setup, st: State, a: SessionId, first: Task, b: SessionId, second: Task, order: seq<SessionId>,
                  later: Task)
    requires a != b && Reachable(c, st) && st.tasks == map[Socket(a) := first, Socket(b) := second]
    requires second.todo != [] && Enabled(c, st, Run(Socket(b), order))
    requires later == TaskAfter(c, st, second, order)
    ensures var next := Effect(c, st, second.todo[0]);
            Reachable(c, TwoSockets(next.byUser, next.bySession, next.routes, next.closed, a, first, b, later))
  {
    var next := ReachStep(c, st, Run(Socket(b), order));
    assert next.tasks == map[Socket(a) := first, Socket(b) := later];
  }

  // ---------------------------------------------------------------- stale prunes

  /** `b` has refilled the bucket that the removal of `a` saw empty. */
  lemma ReachRefilled(c: Setup, a: SessionId, b: SessionId)
    requires SameUser(c, a, b)
    ensures Reachable(c, TwoSockets(map[c.owner(b) := {b}], {a}, {a}, {}, a, Pruning(c, a), b, Storing(b)))
  {
    ReachEmptied(c, a);
    var st := OneSocket(map[c.owner(a) := {}], {a}, {a}, a, Pruning(c, a));
    OpenSecond(c, st, a, Pruning(c, a), b);
    st := TwoSockets(st.byUser, {a}, {a}, {}, a, Pruning(c, a), b, Task(SocketProgram(b), []));
    ReserveAlone(st.byUser, c.owner(b), b, c.replace);
    assert st.byUser[c.owner(b) := {b}] == map[c.owner(b) := {b}];
    assert Displaced(st.byUser, c.owner(b), c.replace) == {};
    assert TaskAfter(c, st, st.tasks[Socket(b)], []) == Storing(b);
    RunSecond(c, st, a, Pruning(c, a), b, st.tasks[Socket(b)], [], Storing(b));
  }

  lemma ReachPruned(c: Setup, a: SessionId, b: SessionId)
    requires SameUser(c, a, b)
    ensures Reachable(c, TwoSockets(map[], {}, {a}, {}, a, Task([DropRoute(a), Shut(a)], []), b, Storing(b)))
  {
    ReachRefilled(c, a, b);
    var dropping := Task([DropSession(a), DropRoute(a), Shut(a)], []);
    var st := TwoSockets(map[c.owner(b) := {b}], {a}, {a}, {}, a, Pruning(c, a), b, Storing(b));
    assert TaskAfter(c, st, Pruning(c, a), []) == dropping;
    RunFirst(c, st, a, Pruning(c, a), b, Storing(b), dropping);
    assert Prune(st.byUser, c.owner(a)) == map[];
    st := TwoSockets(map[], {a}, {a}, {}, a, dropping, b, Storing(b));
    assert TaskAfter(c, st, dropping, []) == Task([DropRoute(a), Shut(a)], []);
    RunFirst(c, st, a, dropping, b, Storing(b), Task([DropRoute(a), Shut(a)], []));
    assert {a} - {a} == {};
  }

  /** Under either policy a reconnect that overlaps the old connection's removal can end with
      the new session registered but absent from its user's bucket, nothing being in flight. */
  lemma StalePruneStrandsAReconnect(c: Setup, a: SessionId, b: SessionId) returns (st: State)
    requires SameUser(c, a, b)
    ensures Reachable(c, st)
    ensures Idle(c, st, c.owner(b)) && Stranded(c, st, b) && c.owner(b) !in st.byUser
  {
    ReachPruned(c, a, b);
    var leaving := Task([DropRoute(a), Shut(a)], []);
    st := TwoSockets(map[], {}, {a}, {}, a, leaving, b, Storing(b));
    StoringAfter(c, st, b);
    RunSecond(c, st, a, leaving, b, Storing(b), [], Task(AfterStore(b), []));
    assert {} + {b} == {b};
    st := TwoSockets(map[], {b}, {a}, {}, a, leaving, b, Task(AfterStore(b), []));
    TailIsPlain(b);
    assert AfterStore(b)[0] == Settle(true);
    assert forall t :: t in st.tasks ==> t == Socket(a) || t == Socket(b);
  }

  /** The other stale step: the reconnect has stored its session before the old connection's
      removal prunes the refilled bucket. */
  lemma StalePruneStrandsAStoredSession(c: Setup, a: SessionId, b: SessionId) returns (st: State, e: Event)
    requires SameUser(c, a, b)
    ensures Reachable(c, st) && Enabled(c, st, e) && Strands(c, st, e, b) && st.tasks[e.t].todo[0].PruneUser?
    ensures Stranded(c, Apply(c, st, e), b) && Reachable(c, Apply(c, st, e))
  {
    ReachRefilled(c, a, b);
    st := TwoSockets(map[c.owner(b) := {b}], {a}, {a}, {}, a, Pruning(c, a), b, Storing(b));
    StoringAfter(c, st, b);
    RunSecond(c, st, a, Pruning(c, a), b, Storing(b), [], Task(AfterStore(b), []));
    st := TwoSockets(st.byUser, {a} + {b}, {a}, {}, a, Pruning(c, a), b, Task(AfterStore(b), []));
    e := Run(Socket(a), []);
    ReachableStrands(c, st, e, b);
    var _ := ReachStep(c, st, e);
  }

  lemma ReachableStrands(c: Setup, st: State, e: Event, s: SessionId)
    requires Reachable(c, st) && Enabled(c, st, e) && Strands(c, st, e, s)
    ensures Stranded(c, Apply(c, st, e), s)
  {
    var states, events :| IsRun(c, states, events) && states[|states| - 1] == st;
    InvHolds(c, states, events, |states| - 1);
    if st.tasks[e.t].todo[0].PruneUser? {
      PruneStrands(c, st, e, s);
    } else {
      StoreStrands(c, st, e, s);
    }
  }

  // ---------------------------------------------------------------- two open sessions under replacement

  function Displacing(a: SessionId, b: SessionId): Task {
    Task([Unlink(a), StoreSession(b)] + AfterStore(b), [])
  }

  /** `b` displaces `a`, whatever `a` has done since its reservation. */
  lemma ReachDisplaced(c: Setup, st: State, a: SessionId, first: Task, b: SessionId)
    requires SameUser(c, a, b) && c.replace && Reachable(c, st)
    requires st.byUser == map[c.owner(a) := {a}] && st.tasks == map[Socket(a) := first]
    ensures Reachable(c, TwoSockets(map[c.owner(b) := {b}], st.bySession, st.routes, st.closed, a, first, b, Displacing(a, b)))
  {
    var entering := Task(SocketProgram(b), []);
    OpenSecond(c, st, a, first, b);
    var two := TwoSockets(st.byUser, st.bySession, st.routes, st.closed, a, first, b, entering);
    assert Displaced(two.byUser, c.owner(b), c.replace) == {a};
    assert Reserve(two.byUser, c.owner(b), b, c.replace) == map[c.owner(b) := {b}] by {
      assert {} + {b} == {b};
    }
    assert TaskAfter(c, two, entering, [a]) == Displacing(a, b) by {
      assert Unlinks([a]) == [Unlink(a)];
    }
    RunSecond(c, two, a, first, b, entering, [a], Displacing(a, b));
  }

  /** `b` stores its session, having found nothing of `a` to take out. */
  lemma ReachBeside(c: Setup, a: SessionId, b: SessionId)
    requires SameUser(c, a, b) && c.replace
    ensures Reachable(c, TwoSockets(map[c.owner(b) := {b}], {b}, {}, {}, a, Storing(a), b, Task(AfterStore(b), [])))
  {
    ReachReserved(c, a);
    var reserved := OneSocket(map[c.owner(a) := {a}], {}, {}, a, Storing(a));
    ReachDisplaced(c, reserved, a, Storing(a), b);
    var st := TwoSockets(map[c.owner(b) := {b}], {}, {}, {}, a, Storing(a), b, Displacing(a, b));
    assert TaskAfter(c, st, Displacing(a, b), []) == Storing(b);
    RunSecond(c, st, a, Storing(a), b, Displacing(a, b), [], Storing(b));
    assert {} - {a} == {};
    st := TwoSockets(st.byUser, {}, {}, {}, a, Storing(a), b, Storing(b));
    StoringAfter(c, st, b);
    RunSecond(c, st, a, Storing(a), b, Storing(b), [], Task(AfterStore(b), []));
    assert {} + {b} == {b};
  }

  /** Two overlapping accepts of one user under replacement can leave both sessions registered
      and open, with nothing in flight and nobody left to close the older one. */
  lemma ReplacementLeavesTwoOpen(c: Setup, a: SessionId, b: SessionId) returns (st: State)
    requires SameUser(c, a, b) && c.replace
    ensures Reachable(c, st) && Idle(c, st, c.owner(a))
    ensures st.bySession == {a, b} && st.closed == {}
  {
    ReachBeside(c, a, b);
    st := TwoSockets(map[c.owner(b) := {b}], {b}, {}, {}, a, Storing(a), b, Task(AfterStore(b), []));
    StoringAfter(c, st, a);
    RunFirst(c, st, a, Storing(a), b, Task(AfterStore(b), []), Task(AfterStore(a), []));
    assert {b} + {a} == {a, b};
    st := TwoSockets(st.byUser, {a, b}, {}, {}, a, Task(AfterStore(a), []), b, Task(AfterStore(b), []));
    TailIsPlain(a);
    TailIsPlain(b);
    assert AfterStore(a)[0] == AfterStore(b)[0] == Settle(true);
    assert forall t :: t in st.tasks ==> t == Socket(a) || t == Socket(b);
  }

  // ---------------------------------------------------------------- a route without a session

  /** The task of `b` when it still has to do `todo` to the displaced `a`. */
  function Removing(todo: seq<Action>, b: SessionId): Task {
    Task(todo + AfterStore(b), [])
  }

  /** `b` is registered and is about to remove what `a` left. */
  lemma ReachRemoving(c: Setup, a: SessionId, b: SessionId)
    requires SameUser(c, a, b) && c.replace
    ensures Reachable(c, TwoSockets(map[c.owner(b) := {b}], {b}, {}, {}, a, Task(AfterStore(a), []),
                                    b, Task(AfterStore(b), [a])))
  {
    ReachServing(c, a);
    var first := Task(AfterStore(a), []);
    var serving := OneSocket(map[c.owner(a) := {a}], {a}, {}, a, first);
    ReachDisplaced(c, serving, a, first, b);
    var st := TwoSockets(map[c.owner(b) := {b}], {a}, {}, {}, a, first, b, Displacing(a, b));
    var storing := Task([StoreSession(b)] + AfterStore(b), [a]);
    assert TaskAfter(c, st, Displacing(a, b), []) == storing;
    RunSecond(c, st, a, first, b, Displacing(a, b), [], storing);
    assert {a} - {a} == {};
    st := TwoSockets(st.byUser, {}, {}, {}, a, first, b, storing);
    assert TaskAfter(c, st, storing, []) == Task(AfterStore(b), [a]);
    RunSecond(c, st, a, first, b, storing, [], Task(AfterStore(b), [a]));
    assert {} + {b} == {b};
  }

  lemma SettleAfter(c: Setup, st: State, a: SessionId, b: SessionId)
    ensures TaskAfter(c, st, Task(AfterStore(b), [a]), []) == Removing([Shut(a)] + Unregister(a), b)
  {
    assert [Settle(true)] + AfterStore(b)[1..] == AfterStore(b);
  }

  /** `b` has closed `a`. */
  lemma ReachShut(c: Setup, a: SessionId, b: SessionId)
    requires SameUser(c, a, b) && c.replace
    ensures Reachable(c, TwoSockets(map[c.owner(b) := {b}], {b}, {}, {a}, a, Task(AfterStore(a), []),
                                    b, Removing(Unregister(a), b)))
  {
    ReachRemoving(c, a, b);
    var first, held := Task(AfterStore(a), []), Task(AfterStore(b), [a]);
    var shutting := Removing([Shut(a)] + Unregister(a), b);
    var st := TwoSockets(map[c.owner(b) := {b}], {b}, {}, {}, a, first, b, held);
    SettleAfter(c, st, a, b);
    RunSecond(c, st, a, first, b, held, [], shutting);
    st := TwoSockets(st.byUser, {b}, {}, {}, a, first, b, shutting);
    assert TaskAfter(c, st, shutting, []) == Removing(Unregister(a), b);
    RunSecond(c, st, a, first, b, shutting, [], Removing(Unregister(a), b));
    assert {} + {a} == {a};
  }

  /** `b` has found the bucket entry and the primary entry of `a` gone. */
  lemma ReachDropped(c: Setup, a: SessionId, b: SessionId)
    requires SameUser(c, a, b) && c.replace
    ensures Reachable(c, TwoSockets(map[c.owner(b) := {b}], {b}, {}, {a}, a, Task(AfterStore(a), []),
                                    b, Removing([DropRoute(a), Shut(a)], b)))
  {
    ReachShut(c, a, b);
    var first := Task(AfterStore(a), []);
    var dropping := Removing([DropSession(a), DropRoute(a), Shut(a)], b);
    var st := TwoSockets(map[c.owner(b) := {b}], {b}, {}, {a}, a, first, b, Removing(Unregister(a), b));
    assert b in {b} - {a} && {b} - {a} == {b};
    assert Discard(st.byUser, c.owner(a), a) == st.byUser;
    assert TaskAfter(c, st, Removing(Unregister(a), b), []) == dropping;
    RunSecond(c, st, a, first, b, Removing(Unregister(a), b), [], dropping);
    st := TwoSockets(st.byUser, {b}, {}, {a}, a, first, b, dropping);
    assert TaskAfter(c, st, dropping, []) == Removing([DropRoute(a), Shut(a)], b);
    RunSecond(c, st, a, first, b, dropping, [], Removing([DropRoute(a), Shut(a)], b));
  }

  /** `b` has removed what `a` left before `a` has published its route. */
  lemma ReachRemoved(c: Setup, a: SessionId, b: SessionId)
    requires SameUser(c, a, b) && c.replace
    ensures Reachable(c, TwoSockets(map[c.owner(b) := {b}], {b}, {}, {a}, a, Task(AfterStore(a), []),
                                    b, Task(AfterStore(b), [])))
  {
    ReachDropped(c, a, b);
    var first := Task(AfterStore(a), []);
    var st := TwoSockets(map[c.owner(b) := {b}], {b}, {}, {a}, a, first, b, Removing([DropRoute(a), Shut(a)], b));
    assert TaskAfter(c, st, Removing([DropRoute(a), Shut(a)], b), []) == Removing([Shut(a)], b);
    RunSecond(c, st, a, first, b, Removing([DropRoute(a), Shut(a)], b), [], Removing([Shut(a)], b));
    assert {} - {a} == {};
    st := TwoSockets(st.byUser, {b}, {}, {a}, a, first, b, Removing([Shut(a)], b));
    assert TaskAfter(c, st, Removing([Shut(a)], b), []) == Task(AfterStore(b), []);
    RunSecond(c, st, a, first, b, Removing([Shut(a)], b), [], Task(AfterStore(b), []));
    assert {a} + {a} == {a};
  }

  /** `a` has published its route after all. */
  lemma ReachPublished(c: Setup, a: SessionId, b: SessionId)
    requires SameUser(c, a, b) && c.replace
    ensures Reachable(c, TwoSockets(map[c.owner(b) := {b}], {b}, {a}, {a}, a, Task(AfterPublish(a), []),
                                    b, Task(AfterStore(b), [])))
  {
    ReachRemoved(c, a, b);
    var first, second := Task(AfterStore(a), []), Task(AfterStore(b), []);
    var publishing := Task([PublishRoute(a)] + AfterPublish(a), []);
    var st := TwoSockets(map[c.owner(b) := {b}], {b}, {}, {a}, a, first, b, second);
    assert TaskAfter(c, st, first, []) == publishing;
    RunFirst(c, st, a, first, b, second, publishing);
    st := TwoSockets(st.byUser, {b}, {}, {a}, a, publishing, b, second);
    assert TaskAfter(c, st, publishing, []) == Task(AfterPublish(a), []);
    RunFirst(c, st, a, publishing, b, second, Task(AfterPublish(a), []));
    assert {} + {a} == {a};
  }

  /** A session displaced before it publishes its route ends up closed and unregistered while
      its route lingers. */
  lemma DisplacedSessionPublishesLate(c: Setup, a: SessionId, b: SessionId) returns (st: State)
    requires SameUser(c, a, b) && c.replace
    ensures Reachable(c, st) && Lingering(st, a) && a in st.closed
  {
    ReachPublished(c, a, b);
    st := TwoSockets(map[c.owner(b) := {b}], {b}, {a}, {a}, a, Task(AfterPublish(a), []), b, Task(AfterStore(b), []));
    assert AfterPublish(a)[0] == Serve(a);
    forall t
      ensures !RetractedBy(st, t, a)
    {
      if t == Socket(a) {
        assert Serve(a) in st.tasks[t].todo;
      }
    }
  }
}
