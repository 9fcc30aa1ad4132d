/** Every interleaving of socket tasks and reapers over the registry and the presence store.

    A task is its remaining program: a list of atomic actions, the head being next.
    One action is one access to one shared structure. */
module RegistryRaces {
  import opened Identity
  import opened UserIndexes

  /** What does not change in a run: the user each session id was generated for,
      and whether a new connection replaces the user's old ones. */
  datatype Setup = Setup(owner: SessionId -> UserId, replace: bool)

  datatype Action =
    | ReserveId(s: SessionId)    // insert: reverse index update
    | Unlink(s: SessionId)       // insert: take one displaced session out of the primary index
    | StoreSession(s: SessionId) // insert: primary index entry
    | Settle(shutFirst: bool)    // loop head: next session to unregister
    | PublishRoute(s: SessionId) // register the presence route
    | Serve(s: SessionId)        // the connection is live
    | DiscardId(s: SessionId)    // remove: take the id out of the bucket
    | PruneUser(u: UserId)       // remove: drop the bucket seen empty
    | DropSession(s: SessionId)  // remove: primary index entry
    | DropRoute(s: SessionId)    // unregister: presence route
    | Shut(s: SessionId)         // close the session
    | Scan                       // reaper: collect sessions of the primary index

  /** `held` are the sessions a task collected and still has to unregister. */
  datatype Task = Task(todo: seq<Action>, held: seq<SessionId>)

  datatype TaskId = Socket(s: SessionId) | Reaper(n: nat)

  datatype State = State(
    byUser: UserIndex,
    bySession: set<SessionId>,
    routes: set<SessionId>,
    closed: set<SessionId>,
    tasks: map<TaskId, Task>)

  datatype Event =
    | Open(s: SessionId)                           // a socket task starts
    | StartReaper(n: nat)
    | Run(t: TaskId, order: seq<SessionId>)        // a task performs its head action
    | See(t: TaskId, s: SessionId)                 // a scan meets one more session
    | Lapse(s: SessionId)                          // a lookup purges an expired route
    | Fail(s: SessionId)                           // a failed enqueue closes a session

  // ---------------------------------------------------------------- programs

  function Unregister(s: SessionId): seq<Action> {
    [DiscardId(s), DropSession(s), DropRoute(s), Shut(s)]
  }

  /** Accept, serve, unregister. */
  function SocketProgram(s: SessionId): seq<Action> {
    [ReserveId(s), StoreSession(s), Settle(true), PublishRoute(s), Serve(s),
     DiscardId(s), DropSession(s), DropRoute(s), Shut(s)]
  }

  function ReaperProgram(): seq<Action> {
    [Scan, Settle(false)]
  }

  function Unlinks(order: seq<SessionId>): seq<Action> {
    seq(|order|, i requires 0 <= i < |order| => Unlink(order[i]))
  }

  // ---------------------------------------------------------------- steps

  /** `order` is the order in which a hash set is iterated. */
  ghost predicate Lists(order: seq<SessionId>, ids: set<SessionId>) {
    && (forall x :: x in order <==> x in ids)
    && (forall i, j :: 0 <= i < j < |order| ==> order[i] != order[j])
  }

  predicate Runnable(st: State, t: TaskId) {
    t in st.tasks && st.tasks[t].todo != []
  }

  ghost predicate Enabled(c: Setup, st: State, e: Event) {
    match e
    case Open(s) => Socket(s) !in st.tasks
    case StartReaper(n) => Reaper(n) !in st.tasks
    case Run(t, order) =>
      Runnable(st, t) &&
      (st.tasks[t].todo[0].ReserveId? ==>
         Lists(order, Displaced(st.byUser, c.owner(st.tasks[t].todo[0].s), c.replace)))
    case See(t, s) => Runnable(st, t) && st.tasks[t].todo[0] == Scan && s in st.bySession
    case Lapse(s) => true
    case Fail(s) => true
  }

  /** The shared state after one action. */
  function Effect(c: Setup, st: State, a: Action): State {
    match a
    case ReserveId(s) => st.(byUser := Reserve(st.byUser, c.owner(s), s, c.replace))
    case Unlink(s) => st.(bySession := st.bySession - {s})
    case StoreSession(s) => st.(bySession := st.bySession + {s})
    case PublishRoute(s) => st.(routes := st.routes + {s})
    case DiscardId(s) => st.(byUser := Discard(st.byUser, c.owner(s), s))
    case PruneUser(u) => st.(byUser := Prune(st.byUser, u))
    case DropSession(s) => st.(bySession := st.bySession - {s})
    case DropRoute(s) => st.(routes := st.routes - {s})
    case Shut(s) => st.(closed := st.closed + {s})
    case Settle(_) => st
    case Serve(_) => st
    case Scan => st
  }

  /** What the action puts before the rest of the task's program. */
  function Expansion(c: Setup, st: State, a: Action, held: seq<SessionId>, order: seq<SessionId>): seq<Action> {
    match a
    case ReserveId(s) => Unlinks(order)
    case Settle(shutFirst) =>
      if held == [] then []
      else (if shutFirst then [Shut(held[0])] else []) + Unregister(held[0]) + [Settle(shutFirst)]
    case DiscardId(s) =>
      if ShouldPrune(st.byUser, c.owner(s), s) then [PruneUser(c.owner(s))] else []
    case _ => []
  }

  function HeldAfter(st: State, a: Action, held: seq<SessionId>): seq<SessionId> {
    match a
    case Unlink(s) => if s in st.bySession then held + [s] else held
    case Settle(_) => if held == [] then held else held[1..]
    case _ => held
  }

  function TaskAfter(c: Setup, st: State, task: Task, order: seq<SessionId>): Task
    requires task.todo != []
  {
    var a := task.todo[0];
    Task(Expansion(c, st, a, task.held, order) + task.todo[1..], HeldAfter(st, a, task.held))
  }

  function Apply(c: Setup, st: State, e: Event): State
    requires Enabled(c, st, e)
  {
    match e
    case Open(s) => st.(tasks := st.tasks[Socket(s) := Task(SocketProgram(s), [])])
    case StartReaper(n) => st.(tasks := st.tasks[Reaper(n) := Task(ReaperProgram(), [])])
    case Run(t, order) =>
      Effect(c, st, st.tasks[t].todo[0]).(tasks := st.tasks[t := TaskAfter(c, st, st.tasks[t], order)])
    case See(t, s) => st.(tasks := st.tasks[t := st.tasks[t].(held := st.tasks[t].held + [s])])
    case Lapse(s) => st.(routes := st.routes - {s})
    case Fail(s) => st.(closed := st.closed + {s})
  }

  const START := State(map[], {}, {}, {}, map[])

  /** A run: its states, and the event between each state and the next. */
  ghost predicate IsRun(c: Setup, states: seq<State>, events: seq<Event>) {
    && |states| == |events| + 1
    && states[0] == START
    && forall i :: 0 <= i < |events| ==>
         Enabled(c, states[i], events[i]) && states[i + 1] == Apply(c, states[i], events[i])
  }
}
