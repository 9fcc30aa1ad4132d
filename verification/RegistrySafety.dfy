/** What every interleaving keeps: nothing dangles, and nothing is left behind. */
module RegistrySafety {
  import opened Identity
  import opened UserIndexes
  import opened RegistryRaces

  // ---------------------------------------------------------------- invariant

  /** The socket task of `s` exists and has passed its reservation. */
  predicate Born(st: State, s: SessionId) {
    Socket(s) in st.tasks && ReserveId(s) !in st.tasks[Socket(s)].todo
  }

  predicate Owes(st: State, s: SessionId, a: Action) {
    Socket(s) in st.tasks && a in st.tasks[Socket(s)].todo
  }

  predicate Names(a: Action, s: SessionId) {
    match a
    case Settle(_) => false
    case PruneUser(_) => false
    case Scan => false
    case _ => a.s == s
  }

  ghost predicate Mentions(task: Task, s: SessionId) {
    s in task.held || exists a :: a in task.todo && Names(a, s)
  }

  /** Before its reservation a session is known to its own task only. */
  ghost predicate UnbornAreUnknown(st: State) {
    forall t, s :: t in st.tasks && Mentions(st.tasks[t], s) ==> t == Socket(s) || Born(st, s)
  }

  /** `todo` ends in `tail`, and before that come only displaced sessions to unlink, then `a`. */
  predicate LeadsTo(todo: seq<Action>, a: Action, tail: seq<Action>) {
    && |tail| < |todo|
    && todo[|todo| - |tail|..] == tail
    && todo[|todo| - |tail| - 1] == a
    && a !in todo[..|todo| - |tail| - 1]
  }

  function AfterStore(s: SessionId): seq<Action> {
    [Settle(true), PublishRoute(s), Serve(s), DiscardId(s), DropSession(s), DropRoute(s), Shut(s)]
  }

  function AfterPublish(s: SessionId): seq<Action> {
    [Serve(s), DiscardId(s), DropSession(s), DropRoute(s), Shut(s)]
  }

  /** A session is reserved, stored and published by its own task only, in program order. */
  ghost predicate InOrder(t: TaskId, task: Task, s: SessionId) {
    && (ReserveId(s) in task.todo ==> t == Socket(s) && task == Task(SocketProgram(s), []))
    && (StoreSession(s) in task.todo ==>
          t == Socket(s) && LeadsTo(task.todo, StoreSession(s), AfterStore(s)))
    && (PublishRoute(s) in task.todo ==>
          t == Socket(s) && LeadsTo(task.todo, PublishRoute(s), AfterPublish(s)))
  }

  ghost predicate AllInOrder(st: State) {
    forall t, s :: t in st.tasks ==> InOrder(t, st.tasks[t], s)
  }

  /** Every pending primary removal of `s` still has its bucket removal before it. */
  predicate Guarded(todo: seq<Action>, s: SessionId) {
    todo == [] || todo[0] == DiscardId(s) ||
    (todo[0] != DropSession(s) && Guarded(todo[1..], s))
  }

  /** No task is about to take `s` out of the primary index. */
  ghost predicate Untouched(st: State, t: TaskId, s: SessionId) {
    t in st.tasks ==> Unlink(s) !in st.tasks[t].todo && Guarded(st.tasks[t].todo, s)
  }

  /** An id still in a bucket is being removed by nobody. */
  ghost predicate BucketsUntouched(st: State) {
    forall u, s, t :: s in Bucket(st.byUser, u) ==> Untouched(st, t, s)
  }

  ghost predicate BucketsBacked(c: Setup, st: State) {
    forall u, s :: s in Bucket(st.byUser, u) ==>
      && c.owner(s) == u
      && Born(st, s) && Owes(st, s, DiscardId(s))
      && (s in st.bySession || Owes(st, s, StoreSession(s)))
  }

  predicate PruneIsNext(st: State, t: TaskId, u: UserId) {
    Runnable(st, t) && st.tasks[t].todo[0] == PruneUser(u)
  }

  ghost predicate EmptyBucketsPending(st: State) {
    forall u :: u in st.byUser && st.byUser[u] == {} ==> exists t :: PruneIsNext(st, t, u)
  }

  ghost predicate OnePerUser(c: Setup, st: State) {
    c.replace ==> forall u, x, y :: x in Bucket(st.byUser, u) && y in Bucket(st.byUser, u) ==> x == y
  }

  ghost predicate SessionsBacked(st: State) {
    forall s :: s in st.bySession ==>
      Born(st, s) && !Owes(st, s, StoreSession(s)) && Owes(st, s, DropSession(s))
  }

  ghost predicate RoutesBacked(st: State) {
    forall s :: s in st.routes ==> Owes(st, s, DropRoute(s))
  }

  ghost predicate OpenOrClosing(st: State) {
    forall s :: Socket(s) in st.tasks ==> Owes(st, s, Shut(s)) || s in st.closed
  }

  ghost predicate Inv(c: Setup, st: State) {
    && UnbornAreUnknown(st) && AllInOrder(st)
    && BucketsUntouched(st) && BucketsBacked(c, st)
    && EmptyBucketsPending(st) && OnePerUser(c, st)
    && SessionsBacked(st) && RoutesBacked(st) && OpenOrClosing(st)
  }

  // ---------------------------------------------------------------- programs and tails

  lemma {:induction false} GuardedJoin(front: seq<Action>, back: seq<Action>, s: SessionId)
    requires Guarded(front, s) && Guarded(back, s)
    ensures Guarded(front + back, s)
  {
    if front == [] {
      assert front + back == back;
    } else if front[0] != DiscardId(s) {
      GuardedJoin(front[1..], back, s);
      assert (front + back)[1..] == front[1..] + back;
    }
  }

  lemma {:induction false} GuardedWithout(todo: seq<Action>, s: SessionId)
    requires DropSession(s) !in todo
    ensures Guarded(todo, s)
  {
    if todo != [] {
      GuardedWithout(todo[1..], s);
    }
  }

  lemma UnregisterGuarded(d: SessionId, s: SessionId)
    ensures Guarded(Unregister(d), s)
  {
    if d != s {
      GuardedWithout(Unregister(d), s);
    }
  }

  lemma ExpansionGuarded(c: Setup, st: State, a: Action, held: seq<SessionId>, order: seq<SessionId>, s: SessionId)
    ensures Guarded(Expansion(c, st, a, held, order), s)
  {
    var push := Expansion(c, st, a, held, order);
    if a.Settle? && held != [] {
      var first := if a.shutFirst then [Shut(held[0])] else [];
      var loop := [Settle(a.shutFirst)];
      GuardedWithout(first, s);
      UnregisterGuarded(held[0], s);
      GuardedWithout(loop, s);
      GuardedJoin(first, Unregister(held[0]), s);
      GuardedJoin(first + Unregister(held[0]), loop, s);
    } else {
      GuardedWithout(push, s);
    }
  }

  /** What a step of task `t` leaves in its program was there, or was just pushed. */
  lemma TodoAfter(c: Setup, st: State, task: Task, order: seq<SessionId>, a: Action)
    requires task.todo != []
    ensures a in TaskAfter(c, st, task, order).todo <==>
            a in Expansion(c, st, task.todo[0], task.held, order) || a in task.todo[1..]
    ensures a in task.todo ==> a == task.todo[0] || a in task.todo[1..]
    ensures a in task.todo[1..] ==> a in task.todo
  {
  }

  /** Pushed actions never reserve, store or publish; those come from a program's start only. */
  lemma PushedKinds(c: Setup, st: State, a: Action, held: seq<SessionId>, order: seq<SessionId>, b: Action)
    requires b in Expansion(c, st, a, held, order)
    ensures !b.ReserveId? && !b.StoreSession? && !b.PublishRoute?
    ensures b.Unlink? ==> a.ReserveId? && b.s in order
    ensures b.PruneUser? ==> a.DiscardId? && b.u == c.owner(a.s) && ShouldPrune(st.byUser, b.u, a.s)
    ensures b.DiscardId? || b.DropSession? || b.DropRoute? || b.Shut? ==> a.Settle? && held != [] && b.s == held[0]
    ensures !b.Serve? && !b.Scan?
  {
  }

  lemma LeadsToAfter(front: seq<Action>, todo: seq<Action>, a: Action, tail: seq<Action>)
    requires LeadsTo(todo, a, tail) && todo[0] != a && a !in front
    ensures LeadsTo(front + todo[1..], a, tail)
  {
    var next := front + todo[1..];
    assert |tail| + 1 < |todo|;
    assert next[|next| - |tail|..] == todo[|todo| - |tail|..];
    assert next[|next| - |tail| - 1] == todo[|todo| - |tail| - 1];
    assert next[..|next| - |tail| - 1] == front + todo[1..|todo| - |tail| - 1];
  }

  // ---------------------------------------------------------------- one step

  lemma BornStays(c: Setup, st: State, e: Event, s: SessionId)
    requires Enabled(c, st, e) && Born(st, s)
    ensures Born(Apply(c, st, e), s)
  {
    if e.Run? && e.t == Socket(s) {
      var task := st.tasks[e.t];
      TodoAfter(c, st, task, e.order, ReserveId(s));
      if ReserveId(s) in Expansion(c, st, task.todo[0], task.held, e.order) {
        PushedKinds(c, st, task.todo[0], task.held, e.order, ReserveId(s));
      }
    }
  }

  /** A debt of the own task of `s` is paid only by performing it. */
  lemma OwesStays(c: Setup, st: State, e: Event, s: SessionId, a: Action)
    requires Enabled(c, st, e) && Owes(st, s, a)
    requires !(e.Run? && e.t == Socket(s) && st.tasks[e.t].todo[0] == a)
    ensures Owes(Apply(c, st, e), s, a)
  {
    if e.Run? && e.t == Socket(s) {
      TodoAfter(c, st, st.tasks[e.t], e.order, a);
    }
  }

  /** Running a step never pushes an action that only a starting program brings. */
  lemma FromStartAfter(c: Setup, st: State, task: Task, order: seq<SessionId>, a: Action)
    requires task.todo != [] && (a.ReserveId? || a.StoreSession? || a.PublishRoute?)
    ensures a in TaskAfter(c, st, task, order).todo <==> a in task.todo[1..]
    ensures a !in Expansion(c, st, task.todo[0], task.held, order)
  {
    TodoAfter(c, st, task, order, a);
    if a in Expansion(c, st, task.todo[0], task.held, order) {
      PushedKinds(c, st, task.todo[0], task.held, order, a);
    }
  }

  lemma LeadsOn(c: Setup, st: State, task: Task, order: seq<SessionId>, a: Action, tail: seq<Action>)
    requires task.todo != [] && LeadsTo(task.todo, a, tail) && a !in tail
    requires a !in Expansion(c, st, task.todo[0], task.held, order)
    requires a in task.todo[1..]
    ensures LeadsTo(TaskAfter(c, st, task, order).todo, a, tail)
  {
    assert task.todo[0] != a;
    LeadsToAfter(Expansion(c, st, task.todo[0], task.held, order), task.todo, a, tail);
  }

  lemma ReservesOnce(s: SessionId)
    ensures ReserveId(s) !in SocketProgram(s)[1..]
    ensures StoreSession(s) in SocketProgram(s)[1..] && DiscardId(s) in SocketProgram(s)[1..]
  {
    var rest := SocketProgram(s)[1..];
    assert rest[0] == StoreSession(s) && rest[4] == DiscardId(s);
  }

  lemma LeadsOnAfter(c: Setup, st: State, task: Task, order: seq<SessionId>, a: Action, tail: seq<Action>)
    requires task.todo != [] && (a.StoreSession? || a.PublishRoute?) && a !in tail
    requires a in task.todo ==> LeadsTo(task.todo, a, tail)
    ensures var next := TaskAfter(c, st, task, order).todo;
            a in next ==> a in task.todo && LeadsTo(next, a, tail)
  {
    FromStartAfter(c, st, task, order, a);
    if a in task.todo[1..] {
      LeadsOn(c, st, task, order, a, tail);
    }
  }

  lemma RunInOrder(c: Setup, st: State, t: TaskId, task: Task, order: seq<SessionId>, s: SessionId)
    requires task.todo != [] && InOrder(t, task, s)
    ensures InOrder(t, TaskAfter(c, st, task, order), s)
  {
    ReservesOnce(s);
    FromStartAfter(c, st, task, order, ReserveId(s));
    LeadsOnAfter(c, st, task, order, StoreSession(s), AfterStore(s));
    LeadsOnAfter(c, st, task, order, PublishRoute(s), AfterPublish(s));
  }

  lemma ProgramLeadsOn(s: SessionId)
    ensures LeadsTo(SocketProgram(s), StoreSession(s), AfterStore(s))
    ensures LeadsTo(SocketProgram(s), PublishRoute(s), AfterPublish(s))
  {
    var program := SocketProgram(s);
    assert program[2..] == AfterStore(s);
    assert program[4..] == AfterPublish(s);
  }

  lemma StartInOrder(s: SessionId, x: SessionId)
    ensures InOrder(Socket(s), Task(SocketProgram(s), []), x)
    ensures forall t :: InOrder(t, Task(ReaperProgram(), []), x)
  {
    if x == s {
      ProgramLeadsOn(s);
    }
  }

  lemma AllInOrderKept(c: Setup, st: State, e: Event)
    requires AllInOrder(st) && Enabled(c, st, e)
    ensures AllInOrder(Apply(c, st, e))
  {
    var st' := Apply(c, st, e);
    forall t, s | t in st'.tasks
      ensures InOrder(t, st'.tasks[t], s)
    {
      match e
      case Run(r, order) =>
        if t == r { RunInOrder(c, st, t, st.tasks[t], order, s); }
      case Open(x) => StartInOrder(x, s);
      case StartReaper(_) => StartInOrder(s, s);
      case _ =>
        assert InOrder(t, st.tasks[t], s);
    }
  }

  /** Whatever running a step makes a task mention was mentioned before or stands in a bucket. */
  lemma NewlyMentioned(c: Setup, st: State, task: Task, order: seq<SessionId>, s: SessionId)
    requires task.todo != [] && Mentions(TaskAfter(c, st, task, order), s)
    ensures Mentions(task, s) || (task.todo[0].ReserveId? && s in order)
  {
    var next, head := TaskAfter(c, st, task, order), task.todo[0];
    if s in next.held {
      if head.Unlink? && head.s == s {
        assert Names(head, s);
      }
    } else {
      var b :| b in next.todo && Names(b, s);
      TodoAfter(c, st, task, order, b);
      if b in Expansion(c, st, head, task.held, order) {
        PushedKinds(c, st, head, task.held, order, b);
      }
    }
  }

  lemma UnbornAreUnknownKept(c: Setup, st: State, e: Event)
    requires UnbornAreUnknown(st) && BucketsBacked(c, st) && SessionsBacked(st) && Enabled(c, st, e)
    ensures UnbornAreUnknown(Apply(c, st, e))
  {
    var st' := Apply(c, st, e);
    forall t, s | t in st'.tasks && Mentions(st'.tasks[t], s)
      ensures t == Socket(s) || Born(st', s)
    {
      if e.Run? && t == e.t {
        NewlyMentioned(c, st, st.tasks[t], e.order, s);
      } else if e.See? && t == e.t && s != e.s {
        assert Mentions(st.tasks[t], s);
      }
      if Born(st, s) {
        BornStays(c, st, e, s);
      }
    }
  }

  /** An id enters a bucket by its own reservation only, and its removal takes it out. */
  lemma BucketChange(c: Setup, st: State, e: Event, u: UserId, s: SessionId)
    requires Enabled(c, st, e)
    requires s in Bucket(Apply(c, st, e).byUser, u)
    ensures s in Bucket(st.byUser, u) ||
            (e.Run? && st.tasks[e.t].todo[0] == ReserveId(s) && u == c.owner(s))
    ensures e.Run? && st.tasks[e.t].todo[0] == DiscardId(s) ==> u != c.owner(s)
    ensures e.Run? && st.tasks[e.t].todo[0].ReserveId? && c.replace && u == c.owner(st.tasks[e.t].todo[0].s) ==>
              s == st.tasks[e.t].todo[0].s
  {
  }

  lemma ProgramsGuarded(x: SessionId, s: SessionId)
    ensures Guarded(SocketProgram(x), s) && Guarded(ReaperProgram(), s)
    ensures Unlink(s) !in SocketProgram(x) && Unlink(s) !in ReaperProgram()
  {
    GuardedWithout(ReaperProgram(), s);
    if x == s {
      var pre := SocketProgram(x)[..5];
      GuardedWithout(pre, s);
      UnregisterGuarded(s, s);
      GuardedJoin(pre, Unregister(s), s);
      assert pre + Unregister(s) == SocketProgram(x);
    } else {
      GuardedWithout(SocketProgram(x), s);
    }
  }

  lemma UntouchedAfterRun(c: Setup, st: State, t: TaskId, order: seq<SessionId>, s: SessionId)
    requires Enabled(c, st, Run(t, order)) && Untouched(st, t, s)
    requires st.tasks[t].todo[0] != DiscardId(s)
    requires st.tasks[t].todo[0].ReserveId? ==> s !in order
    ensures Untouched(Apply(c, st, Run(t, order)), t, s)
  {
    var task := st.tasks[t];
    var push := Expansion(c, st, task.todo[0], task.held, order);
    TodoAfter(c, st, task, order, Unlink(s));
    if Unlink(s) in push {
      PushedKinds(c, st, task.todo[0], task.held, order, Unlink(s));
    }
    ExpansionGuarded(c, st, task.todo[0], task.held, order, s);
    GuardedJoin(push, task.todo[1..], s);
  }

  lemma UnmentionedUntouched(st: State, t: TaskId, s: SessionId)
    requires t in st.tasks && !Mentions(st.tasks[t], s)
    ensures Untouched(st, t, s)
  {
    var todo := st.tasks[t].todo;
    assert Names(Unlink(s), s) && Names(DropSession(s), s);
    GuardedWithout(todo, s);
  }

  lemma ReservedUntouchedByItself(c: Setup, st: State, e: Event, s: SessionId)
    requires AllInOrder(st) && BucketsBacked(c, st) && Enabled(c, st, e)
    requires e.Run? && st.tasks[e.t].todo[0] == ReserveId(s)
    ensures e.t == Socket(s) && Untouched(Apply(c, st, e), e.t, s)
  {
    assert InOrder(e.t, st.tasks[e.t], s) && !Born(st, s);
    assert s !in Bucket(st.byUser, c.owner(s));
    ProgramsGuarded(s, s);
    UntouchedAfterRun(c, st, e.t, e.order, s);
  }

  /** A fresh reservation finds nobody after its id. */
  lemma ReservedUntouched(c: Setup, st: State, e: Event, t: TaskId, s: SessionId)
    requires UnbornAreUnknown(st) && AllInOrder(st) && BucketsBacked(c, st) && Enabled(c, st, e)
    requires e.Run? && st.tasks[e.t].todo[0] == ReserveId(s)
    ensures Untouched(Apply(c, st, e), t, s)
  {
    ReservedUntouchedByItself(c, st, e, s);
    if t != e.t && t in st.tasks {
      assert !Born(st, s);
      UnmentionedUntouched(st, t, s);
    }
  }

  lemma BucketsUntouchedKept(c: Setup, st: State, e: Event)
    requires Inv(c, st) && Enabled(c, st, e)
    ensures BucketsUntouched(Apply(c, st, e))
  {
    var st' := Apply(c, st, e);
    forall u, s, t | s in Bucket(st'.byUser, u)
      ensures Untouched(st', t, s)
    {
      OneUntouchedKept(c, st, e, u, s, t);
    }
  }

  lemma OneUntouchedKept(c: Setup, st: State, e: Event, u: UserId, s: SessionId, t: TaskId)
    requires Inv(c, st) && Enabled(c, st, e)
    requires s in Bucket(Apply(c, st, e).byUser, u)
    ensures Untouched(Apply(c, st, e), t, s)
  {
    BucketChange(c, st, e, u, s);
    if s !in Bucket(st.byUser, u) {
      ReservedUntouched(c, st, e, t, s);
    } else {
      assert c.owner(s) == u && Born(st, s);
      assert Untouched(st, t, s);
      match e
      case Run(r, order) =>
        if t == r {
          var head := st.tasks[t].todo[0];
          assert InOrder(t, st.tasks[t], s);
          if head.ReserveId? && s in order {
            assert false;
          }
          UntouchedAfterRun(c, st, t, order, s);
        }
      case Open(x) => ProgramsGuarded(x, s);
      case StartReaper(_) => ProgramsGuarded(s, s);
      case _ =>
    }
  }

  lemma BucketsBackedKept(c: Setup, st: State, e: Event)
    requires Inv(c, st) && Enabled(c, st, e)
    ensures BucketsBacked(c, Apply(c, st, e))
  {
    var st' := Apply(c, st, e);
    forall u, s | s in Bucket(st'.byUser, u)
      ensures c.owner(s) == u && Born(st', s) && Owes(st', s, DiscardId(s))
      ensures s in st'.bySession || Owes(st', s, StoreSession(s))
    {
      BucketChange(c, st, e, u, s);
      if s in Bucket(st.byUser, u) {
        StillBacked(c, st, e, u, s);
      } else {
        ReservedBacked(c, st, e, s);
      }
    }
  }

  lemma ReservedBacked(c: Setup, st: State, e: Event, s: SessionId)
    requires AllInOrder(st) && Enabled(c, st, e)
    requires e.Run? && st.tasks[e.t].todo[0] == ReserveId(s)
    ensures Born(Apply(c, st, e), s)
    ensures Owes(Apply(c, st, e), s, DiscardId(s)) && Owes(Apply(c, st, e), s, StoreSession(s))
  {
    var task := st.tasks[e.t];
    assert InOrder(e.t, task, s);
    ReservesOnce(s);
    FromStartAfter(c, st, task, e.order, ReserveId(s));
    TodoAfter(c, st, task, e.order, StoreSession(s));
    TodoAfter(c, st, task, e.order, DiscardId(s));
  }

  lemma StillBacked(c: Setup, st: State, e: Event, u: UserId, s: SessionId)
    requires BucketsBacked(c, st) && BucketsUntouched(st) && Enabled(c, st, e)
    requires s in Bucket(st.byUser, u) && s in Bucket(Apply(c, st, e).byUser, u)
    ensures Born(Apply(c, st, e), s) && Owes(Apply(c, st, e), s, DiscardId(s))
    ensures s in Apply(c, st, e).bySession || Owes(Apply(c, st, e), s, StoreSession(s))
  {
    BucketChange(c, st, e, u, s);
    BornStays(c, st, e, s);
    OwesStays(c, st, e, s, DiscardId(s));
    if s in st.bySession {
      if e.Run? {
        assert Untouched(st, e.t, s);
        assert st.tasks[e.t].todo[0] != DropSession(s);
      }
    } else if !(e.Run? && st.tasks[e.t].todo[0] == StoreSession(s)) {
      OwesStays(c, st, e, s, StoreSession(s));
    }
  }

  lemma EmptyBucketsPendingKept(c: Setup, st: State, e: Event)
    requires EmptyBucketsPending(st) && Enabled(c, st, e)
    ensures EmptyBucketsPending(Apply(c, st, e))
  {
    var st' := Apply(c, st, e);
    forall u | u in st'.byUser && st'.byUser[u] == {}
      ensures exists t :: PruneIsNext(st', t, u)
    {
      if u in st.byUser && st.byUser[u] == {} {
        var t :| PruneIsNext(st, t, u);
        assert PruneIsNext(st', t, u);
      } else {
        assert e.Run? && st.tasks[e.t].todo[0].DiscardId?;
        assert PruneIsNext(st', e.t, u);
      }
    }
  }

  lemma OnePerUserKept(c: Setup, st: State, e: Event)
    requires OnePerUser(c, st) && Enabled(c, st, e)
    ensures OnePerUser(c, Apply(c, st, e))
  {
    var st' := Apply(c, st, e);
    if c.replace {
      forall u, x, y | x in Bucket(st'.byUser, u) && y in Bucket(st'.byUser, u)
        ensures x == y
      {
        BucketChange(c, st, e, u, x);
        BucketChange(c, st, e, u, y);
      }
    }
  }

  lemma SessionsBackedKept(c: Setup, st: State, e: Event)
    requires SessionsBacked(st) && AllInOrder(st) && Enabled(c, st, e)
    ensures SessionsBacked(Apply(c, st, e))
  {
    var st' := Apply(c, st, e);
    forall s | s in st'.bySession
      ensures Born(st', s) && !Owes(st', s, StoreSession(s)) && Owes(st', s, DropSession(s))
    {
      if s in st.bySession {
        BornStays(c, st, e, s);
        OwesStays(c, st, e, s, DropSession(s));
        if e.Run? && e.t == Socket(s) {
          FromStartAfter(c, st, st.tasks[e.t], e.order, StoreSession(s));
        }
      } else {
        StoredBacked(c, st, e, s);
      }
    }
  }

  lemma StoredBacked(c: Setup, st: State, e: Event, s: SessionId)
    requires AllInOrder(st) && Enabled(c, st, e)
    requires e.Run? && st.tasks[e.t].todo[0] == StoreSession(s)
    ensures Born(Apply(c, st, e), s) && !Owes(Apply(c, st, e), s, StoreSession(s))
    ensures Owes(Apply(c, st, e), s, DropSession(s))
  {
    var task := st.tasks[e.t];
    assert InOrder(e.t, task, s);
    assert task.todo[1..] == AfterStore(s);
    assert AfterStore(s)[4] == DropSession(s);
    FromStartAfter(c, st, task, e.order, StoreSession(s));
    FromStartAfter(c, st, task, e.order, ReserveId(s));
  }

  lemma RoutesBackedKept(c: Setup, st: State, e: Event)
    requires RoutesBacked(st) && AllInOrder(st) && Enabled(c, st, e)
    ensures RoutesBacked(Apply(c, st, e))
  {
    var st' := Apply(c, st, e);
    forall s | s in st'.routes
      ensures Owes(st', s, DropRoute(s))
    {
      if s in st.routes {
        OwesStays(c, st, e, s, DropRoute(s));
      } else {
        var task := st.tasks[e.t];
        assert InOrder(e.t, task, s);
        assert task.todo[1..] == AfterPublish(s);
        assert AfterPublish(s)[3] == DropRoute(s);
      }
    }
  }

  lemma OpenOrClosingKept(c: Setup, st: State, e: Event)
    requires OpenOrClosing(st) && Enabled(c, st, e)
    ensures OpenOrClosing(Apply(c, st, e))
  {
    var st' := Apply(c, st, e);
    forall s | Socket(s) in st'.tasks
      ensures Owes(st', s, Shut(s)) || s in st'.closed
    {
      if Socket(s) !in st.tasks {
        assert SocketProgram(s)[8] == Shut(s);
      } else if s !in st.closed && !(e.Run? && st.tasks[e.t].todo[0] == Shut(s)) {
        OwesStays(c, st, e, s, Shut(s));
      }
    }
  }

  lemma InvKept(c: Setup, st: State, e: Event)
    requires Inv(c, st) && Enabled(c, st, e)
    ensures Inv(c, Apply(c, st, e))
  {
    UnbornAreUnknownKept(c, st, e);
    AllInOrderKept(c, st, e);
    BucketsUntouchedKept(c, st, e);
    BucketsBackedKept(c, st, e);
    EmptyBucketsPendingKept(c, st, e);
    OnePerUserKept(c, st, e);
    SessionsBackedKept(c, st, e);
    RoutesBackedKept(c, st, e);
    OpenOrClosingKept(c, st, e);
  }

  lemma {:induction false} InvHolds(c: Setup, states: seq<State>, events: seq<Event>, i: nat)
    requires IsRun(c, states, events) && i < |states|
    ensures Inv(c, states[i])
  {
    if i > 0 {
      InvHolds(c, states, events, i - 1);
      InvKept(c, states[i - 1], events[i - 1]);
    }
  }

  // ---------------------------------------------------------------- the theorems

  /** The insert of `s` is between its reverse-index update and its primary-index update. */
  predicate Inserting(st: State, s: SessionId) {
    Born(st, s) && Owes(st, s, StoreSession(s))
  }

  /** The reverse index names only stored sessions or sessions being stored, under their own
      user, at most one when connections are replaced; an empty bucket is about to be pruned. */
  ghost predicate NothingDangles(c: Setup, st: State) {
    && (forall u, s :: s in Bucket(st.byUser, u) ==> c.owner(s) == u && (s in st.bySession || Inserting(st, s)))
    && (c.replace ==> forall u :: |Bucket(st.byUser, u)| <= 1)
    && (forall u :: u in st.byUser && st.byUser[u] == {} ==> exists t :: PruneIsNext(st, t, u))
  }

  lemma ReverseIndexNeverDangles(c: Setup, states: seq<State>, events: seq<Event>, i: nat)
    requires IsRun(c, states, events) && i < |states|
    ensures NothingDangles(c, states[i])
  {
    var st := states[i];
    InvHolds(c, states, events, i);
    if c.replace {
      forall u
        ensures |Bucket(st.byUser, u)| <= 1
      {
        AtMostOne(Bucket(st.byUser, u));
      }
    }
  }

  lemma AtMostOne<T>(s: set<T>)
    requires forall x, y :: x in s && y in s ==> x == y
    ensures |s| <= 1
  {
    if s != {} {
      var x :| x in s;
      assert s == {x};
    }
  }

  predicate AllDone(st: State) {
    forall t :: t in st.tasks ==> st.tasks[t].todo == []
  }

  /** Once every task has finished, both indexes and the presence routes are empty and
      every session that was ever opened is closed. */
  lemma NothingLeaks(c: Setup, states: seq<State>, events: seq<Event>, i: nat)
    requires IsRun(c, states, events) && i < |states|
    requires AllDone(states[i])
    ensures states[i].byUser == map[] && states[i].bySession == {} && states[i].routes == {}
    ensures forall s :: Socket(s) in states[i].tasks ==> s in states[i].closed
  {
    var st := states[i];
    InvHolds(c, states, events, i);
    forall u, s
      ensures s !in Bucket(st.byUser, u)
    {
      assert !Owes(st, s, DiscardId(s));
    }
    forall u
      ensures u !in st.byUser
    {
      assert Bucket(st.byUser, u) == {};
    }
  }
}
