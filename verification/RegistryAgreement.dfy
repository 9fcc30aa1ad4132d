/** When the two indexes agree, and exactly which steps make them disagree for good. */
module RegistryAgreement {
  import opened Identity
  import opened UserIndexes
  import opened RegistryRaces
  import opened RegistrySafety

  // ---------------------------------------------------------------- the shape of inserts and removals

  /** Only an insert unlinks, and it unlinks sessions of its own user. */
  ghost predicate UnlinksForInsert(c: Setup, t: TaskId, task: Task) {
    forall x :: Unlink(x) in task.todo ==>
      t.Socket? && StoreSession(t.s) in task.todo && c.owner(x) == c.owner(t.s)
  }

  /** Between the reservation and the store come unlinks only. */
  predicate UnlinksThenStore(t: TaskId, task: Task) {
    t.Socket? && StoreSession(t.s) in task.todo ==>
      || task == Task(SocketProgram(t.s), [])
      || forall i :: 0 <= i < |task.todo| - 8 ==> task.todo[i].Unlink?
  }

  /** A bucket removal is followed at once by the primary removal of the same session. */
  predicate RemovalsPaired(task: Task) {
    && (forall i :: 0 <= i < |task.todo| && task.todo[i].DiscardId? ==>
          i + 1 < |task.todo| && task.todo[i + 1] == DropSession(task.todo[i].s))
    && (forall i :: 1 <= i < |task.todo| ==> !task.todo[i].PruneUser?)
  }

  ghost predicate Shaped(c: Setup, st: State) {
    forall t :: t in st.tasks ==>
      UnlinksForInsert(c, t, st.tasks[t]) && UnlinksThenStore(t, st.tasks[t]) && RemovalsPaired(st.tasks[t])
  }

  lemma PairedJoin(push: seq<Action>, todo: seq<Action>)
    requires todo != [] && RemovalsPaired(Task(todo, [])) && RemovalsPaired(Task(push, []))
    ensures RemovalsPaired(Task(push + todo[1..], []))
  {
    var next := push + todo[1..];
    assert forall i :: 0 <= i < |push| ==> next[i] == push[i];
    assert forall i :: |push| <= i < |next| ==> next[i] == todo[i - |push| + 1];
  }

  lemma ExpansionPaired(c: Setup, st: State, a: Action, held: seq<SessionId>, order: seq<SessionId>)
    ensures RemovalsPaired(Task(Expansion(c, st, a, held, order), []))
  {
  }

  lemma PairedAfter(c: Setup, st: State, task: Task, order: seq<SessionId>)
    requires task.todo != [] && RemovalsPaired(task)
    ensures RemovalsPaired(TaskAfter(c, st, task, order))
  {
    var push := Expansion(c, st, task.todo[0], task.held, order);
    ExpansionPaired(c, st, task.todo[0], task.held, order);
    PairedJoin(push, task.todo);
  }

  /** The first action of a task that has yet to store its session. */
  lemma StoringHead(t: TaskId, task: Task)
    requires t.Socket? && StoreSession(t.s) in task.todo
    requires InOrder(t, task, t.s) && UnlinksThenStore(t, task)
    ensures task.todo[0] == ReserveId(t.s) || task.todo[0] == StoreSession(t.s) || task.todo[0].Unlink?
    ensures task.todo[0] == ReserveId(t.s) ==> task == Task(SocketProgram(t.s), [])
    ensures task.todo[0] == StoreSession(t.s) ==> task.todo[1..] == AfterStore(t.s)
  {
    assert |task.todo| >= 8;
  }

  lemma OneUnlinkAfter(c: Setup, st: State, t: TaskId, order: seq<SessionId>, x: SessionId)
    requires Enabled(c, st, Run(t, order)) && BucketsBacked(c, st)
    requires UnlinksForInsert(c, t, st.tasks[t])
    requires st.tasks[t].todo[0].ReserveId? ==> t == Socket(st.tasks[t].todo[0].s)
    requires Unlink(x) in TaskAfter(c, st, st.tasks[t], order).todo
    ensures t.Socket? && c.owner(x) == c.owner(t.s)
    ensures Unlink(x) in st.tasks[t].todo[1..] || st.tasks[t].todo[0] == ReserveId(t.s)
  {
    var task := st.tasks[t];
    TodoAfter(c, st, task, order, Unlink(x));
    if Unlink(x) in Expansion(c, st, task.todo[0], task.held, order) {
      PushedKinds(c, st, task.todo[0], task.held, order, Unlink(x));
      assert x in Bucket(st.byUser, c.owner(t.s));
    }
  }

  lemma UnlinksAfter(c: Setup, st: State, t: TaskId, order: seq<SessionId>)
    requires Enabled(c, st, Run(t, order)) && BucketsBacked(c, st)
    requires UnlinksForInsert(c, t, st.tasks[t]) && UnlinksThenStore(t, st.tasks[t])
    requires t.Socket? ==> InOrder(t, st.tasks[t], t.s)
    requires st.tasks[t].todo[0].ReserveId? ==> t == Socket(st.tasks[t].todo[0].s)
    ensures UnlinksForInsert(c, t, TaskAfter(c, st, st.tasks[t], order))
  {
    var task := st.tasks[t];
    var next := TaskAfter(c, st, task, order);
    forall x | Unlink(x) in next.todo
      ensures t.Socket? && StoreSession(t.s) in next.todo && c.owner(x) == c.owner(t.s)
    {
      OneUnlinkAfter(c, st, t, order, x);
      FromStartAfter(c, st, task, order, StoreSession(t.s));
      if task.todo[0] == ReserveId(t.s) {
        ReservesOnce(t.s);
      } else {
        UnlinkNotLast(t, task, x);
      }
    }
  }

  lemma UnlinkNotLast(t: TaskId, task: Task, x: SessionId)
    requires t.Socket? && StoreSession(t.s) in task.todo
    requires InOrder(t, task, t.s) && UnlinksThenStore(t, task)
    requires Unlink(x) in task.todo[1..]
    ensures StoreSession(t.s) in task.todo[1..]
  {
    StoringHead(t, task);
    TailIsPlain(t.s);
  }

  lemma TailIsPlain(s: SessionId)
    ensures StoreSession(s) !in AfterStore(s) && forall x :: Unlink(x) !in AfterStore(s)
  {
  }

  lemma UnlinksThenStoreAfter(c: Setup, st: State, t: TaskId, task: Task, order: seq<SessionId>)
    requires task.todo != [] && t.Socket? && InOrder(t, task, t.s) && UnlinksThenStore(t, task)
    ensures UnlinksThenStore(t, TaskAfter(c, st, task, order))
  {
    FromStartAfter(c, st, task, order, StoreSession(t.s));
    if StoreSession(t.s) in task.todo[1..] {
      StoringHead(t, task);
      TailIsPlain(t.s);
      var next := TaskAfter(c, st, task, order);
      if task.todo[0].ReserveId? {
        var rest := SocketProgram(t.s)[1..];
        assert |rest| == 8 && next.todo == Unlinks(order) + rest;
        assert forall i :: 0 <= i < |order| ==> next.todo[i] == Unlinks(order)[i];
      } else {
        assert next.todo == task.todo[1..];
      }
    }
  }

  lemma StartsShaped(c: Setup, s: SessionId)
    ensures UnlinksForInsert(c, Socket(s), Task(SocketProgram(s), []))
    ensures RemovalsPaired(Task(SocketProgram(s), []))
    ensures forall n :: UnlinksForInsert(c, Reaper(n), Task(ReaperProgram(), []))
    ensures RemovalsPaired(Task(ReaperProgram(), []))
  {
  }

  lemma ShapedKept(c: Setup, st: State, e: Event)
    requires Inv(c, st) && Shaped(c, st) && Enabled(c, st, e)
    ensures Shaped(c, Apply(c, st, e))
  {
    var st' := Apply(c, st, e);
    forall t | t in st'.tasks
      ensures UnlinksForInsert(c, t, st'.tasks[t]) && UnlinksThenStore(t, st'.tasks[t]) && RemovalsPaired(st'.tasks[t])
    {
      match e
      case Run(r, order) =>
        if t == r {
          RunShaped(c, st, t, order);
        }
      case Open(x) => StartsShaped(c, x);
      case StartReaper(_) => StartsShaped(c, SessionId(""));
      case _ =>
        assert UnlinksForInsert(c, t, st.tasks[t]);
    }
  }

  lemma RunShaped(c: Setup, st: State, t: TaskId, order: seq<SessionId>)
    requires Inv(c, st) && Shaped(c, st) && Enabled(c, st, Run(t, order))
    ensures UnlinksForInsert(c, t, TaskAfter(c, st, st.tasks[t], order))
    ensures UnlinksThenStore(t, TaskAfter(c, st, st.tasks[t], order))
    ensures RemovalsPaired(TaskAfter(c, st, st.tasks[t], order))
  {
    var task := st.tasks[t];
    if t.Socket? {
      assert InOrder(t, task, t.s);
    }
    if task.todo[0].ReserveId? {
      assert InOrder(t, task, task.todo[0].s);
    }
    PairedAfter(c, st, task, order);
    UnlinksAfter(c, st, t, order);
    if t.Socket? {
      UnlinksThenStoreAfter(c, st, t, task, order);
    }
  }

  // ---------------------------------------------------------------- stranded sessions

  /** Task `t` is past the bucket removal of `s` and about to remove it from the primary index. */
  predicate Dropping(c: Setup, st: State, t: TaskId, s: SessionId) {
    && Runnable(st, t)
    && var todo := st.tasks[t].todo;
       || todo[0] == DropSession(s)
       || (|todo| > 1 && todo[0] == PruneUser(c.owner(s)) && todo[1] == DropSession(s))
  }

  predicate Unlinking(st: State, t: TaskId, s: SessionId) {
    t in st.tasks && Unlink(s) in st.tasks[t].todo
  }

  /** Some operation already under way will take `s` out of the primary index. */
  ghost predicate Leaving(c: Setup, st: State, s: SessionId) {
    exists t :: Dropping(c, st, t, s) || Unlinking(st, t, s)
  }

  /** Registered, counted and broadcast to, but out of its user's bucket with nobody removing it. */
  ghost predicate Stranded(c: Setup, st: State, s: SessionId) {
    s in st.bySession && s !in Bucket(st.byUser, c.owner(s)) && !Leaving(c, st, s)
  }

  /** The two stale steps: storing a session that has lost its bucket entry meanwhile, and
      pruning a bucket that was refilled after it was seen empty. */
  ghost predicate Strands(c: Setup, st: State, e: Event, s: SessionId) {
    e.Run? && Runnable(st, e.t) &&
    match st.tasks[e.t].todo[0]
    case StoreSession(x) => x == s && s !in Bucket(st.byUser, c.owner(s)) && !Leaving(c, st, s)
    case PruneUser(u) => u == c.owner(s) && s in Bucket(st.byUser, u) && s in st.bySession
    case _ => false
  }

  /** Other tasks do what they did, and the running task goes one action on. */
  lemma LeavingElsewhere(c: Setup, st: State, e: Event, t: TaskId, s: SessionId)
    requires Enabled(c, st, e) && t in st.tasks && (e.Run? ==> t != e.t)
    ensures Dropping(c, Apply(c, st, e), t, s) <==> Dropping(c, st, t, s)
    ensures Unlinking(Apply(c, st, e), t, s) <==> Unlinking(st, t, s)
  {
  }

  lemma UntouchedStays(c: Setup, st: State, t: TaskId, s: SessionId)
    requires Untouched(st, t, s)
    ensures !Dropping(c, st, t, s) && !Unlinking(st, t, s)
  {
    if Runnable(st, t) {
      var todo := st.tasks[t].todo;
      assert Guarded(todo, s);
      if |todo| > 1 && todo[0].PruneUser? {
        assert todo[1..][0] == todo[1];
        assert Guarded(todo[1..], s);
      }
    }
  }

  lemma StoreStrands(c: Setup, st: State, e: Event, s: SessionId)
    requires Inv(c, st) && Enabled(c, st, e) && Strands(c, st, e, s)
    requires st.tasks[e.t].todo[0] == StoreSession(s)
    ensures Stranded(c, Apply(c, st, e), s)
  {
    var st' := Apply(c, st, e);
    assert InOrder(e.t, st.tasks[e.t], s);
    assert st'.tasks[e.t].todo == AfterStore(s);
    forall t
      ensures !Dropping(c, st', t, s) && !Unlinking(st', t, s)
    {
      if t != e.t && t in st.tasks {
        LeavingElsewhere(c, st, e, t, s);
      }
    }
  }

  lemma PruneStrands(c: Setup, st: State, e: Event, s: SessionId)
    requires Inv(c, st) && Enabled(c, st, e) && Strands(c, st, e, s)
    requires st.tasks[e.t].todo[0].PruneUser?
    ensures Stranded(c, Apply(c, st, e), s)
  {
    var st' := Apply(c, st, e);
    forall t
      ensures !Dropping(c, st', t, s) && !Unlinking(st', t, s)
    {
      assert Untouched(st, t, s);
      if t == e.t {
        UntouchedAfterRun(c, st, t, e.order, s);
        UntouchedStays(c, st', t, s);
      } else if t in st.tasks {
        UntouchedStays(c, st, t, s);
        LeavingElsewhere(c, st, e, t, s);
      }
    }
  }

  /** A session leaving through task `t` goes on leaving, or has left. */
  lemma LeavingGoesOn(c: Setup, st: State, e: Event, t: TaskId, s: SessionId)
    requires Enabled(c, st, e) && (Dropping(c, st, t, s) || Unlinking(st, t, s))
    ensures s !in Apply(c, st, e).bySession || Leaving(c, Apply(c, st, e), s)
  {
    var st' := Apply(c, st, e);
    if e.Run? && t == e.t {
      var todo := st.tasks[t].todo;
      if Unlinking(st, t, s) && todo[0] != Unlink(s) {
        TodoAfter(c, st, st.tasks[t], e.order, Unlink(s));
        assert Unlinking(st', t, s);
      } else if todo[0].PruneUser? {
        assert st'.tasks[t].todo[0] == todo[1];
        assert Dropping(c, st', t, s);
      }
    } else {
      LeavingElsewhere(c, st, e, t, s);
      assert Dropping(c, st', t, s) || Unlinking(st', t, s);
    }
  }

  /** Losing the bucket entry is part of a removal under way, unless it is a stale prune. */
  lemma BucketLoss(c: Setup, st: State, e: Event, s: SessionId)
    requires Inv(c, st) && Shaped(c, st) && Enabled(c, st, e)
    requires s in Bucket(st.byUser, c.owner(s)) && s !in Bucket(Apply(c, st, e).byUser, c.owner(s))
    ensures Leaving(c, Apply(c, st, e), s) || (e.Run? && st.tasks[e.t].todo[0] == PruneUser(c.owner(s)))
  {
    var st' := Apply(c, st, e);
    var task := st.tasks[e.t];
    match task.todo[0]
    case DiscardId(x) =>
      assert x == s;
      assert RemovalsPaired(task) && task.todo[1] == DropSession(s);
      assert Dropping(c, st', e.t, s);
    case ReserveId(x) =>
      assert s in e.order;
      var k :| 0 <= k < |e.order| && e.order[k] == s;
      assert Unlinks(e.order)[k] == Unlink(s);
      assert Unlinking(st', e.t, s);
    case _ =>
  }

  /** A step strands a session exactly when it is one of the two stale steps. */
  lemma StrandedExactly(c: Setup, st: State, e: Event, s: SessionId)
    requires Inv(c, st) && Shaped(c, st) && Enabled(c, st, e) && !Stranded(c, st, s)
    ensures Stranded(c, Apply(c, st, e), s) <==> Strands(c, st, e, s)
  {
    var st' := Apply(c, st, e);
    if Strands(c, st, e, s) {
      if st.tasks[e.t].todo[0].PruneUser? {
        PruneStrands(c, st, e, s);
      } else {
        StoreStrands(c, st, e, s);
      }
    } else if Stranded(c, st', s) {
      NotStranded(c, st, e, s);
    }
  }

  lemma NotStranded(c: Setup, st: State, e: Event, s: SessionId)
    requires Inv(c, st) && Shaped(c, st) && Enabled(c, st, e) && !Stranded(c, st, s)
    requires !Strands(c, st, e, s)
    ensures !Stranded(c, Apply(c, st, e), s)
  {
    if s in Bucket(st.byUser, c.owner(s)) {
      if s !in Bucket(Apply(c, st, e).byUser, c.owner(s)) {
        BucketLoss(c, st, e, s);
      }
    } else if Leaving(c, st, s) {
      var t :| Dropping(c, st, t, s) || Unlinking(st, t, s);
      LeavingGoesOn(c, st, e, t, s);
    }
  }

  // ---------------------------------------------------------------- one operation per user at a time

  /** An insert past its reservation and not yet stored. */
  predicate InsertInFlight(c: Setup, st: State, t: TaskId, u: UserId) {
    t in st.tasks && t.Socket? && Inserting(st, t.s) && c.owner(t.s) == u
  }

  /** A removal past its bucket removal and not yet out of the primary index. */
  predicate RemoveInFlight(c: Setup, st: State, t: TaskId, u: UserId) {
    && Runnable(st, t)
    && var a := st.tasks[t].todo[0];
       a == PruneUser(u) || (a.DropSession? && c.owner(a.s) == u)
  }

  predicate InFlight(c: Setup, st: State, t: TaskId, u: UserId) {
    InsertInFlight(c, st, t, u) || RemoveInFlight(c, st, t, u)
  }

  ghost predicate Serialised(c: Setup, st: State) {
    forall t, r, u :: InFlight(c, st, t, u) && InFlight(c, st, r, u) ==> t == r
  }

  ghost predicate Idle(c: Setup, st: State, u: UserId) {
    forall t :: !InFlight(c, st, t, u)
  }

  /** The bucket of `u` is exactly its ids in the primary index, and no bucket is kept empty. */
  ghost predicate IndexesAgree(c: Setup, st: State, u: UserId) {
    && (forall s :: s in Bucket(st.byUser, u) <==> s in st.bySession && c.owner(s) == u)
    && (u in st.byUser <==> exists s :: s in st.bySession && c.owner(s) == u)
  }

  /** What serialised operations keep, beyond what every interleaving keeps. */
  ghost predicate SerialInv(c: Setup, st: State) {
    && (forall s :: Inserting(st, s) ==> s in Bucket(st.byUser, c.owner(s)))
    && (forall t, u :: PruneIsNext(st, t, u) ==> Bucket(st.byUser, u) == {})
    && (forall s :: !Stranded(c, st, s))
  }

  lemma InsertingHead(c: Setup, st: State, s: SessionId)
    requires AllInOrder(st) && Shaped(c, st) && Inserting(st, s)
    ensures st.tasks[Socket(s)].todo[0] == StoreSession(s) || st.tasks[Socket(s)].todo[0].Unlink?
  {
    assert InOrder(Socket(s), st.tasks[Socket(s)], s);
    StoringHead(Socket(s), st.tasks[Socket(s)]);
  }

  /** A new insert in flight has just reserved. */
  lemma InsertingBefore(c: Setup, st: State, e: Event, s: SessionId)
    requires AllInOrder(st) && Enabled(c, st, e) && Inserting(Apply(c, st, e), s)
    ensures Inserting(st, s) || (e.Run? && e.t == Socket(s) && st.tasks[e.t].todo[0] == ReserveId(s))
  {
    var st' := Apply(c, st, e);
    if e.Run? && e.t == Socket(s) {
      FromStartAfter(c, st, st.tasks[e.t], e.order, StoreSession(s));
      assert InOrder(e.t, st.tasks[e.t], s);
    }
  }

  lemma InsertKeepsPlace(c: Setup, st: State, e: Event, s: SessionId)
    requires Inv(c, st) && Shaped(c, st) && SerialInv(c, st) && Enabled(c, st, e)
    requires Serialised(c, st) && Serialised(c, Apply(c, st, e))
    requires Inserting(Apply(c, st, e), s)
    ensures s in Bucket(Apply(c, st, e).byUser, c.owner(s))
  {
    var st' := Apply(c, st, e);
    var u := c.owner(s);
    InsertingBefore(c, st, e, s);
    if Inserting(st, s) && s !in Bucket(st'.byUser, u) {
      InsertingHead(c, st, s);
      TakerInFlight(c, st, e, s);
      assert InFlight(c, st', Socket(s), u) && InFlight(c, st, Socket(s), u);
      assert false;
    }
  }

  /** Whoever takes an id out of its bucket is in flight on that user before or after. */
  lemma TakerInFlight(c: Setup, st: State, e: Event, s: SessionId)
    requires AllInOrder(st) && Shaped(c, st) && Enabled(c, st, e)
    requires s in Bucket(st.byUser, c.owner(s)) && s !in Bucket(Apply(c, st, e).byUser, c.owner(s))
    ensures e.Run? && (InFlight(c, st, e.t, c.owner(s)) || InFlight(c, Apply(c, st, e), e.t, c.owner(s)))
    ensures !st.tasks[e.t].todo[0].Unlink? && !st.tasks[e.t].todo[0].StoreSession?
  {
    var task := st.tasks[e.t];
    var st' := Apply(c, st, e);
    match task.todo[0]
    case DiscardId(x) =>
      assert RemovalsPaired(task);
      assert RemoveInFlight(c, st', e.t, c.owner(s));
    case PruneUser(u) =>
      assert RemoveInFlight(c, st, e.t, c.owner(s));
    case ReserveId(x) =>
      ReservedInserts(c, st, e, x);
    case _ =>
  }

  lemma ReservedInserts(c: Setup, st: State, e: Event, x: SessionId)
    requires AllInOrder(st) && Enabled(c, st, e)
    requires e.Run? && st.tasks[e.t].todo[0] == ReserveId(x)
    ensures InsertInFlight(c, Apply(c, st, e), e.t, c.owner(x))
  {
    assert InOrder(e.t, st.tasks[e.t], x);
    ReservedBacked(c, st, e, x);
  }

  /** A pending prune stays a prune of an empty bucket. */
  lemma PruneStaysFresh(c: Setup, st: State, e: Event, t: TaskId, u: UserId)
    requires AllInOrder(st) && Shaped(c, st) && SerialInv(c, st) && Enabled(c, st, e)
    requires Serialised(c, Apply(c, st, e)) && PruneIsNext(Apply(c, st, e), t, u)
    ensures Bucket(Apply(c, st, e).byUser, u) == {}
  {
    var st' := Apply(c, st, e);
    assert InFlight(c, st', t, u);
    if e.Run? && st.tasks[e.t].todo[0].ReserveId? && c.owner(st.tasks[e.t].todo[0].s) == u {
      var x := st.tasks[e.t].todo[0].s;
      ReservedInserts(c, st, e, x);
      assert InFlight(c, st', e.t, u);
      ReservedHead(c, st, e, x);
      assert false;
    } else if !(e.Run? && t == e.t) {
      assert PruneIsNext(st, t, u);
    } else {
      PruneJustPushed(c, st, e, u);
    }
  }

  lemma ReservedHead(c: Setup, st: State, e: Event, x: SessionId)
    requires AllInOrder(st) && Enabled(c, st, e)
    requires e.Run? && st.tasks[e.t].todo[0] == ReserveId(x)
    ensures forall u :: !PruneIsNext(Apply(c, st, e), e.t, u)
  {
    assert InOrder(e.t, st.tasks[e.t], x);
    assert SocketProgram(x)[1..][0] == StoreSession(x);
  }

  /** A prune at the head of a task that just ran was pushed by a removal that emptied the bucket. */
  lemma PruneJustPushed(c: Setup, st: State, e: Event, u: UserId)
    requires Enabled(c, st, e) && e.Run? && PruneIsNext(Apply(c, st, e), e.t, u)
    requires RemovalsPaired(st.tasks[e.t])
    ensures Bucket(Apply(c, st, e).byUser, u) == {}
  {
    var task := st.tasks[e.t];
    assert |task.todo| > 1 ==> !task.todo[1].PruneUser?;
  }

  lemma NothingStrands(c: Setup, st: State, e: Event, s: SessionId)
    requires Inv(c, st) && Shaped(c, st) && SerialInv(c, st) && Enabled(c, st, e)
    ensures !Stranded(c, Apply(c, st, e), s)
  {
    assert !Strands(c, st, e, s) by {
      if e.Run? && st.tasks[e.t].todo[0] == StoreSession(s) {
        assert InOrder(e.t, st.tasks[e.t], s);
        assert Inserting(st, s);
      } else if e.Run? && st.tasks[e.t].todo[0].PruneUser? {
        assert PruneIsNext(st, e.t, st.tasks[e.t].todo[0].u);
      }
    }
    StrandedExactly(c, st, e, s);
  }

  lemma SerialInvKept(c: Setup, st: State, e: Event)
    requires Inv(c, st) && Shaped(c, st) && SerialInv(c, st) && Enabled(c, st, e)
    requires Serialised(c, st) && Serialised(c, Apply(c, st, e))
    ensures SerialInv(c, Apply(c, st, e))
  {
    var st' := Apply(c, st, e);
    forall s | Inserting(st', s)
      ensures s in Bucket(st'.byUser, c.owner(s))
    {
      InsertKeepsPlace(c, st, e, s);
    }
    forall t, u | PruneIsNext(st', t, u)
      ensures Bucket(st'.byUser, u) == {}
    {
      PruneStaysFresh(c, st, e, t, u);
    }
    forall s
      ensures !Stranded(c, st', s)
    {
      NothingStrands(c, st, e, s);
    }
  }

  lemma {:induction false} ShapedHolds(c: Setup, states: seq<State>, events: seq<Event>, i: nat)
    requires IsRun(c, states, events) && i < |states|
    ensures Inv(c, states[i]) && Shaped(c, states[i])
  {
    InvHolds(c, states, events, i);
    if i > 0 {
      ShapedHolds(c, states, events, i - 1);
      ShapedKept(c, states[i - 1], events[i - 1]);
    }
  }

  /** A stranded session stays stranded until some removal of it starts. */
  lemma StrandedStays(c: Setup, st: State, e: Event, s: SessionId)
    requires Inv(c, st) && Enabled(c, st, e) && Stranded(c, st, s)
    ensures Stranded(c, Apply(c, st, e), s) <==> !Leaving(c, Apply(c, st, e), s)
  {
    if e.Run? {
      assert InOrder(e.t, st.tasks[e.t], s) && Born(st, s);
      assert !Dropping(c, st, e.t, s) && !Unlinking(st, e.t, s);
    }
  }

  /** Step `k` was a stale step on `s`, and no removal of `s` has started since. */
  ghost predicate StrandedSince(c: Setup, states: seq<State>, events: seq<Event>, i: nat, s: SessionId, k: nat)
    requires IsRun(c, states, events) && i < |states|
  {
    k < i && Strands(c, states[k], events[k], s) && forall j :: k < j <= i ==> !Leaving(c, states[j], s)
  }

  lemma StrandedSinceBefore(c: Setup, states: seq<State>, events: seq<Event>, i: nat, s: SessionId, k: nat)
    requires IsRun(c, states, events) && 0 < i < |states|
    ensures StrandedSince(c, states, events, i, s, k) <==>
            ((k == i - 1 && Strands(c, states[k], events[k], s)) || StrandedSince(c, states, events, i - 1, s, k)) &&
            !Leaving(c, states[i], s)
  {
  }

  lemma StrandedStep(c: Setup, states: seq<State>, events: seq<Event>, i: nat, s: SessionId)
    requires IsRun(c, states, events) && 0 < i < |states|
    ensures Stranded(c, states[i], s) <==>
            (Stranded(c, states[i - 1], s) || Strands(c, states[i - 1], events[i - 1], s)) && !Leaving(c, states[i], s)
  {
    ShapedHolds(c, states, events, i - 1);
    if Stranded(c, states[i - 1], s) {
      StrandedStays(c, states[i - 1], events[i - 1], s);
    } else {
      StrandedExactly(c, states[i - 1], events[i - 1], s);
    }
  }

  /** In any run a session is stranded exactly when a stale step stranded it and no removal of it
      has started since. */
  lemma {:induction false} StrandedAlongRuns(c: Setup, states: seq<State>, events: seq<Event>, i: nat, s: SessionId)
    requires IsRun(c, states, events) && i < |states|
    ensures Stranded(c, states[i], s) <==> exists k :: StrandedSince(c, states, events, i, s, k)
  {
    if i > 0 {
      StrandedAlongRuns(c, states, events, i - 1, s);
      StrandedStep(c, states, events, i, s);
      forall k: nat
        ensures StrandedSince(c, states, events, i, s, k) <==>
                ((k == i - 1 && Strands(c, states[k], events[k], s)) || StrandedSince(c, states, events, i - 1, s, k)) &&
                !Leaving(c, states[i], s)
      {
        StrandedSinceBefore(c, states, events, i, s, k);
      }
    }
  }

  lemma {:induction false} SerialInvHolds(c: Setup, states: seq<State>, events: seq<Event>, i: nat)
    requires IsRun(c, states, events) && i < |states|
    requires forall k :: 0 <= k <= i ==> Serialised(c, states[k])
    ensures SerialInv(c, states[i])
  {
    if i > 0 {
      SerialInvHolds(c, states, events, i - 1);
      ShapedHolds(c, states, events, i - 1);
      SerialInvKept(c, states[i - 1], events[i - 1]);
    }
  }

  /** If no two registry operations of one user ever overlap, then whenever a user has none
      in flight its bucket is exactly its registered sessions. */
  lemma SerialisedUsersAgree(c: Setup, states: seq<State>, events: seq<Event>, i: nat, u: UserId)
    requires IsRun(c, states, events) && i < |states|
    requires forall k :: 0 <= k <= i ==> Serialised(c, states[k])
    requires Idle(c, states[i], u)
    ensures IndexesAgree(c, states[i], u)
  {
    ShapedHolds(c, states, events, i);
    SerialInvHolds(c, states, events, i);
    forall s
      ensures s in Bucket(states[i].byUser, u) <==> s in states[i].bySession && c.owner(s) == u
    {
      IdleMember(c, states[i], u, s);
    }
    if u in states[i].byUser {
      IdleHasNoEmptyBucket(c, states[i], u);
    }
  }

  /** In any run at all, an idle user's indexes agree exactly when none of its sessions is stranded. */
  lemma IdleUsersAgreeExactly(c: Setup, states: seq<State>, events: seq<Event>, i: nat, u: UserId)
    requires IsRun(c, states, events) && i < |states| && Idle(c, states[i], u)
    ensures IndexesAgree(c, states[i], u) <==> forall s :: c.owner(s) == u ==> !Stranded(c, states[i], s)
  {
    var st := states[i];
    ShapedHolds(c, states, events, i);
    if forall s :: c.owner(s) == u ==> !Stranded(c, st, s) {
      forall s
        ensures s in Bucket(st.byUser, u) <==> s in st.bySession && c.owner(s) == u
      {
        if c.owner(s) == u {
          IdleMember(c, st, u, s);
        }
      }
      if u in st.byUser {
        IdleHasNoEmptyBucket(c, st, u);
      }
    }
  }

  lemma IdleHasNoEmptyBucket(c: Setup, st: State, u: UserId)
    requires EmptyBucketsPending(st) && Idle(c, st, u) && u in st.byUser
    ensures Bucket(st.byUser, u) != {}
  {
    if st.byUser[u] == {} {
      var t :| PruneIsNext(st, t, u);
      assert InFlight(c, st, t, u);
    }
  }

  /** Nobody is about to take a session of an idle user out of the primary index. */
  lemma IdleStays(c: Setup, st: State, u: UserId, s: SessionId)
    requires AllInOrder(st) && Shaped(c, st) && Idle(c, st, u) && c.owner(s) == u
    ensures !Leaving(c, st, s)
  {
    if Leaving(c, st, s) {
      var t :| Dropping(c, st, t, s) || Unlinking(st, t, s);
      assert !InFlight(c, st, t, u);
      if Unlinking(st, t, s) {
        UnlinkerInserts(c, st, t, s);
      }
    }
  }

  lemma IdleMember(c: Setup, st: State, u: UserId, s: SessionId)
    requires Inv(c, st) && Shaped(c, st) && Idle(c, st, u) && !Stranded(c, st, s)
    ensures s in Bucket(st.byUser, u) <==> s in st.bySession && c.owner(s) == u
  {
    assert !InFlight(c, st, Socket(s), u);
    if c.owner(s) == u {
      IdleStays(c, st, u, s);
    }
  }

  lemma UnlinkerInserts(c: Setup, st: State, t: TaskId, s: SessionId)
    requires AllInOrder(st) && Shaped(c, st) && Unlinking(st, t, s)
    ensures InsertInFlight(c, st, t, c.owner(s))
  {
    var task := st.tasks[t];
    assert UnlinksForInsert(c, t, task);
    assert InOrder(t, task, t.s);
    ProgramsGuarded(t.s, s);
  }

  // ---------------------------------------------------------------- inserts alone

  /** The event performs none of the three steps of a registry removal. */
  predicate RemovesNothing(st: State, e: Event) {
    e.Run? && Runnable(st, e.t) ==>
      !st.tasks[e.t].todo[0].DiscardId? && !st.tasks[e.t].todo[0].PruneUser? && !st.tasks[e.t].todo[0].DropSession?
  }

  /** Every reserved session stands in its bucket, stored or about to be. */
  ghost predicate ReservedInPlace(c: Setup, st: State) {
    forall s :: Born(st, s) ==>
      s in Bucket(st.byUser, c.owner(s)) && (s in st.bySession || Owes(st, s, StoreSession(s)))
  }

  lemma ReservedInPlaceKept(c: Setup, st: State, e: Event)
    requires Inv(c, st) && ReservedInPlace(c, st) && Enabled(c, st, e)
    requires !c.replace && RemovesNothing(st, e)
    ensures ReservedInPlace(c, Apply(c, st, e))
  {
    var st' := Apply(c, st, e);
    forall s | Born(st', s)
      ensures s in Bucket(st'.byUser, c.owner(s)) && (s in st'.bySession || Owes(st', s, StoreSession(s)))
    {
      if Born(st, s) {
        StillBackedWithoutRemovals(c, st, e, s);
      } else {
        assert Socket(s) in st.tasks ==> InOrder(Socket(s), st.tasks[Socket(s)], s);
        assert e.Run? && st.tasks[e.t].todo[0] == ReserveId(s);
        ReservedBacked(c, st, e, s);
      }
    }
  }

  lemma StillBackedWithoutRemovals(c: Setup, st: State, e: Event, s: SessionId)
    requires Inv(c, st) && Enabled(c, st, e) && !c.replace && RemovesNothing(st, e)
    requires s in Bucket(st.byUser, c.owner(s))
    ensures s in Bucket(Apply(c, st, e).byUser, c.owner(s))
    ensures s in Apply(c, st, e).bySession || Owes(Apply(c, st, e), s, StoreSession(s))
  {
    StillBacked(c, st, e, c.owner(s), s);
  }

  lemma {:induction false} ReservedInPlaceHolds(c: Setup, states: seq<State>, events: seq<Event>, i: nat)
    requires IsRun(c, states, events) && i < |states| && !c.replace
    requires forall k :: 0 <= k < i ==> RemovesNothing(states[k], events[k])
    ensures ReservedInPlace(c, states[i])
  {
    if i > 0 {
      ReservedInPlaceHolds(c, states, events, i - 1);
      InvHolds(c, states, events, i - 1);
      ReservedInPlaceKept(c, states[i - 1], events[i - 1]);
    }
  }

  /** Overlapping inserts that replace nothing leave the indexes in agreement for every user
      none of whose inserts is in flight, even inserts of the same user. */
  lemma OverlappingInsertsAgree(c: Setup, states: seq<State>, events: seq<Event>, i: nat, u: UserId)
    requires IsRun(c, states, events) && i < |states| && !c.replace
    requires forall k :: 0 <= k < i ==> RemovesNothing(states[k], events[k])
    requires forall s :: c.owner(s) == u ==> !Inserting(states[i], s)
    ensures IndexesAgree(c, states[i], u)
  {
    var st := states[i];
    InvHolds(c, states, events, i);
    ReservedInPlaceHolds(c, states, events, i);
    NoRemovalUnderWay(c, states, events, i);
    forall s
      ensures s in Bucket(st.byUser, u) <==> s in st.bySession && c.owner(s) == u
    {
      assert s in Bucket(st.byUser, u) ==> c.owner(s) == u && Born(st, s);
    }
    assert u in st.byUser ==> Bucket(st.byUser, u) != {};
  }

  /** Without removal steps no prune is ever pending. */
  lemma {:induction false} NoRemovalUnderWay(c: Setup, states: seq<State>, events: seq<Event>, i: nat)
    requires IsRun(c, states, events) && i < |states|
    requires forall k :: 0 <= k < i ==> RemovesNothing(states[k], events[k])
    ensures forall t, u :: !PruneIsNext(states[i], t, u)
  {
    if i > 0 {
      NoRemovalUnderWay(c, states, events, i - 1);
      ShapedHolds(c, states, events, i - 1);
      var st, e := states[i - 1], events[i - 1];
      forall t, u
        ensures !PruneIsNext(Apply(c, st, e), t, u)
      {
        if e.Run? && t == e.t {
          assert RemovalsPaired(st.tasks[t]);
        } else if t in st.tasks {
          assert !PruneIsNext(st, t, u);
        }
      }
    }
  }
}
