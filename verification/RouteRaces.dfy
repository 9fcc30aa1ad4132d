/** Presence routes while operations overlap: exactly when a route names a session that is not
    registered and that nobody is about to retract. */
module RouteRaces {
  import opened Identity
  import opened UserIndexes
  import opened RegistryRaces
  import opened RegistrySafety

  // ---------------------------------------------------------------- the shape of programs

  /** A socket task does not touch its own session before it has served it. */
  predicate LeavesItselfAlone(task: Task, s: SessionId) {
    && s !in task.held && Unlink(s) !in task.todo && Scan !in task.todo
    && (Serve(s) in task.todo ==> ServesLater(task.todo, s))
  }

  predicate ServesLater(todo: seq<Action>, s: SessionId) {
    && |todo| >= 5 && todo[|todo| - 5..] == [Serve(s)] + Unregister(s)
    && Serve(s) !in todo[..|todo| - 5] && DropSession(s) !in todo[..|todo| - 5] && DropRoute(s) !in todo[..|todo| - 5]
  }

  /** A primary removal is followed at once by the route removal of the same session. */
  predicate RoutesFollow(todo: seq<Action>) {
    forall i :: 0 <= i < |todo| && todo[i].DropSession? ==> i + 1 < |todo| && todo[i + 1] == DropRoute(todo[i].s)
  }

  ghost predicate RouteShape(st: State) {
    && (forall s :: Socket(s) in st.tasks ==> LeavesItselfAlone(st.tasks[Socket(s)], s))
    && (forall t :: t in st.tasks ==> RoutesFollow(st.tasks[t].todo))
    && (forall s :: s in st.routes ==> !Owes(st, s, PublishRoute(s)))
  }

  lemma ProgramServes(s: SessionId)
    ensures ServesLater(SocketProgram(s), s)
  {
    var todo := SocketProgram(s);
    assert todo[4..] == [Serve(s)] + Unregister(s);
    assert todo[..4] == [ReserveId(s), StoreSession(s), Settle(true), PublishRoute(s)];
  }

  lemma ProgramsShaped(s: SessionId)
    ensures LeavesItselfAlone(Task(SocketProgram(s), []), s)
  {
    ProgramServes(s);
    ProgramsGuarded(s, s);
  }

  lemma ProgramsFollow(s: SessionId)
    ensures RoutesFollow(SocketProgram(s)) && RoutesFollow(ReaperProgram())
  {
  }

  lemma ServesFirst(todo: seq<Action>, s: SessionId)
    requires todo != []
    ensures ServesLater(todo, s) ==> todo[0] != DropSession(s) && (Serve(s) in todo[1..] ==> todo[0] != Serve(s))
  {
    if ServesLater(todo, s) {
      if |todo| == 5 {
        assert todo[1..] == Unregister(s);
      } else {
        assert todo[0] in todo[..|todo| - 5];
      }
    }
  }

  lemma ServesLaterAfter(front: seq<Action>, todo: seq<Action>, s: SessionId)
    requires ServesLater(todo, s) && todo[0] != Serve(s)
    requires Serve(s) !in front && DropSession(s) !in front && DropRoute(s) !in front
    ensures ServesLater(front + todo[1..], s)
  {
    var next := front + todo[1..];
    assert |todo| >= 6;
    assert next[|next| - 5..] == todo[|todo| - 5..];
    assert next[..|next| - 5] == front + todo[1..|todo| - 5];
  }

  lemma StillLeavesItselfAlone(c: Setup, st: State, order: seq<SessionId>, s: SessionId)
    requires AllInOrder(st) && BucketsBacked(c, st) && Enabled(c, st, Run(Socket(s), order))
    requires LeavesItselfAlone(st.tasks[Socket(s)], s)
    ensures LeavesItselfAlone(TaskAfter(c, st, st.tasks[Socket(s)], order), s)
  {
    var task := st.tasks[Socket(s)];
    var push := Expansion(c, st, task.todo[0], task.held, order);
    forall a | a in push
      ensures a != Unlink(s) && !a.Scan? && !a.Serve? && a != DropSession(s) && a != DropRoute(s)
    {
      PushedKinds(c, st, task.todo[0], task.held, order, a);
      if a == Unlink(s) {
        OwnOrder(c, st, order, s);
      }
    }
    if Serve(s) in task.todo[1..] {
      ServesFirst(task.todo, s);
      ServesLaterAfter(push, task.todo, s);
    }
  }

  /** A task that reserves its id does not displace it. */
  lemma OwnOrder(c: Setup, st: State, order: seq<SessionId>, s: SessionId)
    requires AllInOrder(st) && BucketsBacked(c, st) && Enabled(c, st, Run(Socket(s), order))
    requires st.tasks[Socket(s)].todo[0].ReserveId?
    ensures s !in order
  {
    var x := st.tasks[Socket(s)].todo[0].s;
    assert InOrder(Socket(s), st.tasks[Socket(s)], x);
    assert !Born(st, s);
  }

  lemma RoutesFollowJoin(front: seq<Action>, todo: seq<Action>)
    requires todo != [] && RoutesFollow(front) && RoutesFollow(todo)
    ensures RoutesFollow(front + todo[1..])
  {
    var next := front + todo[1..];
    assert forall i :: 0 <= i < |front| ==> next[i] == front[i];
    assert forall i :: |front| <= i < |next| ==> next[i] == todo[i - |front| + 1];
  }

  /** A task publishes its route once. */
  lemma PublishesOnce(c: Setup, st: State, e: Event, s: SessionId)
    requires AllInOrder(st) && Enabled(c, st, e) && e.Run? && st.tasks[e.t].todo[0] == PublishRoute(s)
    ensures !Owes(Apply(c, st, e), s, PublishRoute(s))
  {
    assert InOrder(e.t, st.tasks[e.t], s);
    assert st.tasks[e.t].todo[1..] == AfterPublish(s);
    FromStartAfter(c, st, st.tasks[e.t], e.order, PublishRoute(s));
  }

  lemma PublishedStays(c: Setup, st: State, e: Event, s: SessionId)
    requires Enabled(c, st, e) && Socket(s) in st.tasks && !Owes(st, s, PublishRoute(s))
    ensures !Owes(Apply(c, st, e), s, PublishRoute(s))
  {
    if e.Run? && e.t == Socket(s) {
      FromStartAfter(c, st, st.tasks[e.t], e.order, PublishRoute(s));
    }
  }

  lemma RouteShapeKept(c: Setup, st: State, e: Event)
    requires Inv(c, st) && RouteShape(st) && Enabled(c, st, e)
    ensures RouteShape(Apply(c, st, e))
  {
    var st' := Apply(c, st, e);
    forall s | s in st'.routes
      ensures !Owes(st', s, PublishRoute(s))
    {
      if s in st.routes {
        assert Owes(st, s, DropRoute(s));
        PublishedStays(c, st, e, s);
      } else {
        PublishesOnce(c, st, e, s);
      }
    }
    forall t | t in st'.tasks
      ensures RoutesFollow(st'.tasks[t].todo)
      ensures t.Socket? ==> LeavesItselfAlone(st'.tasks[t], t.s)
    {
      TaskShapeKept(c, st, e, t);
    }
  }

  lemma TaskShapeKept(c: Setup, st: State, e: Event, t: TaskId)
    requires Inv(c, st) && RouteShape(st) && Enabled(c, st, e) && t in Apply(c, st, e).tasks
    ensures RoutesFollow(Apply(c, st, e).tasks[t].todo)
    ensures t.Socket? ==> LeavesItselfAlone(Apply(c, st, e).tasks[t], t.s)
  {
    match e
    case Open(x) =>
      ProgramsShaped(x);
      ProgramsFollow(x);
    case StartReaper(_) => assert RoutesFollow(ReaperProgram());
    case Run(r, order) =>
      if t == r {
        var task := st.tasks[t];
        RoutesFollowJoin(Expansion(c, st, task.todo[0], task.held, order), task.todo);
        if t.Socket? { StillLeavesItselfAlone(c, st, order, t.s); }
      }
    case _ =>
  }

  lemma {:induction false} RouteShapeHolds(c: Setup, states: seq<State>, events: seq<Event>, i: nat)
    requires IsRun(c, states, events) && i < |states|
    ensures RouteShape(states[i])
  {
    if i > 0 {
      RouteShapeHolds(c, states, events, i - 1);
      InvHolds(c, states, events, i - 1);
      RouteShapeKept(c, states[i - 1], events[i - 1]);
    }
  }

  // ---------------------------------------------------------------- stray routes

  /** Task `t` has the removal of the route of `s` before it, other than after serving `s`. */
  predicate RetractedBy(st: State, t: TaskId, s: SessionId) {
    && t in st.tasks
    && (s in st.tasks[t].held ||
        (DropRoute(s) in st.tasks[t].todo && (t == Socket(s) ==> Serve(s) !in st.tasks[t].todo)))
  }

  ghost predicate Retracting(st: State, s: SessionId) {
    exists t :: RetractedBy(st, t, s)
  }

  /** The route names an unregistered session, and no operation under way retracts it. */
  ghost predicate Lingering(st: State, s: SessionId) {
    s in st.routes && s !in st.bySession && !Retracting(st, s)
  }

  /** An accept publishes the route of its session after a removal of that session has passed. */
  ghost predicate PublishesLate(st: State, e: Event, s: SessionId) {
    && e.Run? && Runnable(st, e.t) && st.tasks[e.t].todo[0] == PublishRoute(s)
    && s !in st.bySession && !Retracting(st, s)
  }

  lemma RetractedElsewhere(c: Setup, st: State, e: Event, t: TaskId, s: SessionId)
    requires Enabled(c, st, e) && t in st.tasks && (e.Run? || e.See? ==> t != e.t)
    ensures RetractedBy(Apply(c, st, e), t, s) <==> RetractedBy(st, t, s)
  {
  }

  /** A publication starts and ends no retraction. */
  lemma PublishKeepsRetracting(c: Setup, st: State, e: Event, s: SessionId)
    requires AllInOrder(st) && Enabled(c, st, e) && e.Run? && st.tasks[e.t].todo[0] == PublishRoute(s)
    ensures Retracting(Apply(c, st, e), s) <==> Retracting(st, s)
  {
    var st', task := Apply(c, st, e), st.tasks[e.t];
    assert InOrder(e.t, task, s);
    assert task.todo[1..] == AfterPublish(s) && AfterPublish(s)[0] == Serve(s);
    forall t
      ensures RetractedBy(st', t, s) <==> RetractedBy(st, t, s)
    {
      if t == e.t {
        assert Serve(s) in task.todo && Serve(s) in st'.tasks[t].todo;
      } else if t in st.tasks {
        RetractedElsewhere(c, st, e, t, s);
      }
    }
  }

  /** A retraction goes on, or has removed the route. */
  lemma RetractionGoesOn(c: Setup, st: State, e: Event, t: TaskId, s: SessionId)
    requires RouteShape(st) && Enabled(c, st, e) && RetractedBy(st, t, s)
    ensures s !in Apply(c, st, e).routes || Retracting(Apply(c, st, e), s)
  {
    var st' := Apply(c, st, e);
    if e.Run? && t == e.t {
      RunGoesOn(c, st, t, e.order, s);
    } else if e.See? && t == e.t {
      assert RetractedBy(st', t, s);
    } else {
      RetractedElsewhere(c, st, e, t, s);
    }
  }

  lemma RunGoesOn(c: Setup, st: State, t: TaskId, order: seq<SessionId>, s: SessionId)
    requires RouteShape(st) && Enabled(c, st, Run(t, order)) && RetractedBy(st, t, s)
    ensures var st' := Apply(c, st, Run(t, order)); s !in st'.routes || RetractedBy(st', t, s)
  {
    var st', task := Apply(c, st, Run(t, order)), st.tasks[t];
    if s in task.held {
      if task.todo[0].Settle? && task.held[0] == s {
        var first := if task.todo[0].shutFirst then [Shut(s)] else [];
        assert st'.tasks[t].todo[|first| + 2] == DropRoute(s);
      }
    } else {
      TodoAfter(c, st, task, order, DropRoute(s));
      TodoAfter(c, st, task, order, Serve(s));
      if Serve(s) in Expansion(c, st, task.todo[0], task.held, order) {
        PushedKinds(c, st, task.todo[0], task.held, order, Serve(s));
      }
    }
  }

  /** A session leaves the primary index on the way to having its route removed. */
  lemma LeavingRetracts(c: Setup, st: State, e: Event, s: SessionId)
    requires RouteShape(st) && Enabled(c, st, e)
    requires s in st.bySession && s !in Apply(c, st, e).bySession
    ensures Retracting(Apply(c, st, e), s)
  {
    var st', task := Apply(c, st, e), st.tasks[e.t];
    ServesFirst(task.todo, s);
    if task.todo[0] == DropSession(s) {
      assert task.todo[1] == DropRoute(s) && DropRoute(s) in st'.tasks[e.t].todo;
      assert RetractedBy(st', e.t, s);
    } else {
      assert s in st'.tasks[e.t].held;
      assert RetractedBy(st', e.t, s);
    }
  }

  /** A step makes a route linger exactly when it publishes it late. */
  lemma LingersExactly(c: Setup, st: State, e: Event, s: SessionId)
    requires Inv(c, st) && RouteShape(st) && Enabled(c, st, e) && !Lingering(st, s)
    ensures Lingering(Apply(c, st, e), s) <==> PublishesLate(st, e, s)
  {
    var st' := Apply(c, st, e);
    if e.Run? && st.tasks[e.t].todo[0] == PublishRoute(s) {
      PublishKeepsRetracting(c, st, e, s);
    } else if s in st.routes && s in st.bySession && s !in st'.bySession {
      LeavingRetracts(c, st, e, s);
    } else if s in st.routes && Retracting(st, s) {
      var t :| RetractedBy(st, t, s);
      RetractionGoesOn(c, st, e, t, s);
    }
  }

  // ---------------------------------------------------------------- until the session's own removal

  lemma LingeringServes(st: State, s: SessionId)
    requires RoutesBacked(st) && Lingering(st, s)
    ensures Owes(st, s, Serve(s))
  {
    assert !RetractedBy(st, Socket(s), s);
  }

  /** Nothing retracts the route of an unregistered session before its own task does. */
  lemma LingeringStays(c: Setup, st: State, e: Event, s: SessionId)
    requires Inv(c, st) && RouteShape(st) && Enabled(c, st, e) && Lingering(st, s)
    ensures Lingering(Apply(c, st, e), s) <==> s in Apply(c, st, e).routes && Owes(Apply(c, st, e), s, Serve(s))
  {
    var st' := Apply(c, st, e);
    LingeringServes(st, s);
    if Lingering(st', s) {
      RoutesBackedKept(c, st, e);
      LingeringServes(st', s);
    } else if s in st'.routes && Owes(st', s, Serve(s)) {
      LingersOn(c, st, e, s);
    }
  }

  lemma LingersOn(c: Setup, st: State, e: Event, s: SessionId)
    requires AllInOrder(st) && RouteShape(st) && Enabled(c, st, e) && Lingering(st, s) && Socket(s) in st.tasks
    requires s in Apply(c, st, e).routes && Owes(Apply(c, st, e), s, Serve(s))
    ensures Lingering(Apply(c, st, e), s)
  {
    NotStoredAgain(c, st, e, s);
    forall t
      ensures !RetractedBy(Apply(c, st, e), t, s)
    {
      NotRetracted(c, st, e, t, s);
    }
  }

  lemma NotStoredAgain(c: Setup, st: State, e: Event, s: SessionId)
    requires AllInOrder(st) && RouteShape(st) && Enabled(c, st, e)
    requires s in st.routes && s !in st.bySession
    ensures s !in Apply(c, st, e).bySession
  {
    if e.Run? {
      assert InOrder(e.t, st.tasks[e.t], s);
    }
    if Owes(st, s, StoreSession(s)) {
      StoresBeforePublishing(st, s);
    }
  }

  lemma StoresBeforePublishing(st: State, s: SessionId)
    requires AllInOrder(st) && Owes(st, s, StoreSession(s))
    ensures Owes(st, s, PublishRoute(s))
  {
    var todo := st.tasks[Socket(s)].todo;
    assert InOrder(Socket(s), st.tasks[Socket(s)], s);
    assert todo[|todo| - 7..] == AfterStore(s) && AfterStore(s)[1] == PublishRoute(s);
    assert todo[|todo| - 6] == PublishRoute(s);
  }

  lemma NotRetracted(c: Setup, st: State, e: Event, t: TaskId, s: SessionId)
    requires Enabled(c, st, e) && s !in st.bySession && !RetractedBy(st, t, s)
    requires Socket(s) in st.tasks && Owes(Apply(c, st, e), s, Serve(s))
    ensures !RetractedBy(Apply(c, st, e), t, s)
  {
    if e.Run? && t == e.t {
      var task := st.tasks[t];
      TodoAfter(c, st, task, e.order, DropRoute(s));
      if DropRoute(s) in Expansion(c, st, task.todo[0], task.held, e.order) {
        PushedKinds(c, st, task.todo[0], task.held, e.order, DropRoute(s));
      }
    }
  }

  /** Step `k` published the route late, and since then it has neither been removed nor has its
      own task finished serving. */
  ghost predicate LingersSince(c: Setup, states: seq<State>, events: seq<Event>, i: nat, s: SessionId, k: nat)
    requires IsRun(c, states, events) && i < |states|
  {
    && k < i && PublishesLate(states[k], events[k], s)
    && forall j :: k < j <= i ==> s in states[j].routes && Owes(states[j], s, Serve(s))
  }

  lemma LingersSinceBefore(c: Setup, states: seq<State>, events: seq<Event>, i: nat, s: SessionId, k: nat)
    requires IsRun(c, states, events) && 0 < i < |states|
    ensures LingersSince(c, states, events, i, s, k) <==>
            ((k == i - 1 && PublishesLate(states[k], events[k], s)) || LingersSince(c, states, events, i - 1, s, k)) &&
            s in states[i].routes && Owes(states[i], s, Serve(s))
  {
  }

  /** In any run a route names an unregistered session with no removal under way exactly when it
      was published late and its session is still being served. */
  lemma {:induction false} LingersAlongRuns(c: Setup, states: seq<State>, events: seq<Event>, i: nat, s: SessionId)
    requires IsRun(c, states, events) && i < |states|
    ensures Lingering(states[i], s) <==> exists k :: LingersSince(c, states, events, i, s, k)
  {
    if i > 0 {
      LingersAlongRuns(c, states, events, i - 1, s);
      LingersStep(c, states, events, i, s);
      forall k: nat
        ensures LingersSince(c, states, events, i, s, k) <==>
                ((k == i - 1 && PublishesLate(states[k], events[k], s)) || LingersSince(c, states, events, i - 1, s, k)) &&
                s in states[i].routes && Owes(states[i], s, Serve(s))
      {
        LingersSinceBefore(c, states, events, i, s, k);
      }
    }
  }

  lemma LingersStep(c: Setup, states: seq<State>, events: seq<Event>, i: nat, s: SessionId)
    requires IsRun(c, states, events) && 0 < i < |states|
    ensures Lingering(states[i], s) <==>
            (Lingering(states[i - 1], s) || PublishesLate(states[i - 1], events[i - 1], s)) &&
            s in states[i].routes && Owes(states[i], s, Serve(s))
  {
    var st, e := states[i - 1], events[i - 1];
    RouteShapeHolds(c, states, events, i - 1);
    InvHolds(c, states, events, i - 1);
    if Lingering(st, s) {
      LingeringStays(c, st, e, s);
    } else {
      LingersExactly(c, st, e, s);
      if PublishesLate(st, e, s) {
        PublishedServes(c, st, e, s);
      }
    }
  }

  lemma PublishedServes(c: Setup, st: State, e: Event, s: SessionId)
    requires AllInOrder(st) && Enabled(c, st, e) && e.Run? && st.tasks[e.t].todo[0] == PublishRoute(s)
    ensures s in Apply(c, st, e).routes && Owes(Apply(c, st, e), s, Serve(s))
  {
    assert InOrder(e.t, st.tasks[e.t], s);
    assert st.tasks[e.t].todo[1..] == AfterPublish(s) && AfterPublish(s)[0] == Serve(s);
  }
}
