/** Replacing a user's old connection while operations overlap: exactly when a user ends up with
    two sessions that nobody is removing. */
module SinglePolicy {
  import opened Identity
  import opened UserIndexes
  import opened RegistryRaces
  import opened RegistrySafety
  import opened RegistryAgreement

  /** Registered, with no operation under way that takes it out. */
  ghost predicate Staying(c: Setup, st: State, s: SessionId) {
    s in st.bySession && !Leaving(c, st, s)
  }

  ghost predicate OneStays(c: Setup, st: State, u: UserId) {
    forall x, y :: Staying(c, st, x) && Staying(c, st, y) && c.owner(x) == u && c.owner(y) == u ==> x == y
  }

  /** The event stores a session of `u` that nobody is taking out, while another one stays. */
  ghost predicate StoresBeside(c: Setup, st: State, e: Event, u: UserId) {
    && e.Run? && Runnable(st, e.t) && st.tasks[e.t].todo[0].StoreSession?
    && var s := st.tasks[e.t].todo[0].s;
       && c.owner(s) == u && !Leaving(c, st, s)
       && exists x :: x != s && Staying(c, st, x) && c.owner(x) == u
  }

  // ---------------------------------------------------------------- one step

  /** Only its own store makes a session stay. */
  lemma NewlyStaying(c: Setup, st: State, e: Event, s: SessionId)
    requires Enabled(c, st, e) && Staying(c, Apply(c, st, e), s)
    ensures Staying(c, st, s) || (e.Run? && st.tasks[e.t].todo[0] == StoreSession(s))
  {
    if s in st.bySession && Leaving(c, st, s) {
      var t :| Dropping(c, st, t, s) || Unlinking(st, t, s);
      LeavingGoesOn(c, st, e, t, s);
    }
  }

  lemma StoringTodo(c: Setup, st: State, e: Event, s: SessionId)
    requires AllInOrder(st) && Enabled(c, st, e) && e.Run? && st.tasks[e.t].todo[0] == StoreSession(s)
    ensures st.tasks[e.t].todo == [StoreSession(s)] + AfterStore(s)
    ensures Apply(c, st, e).tasks[e.t].todo == AfterStore(s)
  {
    assert InOrder(e.t, st.tasks[e.t], s);
    assert st.tasks[e.t].todo[1..] == AfterStore(s);
    assert Expansion(c, st, StoreSession(s), st.tasks[e.t].held, e.order) == [];
  }

  /** Nothing is being taken out by a task that is at its store or just past it. */
  lemma PlainTodo(c: Setup, st: State, t: TaskId, s: SessionId, x: SessionId)
    requires t in st.tasks
    requires st.tasks[t].todo == AfterStore(s) || st.tasks[t].todo == [StoreSession(s)] + AfterStore(s)
    ensures !Dropping(c, st, t, x) && !Unlinking(st, t, x)
  {
    TailIsPlain(s);
    assert AfterStore(s)[0] == Settle(true);
  }

  /** A store starts and ends no removal. */
  lemma StoreKeepsLeaving(c: Setup, st: State, e: Event, s: SessionId, x: SessionId)
    requires AllInOrder(st) && Enabled(c, st, e) && e.Run? && st.tasks[e.t].todo[0] == StoreSession(s)
    ensures Leaving(c, Apply(c, st, e), x) <==> Leaving(c, st, x)
  {
    var st' := Apply(c, st, e);
    StoringTodo(c, st, e, s);
    PlainTodo(c, st, e.t, s, x);
    PlainTodo(c, st', e.t, s, x);
    forall t
      ensures (Dropping(c, st', t, x) || Unlinking(st', t, x)) <==> (Dropping(c, st, t, x) || Unlinking(st, t, x))
    {
      if t != e.t && t in st.tasks {
        LeavingElsewhere(c, st, e, t, x);
      }
    }
  }

  /** A step gives a user a second staying session exactly when it stores one beside another. */
  lemma SecondStaysExactly(c: Setup, st: State, e: Event, u: UserId)
    requires Inv(c, st) && Enabled(c, st, e) && OneStays(c, st, u)
    ensures !OneStays(c, Apply(c, st, e), u) <==> StoresBeside(c, st, e, u)
  {
    var st' := Apply(c, st, e);
    if StoresBeside(c, st, e, u) {
      var s := st.tasks[e.t].todo[0].s;
      var x :| x != s && Staying(c, st, x) && c.owner(x) == u;
      StoreKeepsLeaving(c, st, e, s, s);
      StoreKeepsLeaving(c, st, e, s, x);
      assert Staying(c, st', s) && Staying(c, st', x);
    } else if !OneStays(c, st', u) {
      var x, y :| Staying(c, st', x) && Staying(c, st', y) && c.owner(x) == u && c.owner(y) == u && x != y;
      NewlyStaying(c, st, e, x);
      NewlyStaying(c, st, e, y);
      var s := if Staying(c, st, x) then y else x;
      StoreKeepsLeaving(c, st, e, s, s);
      assert false;
    }
  }

  // ---------------------------------------------------------------- whole runs

  lemma OneStaysStep(c: Setup, states: seq<State>, events: seq<Event>, i: nat, u: UserId)
    requires IsRun(c, states, events) && i < |events| && OneStays(c, states[i], u)
    ensures OneStays(c, states[i + 1], u) <==> !StoresBeside(c, states[i], events[i], u)
  {
    InvHolds(c, states, events, i);
    SecondStaysExactly(c, states[i], events[i], u);
  }

  /** A user never has two staying sessions in a run exactly when no step of it stores one
      beside another. */
  lemma {:induction false} OneStaysAlongRuns(c: Setup, states: seq<State>, events: seq<Event>, i: nat, u: UserId)
    requires IsRun(c, states, events) && i < |states|
    ensures (forall j :: 0 <= j <= i ==> OneStays(c, states[j], u)) <==>
            (forall k :: 0 <= k < i ==> !StoresBeside(c, states[k], events[k], u))
  {
    if i > 0 {
      OneStaysAlongRuns(c, states, events, i - 1, u);
      if OneStays(c, states[i - 1], u) {
        OneStaysStep(c, states, events, i - 1, u);
      }
      if j :| 0 <= j <= i - 1 && !OneStays(c, states[j], u) {
        var k :| 0 <= k < i - 1 && StoresBeside(c, states[k], events[k], u);
      }
    }
  }

  /** Under replacement two staying sessions of a user need a stale step first: without one
      there is never a second, and an idle user has at most one registered session. */
  lemma {:induction false} NoStaleStepKeepsOne(c: Setup, states: seq<State>, events: seq<Event>, i: nat, u: UserId)
    requires IsRun(c, states, events) && i < |states| && c.replace
    requires forall k, s :: 0 <= k < i && c.owner(s) == u ==> !Strands(c, states[k], events[k], s)
    ensures OneStays(c, states[i], u)
    ensures Idle(c, states[i], u) ==> |Registered(c, states[i], u)| <= 1
  {
    var st := states[i];
    ShapedHolds(c, states, events, i);
    forall s | Staying(c, st, s) && c.owner(s) == u
      ensures s in Bucket(st.byUser, u)
    {
      StrandedAlongRuns(c, states, events, i, s);
    }
    if Idle(c, st, u) {
      forall s | s in Registered(c, st, u)
        ensures Staying(c, st, s)
      {
        IdleStays(c, st, u, s);
      }
      AtMostOne(Registered(c, st, u));
    }
  }

  function Registered(c: Setup, st: State, u: UserId): set<SessionId> {
    set s | s in st.bySession && c.owner(s) == u
  }

  /** Under replacement an idle user has two registered sessions exactly when one of them is
      stranded beside another. */
  lemma IdlePairsExactly(c: Setup, states: seq<State>, events: seq<Event>, i: nat, u: UserId)
    requires IsRun(c, states, events) && i < |states| && c.replace && Idle(c, states[i], u)
    ensures |Registered(c, states[i], u)| > 1 <==>
            exists x, y :: x != y && c.owner(x) == u && Stranded(c, states[i], x) && y in Registered(c, states[i], u)
  {
    var st := states[i];
    ShapedHolds(c, states, events, i);
    if |Registered(c, st, u)| > 1 {
      var x, y := TwoOf(Registered(c, st, u));
      if !Stranded(c, st, x) && !Stranded(c, st, y) {
        IdleMember(c, st, u, x);
        IdleMember(c, st, u, y);
        assert false;
      }
    } else {
      AtMostOneIsAlone(Registered(c, st, u));
      assert forall x :: c.owner(x) == u && Stranded(c, st, x) ==> x in Registered(c, st, u);
    }
  }

  lemma TwoOf<T>(s: set<T>) returns (x: T, y: T)
    requires |s| > 1
    ensures x in s && y in s && x != y
  {
    x :| x in s;
    assert |s - {x}| == |s| - 1;
    y :| y in s - {x};
  }

  lemma AtMostOneIsAlone<T>(s: set<T>)
    requires |s| <= 1
    ensures forall x, y :: x in s && y in s ==> x == y
  {
    forall x, y | x in s && y in s
      ensures x == y
    {
      assert |s - {x}| == |s| - 1;
      assert x != y ==> y in s - {x};
    }
  }
}
