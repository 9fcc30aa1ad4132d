/** The connection manager: registry, presence and delivery. Each method is one whole operation;
    clock readings and the generated session id are parameters, and presence calls succeed. */
module Manager {
  import opened Identity
  import opened Protocol
  import opened Clock
  import opened Sessions
  import opened Presence
  import opened Registries

  /** A node publisher, as the sequence of everything published through it. */
  class Publisher {
    var published: seq<(NodeId, Envelope)>

    constructor ()
      ensures published == []
    {
      published := [];
    }

    method Publish(node: NodeId, envelope: Envelope)
      modifies this
      ensures published == old(published) + [(node, envelope)]
    {
      published := published + [(node, envelope)];
    }
  }

  class Cluster {
    const presence: MemoryPresenceStore
    const publisher: Publisher

    constructor (presence: MemoryPresenceStore, publisher: Publisher)
      ensures this.presence == presence && this.publisher == publisher
    {
      this.presence, this.publisher := presence, publisher;
    }
  }

  function KeysOf(flat: FlatRegistry, ids: set<SessionId>): set<Key>
    requires ids <= flat.Keys
  {
    set s | s in ids :: Key(flat[s], s)
  }

  /** The presence table without the routes a new connection of the user displaces. */
  function WithoutDisplaced(table: Table, flat: FlatRegistry, user: UserId, replace: bool): Table {
    table - KeysOf(flat, DisplacedBy(flat, user, replace))
  }

  /** The presence table after an accept: displaced routes gone, the new one registered. */
  function AcceptedTable(table: Table, flat: FlatRegistry, route: Route, replace: bool, expiresAt: nat): Table {
    Presence.Registered(WithoutDisplaced(table, flat, route.user, replace), route, expiresAt)
  }

  /** The nodes other than `self` that own one of the routes. */
  function RemoteNodes(routes: set<Route>, self: NodeId): set<NodeId> {
    set r | r in routes && r.node != self :: r.node
  }

  /** The remote nodes are the owners, other than `self`, of the user's unexpired routes. */
  lemma RemoteNodesMeaning(table: Table, user: UserId, now: nat, self: NodeId, n: NodeId)
    ensures n in RemoteNodes(LiveRoutes(table, user, now), self) <==>
            n != self &&
            exists k :: k in table && k.user == user && now < table[k].expiresAt && table[k].route.node == n
  {
    if k :| k in table && k.user == user && now < table[k].expiresAt && table[k].route.node == n {
      assert k in LiveKeys(table, user, now);
      assert table[k].route in LiveRoutes(table, user, now);
    }
  }

  /** One envelope to each of the nodes, in some order. */
  ghost predicate OneEach(posts: seq<(NodeId, Envelope)>, nodes: set<NodeId>, envelope: Envelope) {
    && |posts| == |nodes|
    && (forall i :: 0 <= i < |posts| ==> posts[i].0 in nodes && posts[i].1 == envelope)
    && (forall i, j :: 0 <= i < j < |posts| ==> posts[i].0 != posts[j].0)
    && (forall n :: n in nodes ==> (n, envelope) in posts)
  }

  lemma PostedToOwners(table: Table, user: UserId, frame: Frame, now: nat, self: NodeId, posts: seq<(NodeId, Envelope)>)
    requires OneEach(posts, RemoteNodes(LiveRoutes(table, user, now), self), Wrap(user, frame))
    ensures forall i, j :: 0 <= i < j < |posts| ==> posts[i].0 != posts[j].0
    ensures forall p :: p in posts ==> p.1 == Envelope(user, frame.kind, frame.payload)
    ensures forall n :: (n, Envelope(user, frame.kind, frame.payload)) in posts <==>
              n != self &&
              exists k :: k in table && k.user == user && now < table[k].expiresAt && table[k].route.node == n
  {
    forall n
      ensures (n, Envelope(user, frame.kind, frame.payload)) in posts <==>
                n != self &&
                exists k :: k in table && k.user == user && now < table[k].expiresAt && table[k].route.node == n
    {
      RemoteNodesMeaning(table, user, now, self, n);
    }
  }

  function SessionKeys(sessions: seq<Session>): set<Key> {
    set s | s in sessions :: Key(s.identity.user, s.id)
  }

  /** Removing one more session's key. */
  lemma RemovedOneMore(table: Table, sessions: seq<Session>, i: nat)
    requires i < |sessions|
    ensures Removed(table - SessionKeys(sessions[..i]), Key(sessions[i].identity.user, sessions[i].id)) ==
            table - SessionKeys(sessions[..i + 1])
  {
    assert sessions[..i + 1] == sessions[..i] + [sessions[i]];
    assert SessionKeys(sessions[..i + 1]) ==
           SessionKeys(sessions[..i]) + {Key(sessions[i].identity.user, sessions[i].id)};
  }

  /** The replaced sessions have the displaced keys. */
  lemma DisplacedKeys(flat: FlatRegistry, bySession: map<SessionId, Session>, replaced: seq<Session>,
                      user: UserId, replace: bool)
    requires flat.Keys == bySession.Keys
    requires forall id :: id in bySession ==> bySession[id].id == id && flat[id] == bySession[id].identity.user
    requires forall s :: s in replaced <==> s.id in DisplacedBy(flat, user, replace) && bySession[s.id] == s
    ensures SessionKeys(replaced) == KeysOf(flat, DisplacedBy(flat, user, replace))
  {
    forall id | id in DisplacedBy(flat, user, replace)
      ensures Key(flat[id], id) in SessionKeys(replaced)
    {
      assert bySession[id] in replaced;
    }
  }

  function Ids(sessions: seq<Session>): set<SessionId> {
    set s | s in sessions :: s.id
  }

  lemma FlatMinus(bySession: map<SessionId, Session>, ids: set<SessionId>)
    ensures FlatOf(bySession - ids) == FlatOf(bySession) - ids
  {
  }

  lemma MinusOneMore<V>(m: map<SessionId, V>, sessions: seq<Session>, i: nat)
    requires i < |sessions|
    ensures (m - Ids(sessions[..i])) - {sessions[i].id} == m - Ids(sessions[..i + 1])
  {
    assert sessions[..i + 1] == sessions[..i] + [sessions[i]];
    assert Ids(sessions[..i + 1]) == Ids(sessions[..i]) + {sessions[i].id};
  }

  ghost function States(sessions: seq<Session>): (states: seq<SessionState>)
    reads sessions
    ensures |states| == |sessions|
  {
    seq(|sessions|, i requires 0 <= i < |sessions| reads sessions => sessions[i].State())
  }

  /** The sessions that take a frame now: open, connected and with room. */
  ghost function Taking(sessions: set<Session>): (taking: set<Session>)
    reads sessions
    ensures taking <= sessions
    ensures forall s :: s in sessions ==> (s in taking <==> !s.closed && s.receiving && |s.queue| < s.capacity)
  {
    set s | s in sessions && Takes(s.State())
  }

  function Elements(sessions: seq<Session>): set<Session> {
    set s | s in sessions
  }

  /** The same count over a list of session states. */
  function Takers(states: seq<SessionState>): nat {
    if states == [] then 0
    else Takers(states[..|states| - 1]) + (if Takes(states[|states| - 1]) then 1 else 0)
  }

  lemma TakersStep(states: seq<SessionState>, i: nat)
    requires i < |states|
    ensures Takers(states[..i + 1]) == Takers(states[..i]) + (if Takes(states[i]) then 1 else 0)
  {
    assert states[..i + 1][..i] == states[..i];
  }

  lemma {:induction false} TakersAreTaking(sessions: seq<Session>, states: seq<SessionState>, i: nat)
    requires Distinct(sessions) && i <= |sessions| == |states|
    requires forall k :: 0 <= k < |sessions| ==> states[k] == sessions[k].State()
    ensures Takers(states[..i]) == |Taking(Elements(sessions[..i]))|
  {
    if i == 0 {
      assert Taking(Elements(sessions[..i])) == {};
    } else {
      TakersAreTaking(sessions, states, i - 1);
      TakersStep(states, i - 1);
      var before, last := sessions[..i - 1], sessions[i - 1];
      assert sessions[..i] == before + [last] && last !in before;
      TakingOneMore(Elements(before), last);
      assert Elements(sessions[..i]) == Elements(before) + {last};
    }
  }

  lemma TakingOneMore(sessions: set<Session>, last: Session)
    requires last !in sessions
    ensures |Taking(sessions + {last})| == |Taking(sessions)| + (if Takes(last.State()) then 1 else 0)
  {
    assert Taking(sessions + {last}) == if Takes(last.State()) then Taking(sessions) + {last} else Taking(sessions);
  }

  /** Enqueues a frame to each session and counts the acceptances. */
  method DeliverAll(sessions: seq<Session>, frame: Frame) returns (sent: nat)
    requires Distinct(sessions)
    modifies sessions
    ensures sent == |old(Taking(Elements(sessions)))|
    ensures forall s :: s in sessions ==> s.State() == Enqueued(old(s.State()), frame)
  {
    sent := 0;
    ghost var before := States(sessions);
    ghost var done: set<Session> := {};
    assert Takers(before) == |Taking(Elements(sessions))| by {
      TakersAreTaking(sessions, before, |sessions|);
      assert sessions[..|sessions|] == sessions && before[..|sessions|] == before;
    }
    for i := 0 to |sessions|
      invariant forall k :: 0 <= k < |sessions| ==> (sessions[k] in done <==> k < i)
      invariant forall s :: s in sessions ==>
                  s.State() == if s in done then Enqueued(old(s.State()), frame) else old(s.State())
      invariant sent == Takers(before[..i])
    {
      TakersStep(before, i);
      assert sessions[i] !in done && sessions[i].State() == before[i];
      var result := sessions[i].Enqueue(frame);
      done := done + {sessions[i]};
      if result == Accepted {
        sent := sent + 1;
      }
    }
    assert before[..|sessions|] == before;
  }

  /** Publishes one envelope to each node. */
  method PublishAll(publisher: Publisher, nodes: set<NodeId>, envelope: Envelope) returns (count: nat)
    modifies publisher
    ensures count == |nodes| && old(publisher.published) <= publisher.published
    ensures OneEach(publisher.published[|old(publisher.published)|..], nodes, envelope)
  {
    count := 0;
    var todo := nodes;
    ghost var posts: seq<(NodeId, Envelope)> := [];
    while todo != {}
      invariant todo <= nodes && count + |todo| == |nodes|
      invariant publisher.published == old(publisher.published) + posts
      invariant OneEach(posts, nodes - todo, envelope)
    {
      var node :| node in todo;
      publisher.Publish(node, envelope);
      posts := posts + [(node, envelope)];
      todo := todo - {node};
      count := count + 1;
    }
    assert nodes - todo == nodes;
  }

  /** The distinct owners of the routes other than `self`. */
  method CollectRemote(routes: seq<Route>, self: NodeId) returns (nodes: set<NodeId>)
    ensures nodes == RemoteNodes((set r | r in routes), self)
    ensures forall n :: n in nodes <==> n != self && exists r :: r in routes && r.node == n
  {
    nodes := {};
    for i := 0 to |routes|
      invariant nodes == set k | 0 <= k < i && routes[k].node != self :: routes[k].node
    {
      if routes[i].node != self {
        nodes := nodes + {routes[i].node};
      }
    }
  }

  class RustWing {
    const node: NodeId
    const timeout: nat
    const capacity: nat
    const replace: bool
    const clusterEnabled: bool
    const ttl: nat
    const cluster: Cluster?
    const registry: Registry

    ghost function Stores(): set<object> {
      if cluster != null then {cluster.presence} else {}
    }

    ghost predicate Valid()
      reads registry, Stores()
    {
      && capacity > 0
      && registry.Valid()
      && (cluster != null ==> cluster.presence.Valid())
    }

    /** The presence table, empty without a cluster. */
    ghost function Table(): Table
      reads Stores()
    {
      if cluster != null then cluster.presence.table else map[]
    }

    /** The registered sessions a new connection of this user displaces. */
    ghost function DisplacedSessions(user: UserId): set<Session>
      reads registry
    {
      set id | id in DisplacedBy(registry.Flat(), user, replace) :: registry.bySession[id]
    }

    constructor (node: NodeId, timeout: nat, capacity: nat, replace: bool, clusterEnabled: bool, ttl: nat,
                 cluster: Cluster?)
      requires capacity > 0 && (cluster != null ==> cluster.presence.Valid())
      ensures Valid() && registry.bySession == map[] && fresh(registry)
      ensures this.node == node && this.cluster == cluster && this.replace == replace
    {
      this.node, this.timeout, this.capacity, this.replace := node, timeout, capacity, replace;
      this.clusterEnabled, this.ttl, this.cluster := clusterEnabled, ttl, cluster;
      registry := new Registry();
    }

    // -------------------------------------------------------------- presence

    method RegisterPresence(session: Session, now: nat)
      requires Valid()
      modifies Stores()
      ensures Valid()
      ensures Table() == if cluster != null && clusterEnabled
                         then Presence.Registered(old(Table()), Route(session.identity.user, session.id, node), now + ttl)
                         else old(Table())
    {
      if cluster == null || !clusterEnabled {
        return;
      }
      cluster.presence.Register(Route(session.identity.user, session.id, node), ttl, now);
    }

    method TouchPresence(session: Session, now: nat)
      requires Valid()
      modifies Stores()
      ensures Valid()
      ensures Table() == if cluster != null && clusterEnabled
                         then Touched(old(Table()), Key(session.identity.user, session.id), now + ttl)
                         else old(Table())
    {
      if cluster == null || !clusterEnabled {
        return;
      }
      cluster.presence.Touch(session.identity.user, session.id, ttl, now);
    }

    // -------------------------------------------------------------- lifecycle

    /** Removes exactly this session locally and from presence, then closes it. */
    method Unregister(session: Session)
      requires Valid() && registry.Knows(session)
      modifies registry, Stores(), session
      ensures Valid()
      ensures registry.bySession == old(registry.bySession) - {session.id}
      ensures registry.Flat() == old(registry.Flat()) - {session.id}
      ensures Table() == if cluster != null && clusterEnabled then Removed(old(Table()), Key(session.identity.user, session.id))
                         else old(Table())
      ensures session.State() == Closed(old(session.State()), UNREGISTERED)
    {
      registry.Remove(session);
      if cluster != null {
        if clusterEnabled {
          cluster.presence.Remove(session.identity.user, session.id);
        }
      }
      session.Close(UNREGISTERED);
    }

    /** No check within the timeout of that instant, counted in started milliseconds, finds the
        session inactive. */
    ghost predicate NotInactiveSince(session: Session, activeAt: nat)
      reads session
    {
      forall later: nat :: (later / 1_000_000 - activeAt / 1_000_000 + 1) * 1_000_000 <= timeout ==>
        timeout / 1_000_000 <= 0x7fff_ffff_ffff_ffff ==> !IsInactive(session.lastActive, timeout, later)
    }

    lemma JustActive(session: Session, activeAt: nat)
      requires session.lastActive == activeAt / 1_000_000
      ensures NotInactiveSince(session, activeAt)
    {
      forall later: nat
        ensures (later / 1_000_000 - activeAt / 1_000_000 + 1) * 1_000_000 <= timeout ==>
                  timeout / 1_000_000 <= 0x7fff_ffff_ffff_ffff ==> !IsInactive(session.lastActive, timeout, later)
      {
        InactiveMeaning(session.lastActive, timeout, later);
      }
    }

    method Touch(session: Session, activeAt: nat, routedAt: nat)
      requires Valid()
      modifies Stores(), session
      ensures Valid()
      ensures session.State() == Active(old(session.State()), activeAt) && session.lastActive == activeAt / 1_000_000
      ensures NotInactiveSince(session, activeAt)
      ensures Table() == if cluster != null && clusterEnabled
                         then Touched(old(Table()), Key(session.identity.user, session.id), routedAt + ttl)
                         else old(Table())
    {
      session.MarkActive(activeAt);
      TouchPresence(session, routedAt);
      JustActive(session, activeAt);
    }

    method HandleHeartbeat(session: Session, client: Option<int>, beatAt: nat, routedAt: nat)
        returns (clientTime: int, serverTime: int)
      requires Valid()
      modifies Stores(), session
      ensures Valid()
      ensures session.State() == HeartBeaten(old(session.State()), client, beatAt)
      ensures session.lastActive == beatAt / 1_000_000 && serverTime == session.lastHeartbeat == beatAt / 1_000_000
      ensures clientTime == session.clientHeartbeat == if client.Some? then client.value else old(session.clientHeartbeat)
      ensures NotInactiveSince(session, beatAt)
      ensures Table() == if cluster != null && clusterEnabled
                         then Touched(old(Table()), Key(session.identity.user, session.id), routedAt + ttl)
                         else old(Table())
    {
      session.MarkHeartbeat(client, beatAt);
      TouchPresence(session, routedAt);
      clientTime, serverTime := session.clientHeartbeat, session.lastHeartbeat;
      JustActive(session, beatAt);
    }

    method RetireOne(session: Session)
      requires Valid() && session.id !in registry.bySession
      modifies registry, Stores(), session
      ensures Valid() && registry.bySession == old(registry.bySession)
      ensures Table() == if cluster != null && clusterEnabled then Removed(old(Table()), Key(session.identity.user, session.id))
                         else old(Table())
      ensures session.State() == Closed(old(session.State()), REPLACED)
    {
      session.Close(REPLACED);
      Unregister(session);
    }

    /** Closes and unregisters sessions that are no longer in the registry. */
    method Retire(replaced: seq<Session>)
      requires Valid() && Distinct(replaced)
      requires forall d :: d in replaced ==> d.id !in registry.bySession
      modifies registry, Stores(), replaced
      ensures Valid() && registry.bySession == old(registry.bySession)
      ensures Table() == if cluster != null && clusterEnabled then old(Table()) - SessionKeys(replaced) else old(Table())
      ensures forall d :: d in replaced ==> d.State() == Closed(old(d.State()), REPLACED)
    {
      ghost var done: set<Session> := {};
      for i := 0 to |replaced|
        invariant Valid() && registry.bySession == old(registry.bySession)
        invariant Table() == if cluster != null && clusterEnabled then old(Table()) - SessionKeys(replaced[..i]) else old(Table())
        invariant forall k :: 0 <= k < |replaced| ==> (replaced[k] in done <==> k < i)
        invariant forall s :: s in replaced ==> s.State() == if s in done then Closed(old(s.State()), REPLACED) else old(s.State())
      {
        RetireOne(replaced[i]);
        done := done + {replaced[i]};
        RemovedOneMore(old(Table()), replaced, i);
      }
      assert Table() == if cluster != null && clusterEnabled then old(Table()) - SessionKeys(replaced) else old(Table()) by {
        assert replaced[..|replaced|] == replaced;
      }
    }

    /** Inserts a new session and retires what it displaces. */
    method Admit(session: Session)
      requires Valid() && session.id !in registry.bySession
      modifies registry, Stores(), DisplacedSessions(session.identity.user)
      ensures Valid()
      ensures registry.bySession == (old(registry.bySession)
                - DisplacedBy(old(registry.Flat()), session.identity.user, replace))[session.id := session]
      ensures registry.Flat() == Inserted(old(registry.Flat()), session.id, session.identity.user, replace)
      ensures forall d :: d in old(DisplacedSessions(session.identity.user)) ==>
                d.State() == Closed(old(d.State()), REPLACED)
      ensures Table() == if cluster != null && clusterEnabled
                         then WithoutDisplaced(old(Table()), old(registry.Flat()), session.identity.user, replace)
                         else old(Table())
    {
      var user := session.identity.user;
      var replaced := registry.Insert(session, replace);
      assert forall d :: d in replaced <==> d in old(DisplacedSessions(user));
      DisplacedKeys(old(registry.Flat()), old(registry.bySession), replaced, user, replace);
      Retire(replaced);
    }

    /** Accepts a client under a newly generated id. Displaced sessions are closed and unregistered,
        then the new session's route is registered. */
    method Accept(id: SessionId, identity: Identity, createdAt: nat, routedAt: nat) returns (session: Session)
      requires Valid() && id !in registry.bySession
      modifies registry, Stores(), DisplacedSessions(identity.user)
      ensures Valid() && fresh(session)
      ensures session.id == id && session.node == node && session.identity == identity
      ensures session.State() == SessionState(false, [], capacity, true, Millis(createdAt), 0, 0)
      ensures registry.bySession == (old(registry.bySession)
                - DisplacedBy(old(registry.Flat()), identity.user, replace))[id := session]
      ensures registry.Flat() == Inserted(old(registry.Flat()), id, identity.user, replace)
      ensures forall d :: d in old(DisplacedSessions(identity.user)) ==> d.State() == Closed(old(d.State()), REPLACED)
      ensures Table() == if cluster != null && clusterEnabled
                         then AcceptedTable(old(Table()), old(registry.Flat()), Route(identity.user, id, node),
                                            replace, routedAt + ttl)
                         else old(Table())
    {
      session := new Session(id, node, identity, capacity, createdAt);
      ghost var start := session.State();
      Admit(session);
      assert session.State() == start;
      ghost var admitted := registry.bySession;
      RegisterPresence(session, routedAt);
      assert registry.bySession == admitted && session.State() == start;
    }

    /** Unregisters registered sessions one after the other. */
    method UnregisterAll(stale: seq<Session>)
      requires Valid() && Distinct(stale)
      requires forall s :: s in stale ==> registry.Knows(s)
      modifies registry, Stores(), stale
      ensures Valid()
      ensures registry.bySession == old(registry.bySession) - Ids(stale)
      ensures registry.Flat() == old(registry.Flat()) - Ids(stale)
      ensures Table() == if cluster != null && clusterEnabled then old(Table()) - SessionKeys(stale) else old(Table())
      ensures forall s :: s in stale ==> s.State() == Closed(old(s.State()), UNREGISTERED)
    {
      ghost var done: set<Session> := {};
      for i := 0 to |stale|
        invariant Valid()
        invariant registry.bySession == old(registry.bySession) - Ids(stale[..i])
        invariant Table() == if cluster != null && clusterEnabled then old(Table()) - SessionKeys(stale[..i]) else old(Table())
        invariant forall k :: 0 <= k < |stale| ==> (stale[k] in done <==> k < i)
        invariant forall s :: s in stale ==> s.State() == if s in done then Closed(old(s.State()), UNREGISTERED) else old(s.State())
      {
        RemovedOneMore(old(Table()), stale, i);
        MinusOneMore(old(registry.bySession), stale, i);
        assert old(registry.Knows(stale[i]));
        Unregister(stale[i]);
        done := done + {stale[i]};
      }
      assert stale[..|stale|] == stale;
      FlatMinus(old(registry.bySession), Ids(stale));
    }

    /** The sessions found inactive by checks made one after the other between two instants. */
    method FindInactive(sessions: seq<Session>, begin: nat, end: nat) returns (stale: seq<Session>)
      requires Distinct(sessions) && begin <= end
      ensures Distinct(stale)
      ensures forall s :: s in stale ==> s in sessions && IsInactive(s.lastActive, timeout, end)
      ensures forall s :: s in sessions && IsInactive(s.lastActive, timeout, begin) ==> s in stale
      ensures timeout / 1_000_000 <= 0x7fff_ffff_ffff_ffff ==>
                && (forall s :: s in stale ==> (end / 1_000_000 - s.lastActive + 1) * 1_000_000 > timeout)
                && (forall s :: s in sessions && (begin / 1_000_000 - s.lastActive + 1) * 1_000_000 > timeout ==> s in stale)
    {
      if timeout / 1_000_000 <= 0x7fff_ffff_ffff_ffff {
        SilentAreInactive(Elements(sessions), begin);
        SilentAreInactive(Elements(sessions), end);
      }
      stale := [];
      var now := begin;
      for i := 0 to |sessions|
        invariant begin <= now <= end && Distinct(stale)
        invariant forall s :: s in stale ==> s in sessions[..i] && IsInactive(s.lastActive, timeout, end)
        invariant forall k :: 0 <= k < i && IsInactive(sessions[k].lastActive, timeout, begin) ==> sessions[k] in stale
      {
        var reading :| now <= reading <= end;
        now := reading;
        if IsInactive(sessions[i].lastActive, timeout, now) {
          InactiveStays(sessions[i].lastActive, timeout, now, end);
          stale := stale + [sessions[i]];
        }
        assert sessions[..i + 1] == sessions[..i] + [sessions[i]];
      }
    }

    lemma SilentAreInactive(sessions: set<Session>, now: nat)
      requires timeout / 1_000_000 <= 0x7fff_ffff_ffff_ffff
      ensures forall s :: s in sessions ==>
                (IsInactive(s.lastActive, timeout, now) <==> (now / 1_000_000 - s.lastActive + 1) * 1_000_000 > timeout)
    {
      forall s | s in sessions
        ensures IsInactive(s.lastActive, timeout, now) <==> (now / 1_000_000 - s.lastActive + 1) * 1_000_000 > timeout
      {
        InactiveMeaning(s.lastActive, timeout, now);
      }
    }

    /** Unregisters every session found inactive by checks made between `begin` and `end`. */
    method ReapInactiveSessions(begin: nat, end: nat) returns (count: nat, ghost stale: seq<Session>)
      requires Valid() && begin <= end
      modifies registry, Stores(), registry.bySession.Values
      ensures Valid() && count == |stale| && Distinct(stale)
      ensures forall s :: s in stale ==> s in old(registry.bySession.Values)
      ensures forall s :: s in stale ==> old(IsInactive(s.lastActive, timeout, end))
      ensures forall s :: s in old(registry.bySession.Values) && old(IsInactive(s.lastActive, timeout, begin)) ==> s in stale
      ensures timeout / 1_000_000 <= 0x7fff_ffff_ffff_ffff ==>
                && (forall s :: s in stale ==> old((end / 1_000_000 - s.lastActive + 1) * 1_000_000 > timeout))
                && (forall s | s in old(registry.bySession.Values) ::
                      old((begin / 1_000_000 - s.lastActive + 1) * 1_000_000 > timeout) ==> s in stale)
      ensures registry.bySession == old(registry.bySession) - Ids(stale)
      ensures registry.Flat() == old(registry.Flat()) - Ids(stale)
      ensures Table() == if cluster != null && clusterEnabled then old(Table()) - SessionKeys(stale) else old(Table())
      ensures forall s :: s in stale ==> s.State() == Closed(old(s.State()), UNREGISTERED)
      ensures forall s :: s in old(registry.bySession.Values) && s !in stale ==> s.State() == old(s.State())
    {
      var sessions := registry.AllSessions();
      assert forall s :: s in sessions <==> s in registry.bySession.Values;
      var inactive := FindInactive(sessions, begin, end);
      stale := inactive;
      UnregisterAll(inactive);
      count := |inactive|;
    }

    // -------------------------------------------------------------- delivery

    ghost function UserSessions(user: UserId): (sessions: set<Session>)
      reads registry
      ensures sessions <= registry.bySession.Values
      ensures forall s :: s in registry.bySession.Values ==> (s in sessions <==> s.identity.user == user)
    {
      set id | id in OfUser(registry.Flat(), user) :: registry.bySession[id]
    }

    /** Enqueues to every local session of the user; the result is the number that took it. */
    method SendLocal(user: UserId, frame: Frame) returns (sent: nat)
      requires Valid()
      modifies UserSessions(user)
      ensures Valid() && sent == |old(Taking(UserSessions(user)))|
      ensures forall s :: s in old(registry.bySession.Values) ==>
                s.State() == if s.identity.user == user then Enqueued(old(s.State()), frame) else old(s.State())
    {
      var sessions := registry.SessionsForUser(user);
      assert Elements(sessions) == UserSessions(user);
      sent := DeliverAll(sessions, frame);
    }

    /** Enqueues to every local session. */
    method BroadcastLocal(frame: Frame) returns (sent: nat)
      requires Valid()
      modifies registry.bySession.Values
      ensures Valid() && sent == |old(Taking(registry.bySession.Values))|
      ensures forall s :: s in old(registry.bySession.Values) ==> s.State() == Enqueued(old(s.State()), frame)
    {
      var sessions := registry.AllSessions();
      assert Elements(sessions) == registry.bySession.Values;
      sent := DeliverAll(sessions, frame);
    }

    /** A received envelope is delivered locally and nowhere else. */
    method HandleClusterEnvelope(envelope: Envelope) returns (sent: nat)
      requires Valid()
      modifies UserSessions(envelope.user)
      ensures Valid()
      ensures sent == |old(Taking(UserSessions(envelope.user)))|
      ensures forall s :: s in old(registry.bySession.Values) ==>
                s.State() == if s.identity.user == envelope.user
                             then Enqueued(old(s.State()), Frame(envelope.kind, envelope.payload)) else old(s.State())
    {
      sent := SendLocal(envelope.user, Unwrap(envelope));
    }

    ghost function Publishers(): set<object> {
      if cluster != null then {cluster.publisher} else {}
    }

    ghost function Published(): seq<(NodeId, Envelope)>
      reads Publishers()
    {
      if cluster != null then cluster.publisher.published else []
    }

    /** One envelope to each other node that owns an unexpired route of the user. */
    method SendRemote(cluster: Cluster, user: UserId, frame: Frame, now: nat) returns (sent: nat)
      requires cluster.presence.Valid()
      modifies cluster.presence, cluster.publisher
      ensures cluster.presence.Valid() && cluster.presence.table == Purged(old(cluster.presence.table), user, now)
      ensures old(cluster.publisher.published) <= cluster.publisher.published
      ensures var posts, table := cluster.publisher.published[|old(cluster.publisher.published)|..], old(cluster.presence.table);
              && sent == |posts|
              && (forall i, j :: 0 <= i < j < |posts| ==> posts[i].0 != posts[j].0)
              && (forall p :: p in posts ==> p.1 == Envelope(user, frame.kind, frame.payload))
              && (forall n :: (n, Envelope(user, frame.kind, frame.payload)) in posts <==>
                    n != node &&
                    exists k :: k in table && k.user == user && now < table[k].expiresAt && table[k].route.node == n)
    {
      ghost var table, before := cluster.presence.table, cluster.publisher.published;
      var routes := cluster.presence.Locate(user, now);
      var remote := CollectRemote(routes, node);
      assert (set r | r in routes) == LiveRoutes(table, user, now);
      sent := PublishAll(cluster.publisher, remote, Wrap(user, frame));
      PostedToOwners(table, user, frame, now, node, cluster.publisher.published[|before|..]);
    }

    /** Local delivery first; when no local session took the frame, one envelope to each other node
        that owns an unexpired route of the user. */
    method SendToUser(user: UserId, frame: Frame, now: nat) returns (sent: nat)
      requires Valid()
      modifies UserSessions(user), Stores(), Publishers()
      ensures Valid() && old(Published()) <= Published()
      ensures forall s :: s in old(registry.bySession.Values) ==>
                s.State() == if s.identity.user == user then Enqueued(old(s.State()), frame) else old(s.State())
      ensures var takers := old(Taking(UserSessions(user)));
              takers != {} || cluster == null || !clusterEnabled ==>
                sent == |takers| && Table() == old(Table()) && Published() == old(Published())
      ensures var takers := old(Taking(UserSessions(user)));
              takers == {} && cluster != null && clusterEnabled ==>
                var posts, table := Published()[|old(Published())|..], old(Table());
                && Table() == Purged(table, user, now) && sent == |posts|
                && (forall i, j :: 0 <= i < j < |posts| ==> posts[i].0 != posts[j].0)
                && (forall p :: p in posts ==> p.1 == Envelope(user, frame.kind, frame.payload))
                && (forall n :: (n, Envelope(user, frame.kind, frame.payload)) in posts <==>
                      n != node &&
                      exists k :: k in table && k.user == user && now < table[k].expiresAt && table[k].route.node == n)
    {
      sent := SendLocal(user, frame);
      if sent > 0 || cluster == null || !clusterEnabled {
        return;
      }
      sent := SendRemote(cluster, user, frame, now);
    }
  }
}
