/** Runs of whole manager operations on many nodes that share one presence store and one
    non-decreasing clock: leases, presence and the single-session policy. */
module ClusterRuns {
  import opened Identity
  import opened Protocol
  import opened Clock
  import opened Presence
  import opened Registries
  import opened Sessions
  import Manager

  datatype Config = Config(nodes: set<NodeId>, timeout: nat, ttl: nat, replace: bool)

  datatype Home = Home(node: NodeId, user: UserId)

  /** `sessions` are the registered ones; `issued`, `active` and `closed` speak of every session
      ever accepted; `newest` is the last one accepted per node and user; `reaped` is when each
      node last reaped. */
  datatype World = World(
    sessions: map<SessionId, Home>,
    issued: map<SessionId, Home>,
    active: map<SessionId, nat>,
    closed: set<SessionId>,
    newest: map<Home, SessionId>,
    table: Table,
    now: nat,
    reaped: map<NodeId, nat>)

  datatype Event =
    | Accept(node: NodeId, id: SessionId, user: UserId)
    | Unregister(id: SessionId)
    | Touch(id: SessionId)       // touch or heartbeat
    | Reap(node: NodeId)
    | Locate(user: UserId)
    | Fail(id: SessionId)        // a failed enqueue closes the session
    | Tick(nanos: nat)

  function Start(c: Config): World {
    World(map[], map[], map[], {}, map[], map[], 0, map n | n in c.nodes :: 0)
  }

  /** One node's registry. */
  function NodeView(w: World, node: NodeId): FlatRegistry {
    map id | id in w.sessions && w.sessions[id].node == node :: w.sessions[id].user
  }

  function KeyOfSession(homes: map<SessionId, Home>, id: SessionId): Key
    requires id in homes
  {
    Key(homes[id].user, id)
  }

  function KeysOfSessions(homes: map<SessionId, Home>, ids: set<SessionId>): set<Key>
    requires ids <= homes.Keys
  {
    set id | id in ids :: KeyOfSession(homes, id)
  }

  function RouteOf(homes: map<SessionId, Home>, id: SessionId): Route
    requires id in homes
  {
    Route(homes[id].user, id, homes[id].node)
  }

  /** The registered sessions of a node that are inactive now. */
  function Stale(c: Config, w: World, node: NodeId): set<SessionId> {
    set id | id in w.sessions && w.sessions[id].node == node && id in w.active &&
             IsInactive(w.active[id], c.timeout, w.now)
  }

  predicate Enabled(c: Config, w: World, e: Event) {
    match e
    case Accept(node, id, _) => node in c.nodes && id !in w.issued
    case Unregister(id) => id in w.issued
    case Touch(id) => id in w.issued
    case Reap(node) => node in c.nodes
    case Fail(id) => id in w.issued
    case Locate(_) => true
    case Tick(_) => true
  }

  function Apply(c: Config, w: World, e: Event): World
    requires Enabled(c, w, e)
  {
    match e
    case Accept(node, id, user) =>
      var displaced := DisplacedBy(NodeView(w, node), user, c.replace);
      w.(sessions := (w.sessions - displaced)[id := Home(node, user)],
         issued := w.issued[id := Home(node, user)],
         active := w.active[id := Millis(w.now)],
         closed := w.closed + displaced,
         newest := w.newest[Home(node, user) := id],
         table := Manager.AcceptedTable(w.table, NodeView(w, node), Route(user, id, node), c.replace, w.now + c.ttl))
    case Unregister(id) =>
      w.(sessions := w.sessions - {id}, closed := w.closed + {id},
         table := Removed(w.table, KeyOfSession(w.issued, id)))
    case Touch(id) =>
      w.(active := w.active[id := Millis(w.now)],
         table := Touched(w.table, KeyOfSession(w.issued, id), w.now + c.ttl))
    case Reap(node) =>
      var stale := Stale(c, w, node);
      w.(sessions := w.sessions - stale, closed := w.closed + stale,
         table := w.table - KeysOfSessions(w.sessions, stale),
         reaped := w.reaped[node := w.now])
    case Locate(user) => w.(table := Purged(w.table, user, w.now))
    case Fail(id) => w.(closed := w.closed + {id})
    case Tick(nanos) => w.(now := w.now + nanos)
  }

  ghost predicate IsRun(c: Config, worlds: seq<World>, events: seq<Event>) {
    && |worlds| == |events| + 1
    && worlds[0] == Start(c)
    && forall i :: 0 <= i < |events| ==>
         Enabled(c, worlds[i], events[i]) && worlds[i + 1] == Apply(c, worlds[i], events[i])
  }

  // ---------------------------------------------------------------- what the manager does per node

  lemma ViewWithout(w: World, later: World, gone: set<SessionId>, node: NodeId)
    requires later.sessions == w.sessions - gone
    requires forall id :: id in gone && id in w.sessions ==> w.sessions[id].node != node
    ensures NodeView(later, node) == NodeView(w, node)
  {
    assert forall id :: id in NodeView(later, node) <==> id in NodeView(w, node);
  }

  lemma ViewBeside(w: World, later: World, id: SessionId, home: Home, node: NodeId)
    requires later.sessions == w.sessions[id := home] && home.node != node && id !in w.sessions
    ensures NodeView(later, node) == NodeView(w, node)
  {
    assert forall x :: x in NodeView(later, node) <==> x in NodeView(w, node);
  }

  lemma AcceptElsewhere(c: Config, w: World, n: NodeId, id: SessionId, user: UserId, node: NodeId)
    requires Enabled(c, w, Accept(n, id, user)) && id !in w.sessions && n != node
    ensures NodeView(Apply(c, w, Accept(n, id, user)), node) == NodeView(w, node)
  {
    var displaced := DisplacedBy(NodeView(w, n), user, c.replace);
    var between := w.(sessions := w.sessions - displaced);
    ViewWithout(w, between, displaced, node);
    ViewBeside(between, Apply(c, w, Accept(n, id, user)), id, Home(n, user), node);
  }

  /** An accept is the manager's accept on its node and nothing on the others. */
  lemma AcceptIsTheManagers(c: Config, w: World, node: NodeId, id: SessionId, user: UserId, other: NodeId)
    requires Enabled(c, w, Accept(node, id, user)) && id !in w.sessions
    ensures NodeView(Apply(c, w, Accept(node, id, user)), node) == Inserted(NodeView(w, node), id, user, c.replace)
    ensures other != node ==> NodeView(Apply(c, w, Accept(node, id, user)), other) == NodeView(w, other)
  {
    var w' := Apply(c, w, Accept(node, id, user));
    assert forall s :: s in NodeView(w', node) <==> s in Inserted(NodeView(w, node), id, user, c.replace);
    if other != node {
      AcceptElsewhere(c, w, node, id, user, other);
    }
  }

  // ---------------------------------------------------------------- invariants of every run

  ghost predicate Grounded(c: Config, w: World) {
    && (forall id :: id in w.sessions ==> id in w.issued && w.issued[id] == w.sessions[id])
    && (forall id :: id in w.issued ==> id in w.active && w.issued[id].node in c.nodes)
    && (forall id :: id in w.active ==> w.active[id] <= Millis(w.now))
    && w.reaped.Keys == c.nodes
    && (forall n :: n in w.reaped ==> w.reaped[n] <= w.now)
  }

  /** Every stored route is the route of a registered session. */
  ghost predicate RoutesRegistered(w: World) {
    forall k :: k in w.table ==>
      k.session in w.sessions && KeyOfSession(w.sessions, k.session) == k &&
      w.table[k].route == RouteOf(w.sessions, k.session)
  }

  /** Under replacement a registered session is the newest its user got on its node, and a session
      that is no longer registered is closed. */
  ghost predicate SingleInv(c: Config, w: World) {
    && (c.replace ==> forall id :: id in w.sessions ==> w.sessions[id] in w.newest && w.newest[w.sessions[id]] == id)
    && (forall id :: id in w.issued ==> id in w.sessions || id in w.closed)
  }

  lemma GroundedKept(c: Config, w: World, e: Event)
    requires Grounded(c, w) && Enabled(c, w, e)
    ensures Grounded(c, Apply(c, w, e))
  {
  }

  lemma AcceptedRoutesRegistered(c: Config, w: World, node: NodeId, id: SessionId, user: UserId)
    requires Grounded(c, w) && RoutesRegistered(w) && Enabled(c, w, Accept(node, id, user))
    ensures RoutesRegistered(Apply(c, w, Accept(node, id, user)))
  {
  }

  lemma RoutesRegisteredKept(c: Config, w: World, e: Event)
    requires Grounded(c, w) && RoutesRegistered(w) && Enabled(c, w, e)
    ensures RoutesRegistered(Apply(c, w, e))
  {
    match e
    case Accept(node, id, user) => AcceptedRoutesRegistered(c, w, node, id, user);
    case _ =>
  }

  lemma SingleInvKept(c: Config, w: World, e: Event)
    requires Grounded(c, w) && SingleInv(c, w) && Enabled(c, w, e)
    ensures SingleInv(c, Apply(c, w, e))
  {
  }

  lemma {:induction false} InvHolds(c: Config, worlds: seq<World>, events: seq<Event>, i: nat)
    requires IsRun(c, worlds, events) && i < |worlds|
    ensures Grounded(c, worlds[i]) && RoutesRegistered(worlds[i]) && SingleInv(c, worlds[i])
  {
    if i > 0 {
      InvHolds(c, worlds, events, i - 1);
      GroundedKept(c, worlds[i - 1], events[i - 1]);
      RoutesRegisteredKept(c, worlds[i - 1], events[i - 1]);
      SingleInvKept(c, worlds[i - 1], events[i - 1]);
    }
  }

  // ---------------------------------------------------------------- nodes do not interfere

  /** Whether the event is an operation of this node's manager on its sessions. */
  predicate Concerns(w: World, e: Event, node: NodeId) {
    match e
    case Accept(n, _, _) => n == node
    case Reap(n) => n == node
    case Unregister(id) => id in w.issued && w.issued[id].node == node
    case Touch(id) => id in w.issued && w.issued[id].node == node
    case Fail(id) => id in w.issued && w.issued[id].node == node
    case Locate(_) => false
    case Tick(_) => false
  }

  /** A stored route of this node. */
  predicate OwnedBy(table: Table, key: Key, node: NodeId) {
    key in table && table[key].route.node == node
  }

  /** `w'` shows the node the same sessions, no new route and every live route of `w`. */
  ghost predicate SameOn(w: World, w': World, node: NodeId) {
    && NodeView(w', node) == NodeView(w, node)
    && (forall id :: id in w.issued && w.issued[id].node == node ==> (id in w'.closed <==> id in w.closed))
    && (forall k :: OwnedBy(w'.table, k, node) ==> k in w.table && w'.table[k] == w.table[k])
    && (forall k :: OwnedBy(w.table, k, node) && IsLive(w.table, k, w.now) ==>
          k in w'.table && w'.table[k] == w.table[k])
  }

  lemma SameRegistry(c: Config, w: World, e: Event, node: NodeId)
    requires Grounded(c, w) && Enabled(c, w, e) && !Concerns(w, e, node)
    ensures NodeView(Apply(c, w, e), node) == NodeView(w, node)
  {
    match e
    case Accept(n, id, user) => AcceptElsewhere(c, w, n, id, user, node);
    case Unregister(id) => ViewWithout(w, Apply(c, w, e), {id}, node);
    case Reap(n) => ViewWithout(w, Apply(c, w, e), Stale(c, w, n), node);
    case _ =>
  }

  lemma SameClosed(c: Config, w: World, e: Event, node: NodeId, id: SessionId)
    requires Grounded(c, w) && Enabled(c, w, e) && !Concerns(w, e, node)
    requires id in w.issued && w.issued[id].node == node
    ensures id in Apply(c, w, e).closed <==> id in w.closed
  {
  }

  lemma SameRouteOnAccept(c: Config, w: World, n: NodeId, id: SessionId, user: UserId, node: NodeId, k: Key)
    requires Grounded(c, w) && RoutesRegistered(w) && Enabled(c, w, Accept(n, id, user)) && n != node
    ensures var table' := Apply(c, w, Accept(n, id, user)).table;
            (OwnedBy(table', k, node) <==> OwnedBy(w.table, k, node)) &&
            (OwnedBy(w.table, k, node) ==> table'[k] == w.table[k])
  {
  }

  lemma SameRoute(c: Config, w: World, e: Event, node: NodeId, k: Key)
    requires Grounded(c, w) && RoutesRegistered(w) && Enabled(c, w, e) && !Concerns(w, e, node)
    ensures var w' := Apply(c, w, e); OwnedBy(w'.table, k, node) ==> k in w.table && w'.table[k] == w.table[k]
    ensures var w' := Apply(c, w, e); OwnedBy(w.table, k, node) && IsLive(w.table, k, w.now) ==>
              k in w'.table && w'.table[k] == w.table[k]
  {
    match e
    case Accept(n, id, user) => SameRouteOnAccept(c, w, n, id, user, node, k);
    case _ =>
  }

  /** Operations of one node leave every other node's registry and closed flags alone, give it no
      route, and take none from it but what a lookup purges, which has lapsed. */
  lemma NodesAreIsolated(c: Config, worlds: seq<World>, events: seq<Event>, i: nat, node: NodeId)
    requires IsRun(c, worlds, events) && i < |events| && !Concerns(worlds[i], events[i], node)
    ensures SameOn(worlds[i], worlds[i + 1], node)
  {
    var w, e := worlds[i], events[i];
    InvHolds(c, worlds, events, i);
    SameRegistry(c, w, e, node);
    forall id | id in w.issued && w.issued[id].node == node
      ensures id in worlds[i + 1].closed <==> id in w.closed
    {
      SameClosed(c, w, e, node, id);
    }
    forall k
      ensures OwnedBy(worlds[i + 1].table, k, node) ==> k in w.table && worlds[i + 1].table[k] == w.table[k]
      ensures OwnedBy(w.table, k, node) && IsLive(w.table, k, w.now) ==>
                k in worlds[i + 1].table && worlds[i + 1].table[k] == w.table[k]
    {
      SameRoute(c, w, e, node, k);
    }
  }

  // ---------------------------------------------------------------- leases

  /** The node has reaped no longer ago than `gap`. */
  predicate Punctual(w: World, node: NodeId, gap: nat) {
    node in w.reaped && w.now <= w.reaped[node] + gap
  }

  /** Every session registered on the node has a stored route that has not lapsed. */
  ghost predicate LeasesHeld(w: World, node: NodeId) {
    forall id :: id in w.sessions && w.sessions[id].node == node ==>
      IsLive(w.table, KeyOfSession(w.sessions, id), w.now)
  }

  /** The session's route outlives its last activity by the whole ttl, and its node's last reap
      by the ttl less the silence a reap forgives. */
  ghost predicate LeasedSession(c: Config, w: World, id: SessionId)
    requires id in w.sessions
  {
    var key, node := KeyOfSession(w.sessions, id), w.sessions[id].node;
    && id in w.active && node in w.reaped && key in w.table
    && w.active[id] * NANOS_PER_MILLI + c.ttl <= w.table[key].expiresAt
    && w.reaped[node] + c.ttl < w.table[key].expiresAt + Silence(c.timeout)
  }

  ghost predicate Leased(c: Config, w: World, node: NodeId) {
    forall id :: id in w.sessions && w.sessions[id].node == node ==> LeasedSession(c, w, id)
  }

  lemma LeasedIsLive(c: Config, w: World, node: NodeId, gap: nat)
    requires Leased(c, w, node) && Punctual(w, node, gap) && gap + Silence(c.timeout) <= c.ttl
    ensures LeasesHeld(w, node)
  {
  }

  lemma ReapKeepsLeased(c: Config, w: World, id: SessionId, reaper: NodeId)
    requires Grounded(c, w) && Enabled(c, w, Reap(reaper))
    requires id in w.sessions && LeasedSession(c, w, id) && id in Apply(c, w, Reap(reaper)).sessions
    ensures LeasedSession(c, Apply(c, w, Reap(reaper)), id)
  {
    assert id !in Stale(c, w, reaper);
    if reaper == w.sessions[id].node {
      ActiveIsRecent(w.active[id], c.timeout, w.now);
    }
  }

  lemma AcceptKeepsLeased(c: Config, w: World, id: SessionId, node: NodeId, new': SessionId, user: UserId)
    requires Grounded(c, w) && Enabled(c, w, Accept(node, new', user))
    requires id in Apply(c, w, Accept(node, new', user)).sessions
    requires id in w.sessions ==> LeasedSession(c, w, id)
    ensures LeasedSession(c, Apply(c, w, Accept(node, new', user)), id)
  {
  }

  lemma OthersKeepLeased(c: Config, w: World, id: SessionId, e: Event)
    requires Grounded(c, w) && RoutesRegistered(w) && Enabled(c, w, e)
    requires !e.Accept? && !e.Reap?
    requires id in w.sessions && LeasedSession(c, w, id) && id in Apply(c, w, e).sessions
    requires IsLive(w.table, KeyOfSession(w.sessions, id), w.now)
    ensures LeasedSession(c, Apply(c, w, e), id)
  {
  }

  lemma LeasedKept(c: Config, w: World, e: Event, node: NodeId)
    requires Grounded(c, w) && RoutesRegistered(w) && Leased(c, w, node) && LeasesHeld(w, node)
    requires Enabled(c, w, e)
    ensures Leased(c, Apply(c, w, e), node)
  {
    var w' := Apply(c, w, e);
    forall id | id in w'.sessions && w'.sessions[id].node == node
      ensures LeasedSession(c, w', id)
    {
      match e
      case Reap(reaper) => ReapKeepsLeased(c, w, id, reaper);
      case Accept(at, new', user) => AcceptKeepsLeased(c, w, id, at, new', user);
      case _ => OthersKeepLeased(c, w, id, e);
    }
  }

  lemma {:induction false} LeasedHolds(c: Config, worlds: seq<World>, events: seq<Event>, i: nat, node: NodeId, gap: nat)
    requires IsRun(c, worlds, events) && i < |worlds| && gap + Silence(c.timeout) <= c.ttl
    requires forall k :: 0 <= k < i ==> Punctual(worlds[k], node, gap)
    ensures Leased(c, worlds[i], node)
  {
    if i > 0 {
      LeasedHolds(c, worlds, events, i - 1, node, gap);
      LeasedIsLive(c, worlds[i - 1], node, gap);
      InvHolds(c, worlds, events, i - 1);
      LeasedKept(c, worlds[i - 1], events[i - 1], node);
    }
  }

  /** A node that reaps at least once in every window of `gap` keeps a live route for each of its
      sessions at every point of the run, when `gap` and the forgiven silence fit in the ttl. */
  lemma PunctualNodesKeepLeases(c: Config, worlds: seq<World>, events: seq<Event>, i: nat, node: NodeId, gap: nat)
    requires IsRun(c, worlds, events) && i < |worlds| && gap + Silence(c.timeout) <= c.ttl
    requires forall k :: 0 <= k <= i ==> Punctual(worlds[k], node, gap)
    ensures LeasesHeld(worlds[i], node)
  {
    LeasedHolds(c, worlds, events, i, node, gap);
    LeasedIsLive(c, worlds[i], node, gap);
  }

  // ---------------------------------------------------------------- the lease bound is exact

  ghost predicate PunctualRun(c: Config, node: NodeId, gap: nat, worlds: seq<World>, events: seq<Event>) {
    IsRun(c, worlds, events) && forall i :: 0 <= i < |worlds| ==> Punctual(worlds[i], node, gap)
  }

  ghost predicate Reached(c: Config, node: NodeId, gap: nat, w: World) {
    exists worlds, events :: PunctualRun(c, node, gap, worlds, events) && worlds[|worlds| - 1] == w
  }

  lemma ReachStep(c: Config, node: NodeId, gap: nat, w: World, e: Event)
    requires Reached(c, node, gap, w) && Enabled(c, w, e) && Punctual(Apply(c, w, e), node, gap)
    ensures Reached(c, node, gap, Apply(c, w, e))
  {
    var worlds, events :| PunctualRun(c, node, gap, worlds, events) && worlds[|worlds| - 1] == w;
    var longer := worlds + [Apply(c, w, e)];
    assert PunctualRun(c, node, gap, longer, events + [e]);
    assert longer[|longer| - 1] == Apply(c, w, e);
  }

  /** One session accepted at the start and silent since; its node reaped just now. */
  function Silent(c: Config, node: NodeId, id: SessionId, user: UserId, now: nat): World {
    var home := Home(node, user);
    World(map[id := home], map[id := home], map[id := 0], {}, map[home := id],
          map[Key(user, id) := Lease(Route(user, id, node), c.ttl)], now, Start(c).reaped[node := now])
  }

  lemma SilentStart(c: Config, node: NodeId, id: SessionId, user: UserId)
    requires node in c.nodes
    ensures Enabled(c, Start(c), Accept(node, id, user))
    ensures Apply(c, Start(c), Accept(node, id, user)) == Silent(c, node, id, user, 0)
  {
    var w := Start(c);
    assert NodeView(w, node) == map[];
    assert DisplacedBy(NodeView(w, node), user, c.replace) == {};
    assert w.reaped[node := 0] == w.reaped;
    assert Manager.KeysOf(NodeView(w, node), {}) == {};
  }

  lemma BriefSilence(timeout: nat, now: nat)
    requires 0 < now < Silence(timeout)
    ensures !IsInactive(0, timeout, now)
  {
  }

  lemma NothingStale(c: Config, w: World, node: NodeId)
    requires Enabled(c, w, Reap(node)) && Stale(c, w, node) == {}
    ensures Apply(c, w, Reap(node)) == w.(reaped := w.reaped[node := w.now])
  {
    assert KeysOfSessions(w.sessions, {}) == {};
    assert w.sessions - {} == w.sessions && w.closed + {} == w.closed && w.table - {} == w.table;
  }

  /** A reap before the timeout has passed leaves the silent session alone. */
  lemma SilentSurvives(c: Config, node: NodeId, id: SessionId, user: UserId, now: nat)
    requires node in c.nodes && now + 1 < Silence(c.timeout)
    ensures Apply(c, Silent(c, node, id, user, now).(now := now + 1), Reap(node)) == Silent(c, node, id, user, now + 1)
  {
    var w := Silent(c, node, id, user, now).(now := now + 1);
    BriefSilence(c.timeout, now + 1);
    assert Stale(c, w, node) == {};
    NothingStale(c, w, node);
    assert Start(c).reaped[node := now][node := now + 1] == Start(c).reaped[node := now + 1];
  }

  lemma {:induction false} ReachSilent(c: Config, node: NodeId, gap: nat, id: SessionId, user: UserId, now: nat)
    requires node in c.nodes && gap >= 1 && now < Silence(c.timeout)
    ensures Reached(c, node, gap, Silent(c, node, id, user, now))
  {
    if now == 0 {
      assert PunctualRun(c, node, gap, [Start(c)], []);
      assert [Start(c)][|[Start(c)]| - 1] == Start(c);
      SilentStart(c, node, id, user);
      ReachStep(c, node, gap, Start(c), Accept(node, id, user));
    } else {
      ReachSilent(c, node, gap, id, user, now - 1);
      var w := Silent(c, node, id, user, now - 1);
      ReachStep(c, node, gap, w, Tick(1));
      SilentSurvives(c, node, id, user, now - 1);
      ReachStep(c, node, gap, w.(now := now), Reap(node));
    }
  }

  /** A gap one nanosecond too long lets a registered session lose its route. */
  lemma LateReapLosesALease(c: Config, node: NodeId, gap: nat) returns (w: World)
    requires node in c.nodes && gap >= 1 && gap + Silence(c.timeout) > c.ttl
    ensures Reached(c, node, gap, w) && !LeasesHeld(w, node)
  {
    var id, user := SessionId(""), UserId("");
    var last := Silence(c.timeout) - 1;
    ReachSilent(c, node, gap, id, user, last);
    ReachStep(c, node, gap, Silent(c, node, id, user, last), Tick(gap));
    w := Silent(c, node, id, user, last).(now := last + gap);
    assert id in w.sessions && !IsLive(w.table, Key(user, id), w.now);
  }

  ghost predicate KeepsEveryLease(c: Config, node: NodeId, gap: nat) {
    forall w :: Reached(c, node, gap, w) ==> LeasesHeld(w, node)
  }

  /** Reaping at least every `gap` nanoseconds keeps every lease in every run exactly when
      the gap and the forgiven silence fit in the ttl. The silence is the timeout itself when that
      is a whole number of milliseconds. */
  lemma LeaseBoundIsExact(c: Config, node: NodeId, gap: nat)
    requires node in c.nodes && gap >= 1
    ensures KeepsEveryLease(c, node, gap) <==> gap + Silence(c.timeout) <= c.ttl
    ensures c.timeout / 1_000_000 <= 0x7fff_ffff_ffff_ffff ==>
              (KeepsEveryLease(c, node, gap) <==>
               gap + (if c.timeout < 1_000_000 then 1 else c.timeout - c.timeout % 1_000_000) <= c.ttl)
    ensures c.timeout / 1_000_000 <= 0x7fff_ffff_ffff_ffff && c.timeout > 0 && c.timeout % 1_000_000 == 0 ==>
              (KeepsEveryLease(c, node, gap) <==> gap + c.timeout <= c.ttl)
  {
    if c.timeout / 1_000_000 <= 0x7fff_ffff_ffff_ffff {
      SilenceMeaning(c.timeout);
    }
    if gap + Silence(c.timeout) <= c.ttl {
      forall w | Reached(c, node, gap, w)
        ensures LeasesHeld(w, node)
      {
        var worlds, events :| PunctualRun(c, node, gap, worlds, events) && worlds[|worlds| - 1] == w;
        PunctualNodesKeepLeases(c, worlds, events, |worlds| - 1, node, gap);
      }
    } else {
      var w := LateReapLosesALease(c, node, gap);
    }
  }

  // ---------------------------------------------------------------- exactly which sessions are reaped

  /** Whether the event counts as activity of the session. */
  predicate Marks(e: Event, id: SessionId) {
    match e
    case Accept(_, x, _) => x == id
    case Touch(x) => x == id
    case _ => false
  }

  /** An accept, a touch and a heartbeat store the same activity reading in the session. */
  lemma MarksAreTheSessions(c: Config, w: World, e: Event, st: SessionState, client: Option<int>, id: SessionId)
    requires Enabled(c, w, e) && Marks(e, id)
    ensures Active(st, w.now).lastActive == Apply(c, w, e).active[id]
    ensures HeartBeaten(st, client, w.now).lastActive == Apply(c, w, e).active[id]
  {
  }

  lemma {:induction false} ClockNeverFalls(c: Config, worlds: seq<World>, events: seq<Event>, k: nat, i: nat)
    requires IsRun(c, worlds, events) && k <= i < |worlds|
    ensures worlds[k].now <= worlds[i].now
  {
    if k < i {
      ClockNeverFalls(c, worlds, events, k, i - 1);
    }
  }

  /** The recorded activity is that of some event, the last one that counts. */
  lemma {:induction false} LastMark(c: Config, worlds: seq<World>, events: seq<Event>, i: nat, id: SessionId) returns (k: nat)
    requires IsRun(c, worlds, events) && i < |worlds| && id in worlds[i].active
    ensures k < i && Marks(events[k], id) && worlds[i].active[id] == Millis(worlds[k].now)
    ensures forall j :: 0 <= j < i && Marks(events[j], id) ==> worlds[j].now <= worlds[k].now
  {
    if Marks(events[i - 1], id) {
      k := i - 1;
      forall j | 0 <= j < i && Marks(events[j], id)
        ensures worlds[j].now <= worlds[k].now
      {
        ClockNeverFalls(c, worlds, events, j, k);
      }
    } else {
      k := LastMark(c, worlds, events, i - 1, id);
    }
  }

  /** A reap takes out a registered session of its node exactly when, for every accept, touch and
      heartbeat of it so far, more than the timeout has passed since, a started millisecond
      counted whole. So a session active within every timeout is never reaped. */
  lemma ReapsExactlySilent(c: Config, worlds: seq<World>, events: seq<Event>, i: nat, node: NodeId, id: SessionId)
    requires IsRun(c, worlds, events) && i < |events| && events[i] == Reap(node)
    requires id in worlds[i].sessions && c.timeout / 1_000_000 <= 0x7fff_ffff_ffff_ffff
    ensures id !in worlds[i + 1].sessions <==>
            && worlds[i].sessions[id].node == node
            && forall k :: 0 <= k < i && Marks(events[k], id) ==>
                 (worlds[i].now / 1_000_000 - worlds[k].now / 1_000_000 + 1) * 1_000_000 > c.timeout
    ensures id !in worlds[i + 1].sessions ==>
              id in worlds[i + 1].closed && KeyOfSession(worlds[i].sessions, id) !in worlds[i + 1].table
  {
    InvHolds(c, worlds, events, i);
    var w := worlds[i];
    var last := LastMark(c, worlds, events, i, id);
    InactiveMeaning(w.active[id], c.timeout, w.now);
    forall k | 0 <= k < i && Marks(events[k], id)
      ensures worlds[k].now / 1_000_000 <= w.active[id]
    {
      assert worlds[k].now <= worlds[last].now;
    }
  }

  // ---------------------------------------------------------------- presence agrees with the registries

  /** The sessions of a user registered on any node. */
  function SessionsOf(w: World, user: UserId): set<SessionId> {
    set id | id in w.sessions && w.sessions[id].user == user
  }

  /** On every run a stored route names a registered session of its user and its owning node. */
  lemma NoStrayRoutes(c: Config, worlds: seq<World>, events: seq<Event>, i: nat, key: Key)
    requires IsRun(c, worlds, events) && i < |worlds| && key in worlds[i].table
    ensures key.session in SessionsOf(worlds[i], key.user)
    ensures worlds[i].table[key].route == RouteOf(worlds[i].sessions, key.session)
  {
    InvHolds(c, worlds, events, i);
  }

  /** While every node is punctual, a lookup finds exactly one route per session of the user
      registered anywhere, each with its owning node. */
  lemma PresenceAgrees(c: Config, worlds: seq<World>, events: seq<Event>, i: nat, gap: nat, user: UserId)
    requires IsRun(c, worlds, events) && i < |worlds| && gap + Silence(c.timeout) <= c.ttl
    requires forall n, k :: n in c.nodes && 0 <= k <= i ==> Punctual(worlds[k], n, gap)
    ensures LiveRoutes(worlds[i].table, user, worlds[i].now) ==
            set id | id in SessionsOf(worlds[i], user) :: RouteOf(worlds[i].sessions, id)
    ensures |LiveKeys(worlds[i].table, user, worlds[i].now)| == |SessionsOf(worlds[i], user)|
  {
    var w := worlds[i];
    InvHolds(c, worlds, events, i);
    forall id | id in SessionsOf(w, user)
      ensures IsLive(w.table, Key(user, id), w.now)
    {
      PunctualNodesKeepLeases(c, worlds, events, i, w.sessions[id].node, gap);
    }
    LiveAreRegistered(w, user);
  }

  lemma LiveAreRegistered(w: World, user: UserId)
    requires RoutesRegistered(w)
    requires forall id :: id in SessionsOf(w, user) ==> IsLive(w.table, Key(user, id), w.now)
    ensures LiveRoutes(w.table, user, w.now) == set id | id in SessionsOf(w, user) :: RouteOf(w.sessions, id)
    ensures |LiveKeys(w.table, user, w.now)| == |SessionsOf(w, user)|
  {
    var live, ids := LiveKeys(w.table, user, w.now), SessionsOf(w, user);
    forall k
      ensures k in live <==> k.user == user && k.session in ids
    {
      assert k in w.table ==> KeyOfSession(w.sessions, k.session) == k;
      assert k.user == user ==> Key(user, k.session) == k;
    }
    KeysInOneBucket(user, ids, live);
    forall id | id in ids
      ensures RouteOf(w.sessions, id) in LiveRoutes(w.table, user, w.now)
    {
      assert Key(user, id) in live;
    }
  }

  // ---------------------------------------------------------------- the single-session policy

  /** Under replacement each user has at most one registered session per node, its newest there;
      under either policy a session that was accepted and is not registered is closed. */
  lemma OneSessionPerUser(c: Config, worlds: seq<World>, events: seq<Event>, i: nat)
    requires IsRun(c, worlds, events) && i < |worlds|
    ensures c.replace ==> forall id :: id in worlds[i].sessions ==>
              worlds[i].sessions[id] in worlds[i].newest && worlds[i].newest[worlds[i].sessions[id]] == id
    ensures c.replace ==> forall a, b | a in worlds[i].sessions && b in worlds[i].sessions ::
              worlds[i].sessions[a] == worlds[i].sessions[b] ==> a == b
    ensures forall id :: id in worlds[i].issued && id !in worlds[i].sessions ==> id in worlds[i].closed
  {
    InvHolds(c, worlds, events, i);
  }

  /** The nodes that host a session of the user. */
  function Hosts(w: World, user: UserId): set<NodeId> {
    set id | id in SessionsOf(w, user) :: w.sessions[id].node
  }

  lemma {:induction false} OnePerHost(w: World, ids: set<SessionId>, hosts: set<NodeId>)
    requires ids <= w.sessions.Keys && hosts == set id | id in ids :: w.sessions[id].node
    requires forall a, b :: a in ids && b in ids && w.sessions[a].node == w.sessions[b].node ==> a == b
    ensures |ids| == |hosts|
    decreases |ids|
  {
    if ids != {} {
      var id :| id in ids;
      OnePerHost(w, ids - {id}, hosts - {w.sessions[id].node});
    }
  }

  /** Under replacement a user has exactly one session per node that hosts it, so a single one in
      the cluster exactly when one node hosts it. */
  lemma SessionsAreHosts(c: Config, worlds: seq<World>, events: seq<Event>, i: nat, user: UserId)
    requires IsRun(c, worlds, events) && i < |worlds| && c.replace
    ensures |SessionsOf(worlds[i], user)| == |Hosts(worlds[i], user)|
  {
    OneSessionPerUser(c, worlds, events, i);
    OnePerHost(worlds[i], SessionsOf(worlds[i], user), Hosts(worlds[i], user));
  }

  /** Under either policy a user can have an open session on each of two nodes. */
  lemma TwoNodesKeepOneEach(c: Config, m: NodeId, n: NodeId, a: SessionId, b: SessionId, user: UserId)
      returns (worlds: seq<World>, events: seq<Event>)
    requires m in c.nodes && n in c.nodes && m != n && a != b
    ensures IsRun(c, worlds, events)
    ensures worlds[|events|].sessions == map[a := Home(m, user), b := Home(n, user)]
    ensures worlds[|events|].closed == {}
  {
    var first := Apply(c, Start(c), Accept(m, a, user));
    SilentStart(c, m, a, user);
    assert NodeView(first, n) == map[];
    assert DisplacedBy(NodeView(first, n), user, c.replace) == {};
    worlds := [Start(c), first, Apply(c, first, Accept(n, b, user))];
    events := [Accept(m, a, user), Accept(n, b, user)];
  }

  /** Unregistering a session that is no longer registered changes nothing at all. */
  lemma LateUnregisterIsIdle(c: Config, worlds: seq<World>, events: seq<Event>, i: nat, id: SessionId)
    requires IsRun(c, worlds, events) && i < |worlds|
    requires id in worlds[i].issued && id !in worlds[i].sessions
    ensures Apply(c, worlds[i], Unregister(id)) == worlds[i]
  {
    var w := worlds[i];
    InvHolds(c, worlds, events, i);
    assert KeyOfSession(w.issued, id) !in w.table;
    assert w.sessions - {id} == w.sessions && w.closed + {id} == w.closed;
    assert Removed(w.table, KeyOfSession(w.issued, id)) == w.table;
  }
}
