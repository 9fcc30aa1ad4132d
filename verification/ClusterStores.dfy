/** The presence calls behind a cluster run. They make the memory store's table, and on punctual
    runs a Redis store that serves the same calls answers every lookup just as well. */
module ClusterStores {
  import opened Identity
  import opened Protocol
  import opened Clock
  import opened Presence
  import opened PresenceHistory
  import opened RedisPresence
  import Registries
  import Manager
  import opened ClusterRuns

  /** The sessions whose routes the event removes. */
  function RemovedBy(c: Config, w: World, e: ClusterRuns.Event): set<SessionId> {
    match e
    case Accept(node, _, user) => Registries.DisplacedBy(NodeView(w, node), user, c.replace)
    case Unregister(id) => {id}
    case Reap(node) => Stale(c, w, node)
    case Touch(_) => {}
    case Locate(_) => {}
    case Fail(_) => {}
    case Tick(_) => {}
  }

  function Removes(homes: map<SessionId, Home>, order: seq<SessionId>, now: nat): seq<Call>
    requires forall s :: s in order ==> s in homes
  {
    seq(|order|, i requires 0 <= i < |order| => Remove(KeyOfSession(homes, order[i]), now))
  }

  function IdsOf(order: seq<SessionId>): set<SessionId> {
    set s | s in order
  }

  /** The presence call of an event other than its removals, if it makes one. */
  function LastCalls(c: Config, w: World, e: ClusterRuns.Event): seq<Call>
    requires ClusterRuns.Enabled(c, w, e)
  {
    match e
    case Accept(node, id, user) => [Call.Register(Route(user, id, node), c.ttl, w.now)]
    case Touch(id) => [Call.Touch(KeyOfSession(w.issued, id), c.ttl, w.now)]
    case Locate(user) => [Call.Locate(user, w.now)]
    case _ => []
  }

  /** The presence calls of one event, its removals in the given order. */
  function CallsOf(c: Config, w: World, e: ClusterRuns.Event, order: seq<SessionId>): seq<Call>
    requires ClusterRuns.Enabled(c, w, e)
    requires forall s :: s in order ==> s in w.issued
  {
    Removes(w.issued, order, w.now) + LastCalls(c, w, e)
  }

  lemma RemovedAreIssued(c: Config, w: World, e: ClusterRuns.Event)
    requires Grounded(c, w) && ClusterRuns.Enabled(c, w, e)
    ensures forall s :: s in RemovedBy(c, w, e) ==> s in w.issued
  {
  }

  // ---------------------------------------------------------------- the memory store

  lemma {:induction false} RemovesStored(table: Table, homes: map<SessionId, Home>, order: seq<SessionId>, now: nat,
                                         rest: seq<Call>)
    requires forall s :: s in order ==> s in homes
    ensures StoredAfter(table, Removes(homes, order, now) + rest) ==
            StoredAfter(table - KeysOfSessions(homes, IdsOf(order)), rest)
    decreases |order|
  {
    if order == [] {
      assert Removes(homes, order, now) + rest == rest;
      assert KeysOfSessions(homes, IdsOf(order)) == {} && table - {} == table;
    } else {
      var key, others := KeyOfSession(homes, order[0]), order[1..];
      assert forall s :: s in others ==> s in order;
      RemovesSplit(homes, order, now);
      assert (Removes(homes, order, now) + rest)[1..] == Removes(homes, others, now) + rest;
      RemovesStored(Removed(table, key), homes, others, now, rest);
      RemovedSplit(table, homes, order);
    }
  }

  lemma RemovesSplit(homes: map<SessionId, Home>, order: seq<SessionId>, now: nat)
    requires order != [] && forall s :: s in order ==> s in homes
    ensures forall s :: s in order[1..] ==> s in homes
    ensures Removes(homes, order, now)[0] == Remove(KeyOfSession(homes, order[0]), now)
    ensures Removes(homes, order, now)[1..] == Removes(homes, order[1..], now)
  {
  }

  lemma KeysSplit(homes: map<SessionId, Home>, order: seq<SessionId>)
    requires order != [] && forall s :: s in order ==> s in homes
    ensures IdsOf(order[1..]) <= homes.Keys
    ensures KeysOfSessions(homes, IdsOf(order)) == {KeyOfSession(homes, order[0])} + KeysOfSessions(homes, IdsOf(order[1..]))
  {
    assert IdsOf(order) == {order[0]} + IdsOf(order[1..]);
  }

  lemma RemovedSplit(table: Table, homes: map<SessionId, Home>, order: seq<SessionId>)
    requires order != [] && forall s :: s in order ==> s in homes
    ensures IdsOf(order[1..]) <= homes.Keys
    ensures Removed(table, KeyOfSession(homes, order[0])) - KeysOfSessions(homes, IdsOf(order[1..])) ==
            table - KeysOfSessions(homes, IdsOf(order))
  {
    KeysSplit(homes, order);
  }

  /** The keys of the displaced are the keys of those sessions. */
  lemma DisplacedAreRemoved(c: Config, w: World, node: NodeId, user: UserId)
    requires Grounded(c, w)
    ensures var displaced := Registries.DisplacedBy(NodeView(w, node), user, c.replace);
            displaced <= w.issued.Keys && displaced <= NodeView(w, node).Keys &&
            Manager.KeysOf(NodeView(w, node), displaced) == KeysOfSessions(w.issued, displaced)
  {
    var displaced := Registries.DisplacedBy(NodeView(w, node), user, c.replace);
    assert forall id :: id in displaced ==> Key(NodeView(w, node)[id], id) == KeyOfSession(w.issued, id);
  }

  lemma StaleAreRemoved(c: Config, w: World, node: NodeId)
    requires Grounded(c, w)
    ensures Stale(c, w, node) <= w.issued.Keys && Stale(c, w, node) <= w.sessions.Keys
    ensures KeysOfSessions(w.sessions, Stale(c, w, node)) == KeysOfSessions(w.issued, Stale(c, w, node))
  {
    assert forall id :: id in Stale(c, w, node) ==> KeyOfSession(w.sessions, id) == KeyOfSession(w.issued, id);
  }

  lemma AppliedTable(c: Config, w: World, e: ClusterRuns.Event)
    requires Grounded(c, w) && ClusterRuns.Enabled(c, w, e)
    ensures RemovedBy(c, w, e) <= w.issued.Keys
    ensures ClusterRuns.Apply(c, w, e).table ==
            StoredAfter(w.table - KeysOfSessions(w.issued, RemovedBy(c, w, e)), LastCalls(c, w, e))
  {
    RemovedAreIssued(c, w, e);
    LastCall(w.table - KeysOfSessions(w.issued, RemovedBy(c, w, e)), LastCalls(c, w, e));
    match e
    case Accept(node, _, user) => DisplacedAreRemoved(c, w, node, user);
    case Reap(node) => StaleAreRemoved(c, w, node);
    case Unregister(id) =>
      assert KeysOfSessions(w.issued, {id}) == {KeyOfSession(w.issued, id)};
    case _ =>
      assert w.table - {} == w.table;
  }

  /** The table of a cluster run changes by exactly the memory store's calls. */
  lemma TableIsTheStores(c: Config, w: World, e: ClusterRuns.Event, order: seq<SessionId>)
    requires Grounded(c, w) && ClusterRuns.Enabled(c, w, e) && IdsOf(order) == RemovedBy(c, w, e)
    ensures forall s :: s in order ==> s in w.issued
    ensures ClusterRuns.Apply(c, w, e).table == StoredAfter(w.table, CallsOf(c, w, e, order))
  {
    AppliedTable(c, w, e);
    assert forall s :: s in order ==> s in IdsOf(order);
    RemovesStored(w.table, w.issued, order, w.now, LastCalls(c, w, e));
  }

  lemma LastCall(table: Table, calls: seq<Call>)
    requires |calls| <= 1
    ensures StoredAfter(table, calls) == if calls == [] then table else Stored(table, calls[0])
  {
  }

  // ---------------------------------------------------------------- the Redis store

  /** Every stored route is live. */
  ghost predicate AllLive(w: World) {
    forall k :: k in w.table ==> IsLive(w.table, k, w.now)
  }

  lemma {:induction false} ServedSplit(keys: Keyspace, front: seq<Call>, back: seq<Call>)
    ensures ServedAfter(keys, front + back) == ServedAfter(ServedAfter(keys, front), back)
    decreases |front|
  {
    if front == [] {
      assert front + back == back;
    } else {
      assert (front + back)[1..] == front[1..] + back;
      ServedSplit(Served(keys, front[0]), front[1..], back);
    }
  }

  /** Serving removals keeps the correspondence with the table they make. */
  lemma {:induction false} RemovesServed(table: Table, keys: Keyspace, homes: map<SessionId, Home>, order: seq<SessionId>,
                                         ttl: nat, now: nat)
    requires (forall s :: s in order ==> s in homes) && Simulates(table, keys, ttl, now)
    ensures IdsOf(order) <= homes.Keys
    ensures Simulates(table - KeysOfSessions(homes, IdsOf(order)), ServedAfter(keys, Removes(homes, order, now)), ttl, now)
    decreases |order|
  {
    if order == [] {
      assert KeysOfSessions(homes, IdsOf(order)) == {} && table - {} == table;
    } else {
      RemovesSplit(homes, order, now);
      RemovedSplit(table, homes, order);
      OneRemoveServed(table, keys, KeyOfSession(homes, order[0]), ttl, now);
      RemovesServed(Removed(table, KeyOfSession(homes, order[0])), Served(keys, Remove(KeyOfSession(homes, order[0]), now)),
                    homes, order[1..], ttl, now);
    }
  }

  lemma OneRemoveServed(table: Table, keys: Keyspace, key: Key, ttl: nat, now: nat)
    requires Simulates(table, keys, ttl, now)
    ensures Simulates(Removed(table, key), Served(keys, Remove(key, now)), ttl, now)
  {
    ServedRemove(table, keys, ttl, now, key, now);
  }

  /** What the last call of an event does to both stores, when nothing stored has lapsed. */
  lemma LastServed(table: Table, keys: Keyspace, ttl: nat, now: nat, rest: seq<Call>)
    requires Simulates(table, keys, ttl, now) && Covering(ttl) && |rest| <= 1
    requires rest != [] ==> rest[0].at == now
    requires rest != [] && (rest[0].Register? || rest[0].Touch?) ==> rest[0].ttl == ttl
    requires forall k :: k in table ==> IsLive(table, k, now)
    ensures Simulates(StoredAfter(table, rest), ServedAfter(keys, rest), ttl, now)
  {
    LastCall(table, rest);
    if rest != [] {
      ServedStep(table, keys, ttl, now, rest[0]);
      assert rest[1..] == [];
      if rest[0].Locate? {
        assert Purged(table, rest[0].user, now) == table;
      }
    }
  }

  lemma EventServed(c: Config, w: World, e: ClusterRuns.Event, order: seq<SessionId>, keys: Keyspace)
    requires Grounded(c, w) && AllLive(w) && ClusterRuns.Enabled(c, w, e) && IdsOf(order) == RemovedBy(c, w, e)
    requires (forall s :: s in order ==> s in w.issued) && Covering(c.ttl)
    requires Simulates(w.table, keys, c.ttl, w.now)
    ensures Simulates(ClusterRuns.Apply(c, w, e).table, ServedAfter(keys, CallsOf(c, w, e, order)), c.ttl,
                      ClusterRuns.Apply(c, w, e).now)
  {
    var removes, rest := Removes(w.issued, order, w.now), LastCalls(c, w, e);
    var table, between := w.table - KeysOfSessions(w.issued, IdsOf(order)), ServedAfter(keys, removes);
    AppliedTable(c, w, e);
    RemovesServed(w.table, keys, w.issued, order, c.ttl, w.now);
    ServedSplit(keys, removes, rest);
    LastServed(table, between, c.ttl, w.now, rest);
    ServedLater(ClusterRuns.Apply(c, w, e).table, ServedAfter(keys, CallsOf(c, w, e, order)), c.ttl, w.now,
                ClusterRuns.Apply(c, w, e).now);
  }

  /** A Redis store serves the presence calls of the run, each event's removals in some order. */
  ghost predicate ServesRun(c: Config, worlds: seq<World>, events: seq<ClusterRuns.Event>, orders: seq<seq<SessionId>>,
                            keys: seq<Keyspace>)
    requires ClusterRuns.IsRun(c, worlds, events)
  {
    && |keys| == |worlds| && |orders| == |events| && keys[0] == map[]
    && forall k :: 0 <= k < |events| ==>
         && IdsOf(orders[k]) == RemovedBy(c, worlds[k], events[k])
         && (forall s :: s in orders[k] ==> s in worlds[k].issued)
         && keys[k + 1] == ServedAfter(keys[k], CallsOf(c, worlds[k], events[k], orders[k]))
  }

  /** Every node has reaped within `gap` at every point up to `i`. */
  ghost predicate AllPunctual(c: Config, worlds: seq<World>, i: nat, gap: nat)
    requires i < |worlds|
  {
    forall n, k :: n in c.nodes && 0 <= k <= i ==> Punctual(worlds[k], n, gap)
  }

  lemma PunctualAllLive(c: Config, worlds: seq<World>, events: seq<ClusterRuns.Event>, i: nat, gap: nat)
    requires ClusterRuns.IsRun(c, worlds, events) && i < |worlds| && gap + Silence(c.timeout) <= c.ttl
    requires AllPunctual(c, worlds, i, gap)
    ensures AllLive(worlds[i])
  {
    var w := worlds[i];
    ClusterRuns.InvHolds(c, worlds, events, i);
    forall k | k in w.table
      ensures IsLive(w.table, k, w.now)
    {
      var node := w.sessions[k.session].node;
      PunctualNodesKeepLeases(c, worlds, events, i, node, gap);
      assert KeyOfSession(w.sessions, k.session) == k;
    }
  }

  lemma {:induction false} RunServed(c: Config, worlds: seq<World>, events: seq<ClusterRuns.Event>,
                                     orders: seq<seq<SessionId>>, keys: seq<Keyspace>, i: nat, gap: nat)
    requires ClusterRuns.IsRun(c, worlds, events) && ServesRun(c, worlds, events, orders, keys) && i < |worlds|
    requires AllPunctual(c, worlds, i, gap) && gap + Silence(c.timeout) <= c.ttl && Covering(c.ttl)
    ensures Simulates(worlds[i].table, keys[i], c.ttl, worlds[i].now)
  {
    if i > 0 {
      RunServed(c, worlds, events, orders, keys, i - 1, gap);
      PunctualAllLive(c, worlds, events, i - 1, gap);
      ClusterRuns.InvHolds(c, worlds, events, i - 1);
      EventServed(c, worlds[i - 1], events[i - 1], orders[i - 1], keys[i - 1]);
    }
  }

  /** On runs with punctual nodes a Redis lookup finds exactly the routes of the user's sessions
      registered on any node, as the memory store does, despite its single expiry per user. */
  lemma RedisAgrees(c: Config, worlds: seq<World>, events: seq<ClusterRuns.Event>, orders: seq<seq<SessionId>>,
                    keys: seq<Keyspace>, i: nat, gap: nat, user: UserId)
    requires ClusterRuns.IsRun(c, worlds, events) && ServesRun(c, worlds, events, orders, keys) && i < |worlds|
    requires AllPunctual(c, worlds, i, gap) && gap + Silence(c.timeout) <= c.ttl <= LONGEST_TTL
    ensures Located(keys[i], user, worlds[i].now) ==
            set id | id in SessionsOf(worlds[i], user) :: Route(user, id, worlds[i].sessions[id].node)
    ensures Located(keys[i], user, worlds[i].now) == LiveRoutes(worlds[i].table, user, worlds[i].now)
  {
    var w := worlds[i];
    TtlSecondsCoverExactly(c.ttl);
    RunServed(c, worlds, events, orders, keys, i, gap);
    LocatedBetween(w.table, keys[i], c.ttl, w.now, user, w.now);
    PresenceAgrees(c, worlds, events, i, gap, user);
    ClusterRuns.InvHolds(c, worlds, events, i);
    forall r | r in KnownRoutes(w.table, user)
      ensures r in LiveRoutes(w.table, user, w.now)
    {
      var k :| k in w.table && k.user == user && w.table[k].route == r;
      assert k.session in SessionsOf(w, user) && r == RouteOf(w.sessions, k.session);
    }
    assert forall id :: id in SessionsOf(w, user) ==> RouteOf(w.sessions, id) == Route(user, id, w.sessions[id].node);
  }
}
