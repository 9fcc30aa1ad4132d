/** The in-memory presence store: a nested map of routes with expiry instants, purged lazily.
    It refines one flat timed table. The adapter crate's memory store is the same code. */
module Presence {
  import opened Identity
  import opened Protocol

  datatype Key = Key(user: UserId, session: SessionId)

  datatype Lease = Lease(route: Route, expiresAt: nat)

  /** The flat timed table. */
  type Table = map<Key, Lease>

  function KeyOf(route: Route): Key {
    Key(route.user, route.session)
  }

  function Registered(table: Table, route: Route, expiresAt: nat): Table {
    table[KeyOf(route) := Lease(route, expiresAt)]
  }

  function Removed(table: Table, key: Key): Table {
    table - {key}
  }

  /** Extends an existing entry only; it never creates one. */
  function Touched(table: Table, key: Key, expiresAt: nat): Table {
    if key in table then table[key := table[key].(expiresAt := expiresAt)] else table
  }

  predicate IsLive(table: Table, key: Key, now: nat) {
    key in table && now < table[key].expiresAt
  }

  /** The table a lookup of one user leaves: that user's lapsed entries are gone. */
  function Purged(table: Table, user: UserId, now: nat): Table {
    map k | k in table && (k.user == user ==> now < table[k].expiresAt) :: table[k]
  }

  function LiveKeys(table: Table, user: UserId, now: nat): set<Key> {
    set k | k in table && k.user == user && now < table[k].expiresAt
  }

  function LiveRoutes(table: Table, user: UserId, now: nat): set<Route> {
    set k | k in LiveKeys(table, user, now) :: table[k].route
  }

  /** Every entry is filed under its own route's user and session. */
  ghost predicate Filed(table: Table) {
    forall k :: k in table ==> KeyOf(table[k].route) == k
  }

  // ---------------------------------------------------------------- the nested map

  type Buckets = map<UserId, map<SessionId, Lease>>

  function Entries(routes: Buckets, user: UserId): map<SessionId, Lease> {
    if user in routes then routes[user] else map[]
  }

  function Retained(entries: map<SessionId, Lease>, now: nat): map<SessionId, Lease> {
    map s | s in entries && now < entries[s].expiresAt :: entries[s]
  }

  /** The nested map holds exactly the entries of the flat table, and no empty bucket. */
  ghost predicate Represents(routes: Buckets, table: Table) {
    && (forall u :: u in routes ==> routes[u] != map[])
    && (forall k :: k in table <==> k.session in Entries(routes, k.user))
    && (forall k :: k in table ==> table[k] == Entries(routes, k.user)[k.session])
  }

  /** The flat table determines the nested map. */
  lemma RepresentationIsUnique(a: Buckets, b: Buckets, table: Table)
    requires Represents(a, table) && Represents(b, table)
    ensures a == b
  {
    forall u
      ensures Entries(a, u) == Entries(b, u)
    {
      forall s
        ensures s in Entries(a, u) <==> s in Entries(b, u)
        ensures s in Entries(a, u) ==> Entries(a, u)[s] == Entries(b, u)[s]
      {
        assert Key(u, s) in table <==> s in Entries(a, u);
      }
    }
    SameBuckets(a, b);
    SameBuckets(b, a);
  }

  lemma SameBuckets(a: Buckets, b: Buckets)
    requires forall u :: Entries(a, u) == Entries(b, u)
    requires forall u :: u in a ==> a[u] != map[]
    ensures forall u :: u in a ==> u in b && a[u] == b[u]
  {
    forall u | u in a
      ensures u in b && a[u] == b[u]
    {
      assert Entries(a, u) == a[u] && Entries(b, u) != map[];
    }
  }

  /** The retained sessions of a bucket are the live keys of its user. */
  lemma RetainedAreLive(routes: Buckets, table: Table, user: UserId, now: nat)
    requires Represents(routes, table)
    ensures |LiveKeys(table, user, now)| == |Retained(Entries(routes, user), now)|
  {
    KeysInOneBucket(user, Retained(Entries(routes, user), now).Keys, LiveKeys(table, user, now));
  }

  lemma {:induction false} KeysInOneBucket(user: UserId, sessions: set<SessionId>, keys: set<Key>)
    requires forall k :: k in keys <==> k.user == user && k.session in sessions
    ensures |keys| == |sessions|
    decreases |sessions|
  {
    assert forall s :: s in sessions ==> Key(user, s) in keys;
    if sessions != {} {
      var s :| s in sessions;
      KeysInOneBucket(user, sessions - {s}, keys - {Key(user, s)});
    } else {
      assert forall k :: k !in keys;
    }
  }

  /** The routes of the retained entries are the live routes of the table. */
  lemma RetainedRoutes(routes: Buckets, table: Table, user: UserId, now: nat, r: Route)
    requires Represents(routes, table) && Filed(table)
    ensures var entries := Retained(Entries(routes, user), now);
            r in LiveRoutes(table, user, now) <==> r.session in entries && r == entries[r.session].route
  {
    var entries := Retained(Entries(routes, user), now);
    if r in LiveRoutes(table, user, now) {
      var k :| k in LiveKeys(table, user, now) && table[k].route == r;
    }
    assert r.session in entries <==> Key(user, r.session) in LiveKeys(table, user, now);
  }

  /** The live routes of a user are those stored under it that expire after now. */
  lemma LiveRoutesMeaning(table: Table, user: UserId, now: nat)
    requires Filed(table)
    ensures forall r :: r in LiveRoutes(table, user, now) <==>
              Key(user, r.session) in table && table[Key(user, r.session)].route == r &&
              now < table[Key(user, r.session)].expiresAt
  {
    forall r
      ensures r in LiveRoutes(table, user, now) <==>
                Key(user, r.session) in table && table[Key(user, r.session)].route == r &&
                now < table[Key(user, r.session)].expiresAt
    {
      if r in LiveRoutes(table, user, now) {
        var k :| k in LiveKeys(table, user, now) && table[k].route == r;
        assert KeyOf(r) == k;
      } else if Key(user, r.session) in table && table[Key(user, r.session)].route == r {
        assert Key(user, r.session) !in LiveKeys(table, user, now);
      }
    }
  }

  class MemoryPresenceStore {
    var routes: Buckets
    ghost var table: Table // the flat table the nested map stands for

    ghost predicate Valid()
      reads this
    {
      Represents(routes, table) && Filed(table)
    }

    constructor ()
      ensures Valid() && table == map[]
    {
      routes, table := map[], map[];
    }

    /** Inserts or replaces one route. */
    method Register(route: Route, ttl: nat, now: nat)
      requires Valid()
      modifies this
      ensures Valid() && table == Registered(old(table), route, now + ttl)
      ensures table == old(table)[Key(route.user, route.session) := Lease(route, now + ttl)]
    {
      var entries := Entries(routes, route.user);
      routes := routes[route.user := entries[route.session := Lease(route, now + ttl)]];
      table := Registered(table, route, now + ttl);
    }

    /** Removes exactly one route, and its user's bucket with the last one. */
    method Remove(user: UserId, session: SessionId)
      requires Valid()
      modifies this
      ensures Valid() && table == Removed(old(table), Key(user, session)) == old(table) - {Key(user, session)}
    {
      table := Removed(table, Key(user, session));
      if user !in routes {
        return;
      }
      var entries := routes[user] - {session};
      routes := if entries == map[] then routes - {user} else routes[user := entries];
    }

    /** Extends one stored route. */
    method Touch(user: UserId, session: SessionId, ttl: nat, now: nat)
      requires Valid()
      modifies this
      ensures Valid() && table == Touched(old(table), Key(user, session), now + ttl)
      ensures table.Keys == old(table).Keys
      ensures forall k :: k in table ==>
                table[k] == Lease(old(table)[k].route, if k == Key(user, session) then now + ttl else old(table)[k].expiresAt)
    {
      if user in routes && session in routes[user] {
        var entry := routes[user][session].(expiresAt := now + ttl);
        routes := routes[user := routes[user][session := entry]];
      }
      table := Touched(table, Key(user, session), now + ttl);
    }

    /** Purges the user's lapsed routes and returns the live ones, each once. */
    method Locate(user: UserId, now: nat) returns (found: seq<Route>)
      requires Valid()
      modifies this
      ensures Valid() && table == Purged(old(table), user, now)
      ensures forall k :: k in table <==> k in old(table) && (k.user == user ==> now < old(table)[k].expiresAt)
      ensures forall k :: k in table ==> table[k] == old(table)[k]
      ensures forall r :: r in found <==> r in LiveRoutes(old(table), user, now)
      ensures forall r :: r in found <==>
                Key(user, r.session) in old(table) && old(table)[Key(user, r.session)].route == r &&
                now < old(table)[Key(user, r.session)].expiresAt
      ensures forall i, j :: 0 <= i < j < |found| ==> found[i] != found[j]
      ensures |found| == |LiveKeys(old(table), user, now)|
    {
      var entries := Retained(Entries(routes, user), now);
      RetainedAreLive(routes, table, user, now);
      forall r
        ensures r in LiveRoutes(table, user, now) <==> r.session in entries && r == entries[r.session].route
      {
        RetainedRoutes(routes, table, user, now, r);
      }
      LiveRoutesMeaning(table, user, now);
      PurgeRepresents(routes, table, user, now);
      table := Purged(table, user, now);
      if user !in routes {
        return [];
      }
      if entries == map[] {
        routes := routes - {user};
        return [];
      }
      routes := routes[user := entries];
      found := Collect(user, entries);
    }
  }

  /** Retaining a bucket's live entries, or dropping the bucket with none left, purges the table. */
  lemma PurgeRepresents(routes: Buckets, table: Table, user: UserId, now: nat)
    requires Represents(routes, table) && Filed(table)
    ensures var entries := Retained(Entries(routes, user), now);
            Represents(if entries == map[] then routes - {user} else routes[user := entries], Purged(table, user, now))
    ensures Filed(Purged(table, user, now))
    ensures forall s :: s in Retained(Entries(routes, user), now) ==>
              KeyOf(Retained(Entries(routes, user), now)[s].route) == Key(user, s)
  {
    forall s | s in Entries(routes, user)
      ensures KeyOf(Entries(routes, user)[s].route) == Key(user, s)
    {
      assert Key(user, s) in table;
    }
  }

  /** The routes of a bucket, in some order. */
  method Collect(user: UserId, entries: map<SessionId, Lease>) returns (found: seq<Route>)
    requires forall s :: s in entries ==> KeyOf(entries[s].route) == Key(user, s)
    ensures |found| == |entries|
    ensures forall r :: r in found <==> r.session in entries && r == entries[r.session].route
    ensures forall i, j :: 0 <= i < j < |found| ==> found[i] != found[j]
  {
    found := [];
    var todo := entries.Keys;
    while todo != {}
      invariant todo <= entries.Keys && |found| + |todo| == |entries|
      invariant forall r :: r in found <==> r.session in entries.Keys - todo && r == entries[r.session].route
      invariant forall i, j :: 0 <= i < j < |found| ==> found[i] != found[j]
    {
      var s :| s in todo;
      todo := todo - {s};
      found := found + [entries[s].route];
    }
  }
}
