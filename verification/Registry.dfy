/** The local registry with its two indexes, refining one flat map from session id to user. */
module Registries {
  import opened Identity
  import opened UserIndexes
  import opened Sessions

  /** The flat registry. */
  type FlatRegistry = map<SessionId, UserId>

  function OfUser(flat: FlatRegistry, user: UserId): set<SessionId> {
    set s | s in flat && flat[s] == user
  }

  /** The sessions a new connection displaces. */
  function DisplacedBy(flat: FlatRegistry, user: UserId, replace: bool): set<SessionId> {
    if replace then OfUser(flat, user) else {}
  }

  function Inserted(flat: FlatRegistry, id: SessionId, user: UserId, replace: bool): FlatRegistry {
    (flat - DisplacedBy(flat, user, replace))[id := user]
  }

  /** Both indexes tell the same story as the flat map, and no bucket is empty. */
  ghost predicate Agree(flat: FlatRegistry, byUser: UserIndex) {
    && (forall u :: u in byUser ==> byUser[u] != {})
    && (forall u, s :: s in Bucket(byUser, u) <==> s in flat && flat[s] == u)
  }

  lemma BucketIsOfUser(flat: FlatRegistry, byUser: UserIndex, user: UserId)
    requires Agree(flat, byUser)
    ensures Bucket(byUser, user) == OfUser(flat, user)
  {
  }

  lemma InsertAgrees(flat: FlatRegistry, byUser: UserIndex, id: SessionId, user: UserId, replace: bool)
    requires Agree(flat, byUser) && id !in flat
    ensures Agree(Inserted(flat, id, user, replace), Reserve(byUser, user, id, replace))
    ensures Displaced(byUser, user, replace) == DisplacedBy(flat, user, replace)
  {
    BucketIsOfUser(flat, byUser, user);
    var flat', byUser' := Inserted(flat, id, user, replace), Reserve(byUser, user, id, replace);
    forall u, s
      ensures s in Bucket(byUser', u) <==> s in flat' && flat'[s] == u
    {
      assert s in Bucket(byUser, u) <==> s in flat && flat[s] == u;
      assert id !in Bucket(byUser, u);
    }
  }

  /** Discarding and then pruning when told to is removing from the flat map. */
  lemma RemoveAgrees(flat: FlatRegistry, byUser: UserIndex, id: SessionId, user: UserId)
    requires Agree(flat, byUser) && (id in flat ==> flat[id] == user)
    ensures var discarded := Discard(byUser, user, id);
            Agree(flat - {id}, if ShouldPrune(byUser, user, id) then Prune(discarded, user) else discarded)
  {
    var discarded := Discard(byUser, user, id);
    var next := if ShouldPrune(byUser, user, id) then Prune(discarded, user) else discarded;
    forall u | u in next
      ensures next[u] != {}
    {
      assert u == user ==> next[u] == byUser[user] - {id};
    }
    forall u, s
      ensures s in Bucket(next, u) <==> s in flat - {id} && flat[s] == u
    {
      assert s in Bucket(byUser, u) <==> s in flat && flat[s] == u;
      assert id in Bucket(byUser, u) <==> id in flat && flat[id] == u;
    }
  }

  // ---------------------------------------------------------------- sizes

  /** The sum of the bucket sizes. */
  ghost function BucketTotal(byUser: UserIndex): nat
    decreases |byUser|
  {
    if byUser == map[] then 0
    else var u :| u in byUser; |byUser[u]| + BucketTotal(byUser - {u})
  }

  /** The bucket sizes add up to the number of registered sessions. */
  lemma {:induction false} BucketsAddUp(flat: FlatRegistry, byUser: UserIndex)
    requires Agree(flat, byUser)
    ensures BucketTotal(byUser) == |flat|
    decreases |byUser|
  {
    if byUser == map[] {
      forall s
        ensures s !in flat
      {
        assert s in flat ==> s in Bucket(byUser, flat[s]);
      }
      assert flat == map[];
    } else {
      var u :| u in byUser && BucketTotal(byUser) == |byUser[u]| + BucketTotal(byUser - {u});
      var rest := flat - byUser[u];
      BucketIsOfUser(flat, byUser, u);
      RestAgrees(flat, byUser, u);
      BucketsAddUp(rest, byUser - {u});
      assert flat.Keys == rest.Keys + byUser[u];
      assert |flat.Keys| == |rest.Keys| + |byUser[u]|;
    }
  }

  lemma RestAgrees(flat: FlatRegistry, byUser: UserIndex, u: UserId)
    requires Agree(flat, byUser) && u in byUser
    ensures Agree(flat - byUser[u], byUser - {u})
  {
    forall v, s
      ensures s in Bucket(byUser - {u}, v) <==> s in flat - byUser[u] && flat[s] == v
    {
      assert s in Bucket(byUser, u) <==> s in flat && flat[s] == u;
      assert s in Bucket(byUser, v) <==> s in flat && flat[s] == v;
    }
  }

  // ---------------------------------------------------------------- the class

  predicate Distinct<T(==)>(items: seq<T>) {
    forall i, j :: 0 <= i < j < |items| ==> items[i] != items[j]
  }

  /** The primary index read as a flat map; a handle's identity never changes. */
  function FlatOf(bySession: map<SessionId, Session>): FlatRegistry {
    map id | id in bySession :: bySession[id].identity.user
  }

  class Registry {
    var bySession: map<SessionId, Session>
    var byUser: UserIndex

    ghost function Flat(): FlatRegistry
      reads this
    {
      FlatOf(bySession)
    }

    ghost predicate Valid()
      reads this
    {
      && (forall id :: id in bySession ==> bySession[id].id == id)
      && Agree(Flat(), byUser)
    }

    /** The handle is the registered one, or its id is not registered. */
    ghost predicate Knows(session: Session)
      reads this
    {
      session.id in bySession ==> bySession[session.id] == session
    }

    constructor ()
      ensures Valid() && bySession == map[]
    {
      bySession, byUser := map[], map[];
    }

    /** Stores a session with a new id and returns the sessions it displaced. */
    method Insert(session: Session, replace: bool) returns (replaced: seq<Session>)
      requires Valid() && session.id !in bySession
      modifies this
      ensures Valid()
      ensures Flat() == Inserted(old(Flat()), session.id, session.identity.user, replace)
      ensures bySession ==
        (old(bySession) - DisplacedBy(old(Flat()), session.identity.user, replace))[session.id := session]
      ensures Distinct(replaced)
      ensures forall s :: s in replaced <==>
        s.id in DisplacedBy(old(Flat()), session.identity.user, replace) && old(bySession)[s.id] == s
    {
      var user := session.identity.user;
      InsertAgrees(Flat(), byUser, session.id, user, replace);
      var displaced := Displaced(byUser, user, replace);
      byUser := Reserve(byUser, user, session.id, replace);

      replaced := Unlink(displaced);
      bySession := bySession[session.id := session];
      assert Flat() == Inserted(old(Flat()), session.id, user, replace);
    }

    /** Takes displaced sessions out of the primary index. */
    method Unlink(displaced: set<SessionId>) returns (replaced: seq<Session>)
      requires forall id :: id in bySession ==> bySession[id].id == id
      modifies this`bySession
      ensures bySession == old(bySession) - displaced
      ensures Distinct(replaced)
      ensures forall s :: s in replaced <==> s.id in displaced && s.id in old(bySession) && old(bySession)[s.id] == s
    {
      replaced := [];
      var todo := displaced;
      while todo != {}
        invariant todo <= displaced
        invariant bySession == old(bySession) - (displaced - todo)
        invariant Distinct(replaced)
        invariant forall s :: s in replaced <==>
          s.id in displaced - todo && s.id in old(bySession) && old(bySession)[s.id] == s
      {
        var id :| id in todo;
        if id in bySession {
          replaced := replaced + [bySession[id]];
          bySession := bySession - {id};
        }
        todo := todo - {id};
      }
    }

    /** Removes exactly this session from both indexes. */
    method Remove(session: Session)
      requires Valid() && Knows(session)
      modifies this
      ensures Valid()
      ensures Flat() == old(Flat()) - {session.id} && bySession == old(bySession) - {session.id}
    {
      var user := session.identity.user;
      RemoveAgrees(Flat(), byUser, session.id, user);
      var prune := ShouldPrune(byUser, user, session.id);
      byUser := Discard(byUser, user, session.id);
      if prune {
        byUser := Prune(byUser, user);
      }
      bySession := bySession - {session.id};
      assert Flat() == old(Flat()) - {session.id};
    }

    /** The sessions of one user, each once, in some order. */
    method SessionsForUser(user: UserId) returns (sessions: seq<Session>)
      requires Valid()
      ensures Distinct(sessions)
      ensures forall s :: s in sessions <==> s.id in OfUser(Flat(), user) && bySession[s.id] == s
      ensures |sessions| == |OfUser(Flat(), user)|
    {
      BucketIsOfUser(Flat(), byUser, user);
      sessions := Lookup(Bucket(byUser, user));
    }

    method AllSessions() returns (sessions: seq<Session>)
      requires Valid()
      ensures Distinct(sessions)
      ensures forall s :: s in sessions <==> s.id in bySession && bySession[s.id] == s
      ensures |sessions| == |bySession|
    {
      sessions := Lookup(bySession.Keys);
    }

    /** The registered sessions among some ids. */
    method Lookup(ids: set<SessionId>) returns (sessions: seq<Session>)
      requires forall id :: id in bySession ==> bySession[id].id == id
      ensures Distinct(sessions)
      ensures forall s :: s in sessions <==> s.id in ids && s.id in bySession && bySession[s.id] == s
      ensures ids <= bySession.Keys ==> |sessions| == |ids|
    {
      sessions := [];
      var todo := ids;
      while todo != {}
        invariant todo <= ids
        invariant Distinct(sessions)
        invariant forall s :: s in sessions <==> s.id in ids - todo && s.id in bySession && bySession[s.id] == s
        invariant ids <= bySession.Keys ==> |sessions| + |todo| == |ids|
      {
        var id :| id in todo;
        if id in bySession {
          sessions := sessions + [bySession[id]];
        }
        todo := todo - {id};
      }
    }

    method Count() returns (n: nat)
      requires Valid()
      ensures n == |Flat()| && n == BucketTotal(byUser)
    {
      BucketsAddUp(Flat(), byUser);
      assert Flat().Keys == bySession.Keys;
      n := |bySession|;
    }
  }

  // ---------------------------------------------------------------- runs of whole operations

  datatype Op =
    | Insert(id: SessionId, user: UserId)
    | Remove(id: SessionId, user: UserId)

  /** The two-index form of an operation, as the class performs it. */
  function Indexed(byUser: UserIndex, op: Op, replace: bool): UserIndex {
    match op
    case Insert(id, user) => Reserve(byUser, user, id, replace)
    case Remove(id, user) =>
      var discarded := Discard(byUser, user, id);
      if ShouldPrune(byUser, user, id) then Prune(discarded, user) else discarded
  }

  function Flattened(flat: FlatRegistry, op: Op, replace: bool): FlatRegistry {
    match op
    case Insert(id, user) => Inserted(flat, id, user, replace)
    case Remove(id, _) => flat - {id}
  }

  /** Inserted ids are new, and a handle's user is the one its id was registered with. */
  predicate Legal(flat: FlatRegistry, ops: seq<Op>, replace: bool)
    decreases |ops|
  {
    ops == [] ||
    ((match ops[0]
      case Insert(id, _) => id !in flat
      case Remove(id, user) => id in flat ==> flat[id] == user)
     && Legal(Flattened(flat, ops[0], replace), ops[1..], replace))
  }

  function IndexAfter(byUser: UserIndex, ops: seq<Op>, replace: bool): UserIndex
    decreases |ops|
  {
    if ops == [] then byUser else IndexAfter(Indexed(byUser, ops[0], replace), ops[1..], replace)
  }

  function FlatAfter(flat: FlatRegistry, ops: seq<Op>, replace: bool): FlatRegistry
    decreases |ops|
  {
    if ops == [] then flat else FlatAfter(Flattened(flat, ops[0], replace), ops[1..], replace)
  }

  /** After any sequence of whole inserts and removes the reverse index is the flat map read by
      user: the bucket of a user is the filter, none is empty, and the sizes add up. */
  lemma {:induction false} IndexesRefineFlatMap(flat: FlatRegistry, byUser: UserIndex, ops: seq<Op>, replace: bool)
    requires Agree(flat, byUser) && Legal(flat, ops, replace)
    ensures Agree(FlatAfter(flat, ops, replace), IndexAfter(byUser, ops, replace))
    ensures BucketTotal(IndexAfter(byUser, ops, replace)) == |FlatAfter(flat, ops, replace)|
    decreases |ops|
  {
    if ops == [] {
      BucketsAddUp(flat, byUser);
    } else {
      match ops[0] {
        case Insert(id, user) => InsertAgrees(flat, byUser, id, user, replace);
        case Remove(id, user) => RemoveAgrees(flat, byUser, id, user);
      }
      IndexesRefineFlatMap(Flattened(flat, ops[0], replace), Indexed(byUser, ops[0], replace), ops[1..], replace);
    }
  }
}
