/** The Redis presence adapter over an assumed semantics of its four commands, and how it
    relates to the memory store. One hash per user holds a field per session and has one
    expiry for all of them. */
module RedisPresence {
  import opened Identity
  import opened Protocol
  import opened Clock
  import opened Presence
  import opened PresenceHistory

  const U64_RANGE: nat := 0x1_0000_0000_0000_0000

  /** `ttl_seconds`: whole seconds, rounded up, at least one, cast to an i64. */
  function TtlSeconds(ttl: nat): int {
    var seconds := (ttl / NANOS_PER_SECOND + (if ttl % NANOS_PER_SECOND > 0 then 1 else 0)) % U64_RANGE;
    var least := if seconds < 1 then 1 else seconds;
    if least > I64_MAX then least - U64_RANGE else least
  }

  /** The longest ttl whose rounded-up seconds an i64 holds. */
  const LONGEST_TTL: nat := I64_MAX * NANOS_PER_SECOND

  /** Exactly when the seconds given to Redis are positive and cover the whole ttl. */
  lemma TtlSecondsCoverExactly(ttl: nat)
    requires ttl / NANOS_PER_SECOND < U64_RANGE
    ensures TtlSeconds(ttl) >= 1 && TtlSeconds(ttl) * NANOS_PER_SECOND >= ttl <==> ttl <= LONGEST_TTL
  {
  }

  /** Within that bound the seconds are the ttl rounded up, and one for a zero ttl. */
  lemma TtlSecondsRoundUp(ttl: nat)
    requires ttl <= LONGEST_TTL
    ensures ttl == 0 ==> TtlSeconds(ttl) == 1
    ensures ttl > 0 ==> (TtlSeconds(ttl) - 1) * 1_000_000_000 < ttl <= TtlSeconds(ttl) * 1_000_000_000
  {
  }

  /** A hash without an expiry is kept forever. */
  datatype Hash = Hash(fields: map<SessionId, Route>, expiry: Option<nat>)

  /** The keyspace, one key per user; an expired key is absent to every command. */
  type Keyspace = map<UserId, Hash>

  // ---------------------------------------------------------------- commands

  predicate Outlasts(hash: Hash, now: nat) {
    hash.expiry.None? || now < hash.expiry.value
  }

  predicate Exists(keys: Keyspace, user: UserId, now: nat) {
    user in keys && Outlasts(keys[user], now)
  }

  /** HVALS and every other command read the fields of an existing key. */
  function Fields(keys: Keyspace, user: UserId, now: nat): map<SessionId, Route> {
    if Exists(keys, user, now) then keys[user].fields else map[]
  }

  /** EXPIRE acts on an existing key; a non-positive timeout deletes it. */
  function Expire(keys: Keyspace, user: UserId, seconds: int, now: nat): Keyspace {
    if !Exists(keys, user, now) then keys
    else if seconds <= 0 then keys - {user}
    else keys[user := keys[user].(expiry := Some(now + seconds * NANOS_PER_SECOND))]
  }

  /** HSET creates the key, without an expiry, when it does not exist. */
  function HSet(keys: Keyspace, user: UserId, session: SessionId, route: Route, now: nat): Keyspace {
    keys[user := Hash(Fields(keys, user, now)[session := route],
                      if Exists(keys, user, now) then keys[user].expiry else None)]
  }

  /** HDEL; the key goes with its last field. */
  function HDel(keys: Keyspace, user: UserId, session: SessionId, now: nat): Keyspace {
    if session !in Fields(keys, user, now) then keys
    else if keys[user].fields - {session} == map[] then keys - {user}
    else keys[user := keys[user].(fields := keys[user].fields - {session})]
  }

  // ---------------------------------------------------------------- the adapter

  function Served(keys: Keyspace, call: Call): Keyspace {
    match call
    case Register(route, ttl, at) =>
      Expire(HSet(keys, route.user, route.session, route, at), route.user, TtlSeconds(ttl), at)
    case Remove(key, at) => HDel(keys, key.user, key.session, at)
    case Touch(key, ttl, at) => Expire(keys, key.user, TtlSeconds(ttl), at)
    case Locate(_, _) => keys
  }

  function Located(keys: Keyspace, user: UserId, now: nat): set<Route> {
    var fields := Fields(keys, user, now);
    set s | s in fields :: fields[s]
  }

  function RedisAnswers(keys: Keyspace, calls: seq<Call>): seq<set<Route>>
    decreases |calls|
  {
    if calls == [] then []
    else (if calls[0].Locate? then [Located(keys, calls[0].user, calls[0].at)] else [])
         + RedisAnswers(Served(keys, calls[0]), calls[1..])
  }

  /** The routes of a user that were registered and not removed since, expiry aside. */
  function KnownRoutes(table: Table, user: UserId): set<Route> {
    set k | k in table && k.user == user :: table[k].route
  }

  function KnownAnswers(table: Table, calls: seq<Call>): seq<set<Route>>
    decreases |calls|
  {
    if calls == [] then []
    else (if calls[0].Locate? then [KnownRoutes(table, calls[0].user)] else [])
         + KnownAnswers(Recorded(table, calls[0]), calls[1..])
  }

  // ---------------------------------------------------------------- simulation

  predicate OneTtl(calls: seq<Call>, ttl: nat) {
    forall i :: 0 <= i < |calls| ==>
      (calls[i].Register? ==> calls[i].ttl == ttl) && (calls[i].Touch? ==> calls[i].ttl == ttl)
  }

  /** Every live entry of the timed map is a field of a key that outlives it. */
  ghost predicate Covers(table: Table, keys: Keyspace, now: nat) {
    forall k :: IsLive(table, k, now) ==>
      && k.user in keys
      && (keys[k.user].expiry.Some? ==> table[k].expiresAt <= keys[k.user].expiry.value)
      && k.session in keys[k.user].fields && keys[k.user].fields[k.session] == table[k].route
  }

  /** Every readable field is an entry that was registered and not removed since. */
  ghost predicate OnlyKnown(table: Table, keys: Keyspace, now: nat) {
    forall u, s :: s in Fields(keys, u, now) ==>
      Key(u, s) in table && table[Key(u, s)].route == Fields(keys, u, now)[s]
  }

  ghost predicate WithinTtl(table: Table, ttl: nat, now: nat) {
    forall k :: k in table ==> table[k].expiresAt <= now + ttl
  }

  ghost predicate Simulates(table: Table, keys: Keyspace, ttl: nat, now: nat) {
    Covers(table, keys, now) && OnlyKnown(table, keys, now) && WithinTtl(table, ttl, now)
  }

  predicate Covering(ttl: nat) {
    TtlSeconds(ttl) >= 1 && TtlSeconds(ttl) * NANOS_PER_SECOND >= ttl
  }

  lemma ServedRegister(table: Table, keys: Keyspace, ttl: nat, now: nat, route: Route, at: nat)
    requires Simulates(table, keys, ttl, now) && now <= at && Covering(ttl)
    ensures Simulates(Registered(table, route, at + ttl), Served(keys, Register(route, ttl, at)), ttl, at)
  {
    var next := Served(keys, Register(route, ttl, at));
    assert next == keys[route.user := Hash(Fields(keys, route.user, at)[route.session := route],
                                           Some(at + TtlSeconds(ttl) * NANOS_PER_SECOND))];
  }

  lemma ServedTouch(table: Table, keys: Keyspace, ttl: nat, now: nat, key: Key, at: nat)
    requires Simulates(table, keys, ttl, now) && now <= at && Covering(ttl)
    requires key in table ==> IsLive(table, key, at)
    ensures Simulates(Touched(table, key, at + ttl), Served(keys, Touch(key, ttl, at)), ttl, at)
  {
  }

  lemma ServedRemove(table: Table, keys: Keyspace, ttl: nat, now: nat, key: Key, at: nat)
    requires Simulates(table, keys, ttl, now) && now <= at
    ensures Simulates(Removed(table, key), Served(keys, Remove(key, at)), ttl, at)
  {
    var next := Served(keys, Remove(key, at));
    forall k | IsLive(Removed(table, key), k, at)
      ensures k.user in next && k.session in next[k.user].fields
    {
      assert IsLive(table, k, now);
      assert k.user == key.user ==> k.session != key.session;
      assert k.session in Fields(keys, k.user, at);
      assert k.user == key.user ==> k.session in keys[k.user].fields - {key.session};
    }
  }

  /** Waiting keeps the correspondence. */
  lemma ServedLater(table: Table, keys: Keyspace, ttl: nat, now: nat, at: nat)
    requires Simulates(table, keys, ttl, now) && now <= at
    ensures Simulates(table, keys, ttl, at)
  {
  }

  lemma ServedStep(table: Table, keys: Keyspace, ttl: nat, now: nat, call: Call)
    requires Simulates(table, keys, ttl, now) && now <= call.at && Covering(ttl)
    requires call.Register? ==> call.ttl == ttl
    requires call.Touch? ==> call.ttl == ttl
    requires call.Touch? && call.key in table ==> IsLive(table, call.key, call.at)
    ensures Simulates(Recorded(table, call), Served(keys, call), ttl, call.at)
  {
    match call
    case Register(route, _, at) => ServedRegister(table, keys, ttl, now, route, at);
    case Touch(key, _, at) => ServedTouch(table, keys, ttl, now, key, at);
    case Remove(key, at) => ServedRemove(table, keys, ttl, now, key, at);
    case Locate(_, at) => ServedLater(table, keys, ttl, now, at);
  }

  /** At every lookup Redis returns at least the live routes and at most the known ones. */
  lemma LocatedBetween(table: Table, keys: Keyspace, ttl: nat, now: nat, user: UserId, at: nat)
    requires Simulates(table, keys, ttl, now) && now <= at
    ensures LiveRoutes(table, user, at) <= Located(keys, user, at) <= KnownRoutes(table, user)
  {
    forall r | r in Located(keys, user, at)
      ensures r in KnownRoutes(table, user)
    {
      var s :| s in Fields(keys, user, at) && Fields(keys, user, at)[s] == r;
      assert s in Fields(keys, user, now) && Key(user, s) in table;
    }
    forall r | r in LiveRoutes(table, user, at)
      ensures r in Located(keys, user, at)
    {
      var k :| k in LiveKeys(table, user, at) && table[k].route == r;
      assert IsLive(table, k, at) && IsLive(table, k, now);
      assert k.session in Fields(keys, user, at);
    }
  }

  /** `a[i] <= b[i]` at every lookup. */
  predicate Within(a: seq<set<Route>>, b: seq<set<Route>>) {
    |a| == |b| && forall i :: 0 <= i < |a| ==> a[i] <= b[i]
  }

  lemma WithinJoin(a: seq<set<Route>>, b: seq<set<Route>>, c: seq<set<Route>>, d: seq<set<Route>>)
    requires Within(a, b) && Within(c, d)
    ensures Within(a + c, b + d)
  {
  }

  lemma {:induction false} SimulatedAnswers(table: Table, keys: Keyspace, ttl: nat, now: nat, calls: seq<Call>)
    requires Simulates(table, keys, ttl, now) && Covering(ttl)
    requires InTime(calls, now) && RespectsLeases(table, calls) && OneTtl(calls, ttl)
    ensures Within(RecordedAnswers(table, calls), RedisAnswers(keys, calls))
    ensures Within(RedisAnswers(keys, calls), KnownAnswers(table, calls))
    decreases |calls|
  {
    if calls != [] {
      var call, rest := calls[0], calls[1..];
      ServedStep(table, keys, ttl, now, call);
      assert OneTtl(rest, ttl) by {
        assert forall i :: 0 <= i < |rest| ==> rest[i] == calls[i + 1];
      }
      SimulatedAnswers(Recorded(table, call), Served(keys, call), ttl, call.at, rest);
      var table', keys' := Recorded(table, call), Served(keys, call);
      if call.Locate? {
        LocatedBetween(table, keys, ttl, now, call.user, call.at);
        var live, located := LiveRoutes(table, call.user, call.at), Located(keys, call.user, call.at);
        WithinJoin([live], [located], RecordedAnswers(table', rest), RedisAnswers(keys', rest));
        WithinJoin([located], [KnownRoutes(table, call.user)], RedisAnswers(keys', rest), KnownAnswers(table', rest));
      } else {
        WithinJoin([], [], RecordedAnswers(table', rest), RedisAnswers(keys', rest));
        WithinJoin([], [], RedisAnswers(keys', rest), KnownAnswers(table', rest));
      }
    }
  }

  /** From empty stores, with one ttl within the i64 bound and no touch of a lapsed
      entry, every lookup of the memory store returns a subset of what Redis returns, and Redis
      returns only routes that were registered and not removed since. */
  lemma RedisCoversMemory(ttl: nat, calls: seq<Call>)
    requires ttl <= LONGEST_TTL && OneTtl(calls, ttl)
    requires InTime(calls, 0) && RespectsLeases(map[], calls)
    ensures Within(Answers(map[], calls), RedisAnswers(map[], calls))
    ensures Within(RedisAnswers(map[], calls), KnownAnswers(map[], calls))
  {
    TtlSecondsCoverExactly(ttl);
    SimulatedAnswers(map[], map[], ttl, 0, calls);
    AnswersAreTheTimedMap(map[], 0, calls);
  }

  // ---------------------------------------------------------------- routes lapse

  function ServedAfter(keys: Keyspace, calls: seq<Call>): Keyspace
    decreases |calls|
  {
    if calls == [] then keys else ServedAfter(Served(keys, calls[0]), calls[1..])
  }

  /** Whether the call sets the expiry of the user's key. */
  predicate Renews(call: Call, user: UserId) {
    match call
    case Register(route, _, _) => route.user == user
    case Touch(key, _, _) => key.user == user
    case Remove(_, _) => false
    case Locate(_, _) => false
  }

  /** No call of the history renews the user's key after `last`. */
  predicate QuietAfter(calls: seq<Call>, user: UserId, last: nat) {
    forall i :: 0 <= i < |calls| && Renews(calls[i], user) ==> calls[i].at <= last
  }

  /** The user's key, if there is one, expires by `end`. */
  predicate ExpiresBy(keys: Keyspace, user: UserId, end: nat) {
    user in keys ==> keys[user].expiry.Some? && keys[user].expiry.value <= end
  }

  lemma ServedExpiresBy(keys: Keyspace, call: Call, user: UserId, end: nat)
    requires ExpiresBy(keys, user, end)
    requires Renews(call, user) ==> call.at + TtlSeconds(call.ttl) * NANOS_PER_SECOND <= end
    ensures ExpiresBy(Served(keys, call), user, end)
  {
  }

  lemma {:induction false} ServedAfterExpiresBy(keys: Keyspace, calls: seq<Call>, user: UserId, ttl: nat, last: nat)
    requires OneTtl(calls, ttl) && QuietAfter(calls, user, last) && TtlSeconds(ttl) >= 1
    requires ExpiresBy(keys, user, last + TtlSeconds(ttl) * NANOS_PER_SECOND)
    ensures ExpiresBy(ServedAfter(keys, calls), user, last + TtlSeconds(ttl) * NANOS_PER_SECOND)
    decreases |calls|
  {
    if calls != [] {
      var call, rest := calls[0], calls[1..];
      ServedExpiresBy(keys, call, user, last + TtlSeconds(ttl) * NANOS_PER_SECOND);
      assert OneTtl(rest, ttl) && QuietAfter(rest, user, last) by {
        assert forall i :: 0 <= i < |rest| ==> rest[i] == calls[i + 1];
      }
      ServedAfterExpiresBy(Served(keys, call), rest, user, ttl, last);
    }
  }

  /** With one ttl within the i64 bound, a user's routes are gone from Redis once nothing has
      registered or touched any of them for the ttl and one second more. */
  lemma RedisForgets(ttl: nat, calls: seq<Call>, user: UserId, last: nat, at: nat)
    requires ttl <= LONGEST_TTL && OneTtl(calls, ttl) && QuietAfter(calls, user, last)
    requires at >= last + ttl + 1_000_000_000
    ensures Located(ServedAfter(map[], calls), user, at) == {}
  {
    TtlSecondsRoundUp(ttl);
    ServedAfterExpiresBy(map[], calls, user, ttl, last);
  }

  /** A route just registered is found until the rounded-up seconds have passed, and no longer. */
  lemma RegisteredForExactly(keys: Keyspace, route: Route, ttl: nat, now: nat, at: nat)
    requires ttl <= LONGEST_TTL && now <= at
    ensures var later := Served(keys, Register(route, ttl, now));
            route in Located(later, route.user, at) <==> at < now + TtlSeconds(ttl) * 1_000_000_000
  {
    TtlSecondsRoundUp(ttl);
    var later := Served(keys, Register(route, ttl, now));
    var fields := Fields(later, route.user, at);
    assert at < now + TtlSeconds(ttl) * NANOS_PER_SECOND ==> route.session in fields && fields[route.session] == route;
  }
}
