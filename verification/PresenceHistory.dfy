/** Histories of presence calls: when lazy purging can be seen, and exactly when it cannot. */
module PresenceHistory {
  import opened Identity
  import opened Protocol
  import opened Presence

  /** A presence call and the instant at which the store serves it. */
  datatype Call =
    | Register(route: Route, ttl: nat, at: nat)
    | Remove(key: Key, at: nat)
    | Touch(key: Key, ttl: nat, at: nat)
    | Locate(user: UserId, at: nat)

  /** The memory store: a lookup purges. */
  function Stored(table: Table, call: Call): Table {
    match call
    case Register(route, ttl, at) => Registered(table, route, at + ttl)
    case Remove(key, _) => Removed(table, key)
    case Touch(key, ttl, at) => Touched(table, key, at + ttl)
    case Locate(user, at) => Purged(table, user, at)
  }

  /** The flat timed map: a lookup changes nothing. */
  function Recorded(table: Table, call: Call): Table {
    if call.Locate? then table else Stored(table, call)
  }

  function Answers(table: Table, calls: seq<Call>): seq<set<Route>>
    decreases |calls|
  {
    if calls == [] then []
    else (if calls[0].Locate? then [LiveRoutes(table, calls[0].user, calls[0].at)] else [])
         + Answers(Stored(table, calls[0]), calls[1..])
  }

  function RecordedAnswers(table: Table, calls: seq<Call>): seq<set<Route>>
    decreases |calls|
  {
    if calls == [] then []
    else (if calls[0].Locate? then [LiveRoutes(table, calls[0].user, calls[0].at)] else [])
         + RecordedAnswers(Recorded(table, calls[0]), calls[1..])
  }

  function RecordedAfter(table: Table, calls: seq<Call>): Table
    decreases |calls|
  {
    if calls == [] then table else RecordedAfter(Recorded(table, calls[0]), calls[1..])
  }

  /** The calls are served in the order of one non-decreasing clock, from `now` on. */
  predicate InTime(calls: seq<Call>, now: nat)
    decreases |calls|
  {
    calls == [] || (now <= calls[0].at && InTime(calls[1..], calls[0].at))
  }

  /** No touch meets an entry that has already lapsed. */
  predicate RespectsLeases(table: Table, calls: seq<Call>)
    decreases |calls|
  {
    calls == [] ||
    ((calls[0].Touch? && calls[0].key in table ==> IsLive(table, calls[0].key, calls[0].at))
     && RespectsLeases(Recorded(table, calls[0]), calls[1..]))
  }

  // ---------------------------------------------------------------- purging is invisible

  /** The stored table is the recorded one minus some entries that have lapsed by `now`. */
  ghost predicate Hides(stored: Table, recorded: Table, now: nat) {
    && (forall k :: k in stored ==> k in recorded && stored[k] == recorded[k])
    && (forall k :: k in recorded ==> k in stored || recorded[k].expiresAt <= now)
  }

  lemma HidesNothingLive(stored: Table, recorded: Table, now: nat, user: UserId, at: nat)
    requires Hides(stored, recorded, now) && now <= at
    ensures LiveRoutes(stored, user, at) == LiveRoutes(recorded, user, at)
  {
    assert LiveKeys(stored, user, at) == LiveKeys(recorded, user, at);
  }

  lemma HidesStep(stored: Table, recorded: Table, now: nat, call: Call)
    requires Hides(stored, recorded, now) && now <= call.at
    requires call.Touch? && call.key in recorded ==> IsLive(recorded, call.key, call.at)
    ensures Hides(Stored(stored, call), Recorded(recorded, call), call.at)
  {
  }

  lemma {:induction false} HiddenAnswers(stored: Table, recorded: Table, now: nat, calls: seq<Call>)
    requires Hides(stored, recorded, now) && InTime(calls, now) && RespectsLeases(recorded, calls)
    ensures Answers(stored, calls) == RecordedAnswers(recorded, calls)
    decreases |calls|
  {
    if calls != [] {
      HidesStep(stored, recorded, now, calls[0]);
      HiddenAnswers(Stored(stored, calls[0]), Recorded(recorded, calls[0]), calls[0].at, calls[1..]);
      if calls[0].Locate? {
        HidesNothingLive(stored, recorded, now, calls[0].user, calls[0].at);
      }
    }
  }

  /** On a history that respects leases every answer of the purging store is the set of live
      routes of the flat timed map that never purges. */
  lemma AnswersAreTheTimedMap(table: Table, now: nat, calls: seq<Call>)
    requires InTime(calls, now) && RespectsLeases(table, calls)
    ensures Answers(table, calls) == RecordedAnswers(table, calls)
  {
    HiddenAnswers(table, table, now, calls);
  }

  lemma {:induction false} RecordedSplit(table: Table, front: seq<Call>, back: seq<Call>)
    ensures RecordedAnswers(table, front + back) ==
            RecordedAnswers(table, front) + RecordedAnswers(RecordedAfter(table, front), back)
    ensures RecordedAfter(table, front + back) == RecordedAfter(RecordedAfter(table, front), back)
    decreases |front|
  {
    if front == [] {
      assert front + back == back;
    } else {
      var next := Recorded(table, front[0]);
      assert (front + back)[1..] == front[1..] + back && (front + back)[0] == front[0];
      RecordedSplit(next, front[1..], back);
      var first := if front[0].Locate? then [LiveRoutes(table, front[0].user, front[0].at)] else [];
      var middle, last := RecordedAnswers(next, front[1..]), RecordedAnswers(RecordedAfter(next, front[1..]), back);
      assert RecordedAnswers(table, front) == first + middle;
      assert RecordedAnswers(table, front + back) == first + (middle + last) == (first + middle) + last;
    }
  }

  lemma {:induction false} StillInTime(table: Table, now: nat, front: seq<Call>, lookup: Call, back: seq<Call>)
    requires lookup.Locate?
    requires InTime(front + [lookup] + back, now) && RespectsLeases(table, front + [lookup] + back)
    ensures InTime(front + back, now) && RespectsLeases(table, front + back)
    decreases |front|
  {
    var whole := front + [lookup] + back;
    if front == [] {
      assert whole[1..] == back && front + back == back;
    } else {
      assert whole[1..] == front[1..] + [lookup] + back;
      assert (front + back)[1..] == front[1..] + back;
      StillInTime(Recorded(table, front[0]), front[0].at, front[1..], lookup, back);
    }
  }

  /** Deleting one lookup from a history that respects leases deletes its answer and changes no
      other, earlier or later. */
  lemma DeletingALookupIsInvisible(table: Table, now: nat, front: seq<Call>, lookup: Call, back: seq<Call>)
    requires lookup.Locate?
    requires InTime(front + [lookup] + back, now) && RespectsLeases(table, front + [lookup] + back)
    ensures exists before, answer, after ::
              && Answers(table, front + [lookup] + back) == before + [answer] + after
              && Answers(table, front + back) == before + after
              && before == RecordedAnswers(table, front)
  {
    StillInTime(table, now, front, lookup, back);
    AnswersAreTheTimedMap(table, now, front + [lookup] + back);
    AnswersAreTheTimedMap(table, now, front + back);
    var there := RecordedAfter(table, front);
    RecordedSplit(table, front, back);
    RecordedSplit(table, front, [lookup]);
    RecordedSplit(table, front + [lookup], back);
    var before, after := RecordedAnswers(table, front), RecordedAnswers(there, back);
    var answer := LiveRoutes(there, lookup.user, lookup.at);
    assert RecordedAfter(there, [lookup]) == there;
    assert RecordedAnswers(there, [lookup]) == [answer];
    assert Answers(table, front + [lookup] + back) == before + [answer] + after;
    assert Answers(table, front + back) == before + after;
  }

  // ---------------------------------------------------------------- and visible exactly otherwise

  /** Whether an entry the purging store has lost shows in a later answer: it was touched, and is
      looked up while live, before it is registered anew, removed or purged again. */
  predicate Resurfaces(key: Key, expiresAt: nat, calls: seq<Call>)
    decreases |calls|
  {
    calls != [] &&
    match calls[0]
    case Register(route, _, _) => KeyOf(route) != key && Resurfaces(key, expiresAt, calls[1..])
    case Remove(k, _) => k != key && Resurfaces(key, expiresAt, calls[1..])
    case Touch(k, ttl, at) => Resurfaces(key, if k == key then at + ttl else expiresAt, calls[1..])
    case Locate(user, at) =>
      if user != key.user then Resurfaces(key, expiresAt, calls[1..]) else at < expiresAt
  }

  /** `fewer` is `table` without the keys `lost`. */
  ghost predicate Without(fewer: Table, table: Table, lost: set<Key>) {
    lost <= table.Keys && fewer == table - lost
  }

  /** The keys still lost after a call that none of them shows in. */
  function LostAfter(lost: set<Key>, call: Call): set<Key> {
    match call
    case Register(route, _, _) => lost - {KeyOf(route)}
    case Remove(key, _) => lost - {key}
    case Touch(_, _, _) => lost
    case Locate(user, _) => set k | k in lost && k.user != user
  }

  /** Whether one of the lost keys shows in this very answer. */
  predicate ShowsNow(table: Table, lost: set<Key>, call: Call) {
    call.Locate? && exists k :: k in lost && k.user == call.user && IsLive(table, k, call.at)
  }

  lemma FiledAfter(table: Table, call: Call)
    requires Filed(table)
    ensures Filed(Stored(table, call))
  {
  }

  lemma WithoutAfter(fewer: Table, table: Table, lost: set<Key>, call: Call)
    requires Without(fewer, table, lost) && !ShowsNow(table, lost, call)
    ensures Without(Stored(fewer, call), Stored(table, call), LostAfter(lost, call))
  {
    var a, b := Stored(fewer, call), Stored(table, call) - LostAfter(lost, call);
    assert forall k :: k in a <==> k in b;
  }

  /** An answer shows a lost key exactly when the answers differ. */
  lemma ShownIsDifferent(fewer: Table, table: Table, lost: set<Key>, user: UserId, at: nat)
    requires Filed(table) && Without(fewer, table, lost)
    ensures LiveRoutes(fewer, user, at) == LiveRoutes(table, user, at) <==>
            forall k :: k in lost && k.user == user ==> !IsLive(table, k, at)
  {
    if k :| k in lost && k.user == user && IsLive(table, k, at) {
      assert k in LiveKeys(table, user, at);
      assert table[k].route in LiveRoutes(table, user, at);
      forall other | other in LiveKeys(fewer, user, at)
        ensures fewer[other].route != table[k].route
      {
        assert KeyOf(table[other].route) == other;
        assert KeyOf(table[k].route) == k;
      }
    } else {
      assert LiveKeys(fewer, user, at) == LiveKeys(table, user, at);
    }
  }

  /** How a call that shows no lost key moves the question to the rest of the history. */
  lemma ResurfacesLater(table: Table, lost: set<Key>, calls: seq<Call>)
    requires calls != [] && lost <= table.Keys && !ShowsNow(table, lost, calls[0])
    ensures var table', lost' := Stored(table, calls[0]), LostAfter(lost, calls[0]);
            lost' <= table'.Keys &&
            ((exists k :: k in lost && Resurfaces(k, table[k].expiresAt, calls)) <==>
             (exists k :: k in lost' && Resurfaces(k, table'[k].expiresAt, calls[1..])))
  {
    var table', lost' := Stored(table, calls[0]), LostAfter(lost, calls[0]);
    forall k | k in lost
      ensures Resurfaces(k, table[k].expiresAt, calls) <==>
              k in lost' && Resurfaces(k, table'[k].expiresAt, calls[1..])
    {
    }
  }

  lemma {:induction false} LossIsSeenExactly(fewer: Table, table: Table, lost: set<Key>, calls: seq<Call>)
    requires Filed(table) && Without(fewer, table, lost)
    ensures Answers(fewer, calls) == Answers(table, calls) <==>
            forall k :: k in lost ==> !Resurfaces(k, table[k].expiresAt, calls)
    decreases |calls|
  {
    if calls != [] {
      var call, rest := calls[0], calls[1..];
      if call.Locate? {
        ShownIsDifferent(fewer, table, lost, call.user, call.at);
      }
      if ShowsNow(table, lost, call) {
        var k :| k in lost && k.user == call.user && IsLive(table, k, call.at);
        assert Resurfaces(k, table[k].expiresAt, calls);
        assert Answers(fewer, calls)[0] != Answers(table, calls)[0];
      } else {
        FiledAfter(table, call);
        WithoutAfter(fewer, table, lost, call);
        LossIsSeenExactly(Stored(fewer, call), Stored(table, call), LostAfter(lost, call), rest);
        ResurfacesLater(table, lost, calls);
        SameHead(fewer, table, calls);
      }
    }
  }

  lemma SameHead(fewer: Table, table: Table, calls: seq<Call>)
    requires calls != []
    requires calls[0].Locate? ==>
               LiveRoutes(fewer, calls[0].user, calls[0].at) == LiveRoutes(table, calls[0].user, calls[0].at)
    ensures Answers(fewer, calls) == Answers(table, calls) <==>
            Answers(Stored(fewer, calls[0]), calls[1..]) == Answers(Stored(table, calls[0]), calls[1..])
  {
    var head := if calls[0].Locate? then [LiveRoutes(table, calls[0].user, calls[0].at)] else [];
    var a, b := Answers(Stored(fewer, calls[0]), calls[1..]), Answers(Stored(table, calls[0]), calls[1..]);
    assert (head + a)[|head|..] == a && (head + b)[|head|..] == b;
  }

  /** For any later history, a lookup changes its answers exactly when an entry that had lapsed
      at the lookup resurfaces in it. */
  lemma LookupIsSeenExactly(table: Table, user: UserId, at: nat, calls: seq<Call>)
    requires Filed(table)
    ensures Answers(Stored(table, Locate(user, at)), calls) == Answers(table, calls) <==>
            forall k :: k in table && k.user == user && table[k].expiresAt <= at ==>
              !Resurfaces(k, table[k].expiresAt, calls)
  {
    var lost := set k | k in table && k.user == user && table[k].expiresAt <= at;
    assert Purged(table, user, at) == table - lost;
    LossIsSeenExactly(Purged(table, user, at), table, lost, calls);
  }

  /** A lookup just before a touch and another lookup changes what the latter answers exactly
      when the touched entry is stored and has lapsed. */
  lemma PurgeIsSeenExactly(table: Table, key: Key, ttl: nat, at: nat)
    requires Filed(table) && ttl > 0
    ensures Answers(Stored(table, Locate(key.user, at)), [Touch(key, ttl, at), Locate(key.user, at)]) ==
            Answers(table, [Touch(key, ttl, at), Locate(key.user, at)])
       <==> !(key in table && table[key].expiresAt <= at)
  {
    var calls := [Touch(key, ttl, at), Locate(key.user, at)];
    assert calls[1..] == [Locate(key.user, at)];
    LookupIsSeenExactly(table, key.user, at, calls);
    assert forall k, e :: Resurfaces(k, e, calls) <==>
             Resurfaces(k, if k == key then at + ttl else e, [Locate(key.user, at)]);
  }

  /** A lookup changes no answer of any later history exactly when no entry of its user has
      lapsed by then. */
  lemma LookupIsInvisibleExactly(table: Table, user: UserId, at: nat)
    requires Filed(table)
    ensures (forall calls :: InTime(calls, at) ==>
               Answers(Stored(table, Locate(user, at)), calls) == Answers(table, calls)) <==>
            forall k :: k in table && k.user == user ==> at < table[k].expiresAt
  {
    if k :| k in table && k.user == user && table[k].expiresAt <= at {
      PurgeIsSeenExactly(table, k, 1, at);
      assert InTime([Touch(k, 1, at), Locate(user, at)], at);
    } else {
      assert Purged(table, user, at) == table;
    }
  }

  // ---------------------------------------------------------------- inside a whole history

  function StoredAfter(table: Table, calls: seq<Call>): Table
    decreases |calls|
  {
    if calls == [] then table else StoredAfter(Stored(table, calls[0]), calls[1..])
  }

  lemma {:induction false} AnswersSplit(table: Table, front: seq<Call>, back: seq<Call>)
    requires Filed(table)
    ensures Answers(table, front + back) == Answers(table, front) + Answers(StoredAfter(table, front), back)
    ensures Filed(StoredAfter(table, front))
    decreases |front|
  {
    if front == [] {
      assert front + back == back;
    } else {
      var next := Stored(table, front[0]);
      var head := if front[0].Locate? then [LiveRoutes(table, front[0].user, front[0].at)] else [];
      assert (front + back)[1..] == front[1..] + back && (front + back)[0] == front[0];
      FiledAfter(table, front[0]);
      AnswersSplit(next, front[1..], back);
      var middle, last := Answers(next, front[1..]), Answers(StoredAfter(next, front[1..]), back);
      assert Answers(table, front + back) == head + (middle + last) == (head + middle) + last;
    }
  }

  lemma Spliced<T>(before: seq<T>, answer: T, after: seq<T>, without: seq<T>)
    ensures var all, n := before + ([answer] + after), |before|;
            n < |all| && (all[..n] + all[n + 1..] == before + without <==> after == without)
  {
    var all, n := before + ([answer] + after), |before|;
    assert all[..n] == before && all[n + 1..] == after;
    assert (before + after)[n..] == after && (before + without)[n..] == without;
  }

  /** Deleting a lookup anywhere in any history deletes its answer and changes no other exactly
      when no entry that had lapsed at the lookup resurfaces after it. */
  lemma DeletionIsSeenExactly(table: Table, front: seq<Call>, user: UserId, at: nat, back: seq<Call>)
    requires Filed(table)
    ensures var answers, n := Answers(table, front + [Locate(user, at)] + back), |Answers(table, front)|;
            && n < |answers|
            && var there := StoredAfter(table, front);
               (answers[..n] + answers[n + 1..] == Answers(table, front + back) <==>
                forall k :: k in there && k.user == user && there[k].expiresAt <= at ==>
                  !Resurfaces(k, there[k].expiresAt, back))
  {
    var there, lookup := StoredAfter(table, front), Locate(user, at);
    AnswersSplit(table, front, back);
    AnswersSplit(table, front, [lookup] + back);
    assert front + ([lookup] + back) == front + [lookup] + back;
    assert ([lookup] + back)[1..] == back;
    LookupIsSeenExactly(there, user, at, back);
    var after, without := Answers(Stored(there, lookup), back), Answers(there, back);
    assert Answers(there, [lookup] + back) == [LiveRoutes(there, user, at)] + after;
    Spliced(Answers(table, front), LiveRoutes(there, user, at), after, without);
  }
}
