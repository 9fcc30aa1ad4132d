/** The atomic accesses to the reverse index; each runs under one map guard. */
module UserIndexes {
  import opened Identity

  type UserIndex = map<UserId, set<SessionId>>

  function Bucket(byUser: UserIndex, user: UserId): set<SessionId> {
    if user in byUser then byUser[user] else {}
  }

  /** Adds a new id to the user's bucket; under replacement the bucket is cleared first. */
  function Reserve(byUser: UserIndex, user: UserId, id: SessionId, replace: bool): UserIndex {
    byUser[user := (if replace then {} else Bucket(byUser, user)) + {id}]
  }

  /** The ids a reservation displaces. */
  function Displaced(byUser: UserIndex, user: UserId, replace: bool): set<SessionId> {
    if replace then Bucket(byUser, user) else {}
  }

  /** Takes one id out of the user's bucket, leaving the bucket in place even when empty. */
  function Discard(byUser: UserIndex, user: UserId, id: SessionId): UserIndex {
    if user in byUser then byUser[user := byUser[user] - {id}] else byUser
  }

  /** What a removal learns under the guard: whether the bucket is now to be pruned. */
  predicate ShouldPrune(byUser: UserIndex, user: UserId, id: SessionId) {
    user in byUser && byUser[user] - {id} == {}
  }

  /** Drops the user's bucket, whatever it holds by now. */
  function Prune(byUser: UserIndex, user: UserId): UserIndex {
    byUser - {user}
  }
}
