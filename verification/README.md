# RustWing's in-memory core, modelled and proved in Dafny

RustWing keeps WebSocket sessions on a node and routes frames to users across nodes. This project
models its core and proves what the pieces guarantee together:

- a **session**: a closed flag, a bounded outbound queue and activity timestamps;
- a **registry** of two indexes, session id to session and user to set of session ids;
- a **presence store** of routes that expire and are purged lazily, in memory or in Redis;
- the **manager** that accepts, refreshes, reaps and unregisters sessions and delivers frames;
- the **socket task** that accepts a connection, serves it and unregisters it.

## How the model is laid out

Whole operations. `Identity`, `Protocol` (with `Clock`), `Session`, `Presence`, `Registry` and
`Manager` follow the source's objects. Each is a class whose methods are proved against functions on
plain values: a session state, a flat map from id to user, a flat timed table of routes.

Interleavings. `RegistryRaces` is a step relation over any number of socket tasks and reapers, in
which one step is one access to one shared structure. A task is the list of accesses it still has to
make. `RegistrySafety` proves what every interleaving keeps, `RegistryAgreement` when the two indexes
agree, `SinglePolicy` when the single policy holds and `RouteRaces` when a route names a registered
session; `RegistryWitnesses` holds runs in which each of these fails. `UserIndex` holds the accesses
to the reverse index, used by both layers, and `RegistryAlone` proves that the steps of one
operation, not interrupted, are the whole operation. `SessionRaces` does the same for one session's
queue.

Histories and clusters. `PresenceHistory` and `RedisPresence` speak of any sequence of presence calls,
`ClusterRuns` of any run of whole manager operations on many nodes with one store and one clock,
`ClusterStores` of the memory or Redis store that serves such a run, and `Routing` of any interleaving of sends, lookups, envelopes and deliveries.

## Where the code and what is said of it differ

The model follows the code.

- `rust-wing-core/src/manager.rs:282` and `rust-wing-core/tests/core.rs:127` say that the two indexes
  stay aligned. That holds when operations of one user do not overlap (`SerialisedUsersAgree`) and
  for overlapping inserts that replace nothing (`OverlappingInsertsAgree`). In general a reconnect
  that overlaps the old connection's removal can leave the new session registered but unknown under
  its user (`StalePruneStrandsAReconnect`, `StalePruneStrandsAStoredSession`). Exactly two stale steps
  do this (`StrandedExactly`), and a session is stranded exactly from such a step until a removal of
  it starts (`StrandedAlongRuns`). It is still removed in the end (`NothingLeaks`).
- `README.md:169` says that the single policy keeps one active session per user. Each node keeps its
  own (`SessionsAreHosts`, `TwoNodesKeepOneEach`). On one node two overlapping accepts can leave two
  sessions open for good (`ReplacementLeavesTwoOpen`). A step does this exactly when it stores a
  session that nobody is taking out while another one stays (`SecondStaysExactly`), which needs a
  stale step first (`NoStaleStepKeepsOne`).
- `rust-wing-core/src/manager.rs:104-105` publishes the route of an accepted session. A session
  displaced before that ends up closed and unregistered with a route that stays
  (`DisplacedSessionPublishesLate`), exactly as `LingersAlongRuns` states.
- `rust-wing-core/src/session.rs:172-174` describes closing as notifying the writer. The close frame
  needs room: a session closed because its queue is full gets none (`OverflowEmitsNothing`). With
  overlapping calls it need not be the last frame (`DataCanFollowClose`): it is certain to be exactly
  when no enqueue was past its closed check as it was emitted (`CloseStaysLastExactly`).
- `rust-wing-core/src/cluster.rs:171` describes a lookup as a read. It also purges, and a later
  history shows that exactly when an entry that had lapsed is touched in it and then looked up while
  live, before it is registered anew, removed or purged (`LookupIsSeenExactly`).
- `rust-wing-adapter/src/redis.rs:322` says that rounding up keeps a positive ttl from expiring at
  once. The cast to an i64 undoes this for longer ttls, exactly as `TtlSecondsCoverExactly` states.
- `rust-wing-core/src/session.rs:187-193` cuts the timeout to whole milliseconds, so a timeout below
  one millisecond makes every session inactive. `Silence` carries this into the lease bound.

With the default settings (`rust-wing-core/src/config.rs:10-14`) `LeaseBoundIsExact` says that each
node has to reap at least once in every 45 seconds for its sessions to keep their routes.

## Assumptions

- Presence and publish calls succeed.
- The tokio channel is a bounded FIFO; one map access or atomic access is one step. An iteration over
  a whole map returns sessions that were each present at some moment during it.
- The generated id, every clock reading and the order in which a hash map is iterated are arbitrary.
  There is one non-decreasing clock, counted in nanoseconds and read in milliseconds where the
  source does so.
- Node ids are distinct and a process generates fewer than 2^64 ids; `GeneratedIdsAreUnique` then
  makes session ids unique, which the other modules use. In `RegistryRaces` a session id has one user
  for the whole run.
- Only manager operations mark activity in `ClusterRuns`; marking a session directly does not refresh
  its route. A session is unregistered or touched through the manager of its own node.
- Queue capacity is positive, as the normalised configuration ensures (`rust-wing-core/src/config.rs:113-115`).
- Redis: a key exists strictly before its expiry instant, HSET creates a key without expiry, EXPIRE
  acts on an existing key and deletes it for a non-positive timeout, HDEL deletes a key with its last
  field, HVALS returns the fields of an existing key; Redis reads the same clock as its callers.

## Model

| member | source | states |
|---|---|---|
| Identity.DecimalRoundTrip | rust-wing-core/src/identity.rs:99 | The decimal text of a number, read back, is the number |
| Identity.DecimalIsShort | rust-wing-core/src/identity.rs:99 | The decimal text starts with a zero if and only if the number is zero, which prints as one digit |
| Identity.DecimalIsCanonical | rust-wing-core/src/identity.rs:99 | Every non-empty digit string without a leading zero is the decimal text of its value |
| Identity.ParseUndoesPrint | rust-wing-core/src/identity.rs:88-100 | Reading a printed id from the right gives back node, millis and sequence for every node text, dashes and digits included |
| Identity.SessionCounter.Generate | rust-wing-core/src/identity.rs:90-100 | The k-th id of a process is the node text, the millis and k in decimal joined by dashes, for every k below 2^64; the counter then wraps |
| Identity.IdsCollideExactly | rust-wing-core/src/identity.rs:90-100 | Two generated ids are equal if and only if node, millisecond and wrapped counter value all are |
| Identity.GeneratedIdsAreUnique | rust-wing-core/src/identity.rs:6 | Ids of distinct nodes never collide, nor do two of the first 2^64 ids of one process |
| Clock.InactiveMeaning | rust-wing-core/src/session.rs:187-193 | For any reading, a session is inactive if and only if more than the timeout has passed since, a started millisecond counted whole; a timeout beyond the i64 range counts as the largest i64 |
| Clock.SilenceMeaning | rust-wing-core/src/session.rs:189 | The silence a check forgives is the timeout cut to whole milliseconds |
| Clock.ActiveIsRecent | rust-wing-core/src/session.rs:187-193 | A session found active was active less than the truncated timeout ago in nanoseconds; below one millisecond of timeout none is found active; the clamps never change the comparison for past readings |
| Clock.InactiveStays | rust-wing-core/src/session.rs:187-193 | Waiting never makes an inactive session active |
| RegistrySafety.InvHolds | rust-wing-core/src/manager.rs:88-128 | Every interleaving of socket tasks, reapers, purges and failed sends keeps the invariant: an id in a bucket is being removed by nobody, a stored session still owes its own removal, an empty bucket has its prune pending |
| RegistrySafety.ReverseIndexNeverDangles | rust-wing-core/src/manager.rs:349-406 | At every step an id in a bucket belongs to that user and is stored or being stored, a bucket holds at most one id under replacement, and an empty bucket is just about to be pruned |
| RegistrySafety.NothingLeaks | rust-wing-axum/src/lib.rs:63-114 | Once all tasks have finished, under either policy and with any overlap, both indexes and the node's routes are empty and every session ever opened is closed |
| RegistryAgreement.StrandedExactly | rust-wing-core/src/manager.rs:349-406 | A step leaves a session registered, out of its bucket and removed by nobody if and only if it stores a session that lost its entry meanwhile or prunes a bucket refilled with a stored session |
| RegistryAgreement.IdleUsersAgreeExactly | rust-wing-core/src/manager.rs:349-406 | In any run, the indexes of a user with no operation in flight agree if and only if none of the user's sessions is stranded |
| RegistryAgreement.SerialisedUsersAgree | rust-wing-core/src/manager.rs:280-287 | If operations of one user never overlap, an idle user's bucket is exactly its ids in the primary index, whatever other users do |
| RegistryAgreement.OverlappingInsertsAgree | rust-wing-core/tests/core.rs:126-159 | Overlapping accepts that replace nothing, same-user ones included, leave the indexes in agreement once the user's inserts are done |
| RegistryAgreement.StrandedAlongRuns | rust-wing-core/src/manager.rs:349-406 | In any run a session is stranded if and only if a stale step stranded it and no removal of it has started since |
| RegistryWitnesses.StalePruneStrandsAReconnect | rust-wing-core/src/manager.rs:391-402 | For any two sessions of one user and either policy there is a run in which a stale prune empties the bucket before the newer one is stored, which ends stranded with nothing in flight |
| RegistryWitnesses.StalePruneStrandsAStoredSession | rust-wing-core/src/manager.rs:399-402 | The same with the newer session already stored, so that the prune itself strands it |
| SinglePolicy.SecondStaysExactly | rust-wing-core/src/manager.rs:375-381 | From a state in which a user has at most one registered session that nobody is taking out, a step gives a second if and only if it stores one that nobody is taking out while another stays |
| SinglePolicy.OneStaysAlongRuns | rust-wing-core/src/manager.rs:349-406 | A user has at most one such session at every point of a run if and only if no step of the run stores one beside another |
| SinglePolicy.NoStaleStepKeepsOne | rust-wing-core/src/manager.rs:349-406 | Under the single policy and any overlap, a run without a stale step never gives a user a second such session, and an idle user has at most one registered session |
| SinglePolicy.IdlePairsExactly | rust-wing-core/src/manager.rs:349-406 | Under the single policy an idle user has two registered sessions if and only if a stranded one stands beside another |
| RegistryWitnesses.ReplacementLeavesTwoOpen | rust-wing-core/src/manager.rs:373-382 | For any two sessions of one user under the single policy there is a run of overlapping accepts that leaves both registered and open with nothing in flight |
| RouteRaces.LingersExactly | rust-wing-core/src/manager.rs:97-105 | A step leaves a route of an unregistered session that no operation is about to remove if and only if it publishes that route after the session's removal has passed |
| RouteRaces.LingersAlongRuns | rust-wing-core/src/manager.rs:97-123 | In any run such a route exists if and only if it was published late, is still stored, and the session's own task is still serving |
| RegistryWitnesses.DisplacedSessionPublishesLate | rust-wing-core/src/manager.rs:97-105 | For any two sessions of one user under the single policy there is a run that leaves the older one closed and unregistered with its route |
| RegistryAlone.InsertAlone | rust-wing-core/src/manager.rs:349-383 | The steps of one uninterrupted insert, from indexes that agree with a flat map, keep them in agreement with the flat map's insert and collect exactly the displaced sessions, each once |
| RegistryAlone.RemovalAlone | rust-wing-core/src/manager.rs:111-128 | The steps of one uninterrupted unregister take the session out of the flat map, drop its route and close it, and the indexes stay in agreement |
| RegistryAlone.AcceptAlone | rust-wing-core/src/manager.rs:88-108 | The steps of one uninterrupted accept do what the manager's accept does: the flat map's insert, the displaced sessions closed and without routes, the new route published |
| RegistryAlone.ReapAlone | rust-wing-core/src/manager.rs:161-174 | The steps of one uninterrupted reap unregister and close exactly the sessions it has seen |
| Sessions.EnqueueMeaning | rust-wing-core/src/session.rs:150-170 | An enqueue is accepted if and only if the session is open, has a receiver and has room; it then appends exactly the frame, and otherwise only leaves the session closed |
| Sessions.Session.constructor | rust-wing-core/src/session.rs:75-97 | A new session is open with an empty queue, its activity set to now and no heartbeat |
| Sessions.Session.MarkActive | rust-wing-core/src/session.rs:127-131 | The activity reading becomes the millisecond of now and nothing else changes |
| Sessions.Session.MarkHeartbeat | rust-wing-core/src/session.rs:134-147 | Activity and heartbeat become the millisecond of now; the client time changes only when given; nothing else does |
| Sessions.Session.Enqueue | rust-wing-core/src/session.rs:150-170 | The whole new state and outcome, the closing of a full or disconnected session included |
| Sessions.Session.Close | rust-wing-core/src/session.rs:173-179 | The first close raises the flag and appends a close frame if there is a receiver and room; any later one changes nothing |
| Sessions.Session.Receive | rust-wing-core/src/session.rs:47 | The receiver takes frames from the front |
| Sessions.CloseIsFinal | rust-wing-core/src/session.rs:172-179 | Over any sequence of whole operations the emitted close frame stays the last frame ever accepted, and a closed session accepts nothing more |
| Sessions.OverflowEmitsNothing | rust-wing-core/src/session.rs:159-163 | A session closed by overflow keeps its queue and gets no close frame, whatever happens next |
| SessionRaces.QueueConservesFrames | rust-wing-core/src/session.rs:150-179 | In every interleaving received frames followed by queued ones are the accepted ones in order, the queue fits its capacity and at most one close frame is ever emitted |
| SessionRaces.ClosedNeverReverts | rust-wing-core/src/session.rs:173-184 | Between any two states of a run a raised flag stays raised and nothing accepted or received is taken back |
| SessionRaces.LateDataIsBounded | rust-wing-core/src/session.rs:150-179 | In every run the data frames accepted after the step that raised the flag come from the enqueues then past their closed check and are at most as many |
| SessionRaces.FewFollowTheCloseFrame | rust-wing-core/src/session.rs:173-179 | In every state the frames behind the close frame number at most the enqueues past their check when the flag was raised |
| SessionRaces.FollowersExactly | rust-wing-core/src/session.rs:150-179 | From the step that emits the close frame, a continuation in which exactly n more frames are accepted exists if and only if n is at most the number of enqueues then past their check, at any capacity |
| SessionRaces.CloseStaysLastExactly | rust-wing-core/src/session.rs:172-179 | The emitted close frame stays the last accepted frame in every continuation if and only if no enqueue was past its closed check |
| SessionRaces.DataCanFollowClose | rust-wing-core/src/session.rs:150-179 | For any frame, reason and positive capacity there is a run in which the receiver gets the data frame after the close frame |
| SessionRaces.AloneIsAtomic | rust-wing-core/src/session.rs:150-179 | The steps of one enqueue or close, run without interruption, are the whole operation |
| Presence.MemoryPresenceStore.Register | rust-wing-core/src/cluster.rs:120-135 | Inserts or replaces exactly one route with its new expiry |
| Presence.MemoryPresenceStore.Remove | rust-wing-core/src/cluster.rs:138-153 | Removes exactly one route and keeps no empty bucket |
| Presence.MemoryPresenceStore.Touch | rust-wing-core/src/cluster.rs:156-169 | Extends exactly one stored route, lapsed or not, and never creates one |
| Presence.MemoryPresenceStore.Locate | rust-wing-core/src/cluster.rs:172-192 | Returns each live route of the user once and no other, and removes exactly the user's lapsed entries |
| Presence.RepresentationIsUnique | rust-wing-adapter/src/memory.rs:36-108 | The flat timed table determines the nested map, so no bucket is ever stored empty |
| Presence.RetainedAreLive | rust-wing-adapter/src/memory.rs:98-107 | Retaining a bucket's live entries keeps as many as the user has live keys in the flat table |
| PresenceHistory.AnswersAreTheTimedMap | rust-wing-core/src/cluster.rs:120-192 | If no touch meets a lapsed entry, every answer is the set of live routes of a timed map that is never purged |
| PresenceHistory.DeletingALookupIsInvisible | rust-wing-adapter/src/memory.rs:36-108 | Deleting one lookup from such a history removes its answer and changes no other |
| PresenceHistory.LookupIsSeenExactly | rust-wing-core/src/cluster.rs:156-192 | For any table and any later history, a lookup changes the later answers if and only if an entry that had lapsed by then resurfaces: touched, and looked up while live before it is registered, removed or purged |
| PresenceHistory.DeletionIsSeenExactly | rust-wing-core/src/cluster.rs:120-192 | Deleting a lookup anywhere in any history leaves all other answers the same if and only if no such entry resurfaces after it |
| PresenceHistory.LookupIsInvisibleExactly | rust-wing-core/src/cluster.rs:171-192 | A lookup changes no answer of any later history if and only if no entry of its user has lapsed by then |
| PresenceHistory.PurgeIsSeenExactly | rust-wing-core/src/cluster.rs:156-192 | In particular a lookup just before a touch and a lookup changes the last answer if and only if the touched entry is stored and lapsed |
| RedisPresence.TtlSecondsCoverExactly | rust-wing-adapter/src/redis.rs:321-325 | The seconds sent to Redis are positive and cover the ttl if and only if it is at most the i64 bound in seconds |
| RedisPresence.TtlSecondsRoundUp | rust-wing-adapter/src/redis.rs:321-325 | Within that bound the seconds are the ttl rounded up, and one for a zero ttl |
| RedisPresence.RegisteredForExactly | rust-wing-adapter/src/redis.rs:192-207 | A route just registered is found until the rounded-up seconds have passed and no longer |
| RedisPresence.RedisForgets | rust-wing-adapter/src/redis.rs:192-246 | Over whole histories with one ttl, a user's lookup is empty once nothing was registered or touched for it for the ttl and one second |
| RedisPresence.LocatedBetween | rust-wing-adapter/src/redis.rs:232-246 | While the stores correspond, a Redis lookup returns at least the live routes and at most those registered and not removed |
| RedisPresence.RedisCoversMemory | rust-wing-adapter/src/redis.rs:192-246 | Over whole histories every answer of the memory store is included in the Redis answer, and that in the routes registered and not removed since |
| Registries.InsertAgrees | rust-wing-core/src/manager.rs:349-383 | The reverse-index update of an insert matches the flat map, and displaces exactly the user's sessions under replacement |
| Registries.RemoveAgrees | rust-wing-core/src/manager.rs:386-406 | Discarding an id and pruning when told to is removing the id from the flat map, with no empty bucket left |
| Registries.BucketsAddUp | rust-wing-core/src/manager.rs:270-273 | The bucket sizes add up to the number of registered sessions |
| Registries.IndexesRefineFlatMap | rust-wing-core/src/manager.rs:349-406 | After any sequence of whole inserts and removes the buckets are the flat map read by user, none is empty and the sizes add up |
| Registries.Registry.Insert | rust-wing-core/src/manager.rs:349-383 | Both indexes become the flat map with the user's displaced sessions replaced by the new one; the result is exactly the displaced handles, each once |
| Registries.Registry.Remove | rust-wing-core/src/manager.rs:386-406 | Exactly this session leaves both indexes |
| Registries.Registry.SessionsForUser | rust-wing-core/src/manager.rs:409-425 | Exactly the user's registered handles, each once |
| Registries.Registry.AllSessions | rust-wing-core/src/manager.rs:428-433 | Exactly the registered handles, each once |
| Registries.Registry.Count | rust-wing-core/src/manager.rs:270-273 | The size of the flat map, which is also the sum of the bucket sizes |
| Manager.RustWing.Accept | rust-wing-core/src/manager.rs:88-108 | The new session is registered with its route; displaced sessions end closed as replaced, unregistered and without routes; no other session, entry or route changes |
| Manager.RustWing.Unregister | rust-wing-core/src/manager.rs:111-128 | Exactly this session leaves the registry and presence, and ends closed |
| Manager.RustWing.Touch | rust-wing-core/src/manager.rs:131-137 | Activity is marked, so that no check within the timeout finds the session inactive, and, when clustered, exactly this route is extended |
| Manager.RustWing.HandleHeartbeat | rust-wing-core/src/manager.rs:140-158 | The heartbeat is recorded, so that no check within the timeout finds the session inactive; the route is extended; the acknowledged client time is the one given, or else the old one |
| Manager.RustWing.RegisterPresence | rust-wing-core/src/manager.rs:300-322 | When clustered, this node's route for the session is stored until now plus the ttl; otherwise nothing changes |
| Manager.RustWing.TouchPresence | rust-wing-core/src/manager.rs:325-344 | When clustered, the stored route is extended; otherwise nothing changes |
| Manager.RustWing.FindInactive | rust-wing-core/src/manager.rs:165-168 | With the clock advancing during the filter, every session silent for more than the timeout at its start is found and every one found is so at its end |
| Manager.RustWing.ReapInactiveSessions | rust-wing-core/src/manager.rs:161-174 | Exactly the sessions found are unregistered, lose their routes and end closed; the result is their number; all others keep entry, queue and route |
| Manager.DeliverAll | rust-wing-core/src/manager.rs:225-232 | The count is the number of sessions that were open, connected and had room; exactly their queues grow by the frame and the other targets end closed |
| Manager.RustWing.BroadcastLocal | rust-wing-core/src/manager.rs:222-233 | The same over all registered sessions, and nothing else changes |
| Manager.RustWing.SendLocal | rust-wing-core/src/manager.rs:236-247 | The same over exactly the user's registered sessions |
| Manager.RustWing.HandleClusterEnvelope | rust-wing-core/src/manager.rs:276-278 | A received envelope is delivered as its original frame to the user's local sessions and published to nobody |
| Manager.CollectRemote | rust-wing-core/src/manager.rs:202-207 | A node is collected if and only if it owns one of the routes and is not this node |
| Manager.RemoteNodesMeaning | rust-wing-core/src/manager.rs:199-207 | The remote nodes of a user are exactly the other owners of its unexpired entries |
| Manager.RustWing.SendRemote | rust-wing-core/src/manager.rs:199-218 | A node gets an envelope, and just one, if and only if it is another one and owns an unexpired entry of the user; every envelope carries the user, frame kind and payload |
| Manager.PublishAll | rust-wing-core/src/manager.rs:209-218 | One envelope to each node, none twice, none elsewhere; the count is their number |
| Manager.RustWing.SendToUser | rust-wing-core/src/manager.rs:177-219 | If some local session takes the frame nothing is published; otherwise, when clustered, a node gets an envelope with the frame, and just one, if and only if it is another one and owns an unexpired entry of the user, and the result counts them |
| ClusterRuns.AcceptIsTheManagers | rust-wing-core/src/manager.rs:88-108 | A cluster accept does to its node what the registry's insert does and nothing to other nodes |
| ClusterRuns.NodesAreIsolated | rust-wing-core/src/manager.rs:88-174 | In every run an operation of one node changes no other node's registry or closed flags, gives it no route and takes none from it but lapsed ones |
| ClusterRuns.PunctualNodesKeepLeases | rust-wing-core/src/manager.rs:131-174 | A node that reaps within every window of ttl minus timeout keeps a stored, unexpired route for each registered session at every point of the run |
| ClusterRuns.LeaseBoundIsExact | rust-wing-core/src/session.rs:187-193 | Reaping at least every gap keeps every lease in every run if and only if gap plus the timeout cut to whole milliseconds (one nanosecond below one millisecond) fits in the ttl; for whole-millisecond timeouts, gap plus timeout |
| ClusterRuns.LateReapLosesALease | rust-wing-core/src/cluster.rs:172-192 | For any longer gap there is a punctual run that reaches a registered session without a live route |
| ClusterRuns.NoStrayRoutes | rust-wing-core/src/manager.rs:300-322 | On every run a stored route names a registered session of its user and the session's own node |
| ClusterRuns.PresenceAgrees | rust-wing-core/src/cluster.rs:120-192 | On punctual runs a lookup finds exactly one route per session of the user on any node, each with the right owner |
| ClusterRuns.OneSessionPerUser | rust-wing-core/src/manager.rs:88-128 | Under the single policy a user's only registered session on a node is the newest accepted there; every accepted session that is not registered is closed |
| ClusterRuns.SessionsAreHosts | rust-wing-core/src/manager.rs:88-128 | Under the single policy a user has exactly as many registered sessions in the cluster as nodes that host one |
| ClusterRuns.TwoNodesKeepOneEach | rust-wing-core/src/manager.rs:280-287 | Under either policy, for any two nodes there is a run that leaves a user with an open session on each |
| ClusterRuns.LateUnregisterIsIdle | rust-wing-core/src/manager.rs:111-128 | Unregistering a displaced or already removed session changes nothing |
| ClusterRuns.ReapsExactlySilent | rust-wing-core/src/manager.rs:161-174 | In every run a reap takes a registered session out if and only if it is its node's and more than the timeout has passed since every accept, touch and heartbeat of it; it then ends closed and without a route |
| ClusterRuns.MarksAreTheSessions | rust-wing-core/src/session.rs:127-147 | The activity a run records for an accept, touch or heartbeat is the reading the session stores |
| ClusterStores.TableIsTheStores | rust-wing-core/src/manager.rs:88-174 | Every event of a run changes the route table by exactly the presence calls the manager makes for it |
| ClusterStores.RedisAgrees | rust-wing-adapter/src/redis.rs:192-246 | On runs with punctual nodes served by Redis, a lookup finds exactly one route per session of the user on any node, the same as the memory store, for every ttl within the i64 bound |
| Routing.LookupIsFollowed | rust-wing-core/src/manager.rs:199-218 | A finished send that looked the user up has published its frame to a node if and only if that node is another one and owns a route found, and its result is the number of envelopes it published |
| Routing.LocalResultIsExact | rust-wing-core/src/manager.rs:183-197 | A finished send without a lookup has published nothing, returns the number of sessions that took the frame, and stopped because one did or clustering is off |
| Routing.AtMostOnce | rust-wing-core/src/manager.rs:177-219 | In every interleaved run one send enqueues its frame at most once per session and never both on its own node and on another |
| Routing.EnvelopesAreSound | rust-wing-core/src/cluster.rs:36-50 | Every published envelope was put out by its own send's publishing step and by nothing else, goes to a node other than the sender, unpacks to the sent frame for the sent user, and is the only one of its send to that node |
| Routing.MessagesAreBounded | rust-wing-core/src/manager.rs:199-218 | One send publishes at most one envelope per other node of the cluster |

## Left out

- WebSocket I/O, the Axum upgrade, message conversion and application handlers.
- Redis networking, Pub/Sub streams, key and channel names, configuration validation.
- JSON encoding of messages, routes and envelopes.
- The store and publisher bridges, configuration defaults and builders, error texts: single-branch facts.
- `get_session`, `list_user_sessions` and session snapshots: plain reads.
- Failing presence and publish calls: a failed route registration leaves an accepted session registered, and a failed route removal leaves an unregistered session open (`rust-wing-core/src/manager.rs:105`, `rust-wing-core/src/manager.rs:118-126`).
- Cancellation of a socket task between two of its steps.
- Scheduler fairness and progress: all statements are about safety and about states in which tasks have finished.
- Memory orderings, map shards and lock poisoning.
- The channel's two ends are one object with the session; a receiver that is dropped keeps its unread frames in the queue.
- RedisPresence.TtlSecondsCoverExactly: does not model the overflow panic of a debug build at the largest duration; the sum wraps as in a release build.
- Manager.RustWing.HandleHeartbeat: does not model the two configured intervals that the acknowledgement copies, because they are constants.
- Registries.Registry.Insert: does not model inserting an id that is already registered, because generated ids are unique.
- Manager.RustWing.Accept: takes the generated id as a parameter that is not yet registered, because generated ids are unique.
- RegistrySafety.NothingLeaks: tracks sessions and routes by id only, because each id has one user and one node for the whole run.
- RegistryAgreement.SerialisedUsersAgree: has the premise that same-user operations do not overlap, because without it the statement fails (StalePruneStrandsAReconnect).
- ClusterRuns.NoStrayRoutes: is about whole operations; overlapping ones can break it, exactly as RouteRaces.LingersAlongRuns states.
- ClusterRuns.OneSessionPerUser: is about whole operations; overlapping ones can break it, exactly as SinglePolicy.SecondStaysExactly states.
- ClusterRuns.PresenceAgrees: is about whole operations at one clock reading each; overlapping operations are in the registry and session layers.
- RedisPresence.RedisCoversMemory: is about one constant ttl and histories without a touch of a lapsed entry, because the user-level expiry of Redis can be shortened by a smaller ttl; ClusterStores.RedisAgrees shows that punctual runs meet this.
- Routing.AtMostOnce: leaves registry contents, lookup answers and enqueue outcomes arbitrary at every step, and assumes that a published envelope is received at most once.
