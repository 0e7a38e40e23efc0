# GameMesh: a verified model of its shared-state protocols

GameMesh's services meet in Postgres, Redis, an event bus and an in-memory WebSocket hub. This
project models the code that coordinates through that state and proves what holds in every run.

| part | files | what is proved |
|---|---|---|
| Transactional outbox and relay | `OutboxTable`, `OutboxProtocol`, `OutboxTrace`, `OutboxDrain`, `OutboxRefinement`, `PublishPool` | safety of any number of relay replicas cut off anywhere, every row and every event on the bus traced to the write that asked for it, accounting for duplicates, a backlog that drains, a bounded worker pool that never deadlocks and loses nothing |
| Matchmaking | `ZSet`, `Matcher`, `MatchProtocol`, `MatchTrace`, `MatchService`, `MatchRefinement` | the greedy matcher is optimal, a tick leaves nothing to match, a match is announced only for a saved room of two players who joined within the window under every interleaving and failure, and exactly when a fresh player stays queued |
| Presence | `Presence`, `PresenceService`, `PresenceTrace`, `PresenceRace`, `PresenceFleet`, `PresenceRefinement` | counts as best suffixes, bulk heartbeat against single ones, a bus whose events count up to the gauge and chain to the stored states, a gauge that drifts by expiries only, states that are the last ones asked for, the check-then-script race |
| WebSocket hub and session sweep | `Hub`, `HubRuns`, `Sweep` | three indexes that agree, no send on or double close of a channel, exact fan-out into bounded buffers, every change announced once, all between the locked sections of any readers, an in-place sweep that closes exactly the right connections |
| Session cache | `SessionCache`, `SessionRaces`, `SessionRefinement` | staleness bounded by the lifetime for the protocol and for every history of the cache, exactly when a delete is final, an invisible janitor |
| Leaderboard | `Leaderboard` | pages tile the ranking, rank and position agree, what an update can move |
| Per-IP limiter | `RateLimiter` | exactly when forgetting idle buckets is invisible, and the rate bound |

`Collections.dfy` holds the shared `Option`, `Distinct` and `Elements`. Objects the source updates in
place are classes whose methods are tied to functions of their old state; the protocols are step
systems over those same functions. The refinement modules prove that a relay batch, published by any
schedule of the worker pool, a match tick, joins and leaves, presence calls and every history of the session
cache, as the classes perform them, are runs of the step systems, so the theorems about runs cover them. The
trace modules tie the states of a run to the steps it took, the only thing a caller knows of it.

## How the outside world appears

- Identifiers are naturals, numbered in the order Redis compares members. Payloads and event kinds are opaque.
- Clocks are parameters. Presence deadlines are whole seconds, as EXPIRE takes them.
- Postgres gives atomic transactions and `FOR UPDATE SKIP LOCKED`; Redis commands and Lua scripts are atomic.
- A pipeline may apply any part of its commands and may lose its reply. A publish is acknowledged,
  delivered without acknowledgement, or refused. Keys may expire at any time.
- The bus is an append-only log. Ghost state in the step systems (who wrote a copy, which batch, which room
  was saved) only records history.

## Where the code and what one might expect differ

- The relay sends a row's creation time, not the producer's timestamp, and the outbox and the bus each inject their trace context into the carrier (`OutboxTrace.RelayKeepsEventIff` gives the exact condition).
- A relay batch that lost its transaction may go on publishing, so the earlier of two copies need not be the one to answer for (`OutboxRefinement.LateCopyLands`); of any two copies one is (`OutboxProtocol.DuplicatesAccountedFor`).
- A batch may report an error and no dead letters although it took effect: the reply to its commit was lost (`OutboxTable.ErrorMeansUntouchedIff`, `OutboxTable.CountIsMovedIff` say exactly when).
- `publishAll` with no workers reports nothing; `withDefaults` is what rules that out (`PublishPool.EveryRowReportedIff`).
- `Top` with a count below one wraps around to the end of the board (`Leaderboard.TopIsPrefixIff`).
- A bulk heartbeat announces a missing player once per listing, single heartbeats once (`PresenceService.BulkAnnounces`), and it leaves the timestamps of live records alone.
- An OFFLINE record that exists can reach IN_QUEUE in a race; a missing key cannot (`PresenceRace.RaceHappens`, `PresenceRace.NoStepFabricates`).
- A presence key need not mean a connection: a state write can leave one with a count of zero (`PresenceFleet.KeyWithoutConnection`).
- Surplus or overtaking disconnects make the connection count differ from connects minus disconnects (`Presence.CountIsNetIff`, `PresenceFleet.OvertakingLeavesAPhantom`).
- A player who re-joins between an eviction's read and its removal is evicted although fresh (`MatchProtocol.RejoinIsEvicted`; `MatchProtocol.FreshStayQueuedIff` says exactly when not).
- The queue's sorted set and hash can disagree after a partial pipeline (`MatchService.Service.Enqueue` says when).
- Deleting a session is not final while a lookup or save overlaps it (`SessionRaces.DeleteIsFinalIff`, `SessionRaces.DeleteRaceHappens`).
- Forgetting idle limiters shows when ten minutes do not refill a burst (`RateLimiter.EvictionInvisibleIff`).

## Model

| member | source | states |
|---|---|---|
| OutboxTable.Store.Insert | internal/outbox/store.go:76-93 | an id already present is refused and changes nothing; otherwise exactly one row appears, with the kind, topic, payload, carrier and time given, PENDING and untried, and the attempt bounds survive |
| OutboxTable.Store.Poll | internal/outbox/store.go:112-122 | the result is the oldest pending rows nobody else locks, oldest first, as many as there are up to the limit; below the limit none of them is missing |
| OutboxTable.Store.RunBatch | internal/outbox/store.go:112-154 | succeeds exactly when no fault is reached; then, and also when only the commit reply is lost, every published row gets its status and time, every failed one an attempt and at the limit its dead-letter status and message, and nothing else changes; otherwise the table is untouched; the dead-letter count is the failed rows now FAILED on success and 0 on any error |
| OutboxTable.MarkedOutcome | internal/outbox/store.go:156-213 | a committed batch keeps attempts below the limit while PENDING and equal to it when FAILED, moves exactly the published and the newly dead-lettered rows out of PENDING, counts exactly the rows it dead-lettered itself, and pays one owed attempt per row |
| OutboxTable.ErrorMeansUntouchedIff | internal/outbox/store.go:148-154 | an error means an untouched table exactly when it was not the lost reply of a commit over polled rows |
| OutboxTable.CountIsMovedIff | internal/outbox/store.go:148-213 | the dead-letter count of a batch that took effect is the rows it moved to FAILED exactly when the reply arrived or no failed row was on its last attempt |
| OutboxTable.SplitsAsSets | internal/outbox/relay.go:156-200 | a report that accounts for distinct rows as a multiset splits them into two disjoint sets |
| OutboxTable.BatchPays | internal/outbox/relay.go:132-151 | whatever the bus answers, a batch lowers the owed attempts by at least its rows and never adds pending rows |
| OutboxTable.PendingFalls | internal/outbox/store.go:156-224 | the number of pending rows the gauge reads falls by exactly the rows a batch published and dead-lettered |
| OutboxTable.RelayConfig.WithDefaults | internal/outbox/relay.go:50-63 | a batch size or worker count that is not positive becomes 100 or 4, positive ones are kept, the attempt limit is never defaulted |
| OutboxTable.CatchUp | internal/outbox/relay.go:90-123 | with dead-lettering on, whatever the bus answers, whatever other replicas hold and wherever the first polls fail, back-to-back polling ends once the faults are over, having handled no more rows than attempts were owed, and with less than one batch pending and free if its last poll succeeded |
| OutboxTable.ProcessBatch | internal/outbox/relay.go:132-151 | a batch that took effect, reply or not, lowers the owed attempts by at least its rows; one that succeeds short of the limit leaves less than a batch pending and free |
| OutboxProtocol.StepInv | internal/outbox/store.go:112-154 | every insert, claim, publish, commit and abort of any replica, and every publish that outlives its transaction, keeps the whole invariant |
| OutboxProtocol.StepExtends | internal/outbox/store.go:156-213 | no step undoes a row, its content, a PUBLISHED or FAILED status, a committed write or anything on the bus |
| OutboxProtocol.RunKeeps | internal/outbox/store.go:112-213 | both of these over whole runs from any state that satisfies the invariant |
| OutboxProtocol.RelaySafety | internal/outbox/relay.go:132-245 | in every run: open batches share no row, a row is PUBLISHED exactly when a committed batch has an acknowledged copy of it on the bus, and everything on the bus is what the writer of a committed row asked for: the event's own id whenever it parsed, topic, kind, payload, every carrier entry but the trace context, and the time of the write |
| OutboxProtocol.DuplicatesAccountedFor | internal/outbox/relay.go:107-245 | of any two copies of one event one was unacknowledged or its batch aborted, before or after it was sent, and both are the same event but for their trace context |
| OutboxTrace.RowsAsAsked | internal/outbox/publisher.go:48-69 | in every run each row is what one of the run's inserts asked for, made on its own or by a transaction that then committed: the event's own id whenever it parsed and a fresh one only otherwise, its kind, topic, payload, carrier with the injected span, and time |
| OutboxTrace.NoLostWrites | internal/player/repository.go:61-78 | every transaction that committed in a run handed in an event before its commit, and that event, under its own id and with its topic and content, is pending, dead-lettered at the limit, or on the bus |
| OutboxTrace.BusIsDeliveries | internal/outbox/relay.go:202-245 | the bus of a run holds one copy for each publish call that was not refused, in order, with the span of that call and acknowledged exactly if the call was |
| OutboxTrace.RelayKeepsEventIff | internal/outbox/publisher.go:48-69 | in every run consumers see the producer's own event exactly when its id parsed, its timestamp was the time of the write and neither injected span changed its carrier |
| OutboxTrace.ClaimsOldest | internal/outbox/store.go:112-122 | in every run a replica claims only pending rows no other open batch holds, and no such row it leaves behind was asked for earlier |
| OutboxTrace.MarksAreTrue | internal/outbox/store.go:156-213 | in every run a row has a publish time exactly when it is PUBLISHED, and it is the time of some commit; it has the dead-letter message exactly when it is FAILED |
| OutboxDrain.QuietStep | internal/outbox/store.go:172-213 | owed attempts plus rows handled never grow while nothing is inserted or aborted |
| OutboxDrain.WorkStep | internal/outbox/relay.go:132-200 | every claim, publish and commit uses up work that the owed attempts pay for |
| OutboxDrain.RelayCanMove | internal/outbox/store.go:112-154 | while a row is pending some replica can claim, publish or commit |
| OutboxDrain.BacklogDrains | internal/outbox/relay.go:90-151 | whatever the bus answers, a run without inserts and aborts makes at most three relay moves per owed attempt and one per late publish, and one that leaves no move leaves nothing pending |
| OutboxRefinement.CommittedBatchIsRun | internal/outbox/store.go:112-154 | a batch the store commits is the run claim, one publish per row in any order, commit; it ends in exactly the table the store wrote, with exactly the delivered copies added to the bus in that order |
| OutboxRefinement.AbortedBatchIsRun | internal/outbox/store.go:148-154 | a batch the store rolls back is a run that leaves the table and the writers alone, however many rows were published before the transaction went and however many after, and adds exactly their delivered copies to the bus |
| OutboxRefinement.PoolTells | internal/outbox/relay.go:156-200 | a complete pool run over distinct rows calls each once and reports published exactly those whose call succeeded |
| OutboxRefinement.PooledBatchIsRun | internal/outbox/relay.go:132-200 | a poll published by any schedule of the pool and committed with the pool's own report is a run of the protocol, with nothing assumed of the report |
| OutboxRefinement.LateCopyLands | internal/outbox/relay.go:107-176 | a run in which the earlier of two copies is acknowledged and committed and the later one comes from a batch that had lost its transaction |
| OutboxRefinement.InsertIsStep | internal/outbox/store.go:76-93 | a write on its own is enabled exactly when its id is free and adds exactly the row the store's insert adds |
| PublishPool.StepConserves | internal/outbox/relay.go:156-200 | each row handed over is with one worker or was tried, and each call that succeeded, or failed, is with one worker or collected on that side, under every step |
| PublishPool.StepProgress | internal/outbox/relay.go:156-200 | every step of every goroutine lowers one measure |
| PublishPool.NoDeadlock | internal/outbox/relay.go:156-200 | until the results channel is closed some goroutine can move |
| PublishPool.PublishAllCorrect | internal/outbox/relay.go:156-200 | every schedule ends within 4n+2 steps; with a worker, each row is tried by exactly one call, a row is reported published exactly when that call succeeded and failed otherwise, and every goroutine has returned |
| PublishPool.EveryRowReportedIff | internal/outbox/relay.go:50-63 | every complete run reports every row exactly when there is a worker or no row |
| PublishPool.FlightBounded | internal/outbox/relay.go:153-176 | under every schedule at most as many rows as configured workers are in a publish call or await collection at any moment |
| PublishPool.FlightReached | internal/outbox/relay.go:163-176 | the bound is met: as many rows as there are workers, or rows, can be in flight at once |
| ZSet.SortedIsSorted | internal/matchmaking/queue.go:118-128 | a sorted-set listing has each member once, by score and then member |
| ZSet.SortedUnique | internal/matchmaking/queue.go:118-128 | that listing is the only one |
| ZSet.PositionCounts | internal/leaderboard/store.go:73-86 | a member's position is the number of members below it |
| Matcher.Pair | internal/matchmaking/matcher.go:9-23 | the loop forms the greedy pairs, and on a rank-sorted list no set of disjoint within-window pairs is larger |
| Matcher.PairsAt | internal/matchmaking/matcher.go:9-23 | the pairs are adjacent tickets at positions that never overlap |
| Matcher.TakenOrWaiting | internal/matchmaking/matcher.go:9-23 | each ticket is in a pair or waits, never both |
| Matcher.PairsWithinWindow | internal/matchmaking/matcher.go:9-23 | each pair's rank difference is between 0 and the window |
| Matcher.Exchange | internal/matchmaking/matcher.go:6-8 | any matching can give up two close first tickets at the cost of at most one pair |
| Matcher.GreedyIsOptimal | internal/matchmaking/matcher.go:6-8 | for every rank-sorted list, window and disjoint within-window matching, the greedy one is at least as large |
| Matcher.WaitingApart | internal/matchmaking/matcher.go:9-23 | any two tickets left over are more than the window apart |
| Matcher.WaitingIsStable | internal/matchmaking/matcher.go:9-23 | pairing the leftovers again forms no pair |
| MatchProtocol.TicketsSorted | internal/matchmaking/queue.go:118-128 | a snapshot lists distinct queued players in rank order with their ranks |
| MatchProtocol.TicketsAreLowest | internal/matchmaking/queue.go:118-128 | a snapshot lists as many players as the limit allows, by rank and then by member, and nobody left out comes before one listed |
| MatchProtocol.BudgetStep | internal/matchmaking/service.go:169-224 | every step keeps each player's announcements, pending rooms and queue entry within the times they entered the queue |
| MatchProtocol.OnceStep | internal/matchmaking/service.go:108-157 | every step keeps each tick's announcements and pending rooms free of a repeated player |
| MatchProtocol.SavedStep | internal/matchmaking/service.go:195-222 | every step keeps dequeued and announced rooms among the fully saved ones |
| MatchProtocol.KeptStep | internal/matchmaking/rooms.go:54-69 | every step keeps each room counted as saved in Redis under its id, or expired since |
| MatchProtocol.StepInv | internal/matchmaking/service.go:85-157 | all of these together, for joins, leaves, expiries and every step of a tick |
| MatchProtocol.MatchSafety | internal/matchmaking/service.go:85-224 | in every interleaving and failure pattern a player is named at most as often as they entered the queue, never twice in one tick, and only for a room that is in Redis or has expired since and whose players were dequeued with success |
| MatchProtocol.DequeuedHaveRooms | internal/matchmaking/rooms.go:54-69 | a player a tick takes out of the queue is in a room that is in Redis or has expired since |
| MatchProtocol.FreshStayQueuedIff | internal/matchmaking/queue.go:133-150 | a player who joined at t stays queued through every run in which they do not leave, are not dequeued for a room and no cutoff passes t, exactly if no eviction that read them as stale is still to remove them |
| MatchProtocol.RejoinIsEvicted | internal/matchmaking/queue.go:133-150 | a run in which a player who re-joined after the read is evicted by the removal |
| MatchTrace.AnnouncedAreFair | internal/matchmaking/service.go:136-224 | in every run an announced room has two different players whose ranks are within the window and who each joined with that rank, and nobody is announced more often than joins put them into the queue |
| MatchTrace.AnnouncedAfterRemoval | internal/matchmaking/service.go:195-222 | in every run an announced room was stored by a successful save and after that its removal applied on both sides and was confirmed; it is still stored unless its key expired |
| MatchTrace.ExpiryTakesRoom | internal/matchmaking/rooms.go:54-69 | an expiry takes the one room whose key it is, and a stop abandons the tick without touching anything else |
| MatchService.Service.Enqueue | internal/matchmaking/queue.go:54-60 | error exactly when a command or the reply is lost; equal key sets stay equal exactly when both or neither command applied or the player was queued |
| MatchService.Service.Remove | internal/matchmaking/queue.go:63-73 | not-queued exactly when the reply arrives and the player was absent; the hash entry goes only after a reply |
| MatchService.Service.RemoveBatch | internal/matchmaking/queue.go:89-98 | removes exactly the listed players from each side that applied; an empty list succeeds |
| MatchService.Service.Snapshot | internal/matchmaking/queue.go:118-128 | the lowest-ranked members in order of rank and member, as many as the limit allows, with their ranks; nobody left out ranks before one listed |
| MatchService.Service.EvictStale | internal/matchmaking/queue.go:133-150 | lists, each once, exactly the players whose join time is before the cutoff or does not parse, and takes exactly them from each side that applied; succeeds exactly when the read did and nothing was stale or the removal did |
| MatchService.Service.SaveMany | internal/matchmaking/rooms.go:54-69 | no error means every room was stored |
| MatchService.Service.CreateRooms | internal/matchmaking/service.go:169-224 | players leave the queue only if every room was saved, and events go out only if the removal succeeded too |
| MatchService.Service.PairQueue | internal/matchmaking/service.go:136-157 | the whole state after snapshot, pairing and room creation, for every fault |
| MatchService.Service.MatchOnce | internal/matchmaking/service.go:108-157 | the state after a tick for every fault: whoever joined since the cutoff and is in no room keeps both entries, a stale player is gone from each side that applied; and if the queue fits the batch and the pairs were taken out, another tick would pair nobody |
| MatchService.RemainderIsWaiting | internal/matchmaking/service.go:136-149 | removing the paired players makes the next snapshot exactly the waiting list |
| MatchService.TickLeavesNoPair | internal/matchmaking/service.go:136-149 | a successful tick over the whole queue leaves a queue that makes no room |
| MatchRefinement.AnnouncesRun | internal/matchmaking/service.go:210-222 | announcing k rooms in order is a run that adds exactly the delivered ones to the bus |
| MatchRefinement.TickIsRun | internal/matchmaking/service.go:108-224 | for every fault, a failed snapshot included, an undisturbed tick with fresh room ids is a run that ends in the queue, hash, stored rooms and announcements `MatchOnce` promises |
| MatchRefinement.EnqueueIsStep | internal/matchmaking/queue.go:54-60 | a join is one step that leaves the queue and the hash as `Enqueue` promises |
| MatchRefinement.LeaveIsStep | internal/matchmaking/queue.go:63-73 | so is a leave, as `Remove` promises |
| Presence.SetStateTakesEffect | internal/presence/repository.go:118-131 | the script writes the target exactly when the key exists or the target needs no connection, and never changes the count |
| Presence.CountIsBestSuffix | internal/presence/repository.go:55-98 | after any connects and disconnects the count is the largest net of any suffix, and the key exists, ONLINE, exactly when that is positive |
| Presence.CountIsNetIff | internal/presence/repository.go:71-98 | the count is connects minus disconnects exactly when no prefix has more disconnects |
| PresenceService.BulkEqualsSingles | internal/presence/repository.go:200-258 | for any ids the bulk call leaves the same keys, states, counts and deadlines as single heartbeats, and identical records where none existed |
| PresenceService.BulkAnnounces | internal/presence/service.go:93-121 | it also logs the same changes, moves the gauge alike and puts the same events on the bus exactly when no missing id is listed twice |
| PresenceService.BeatManyAt | internal/presence/repository.go:200-258 | what a bulk call leaves at each key: live records with only a new deadline, missing ones re-created |
| PresenceService.DoAccounts | internal/presence/service.go:35-161 | every operation, with or without its reply, every bulk heartbeat, whole or cut short, and every expiry keeps the change log chained, the gauge equal to the announced changes and the bus equal to the events it took |
| PresenceService.GaugeAccountsForEveryState | internal/presence/service.go:187-228 | in every run each player's changes chain from OFFLINE to the current state, the gauge misses exactly the unannounced changes, and the bus holds the event of each change it took, in order |
| PresenceService.GaugeDriftIsExpiries | internal/presence/service.go:187-228 | if every reply that may hide a state change arrives, gauge minus players not OFFLINE is the number of expiries of such players |
| PresenceService.AcceptedSetStateIsLegal | internal/presence/service.go:126-161 | undisturbed, an accepted call ends in its target, a refused one changes nothing, and no OFFLINE player becomes engaged |
| PresenceTrace.GaugeCountsEvents | internal/presence/service.go:187-228 | in every run an event is of kind offline exactly when its state is OFFLINE and online exactly when its previous one was, and the gauge is the online events less the offline events, up to those the bus dropped |
| PresenceTrace.EventsChain | internal/presence/service.go:187-228 | when no reply or event is lost and nothing expires, each event starts where the player's last one ended, OFFLINE at first, and the last one gives the stored state |
| PresenceTrace.StateIsLastSet | internal/presence/repository.go:68-131 | in every run a live key's state is the target of the last state call let through since the key was created, ONLINE if there was none, and ONLINE again after a connect over a stored OFFLINE |
| PresenceService.Service.PublishTransition | internal/presence/service.go:187-228 | an unchanged state is silent; otherwise the gauge moves only across OFFLINE, and exactly if the bus takes it one event is added, of kind offline for a player now OFFLINE, online for one who was, changed otherwise, with both states, the count and the time |
| PresenceService.Service.RunMutation | internal/presence/repository.go:142-157 | the key is written and its deadline set whether or not the reply arrives; only a reply is announced |
| PresenceService.Service.ConnectPlayer | internal/presence/service.go:35-47 | a missing key becomes an ONLINE record with one connection, a live one gets one connection more, a new stamp and lifetime and keeps its state unless that was OFFLINE; only a player who was OFFLINE is announced |
| PresenceService.Service.DisconnectPlayer | internal/presence/service.go:51-66 | with more than one connection the record loses one and keeps its state, otherwise the key goes; only a player who was not OFFLINE and whose key went is announced |
| PresenceService.Service.HeartbeatPlayer | internal/presence/service.go:71-87 | a live record is stamped and lives a lifetime longer, a missing one comes back ONLINE with one connection and is announced |
| PresenceService.Service.SetPlayerState | internal/presence/service.go:126-161 | accepted exactly when the state is known and does not engage an absent player; then the key has that state, its count and, unless it was 0, its last-seen time kept, and a changed state is announced with the right kind; otherwise nothing changes |
| PresenceService.Service.ExpireAll | internal/presence/repository.go:205-228 | pass one refreshes exactly the listed live keys and returns the missing ids in order |
| PresenceService.Service.HealAll | internal/presence/repository.go:233-258 | pass two re-creates exactly the missing keys |
| PresenceService.Service.HeartbeatMany | internal/presence/service.go:93-121 | success exactly when no pass that ran failed; then listed keys live a lifetime longer, missing ones are back ONLINE and announced once per listing as far as the bus takes it, others are left alone; a failed first pass shows the renewals that applied, a failed second one the first missing players it reached; on failure nothing is announced or counted |
| PresenceRace.NoStepFabricates | internal/presence/repository.go:118-131 | no step of any replica takes a missing key to IN_QUEUE or IN_MATCH |
| PresenceRace.EngagedOnlyAfterReturning | internal/presence/service.go:126-161 | in any interleaving a missing player is engaged only after the key was re-created unengaged |
| PresenceRace.OfflineToEngagedIsARace | internal/presence/service.go:126-161 | a script engages an OFFLINE player exactly when the key exists, and then the check had read another state |
| PresenceRace.RaceHappens | internal/presence/service.go:126-161 | a concrete run in which that happens |
| PresenceFleet.CountTracksConnections | internal/wsgateway/hub.go:63-110 | with each client's notices in order, and any state writes and heartbeats of live keys between them, the count is the connections announced and not withdrawn, and the sum of local connections once all notices arrived; a key is there exactly when the count is positive or a state write made it and nobody connected since |
| PresenceFleet.KeyWithoutConnection | internal/presence/repository.go:118-131 | a state write on a missing key leaves a key with a count of zero |
| PresenceFleet.OvertakingLeavesAPhantom | internal/presence/repository.go:84-98 | a disconnect that overtakes its connect leaves a count of one with nobody connected |
| PresenceRefinement.CallIsRaceRun | internal/presence/service.go:35-161 | each undisturbed call of the service is a run among replicas that leaves the same records, a state call as its check and then its script |
| PresenceRefinement.FleetStepIsCall | internal/presence/repository.go:68-131 | the fleet's deliveries, heartbeats and state writes leave the records the service leaves |
| Hub.Client.TrySend | internal/wsgateway/client.go:57-63 | a buffer below its capacity of 64 gains the message at its end, a full one is left as it is; only an open channel is sent on |
| Hub.Hub.Register | internal/wsgateway/hub.go:63-77 | the indexes stay consistent with exactly one more client, and one connect notice goes out |
| Hub.Hub.BroadcastToRoom | internal/wsgateway/hub.go:190-196 | exactly the live clients in the room are offered the message, once each |
| Hub.Hub.BroadcastAll | internal/wsgateway/hub.go:199-205 | exactly the live clients, once each |
| Hub.Hub.SendToPlayer | internal/wsgateway/hub.go:208-214 | exactly the player's live clients, once each |
| Hub.Hub.EnterRoom | internal/wsgateway/hub.go:164-170 | the locked part of joining keeps the indexes consistent with one more membership |
| Hub.Hub.ExitRoom | internal/wsgateway/hub.go:176-184 | the locked part of leaving keeps the indexes consistent, with no empty room, whether or not the client was in it |
| Hub.Hub.Join | internal/wsgateway/hub.go:163-173 | with nothing between its two parts, everyone in the room, the newcomer included, is told once |
| Hub.Hub.Leave | internal/wsgateway/hub.go:175-187 | with nothing between its two parts, everyone left in the room is told once |
| Hub.Hub.Detach | internal/wsgateway/hub.go:79-98 | the client leaves every index, its channel is closed once, and the rooms that still have members are returned |
| Hub.Hub.Unregister | internal/wsgateway/hub.go:79-110 | with nothing between its parts, each remaining client is told once per shared room; an unregistered client is left alone, and the disconnect notice goes out either way |
| Hub.Hub.ConnectedPlayers | internal/wsgateway/hub.go:272-280 | each player with a live connection once, and nobody else |
| HubRuns.RunScript | internal/wsgateway/client.go:70-100 | any interleaving of any readers' locked sections and fan-outs never sends on or closes a closed channel, keeps the indexes consistent, leaves exactly the departed closed, offers each client each message once per fan-out addressed to it at that moment, and leaves in its buffer the first 64 of those messages in the order they were sent |
| HubRuns.ToldOrOwed | internal/wsgateway/hub.go:79-187 | in every such run each join, leave and peopled room left is announced exactly once or still owed by its reader |
| HubRuns.MovesAreTold | internal/wsgateway/hub.go:79-187 | in every such run a reader has told of a room as often as it entered it, and as often as it left it or went while others stayed, but for what it is about to tell |
| HubRuns.OnlyLiveAddressed | internal/wsgateway/hub.go:190-214 | every fan-out addresses only clients live at that moment |
| Sweep.CloseExpired | internal/wsgateway/sweep.go:48-56 | filtering in place leaves the unexpired connections in order and tells each expired one once |
| Sweep.CheckBatch | internal/wsgateway/sweep.go:60-76 | a failed lookup closes nobody; otherwise exactly those whose session is gone |
| Sweep.CheckSessions | internal/wsgateway/sweep.go:58-78 | a connection is closed exactly when every lookup up to its batch succeeded and its own did not find it |
| Sweep.SweepSessions | internal/wsgateway/sweep.go:38-78 | every connection past its expiry is closed once as expired; one without or before it is closed once as revoked exactly when the lookups up to its batch succeeded and its own did not find it, so exactly when its session is gone if all lookups agree; nobody else is touched |
| SessionCache.ExistsMany | internal/player/session.go:50-64 | a verdict per id in order, or none at all when the round trip fails |
| SessionCache.CachedStore.Save | internal/player/session.go:111-117 | the store has the session unless it refused; a confirmed save is served as valid for exactly the lifetime from now on, a save whose reply was lost is an error that leaves the cache alone |
| SessionCache.CachedStore.Delete | internal/player/session.go:121-124 | afterwards no time serves that session from the cache, whether the store applied, lost its reply or refused; other sessions are served as before |
| SessionCache.CachedStore.Exists | internal/player/session.go:128-140 | a fresh verdict is served unchanged; otherwise the store's answer is returned and then served for exactly the lifetime from now on, and an error is never cached |
| SessionCache.CachedStore.Janitor | internal/player/session.go:171-188 | exactly the expired entries go |
| SessionCache.JanitorInvisible | internal/player/session.go:111-188 | over any history of lookups, saves, deletes and outside changes, where what a lookup caches follows from its own miss, sweeping at any times changes no answer |
| SessionRaces.StalenessBounded | internal/player/session.go:111-161 | in every interleaving, lookups that missed before another call filled the cache included, each answer was the store's truth at an instant no older than the lifetime plus the time a call may take between its store step and its cache step |
| SessionRaces.DeleteIsFinalIff | internal/player/session.go:121-140 | after a delete nobody is told the session exists on older evidence exactly when, as it reached the store, the cache did not serve it and no call was about to |
| SessionRaces.LoneDeleteIsFinal | internal/player/session.go:121-124 | a delete with no overlapping lookup or save of that session is final, whatever else happens between its eviction and its store delete, and the next lookup must ask the store |
| SessionRaces.DeleteRaceHappens | internal/player/session.go:121-140 | a run in which a lookup that asked before the delete caches and serves that the session exists after it |
| SessionRefinement.HistoryIsRun | internal/player/session.go:111-188 | every history of the cached store, outside changes and sweeps included, is a run of the concurrent protocol with the same cache, the same store and the same verdicts at the same times |
| SessionRefinement.VerdictsAreRecent | internal/player/session.go:66-140 | every verdict of every history was the store's truth at a time no more than the lifetime before it was given |
| Leaderboard.Store.RangeDesc | internal/leaderboard/store.go:88-102 | the entries of the board from one index to the other, negative ones counting from its end, ranks counted from the requested start |
| Leaderboard.Store.Top | internal/leaderboard/store.go:55-57 | for a positive count, that many entries from the head of the board |
| Leaderboard.Store.Page | internal/leaderboard/store.go:60-70 | for a sound offset and limit exactly that window of the board of the first round trip, and the size of the board of the second, which fits it if nobody interfered |
| Leaderboard.Store.Rank | internal/leaderboard/store.go:73-86 | not ranked exactly for players off the board, an error exactly for those who left between the two round trips, else the first one's rank with the second one's score, which the board lists exactly if that score did not change |
| Leaderboard.PagesCoverBoard | internal/leaderboard/store.go:60-102 | consecutive pages of any size concatenate to the whole board, each player once at the rank `Rank` reports |
| Leaderboard.BoardInOrder | internal/leaderboard/store.go:88-102 | the board lists each player once with their score and 1-based rank, highest score first and among equals the later member first |
| Leaderboard.RankIsPosition | internal/leaderboard/store.go:73-86 | a player's rank is their position on the board |
| Leaderboard.TopIsPrefixIff | internal/leaderboard/store.go:55-57 | the result is the first max(n, 0) entries exactly when the count n is positive or too negative to wrap into the board |
| Leaderboard.UpdateMovesOthersByOne | internal/leaderboard/store.go:44-52 | an update reorders nobody else and moves anyone's rank by at most one, downwards exactly when the updated player passed them |
| RateLimiter.IpLimiter.Handle | pkg/middleware/middleware.go:245-293 | a probe is never limited; any other request is decided by its client's bucket, new clients starting full, and marks the client seen (`RateLimiter.Volley` and `RateLimiter.RateBounded` say what the buckets allow) |
| RateLimiter.IpLimiter.Janitor | pkg/middleware/middleware.go:257-267 | exactly the entries unseen for over ten minutes go |
| RateLimiter.EvictionInvisible | pkg/middleware/middleware.go:257-293 | if ten minutes refill a burst, cleaning at any times changes no decision of any history |
| RateLimiter.EvictionShows | pkg/middleware/middleware.go:257-293 | otherwise a history exists whose decisions it changes |
| RateLimiter.EvictionInvisibleIff | pkg/middleware/middleware.go:257-293 | so it is invisible exactly when ten minutes refill a burst |
| RateLimiter.Volley | pkg/middleware/middleware.go:271-293 | k simultaneous requests all pass exactly when k tokens are there, and then cost k |
| RateLimiter.RateBounded | pkg/middleware/middleware.go:271-293 | cleaning included, a client is allowed at most burst + rps * T requests in any span T |

## Left out

- HTTP handlers, routers, the API gateway, health probes, JWT, bcrypt, JSON and UUID generation: plumbing over libraries.
- The NATS and Redis Pub/Sub clients: delivery is decided in the broker; the bus is a log with fallible publishes.
- Tracing, logging and metrics other than the online gauge and the heartbeat counter.
- The relay's timers, backoff and poll timeout: when a poll happens is not modelled, only what it does.
- Hub shutdown (`CloseAll`), `CloseSession`, the bridge's event dispatch and reads such as `GetMany`, `Contains` and `Size`: they would only add easy members.
- Real sockets, ping timers and close frames: a close is recorded as a request with its reason; both reasons carry code 1008 of section 7.4.1 of RFC 6455.
- Hub locking inside a section: each locked section is one step, and so is each fan-out under the read lock, so two fan-outs are not interleaved client by client.
- The write pump: send buffers are filled and never drained, so a full buffer drops more than in the hub; what is offered does not depend on it.
- Hub.Hub.Join: states the undisturbed call; what may happen between its locked part and its broadcast is in `HubRuns.RunScript` and `HubRuns.ToldOrOwed`.
- Hub.Hub.Leave: states the undisturbed call, likewise.
- Hub.Hub.Unregister: states the undisturbed call, likewise.
- Redis errors on the leaderboard, which the store only passes on.
- RateLimiter.IpLimiter.Handle: the lookup and the token read one clock value, where the middleware reads the clock twice.
- Floating point: scores are integers and rates reals; NaN, rounding, `rate.Inf` and overflow of offset plus limit are not modelled.
- Sub-second presence lifetimes, which the store truncates to whole seconds.
- RateLimiter.RateBounded: assumes that ten minutes refill a burst, because without that a forgotten client starts full again (`RateLimiter.EvictionShows`).
- RateLimiter.EvictionInvisibleIff: negative rates are excluded.
- PresenceFleet.CountTracksConnections: expiry and re-creation by heartbeat are excluded, as they reset the count.
- OutboxTable.CatchUp: other replicas hold rows but do not change the table during the loop; their changes are in `OutboxProtocol`.
