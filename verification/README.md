# Learning.EventStore and Learning.MessageQueue: a verified model

Two protocols with real state make up this library, and both are modelled here.

**The event-sourced store.** An aggregate is an in-memory fold over an append-only log of events. Four layers must
agree with "replay the whole log": the session and repository with their version check, the SQL and Redis event
stores, the repository that shares cached aggregates, and the repository that restores from snapshots.

**The reliable message queue.** A publish pushes a message to every registered subscriber under one conditional
Redis transaction. A consumer pops from the published list into the processing list, calls its handler, and writes a
dead letter on failure. A recovery pass moves stale processing entries to the dead letters, and a retry pass walks
the dead letters by index while deleting from them, with backoff and expiry.

The model has two kinds of module.

- *Classes* carry the fields the C# classes mutate (`AggregateRoot`, `Session`, `Repository`, `SqlEventStore`,
  `RedisEventStore`, `CacheRepository`, `SnapshotRepository`, `DefaultSnapshotStrategy`, `MessageQueueRepository`,
  `RedisEventSubscriber`, `RetryableSubscription`, `RedisMessageQueue`). Their methods have the loops and branches of
  the originals and are proved against functions on values. Faults of the environment (a throwing insert, publish,
  commit, Redis call or handler, a lost transaction race, a concurrent flush, a late registration, the clock) are
  parameters.
- *Protocols* (`OptimisticConcurrency`, `CommitProtocol`, `SharedCache`, `RedisStoreProtocol`, `SnapshotRuns`,
  `SnapshotTails`, `CachedRuns`, `DeliveryProtocol`, `CatchUpProtocol`, `PublishProtocol`, `RetryRaces`, `Backoff`)
  are step machines. A step is one Redis or SQL transaction, or the code between two awaits; a step that is not
  enabled changes nothing, so a theorem about `Run(steps)` for every sequence `steps` is a theorem about every
  interleaving of any number of participants, stopped at any point. Some of the methods, and the functions they are
  proved against, are shown to be undisturbed runs of these machines: the queue's in `DeliveryRuns`, the retry pass in
  `RetryRaces.UndisturbedIsPass`, the commit in `CommitProtocol.TogetherAsInOrder`, the calls of `CachedRuns` in
  `CachedRuns.CallsAreCalls`, and the SQL save, the Redis save, the cached get and save, the catch-up and the publish
  in the `…IsARun` lemmas.

`Apply` is an arbitrary deterministic function of state and payload (`Behaviour.apply`). Redis lists are sequences
whose left end comes first.

## What the code does not do

Where the obvious claim is false of the code, the model keeps the code and says exactly when the claim holds.

- `RedisEventStore.SaveAsync` stores only the first event of a batch: it returns from inside its loop
  (`RedisStore.RedisEventStore.SaveAsync`).
- The list length is read outside the `try`, so a throw there leaves the hash entry behind; this is the one way in
  which a failed Redis save leaves a trace (`RedisStoreProtocol.OutcomeIsExact`).
- The Redis push is conditional on the length of the list, not on versions, so two writers that loaded the same log
  can both return (`RedisRaces.RacingWritersShareAVersion`). List positions and versions stay in step throughout a run
  of racing saves exactly when every push carries the next version and every take-back of a failed publish finds its
  commit id at the right end (`RedisRaces.AlwaysIndexedIff`), and while they do no two saves of one version both return
  (`RedisRaces.IndexedHasOneWinner`). After a step that is not orderly in this sense every load of the aggregate throws
  (`RedisRaces.LoadsIffOrderly`).
- Such a take-back needs no two writers of one version: a second writer can load the first one's event before its
  publish fails and push the next version, and the take-back then leaves a log that starts at version 2
  (`RedisRaces.TakeBackLeavesGap`).
- A cached get on an aggregate with unsaved changes applies the events it missed after them. The answer is in step
  with the log for every behaviour exactly when the two payload lists commute (`CachedRuns.GetInStepIff`).
- A get that finds no events caches a null, and the next get throws (`CachedRuns.CachedNullThrowsOnce`).
- A get of the Redis store reads the list first and the events later. It throws exactly when the push of a commit id it
  read has been taken back and the event deleted by then (`RedisStoreProtocol.GetThrowsIff`).
- A snapshot is stored even when the save beside it fails. Whatever the log holds by then, a load through it never
  throws; it skips as many events past the version the save had loaded as the save had, and it is right exactly when
  those and the ones after them lead to the same state (`Snapshots.SnapshotRightIff`): for a state that records its
  payloads, exactly when the log carries the save's payloads right there (`Snapshots.RecordedSnapshotRightIff`). So a
  save refused because another session stored as many events first leaves a load that has the right version, passes the
  next version check, and holds the refused events in place of the stored ones (`Snapshots.RefusedSaveLoadsWrong`).
- A load that meets a snapshot whose save has not stored its events yet goes on past a gap
  (`SnapshotRuns.LoadAheadLeavesGap`).
- A snapshot write overwrites whatever is stored, so of two overlapping saves the earlier one can write last. With the
  default strategy at interval k no multiple of k lies past the stored snapshot exactly when it has overwritten none of
  a later interval (`SnapshotTails.TailIsShortIff`); otherwise a load can replay k events
  (`SnapshotTails.OverlappingWritesBreakBound`).
- A flush in the middle of the snapshot decision hides an interval boundary exactly when every boundary the save
  crosses lies beyond the event at which the loop was cut short (`SnapshotStrategy.EarlyFlushHidesBoundary`).
- A dead-letter write that throws loses its message exactly when nobody has dead-lettered, handled or expired it by the
  time the `finally` block removes it, as the stale mover or a retry pass may have
  (`DeliveryProtocol.ThrowingDeadLetterLosesIff`); a message nobody holds then stays lost (`DeliveryProtocol.LossIsFinal`).
  Nothing else loses a message (`DeliveryProtocol.NothingIsLost`).
- A retry pass that expires a letter passes over the one behind it. It looks at every letter exactly when none but
  the last is due to expire by its turn, on the retry hashes as the pass has made them by then
  (`Retries.AllExaminedIffInTurn`). With distinct ids that can be told when the pass begins (`Retries.AllExaminedIff`).
  With a shared id it cannot: a failure of one letter puts the other, too old as it is, into backoff, and every letter
  is looked at (`Retries.SharedIdHidesExpiry`).
- Letters pushed during a retry pass shift the indices it goes by, so that it looks at a letter twice and not at another
  (`RetryRaces.PushRepeatsLook`): no letter more often than once more for every push (`RetryRaces.LooksAtMost`), and no
  more letters missed than were pushed, or than expired (`RetryRaces.UnlookedAtMost`).
- The retry hash is keyed by message type and id, without the application or the payload, so letters that share an id
  share their backoff (`Backoff.SharedIdForgetsFailures`).
- The check of a letter and the record of its failure are two steps. The gap before a failure is the policy's exactly
  when no other pass recorded a failure of the id, or deleted a letter with it, in between (`Backoff.GapIff`); two passes
  that check a letter together leave no gap at all (`Backoff.OverlapLeavesNoGap`).

- A publish with a capacity of zero or less waits for ever, unless nobody is registered
  (`Publishing.RedisMessageQueue.PublishAsync`).

## Model

| member | source | states |
|---|---|---|
| Aggregates.AggregateRoot.ApplyChange | src/Learning.EventStore/Domain/AggregateRoot.cs:68-75 | the payload reaches the state and the event joins the uncommitted changes; id and version stay |
| Aggregates.AggregateRoot.FlushUncommitedChanges | src/Learning.EventStore/Domain/AggregateRoot.cs:23-49 | succeeds if and only if no event lacks an id while the aggregate lacks one; then it returns the changes in order, each with its own id or else the aggregate's, numbered on from the version, adds their count to the version and clears them; a throw leaves the events before the faulty one numbered and all of them pending |
| Aggregates.AggregateRoot.LoadFromHistory | src/Learning.EventStore/Domain/AggregateRoot.cs:51-66 | applies events until the first whose version is not the next one, throwing there with the earlier ones applied |
| Aggregates.LoadIffContiguous | src/Learning.EventStore/Domain/AggregateRoot.cs:51-66 | a load returns if and only if the history continues the version without gap, and then state, version and id are those of the whole history |
| Aggregates.LoadStopsAtGap | src/Learning.EventStore/Domain/AggregateRoot.cs:51-66 | a load that throws has applied exactly the events before the first one out of order |
| Aggregates.FoldPayloads | src/Learning.EventStore/Domain/AggregateRoot.cs:83-86 | the state depends on payloads alone, so stamping ids and versions cannot change it |
| Aggregates.FlushExtendsLog | src/Learning.EventStore/Domain/AggregateRoot.cs:23-49 | for an aggregate that replayed a log 1..v, log and flushed changes together are versions 1..v+n under one id, and the flushed aggregate is their replay |
| Aggregates.FlushThenReplay | src/Learning.EventStore/Domain/AggregateRoot.cs:23-75 | flush and replay undo each other: loading log and flushed changes into a blank aggregate never throws and rebuilds the flushed one, id included if and only if there is any event |
| Aggregates.LoadTail | src/Learning.EventStore/Domain/AggregateRoot.cs:51-66 | an aggregate that holds the first v events and loads the rest holds the whole log |
| EventLogs.QueryMeaning | database/postgres/StoredProcedures/get_events_for_aggregate.sql:11-17 | for any rows, the query returns exactly the events with a version above the given one, each as often as it is stored, in ascending order |
| EventLogs.QueryIsSlice | database/postgres/StoredProcedures/get_events_for_aggregate.sql:11-17 | on a log of versions 1..N the query for any integer is a slice |
| SqlStore.SqlEventStore.SaveOne | src/Learning.EventStore/DataStores/SqlEventStore.cs:50-67 | one event is stored if and only if its key is free and nothing throws; otherwise no row changes, and only a throwing commit leaves it published |
| SqlStore.SqlEventStore.SaveAsync | src/Learning.EventStore/DataStores/SqlEventStore.cs:32-69 | commits exactly the longest storable prefix of the batch, each aggregate's rows growing by its own events in order; returns if and only if that is the whole batch; every committed event was published |
| SqlStore.SqlEventStore.GetAsync | src/Learning.EventStore/DataStores/SqlEventStore.cs:71-84 | returns the query's answer, a slice when the rows are versions 1..N |
| SqlStore.ContinuationStored | database/postgres/Tables/event.sql:10 | a batch that continues a log of versions 1..N is stored up to the first injected fault and no less: the unique key rejects nothing |
| Sessions.Repository.SaveAsync | src/Learning.EventStore/Domain/Repository.cs:18-28 | throws before touching the aggregate if a newer event is stored; otherwise the aggregate is flushed whether or not the store then takes the events, and the store grows by the longest storable prefix of the batch, whatever ids its events carry; state and version plus pending events stay in every case |
| Sessions.SavedOwn | src/Learning.EventStore/Domain/Repository.cs:26-27 | an aggregate whose changes are its own grows its own log by that prefix and no other log |
| Sessions.Repository.GetAsync | src/Learning.EventStore/Domain/Repository.cs:30-47 | null for no events, a throw for a log with a gap, otherwise a fresh aggregate that holds the replay of the log |
| Sessions.Session.AddAsync | src/Learning.EventStore/Domain/Session.cs:26-38 | tracks an unknown id with the version it has now, accepts the same object again, refuses another object for a tracked id |
| Sessions.Session.GetAsync | src/Learning.EventStore/Domain/Session.cs:40-67 | for a tracked id the tracked object itself if and only if no version is expected or it has it; otherwise null for no events, a throw for a log with a gap, another version than the expected one or an id already tracked, and else the fresh replay, tracked from now on; nothing is tracked unless it is handed out |
| Sessions.Session.SaveTracked | src/Learning.EventStore/Domain/Session.cs:79-89 | takes one aggregate off the identity map and saves its changes, of whatever ids, against the version it was tracked at, leaving the other aggregates alone |
| Sessions.Session.CommitAsync | src/Learning.EventStore/Domain/Session.cs:69-98 | empties the identity map; every tracked aggregate is saved once against its own version, in the order in which the map gives them up, failures not stopping the others and each reported; when the changes are the aggregates' own, each is saved as if alone and the rows of other ids stay |
| CommitProtocol.TogetherAsAlone | src/Learning.EventStore/Domain/Session.cs:75-92 | the saves of a commit started together and interleaved await by await: each that is done has the outcome it would have alone, and no other log has changed, if the changes are the aggregates' own |
| CommitProtocol.TogetherAsInOrder | src/Learning.EventStore/Domain/Session.cs:75-92 | so when all are done, the store and the set of failed saves are those of saving one aggregate after the other, in whatever order |
| CommitProtocol.EverySaveEnds | src/Learning.EventStore/Domain/Session.cs:75-92 | and each save is done after two turns more than it has events, whatever went before |
| Sessions.SavedIndependently | src/Learning.EventStore/Domain/Session.cs:75-92 | saves of aggregates whose changes are their own do not interfere: whatever the order, each has the outcome it would have alone |
| OptimisticConcurrency.AlwaysSafe | src/Learning.EventStore/Domain/Repository.cs:18-28 | in every interleaving of loads, changes, checks, flushes, inserts, publishes, commits and throws of any number of sessions: the log is versions 1..N, every row was published, each session's part is a prefix of its batch right after the version it loaded, and at most one transaction is open |
| OptimisticConcurrency.AtMostOneWinner | src/Learning.EventStore/Domain/Session.cs:69-98 | of two sessions that loaded the same version at most one ever commits an event |
| OptimisticConcurrency.ReturnedHoldsReplay | src/Learning.EventStore/Domain/Repository.cs:18-28 | a session whose save returned holds exactly the replay of the log up to its own last event |
| OptimisticConcurrency.CommitsPublishedPrefix | src/Learning.EventStore/DataStores/SqlEventStore.cs:55-66 | at every instant the committed part of a batch is a prefix of it, each event of it already published, and all of it once the save returned |
| OptimisticConcurrency.SaveIsARun | src/Learning.EventStore/Domain/Repository.cs:18-28 | an undisturbed check, flush and run of per-event transactions, ended by any fault, comes to what the repository's save promises |
| OptimisticConcurrency.RefusedIsARun | src/Learning.EventStore/Domain/Repository.cs:20-24 | a check that finds a newer event fails the session and stores nothing |
| OptimisticConcurrency.OpenIsARun | src/Learning.EventStore/Domain/Repository.cs:30-47 | a load and a change in any reachable state: the session holds the replay of the whole log and its change, open at the version of the log |
| Caching.CacheRepository.GetAsync | src/Learning.EventStore/Cache/CacheRepository.cs:51-88 | catches up and hands out the cached object, or reloads after a gap, or loads afresh; every throw evicts; other ids are untouched |
| Caching.CacheGetCases | src/Learning.EventStore/Cache/CacheRepository.cs:51-88 | what that is in each case: a cached null throws and is evicted, a store that is down throws and evicts, the cached aggregate is caught up if the next event follows it, and otherwise all events are loaded into a fresh one |
| Caching.CacheRepository.LoadAndCacheAsync | src/Learning.EventStore/Cache/CacheRepository.cs:75-77 | loads through the inner repository and caches whatever came back, a null included |
| Caching.CacheRepository.SaveAsync | src/Learning.EventStore/Cache/CacheRepository.cs:28-49 | caches the saved object unless something is cached under its id, and evicts the id on any failure |
| CachedRuns.AlwaysInStep | src/Learning.EventStore/Cache/CacheRepository.cs:28-88 | over every sequence of whole calls the cached aggregate is the replay of a prefix of the log plus its own unsaved changes |
| CachedRuns.AnyGetIsFullLoad | src/Learning.EventStore/Cache/CacheRepository.cs:51-88 | after any sequence of gets, changes, successful and failed saves and appends by other hosts, a get with nothing unsaved throws if and only if the store is down or a null is cached, leaving the id untracked; otherwise it returns the replay of the whole log, or null for an empty one |
| CachedRuns.CallsAreCalls | src/Learning.EventStore/Cache/CacheRepository.cs:28-88 | each call of such a sequence comes to what the cached repository promises of it |
| CachedRuns.GetIsFullLoad | src/Learning.EventStore/Cache/CacheRepository.cs:58-77 | one get on a cached aggregate that lags behind the log |
| CachedRuns.CachedNullThrowsOnce | src/Learning.EventStore/Cache/CacheRepository.cs:60-62 | after a get that found nothing the next get throws whatever was stored in between, and the one after it loads |
| CachedRuns.GetMergesOutOfOrder | src/Learning.EventStore/Cache/CacheRepository.cs:60-72 | with unsaved changes the state is prefix, then changes, then the missed tail |
| CachedRuns.GetInStepIff | src/Learning.EventStore/Cache/CacheRepository.cs:60-72 | for the behaviour that records its payloads, that state is the replay plus the changes if and only if changes and tail commute as lists |
| CachedRuns.GetInStepWhenCommuting | src/Learning.EventStore/Cache/CacheRepository.cs:60-72 | and then it is so for every behaviour |
| SharedCache.AlwaysWhole | src/Learning.EventStore/Cache/CacheRepository.cs:28-88 | for any number of clients interleaving gets and saves under the lock with changes outside it, log and batch in flight are versions 1..N, the shared object holds them plus its unsaved changes, and nothing applied is missing or doubled |
| SharedCache.SharedStateIsReplay | src/Learning.EventStore/Domain/AggregateRoot.cs:23-75 | the shared state is the replay of log, batch in flight and unsaved changes, and the version counts the first two |
| SharedCache.AppendKeeps | src/Learning.EventStore/DataStores/SqlEventStore.cs:55-60 | the unique key never rejects an event of the batch in flight |
| SharedCache.NothingLeftBehind | src/Learning.EventStore/Cache/CacheRepository.cs:28-49 | once the lock is free and every client that changed the aggregate has flushed since, the log is the starting log followed by every change ever applied, once and in order |
| SharedCache.GetIsARun | src/Learning.EventStore/Cache/CacheRepository.cs:51-88 | an undisturbed get, lock to unlock, comes to the answer and the cache entry of the sequential one |
| SharedCache.SaveIsARun | src/Learning.EventStore/Cache/CacheRepository.cs:28-49 | from any reachable world with the lock free, an undisturbed save puts every unsaved change into the log in order, leaves the shared aggregate flushed and the lock free |
| SharedCache.SaveRunIsSave | src/Learning.EventStore/Cache/CacheRepository.cs:28-49 | that is what the cached repository promises of a save without faults |
| SharedCache.ChangeAndSaveIsARun | src/Learning.EventStore/Cache/CacheRepository.cs:28-49 | a change and the save after it: the log ends with the unsaved payloads and the change's, and the cached aggregate is its replay |
| RedisStore.RedisEventStore.PushAndPublish | src/Learning.EventStore/DataStores/RedisEventStore.cs:94-106 | a failed publish takes the commit id back and restores the list exactly |
| RedisStore.RedisEventStore.SaveEvent | src/Learning.EventStore/DataStores/RedisEventStore.cs:76-121 | returns if and only if the first try that is not a lost race is pushed and published, and then the event is stored and published; throws the concurrency exception if and only if every try is a lost race; any other first try fixes the exception, and leaves the store as it was but for a throw while reading the length, which leaves the hash entry |
| RedisStore.RedisEventStore.SaveAsync | src/Learning.EventStore/DataStores/RedisEventStore.cs:63-123 | at most the first event of a batch is stored, and it is when the call returns; each failure with its exception |
| RedisStore.SliceIsVersionFilter | src/Learning.EventStore/DataStores/RedisEventStore.cs:38-61 | when list position i holds version i+1, slicing from max(0, fromVersion) answers exactly what the SQL version filter answers, for every integer |
| RedisStore.QueryThrowsIff | src/Learning.EventStore/DataStores/RedisEventStore.cs:38-61 | for any store, a query throws if and only if a commit id from its position on has no event; otherwise it answers their events, each as often as listed, in ascending order |
| RedisStore.NextEventContinues | src/Learning.EventStore/DataStores/RedisEventStore.cs:38-61 | a change made on an aggregate loaded from this store gets the version after the list's length |
| RedisStore.CallStores | src/Learning.EventStore/DataStores/RedisEventStore.cs:83-121 | so a save that gets to push after any number of lost races appends and publishes exactly that event, and one that only loses races stores nothing |
| RedisStore.AlwaysIndexed | src/Learning.EventStore/DataStores/RedisEventStore.cs:63-123 | over every sequence of serial saves, failed and compensated ones included, position i holds version i+1 |
| RedisStore.RedisAnswersLikeSql | database/postgres/StoredProcedures/get_events_for_aggregate.sql:11-17 | so after every such sequence the Redis store and the SQL query give the same answer to every query |
| RedisStoreProtocol.AlwaysOk | src/Learning.EventStore/DataStores/RedisEventStore.cs:76-121 | for any number of racing saves, hash and lists hold a save's commit id in exactly the phases between writing it and taking it back |
| RedisStoreProtocol.ListsResolve | src/Learning.EventStore/DataStores/RedisEventStore.cs:45-54 | at every step each commit id in an aggregate's list resolves to an event of that aggregate, and no list repeats one |
| RedisStoreProtocol.GetThrowsIff | src/Learning.EventStore/DataStores/RedisEventStore.cs:43-61 | a get that reads the list at one instant and each event at some later one throws if and only if the save of a commit id it read has thrown by then; otherwise it finds that save's event for each |
| RedisStoreProtocol.TakeBackUnderGet | src/Learning.EventStore/DataStores/RedisEventStore.cs:101-112 | a run in which it throws: the list is read between a push and the publish that fails |
| RedisStoreProtocol.OutcomeIsExact | src/Learning.EventStore/DataStores/RedisEventStore.cs:83-121 | a save that returned is listed, stored and published; one that threw is in no list, and is out of the hash if and only if it did not throw while reading the list length |
| RedisStoreProtocol.SaveIsARun | src/Learning.EventStore/DataStores/RedisEventStore.cs:76-121 | an undisturbed save with any outcome of its list transaction comes to the store and the answer of the sequential one |
| RedisStoreProtocol.GivesUpAfterAllTries | src/Learning.EventStore/DataStores/RedisEventStore.cs:83-121 | over every run, a save that loses a race counts the list again until it has lost as many races as it has tries, and is undone only then |
| RedisStoreProtocol.HashDownIsARun | src/Learning.EventStore/DataStores/RedisEventStore.cs:78-81 | a save whose hash write throws leaves the store as it was |
| RedisRaces.UndisturbedSaveReturns | src/Learning.EventStore/DataStores/RedisEventStore.cs:86-94 | an undisturbed save returns and is appended in any reachable state, whatever version its event carries |
| RedisRaces.RacingWritersShareAVersion | src/Learning.EventStore/DataStores/RedisEventStore.cs:87-89 | two writers of one version can both return and both be listed |
| RedisRaces.PushKeepsIndexedIff | src/Learning.EventStore/DataStores/RedisEventStore.cs:86-94 | with the order intact, a push keeps it if and only if it carries the version after the list's length |
| RedisRaces.TakeBackKeepsIndexedIff | src/Learning.EventStore/DataStores/RedisEventStore.cs:101-105 | with the order intact, a take-back keeps it if and only if its commit id is at the right end |
| RedisRaces.StepKeepsIndexedIff | src/Learning.EventStore/DataStores/RedisEventStore.cs:76-121 | and every other step keeps it |
| RedisRaces.AlwaysIndexedIff | src/Learning.EventStore/DataStores/RedisEventStore.cs:83-121 | over a whole run of any number of racing saves, position i holds version i+1 at every step if and only if every push and take-back is orderly in this sense |
| RedisRaces.IndexedHasOneWinner | src/Learning.EventStore/DataStores/RedisEventStore.cs:87-89 | while it does, no two saves of one version have both returned |
| RedisRaces.LoadsIffOrderly | src/Learning.EventStore/Domain/AggregateRoot.cs:57-60 | from an intact order, a load after the next step returns if and only if that step was orderly |
| RedisRaces.TakeBackLeavesGap | src/Learning.EventStore/DataStores/RedisEventStore.cs:94-106 | a publish that fails after a second writer loaded the event and pushed the next version leaves a list that starts at version 2 and does not load |
| SnapshotStrategy.DefaultSnapshotStrategy.ShouldMakeSnapShot | src/Learning.EventStore/Snapshotting/DefaultSnapshotStrategy.cs:42-64 | true if and only if the version of some pending event is a multiple of the interval, or reaches it with no snapshot stored; division by zero for interval 0 with events pending; a flush in the middle cuts the events seen short at the first lookup it overtakes |
| SnapshotStrategy.QuotientSteps | src/Learning.EventStore/Snapshotting/DefaultSnapshotStrategy.cs:52 | a version is a multiple of the interval exactly when the quotient steps there, for negative intervals too |
| SnapshotStrategy.DueIff | src/Learning.EventStore/Snapshotting/DefaultSnapshotStrategy.cs:48-61 | the closed form of that: n events on version v, and (v+n)/k > v/k or v+n >= k with nothing stored |
| SnapshotStrategy.EarlyFlushHidesBoundary | src/Learning.EventStore/Snapshotting/DefaultSnapshotStrategy.cs:50-61 | with a snapshot stored, a flush in the middle changes the answer if and only if every boundary crossed lies beyond the event it was noticed at |
| Snapshots.SnapshotRepository.GetAsync | src/Learning.EventStore/Snapshotting/SnapshotRepository.cs:40-72 | restores and loads the events after the snapshot's version, or loads in full when there is none |
| Snapshots.GetThrowsIff | src/Learning.EventStore/Snapshotting/SnapshotRepository.cs:40-55 | for any log and snapshot, a get throws if and only if the events it reads do not go on from the version it starts at, and answers null if and only if there is neither snapshot nor event |
| Snapshots.SnapshotRepository.TryMakeSnapshot | src/Learning.EventStore/Snapshotting/SnapshotRepository.cs:74-84 | the snapshot's version counts the pending events |
| Snapshots.SnapshotRepository.SaveAsync | src/Learning.EventStore/Snapshotting/SnapshotRepository.cs:35-38 | the aggregate, the log and the exception are those of the inner save; the snapshot stored is the same on either side of the flush, and is stored even when the save fails |
| Snapshots.GetFromGoodSnapshot | src/Learning.EventStore/Snapshotting/SnapshotRepository.cs:40-55 | restoring a snapshot that is the replay of its first events and replaying the tail is loading the whole log |
| Snapshots.TakenEitherSideOfFlush | src/Learning.EventStore/Snapshotting/SnapshotRepository.cs:82 | version plus pending events and the state survive a flush, so the snapshot is right for the log the save leaves |
| Snapshots.SnapshotOverAnyLog | src/Learning.EventStore/Snapshotting/SnapshotRepository.cs:40-55 | whatever others made of the log since a save loaded it, a load through that save's snapshot never throws; it answers the save's own state with the events folded on that lie past as many new ones as the save had |
| Snapshots.SnapshotRightIff | src/Learning.EventStore/Snapshotting/SnapshotRepository.cs:35-55 | that is the full load if and only if the log has at least as many new events as the save had, and the save's state with the later ones folded on is the replay of the log |
| Snapshots.RecordedSnapshotRightIff | src/Learning.EventStore/Snapshotting/SnapshotRepository.cs:35-55 | for the behaviour that records its payloads: if and only if the log carries the save's payloads right after the version it loaded |
| Snapshots.SamePayloadsSameSnapshot | src/Learning.EventStore/Snapshotting/SnapshotRepository.cs:35-55 | and that is enough for every behaviour |
| Snapshots.RefusedSaveLoadsWrong | src/Learning.EventStore/Domain/Repository.cs:18-28 | a save refused over as many other events leaves a snapshot that loads at the version of the log, so that the next check passes, in a state that is not its replay whenever the payloads differ |
| Snapshots.RefusedPayloadReplacesStored | src/Learning.EventStore/Snapshotting/SnapshotRepository.cs:37 | the least such case: the log holds one payload and the load holds the refused one in its place |
| Snapshots.SnapshotOfFailedSave | src/Learning.EventStore/Snapshotting/SnapshotRepository.cs:37 | after a save that stored j of its events, with nobody else writing, a load through its snapshot is right if and only if j is all of them |
| SnapshotRuns.AlwaysGood | src/Learning.EventStore/Snapshotting/SnapshotRepository.cs:35-84 | for any number of overlapping saves, failing ones included, in every interleaving of their decisions, snapshots, flushes, appends and writes in which no load meets a snapshot whose save has events left to store: the log is versions 1..N, each save's stored part follows the version it loaded, and every snapshot is that of the log its save is heading for |
| SnapshotRuns.SnapshotLoadIsFullLoad | src/Learning.EventStore/Snapshotting/SnapshotRepository.cs:40-55 | at every instant of such a run at which the save behind the stored snapshot has stored its events, a load through it equals the full load, whatever the strategy |
| SnapshotRuns.TwoStepLoadIsFullLoad | src/Learning.EventStore/Snapshotting/SnapshotRepository.cs:40-55 | also when the snapshot is read at that instant and the events after any further steps |
| SnapshotTails.TailIsShortIff | src/Learning.EventStore/Snapshotting/DefaultSnapshotStrategy.cs:42-64 | with interval k and each decision before its flush, once every save has left all of its traces or none: no snapshot and fewer than k events, or snapshot and log with the same quotient by k, if and only if no snapshot of a later interval has been overwritten |
| SnapshotTails.TailIsBounded | src/Learning.EventStore/Snapshotting/DefaultSnapshotStrategy.cs:42-64 | and then a load replays fewer than k events |
| SnapshotTails.InTurnIsBounded | src/Learning.EventStore/Snapshotting/DefaultSnapshotStrategy.cs:42-64 | when each save loads after the earlier ones are over, no load meets a snapshot too early, none is overwritten by an earlier one, and the bound holds |
| SnapshotTails.OverlappingWritesBreakBound | src/Learning.EventStore/Snapshotting/RedisSnapshotStore.cs:56-67 | two overlapping saves that both succeed: the older snapshot is written last, and at interval 1 a load replays one event |
| SnapshotRuns.LoadAheadLeavesGap | src/Learning.EventStore/Snapshotting/SnapshotRepository.cs:37-52 | a save that loaded through a snapshot before its events were stored stores version 2 on an empty log |
| SnapshotRuns.FailedSaveStillWrites | src/Learning.EventStore/Snapshotting/SnapshotRepository.cs:37 | a save that fails after its flush stores nothing more, and its snapshot is stored nevertheless |
| DeliveryProtocol.AlwaysAccounted | src/Learning.MessageQueue/RedisEventSubscriber.cs:293-328 | over every interleaving of publishes, consumers, movers and retriers with crashes at any point: each pushed payload is listed, handled, expired or dropped, a consumer at its removal has a message that is so without the published and processing lists, and a retrier at its deletion one that was handled |
| DeliveryProtocol.NothingIsLost | src/Learning.MessageQueue/RedisEventSubscriber.cs:150-187 | in every reachable state each pushed payload is published, processing, a dead letter, handled or expired, unless its own dead-letter write threw |
| DeliveryProtocol.NothingIsLostWhileDeadLettersWork | src/Learning.MessageQueue/Repository/MessageQueueRepository.cs:47-118 | without such a throw nothing is lost at all |
| DeliveryProtocol.ThrowingDeadLetterLosesIff | src/Learning.MessageQueue/RedisEventSubscriber.cs:175-186 | in every reachable state with distinct payloads, a dead-letter write that throws loses its message if and only if it is not yet a dead letter, handled or expired |
| DeliveryProtocol.RemovalLosesIff | src/Learning.MessageQueue/RedisEventSubscriber.cs:182-186 | the same of any removal in the finally block, whatever happened since the write |
| DeliveryProtocol.LossIsFinal | src/Learning.MessageQueue/RedisEventSubscriber.cs:150-187 | a lost message that no consumer, mover or retrier holds stays lost over every continuation that does not push it again |
| DeliveryProtocol.ThrowingDeadLetterLoses | src/Learning.MessageQueue/RedisEventSubscriber.cs:175-186 | a witness: a fresh message is lost when its handler and its dead-letter write both throw |
| DeliveryProtocol.AlwaysInOrder | src/Learning.MessageQueue/RedisEventSubscriber.cs:161 | over every interleaving: pop history and reversed published list make up the push history, whatever a consumer, a mover or the processing list holds was popped, the processing list is a subsequence of the pop history read backwards, and for distinct payloads it is exactly what was popped and not removed |
| DeliveryProtocol.FifoAndRecoveryWindow | src/Learning.MessageQueue/Repository/MessageQueueRepository.cs:100-118 | messages leave in the order they came, the processing list is in reverse pop order, and for distinct payloads the recovery window is exactly the earliest-popped unfinished messages |
| DeliveryRuns.CallbackIsARun | src/Learning.MessageQueue/RedisEventSubscriber.cs:150-187 | an undisturbed callback, also one after a crash, comes to the lists of its steps in the delivery protocol, and the history records what it did |
| DeliveryRuns.PushIsPublish | src/Learning.MessageQueue/RedisMessageQueue.cs:88-99 | a push there is what a publish's transaction does to the subscriber's list |
| DeliveryRuns.TurnIsARun | src/Learning.MessageQueue/Messages/RetryableAsyncRedisSubscription.cs:52-85 | so does one turn of the retry loop |
| DeliveryRuns.MoverIsARun | src/Learning.MessageQueue/Messages/RetryableAsyncRedisSubscription.cs:126-146 | so does the mover of stale entries |
| MessageQueues.MessageQueueRepository.AddToDeadLetterQueue | src/Learning.MessageQueue/Repository/MessageQueueRepository.cs:47-58 | one more dead letter at the left end; retry count and time stay |
| MessageQueues.MessageQueueRepository.DeleteFromDeadLetterQueue | src/Learning.MessageQueue/Repository/MessageQueueRepository.cs:60-70 | every occurrence leaves the dead letters and the retry hash of the id is deleted |
| MessageQueues.MessageQueueRepository.UpdateRetryData | src/Learning.MessageQueue/Repository/MessageQueueRepository.cs:72-82 | one more retry, at the whole second |
| MessageQueues.MessageQueueRepository.MoveProcessingEventToDeadLetterQueue | src/Learning.MessageQueue/Repository/MessageQueueRepository.cs:107-118 | the right-most occurrence moves from processing to the dead letters |
| MessageQueues.RedisEventSubscriber.ExecuteCallback | src/Learning.MessageQueue/RedisEventSubscriber.cs:150-187 | the oldest message leaves both lists, and is a dead letter if and only if its handler failed and the write worked |
| MessageQueues.RedisEventSubscriber.CatchUp | src/Learning.MessageQueue/RedisEventSubscriber.cs:105-118 | undisturbed, the loop empties the published list and leaves the failures on the dead letters in list order |
| CatchUpProtocol.AlwaysCovered | src/Learning.MessageQueue/RedisEventSubscriber.cs:96-118 | at every instance past the reading of the list length, the published list is no longer than its notifications and catch-up turns left, over every interleaving |
| CatchUpProtocol.DrainedAtQuiescence | src/Learning.MessageQueue/RedisEventSubscriber.cs:239-261 | so however instances register, subscribe, catch up and stop among publishes, once such an instance has no trigger left the list is empty and everything published was popped, in order |
| CatchUpProtocol.PoppedInOrder | src/Learning.MessageQueue/RedisEventSubscriber.cs:96-118 | over every run, what was popped and then what waits, oldest first, is what was published since somebody registered; each trigger popped one message or found none |
| CatchUpProtocol.PopIsCallback | src/Learning.MessageQueue/RedisEventSubscriber.cs:150-170 | a reaction or catch-up turn leaves the list that the callback leaves, whatever the handler does |
| CatchUpProtocol.PublishIsPush | src/Learning.MessageQueue/RedisMessageQueue.cs:88-99 | a publish does to the list what the transaction does to it, for a registered application and for an unregistered one |
| CatchUpProtocol.RestartIsARun | src/Learning.MessageQueue/RedisEventSubscriber.cs:105-118 | an instance that restarts undisturbed pops all that waits, oldest first |
| CatchUpProtocol.ReactionIsARun | src/Learning.MessageQueue/RedisEventSubscriber.cs:85-95 | a publish and the next reaction: the oldest message waiting is popped and the others stay |
| Publishing.PushAllPushesOnce | src/Learning.MessageQueue/RedisMessageQueue.cs:88-99 | queuing one push per member pushes once to each member and to nobody else |
| Publishing.SameSizeIff | src/Learning.MessageQueue/RedisMessageQueue.cs:78-82 | as subscribers are only added, the size condition holds if and only if nobody new has registered since the set was read |
| Publishing.RedisMessageQueue.WaitForRoom | src/Learning.MessageQueue/AsyncConditionWaiter.cs:20-29 | for any capacity, ends if and only if it is positive, with the list shorter than it, nothing popped from a list that had room, and no other list changed |
| Publishing.RedisMessageQueue.TryPublish | src/Learning.MessageQueue/RedisMessageQueue.cs:72-108 | one try waits for ever if and only if there is a subscriber and the capacity is zero or less; otherwise it succeeds if and only if no newcomer registers between read and transaction, and then every subscriber has the message once more on top of a list that had room; otherwise nobody has it |
| Publishing.RedisMessageQueue.PublishAsync | src/Learning.MessageQueue/RedisMessageQueue.cs:54-69 | for any capacity, returns if and only if some try within the retry count meets no newcomer and does not wait for ever, throws if and only if every try meets one and none waits for ever; when it returns the message reached every subscriber once, on a list within capacity, otherwise nobody; the subscribers afterwards are those before and the newcomers of the tries begun |
| PublishProtocol.AlwaysFansOut | src/Learning.MessageQueue/RedisMessageQueue.cs:54-108 | under any interleaving of publishers, registrations and pops: a returned call's message was pushed once to each subscriber registered at its commit, any other's to nobody, and a call in its waits has distinct, registered members |
| PublishProtocol.FanOutIsExact | src/Learning.MessageQueue/RedisMessageQueue.cs:54-108 | a publish that returned pushed exactly once to each subscriber registered at its commit and to nobody else; any other pushed to nobody |
| PublishProtocol.TryIsARun | src/Learning.MessageQueue/RedisMessageQueue.cs:72-108 | an undisturbed try with room in the lists comes to what `TryPublish` promises, and one that meets a newcomer reads the set again while it has tries left |
| PublishProtocol.WaitsForRoom | src/Learning.MessageQueue/AsyncConditionWaiter.cs:20-29 | a call passes its wait exactly when the list is shorter than the capacity, and one pop from a list at the capacity lets it |
| PublishProtocol.BeginsBelowLimit | src/Learning.MessageQueue/RedisMessageQueue.cs:54-69 | a call begins exactly while fewer than the limit are in flight, and fails at once when it has no tries |
| PublishProtocol.ThrowEnds | src/Learning.MessageQueue/RedisMessageQueue.cs:54-69 | a call that a throw ends has pushed nothing and does nothing more |
| PublishProtocol.AlwaysWithinCapacity | src/Learning.MessageQueue/RedisMessageQueue.cs:88-99 | under any interleaving at most P calls are in flight, and each list's length plus the calls past its wait is at most c - 1 + P |
| PublishProtocol.ListsStayNearCapacity | src/Learning.MessageQueue/AsyncConditionWaiter.cs:20-29 | so with capacity c no list is longer than c - 1 + P, and one publisher never exceeds c |
| Retries.RetryableSubscription.ShouldRetry | src/Learning.MessageQueue/Messages/RetryableAsyncRedisSubscription.cs:100-124 | backed off means: failed before, and the last failure not known or not min(2^count * base, cap) minutes ago; too old means: past the time to live in hours, unless that is 0; answers yes if and only if the letter is neither, and deletes it and its retry hash exactly when it is too old and not backed off |
| Retries.RetryableSubscription.RetryOne | src/Learning.MessageQueue/Messages/RetryableAsyncRedisSubscription.cs:64-84 | a letter counts as processed if and only if it was retried and its handler returned; a failure is recorded in the retry hash |
| Retries.RetryableSubscription.MoveStaleProcessingEventsToDeadLetters | src/Learning.MessageQueue/Messages/RetryableAsyncRedisSubscription.cs:126-146 | with distinct entries, of the last ten those older than five minutes leave the processing list, which keeps its order, and lie on the dead letters in the order in which they were moved |
| Retries.RetryableSubscription.RetryDeadLetters | src/Learning.MessageQueue/Messages/RetryableAsyncRedisSubscription.cs:43-85 | for any list: the index-compensated loop comes to one turn on each letter it looks at, and it looks at the letter at its index, staying there if the letter was processed and moving on otherwise, to the end of the list as it is by then; without repetitions it comes to the recursive walk, same letters left, same hashes, same letters looked at in the same order |
| Retries.RetryableSubscription.RetryAsync | src/Learning.MessageQueue/Messages/RetryableRedisSubscription.cs:38-88 | the mover, then that pass, for any lists |
| Retries.MoverConserves | src/Learning.MessageQueue/Messages/RetryableAsyncRedisSubscription.cs:126-146 | the mover neither loses nor duplicates an entry |
| Retries.MoverMovesStale | src/Learning.MessageQueue/Messages/RetryableAsyncRedisSubscription.cs:126-146 | the same of the specification, for every queue of distinct entries |
| Retries.LookedIsWalk | src/Learning.MessageQueue/Messages/RetryableAsyncRedisSubscription.cs:52-85 | on a list without repetitions, going by index while deleting is walking the list, from every index on |
| Retries.TurnsAccount | src/Learning.MessageQueue/Messages/RetryableAsyncRedisSubscription.cs:52-85 | with or without repetitions, a pass deletes only letters it looked at whose handler returned or that were too old, and leaves the others in order |
| Retries.LookedAtMost | src/Learning.MessageQueue/Messages/RetryableAsyncRedisSubscription.cs:52-62 | it looks at letters that were there, at most as often as there are letters |
| Retries.NoneTwice | src/Learning.MessageQueue/Messages/RetryableAsyncRedisSubscription.cs:52-85 | no letter is examined twice, and none appears from nowhere |
| Retries.UnexaminedAtMostExpired | src/Learning.MessageQueue/Messages/RetryableAsyncRedisSubscription.cs:115-121 | at most as many letters go unexamined as expired, and every letter is left, succeeded or expired |
| Retries.WithoutExpiryAllExamined | src/Learning.MessageQueue/Messages/RetryableAsyncRedisSubscription.cs:52-85 | when none is too old each letter is examined once, in order, and what is left is the list without the successes, in order |
| Retries.AllExaminedIffInTurn | src/Learning.MessageQueue/Messages/RetryableAsyncRedisSubscription.cs:52-85 | whatever ids the letters share, every letter is examined if and only if none but the last is due to expire by its turn |
| Retries.YoungLettersAllExamined | src/Learning.MessageQueue/Messages/RetryableAsyncRedisSubscription.cs:115-121 | so it is enough that none but the last is too old |
| Retries.SharedIdHidesExpiry | src/Learning.MessageQueue/Messages/RetryableAsyncRedisSubscription.cs:100-124 | a witness that letters due to expire when the pass begins need not: the failure of a letter with the same id puts one into backoff and every letter is examined |
| Retries.AllExaminedIff | src/Learning.MessageQueue/Messages/RetryableAsyncRedisSubscription.cs:52-85 | with distinct ids every letter is examined if and only if none but the last is due to expire when the pass begins |
| Retries.AllExpiredHalves | src/Learning.MessageQueue/Messages/RetryableAsyncRedisSubscription.cs:115-121 | a list that is wholly due to expire shrinks to half its length, rounded down |
| Retries.PassesEmptyTheList | src/Learning.MessageQueue/Messages/RetryableAsyncRedisSubscription.cs:38-88 | k such passes leave n / 2^k letters, so enough of them empty the list |
| RetryRaces.UnlookedAtMost | src/Learning.MessageQueue/Messages/RetryableAsyncRedisSubscription.cs:48-62 | with letters pushed in any way between the turns of a pass, at most max(P, E) of the letters it started with go unlooked at, for P pushes and E expiries |
| RetryRaces.LooksAtMost | src/Learning.MessageQueue/Messages/RetryableAsyncRedisSubscription.cs:52-85 | and no letter is looked at more than P + 1 times |
| RetryRaces.IndexIsTurnsLessProcessed | src/Learning.MessageQueue/Messages/RetryableAsyncRedisSubscription.cs:52-54 | the index is the turns taken less the letters processed, whatever is pushed |
| RetryRaces.PushRepeatsLook | src/Learning.MessageQueue/Messages/RetryableAsyncRedisSubscription.cs:48-62 | both bounds are met: one push between two turns and the same letter is looked at twice, the other not at all |
| RetryRaces.UndisturbedIsPass | src/Learning.MessageQueue/Messages/RetryableAsyncRedisSubscription.cs:43-85 | without a push it is the pass of the loop |
| Backoff.FailuresLieApart | src/Learning.MessageQueue/Messages/RetryableAsyncRedisSubscription.cs:100-124 | in every run of any number of overlapping passes, for every id, the check before a failure came more than min(2^k * base, cap) minutes after the whole second of the last of the k failures recorded by then; the hash counts the failures since the last deletion |
| Backoff.GapIff | src/Learning.MessageQueue/Messages/RetryableAsyncRedisSubscription.cs:64-84 | while clocks do not run backwards, the gap after the k-th failure exceeds min(2^k * base, cap) minutes if and only if the next failure's check had seen all k and no letter with the id was deleted since |
| Backoff.OverlapLeavesNoGap | src/Learning.MessageQueue/Repository/MessageQueueRepository.cs:72-98 | two passes that check a letter together both record a failure with no gap between them |
| Backoff.ApartOneAtATime | src/Learning.MessageQueue/Messages/RetryableAsyncRedisSubscription.cs:100-124 | while the passes over an id do not overlap, every gap is the policy's |
| Backoff.UndisturbedIsTurn | src/Learning.MessageQueue/Messages/RetryableAsyncRedisSubscription.cs:64-84 | an undisturbed check, handler and record comes to the turn that the retry loop takes, also after a crash |
| Backoff.TurnOverChangedLists | src/Learning.MessageQueue/Messages/RetryableAsyncRedisSubscription.cs:64-84 | and if the lists change in between, it deletes from the changed lists and does the same to the retry hashes |
| Backoff.GapsAddUp | src/Learning.MessageQueue/Repository/MessageQueueRepository.cs:72-98 | the gaps add up despite the times being cut to whole seconds |
| Backoff.AttemptsInAWindow | src/Learning.MessageQueue/Messages/RetryableAsyncRedisSubscription.cs:104-113 | n failures within a window, one pass at a time, need the sum of min(2^k * base, cap) for k = 1 .. n-1 to be below the window |
| Backoff.IntervalGrows | src/Learning.MessageQueue/Messages/RetryableAsyncRedisSubscription.cs:105-106 | for any count however large the interval never shrinks, never exceeds the cap, and stays at the cap once there |
| Backoff.SharedIdForgetsFailures | src/Learning.MessageQueue/Repository/MessageQueueRepository.cs:138-145 | deleting one of two letters with one id forgets the failures of the other: after its second failure it waits for the first interval only |

## Left out

- Sessions.Session.CommitAsync: the method saves one aggregate after the other, while the source starts the saves together; `CommitProtocol` has the interleavings, for aggregates whose changes are their own.
- Caching.CacheRepository.SaveAsync: the per-id lock is in `SharedCache` only, and a null aggregate id, for which taking the lock throws, is not told apart from an empty one.
- Caching.CacheRepository.GetAsync: one request at a time; the interleavings are in `SharedCache`.
- Snapshots.SnapshotRepository.SaveAsync: the snapshot store does not fail; the two interleavings are flush before snapshot and after it.
- RedisStore.RedisEventStore.SaveAsync: requires the commit id, a fresh GUID in the source, to be new to the store; compensations succeed.
- OptimisticConcurrency.AlwaysSafe: one aggregate id; a session discards its aggregate after a save, successful or not.
- SharedCache.AlwaysWhole: no eviction, no expected version, no store failure, and at least one event stored at the start; an eviction drops the lock object, and a session with an expected version can flush another's changes.
- CachedRuns.AnyGetIsFullLoad: sequential use, so no get between a change and its save; `CachedRuns.GetInStepIff` is about that case.
- SnapshotRuns.AlwaysGood: no load meets a snapshot whose save has events left to store, now or for good; what such a load answers is `Snapshots.SnapshotOverAnyLog`, and what it can lead to `SnapshotRuns.LoadAheadLeavesGap`.
- SnapshotTails.TailIsBounded: each decision is one step before its flush, and at rest every save has left all of its traces or none; decisions cut short are `SnapshotStrategy.EarlyFlushHidesBoundary`.
- CommitProtocol.TogetherAsAlone: no other session writes meanwhile; other sessions are in `OptimisticConcurrency`.
- DeliveryProtocol.NothingIsLost: is about payloads, not occurrences: removing a value from a list removes all its occurrences.
- MessageQueues.RedisEventSubscriber.CatchUp: nobody else pops meanwhile and dead-letter writes succeed; `CatchUpProtocol` has the interleavings.
- CatchUpProtocol.DrainedAtQuiescence: no notification is dropped and the distributed lock is off.
- Publishing.RedisMessageQueue.PublishAsync: some consumer pops between two polls of a full list; other publishers and pops at other times are in `PublishProtocol`.
- PublishProtocol.TryIsARun: with room in the lists; a full one is `PublishProtocol.WaitsForRoom`.
- OptimisticConcurrency.SaveIsARun: the other sessions have no transaction open while it runs; a check that does not pass is `OptimisticConcurrency.RefusedIsARun`.
- Retries.RetryableSubscription.RetryDeadLetters: nothing is pushed meanwhile and the retry store does not fail; pushes are in `RetryRaces`.
- RetryRaces.LooksAtMost: counts looks, not handler runs; what backoff lets through to the handler, over any interleaving, is `Backoff.FailuresLieApart`.
- Backoff.IntervalGrows: a base of 0 minutes with 1024 or more failures makes the source's floating-point interval not a number; the model's is 0.
- Backoff.AttemptsInAWindow: one pass over an id at a time; overlapping passes are in `Backoff.FailuresLieApart` and `Backoff.GapIff`.
- Backoff.GapIff: requires a positive interval; what every check has waited for, whatever the interval, is `Backoff.FailuresLieApart`.
- The Redis-backed cache, which stores a copy of the aggregate taken before the flush.
- Distributed locks, Polly retries, connection handling, delays and polling.
- JSON, gzip, base64 and the CRC32 partition of the hash: an event or message stands for its text, and a commit id for its partition.
- Reflection dispatch: `Apply`, `GetSnapshot`, `Restore` and the base-type walk of `IsSnapshotable` are parameters.
- Several aggregate types under one id, and the application name as part of a key: one of each.
- Event timestamps and aggregate type names; 32-bit overflow of versions.
- The text of the last exception in the retry hash.
- The synchronous retry class: its three algorithms are those of the asynchronous one.
- The command hub, the sample application, views, settings and logging.
