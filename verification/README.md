# Document search service: a Dafny model

The service stores documents of many tenants in Postgres, indexes them asynchronously through a
queue, and searches them through a cache. This project models the parts of it that keep state and
proves what its design promises over whole runs.

| file | what it models |
|---|---|
| `Documents.dfy`, `Repository.dfy` | the entities, and the row table with its guarded transitions |
| `SearchEngine.dfy` | versioned bulk writes, and a register that keeps tombstones as the reference |
| `Processor.dfy`, `Confluence.dfy` | the worker's batch, and runs of batches in any order |
| `Pipeline.dfy` | API calls and overlapping workers as a step system; a batch cut at its awaits, and as one step |
| `Reconciler.dfy` | the API's write path, the queue, the sweep, recovery in rounds |
| `Consumer.dfy`, `Delivery.dfy` | batching, settling, retry and dead-lettering; whole runs of the queues |
| `SearchCache.dfy`, `Cache.dfy` | the generation-scoped cache with single-flight; the expiring in-process cache |
| `DocumentCache.dfy` | reads of one document through its cache while it is deleted |
| `CacheKeys.dfy`, `Text.dfy` | keys as text; tokens and normal forms |
| `RateLimiter.dfy` | the token bucket, shared and local, over reals |
| `CircuitBreaker.dfy` | the breaker with calls in flight, and the retry inside it |
| `EditDistance.dfy`, `Retrieval.dfy` | typo tolerance, matching, scoring, ranking, paging |
| `EndToEnd.dfy` | pipeline, cache and retrieval together: what a search may and must return |
| `Arithmetic.dfy` | two facts about products of reals |

Objects that the source updates in place (row table, engine, processor, publisher, channel, cache,
buckets, breaker) are classes whose methods are proved against functions of the old state; the
laws are lemmas about those functions. Protocols with many coroutines or processes are step systems
whose invariants hold in every interleaving.

Conventions: a raised exception is `None` or a constructor of its own; time, broker reachability and
what the cluster refuses are parameters; document ids are numbers ordered like their fixed-width
text, and the id text of an event is a canonical spelling, another spelling that the parser accepts,
or malformed.

Where a promise does not hold of the code, the code is modelled as it is, a concrete run shows the
failure, and the condition under which it holds is proved in both directions:

- `inmemory_engine.py` forgets the version of what it deletes, although `processor.py:6-9` says that
  a late event cannot undo a delete. With overlapping workers it can
  (`OverlappingBatchesCanResurrect`); it cannot exactly when no index write is sent after the removal
  was written (`OverlapIsHarmlessExactlyWithoutLateWrites`), which holds of all runs with a batch as
  one step (`OneStepBatchesMakeNoLateWrites`). For a single document, what decides is whether its
  own removal is followed by an index write of its own (`StaysRemovedExactly`).
- The sweep is described as making the index consistent "by construction"; it never republishes a lost
  delete (`ALostDeleteIsNeverRepaired`, `LostDeleteStaysVisible`). The index converges exactly when
  every deleted document that it still shows is named by some event (`ConvergesExactlyWhenDeletesArrive`).
- The shared rate limit is described as holding across replicas; because the key expires after 120
  seconds it does so exactly for limits of at least 3 per minute and burst ratios of at most 2
  (`SharedLimitHoldsExactly`).
- A follower of a cancelled single-flight leader waits for ever (`AFollowerIsStranded`,
  `CancelledLeaderStrandsFollowers`); it can be answered exactly when its leader was not cancelled
  (`FollowerSettlesExactlyWhenNotStranded`).
- The edit-distance test is wrong without its caller's length guard: exactly when the lengths are more
  than one apart and the shorter word begins the longer one once some character of the longer is dropped
  (`GuardIsNeeded`).
- With the shared store unavailable, N replicas are said to admit up to N times the limit. They can admit
  N + 1 times, for every N and every positive limit, because the shared bucket may have served the same
  window (`FleetBoundIsAttained`). N times holds exactly when the checks of a window land on at most N of
  the N + 1 buckets (`ReplicasBoundExactly`, for limits whose shared bucket keeps its own bound).
- A search whose counter read fails, or whose tenant's counter was lost, may be served an old answer
  (`UnreadableCounterCanServeOldAnswers`, `LapsedCounterCanServeOldAnswers`). It may exactly when, under
  the generation it read, an old answer is in the cache, with a leader about to fill the cache, or with a
  leader of its own process about to finish; for a counter that was never lost, a generation that covers
  the batch rules all three out
  (`OldAnswersServedExactly`).
- `document_service.py:101-103` clears the cached copy so that a deleted document is never served from
  cache; a read that took its copy before the commit can store it afterwards
  (`ARaceServesADeletedDocument`), and so can a copy outlive an unreachable cache
  (`AnUnreachableCacheServesADeletedDocument`). Those are exactly the two cases (`DeletedIsServedExactly`).

## Model

| member | source | states |
|---|---|---|
| `Repository.DocumentTable.Create` | doc-search/app/repositories/document_repository.py:19-22 | a new id gets a PENDING row at version 1; a duplicate id changes nothing |
| `Repository.DocumentTable.SoftDelete` | doc-search/app/repositories/document_repository.py:38-48 | the row becomes DELETED with its version one higher and a new time stamp; no other row changes |
| `Repository.DocumentTable.MarkIndexed` | doc-search/app/repositories/document_repository.py:50-57 | exactly the named PENDING rows become INDEXED and are stamped; every other row, and everything else in these, stays |
| `Repository.DocumentTable.FindStale` | doc-search/app/repositories/document_repository.py:68-81 | the answer is a duplicate-free list of the oldest PENDING and FAILED rows older than the cutoff, as many as the limit allows, oldest first, none older left out |
| `SearchEngine.Engine.Bulk` | doc-search/app/clients/inmemory_engine.py:56-70 | an outage writes nothing; otherwise the index is the replay of the accepted operations, and the two result lists name the documents of the accepted and of the refused ones, in order |
| `SearchEngine.Engine.Write` | doc-search/app/clients/inmemory_engine.py:59-69 | an operation not newer than the entry is a no-op; an index write replaces the entry and a delete removes it |
| `SearchEngine.ReplayPointwise` | doc-search/app/clients/inmemory_engine.py:59-69 | a bulk request naming each document once acts on each document separately, in whatever order |
| `SearchEngine.ForgettingIsHarmlessExactlyWhenNeverLate` | doc-search/app/clients/inmemory_engine.py:60-69 | the forgetting index shows what a tombstone-keeping register shows after every write of a history exactly when no index operation comes at or below the version of an earlier removal |
| `SearchEngine.MonotoneHistoriesAreNeverLate` | doc-search/app/clients/inmemory_engine.py:60-69 | histories whose versions never decrease per document, equal versions carrying equal operations, are never late, so index and register agree throughout |
| `Processor.CollapseDuplicates` | doc-search/app/workers/processor.py:70-75 | each document id of the batch once, with its newest event |
| `Processor.LatestIsNewest` | doc-search/app/workers/processor.py:70-75 | the kept event has the highest version of its document, and is the last among equals |
| `Processor.Malformations` | doc-search/app/workers/processor.py:77-86 | exactly the ids the parser rejects, once each |
| `Processor.PlanBatch` | doc-search/app/workers/processor.py:92-113 | one operation per existing row, built from the row as it is now whatever the event said; vanished rows are skipped |
| `Processor.BulkIsRefresh` | doc-search/app/workers/processor.py:98-119 | the bulk request brings exactly the confirmed documents of the index up to their rows |
| `Processor.IndexingProcessor.Process` | doc-search/app/workers/processor.py:64-140 | an outage leaves rows and index alone and reports all ids failed (skipped ones too); otherwise confirmed documents are refreshed and marked, the four outcome lists partition the ids, and a tenant's counter goes up by one exactly when the newest event of a changed document names it |
| `Processor.SortedIsPartition` | doc-search/app/workers/processor.py:126-129 | the outcome lists put every distinct id of the batch in exactly one place |
| `Processor.Generations.IncrAll` | doc-search/app/workers/processor.py:142-151 | each named tenant's generation goes up by exactly one and no other changes, and nothing happens while the cache is unreachable |
| `Confluence.RunIsOnePass` | doc-search/app/workers/processor.py:64-133 | any run of batches equals one pass over the named documents that exist |
| `Confluence.OnlyTheNamedDocumentsMatter` | doc-search/app/workers/processor.py:1-10 | reordering, duplicating, merging or splitting batches and changing event kinds, tenants and versions leaves the same index and the same row statuses |
| `Confluence.BumpReachesTheOwners` | doc-search/app/workers/processor.py:142-151 | when events carry their rows' tenants, a batch bumps exactly the tenants that own a document it changed |
| `Pipeline.EveryRunKeeps` | doc-search/app/workers/processor.py:90-133 | in every interleaving of API calls and split workers the invariant holds, and tenant, content and DELETED are for ever |
| `Pipeline.ReachableStates` | doc-search/app/repositories/document_repository.py:38-57 | in every reachable state version 2 means DELETED and 1 anything else, FAILED never occurs, every index entry has a row with its tenant and content and at least its version, and every INDEXED row is in the index at its version |
| `Pipeline.RegisterNeverResurrects` | doc-search/app/repositories/document_repository.py:38-48 | with an index that keeps tombstones, no interleaving brings a removed document back |
| `Pipeline.OneStepBatchesNeverResurrect` | doc-search/app/workers/processor.py:98-119 | with batches as one step the writes form a version-monotone history, index and register agree, and no late or replayed event brings a removed document back |
| `Pipeline.BatchIsProcess` | doc-search/app/workers/processor.py:98-133 | the three steps of a worker, run together, are the batch of the processor |
| `Pipeline.OverlappingBatchesCanResurrect` | doc-search/app/clients/inmemory_engine.py:67-68 | a run of two overlapping workers that settles with a deleted document in the index |
| `Pipeline.OverlapIsHarmlessExactlyWithoutLateWrites` | doc-search/app/clients/inmemory_engine.py:60-69 | for every interleaving, index and register agree after every write exactly when no worker sends an index write for a document whose removal was already written |
| `Pipeline.OneStepBatchesMakeNoLateWrites` | doc-search/app/workers/processor.py:98-119 | every run whose batches are not interrupted is a run of single steps with the same end, and no worker in it writes after a removal |
| `Pipeline.ADeleteMissesTheIndex` | doc-search/app/services/document_service.py:115-124 | a run that creates, indexes and deletes a document and settles with it in the index |
| `Reconciler.DocumentService.Create` | doc-search/app/services/document_service.py:50-75 | the PENDING row at version 1 is there whether or not the publish succeeded, the event asks for indexing version 1 of the row's tenant, and exactly this tenant's generation goes up by one |
| `Reconciler.DocumentService.Delete` | doc-search/app/services/document_service.py:93-113 | another tenant's or a deleted document is not found and nothing changes; otherwise the row is soft-deleted, the cached copy goes if the cache is reachable, exactly this tenant's generation goes up by one and the event carries the bumped version |
| `Reconciler.Publisher.Publish` | doc-search/app/clients/queue.py:142-148 | an unreachable broker takes nothing; otherwise the event is last in the queue |
| `Reconciler.Publisher.Drain` | doc-search/app/clients/queue.py:150-152 | everything queued is handed over and the queue is empty |
| `Reconciler.SweepOnce` | doc-search/app/workers/reconciler.py:31-54 | the stalest rows are republished in order up to the first failure, each event asking to index its row's version under its row's tenant; the count returned is that of the rows found |
| `Reconciler.BackedBatchBumpsTheOwners` | doc-search/app/services/document_service.py:65-73 | queued events keep naming their rows' tenants while rows change, so a batch bumps exactly the owners |
| `Reconciler.RoundProgress` | doc-search/app/workers/reconciler.py:31-54 | a sweep-drain-process round lowers the number of PENDING rows by at least min(limit, number) |
| `Reconciler.SweepsRecoverEverything` | doc-search/app/workers/reconciler.py:1-11 | after enough rounds for the limit every row that is not deleted is INDEXED and in the index at its version, whatever was lost before |
| `Reconciler.ConvergesExactlyWhenDeletesArrive` | doc-search/app/workers/reconciler.py:1-11 | after those rounds the index holds exactly the documents that are not deleted if and only if each deleted document it still showed was named by some event |
| `Reconciler.EveryRunIsRecovered` | doc-search/app/workers/reconciler.py:1-11 | from every state that API calls and overlapping, crashing workers can reach, enough rounds index every row that is not deleted with its own content, and the index converges exactly when the remaining deletes are named |
| `Pipeline.AcknowledgedForGood` | doc-search/app/repositories/document_repository.py:50-57 | in every interleaving an INDEXED or DELETED row stays INDEXED or DELETED, and in the index until deleted |
| `Pipeline.EveryDocumentCanBeRecovered` | doc-search/app/workers/processor.py:98-133 | from every reachable state, whatever other workers are in the middle of, a batch of an idle worker acknowledges a document for good, whatever comes after |
| `Pipeline.CrashedWorkersRecover` | doc-search/app/workers/processor.py:98-133 | a worker that crashed in the middle of a batch can acknowledge any document in a batch of its own |
| `EndToEnd.MarkedForGood` | doc-search/app/workers/processor.py:115-133 | once a worker whose index write was confirmed has marked, the row is INDEXED or DELETED for ever after, in any interleaving |
| `Reconciler.LostDeleteStaysVisible` | doc-search/app/repositories/document_repository.py:71-79 | a deleted document whose event was lost stays in the index through any number of sweeps |
| `Reconciler.ALostDeleteIsNeverRepaired` | doc-search/app/repositories/document_repository.py:68-81 | after that run any number of sweeps finds nothing to publish and leaves the deleted document in the index |
| `Consumer.DeathCount` | doc-search/app/workers/consumer.py:32-40 | the sum of the readable counts of the header |
| `Consumer.EachEntryCounts` | doc-search/app/workers/consumer.py:35-39 | a readable entry adds its count wherever it stands in the header, and an unreadable one nothing |
| `Consumer.BatchLoop` | doc-search/app/workers/consumer.py:68-94 | every well-formed message is in exactly one batch, in order; no batch is empty or longer than the configured size; malformed messages are discarded |
| `Consumer.NothingLingers` | doc-search/app/workers/consumer.py:72-93 | whenever the loop examines its batch and keeps it, the batch is not full and each of its messages came less than the linger time ago |
| `Consumer.FlushesExactlyWhenDue` | doc-search/app/workers/consumer.py:68-94 | a turn flushes exactly when something is held and either the batch is full or the linger time has passed since the first message, well-formed or not, after the previous flush; otherwise the batch is kept with the new message |
| `Consumer.ArrivalsAreTheMessages` | doc-search/app/workers/consumer.py:74-80 | the kept and the discarded messages are those that came, as they are well-formed or not |
| `Consumer.ArrivalsInOrder` | doc-search/app/workers/consumer.py:74-80 | in the order in which they came |
| `Consumer.Settle` | doc-search/app/workers/consumer.py:106-115 | a message goes to the retry queue when its document is among the failed ids and its deaths leave it another attempt, and is acknowledged otherwise; the dead-letter queue gains the body of each one whose document failed for the last time |
| `Consumer.VerdictsPartition` | doc-search/app/workers/consumer.py:107-115 | each message of a batch falls under exactly one verdict; which one, and what is done for it, is stated by `Consumer.Settle` |
| `Consumer.Flush` | doc-search/app/workers/consumer.py:103-115 | one flush: while the engine answers, a message is retried exactly when the cluster refused its existing document and attempts are left, and one refused for the last time is acknowledged only with a dead copy; in an outage nothing that can be retried is acknowledged; what is not retried is in the index as its row says or names no row |
| `Delivery.SettleTracked` | doc-search/app/workers/consumer.py:107-115 | what the consumer does with a held message is the settling step of the queue model whose verdict is that its document is among the failed ids |
| `Delivery.NoMessageIsLost` | doc-search/app/clients/queue.py:98-129 | at every point of every run a published message is in the main queue, held, waiting for a retry or copied to the dead-letter queue, or was found not to have failed |
| `Delivery.DeliveriesAreBounded` | doc-search/app/workers/consumer.py:109-113 | a message is delivered at most `max_index_attempts` times plus once per lost connection, and takes part in a bounded number of steps |
| `Delivery.PoisonedDeliveries` | doc-search/app/workers/consumer.py:109-113 | a message that always fails ends in the dead-letter queue after exactly max deliveries when a trip adds one to its header, and floor(max / 2) + 1 when it adds two |
| `Delivery.NeverStuck` | doc-search/app/clients/queue.py:114-129 | a message that is not gone can always take another step |
| `Delivery.LossesAreNotCounted` | doc-search/app/workers/consumer.py:32-40 | lost connections are not counted by the header: without them in the bound there is none |
| `SearchCache.EveryRunKeeps` | doc-search/app/services/search_service.py:55-103 | freshness and single-flight invariants hold in every interleaving of searches, workers, failures, cancellations and evictions |
| `SearchCache.SearchesSeeEarlierBatches` | doc-search/app/services/search_service.py:33-76 | a search that could read its counter, for a tenant whose counter was not lost, never returns an answer computed before the bulk write of a batch that had bumped its tenant before it started, nor before an invalidation that the API had made by then; the answer is for its tenant and for a request with the normal form of its own |
| `SearchCache.UnreadableCounterCanServeOldAnswers` | doc-search/app/services/search_service.py:33-38 | a run in which a failed counter read serves an answer older than a batch the search started after |
| `SearchCache.LapsedCounterCanServeOldAnswers` | doc-search/app/services/search_service.py:33-38 | a run in which a lost counter does |
| `SearchCache.OldAnswersServedExactly` | doc-search/app/services/search_service.py:33-103 | in every interleaving a search that has its generation and started after a batch can be given an answer older than the batch exactly when one is in the cache under that generation, held by a leader about to fill the cache, or held by a leader of its own process about to finish; none is when the counter was never lost and the generation covers the batch, which it does if the counter was also readable |
| `SearchCache.ServedOldExactlyWhenAround` | doc-search/app/services/search_service.py:55-103 | the same for any age, from any state of the invariant |
| `SearchCache.DroppingEndsOldAnswers` | doc-search/app/services/search_service.py:55-76 | an old answer that only the cache holds can be served until the cache drops it, and never after |
| `SearchCache.CoveringGenerationExcludesOldAnswers` | doc-search/app/services/search_service.py:33-76 | for a tenant whose counter was never lost, no answer older than a batch is around under a generation at or above the batch's bump |
| `SearchCache.OneLeaderPerKey` | doc-search/app/services/search_service.py:78-103 | in every interleaving at most one engine query per key runs in a process, so at most one for all requests of a tenant and generation with one normal form |
| `SearchCache.InflightExactlyWhileLed` | doc-search/app/services/search_service.py:84-103 | in every interleaving the in-flight map holds a key exactly while a search leads for it, under that search's own future |
| `SearchCache.LeaderStops` | doc-search/app/services/search_service.py:98-103 | a leader that ends removes its own entry and nobody else's, and completes its future unless it was cancelled |
| `SearchCache.FollowersShareTheLeadersFate` | doc-search/app/services/search_service.py:84-103 | in every interleaving a follower returns its leader's response, or raises because its leader raised |
| `SearchCache.CancelledLeaderStrandsFollowers` | doc-search/app/services/search_service.py:92-103 | whatever happens next, a follower of a cancelled leader gets neither an answer nor an error |
| `SearchCache.AFollowerIsStranded` | doc-search/app/services/search_service.py:92-103 | a run from the start in which one search leads, one follows, and the leader is cancelled |
| `SearchCache.FollowerSettlesExactlyWhenNotStranded` | doc-search/app/services/search_service.py:84-103 | a follower can still be answered exactly when its leader was not cancelled |
| `Cache.InMemoryCache.Read` | doc-search/app/clients/cache.py:86-95 | an entry is visible until its expiry has passed, and reading an expired one drops it |
| `Cache.InMemoryCache.Write` | doc-search/app/clients/cache.py:97-100 | the key holds the value until now plus its time to live |
| `Cache.InMemoryCache.Remove` | doc-search/app/clients/cache.py:102-105 | exactly the named keys go |
| `Cache.InMemoryCache.Increment` | doc-search/app/clients/cache.py:107-111 | one more than what was visible (nothing and empty text count as 0) for a day; text that is not an integer is an error |
| `Cache.CacheClient.GetJson` | doc-search/app/clients/cache.py:131-144 | an unreachable cache and a JSON null read as a miss; text that is not JSON is deleted and reads as a miss |
| `Cache.CacheClient.CurrentGeneration` | doc-search/app/services/search_service.py:33-38 | the integer that the visible JSON value converts to, 0 when unreachable, missing, null, not JSON or not convertible, and an uncaught error for infinity; text that is not JSON is dropped |
| `Cache.ReadersGetWhatTheyAreOwed` | doc-search/app/clients/cache.py:86-111 | over every run of one clock a reader sees the latest write unless deleted or too old: dropping entries lazily is invisible |
| `Cache.GenerationCountsBumpsExactly` | doc-search/app/clients/cache.py:107-111 | the generation read is the number of bumps so far exactly when the counter was never idle for more than a day |
| `Cache.CacheClient.Delete` | doc-search/app/clients/cache.py:153-158 | exactly the named keys go, and nothing while the cache is unreachable |
| `DocumentCache.DeletedIsServedExactly` | doc-search/app/services/document_service.py:77-104 | in every interleaving of reads and deletes, a document whose delete has returned can be served to a later read exactly when the cached copy could not be removed or a read still holds a copy taken before the commit |
| `DocumentCache.ServedExactlyWhenACopyIsAround` | doc-search/app/services/document_service.py:77-91 | a deleted document can be served to a new read exactly while a copy is cached or about to be |
| `DocumentCache.ExpiryEndsIt` | doc-search/app/services/document_service.py:77-91 | a deleted document that only the cache still holds can be served until its copy expires, and never after |
| `DocumentCache.ARaceServesADeletedDocument` | doc-search/app/services/document_service.py:85-104 | a run without any failure after which the deleted document is served |
| `DocumentCache.AnUnreachableCacheServesADeletedDocument` | doc-search/app/services/document_service.py:101-103 | a run in which the delete could not reach the cache, after which the document is served |
| `Text.NormalizeKeepsTokens` | doc-search/app/services/cache_keys.py:20-22 | a query and its normal form have the same tokens |
| `Text.TokensAreMeaningful` | doc-search/app/clients/inmemory_engine.py:28-33 | tokens are never empty and never stop words |
| `Text.TokensAreTheRuns` | doc-search/app/clients/inmemory_engine.py:28-33 | the tokens, in order, are all the maximal runs of letters and digits of the lower-case text that are no stop words, and nothing else |
| `Text.OnlyStopWordsGo` | doc-search/app/clients/inmemory_engine.py:29-33 | exactly the listed stop words are dropped, and every other word keeps its place |
| `Text.CaseIsIgnored` | doc-search/app/services/cache_keys.py:20-22 | spellings that differ in case alone have one normal form |
| `Text.OuterBlanksAreIgnored` | doc-search/app/services/cache_keys.py:20-22 | white space around a query does not change its normal form |
| `Text.InnerBlanksAreOne` | doc-search/app/services/cache_keys.py:20-22 | any white space between two words has the normal form of one blank |
| `CacheKeys.CanonicalInjective` | doc-search/app/services/cache_keys.py:29-31 | equal canonical texts come from equal page, size and flags and queries with one normal form, whatever separators the query contains |
| `CacheKeys.CanonicalKeepsTheNormalForm` | doc-search/app/services/cache_keys.py:20-33 | two requests have one canonical text exactly when they have one normal form |
| `CacheKeys.NormalFormKeepsTokens` | doc-search/app/services/cache_keys.py:20-22 | requests with one normal form ask for the same words, page, size and options |
| `CacheKeys.SearchKeysSeparateRequests` | doc-search/app/services/cache_keys.py:29-33 | unless digests collide, equal search keys mean equal tenant, generation, page, size, flags and tokens |
| `CacheKeys.PurposesNeverCoincide` | doc-search/app/services/cache_keys.py:25-46 | search, generation, document and rate-limit keys never coincide, within or across tenants |
| `CacheKeys.OtherKeysInjective` | doc-search/app/services/cache_keys.py:25-46 | generation, document and rate-limit keys determine their tenant and their other fields |
| `RateLimiter.SharedStore.TakeToken` | doc-search/app/services/rate_limiter.py:31-63 | a check is allowed exactly when a whole token is at hand, which it takes; a denial reports the time after which the bucket holds one again; the bucket is that of a key that expires after 120 seconds |
| `RateLimiter.Limiter.Check` | doc-search/app/services/rate_limiter.py:94-122 | the shared bucket decides while its answer comes back and the local one otherwise; the caller is allowed exactly when that bucket had a whole token, which it loses, and is told the whole tokens left, the time to the next one and whether the check was degraded; a script whose answer was lost has charged the shared bucket too, an unreachable store nothing |
| `RateLimiter.Limiter.CheckLocal` | doc-search/app/services/rate_limiter.py:124-135 | the same of the local bucket, without expiry; a denial at rate zero raises |
| `RateLimiter.Conservation` | doc-search/app/services/rate_limiter.py:49-60 | admitted checks plus tokens left never exceed capacity plus refill |
| `RateLimiter.WindowBound` | doc-search/app/services/rate_limiter.py:1-11 | one bucket admits in any window at most capacity plus rate times its length, after any history |
| `RateLimiter.CheckAll` | doc-search/app/services/rate_limiter.py:94-122 | in a run of calls in which the shared store answers, loses answers or is down at will, the callers told "allowed" by either bucket in a window keep to its budget (for limits of at least 3 and burst ratios of at most 2) |
| `RateLimiter.QuotaIsPerMinute` | doc-search/app/services/rate_limiter.py:90-96 | the refill is the limit in sixty seconds and the burst the larger of five and its share of the limit |
| `RateLimiter.FleetBound` | doc-search/app/services/rate_limiter.py:15-18 | N replicas switching freely between the shared and their local buckets, each on its own clock, admit together at most one bucket's budget times the number of buckets that the window's checks land on, hence at most N + 1 times it (the shared key not expiring, or its expiry being harmless; a lost answer is a check of both buckets) |
| `RateLimiter.FleetBoundIsAttained` | doc-search/app/services/rate_limiter.py:15-18 | for every N and every positive limit a run in which all N + 1 buckets spend their whole budget of one window |
| `RateLimiter.ReplicasBoundExactly` | doc-search/app/services/rate_limiter.py:15-18 | N times the limit fails for every positive limit when a window's checks may land on N + 1 buckets, and for limits of at least 3 and burst ratios of at most 2 it holds exactly when they land on at most N |
| `RateLimiter.RetryAfterIsExactForEveryLimit` | doc-search/app/services/rate_limiter.py:49-58 | for every positive limit, on both kinds of bucket: every check before the announced wait is denied, and the first check after those is admitted exactly when the wait is over |
| `RateLimiter.HeaderSuffices` | doc-search/app/api/exception_handlers.py:33 | waiting the whole seconds of the Retry-After header is enough (section 4 of RFC 6585) |
| `RateLimiter.HeaderIsTight` | doc-search/app/api/exception_handlers.py:33 | the header is above the wait by a second at most |
| `RateLimiter.ExpiryInvisibleExactly` | doc-search/app/services/rate_limiter.py:44-61 | the expiry of the key changes no decision of any run exactly when the limit is at least 3 and the burst ratio at most 2 |
| `RateLimiter.SharedLimitHoldsExactly` | doc-search/app/services/rate_limiter.py:90-106 | the window bound holds of every run of the expiring shared key exactly under that condition |
| `CircuitBreaker.Guard.BeforeCall` | doc-search/app/core/resilience.py:59-66 | a call is refused exactly when the circuit is open and the recovery time is not over; an open circuit past it becomes half open |
| `CircuitBreaker.Guard.OnSuccess` | doc-search/app/core/resilience.py:68-73 | a success closes the circuit and clears the count |
| `CircuitBreaker.Guard.OnFailure` | doc-search/app/core/resilience.py:75-81 | a failure is counted, and opens the circuit at the threshold or when half open |
| `CircuitBreaker.FieldsFollowTheOutcomes` | doc-search/app/core/resilience.py:59-93 | in every interleaving the counter is the failures since the last success, the circuit is closed exactly below the threshold, and the opening time is that of the latest failure |
| `CircuitBreaker.RefusedExactlyWhenRecentlyFailing` | doc-search/app/core/resilience.py:59-66 | a call is refused exactly when the last threshold outcomes all failed and the latest failure is within the recovery time |
| `CircuitBreaker.WithRetry` | doc-search/app/core/resilience.py:96-118 | calls until the first success, the first uncatchable error or the last attempt, and returns the result of the last call |
| `CircuitBreaker.Call` | doc-search/app/core/resilience.py:83-93 | a refused call reaches nothing; an admitted one returns what its last attempt gave, and leaves the breaker closed and cleared after a value, one failure on (open at the threshold or when it was not closed) after an ordinary error, and as admitted after a classified or fatal one |
| `CircuitBreaker.Calls` | doc-search/app/core/resilience.py:59-93 | in a run of calls one after the other, a call is refused exactly when the last threshold counted results before it were failures and the latest of them ended less than the recovery time before |
| `CircuitBreaker.OutageBound` | doc-search/app/clients/opensearch_engine.py:221-223 | during an outage sequential callers reach the engine at most 2 * (threshold - failures so far + floor(T / recovery)) times |
| `CircuitBreaker.Outage` | doc-search/app/clients/opensearch_engine.py:221-223 | requests sent one after the other through breaker and retry while every attempt fails: the calls counted as they are made are two per admitted request and keep the bound |
| `EditDistance.EditDistanceAtMostOne` | doc-search/app/clients/inmemory_engine.py:201-218 | for lengths at most one apart, true exactly when the Levenshtein distance is at most one |
| `EditDistance.TwoPointersAreLevenshtein` | doc-search/app/clients/inmemory_engine.py:201-218 | the two-pointer walk and the recursive distance are the same relation |
| `EditDistance.GuardIsNeeded` | doc-search/app/clients/inmemory_engine.py:194-218 | for all words the test is right exactly when their lengths are within one or the shorter does not begin the longer with one character dropped, with an input where it is wrong |
| `EditDistance.WalkAccepts` | doc-search/app/clients/inmemory_engine.py:206-218 | for lengths any distance apart the walk accepts exactly the words of which the shorter begins the longer with one character dropped |
| `EditDistance.Closest` | doc-search/app/clients/inmemory_engine.py:190-198 | nothing exactly when no word is within one edit, otherwise a shortest such word |
| `Retrieval.Search` | doc-search/app/clients/inmemory_engine.py:72-127 | the page is a slice of the ranked list of the tenant's matching documents for the effective terms, by falling score and then rising id |
| `Retrieval.EffectiveTerms` | doc-search/app/clients/inmemory_engine.py:91-96 | a corpus word stands for itself; under typo tolerance a foreign word becomes a closest corpus word if there is one |
| `Retrieval.EffectiveUniqueExactly` | doc-search/app/clients/inmemory_engine.py:91-96 | the terms searched for are determined by corpus and query exactly when the search is exact or no foreign word has two shortest close words |
| `Retrieval.DocumentFrequencies` | doc-search/app/clients/inmemory_engine.py:98-104 | the counter of a term is the number of documents that contain it |
| `Retrieval.ScoreDoc` | doc-search/app/clients/inmemory_engine.py:106-118 | matched terms and score are those of the definition over the whole corpus, whose meaning the next rows state |
| `Retrieval.OccurrencesDecide` | doc-search/app/clients/inmemory_engine.py:110-118 | at equal content length a term weighs more exactly where three times its title occurrences and its content occurrences come to more |
| `Retrieval.LongerContentWeighsLess` | doc-search/app/clients/inmemory_engine.py:111-118 | the same occurrences weigh less in a longer content |
| `Retrieval.RarerWeighsMore` | doc-search/app/clients/inmemory_engine.py:117-118 | a term held by fewer documents weighs more where it occurs as often |
| `Retrieval.ScoreIsAdditive` | doc-search/app/clients/inmemory_engine.py:112-118 | a score is the sum of what the terms contribute, wherever they stand |
| `Retrieval.OneTermInFull` | doc-search/app/clients/inmemory_engine.py:111-118 | what one term contributes, with its constants |
| `Retrieval.TitleMatchesRankFirst` | doc-search/app/clients/inmemory_engine.py:110-124 | in the ranked list of one word, at equal content length, the document with the larger weighted count comes first |
| `Retrieval.Rank` | doc-search/app/clients/inmemory_engine.py:124 | the list holds exactly the scored hits; scores never rise along it, and equal scores come by rising id |
| `Retrieval.ScoreSign` | doc-search/app/clients/inmemory_engine.py:112-121 | a score is positive exactly when some term matches |
| `Retrieval.ExactSearchFindsAllTerms` | doc-search/app/clients/inmemory_engine.py:119-122 | without typo tolerance a document matches exactly when it contains every term in title or content |
| `Retrieval.FuzzyFindsMore` | doc-search/app/clients/inmemory_engine.py:91-122 | everything the exact search finds, the tolerant search of the same text finds |
| `Retrieval.RankingIgnoresInsertionOrder` | doc-search/app/clients/inmemory_engine.py:124 | the ranked list is fixed by the set of stored documents and the query's tokens, for exact searches and for tolerant ones in which no foreign word has two shortest close words |
| `Retrieval.PagesCoverTheList` | doc-search/app/clients/search_engine.py:47-49 | successive pages concatenate to the list without gap or overlap |
| `Retrieval.ClampStaysInWindow` | doc-search/app/api/routes/search.py:45-49 | the clamped request stays within the result window exactly when a single page does, and a page that was within it is left alone |
| `Retrieval.TenantIsolation` | doc-search/app/clients/inmemory_engine.py:75-77 | no search ranks another tenant's document |
| `Retrieval.SharedEntrySharedPage` | doc-search/app/services/cache_keys.py:20-33 | two searches that share a cache key deserve the same page, exact ones always and tolerant ones when no foreign word has two shortest close words |
| `EndToEnd.DeletedDocumentsAreNeverServed` | doc-search/app/workers/processor.py:48-57 | with workers in any interleaving: once the batch that removed a document has bumped its tenant, no later search, however answered, gives a page with it, unless an index write of the document was sent after its removal and before the answer was computed; so never in runs without late writes |
| `EndToEnd.IndexedDocumentsAreFound` | doc-search/app/workers/processor.py:48-57 | with workers in any interleaving: once the batch that indexed a document has bumped its tenant, every later exact search asking only for its words ranks it until it is deleted; an empty answer cached during the indexing lag cannot hide it |
| `EndToEnd.HitsAreRows` | doc-search/app/services/search_service.py:1-6 | in every interleaving every hit is a document of the searching tenant with the content of its row |
| `EndToEnd.ServedExactlyByLastWrite` | doc-search/app/clients/inmemory_engine.py:56-127 | in every interleaving an exact search ranks a document exactly when it is the tenant's, contains all the words, and the last operation sent for it was an index write |
| `EndToEnd.ShownExactlyByLastWrite` | doc-search/app/clients/inmemory_engine.py:56-70 | in every interleaving the index holds a document exactly when the last operation sent for it was an index write |
| `EndToEnd.StaysRemovedExactly` | doc-search/app/clients/inmemory_engine.py:60-69 | in every interleaving a removed document stays out of the index exactly until an index write for it is sent |
| `EndToEnd.NoLateWritesExactly` | doc-search/app/clients/inmemory_engine.py:60-69 | a run is free of late writes exactly when no index write of a document comes after its removal |
| `EndToEnd.IndexedUntilDeleted` | doc-search/app/workers/processor.py:115-133 | whatever other workers do, a document whose write was confirmed is in the index until its row is deleted |

## Left out

- SearchCache.EveryRunKeeps: a coroutine cannot be a Dafny method that others interleave with, so `search` and `_single_flight` are transitions on values; the in-flight dictionary is a component of the state, not an object.
- SearchCache.SearchesSeeEarlierBatches: an engine query sees one index state; the refresh delay of a real cluster, which makes writes visible later, is not modelled.
- Pipeline.EveryRunKeeps: a database commit is one step; a transaction that is rolled back is a crash before the commit.
- RateLimiter.ReplicasBoundExactly: for limits below 3 or burst ratios above 2, where one shared bucket already breaks its own bound, it says that N + 1 buckets break N times the limit and nothing of fewer.
- RateLimiter.WindowBound: arithmetic is over reals, so floating-point rounding is not covered.
- Cache.CacheClient.CurrentGeneration: JSON that the decoder refuses for its size or depth, which raises, is not a case of the stored text.
- DocumentCache.DeletedIsServedExactly: `get` is transitions on values; the expiry of a cached copy is a step that may come at any time, so how long a copy is served is not bounded.
- The log is any strictly increasing function with log(1) = 0; score rounding in the response is not modelled.
- Text is ASCII: no Unicode case folding or white space.
- The digest is any function; that two requests do not collide is a hypothesis.
- Facets, highlighting, snippets, tags and metadata, response envelopes, TTL jitter and back-off delays.
- The cache of API keys.
- Redis, RabbitMQ, OpenSearch and the database themselves: atomic steps that may fail. Of the OpenSearch adapter only which item statuses count as success is used (`refused` lists the others).
- Prefetch limits, signals and connection set-up of the consumer; a failed copy to the dead-letter queue is a lost connection.
- Authentication, tenant seeding, health checks, metrics, logging, configuration and application wiring.
- Hard deletion of rows by a retention job: rows are only ever soft-deleted.
