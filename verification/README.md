# A verified model of the crawler's core

This project models the parts of the crawler where correctness depends on how many small steps fit
together, and proves what they guarantee. It has four groups of modules.

**Crawl and delivery protocols.** `Frontier` and `Engine` give the in-memory frontier and the crawl engine: as
classes that follow the source, and as a state machine in which any number of workers interleave and whose
steps the methods of the classes are proved to take. A worker suspends only while it waits for an item and
while the pipeline processes one; everything after `process` has returned runs without suspending, so it is
one step. `EngineSafety`, `EngineTheorems` and `EngineLimits` prove what every run keeps, that every crawl
stops, that one worker searches breadth-first, and exactly when several workers spoil that. `Delivery` is the
distributed worker over Kafka: publishing, assignment, fetching, handling, committing, crashes, rebalances,
lost acknowledgements and redelivery. `DeliverySafety`, `DeliveryTheorems` and `DeliveryBounds` hold for all of its
runs, and `LostChildren` says exactly which steps lose a child. `Lineage` holds for runs without crashes;
`DeliveryWork`, `DeliveryProgress` and `DeliveryCompletion` prove that such runs end, and end with everything
handled (`Descent` is the order they descend in); `DomainOwner` proves that in them one worker handles a
domain. `Worker` ties an uninterrupted call of `_handle` to the interleaved steps. `Gates` is the nesting of
the global gate, the host semaphore and the limiter lock, and `FetchGates` the objects that take its steps.
`Pipeline` is one URL through robots, breaker, budget, fetch and dedup, in steps that calls may interleave.

**Indexes against the simple thing they speed up.** `Ring`, `RingTheorems` and `Rebalance` compare
the consistent-hash ring with "the next point clockwise". `ContentDedup` compares LSH buckets with a
linear Hamming scan, and `Simhash` the counter loops with a majority vote. `Bloom` compares the byte
array and its Redis script with a set of positions; `BloomIndices` says when a key's positions
differ. `Lru` and `LruStack` compare the ordered dictionary with the list of accesses.

**Arithmetic over runs.** `TokenBucket` (the script), `LocalLimiter`, `RedisLimiter`, `CircuitBreaker`,
`Budget`. Where a class carries a ghost log or history, the laws of runs hold for what it has done.

**Scheduling.** `Recrawl`: the heap of due times and the back-off of intervals.

`Wrappers`, `Bits` and `Reals` hold shared helpers. Hash functions are parameters, so every result
holds for any hash. Clocks, page contents, robots answers, failures of Redis and Kafka, and the choices
of the scheduler are inputs or nondeterministic steps, so every result holds for all of them. Floats
are real numbers.

## Where the code and its documentation differ

The model follows the code. Each difference is a theorem that says exactly when the documented
promise holds.

- `max_pages` is a strict cap only with at most one worker or with no pages at all
  (`EngineLimits.CapIsStrictIff`). The bound that always holds is `max_pages + concurrency - 1`, and it
  is reached (`EngineLimits.PageBoundIsTight`).
- A FIFO frontier gives shortest depths for every web only with at most one worker, a depth limit of at
  most one, or a page budget of at most one (`EngineLimits.AlwaysShortestIff`).
- The half-open breaker admits every call until an outcome is recorded. At most one probe is out at any time
  if and only if nobody asks while a probe is out before some outcome is recorded, and no probe outlasts a
  re-opening and its cooldown (`SingleProbe.SingleProbeIff`). The second clause matters: the late failure of
  an older fetch re-opens the circuit while the probe is out (`SingleProbe.LateFailureBreaksIt`). When every
  call ends within the cooldown, on a clock that does not step back, the first clause alone decides
  (`SingleProbe.PromptSingleProbeIff`).
- `remove_node` leaves a sound ring if and only if none of the node's virtual points is shared with
  another virtual node; otherwise a listed hash dangles (`Ring.ConsistentHashRing.RemoveNode`).
- Reprocessing a message is not harmless for its children. A child is lost if and only if some step
  dropped it: a call marked it as new and did not go on to enqueue it, or its enqueue failed before the
  record was written (`LostChildren.LostIffDropped`). Every marked URL has its one child record, or is
  pending in one call, or was dropped (`FateOfMarked`). If the pending call's worker has crashed, no
  redelivery enqueues the URL (`StrandedForGood`), even though the page itself is handled again and
  committed (`CrashStrands`).
- The Redis budget charges refused requests, so it reports the same remainder as the in-memory budget
  only when the cost divides the limit (`Budget.SameRemainingIff`).
- Resetting the recrawl interval does not apply the maximum, so geometric back-off under the cap needs
  `min_interval <= max_interval` (`Recrawl.BacksOffIff`).
- The pigeonhole argument behind the LSH index needs `threshold < bands`; otherwise near-duplicates are
  missed, unless the bands have no bits (`ContentDedup.NoPairMissedIff`).

## Model

| member | source | states |
|---|---|---|
| Frontier.MemoryFrontier.Add | crawler/frontier/memory.py:20-25 | A URL enters the queue if and only if it was never added before; it goes to the back and counts as unfinished. |
| Frontier.MemoryFrontier.Get | crawler/frontier/memory.py:27-28 | Takes the oldest item and leaves the seen-set and the unfinished count alone. |
| Frontier.MemoryFrontier.TaskDone | crawler/frontier/memory.py:30-31 | Counts one item as finished. |
| Engine.CrawlEngine.Seed | crawler/pipeline/engine.py:59-67 | Invalid seeds are skipped; the valid ones fill the frontier at depth 0, their domains are the seed domains: the initial state of the step machine. |
| Engine.CrawlEngine.Next | crawler/pipeline/engine.py:81-87 | A worker takes the oldest item and, over the page budget, finishes with it at once: a `Take` step. |
| Engine.CrawlEngine.Complete | crawler/pipeline/engine.py:92-117 | Once the pipeline has answered, counting, expanding and `task_done` together are one `Finish` step. |
| Engine.CrawlEngine.Abort | crawler/pipeline/engine.py:90-93 | When the pipeline has raised, the item is finished without a result: a `Fail` step. |
| Engine.CrawlEngine.Handle | crawler/pipeline/engine.py:95-117 | Counts a fetched page, and expands it into the frontier exactly when it is no duplicate and above the depth limit, as the step machine does. |
| EngineSafety.ExpandAppends | crawler/pipeline/engine.py:104-117 | Expanding appends exactly the new links that pass the length and domain filters, each once, one level deeper. |
| EngineSafety.SeededItems | crawler/pipeline/engine.py:59-67 | The frontier starts with exactly the valid seeds, each once, at depth 0. |
| EngineSafety.StepKeepsInv | crawler/pipeline/engine.py:81-117 | Every step of any worker keeps the accounts, the page bound, and the provenance and expansion of every item. |
| EngineSafety.RunInv | crawler/pipeline/engine.py:81-117 | Every interleaving of any number of workers satisfies that invariant, whatever the pipeline answers. |
| EngineTheorems.CrawlSafety | crawler/pipeline/engine.py:81-98 | In every run each URL is taken at most once, at most `max_pages + concurrency - 1` pages are fetched, and unfinished equals queued plus in flight. |
| EngineTheorems.CrawlStaysInside | crawler/pipeline/engine.py:104-112 | Whatever enters the frontier is a seed or is short enough, shallow enough and of an allowed domain. |
| EngineTheorems.CrawlTakesIn | crawler/pipeline/engine.py:104-115 | The converse over every run: all seeds are taken in, and so is each link of an expanded page that is short enough and in a listed domain, or in that of some seed when only those are allowed. |
| EngineTheorems.SeedDomainsExact | crawler/pipeline/engine.py:61-66 | The seed domains are those of the valid seeds, no more and no fewer. |
| EngineTheorems.ProcessedIsFetched | crawler/pipeline/engine.py:95-98 | In every run `processed` is the number of pages whose result says that they were fetched. |
| EngineTheorems.StepDecreases | crawler/pipeline/engine.py:81-117 | Pages left before the bound, then twice the queued plus the in-flight items, decreases lexicographically at every step. |
| EngineTheorems.NoInfiniteCrawl | crawler/pipeline/engine.py:81-117 | From any reachable state every infinite sequence contains a pair that is no step. |
| EngineTheorems.CrawlTerminates | crawler/pipeline/engine.py:59-117 | The crawl of a web of any size ends under every interleaving. |
| EngineTheorems.StuckIffJoined | crawler/pipeline/engine.py:69-93 | A run can go on if and only if there is a worker and something is unfinished: no deadlock, and `join` returns at the end. |
| EngineTheorems.DepthHasPath | crawler/pipeline/engine.py:101-115 | With any number of workers an item's depth is the length of a chain of admissible links from a seed. |
| EngineTheorems.RunOrdered | crawler/frontier/memory.py:1-5 | With one worker the items are taken in order of depth, and the queue never holds items of more than two neighbouring depths. |
| EngineTheorems.PathBoundsDepth | crawler/pipeline/engine.py:101-115 | With one worker a chain of links bounds the depth of the item it leads to, and short chains lead to seen URLs. |
| EngineTheorems.BreadthFirst | crawler/pipeline/engine.py:59-117 | With one worker depths are shortest distances, items are taken in order of depth, and the seen-set is exactly what lies within `max_depth` links. |
| EngineLimits.PageBoundIsTight | crawler/pipeline/engine.py:85-98 | For every configuration some crawl fetches as many pages as the bound allows. |
| EngineLimits.CapIsStrictIff | crawler/pipeline/engine.py:85-98 | `max_pages` is never exceeded if and only if there is at most one worker or nothing may be fetched. |
| EngineLimits.SlowSeed | crawler/pipeline/engine.py:81-117 | With two workers or more a slow seed makes a page one level too deep. |
| EngineLimits.AlwaysShortestIff | crawler/pipeline/engine.py:81-117 | Depths are always shortest if and only if `concurrency <= 1`, `max_depth <= 1` or `max_pages <= 1`. |
| DeliverySafety.NextTasks | crawler/worker.py:125-164 | Every completed outcome is backed by the logs, across all steps: the copy that a retry or a re-publish claims to have written is there. |
| DeliverySafety.NextOffsets | crawler/worker.py:98-111 | Everything below a committed offset was completed by some call; everything between it and the consumer's position is in a live batch or completed. |
| DeliverySafety.NextAttempts | crawler/worker.py:157-164 | Every step keeps the attempts of every record ever written between 0 and `max_retries`. |
| DeliverySafety.NextOnce | crawler/pipeline/distributed.py:31-38 | Every step keeps each URL written as a child at most once and in the hands of at most one call. |
| DeliverySafety.RunInv | crawler/worker.py:98-164 | All of this holds in every run, with crashes, rebalances and redelivery. |
| DeliveryTheorems.NoMessageLost | crawler/worker.py:98-164 | A published record is at or beyond its committed offset, or some call completed it with an outcome that the logs bear out. |
| DeliveryTheorems.CommitsAdvance | crawler/worker.py:109-111 | Committed offsets never move back and never pass the end of the log. |
| DeliveryTheorems.ChildAtMostOnce | crawler/pipeline/distributed.py:28-38 | Fleet-wide, under every interleaving and redelivery, a URL is enqueued as a child at most once. |
| DeliveryTheorems.AttemptsBounded | crawler/worker.py:157-164 | No crash or redelivery pushes a message past `max_retries`. |
| Delivery.BackoffDoubles | crawler/worker.py:163 | For every number of attempts the delay is positive and at most 30 s; it is 1 s for none and doubles with each until it reaches 30 s. |
| Delivery.RetryWaits | crawler/worker.py:162-164 | A retried copy has one attempt more and becomes due later than now and at most 30 s from now; its URL and depth are kept. |
| DeliveryBounds.RunStaysBounded | crawler/worker.py:99-109 | In every run, crashes and redelivery included, a child is one level below its page, within the depth limit and without attempts, and no worker holds more than 100 messages. |
| DeliveryTheorems.LostForever | crawler/pipeline/distributed.py:33-37 | A URL that is marked, not enqueued and not about to be is never enqueued as a child by any later step. |
| DeliveryTheorems.ChildCanBeLost | crawler/worker.py:8-10 | A run without any crash that loses a child: its enqueue fails after it was marked. |
| LostChildren.NextDrops | crawler/pipeline/distributed.py:33-37 | A step loses a child if and only if it drops it: it marks the URL first without handing it on, or fails to enqueue it. |
| LostChildren.LostIffDropped | crawler/pipeline/distributed.py:33-37 | In every run a child is lost if and only if some step dropped it. |
| LostChildren.FateOfMarked | crawler/pipeline/distributed.py:26-37 | In every run a URL is marked if and only if it has its child record, is pending in a call or was dropped, and never two of these. |
| LostChildren.StrandedStays | crawler/worker.py:98-111 | Once a crash has orphaned the call that was to enqueue a URL, only a step of that call changes this, and decides between child and loss. |
| LostChildren.StrandedForGood | crawler/worker.py:98-111 | Otherwise the URL is never enqueued, however often its page is delivered again. |
| LostChildren.CrashStrands | crawler/worker.py:8-10 | A run in which that happens: the crash falls between mark and enqueue, another worker handles the page again and commits. |
| Lineage.ForwardsDown | crawler/worker.py:134-164 | Each forwarded copy ranks exactly one below its origin, in twice the attempts left plus one while in the retry topic. |
| Lineage.RankDetermines | crawler/worker.py:134-164 | Two copies of one message with one rank are one record: lineages do not branch. |
| Lineage.OneEnd | crawler/worker.py:134-164 | A lineage has one end. |
| Lineage.OneLiveCopyOrOutcome | crawler/worker.py:125-164 | Without crashes each message has exactly one live copy or one final outcome. |
| Lineage.ProcessedAtMost | crawler/worker.py:145-164 | Without crashes a message is processed at most `max_retries + 1` times. |
| Lineage.AttemptsCounted | crawler/worker.py:145-164 | The calls counted there are all those on copies of the message, whichever copy it is asked of. |
| Lineage.FailedCallEnds | crawler/worker.py:149-164 | A failed call sends its message to the dead-letter queue if and only if it was the last attempt, otherwise to the retry topic. |
| Lineage.DeadAfterAllAttempts | crawler/worker.py:157-161 | What was dead-lettered failed at its last attempt, and every earlier attempt had been made, had failed and had gone to the retry topic. |
| DeliveryProgress.NextConsumes | crawler/worker.py:98-164 | Each step of a calm run uses up one piece of work and makes only pieces that come later: children after their page, copies after their origin. |
| Descent.NoEndlessDescent | crawler/worker.py:98-164 | No sequence of work vectors goes down for ever, so no bound on the links of a page is needed. |
| DeliveryProgress.NoEndlessDelivery | crawler/worker.py:98-164 | Without crashes, lost acknowledgements and messages from outside, every sequence of steps ends. |
| DeliveryCompletion.LiveCanGoOn | crawler/worker.py:98-164 | Whatever work is left, some step can be taken: delivery does not deadlock. |
| DomainOwner.ProcessedByOwner | crawler/frontier/kafka_frontier.py:97-112 | With the partition a function of the domain, a call that processes a domain is in the hands of the owner of that partition. |
| DomainOwner.OneWorkerPerDomain | crawler/frontier/kafka_frontier.py:3-7 | At any two times of a calm run, calls that process one domain are in the hands of one worker. |
| DomainOwner.SomebodyHolds | crawler/worker.py:99-110 | Every unfinished call is in some worker's batch. |
| DeliveryCompletion.StuckIsDone | crawler/worker.py:98-164 | A calm run that cannot go on has finished every call and committed every record of every partition. |
| Worker.NewLinksExact | crawler/pipeline/distributed.py:33-37 | The gate lets exactly the unseen links through, each once. |
| Worker.NewLinksInOrder | crawler/pipeline/distributed.py:33-37 | They come in the order in which the page first names them. |
| Worker.ChildrenAre | crawler/pipeline/distributed.py:35-37 | Each is enqueued as a message one level deeper, without attempts and without a delay. |
| Worker.CrawlWorker.ScheduleRetry | crawler/worker.py:157-164 | One copy goes to exactly one place: the dead-letter queue after the last attempt, else the retry topic with one attempt more and `min(2^attempts, 30)` seconds of delay. |
| Worker.CrawlWorker.ProcessMessage | crawler/pipeline/distributed.py:31-38 | The unseen links of a fetched original page above the depth limit are enqueued once each, and all its links are marked. |
| Worker.CrawlWorker.EnqueueNew | crawler/pipeline/distributed.py:33-37 | The loop enqueues the unseen links in order and marks all. |
| Worker.CrawlWorker.Handle | crawler/worker.py:125-155 | Every branch of `_handle`: undecodable, retry topic, too deep, raised, fetch error and success, with all four stores. |
| Worker.LinksPlayed | crawler/pipeline/distributed.py:33-37 | The uninterrupted link loop is a run of the single steps of the interleaved model with the same effect. |
| Worker.HandlePlayed | crawler/worker.py:145-155 | A whole uninterrupted call on a page with links is such a run. |
| Worker.OtherBranchesPlayed | crawler/worker.py:128-164 | So is the call in every other branch, with the single record it sends. |
| Ring.OneSortedList | crawler/sharding/consistent_hash.py:43 | A bag of hashes has only one sorted list. |
| Ring.BisectFindsNext | crawler/sharding/consistent_hash.py:61-64 | The first entry strictly after the key's hash, wrapping round, is the next point clockwise. |
| Ring.ConsistentHashRing.constructor | crawler/sharding/consistent_hash.py:22-30 | The ring of the initial nodes is valid. |
| Ring.DecimalIsNumeral | crawler/sharding/consistent_hash.py:41 | The index in a virtual node's name is written in digits without a leading zero that stand for the index. |
| Ring.NamesDiffer | crawler/sharding/consistent_hash.py:41 | No two virtual nodes, of whatever nodes and whatever their names, are hashed under one string. |
| Ring.SomeHashIsCollisionFree | crawler/sharding/consistent_hash.py:40-43 | Any nodes with at most 2^32 virtual nodes in all are free of collisions under some hash: the hypothesis of the theorems below can always be met. |
| Ring.EveryPointPlaced | crawler/sharding/consistent_hash.py:40-43 | On a valid ring every virtual node of every node is listed, at the hash of `node#index`. |
| Ring.ConsistentHashRing.AddNode | crawler/sharding/consistent_hash.py:36-43 | With or without collisions the ring keys are exactly the points of the nodes, each mapped to a node that has it, and the list has one entry per virtual node. |
| Ring.ConsistentHashRing.RemoveNode | crawler/sharding/consistent_hash.py:45-54 | The ring loses exactly the node's points; the result is valid if and only if no virtual node of the removed node shared its point, otherwise a listed hash has no ring entry. |
| Ring.SharedPointBreaksGet | crawler/sharding/consistent_hash.py:45-64 | Two nodes that share a point: after one has left, `get` raises `KeyError`. |
| Ring.ConsistentHashRing.Get | crawler/sharding/consistent_hash.py:56-64 | The owner of the first listed point after the key's hash, wrapping round; no owner if and only if there are no nodes; `KeyError` for a dangling hash. |
| RingTheorems.CollisionFreeIsUnshared | crawler/sharding/consistent_hash.py:45-54 | Without collisions every removal is sound. |
| RingTheorems.HistoryIndependent | crawler/sharding/consistent_hash.py:36-54 | Two rings with the same nodes list the same hashes, and without collisions are identical, whatever led to them. |
| RingTheorems.StrictList | crawler/sharding/consistent_hash.py:43 | Without collisions the list is strictly sorted and holds exactly the points of the nodes. |
| RingTheorems.OwnerUnique | crawler/sharding/consistent_hash.py:56-64 | Without collisions a key has one owner. |
| RingTheorems.AddMovesToNewcomer | crawler/sharding/consistent_hash.py:3-5 | Adding a node leaves a key's owner or makes it the new node. |
| RingTheorems.RemoveMovesOwnKeysOnly | crawler/sharding/consistent_hash.py:3-5 | Removing a node moves only the keys it owned. |
| Rebalance.Assignments | crawler/sharding/rebalance.py:18-25 | The owners of all keys, none for an empty ring. |
| Rebalance.FractionsAre | crawler/sharding/rebalance.py:47-52 | Churn is the fraction of the keys whose owner changed or was lost, a share the fraction that a node owns, and both are 0 without keys. |
| Rebalance.AddChurnIsShare | crawler/sharding/rebalance.py:28-52 | The churn of an addition is the newcomer's share afterwards, if and only if the ring had a node or there are no keys. |
| Rebalance.RemoveChurnIsShare | crawler/sharding/rebalance.py:28-52 | The churn of a removal is the removed node's share before. |
| Bits.ShiftIsDivision | crawler/dedup/simhash.py:57-58 | Shifting and masking are dividing by and reducing modulo a power of two. |
| ContentDedup.HammingIsCount | crawler/dedup/simhash.py:45-46 | The distance is the number of binary places in which the two differ. |
| ContentDedup.BandIsSlice | crawler/dedup/simhash.py:56-58 | Band number b is the slice of `bits // bands` binary digits from digit b times that number. |
| ContentDedup.BandValues | crawler/dedup/simhash.py:49-58 | The value list has one entry per band, each the bits of its band. |
| ContentDedup.SpoiledBands | crawler/dedup/simhash.py:52-54 | Fingerprints without a common band differ in at least as many bits as there are bands. |
| ContentDedup.SpreadHitsEveryBand | crawler/dedup/simhash.py:52-54 | That number is reached: one bit in each band spoils them all. |
| ContentDedup.NoPairMissedIff | crawler/dedup/simhash.py:49-58 | The buckets miss no near pair if and only if `threshold < bands` or the bands have no bits. |
| ContentDedup.AnyWithin | crawler/dedup/dedup_service.py:36-38 | True if and only if some candidate is within the threshold. |
| ContentDedup.InMemoryContentDedup.Candidates | crawler/dedup/dedup_service.py:31-34 | The candidates are exactly the registered fingerprints that share a band. |
| ContentDedup.InMemoryContentDedup.Register | crawler/dedup/dedup_service.py:40-41 | Files the fingerprint in each of its buckets and keeps the buckets equal to the linear record. |
| ContentDedup.InMemoryContentDedup.IsDuplicate | crawler/dedup/dedup_service.py:30-42 | True if and only if some registered fingerprint within the threshold shares a band, also when the index is lossy; when it is not, an answer of false means that none is within the threshold. A new fingerprint is registered. |
| Simhash.CounterVotes | crawler/dedup/simhash.py:30-36 | The weighted sum over distinct tokens is the sum of the votes of all tokens. |
| Simhash.SimhashText | crawler/dedup/simhash.py:23-42 | The nested loops compute the majority fingerprint, 0 for no tokens. |
| Simhash.FingerprintBit | crawler/dedup/simhash.py:38-42 | Bit i is set if and only if i is below the width and the votes on it are positive. |
| Simhash.MajorityBit | crawler/dedup/simhash.py:29-42 | Bit i is set if and only if it is below the width and set in the hashes of more than half of the tokens. |
| Simhash.OneToken | crawler/dedup/simhash.py:29-42 | The fingerprint of one token is its own hash, cut to the width. |
| Simhash.OrderIrrelevant | crawler/dedup/simhash.py:30-42 | Permuting the tokens does not change the fingerprint. |
| Simhash.ScaleInvariant | crawler/dedup/simhash.py:30-42 | Multiplying all token counts by the same number does not change it. |
| Simhash.VotesMoveByEdits | crawler/dedup/simhash.py:30-36 | The votes on a bit move by at most the number of tokens added and removed. |
| Simhash.BitSurvivesEdits | crawler/dedup/simhash.py:3-6 | A bit whose margin exceeds the edits keeps its value. |
| TokenBucket.RefillComposes | crawler/ratelimit/token_bucket.lua:26-27 | Two consecutive refills are one combined refill. |
| TokenBucket.RefillIs | crawler/ratelimit/token_bucket.lua:26-27 | A bucket earns `refill_per_sec` tokens a second up to the capacity, and nothing while the clock stands still or steps back. |
| TokenBucket.ScriptPays | crawler/ratelimit/token_bucket.lua:17-42 | A missing key is a full bucket; a call is granted if and only if there are enough tokens and then pays them, and a refusal takes nothing. |
| TokenBucket.WaitIsExact | crawler/ratelimit/token_bucket.lua:31-37 | After a refusal a retry k ms later is granted if and only if k has reached `wait_ms` and the capacity covers the request. |
| TokenBucket.DeadlineStands | crawler/ratelimit/token_bucket.lua:31-40 | Polling early loses nothing: every refusal announces the same deadline. |
| TokenBucket.ExpiryHarmlessIff | crawler/ratelimit/token_bucket.lua:39-40 | Key expiry is unobservable for every bucket if and only if the time to live earns a full capacity. |
| TokenBucket.GrantsArePaid | crawler/ratelimit/token_bucket.lua:17-42 | Grants plus the tokens left never exceed the capacity plus what was earned, with changing rates and clocks that step back. |
| TokenBucket.WindowBound | crawler/ratelimit/token_bucket.lua:17-42 | Hence the bound on the grants in any window of calls. |
| TokenBucket.GrantsAreSpaced | crawler/ratelimit/token_bucket.lua:17-42 | With capacity 1, one rate and a clock that does not step back, grants are at least one period apart. |
| LocalLimiter.GrantsArePaid | crawler/ratelimit/local.py:28-38 | In any window of turns, grants plus what is left never exceed the capacity plus rate times elapsed time, for any real clock readings and rates. |
| LocalLimiter.FirstTurn | crawler/ratelimit/local.py:30-36 | A host's first turn finds a full bucket. |
| LocalLimiter.TurnPays | crawler/ratelimit/local.py:29-36 | Each later turn is granted if and only if a whole token has come, and pays one exactly then. |
| LocalLimiter.WaitIsLeast | crawler/ratelimit/local.py:35-38 | The token has come if and only if the computed wait has passed: the sleep is neither too short nor too long. |
| LocalLimiter.WindowBound | crawler/ratelimit/local.py:28-38 | With a clock that does not step back, hence the bound on the grants. |
| LocalLimiter.GrantsAreSpaced | crawler/ratelimit/local.py:28-38 | With capacity 1 and one rate, two grants are at least one period apart, whatever the clock does. |
| LocalLimiter.LocalRateLimiter.TakeTurn | crawler/ratelimit/local.py:29-36 | One turn of the loop: the entry is what the host's turns have left, so the bounds hold for the limiter. |
| LocalLimiter.LocalRateLimiter.Acquire | crawler/ratelimit/local.py:24-38 | Sleeps at most once, and not at all if and only if a token is there; states the time of the grant, the entry left behind and the turns taken. |
| LocalLimiter.SmallBucketNeverGrants | crawler/ratelimit/local.py:31-38 | Below a capacity of one no turn is ever granted, so the loop would not end. |
| LocalLimiter.LocalIsScript | crawler/ratelimit/local.py:31 | On whole milliseconds and a clock that does not step back the refill is the script's. |
| RedisLimiter.RefusalUnseen | crawler/ratelimit/token_bucket.lua:26-39 | A refused call changes no later answer. |
| RedisLimiter.AnswerAt | crawler/ratelimit/token_bucket.lua:31-37 | A later call is granted if and only if the announced deadline has come and the capacity is at least one; a refusal announces the same deadline. |
| RedisLimiter.NapsAreLeast | crawler/ratelimit/redis_limiter.py:56 | `ceil(wait / max_wait)` is the least number of capped naps that reaches the wait. |
| RedisLimiter.RedisRateLimiter.RunScript | crawler/ratelimit/redis_limiter.py:43-48 | One script call of any worker; each key holds what the calls of all workers have left, so `TokenBucket.WindowBound` holds for the limiter. |
| RedisLimiter.RedisRateLimiter.Acquire | crawler/ratelimit/redis_limiter.py:38-56 | Undisturbed polling makes at most `1 + ceil(wait / max_wait)` calls, gets the token at the first deadline (with exact sleeps exactly then), leaves the bucket as one long sleep would, and fails open; below a capacity of one it ends only by failing open. |
| RedisLimiter.CompetitorStarves | crawler/ratelimit/redis_limiter.py:42-56 | Against a competitor that always comes first, a caller that sleeps exactly as told is refused any number of times. |
| Lru.MoveThenCut | crawler/cache/lru.py:38-43 | Cutting to n before and after moving a key to the end is cutting once. |
| Lru.RecencyHas | crawler/cache/lru.py:27-43 | The reference order lists a key if and only if it was accessed and not dropped since. |
| Lru.RecencyByLastAccess | crawler/cache/lru.py:27-43 | Of two listed keys the later was accessed after every access of the earlier. |
| Lru.AccessKeepsLaw | crawler/cache/lru.py:27-43 | One access keeps the order the most recent end of the list of all accesses, less dropped keys, and the last `capacity` of it while nothing was dropped. |
| Lru.DropKeepsLaw | crawler/cache/lru.py:32-34 | Dropping an expired key keeps the order the most recent end of the list of accesses without it. |
| Lru.LruCache.Get | crawler/cache/lru.py:27-36 | A hit returns the last value put for the key, no older than the ttl, and makes it most recent; an expired entry is dropped. |
| Lru.LruCache.Put | crawler/cache/lru.py:38-43 | The key becomes most recent and the order is cut to the capacity: the most recent keys of the trace, and without a ttl exactly the last `capacity`. |
| Lru.LruCache.Evict | crawler/cache/lru.py:42-43 | The loop drops the least recent keys beyond the capacity and nothing else. |
| LruStack.LargerContainsSmaller | crawler/cache/lru.py:27-43 | After any trace of gets and puts the order of a larger cache contains that of a smaller one. |
| LruStack.CachesNested | crawler/cache/lru.py:27-43 | Of two caches without a ttl that have seen the same calls the larger contains the smaller. |
| Bloom.ShiftTestsMask | crawler/dedup/bloom.py:71-74 | The shift-and-mask test of `__contains__` is the mask test of `check_and_add`. |
| Bloom.OrAddsPosition | crawler/dedup/bloom.py:62-66 | Or-ing the mask into the byte adds exactly one position to the set of set bits. |
| Bloom.PositionsOf | crawler/dedup/bloom.py:36-40 | The positions of a key are k steps from the first hash, round m, of the second hash made odd. |
| Bloom.BloomFilter.SetBitsAre | crawler/dedup/bloom.py:71-74 | Position `idx` is set if and only if bit `idx % 8` of byte `idx // 8` is 1. |
| Bloom.BloomFilter.SetAll | crawler/dedup/bloom.py:60-66 | The loop adds all positions of the key and reports whether one was clear. |
| Bloom.BloomFilter.CheckAndAdd | crawler/dedup/bloom.py:58-69 | Absent if and only if some position was clear before; nothing added is ever forgotten; count <= set bits <= min(m, k * count). |
| Bloom.BloomFilter.Contains | crawler/dedup/bloom.py:71-74 | True if and only if all positions are set, so always true for added keys. |
| Bloom.Script | crawler/dedup/bloom.py:82-92 | The Lua loop sets the same positions and answers 1 if and only if all were set. |
| Bloom.RedisBloomFilter.CheckAndAdd | crawler/dedup/bloom.py:111-115 | The same answer and the same positions as the filter in memory. |
| BloomIndices.ClosesIff | crawler/dedup/bloom.py:36-40 | d strides close the circle if and only if m / gcd(h2, m) divides d. |
| BloomIndices.AllDifferentIff | crawler/dedup/bloom.py:36-40 | The k positions are pairwise different if and only if `k <= m / gcd(h2, m)`. |
| BloomIndices.CoprimeStride | crawler/dedup/bloom.py:36-40 | For a stride coprime to m: if and only if `k <= m`. |
| BloomIndices.OddStrideOnPowerOfTwo | crawler/dedup/bloom.py:39 | The forced odd stride is coprime to every power of two. |
| BloomIndices.DifferentIndicesFill | crawler/dedup/bloom.py:58-69 | A key with different positions touches exactly k bits. |
| CircuitBreaker.TracksOutcome | crawler/resilience/circuit_breaker.py:73-93 | Recording an outcome keeps each host closed if and only if its failures since its last success are below the threshold. |
| CircuitBreaker.RunIsUnbrokenFailures | crawler/resilience/circuit_breaker.py:73-93 | The run of failures counts those of the host that no later success of the host follows. |
| CircuitBreaker.AskedAfterFailure | crawler/resilience/circuit_breaker.py:61-93 | When a host that failed is admitted again: an open host at the same time as if it had not failed, a half-open one or one at the threshold after a whole cooldown, any other at once. |
| CircuitBreaker.AskedAfterSuccess | crawler/resilience/circuit_breaker.py:73-77 | After a success the host is closed, has no failures and is admitted at any time. |
| CircuitBreaker.Breaker.Allow | crawler/resilience/circuit_breaker.py:61-71 | Refuses exactly an open host that is still cooling down; changes that host only. |
| CircuitBreaker.Breaker.RecordSuccess | crawler/resilience/circuit_breaker.py:73-79 | Closes the host, resets its run, and refreshes the gauge if it was not closed. |
| CircuitBreaker.Breaker.RecordFailure | crawler/resilience/circuit_breaker.py:81-93 | Opens the host at the threshold, re-opens a half-open one, and keeps the gauge at or above the open count. |
| SingleProbe.HalfOpenIffProbing | crawler/resilience/circuit_breaker.py:61-93 | A host is half-open if and only if some ask since the last recorded outcome, of whichever fetch, was let through while it was not closed. |
| CircuitBreaker.HalfOpenAdmitsAll | crawler/resilience/circuit_breaker.py:70-71 | A half-open host admits every call. |
| SingleProbe.SingleUnlessProbedAgain | crawler/resilience/circuit_breaker.py:61-71 | With every outcome tied to its own ask: two probes are never out at once if and only if no probe is let through while another is out. |
| SingleProbe.SingleProbeIff | crawler/resilience/circuit_breaker.py:61-93 | For every interleaving of asks, outcomes and calls that end without one: two probes are never out if and only if nobody asks again before an outcome while a probe is out, and no probe outlasts a re-opening and its cooldown. |
| SingleProbe.PromptSingleProbeIff | crawler/resilience/circuit_breaker.py:61-93 | When no call is out for the cooldown or longer and the clock does not step back: if and only if nobody asks again before an outcome. |
| SingleProbe.TwoAsksBreakIt | crawler/resilience/circuit_breaker.py:64-71 | Two asks after a cooldown put two probes out. |
| SingleProbe.LateFailureBreaksIt | crawler/resilience/circuit_breaker.py:81-88 | A late failure of an older fetch re-opens the circuit while a probe is out, and the next cooldown lets out a second one though nobody asked before an outcome. |
| CircuitBreaker.HammerInv | crawler/resilience/circuit_breaker.py:61-93 | Sequential fetches of a host that always fails: below the threshold all pass, afterwards each costs a cooldown. |
| CircuitBreaker.DeadHostBound | crawler/resilience/circuit_breaker.py:1-8 | Over a time T at most `failure_threshold + floor(T / reset_seconds)` of them are allowed. |
| Budget.InMemoryDomainBudget.TryConsume | crawler/resilience/budget.py:34-42 | Allowed if and only if it fits or there is no limit; the allowed cost per domain never exceeds the limit, whatever the costs. |
| Budget.RedisDomainBudget.TryConsume | crawler/resilience/budget.py:61-71 | Allowed if and only if the raised counter fits; fails open; for costs that are not negative the cost allowed by requests that reached Redis, of all workers, never exceeds the limit. What failing open lets through is not counted. |
| Budget.CountersRelate | crawler/resilience/budget.py:34-71 | How the two counters relate after any interleaved calls of one cost. |
| Budget.SameAnswers | crawler/resilience/budget.py:34-71 | Both budgets give the same answers to any interleaved calls of one cost. |
| Budget.SameRemainingIff | crawler/resilience/budget.py:44-81 | They report the same remainder after all calls if and only if the cost divides the limit. |
| Budget.RemainingIs | crawler/resilience/budget.py:44-81 | The remainder is the limit less what was allowed, or in Redis less what was asked, never negative; -1 without a limit or without Redis. |
| Budget.BudgetsAgree | crawler/resilience/budget.py:34-81 | Two budget objects asked the same in one cost have given the same answers in the same order, and report the same remainder if the cost divides the limit. |
| Budget.UnitCostAgrees | crawler/resilience/budget.py:34-81 | With unit cost answers and remainders agree. |
| Pipeline.PagePipeline.RecordOutcome | crawler/pipeline/pipeline.py:57-65 | Transport errors, 5xx and status 0 are failures of the host, all else is a success. |
| Pipeline.OutcomeByStatus | crawler/pipeline/pipeline.py:57-65 | A transport error, status 0 or any status from 500 up adds a failure and lengthens the host's run by one; any other status closes the host and clears its run. |
| Pipeline.ProcessByStatus | crawler/pipeline/pipeline.py:83-108 | The same of a whole call that reaches the fetch and gets an answer. |
| Pipeline.AfterFetch | crawler/pipeline/pipeline.py:108-167 | What the answer says for errors, 304, pages and near-duplicates: the skip reason, whether it was fetched and stored, and exactly when it carries the links. |
| Pipeline.PagePipeline.AskBreaker | crawler/pipeline/pipeline.py:88-91 | One step of a call: asks the breaker and leaves the rest alone. |
| Pipeline.PagePipeline.ChargeBudget | crawler/pipeline/pipeline.py:93-96 | One step of a call: one charge of either backend, after which every started or admitted fetch is paid for, or let through by failing open. |
| Pipeline.PagePipeline.StartFetch | crawler/pipeline/pipeline.py:105-106 | One step of a call: an admitted call starts its fetch and keeps that. |
| Pipeline.PagePipeline.Abandon | crawler/pipeline/pipeline.py:98 | One step of a call: an admitted call raises before its fetch and keeps that. |
| Pipeline.PaidWhenOthersCharge | crawler/resilience/budget.py:61-71 | So does a charge that another worker makes of the shared budget. |
| Pipeline.PagePipeline.Admit | crawler/pipeline/pipeline.py:84-96 | Robots, breaker and budget are asked in this order, and a refusal stops the call before the later ones are touched. |
| Pipeline.PagePipeline.FetchPage | crawler/pipeline/pipeline.py:98-167 | An admitted call: the reply, the fetch and the recorded outcome for every place at which something may raise. |
| Pipeline.PagePipeline.Process | crawler/pipeline/pipeline.py:83-167 | A whole call without interruption: the reply, the fetch, the funds and the breaker for every combination of guards and exceptions. |
| Pipeline.VerdictIs | crawler/pipeline/pipeline.py:84-96 | When a call is refused and for which reason; guards after the first refusal are not asked and change nothing. |
| Pipeline.BudgetAllowsIs | crawler/resilience/budget.py:34-71 | The budget admits a page if and only if the cost allowed so far, or in Redis the cost asked so far, is below the limit, or there is no limit or no Redis. |
| Pipeline.RefusedIs | crawler/pipeline/pipeline.py:84-96 | A refused call is not fetched, stores nothing, has no links and carries its reason. |
| Pipeline.FetchReplyIs | crawler/pipeline/pipeline.py:98-167 | An exception before the fetch is back, or while a page is stored, leaves the call; a transport error and a 304 are answered before anything is stored. |
| Pipeline.FetchesWithinBudget | crawler/pipeline/pipeline.py:93-106 | However calls overlap, started and admitted fetches of a domain together stay within its budget; with the Redis budget, not counting what was let through while Redis could not be reached. |
| Recrawl.RootIsLeast | crawler/scheduler/recrawl.py:81-82 | The head of the heap is due first. |
| Recrawl.SiftUp | crawler/scheduler/recrawl.py:77 | Restores the heap after an append and loses no entry. |
| Recrawl.SiftDown | crawler/scheduler/recrawl.py:89 | Restores the heap after its root was replaced and loses no entry. |
| Recrawl.HeapPush | crawler/scheduler/recrawl.py:77 | Adds one entry to the heap. |
| Recrawl.HeapPop | crawler/scheduler/recrawl.py:89 | Takes out the entry that is due first. |
| Recrawl.RecrawlScheduler.Schedule | crawler/scheduler/recrawl.py:64-79 | Adds one entry due after the interval and keeps the others. |
| Recrawl.RecrawlScheduler.PopDue | crawler/scheduler/recrawl.py:84-90 | Returns exactly the due entries, soonest first, and keeps the rest: the multiset of entries is conserved. |
| Recrawl.RecrawlScheduler.SecondsUntilNext | crawler/scheduler/recrawl.py:92-98 | The least time after which some entry is due; none if and only if nothing is pending. |
| Recrawl.NextIntervalIs | crawler/scheduler/recrawl.py:34-37 | A changed page and a first crawl get the minimum, whatever the interval was; an unchanged page gets the lesser of the grown interval and the maximum. |
| Recrawl.GeometricBackoff | crawler/scheduler/recrawl.py:22-37 | After a reset and k unchanged crawls the interval is `min(max, min * factor^k)`, for any factor that is not negative. |
| Recrawl.BacksOffIff | crawler/scheduler/recrawl.py:22-37 | That law holds for all k if and only if `min <= max`. |
| Gates.Backpressure.Enter | crawler/resilience/backpressure.py:27-29 | Passing the gate adds one in flight. |
| Gates.Backpressure.Exit | crawler/resilience/backpressure.py:31-37 | Leaving it takes one off. |
| Gates.HostSemaphores.Semaphore | crawler/robots/politeness.py:47-52 | Making a semaphore on first use is unobservable. |
| Gates.HostSemaphores.Acquire | crawler/robots/politeness.py:68 | Takes one slot of this host only. |
| Gates.HostSemaphores.Release | crawler/robots/politeness.py:66-72 | Gives it back. |
| FetchGates.SlotGates.PassGate | crawler/pipeline/pipeline.py:104-105 | Entering the gate is an `EnterGate` step. |
| FetchGates.SlotGates.TakeSlot | crawler/robots/politeness.py:68 | Acquiring the host's semaphore is an `EnterHost` step. |
| FetchGates.SlotGates.AskLimiter | crawler/robots/politeness.py:69-71 | Going to the limiter, or past it without a delay, is a `LockLimiter` or `PassLimiter` step. |
| FetchGates.SlotGates.LeaveLimiter | crawler/ratelimit/local.py:27-34 | The limiter's grant is a `Grant` step. |
| FetchGates.SlotGates.Finish | crawler/pipeline/pipeline.py:105-106 | The end of the fetch releases slot and gate in one `Leave` step. |
| FetchGates.SlotGates.Unwind | crawler/pipeline/pipeline.py:105-106 | An exception or cancellation at any point releases exactly what is held: a `Cancel` step. |
| Gates.StepKeepsInv | crawler/pipeline/pipeline.py:98-106 | Every step, cancellation included, keeps the counters equal to what is free and each limiter lock with one holder. |
| Gates.Caps | crawler/pipeline/pipeline.py:98-106 | At most `limit` calls inside the gate, at most `per_host_concurrency` fetches per host, and `in_flight` counts the former. |
| Gates.NoDeadlock | crawler/pipeline/pipeline.py:98-106 | While some call is unfinished some call can go on. |
| Gates.StuckWithoutHostSlots | crawler/robots/politeness.py:50 | With `per_host_concurrency` 0 the first call through the gate is stuck. |
| Gates.DeadlockFreeIff | crawler/pipeline/pipeline.py:98-106 | Deadlock-free if and only if `per_host_concurrency` is positive. |
| Gates.RunsAreShort | crawler/pipeline/pipeline.py:98-106 | n calls are over after at most 5n steps. |

## Left out

- LocalLimiter.LocalRateLimiter.Acquire: requires a capacity of at least one when the rate is positive, because otherwise the source loops for ever (`SmallBucketNeverGrants`); nobody else touches the bucket during the call, which the lock ensures.
- RedisLimiter.RedisRateLimiter.Acquire: describes a caller that no other worker disturbs, because with competitors there is no bound on the polls (`CompetitorStarves`); below a capacity of one it requires that some call fails, because otherwise the source loops for ever.
- Engine.CrawlEngine.Next: requires a queued item and an unfinished count that `EngineSafety.RunInv` shows positive, as do `Complete` and `Abort`.
- Frontier.MemoryFrontier.Get: requires a queued item; suspending on an empty queue is the step machine's business.
- Frontier.MemoryFrontier.TaskDone: requires an unfinished item; `asyncio.Queue` raises otherwise.
- Worker.CrawlWorker.Handle: the sleep of at most 5 s before a retry is re-published does not appear, so nothing is said about `not_before` beyond its value; failures of Kafka and Redis during a call are steps of `Delivery`.
- Worker.CrawlWorker.ProcessMessage: the seen-set is exact here; false positives of the Bloom filter are steps of `Delivery`.
- Pipeline.PagePipeline.Process: describes an uninterrupted call, whose answers depend on nothing that others do in between; what overlapping calls keep is stated by its steps. Storing the body and the record, the conditional headers and the shared content index are not modelled beyond their answers and exceptions.
- Pipeline.FetchesWithinBudget: bounds the fetches of one pipeline; that the allowed charges of all workers together stay within the limit is `Budget.RedisDomainBudget.TryConsume`.
- Lru.LruCache.Put: with a ttl the exact number of keys is not given in closed form, because a dropped key leaves room that an evicted one does not come back to; the order is still the most recent end of the trace.
- DeliveryCompletion.StuckIsDone: supposes that both topics have partitions.
- Recrawl.HeapPush: `heapq` is not part of the repository; push and pop are modelled as the usual binary min-heap on a sequence.
- Ring.ConsistentHashRing.constructor: the `ValueError` for a non-positive number of virtual nodes is a precondition, as are the like checks of the cache, the breaker, the gate and the Bloom filter.
- Delivery: the frontier partition of a message is any partition of the topic; `DomainOwner` fixes it as a function of the domain, which `Ring` computes, for runs without rebalances.
- Delivery: calls that outlive the crash of their worker's loop go on as orphans; their sends are steps, their results are not committed.
- `RedisContentDedup`: its read-then-write is not atomic and its entries expire.
- `imbalance` and `naive_churn`, `optimal_m` and `optimal_k`, false-positive rates and other statistical claims: m and k are given.
- HTTP, robots parsing, HTML parsing, tokenisation, URL normalisation and public suffixes: their answers are inputs.
- The robots cache's per-origin lock, storage, the database, metrics other than the breaker's gauge, and all user interfaces.
- `crawl_id` outside the scheduler and the JSON wire format: they only travel along.
- Rounding of floating-point numbers and their conversion to Redis strings.
