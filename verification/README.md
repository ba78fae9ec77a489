# Models of the Python agent's stateful cores

The Python agent keeps a few pieces of state whose mistakes no single call shows: an outbox that has to
survive crashes and lost acknowledgements, a response cache shared by many clients, leases that expire, a
scheduler that has to notice cycles, and a repair loop that has to stop. This project models them and proves
what they guarantee for all inputs, all runs and all interleavings.

| Files | Subject |
|---|---|
| `Outbox.dfy`, `OutboxBackends.dfy` | the abstract outbox, and the memory and Redis-list backends that refine it |
| `Receiver.dfy`, `DeliveryProtocol.dfy` | the receiver that ignores known ids, and the delivery protocol as a transition system |
| `Recovery.dfy` | the recovery service: gap count, batches, acknowledgements as side effects |
| `BaseAgents.dfy`, `InterleavedPublishers.dfy`, `PersistentAgents.dfy`, `NumberRaces.dfy` | the publishers |
| `Breakers.dfy`, `EventDelivery.dfy` | the circuit breaker, and retries with backoff through it |
| `ResponseCache.dfy`, `ChatInclusion.dfy` | the LRU and TTL cache, and caches of two sizes under the same chats |
| `LlmClient.dfy` | the client with its event log and rollback |
| `TaskLock.dfy` | the lease lock |
| `DagScheduler.dfy`, `RepairLoop.dfy` | wave scheduling, and the bounded repair loop that drives it |
| `FixParser.dfy` | the `FILE:` block parser |
| `Sequences.dfy`, `Text.dfy` | filtering and other facts about sequences; strip, split, join, fences |

Code that changes state step by step is a class whose methods are proved equal to functions on values; the
main results are lemmas about those functions. Clocks are real-valued inputs. The transport, the LLM
provider, the JSON schema, id generation, the coder, the gate, the reviewer and the sandbox are oracles.
Ids of new events are fresh.

## What the proofs brought out

- `BaseAgent._deliver_event` never looks at the result of `publish_event_with_retry_result`. With such a
  client, and `ControlPlaneClient` is one, a publication whose delivery fails leaves its event neither
  pending nor applied: `BaseAgents.OneEventLost`, and `PersistentAgents.OneEventLost` for the publisher of
  the integration example, which inherits the method and so acknowledges events in the persistent outbox
  that nobody applied. Both lose nothing, over every run, if and only if the client raises when a delivery
  fails (`BaseAgents.NothingIsLostIffClientRaises`, `PersistentAgents.NothingIsLostIffClientRaises`). The
  recovery service does look at the response. So the no-loss results of `DeliveryProtocol` are about the
  recovery service and about publishers whose client raises.
- With a client that raises, the events of a task are applied in order, at every step and whatever the
  callers of other tasks do, in all runs with at most k callers per task at a time, if and only if k is at
  most 1 (`InterleavedPublishers.OrderKeptIffOneCaller`, with `TwoPublishersOutOfOrder` for two). Likewise
  two publishers that share the persistent outbox can store the same number, and one at a time cannot
  (`NumberRaces.ContinuousIffOnePublisher`).
- The pattern of the event schema ends in `$`, so the store accepts an id with a newline after its 32 digits,
  and keeps it raw; the acknowledgement strips it and does not find it. The event is delivered, counted as
  delivered, and stays pending (`Recovery.NewlineIdSurvivesRecovery`). An acknowledgement takes an event out
  if and only if stripping leaves its id alone (`Outbox.AckRemovesIff`), and a recovery pass without a failed
  delivery empties the outbox under the same condition (`Recovery.FailureFreePassEmptiesIff`). The ids that
  the publishers generate meet it.
- A larger cache keeps every hit under the same operations (`ResponseCache.LargerCacheKeepsEveryHit`), but not
  under the same chats, because a chat stores only after a miss. One chat after another is enough when a time to
  live passes (`ChatInclusion.LargerCacheCanMiss`, `ChatInclusion.RenewalLosesAHit`), and two chats in progress
  at one time are enough when nothing expires at all (`ChatInclusion.OverlapLosesAHit`): the small cache misses
  and stores late, the large one hits early and renews nothing. For capacities m < n, over every interleaving of
  the clients' lookups, completions, sizes, discards and clears, with a provider that may fail: all runs that are
  over within d and have at most k operations in progress at a time keep every hit if and only if k is 1 and d
  is shorter than the time to live (`ChatInclusion.LargerCacheKeepsEveryChatHitIff`).
- If a recovered-event callback raises after an earlier delivery failed, the handler counts that failure
  again (`Recovery.FailureCountedTwice`), and a shutdown leaves events that were found uncounted; the counts of a
  task that is started balance exactly when neither happens (`Recovery.TaskBalancesIff`).
- A recovery whose last callback raises counts both as the success or failure it was and as another failure
  (`Recovery.MetricsCount`).
- The event log keeps 64 events, and rolling back to a cursor is complete for every log with n later events
  exactly when n is at most 64 (`LlmClient.RollbackCompleteIff64`). A cursor does not outlive a clear of the
  client's own log, because the numbers start again (`LlmClient.ClearedLogForgetsTheCursor`).
- A reply in the prompt's `FILE:` format is parsed back exactly if every name is non-empty, stripped and on
  one line and no content line starts with `FILE:` or, stripped, with a fence
  (`FixParser.RoundTripIffExpressible`).
- A dead transport gets at most `threshold` sends in every delivery whose attempts begin at most `late` after
  their backoff if and only if there are no more attempts than that, or the next backoff plus `late` is
  shorter than the recovery timeout, whatever went through the breaker before
  (`EventDelivery.SparedFromEveryState`).
- The code after the tester's attempt loop is never reached: the last iteration always returns.

## Model

| member | source | states |
|---|---|---|
| ResponseCache.SizeNeverExceedsCapacity | python-agent/llm/llm_client.py:531-560 | after any run of operations, whatever the clock reads, keys are distinct and the size is at most the capacity |
| ResponseCache.LargerCacheKeepsEveryHit | python-agent/llm/llm_client.py:531-613 | run the same timed operations on caches of capacity m <= n: every hit of the small one is a hit with the same entry in the large one |
| ChatInclusion.LargerCacheKeepsEveryChatHitIff | python-agent/llm/llm_client.py:193-239 | for 1 <= m < n and k >= 1, over every interleaving of lookups, completions, sizes, discards and clears of any clients, for every provider: all runs on a clock that does not go back, over within d and with at most k operations in progress at a time, find every hit of a cache of capacity m in one of capacity n, with the same value, if and only if k <= 1 and d is shorter than the time to live |
| ChatInclusion.ShortSpanIsFresh | python-agent/llm/llm_client.py:542-552 | a run that is over in less than a time to live sees nothing expire, however its chats interleave |
| ChatInclusion.FreshCacheKeepsEveryHit | python-agent/llm/llm_client.py:193-239 | with one operation in progress at a time, while the larger cache lets nothing expire, every hit of the smaller cache is a hit of the larger one and both give the provider's answer; the provider may fail |
| ChatInclusion.RenewalLosesAHit | python-agent/llm/llm_client.py:531-552 | one chat at a time about m + 1 keys at once, about the first halfway to the time to live and again at its end: the last one hits with capacity m and misses with any larger one, for every provider that does not fail |
| ChatInclusion.OverlapLosesAHit | python-agent/llm/llm_client.py:208-229 | at one clock reading, with two chats in progress: chats about m + 1 keys, another client looks the first of them up, chats about n new keys, that client completes; a lookup then hits with capacity m and misses with any larger capacity n |
| ChatInclusion.LargerCacheCanMiss | python-agent/llm/llm_client.py:531-552 | with a time to live of 10, chats of A at 0, B at 1, A at 2 and A at 11: the last one hits with capacity 1 and misses with capacity 2 |
| ChatInclusion.MoveInStep | python-agent/llm/llm_client.py:193-239 | with one operation in progress at a time and nothing expiring in the larger cache, a lookup, a completion (failed or not), a size, a discard or a clear keeps the smaller cache's keys among the larger one's in the same order, expiring no earlier there, and whoever still waits for the provider on the larger side waits for the same key on the smaller one |
| ResponseCache.IncludedStep | python-agent/llm/llm_client.py:531-613 | one operation keeps the small cache the large one restricted to its keys, in the same order, and the size difference within n - m |
| ResponseCache.CachedIsLastStored | python-agent/llm/llm_client.py:542-571 | a cached entry is the one the last store of its key made, with no discard or clear since |
| ResponseCache.HitReturnsLastStored | python-agent/llm/llm_client.py:531-540 | a hit returns the value last set for the key, and only before that store expires |
| ResponseCache.HitAfterDiscardIsNewer | python-agent/llm/llm_client.py:531-560 | under any interleaving of cache operations, once a key was discarded a hit on it can only return a value stored after the discard |
| ResponseCache.EvictedOnlyAfterCapOthers | python-agent/llm/llm_client.py:531-560 | an entry that was just used and is not discarded or outlived is evicted only after at least the capacity of distinct other keys were touched |
| ResponseCache.LruExactly | python-agent/llm/llm_client.py:531-560 | while nothing expires or is discarded, a just-used entry is still cached if and only if fewer than the capacity of distinct other keys were touched since |
| ResponseCache.LlmResponseCache.constructor | python-agent/llm/llm_client.py:520-529 | a cache starts empty with zero counters |
| ResponseCache.LlmResponseCache.PurgeExpired | python-agent/llm/llm_client.py:607-613 | collecting the expired keys and popping them one by one leaves exactly the live entries, in order |
| ResponseCache.LlmResponseCache.Get | python-agent/llm/llm_client.py:531-540 | a lookup purges, and on a hit moves the entry to the end; hits and misses are counted |
| ResponseCache.LlmResponseCache.Set | python-agent/llm/llm_client.py:542-552 | a store purges, moves the key to the end and evicts from the front until the size fits |
| ResponseCache.LlmResponseCache.DiscardKey | python-agent/llm/llm_client.py:554-560 | a discard removes exactly that key and says whether it was there |
| ResponseCache.LlmResponseCache.ClearAll | python-agent/llm/llm_client.py:562-571 | clearing empties the cache and resets the counters only on request |
| ResponseCache.LlmResponseCache.CurrentSize | python-agent/llm/llm_client.py:581-584 | asking for the size purges first |
| ResponseCache.LlmResponseCache.GetStats | python-agent/llm/llm_client.py:586-605 | the statistics carry the settings, the live size, the counters and the three ratios |
| ResponseCache.SafeRatio | python-agent/llm/llm_client.py:908-911 | zero for no requests, otherwise within half of the fourth decimal of the quotient |
| LlmClient.RecordRefines | python-agent/llm/llm_client.py:485-499 | recording an event keeps the history the last min(64, total) of all events, numbered without a gap |
| LlmClient.HistoryIsContiguousTail | python-agent/llm/llm_client.py:485-504 | the history has min(64, total) events with contiguous sequence numbers up to the last one |
| LlmClient.RecentCursorSeesAll | python-agent/llm/llm_client.py:501-504 | a cursor with at most 64 later events sees exactly those events |
| LlmClient.EveryInterleavingIsFaithful | python-agent/llm/llm_client.py:616-622 | under any interleaving of cache operations that store only the provider's answers, every cached value is the provider's answer for its key |
| LlmClient.ChatIsTransparent | python-agent/llm/llm_client.py:193-239 | on such a cache `chat` returns what the uncached call returns after fence stripping, and keeps the cache so |
| LlmClient.HitIsServed | python-agent/llm/llm_client.py:208-211 | with the cache enabled, an entry for the key that has not expired at the lookup answers the chat, whatever the provider would say or fail with |
| LlmClient.MissIsAsked | python-agent/llm/llm_client.py:208-239 | without such an entry the chat answers what the provider says |
| LlmClient.ChatIsReported | python-agent/llm/llm_client.py:208-239 | a chat records one event with its key, the next number, the size of the cache, and the status and reason that the cache and the provider's answer call for |
| LlmClient.HitGivesLastText | python-agent/llm/llm_client.py:208-239 | with a provider that may answer differently each time, and chats of any clients interleaved: a chat that hits answers the text of the last completed chat that stored the key |
| LlmClient.ChatIsItsMoves | python-agent/llm/llm_client.py:208-239 | an uninterrupted chat is its lookup and its completion, so what is proved for interleaved chats holds for it |
| LlmClient.SharedCacheIsFaithful | python-agent/llm/llm_client.py:616-622 | a cache shared by any number of clients that make whole chats, discard, roll back and clear in any order stays faithful to the provider |
| LlmClient.SharedChatIsTransparent | python-agent/llm/llm_client.py:193-239 | after any such run of whole operations, any client's `chat` returns what the uncached call would return |
| LlmClient.InterleavedChatsAreTransparent | python-agent/llm/llm_client.py:193-239 | the lookups, provider calls and stores of chats of any number of clients interleave, with sizes, discards and clears in between: every chat answers as the uncached call would |
| LlmClient.EveryLogIsATail | python-agent/llm/llm_client.py:485-499 | after any run of clients on a shared cache each client's log is the tail of exactly the events its operations recorded since it last cleared |
| LlmClient.RollbackRemovesAll | python-agent/llm/llm_client.py:268-277 | if at most 64 events followed the cursor in the record that the log refines, no key hit or stored since the cursor is cached after the rollback |
| LlmClient.RollbackIsExact | python-agent/llm/llm_client.py:268-277 | over at most 64 events since the cursor, nothing expiring meanwhile: a rollback removes the keys hit or stored since the cursor and no others, and returns how many entries it removed |
| LlmClient.RollbackForgetsEveryChat | python-agent/llm/llm_client.py:268-281 | in every run of clients sharing a cache: if at most 64 events of a client followed its cursor and the client has not cleared its log since, after its rollback no key it chatted since, hit or stored, is in the cache |
| LlmClient.ClearedLogForgetsTheCursor | python-agent/llm/llm_client.py:248-277 | after any run, a client that clears its log and then chats still has that chat's key cached after it rolls back to any cursor of 1 or more |
| LlmClient.StepRecords | python-agent/llm/llm_client.py:485-499 | chat, rollback and discard append exactly their own events to the record that the log refines |
| LlmClient.BadReplyIsNotServedAgain | python-agent/agents/planner_agent.py:49-66 | after a chat and, next, a rollback to the cursor taken before it, the key is not in the cache, so a lookup right after misses |
| LlmClient.LastChatIsDiscarded | python-agent/llm/llm_client.py:256-266 | discarding the last entry right after a chat removes that chat's key exactly if it was cached, says so, keeps the other live entries, and does nothing a second time |
| LlmClient.RollbackMissesOlderEvents | python-agent/llm/llm_client.py:485-504 | for every n above 64 there is a client whose rollback over n events leaves a stored key in the cache |
| LlmClient.RollbackCompleteIff64 | python-agent/llm/llm_client.py:268-277 | rolling back over n events is complete for every client and clock if and only if n <= 64 |
| LlmClient.FenceIsRemoved | python-agent/llm/llm_client.py:894-905 | a reply wrapped in a code fence, with or without a tag, gives the stripped body |
| LlmClient.OpenFenceIsRemoved | python-agent/llm/llm_client.py:894-905 | without a closing fence everything after the opening line is kept |
| LlmClient.UnfencedReply | python-agent/llm/llm_client.py:225-227 | a reply that does not begin with a fence is stripped, and refused if nothing is left |
| LlmClient.FencedReply | python-agent/llm/llm_client.py:225-227 | a fenced reply gives its stripped body, and is refused if nothing is left |
| LlmClient.FirstLineIs | python-agent/llm/llm_client.py:894-905 | lines end at any boundary character, carriage return and line feed counting once |
| LlmClient.Client.SetCacheEvent | python-agent/llm/llm_client.py:485-499 | an event is numbered, appended and trimmed to 64, after the cache has been asked for its size |
| LlmClient.Client.Chat | python-agent/llm/llm_client.py:193-239 | hit, miss, bypass and failure as the specification says, with the counter of each, and the provider's answer whenever the cache is faithful |
| LlmClient.Client.DiscardCacheEntriesSince | python-agent/llm/llm_client.py:268-277 | discards the keys of the hits and stores after the cursor and counts those removed |
| LlmClient.Client.DiscardLastCacheEntry | python-agent/llm/llm_client.py:256-266 | discards the last key used, once |
| LlmClient.Client.Clear | python-agent/llm/llm_client.py:248-254 | clears the cache and the event log, and the counters on request only |
| Text.StripTrims | python-agent/llm/llm_client.py:894-905 | stripping yields a trimmed text, what it removes on either side is blank, and stripping again changes nothing |
| Text.SpacesAre | python-agent/llm/llm_client.py:894-905 | the characters that stripping removes, by code point |
| Text.StripStartsIff | python-agent/generators/fix_loop.py:965-970 | a stripped text starts with a fence exactly if the text has it behind blanks |
| Text.SplitOfJoin | python-agent/generators/fix_loop.py:949-980 | splitting what was joined gives back the lines |
| Breakers.ClosedIffBelowThreshold | python-agent/utils/circuit_breaker.py:42-63 | under every interleaving of before, success and failure steps, the breaker is closed if and only if its failure count is below the threshold |
| Breakers.CountsFailuresInARow | python-agent/utils/circuit_breaker.py:52-63 | the failure count is the number of failures recorded since the last success |
| Breakers.BlockedExactlyWhen | python-agent/utils/circuit_breaker.py:42-50 | after any steps a call is refused exactly when enough calls failed in a row, the last of them less than the recovery timeout ago, and no call was let through since |
| Breakers.LoadBound | python-agent/utils/circuit_breaker.py:32-63 | of sequential calls to an always-failing operation, at most threshold + floor(T / recovery timeout) are executed in a span T |
| Breakers.LoadBoundIsTight | python-agent/utils/circuit_breaker.py:32-63 | for every span some sequence of calls reaches that bound |
| Breakers.CircuitBreaker.constructor | python-agent/utils/circuit_breaker.py:17-30 | threshold and timeout are raised to at least one |
| Breakers.CircuitBreaker.BeforeCall | python-agent/utils/circuit_breaker.py:42-50 | admits, or moves to half-open after the timeout, or refuses |
| Breakers.CircuitBreaker.AfterSuccess | python-agent/utils/circuit_breaker.py:52-56 | a success closes the breaker and clears the count |
| Breakers.CircuitBreaker.AfterFailure | python-agent/utils/circuit_breaker.py:58-63 | a failure counts, and opens the breaker when half-open or at the threshold |
| DagScheduler.StuckSetHasCycle | python-agent/orchestrator/dag_scheduler.py:49-51 | a non-empty set in which every node depends on a node of the set contains a cycle |
| DagScheduler.TransitiveDependenciesRanBefore | python-agent/orchestrator/dag_scheduler.py:43-82 | every transitive dependency of a node ran in an earlier wave |
| DagScheduler.WaveIsDepth | python-agent/orchestrator/dag_scheduler.py:43-82 | a node runs in the wave whose index is the length of its longest dependency chain |
| DagScheduler.WavesAreLongestChain | python-agent/orchestrator/dag_scheduler.py:38-84 | a successful run takes as many waves as the longest dependency chain of the graph has nodes |
| DagScheduler.WavesAreMinimal | python-agent/orchestrator/dag_scheduler.py:43-82 | no assignment of rounds that respects dependencies uses fewer rounds than there are waves |
| DagScheduler.AllRanMeansAcyclic | python-agent/orchestrator/dag_scheduler.py:43-84 | if all nodes ran, the graph has no cycle |
| DagScheduler.RunIsSound | python-agent/orchestrator/dag_scheduler.py:43-84 | success means no cycle and a reported cycle means a cycle; if no node raises, the run succeeds if and only if the graph is acyclic |
| DagScheduler.DependentsOfAFailureNeverRun | python-agent/orchestrator/dag_scheduler.py:53-78 | if a node raises, no transitive dependent of it is ever started |
| DagScheduler.ByName | python-agent/orchestrator/dag_scheduler.py:27-31 | the first repeated name is reported, and without one the graph is built |
| DagScheduler.CheckDependencies | python-agent/orchestrator/dag_scheduler.py:33-36 | the first dependency that names no node is reported |
| DagScheduler.RunWave | python-agent/orchestrator/dag_scheduler.py:53-78 | a wave yields the results of its nodes or the name of one that raised |
| DagScheduler.RunWaves | python-agent/orchestrator/dag_scheduler.py:38-84 | each wave, the last one of a run that raises too, is exactly the nodes whose dependencies completed; each node starts at most once; the result is explained by the waves |
| DagScheduler.Run | python-agent/orchestrator/dag_scheduler.py:23-84 | errors in the order the source checks them, and otherwise the waves and result as above |
| TaskLock.PunctualHolderKeepsLease | python-agent/orchestrator/distributed_lock.py:94-118 | while each renewal lands less than the lease after the previous one, no other acquire succeeds before the release |
| TaskLock.LostTokenIsPowerless | python-agent/orchestrator/distributed_lock.py:104-118 | once the lease belongs to another token, the old token's renew and release return False and change nothing, in every later state before it acquires again |
| TaskLock.LostTokenDoesNotInterfere | python-agent/orchestrator/distributed_lock.py:104-118 | deleting all the old token's steps from the trace changes nothing |
| TaskLock.UnexpiredBeliefIsTrue | python-agent/orchestrator/distributed_lock.py:94-118 | a client whose last successful acquire or renewal has not expired and that has not released does hold the lease |
| TaskLock.AtMostOneHolder | python-agent/orchestrator/distributed_lock.py:94-118 | no two clients hold unexpired beliefs at one time |
| TaskLock.AbandonedLeaseIsAcquired | python-agent/orchestrator/distributed_lock.py:94-102 | when the holder renewed last at r and takes no further step, an acquire succeeds exactly if it reads the clock at r + lease or later, and then has the lease for its full length |
| TaskLock.ReleasedLeaseIsAcquired | python-agent/orchestrator/distributed_lock.py:94-118 | the holder's release returns True, and the next acquire succeeds, whatever the clock reads |
| TaskLock.PunctualHolderSucceeds | python-agent/orchestrator/distributed_lock.py:104-118 | a holder that renewed in time can renew and release again: both return True |
| TaskLock.RenewalHasSlack | python-agent/orchestrator/distributed_lock.py:63-64 | the constructor's clamps leave at least one second between the renewal interval and the lease |
| TaskLock.ClampedRenewalsArePunctual | python-agent/orchestrator/distributed_lock.py:63-64 | renewals at the clamped interval, each late by less than a second, keep the lease |
| TaskLock.LeaseTable.AcquireLocal | python-agent/orchestrator/distributed_lock.py:94-102 | succeeds exactly if the key has no lease or one that has expired, and then the entry is the token's with the full lease; other keys are left alone |
| TaskLock.LeaseTable.RenewLocal | python-agent/orchestrator/distributed_lock.py:104-110 | renews only the token's own lease, expired or not |
| TaskLock.LeaseTable.ReleaseLocal | python-agent/orchestrator/distributed_lock.py:112-118 | releases only the token's own lease |
| TaskLock.TaskLease.ReleaseLease | python-agent/orchestrator/distributed_lock.py:41-46 | a lease that was not acquired, or was released, does nothing; otherwise it is released once |
| FixParser.ReplyIsUnderstood | python-agent/generators/fix_loop.py:949-980 | rendering any expressible blocks, their opening fences with any tags, with talk between them, and parsing gives the same files in the same order |
| FixParser.MarkersAre | python-agent/generators/fix_loop.py:949-972 | a file line begins with FILE:, and a fence line with three backticks, possibly behind blanks and with anything after them |
| FixParser.ParsedBySections | python-agent/generators/fix_loop.py:949-980 | any reply at all, cut at its file lines: each section with a name and with lines behind an odd number of fences writes those lines, in order, and nothing else is written |
| FixParser.SectionsOf | python-agent/generators/fix_loop.py:949-980 | every reply can be cut so |
| FixParser.NamesOfSucceeded | python-agent/generators/fix_loop.py:982-998 | the names listed are those of the writes that succeeded, in order |
| FixParser.ParsedIsExpressible | python-agent/generators/fix_loop.py:949-980 | whatever the reply, every file parsed from it could have been rendered |
| FixParser.RoundTripIffExpressible | python-agent/generators/fix_loop.py:913-980 | parsing the rendered files gives them back if and only if every name and content is expressible |
| FixParser.ReprintIsStable | python-agent/generators/fix_loop.py:913-980 | rendering and parsing what was parsed from any reply changes nothing |
| FixParser.WriteFixedFile | python-agent/generators/fix_loop.py:982-998 | a file is listed as fixed exactly if it could be written |
| FixParser.ApplyLlmFixes | python-agent/generators/fix_loop.py:928-980 | the line loop attempts exactly the parsed writes in order and returns the names written |
| Outbox.StableSortSorts | python-agent/outbox/redis_outbox.py:173-198 | the sort permutes, orders by number, and keeps the order of equal numbers |
| Outbox.StableOrderIsUnique | python-agent/outbox/redis_outbox.py:173-198 | order and stability determine the sorted list |
| Outbox.SchemaIdStrips | python-agent/outbox/redis_outbox.py:26 | stripping an id that the schema accepts gives a generated one, and leaves the id alone if and only if it is one |
| Outbox.GeneratedIdIff | python-agent/outbox/redis_outbox.py:26 | a generated id is evt_ and 32 characters, each one of 0123456789abcdef |
| Outbox.StoredIff | python-agent/outbox/redis_outbox.py:103-141 | a store succeeds exactly if the task is not blank, the id is a generated one or one with a newline behind it, the number is not negative and the rest of the schema agrees; otherwise nothing changes |
| Outbox.PendingIsSorted | python-agent/outbox/redis_outbox.py:173-198 | what is pending comes sorted by number, equal numbers in store order; a blank task has nothing |
| Outbox.CleanupIsLocal | python-agent/outbox/redis_outbox.py:246-262 | a cleanup removes the task's events and count and leaves every other task alone |
| Outbox.OthersAreLeftAlone | python-agent/outbox/redis_outbox.py:103-171 | so do a store and an acknowledgement |
| Outbox.AckRemovesIff | python-agent/outbox/redis_outbox.py:142-171 | an acknowledgement by its own id takes a pending event out if and only if stripping leaves the id alone |
| Outbox.NewlineIdStaysPending | python-agent/outbox/redis_outbox.py:103-171 | the event with a newline after its id is stored, and stays pending when it is acknowledged |
| Outbox.StoreThenAck | python-agent/outbox/redis_outbox.py:103-171 | a store makes the event pending, last; acknowledging it undoes that but for the counter, if and only if stripping leaves its id alone |
| Outbox.AckTwice | python-agent/outbox/redis_outbox.py:142-171 | a second acknowledgement finds nothing |
| Outbox.StoreIsContinuousIff | python-agent/outbox/integration_example.py:57-67 | a store keeps the numbering continuous if and only if the event carries the next number |
| Outbox.ContinuousNeedsNoSort | python-agent/outbox/redis_outbox.py:173-198 | with continuous numbering the sort is the identity |
| Outbox.PublisherIsContinuous | python-agent/outbox/integration_example.py:57-67 | over any run of accepted and rejected stores, acknowledgements, restarts and cleanups by one publisher, the n-th stored event carries number n |
| OutboxBackends.KeyTextsAreDistinct | python-agent/outbox/redis_outbox.py:341-357 | event lists and counters of all tasks have different Redis keys |
| OutboxBackends.RepresentsOne | python-agent/outbox/redis_outbox.py:341-440 | a Redis database represents at most one outbox, so the refinement determines it |
| OutboxBackends.MemoryOutbox.StoreEvent | python-agent/outbox/redis_outbox.py:442-450 | the memory backend stores as the abstract outbox does, errors included |
| OutboxBackends.MemoryOutbox.AcknowledgeEvent | python-agent/outbox/redis_outbox.py:452-467 | the memory backend acknowledges as the abstract outbox does |
| OutboxBackends.MemoryOutbox.GetPendingEvents | python-agent/outbox/redis_outbox.py:469-477 | pending events, sorted by number |
| OutboxBackends.MemoryOutbox.GetAllPendingTasks | python-agent/outbox/redis_outbox.py:479-482 | exactly the tasks with pending events |
| OutboxBackends.MemoryOutbox.NextSequence | python-agent/outbox/redis_outbox.py:484-487 | the count of stored events |
| OutboxBackends.MemoryOutbox.CleanupTask | python-agent/outbox/redis_outbox.py:489-493 | forgets the task's events and its count |
| OutboxBackends.RedisOutbox.StoreEvent | python-agent/outbox/redis_outbox.py:341-356 | the store script does to the lists and counters what the abstract store does |
| OutboxBackends.WithoutId | python-agent/outbox/redis_outbox.py:358-391 | the script's loop keeps exactly the other ids, in order, and says whether it dropped one |
| OutboxBackends.RedisOutbox.AcknowledgeEvent | python-agent/outbox/redis_outbox.py:358-391 | rebuilding the list without the id is the abstract acknowledgement |
| OutboxBackends.RedisOutbox.GetPendingEvents | python-agent/outbox/redis_outbox.py:393-409 | the same pending events as the memory backend |
| OutboxBackends.RedisOutbox.GetAllPendingTasks | python-agent/outbox/redis_outbox.py:411-424 | the same tasks as the memory backend |
| OutboxBackends.RedisOutbox.NextSequence | python-agent/outbox/redis_outbox.py:426-430 | the same count as the memory backend |
| OutboxBackends.RedisOutbox.CleanupTask | python-agent/outbox/redis_outbox.py:432-436 | the same cleanup as the memory backend |
| Receiver.ReceiveAppliesOnce | event-service/README.md:164-176 | receiving an accepted event leaves it applied, and no id applied twice, as long as no id is forgotten |
| DeliveryProtocol.SafeConfirm | python-agent/outbox/recovery_service.py:450-515 | an acknowledgement that follows a response takes out only an event that was applied |
| DeliveryProtocol.SafeStep | python-agent/outbox/recovery_service.py:381-515 | every step of every worker that acknowledges only what was acknowledged to it, of the network, and every crash keeps the invariant |
| DeliveryProtocol.ExactlyOnce | python-agent/outbox/recovery_service.py:381-515 | in every reachable state of such workers each stored event is pending or applied, no id is applied twice, and nothing is applied that was not stored |
| DeliveryProtocol.WalkIsARun | python-agent/outbox/recovery_service.py:424-438 | the delivery loop over a task's events is a run of one worker: sent and confirmed, or sent and given up |
| DeliveryProtocol.PassIsARun | python-agent/outbox/recovery_service.py:237-515 | whatever a recovery pass does to the outbox, a worker of the protocol does in some run |
| DeliveryProtocol.FailureFreeRecoveryAppliesEverything | python-agent/outbox/recovery_service.py:381-515 | from every reachable state, an uninterrupted pass without a failed delivery leaves nothing pending if and only if stripping leaves the pending ids alone, and then the applied set equals the stored set, each applied once |
| Recovery.CountedAreAbsent | python-agent/outbox/recovery_service.py:533-582 | over a sorted list the loop counts the numbers from the first to the last that no event carries |
| Recovery.GapsBetween | python-agent/outbox/recovery_service.py:533-582 | the gap count is the number of integers between the least and the greatest pending number that no event carries |
| Recovery.DetectAndResolveSequenceGaps | python-agent/outbox/recovery_service.py:517-582 | for any order and with repeated numbers the loop computes that count, and resolved equals detected |
| Recovery.StoreKeepsStocked | python-agent/outbox/redis_outbox.py:103-140 | stores keep tasks stripped and events schema-valid |
| Recovery.PassDrains | python-agent/outbox/recovery_service.py:237-515 | a pass, interrupted at any point or not, removes only delivered events and keeps the others in order; uninterrupted it removes all that are delivered |
| Recovery.PassLeavesTheUnacknowledged | python-agent/outbox/recovery_service.py:277-292 | whatever the ids, an uninterrupted pass leaves pending, in order, exactly the events whose id is not the stripped id of a delivered one |
| Recovery.PassLeavesTheUndelivered | python-agent/outbox/recovery_service.py:277-292 | over ids that stripping leaves alone, an uninterrupted pass leaves pending exactly the events whose delivery failed, in order |
| Recovery.PassBalances | python-agent/outbox/recovery_service.py:347-448 | uninterrupted, the totals are the sum over the tasks whatever the batch size, found = delivered + failed and gaps = resolved |
| Recovery.FailureFreePassLeavesUntrimmed | python-agent/outbox/recovery_service.py:277-292 | after an uninterrupted pass without a failed delivery exactly the events are pending whose ids stripping changes |
| Recovery.FailureFreePassEmptiesIff | python-agent/outbox/recovery_service.py:277-292 | such a pass leaves nothing pending for a task if and only if stripping leaves its ids alone |
| Recovery.SecondPassFindsNothing | python-agent/outbox/recovery_service.py:237-292 | over such ids a second pass, whatever its tasks, batch size, client and shutdowns, finds, delivers and fails nothing |
| Recovery.TaskBalancesIff | python-agent/outbox/recovery_service.py:400-448 | for every shutdown: the counts of a task balance if and only if the task is not started at all, or no shutdown stops its loop before an event and no callback raises after a failed delivery |
| Recovery.TaskOutcome | python-agent/outbox/recovery_service.py:381-448 | for every client, callback and shutdown: a task that is started attempts its pending events in the order of their numbers up to a shutdown, a callback that raises or the end; those delivered are acknowledged in that order, and every count is read off them |
| Recovery.MetricsCount | python-agent/outbox/recovery_service.py:237-345 | over any passes, recoveries are those that ended, successes those of them without a failed delivery, and successes and failures are all passes, those whose last callback raised counted twice |
| Recovery.FailureCountedTwice | python-agent/outbox/recovery_service.py:424-448 | two events with generated ids are stored, the first is refused, the callback of the second raises: two found, one delivered, two counted as failed |
| Recovery.NewlineIdSurvivesRecovery | python-agent/outbox/recovery_service.py:381-515 | the event with a newline after its id is counted as delivered and stays pending |
| Recovery.EventRecoveryService.RecoverSingleEvent | python-agent/outbox/recovery_service.py:450-515 | true exactly on a response, and then the event is acknowledged |
| Recovery.EventRecoveryService.DeliverPending | python-agent/outbox/recovery_service.py:424-438 | the delivery loop counts successes and failures and acknowledges the delivered, up to a shutdown or a raising callback |
| Recovery.EventRecoveryService.RecoverTaskEvents | python-agent/outbox/recovery_service.py:381-448 | one task is recovered as the specification says |
| Recovery.EventRecoveryService.RecoverTaskBatch | python-agent/outbox/recovery_service.py:347-379 | one batch is recovered as the specification says |
| Recovery.EventRecoveryService.RecoverBatches | python-agent/outbox/recovery_service.py:272-292 | the loop over batches is the specified pass |
| Recovery.EventRecoveryService.PerformRecovery | python-agent/outbox/recovery_service.py:237-345 | all pending tasks are recovered and the service metrics updated; it raises, counting a failure, if the start callback raises, on a batch size of zero, or after the work if the completion callback raises; a negative batch size recovers nothing |
| BaseAgents.DeliverInOrder | python-agent/agents/base_agent.py:71-94 | delivering the pending event, whatever its fate, keeps every task's order |
| BaseAgents.PublishInOrder | python-agent/agents/base_agent.py:25-45 | a publication keeps, for every task, at most one pending event and the applied events numbered in order |
| BaseAgents.AppliedInOrder | python-agent/agents/base_agent.py:25-51 | between the whole calls of one agent, over any run with a client that raises, a task's applied events are numbers 0 to n-1 in order; at most one event is pending, and only it may be unapplied |
| BaseAgents.UninspectedResultsLoseEvents | python-agent/agents/base_agent.py:79-87 | with a client that reports in its result every event leaves the outbox, and each is applied if and only if its one delivery reached the receiver |
| BaseAgents.OneEventLost | python-agent/agents/base_agent.py:79-87 | one publication with a generated id whose delivery does not reach the receiver, with such a client: numbered, not pending, not applied |
| BaseAgents.NothingIsLostIffClientRaises | python-agent/agents/base_agent.py:79-94 | every run keeps every numbered event pending or applied if and only if the client raises when a delivery fails |
| BaseAgents.BaseAgent.NextSeqOf | python-agent/agents/base_agent.py:47-51 | hands out the counter and increments it |
| BaseAgents.BaseAgent.EnqueueOutbox | python-agent/agents/base_agent.py:96-98 | appends to the task's outbox |
| BaseAgents.BaseAgent.AckOutbox | python-agent/agents/base_agent.py:100-105 | removes the id and the empty entry, as the abstract outbox does |
| BaseAgents.DeliverEvent | python-agent/agents/base_agent.py:79-94 | returns unless a raising client's delivery failed; the receiver applies what reaches it |
| BaseAgents.BaseAgent.FlushOutbox | python-agent/agents/base_agent.py:71-77 | delivers and acknowledges the pending events until one delivery raises |
| BaseAgents.BaseAgent.PublishEvent | python-agent/agents/base_agent.py:25-45 | rejects a blank task, flushes, numbers, enqueues, delivers and acknowledges |
| InterleavedPublishers.NumbersAreContiguousAndNothingIsLost | python-agent/agents/base_agent.py:47-109 | under every interleaving, a task's numbers are unique and contiguous and each numbered event is about to be enqueued, pending, or applied once |
| InterleavedPublishers.UndeliveredEventsStay | python-agent/agents/base_agent.py:100-105 | from every reachable state no step removes an event from the outbox that was not applied |
| InterleavedPublishers.OneCallerKeepsOrder | python-agent/agents/base_agent.py:25-109 | in every interleaving, after every step, while at most one caller at a time publishes for a task: its applied events are numbers 0, 1, 2, ... in order, at most one is pending, at most the newest is unapplied |
| InterleavedPublishers.OrderKeptIffOneCaller | python-agent/agents/base_agent.py:25-109 | every run with at most k callers per task at a time keeps the order if and only if k <= 1 |
| InterleavedPublishers.OrderedStep | python-agent/agents/base_agent.py:25-109 | every step keeps, for each place its only caller can be at, what the numbered, applied and pending events of the task are there |
| InterleavedPublishers.SafeAcked | python-agent/agents/base_agent.py:100-105 | acknowledging an applied event loses no other |
| InterleavedPublishers.TwoPublishersOutOfOrder | python-agent/agents/base_agent.py:25-51 | two callers of one task, with generated ids, can have number 1 applied and 0 not |
| PersistentAgents.RedeliverIsTheWalk | python-agent/outbox/integration_example.py:79-97 | the example's redelivery acknowledges what the recovery service's loop does when the same deliveries raise |
| PersistentAgents.RedeliverLeavesTheRaised | python-agent/outbox/integration_example.py:79-97 | over ids that stripping leaves alone, redelivery leaves pending exactly the events whose delivery raised |
| PersistentAgents.RedeliverApplies | python-agent/outbox/integration_example.py:79-97 | redelivery applies what its deliveries bring to the receiver, raised or not, and nothing else |
| PersistentAgents.PublishIsContinuous | python-agent/outbox/integration_example.py:32-77 | a publication, stored or rejected, whatever the fates of its deliveries, keeps the n-th stored event numbered n and the pending events sorted as they stand |
| PersistentAgents.PublishedAs | python-agent/outbox/integration_example.py:32-77 | a blank task is refused before anything is delivered; an event that the schema does not accept is refused after the pending ones were delivered; any other is stored and sent, and the result says whether the delivery returned |
| NumberRaces.ContinuousIffOnePublisher | python-agent/outbox/integration_example.py:57-67 | every run in which at most k living publishers at a time have taken a number and not yet stored keeps the numbers continuous if and only if k <= 1; a publisher may die with its number |
| NumberRaces.TwoPublishersShareANumber | python-agent/outbox/integration_example.py:57-67 | two publishers that take a number before either stores both store number 0 |
| NumberRaces.StepIsContinuous | python-agent/outbox/integration_example.py:57-67 | with at most one number taken, every step keeps the n-th stored event numbered n and the taken number the next one |
| PersistentAgents.PublishLeavesTheRaised | python-agent/outbox/integration_example.py:32-77 | over such ids, after a publication the pending events are those, the new one included, whose delivery raised |
| PersistentAgents.PublishIsARun | python-agent/outbox/integration_example.py:32-77 | with a client that raises, a publication is a run of one worker of the delivery protocol: scan, redeliver, store, deliver |
| PersistentAgents.AgentIsARun | python-agent/outbox/integration_example.py:32-77 | with a client that raises, every run of the agent is a run of the protocol with the same outbox, receiver and stored events |
| PersistentAgents.OneEventLost | python-agent/outbox/integration_example.py:67-77 | one publication with a client that reports its failure in the result: stored, not pending, not applied |
| PersistentAgents.NothingIsLostIffClientRaises | python-agent/agents/base_agent.py:79-94 | every run from an empty outbox keeps each stored event pending or applied if and only if the client raises when a delivery fails |
| PersistentAgents.PersistentAgent.RecoverPendingEvents | python-agent/outbox/integration_example.py:79-97 | the loop over the pending events is the specified redelivery |
| PersistentAgents.PersistentAgent.PublishEvent | python-agent/outbox/integration_example.py:32-77 | redelivers, takes the next number, stores before delivering, acknowledges if the delivery returned, whatever it returned |
| EventDelivery.ExtractedIffValidWithErrorCode | python-agent/client/control_plane_client.py:436-526 | an acknowledgement can be extracted exactly from a valid response that carries an error code |
| EventDelivery.ExtractedAckIsValid | python-agent/client/control_plane_client.py:436-526 | what was extracted validates as an acknowledgement, against a number exactly if it carries it |
| EventDelivery.SleptClosedForm | python-agent/client/control_plane_client.py:196-207 | the delay slept up to attempt k is backoff * (2^(k-1) - 1) |
| EventDelivery.DeliveryOutcome | python-agent/client/control_plane_client.py:174-406 | a delivery ends at the first attempt that is accepted, refused for good or blocked, or at the last; sends and delay follow |
| EventDelivery.JudgedByTheResponse | python-agent/client/control_plane_client.py:211-255 | an attempt counts as accepted exactly if its response has the four fields of an acknowledgement and says accepted; as final exactly for a request error that is not to be retried, another exception, or a refusal with one of the seven codes; everything else is to be tried again |
| EventDelivery.DeliveryEndsIff | python-agent/client/control_plane_client.py:174-406 | from any breaker, a delivery ends in a given way on attempt k if and only if the breaker lets the attempts before it through and their responses say to try again, and attempt k ends it so; any response at all is a success for the breaker |
| EventDelivery.ResultSays | python-agent/client/control_plane_client.py:288-406 | the result says delivered exactly if some attempt is let through and its acknowledgement says accepted, and breaker exactly if an attempt is not let through |
| EventDelivery.ResultCounts | python-agent/client/control_plane_client.py:288-406 | the result's delay is that of the attempts made; its attempts are those made for a success or a final refusal, and otherwise the configured maximum |
| EventDelivery.ValidatedFields | python-agent/client/control_plane_client.py:484-530 | an answer is valid exactly if its fields have their types and the number is not negative and the expected one; the error code may be missing |
| EventDelivery.ExtractedFields | python-agent/client/control_plane_client.py:436-482 | an answer is extracted exactly if all four fields have their types, and each field of the result is the answer's |
| EventDelivery.SparedFromEveryState | python-agent/client/control_plane_client.py:174-406 | for a backoff that is not negative, whatever steps the breaker has seen before: a dead transport gets at most the threshold of sends in every delivery whose attempts begin at most `late` after their backoff, if and only if there are no more attempts than that or the next backoff plus `late` is below the recovery timeout |
| EventDelivery.DeadTransportIsSpared | python-agent/client/control_plane_client.py:174-406 | the same from a fresh breaker, for any backoff |
| EventDelivery.SparedExactly | python-agent/client/control_plane_client.py:174-406 | from a fresh breaker, for any clock readings: at most the threshold of sends if and only if there are no more attempts than that or the next attempt begins before the recovery timeout is over |
| EventDelivery.PunctualDeliveryIsSpared | python-agent/client/control_plane_client.py:200-207 | from a fresh breaker, the case in which each attempt begins exactly when its backoff is over |
| EventDelivery.ControlPlaneIsSpared | python-agent/client/control_plane_client.py:62-70 | for the client's own breaker in any state it can be in, and its clamped settings: at most 3 sends if and only if at most 3 attempts or 4 * backoff + late below 60 seconds |
| EventDelivery.DeadTransportLoad | python-agent/client/control_plane_client.py:174-406 | over any run of deliveries through a fresh breaker a dead transport gets at most threshold + floor(T / recovery timeout) sends in a span T |
| EventDelivery.DeliveryIsCalls | python-agent/client/control_plane_client.py:196-397 | a delivery over a dead transport is a sequence of failing calls through the breaker: as many are executed as are sent |
| EventDelivery.MetricsBalance | python-agent/client/control_plane_client.py:174-434 | over any run deliveries = successes + failures, failures = blocked + exhausted + non-retryable, attempts = sends + blocked |
| EventDelivery.ControlPlaneClient.AttemptOnce | python-agent/client/control_plane_client.py:209-397 | one attempt through the breaker: admitted or not, counted, and whether it ends the delivery |
| EventDelivery.ControlPlaneClient.SleepAndAttempt | python-agent/client/control_plane_client.py:196-397 | the body of the attempt loop: sleep, attempt, and either the end of the delivery or the delivery from the next attempt on |
| EventDelivery.ControlPlaneClient.PublishEventWithRetryResult | python-agent/client/control_plane_client.py:149-406 | the attempt loop is the specified delivery, counted in the metrics, with the reported attempts the configured maximum on failure |
| RepairLoop.TestSucceedsIff | python-agent/agents/tester_agent.py:51-151 | a test succeeds if and only if one of the allowed attempts passes, stops there, and otherwise uses them all |
| RepairLoop.TesterAgent.constructor | python-agent/agents/tester_agent.py:28-36 | the retries are pushed into 0..3 |
| RepairLoop.TesterAgent.Execute | python-agent/agents/tester_agent.py:38-173 | the attempt loop returns the result of the settling attempt, two progress events per attempt |
| RepairLoop.CourseIsBounded | python-agent/orchestrator/agent_orchestrator.py:498-704 | at most max_fix + 1 coder runs and (max_fix + 1) * (max_retries + 1) sandbox runs |
| RepairLoop.JudgedByTheOracles | python-agent/orchestrator/agent_orchestrator.py:499-700 | an attempt asks for a repair with an error, or ends the task in each of its ways, exactly when coder, gate, reviewer, command and sandbox say so; a failed test is reported by its last sandbox attempt: the stripped reason, else the status, else test_failed |
| RepairLoop.CourseIff | python-agent/orchestrator/agent_orchestrator.py:499-700 | a run ends in a given way, its coder runs having seen given errors, if and only if each attempt before the last needed a repair with the next error and the last one ends so, exhaustion only at the limit; all on the oracles |
| RepairLoop.RepairGoesOn | python-agent/orchestrator/agent_orchestrator.py:533-641 | before the limit an attempt whose gate or test fails is followed by another one, whose coder sees exactly that error |
| RepairLoop.SandboxRunsAre | python-agent/agents/tester_agent.py:51-151 | the sandbox runs of an attempt: none unless the stage is reached and the command chosen, else up to the first that passes or all that are allowed |
| RepairLoop.AttemptEvents | python-agent/orchestrator/agent_orchestrator.py:499-700 | how many events an attempt publishes, by what the oracles say |
| RepairLoop.RunIsBounded | python-agent/orchestrator/agent_orchestrator.py:1189-1197 | with the limits the environment and the tester allow: at most 4 coder runs and 16 sandbox runs |
| RepairLoop.CourseIsAChain | python-agent/orchestrator/agent_orchestrator.py:498-704 | the coder of each attempt sees the error of the attempt before; the ending is the last attempt's, or exhaustion at the limit |
| RepairLoop.DoneIff | python-agent/orchestrator/agent_orchestrator.py:499-700 | the run ends with success if and only if repairs within the limit, read off the oracles, lead to an attempt that passes coder, gate, review and test |
| RepairLoop.OneTerminalEvent | python-agent/orchestrator/agent_orchestrator.py:499-700 | a run publishes exactly one event that ends the task, as its last, and that one names the ending: TASK_DONE, or TASK_FAILED with the coder's, or the ending's own, reason |
| RepairLoop.MaxFixAttempts | python-agent/orchestrator/agent_orchestrator.py:1189-1197 | 3 for a blank or malformed setting, a setting in 1..3 as it is, below it 1 and above it 3 |
| RepairLoop.RunStage | python-agent/orchestrator/agent_orchestrator.py:725-733 | the scheduler returns results for coder, review and test exactly if neither review nor test raises |
| RepairLoop.Orchestrator.RunReviewAndTest | python-agent/orchestrator/agent_orchestrator.py:706-745 | results if no node raised, else a failed task |
| RepairLoop.Orchestrator.Conclude | python-agent/orchestrator/agent_orchestrator.py:586-692 | after the stage: invalid, rejected, repair or done, in that order, with its event |
| RepairLoop.Orchestrator.RunAttempt | python-agent/orchestrator/agent_orchestrator.py:508-692 | one attempt gives the specified verdict, events and sandbox runs |
| RepairLoop.Orchestrator.HandleCodeChange | python-agent/orchestrator/agent_orchestrator.py:498-704 | the while loop has the specified ending, errors seen, sandbox runs and log |

## Left out

- Redis TTL on outbox keys and the switch from Redis to process memory after an error: once processes stop
  sharing a store, the guarantees above do not apply.
- JSON encoding of stored events and the skipping of malformed entries; the JSON schema is reduced to the id
  format, the sign of the number and one verdict on everything else.
- Receiver.ReceiveAppliesOnce: does not model the 24-hour lifetime of the deduplication keys, the receiver's
  behaviour when Redis fails, or the race of two concurrent requests with the same id; the receiver here
  checks and marks in one step and never forgets.
- DeliveryProtocol.ExactlyOnce: does not cover publishers that acknowledge without looking at the result; for
  those `PersistentAgents.NothingIsLostIffClientRaises` says what fails.
- DeliveryProtocol.SafeStep: likewise.
- `cleanup_task` as a step of the delivery protocol: it drops pending events on purpose. It is part of the
  abstract outbox and of the single publisher's runs.
- Recovery.PassLeavesTheUnacknowledged: what a delivery comes to is a function of the task and the id, so two
  pending events with one id share it.
- The recovery worker thread and its periodic timing; a pass may interleave with other workers
  only as the steps of the protocol, not inside `Recovery.PassResult`.
- `PersistentBaseAgent.recover_all_pending_events`: the same loop per task as `RecoverPendingEvents`.
- The order of nodes within a wave of the DAG and the choice among several nodes that raise in one wave.
- LlmClient.BadReplyIsNotServedAgain: is about a chat, a rollback and a lookup with nothing in between; for other
  callers in between there is `ResponseCache.HitAfterDiscardIsNewer`.
- LlmClient.SharedCacheIsFaithful: is about whole operations; `LlmClient.InterleavedChatsAreTransparent` is about
  their steps.
- LlmClient.SharedChatIsTransparent: likewise.
- ChatInclusion.LargerCacheKeepsEveryChatHitIff: the provider's answer is a function of the key, so all chats with
  one key get the same answer.
- LlmClient.EveryLogIsATail: is about whole operations; the steps of a rollback and of another client's chat do not
  interleave in it, and no client writes another one's log.
- LlmClient.RollbackForgetsEveryChat: is about whole operations; a store of another client inside the rollback
  can bring a key back, and `ResponseCache.HitAfterDiscardIsNewer` says with which values.
- BaseAgents.AppliedInOrder: is about one agent between its calls; `InterleavedPublishers.OneCallerKeepsOrder` is
  about every step of every interleaving.
- Cache keys are opaque: hashing of messages and settings is not modelled, and equal keys mean equal requests.
- The metrics recorder for cache statistics. Ratios are exact reals before they are rounded.
- The Redis backend of the lease lock, and the renewal thread itself: renewals are steps of the trace.
- `publish_event_with_retry`, `publish_event_with_ack` and the metrics getters of the control-plane client; HTTP, JWT and uploads.
- The reported `attempts` of a failed delivery as a count of sends: it is the configured maximum.
- `FixLoop.fix_and_validate` and the fix strategies; only the prompt format and the parser are modelled.
- RepairLoop.Orchestrator.HandleCodeChange: payloads, memory records and spans are not modelled, and publishing and packaging do not fail.
- The choice of the test command and of reviewer plugins; that they may raise is an oracle.
- Repository bootstrap, dialogue, human gate, plugin loading, template generators, validation checks, feature flags.
