# The driver machinery, proved

This project models the in-memory machinery around the LLM drivers, and a few self-contained state and
algorithm modules beside it, and proves what they keep over every run. Check the whole project with
`dafny verify dfyconfig.toml`.

| part | modules | what it is |
|---|---|---|
| failover pool | `FailoverSpec`, `FailoverRuns`, `FailoverHistory`, `FailoverManagement` | five driver statuses, circuit timers, stable priority choice, bounded decision log |
| response cache | `CacheSpec`, `CacheRuns`, `CacheCounters`, `ResponseCaching` | an ordered dictionary with eviction of the oldest and expiry, against a plain log of puts |
| context window | `ContextWindow` | greedy truncation with pinned messages, and budget arithmetic |
| concurrency limiter | `LimiterSpec`, `ConcurrencyLimiting` | interleaved steps of many calls over two semaphores and one shared count |
| tenant services | `FactorySpec`, `ServiceFactories` | interleaved fetch, fill and read steps, with clears at any point |
| event log | `EventLog` | a file of lines: replay, grouping, recovery verdicts, trimming |
| health monitor | `HealthMonitoring` | bounded windows, classification, alerts, percentiles |
| latency profiles | `LatencyAnalysis` | running profiles against a recomputation over the full history |
| evidence | `EvidenceSelection`, `EvidenceRetrieval`, `EvidenceClaims`, `EvidenceScores`, `EvidenceTexts`, `EvidenceOrder`, `EvidenceCollection` | aggregation, diverse selection, contradictions, claims, synthesis scores, and the pipeline they form |

Each stateful part has the same three layers. A specification gives the state as a value and each
operation as a function on it, and ghost functions run a sequence of operations. Lemmas over those runs
state the properties. Classes with the source's own fields and loops update their state in place, and
each method's contract equates the new view of the object with the specification's function of the old
one, so what is proved of the runs holds of the objects. `Common` and `Sorting` hold what
several parts share: first-match lookup, and the stable library sort by any comparison.

Clock readings are parameters, a second reading where the source reads the clock twice. No property
assumes that the readings are ordered unless its statement says so. An exception that the source raises
is a result: `Put` and `RecordSample` answer false where the source raises because the capacity is below
one, and `GetOrCreate` answers none where the creator raises.

Where the code and its documentation disagree, the model follows the code:

- `core/drivers/failover_manager.py:10` speaks of a single test call while half-open. The code hands out a
  half-open primary to every selection until an outcome arrives (`HalfOpenIsNotRationed`), and any driver
  again unless one ahead of it comes back past its timeout (`ChosenAgainIff`).
- `core/drivers/failover_manager.py:13-14` draws a failed retry as a move to failing. The code reopens
  the circuit (`StatusMovesAlongEdges`), and a failing driver never reaches half-open without opening first.
- `core/drivers/failover_manager.py:305-308` has a degraded driver fail at the full threshold. The code
  fails it one failure after it was degraded, when that is still below the threshold (`StraightFailures`).
- `core/drivers/context_manager.py:295-296` promises messages that fit the budget. The result fits if and
  only if the whole history does or its pinned messages do (`ResultFitsIff`, `OverfullPinnedHistory`).
- `core/fsm/event_sourcing.py:294-295` promises the number of events trimmed. A completed trim breaks that
  when the number to keep is not positive, and a torn one reports nothing removed when much is gone
  (`TornTrimLosesLatest`); `TrimCountIsTruthful` says exactly when the count is right, for every outcome.
- `core/api/concurrency_limiter.py:162-164` reports available permits as the maximum less one count for both
  semaphores. `AvailablePermitsIff` says when that is negative and when it is what it is called; two full
  paths already make it negative (`FullHouseReportsNegative`). The report at `:330` uses the count in the
  statistics, which a reset sets to zero: `ReportedPermitsIff` says the same of it, and `ResetHidesHolder`
  is a run on which the two differ.

## Model

| member | source | states |
|---|---|---|
| `FailoverRuns.ReachableStatusMatchesLog` | core/drivers/failover_manager.py:266-355 | In every pool reachable from the empty one, a driver's consecutive-failure counter is the number of trailing failures of its outcome log, its totals count the log, and its status bounds the counter: with `h = max(1, T/2)`, healthy means below `h`, degraded means exactly `h` and `h < T`, failing means below `T` |
| `FailoverRuns.StraightFailures` | core/drivers/failover_manager.py:322-353 | From healthy with a clean count, `k` straight failures give healthy, degraded, failing or circuit_open according to where `k` falls among `h` and `T`, for every `T` including zero and negative ones |
| `FailoverRuns.StatusMovesAlongEdges` | core/drivers/failover_manager.py:288-293 | In any run every status change of a driver is an edge of a fixed graph labelled with the operation, and is made by a selection or by that driver's own outcome |
| `FailoverRuns.HealthNeedsProbe` | core/drivers/failover_manager.py:326-390 | A failing or open driver is half-open later only if some selection found it past its timeout, and healthy or degraded later only if after that a success was recorded while it was half-open |
| `FailoverHistory.ProbeDecides` | core/drivers/failover_manager.py:288-333 | A half-open driver keeps its record until its next own outcome, whatever happens to the rest of the pool; a success then makes it healthy with a clean count and no opening time, a failure opens its circuit from that failure's reading |
| `FailoverHistory.HalfOpenWaits` | core/drivers/failover_manager.py:379-390 | A half-open driver's whole record is unchanged until its next own outcome |
| `FailoverRuns.FailingWaitsForFailure` | core/drivers/failover_manager.py:334-349 | A failing driver stays failing and is never chosen until another failure of it is recorded, whatever successes and selections happen |
| `FailoverRuns.CircuitTimerHolds` | core/drivers/failover_manager.py:329-390 | Through any recorded outcomes and any selections before opening time plus timeout, an open circuit stays open, keeps its opening time, and its driver is never chosen |
| `FailoverRuns.FirstSelectAfterTimeout` | core/drivers/failover_manager.py:379-390 | The first selection at or after the timeout makes the driver half-open and available, so that selection returns some driver |
| `FailoverHistory.OpeningIsRecorded` | core/drivers/failover_manager.py:329-344 | In every reachable pool, an open circuit carries the reading of the failure operation at which its status last became open |
| `FailoverHistory.BreakerHolds` | core/drivers/failover_manager.py:329-390 | From that failure on: with less than the timeout passed since its reading at every selection, the circuit stays open and the driver is never chosen |
| `FailoverHistory.BreakerReleases` | core/drivers/failover_manager.py:377-390 | And the first selection with the timeout passed since that reading half-opens it and returns some driver |
| `FailoverHistory.OpeningTimeIsLatestTurn` | core/drivers/failover_manager.py:288-349 | In every reachable pool and whatever its status, the opening time is the reading at which the status last turned to failing or open, or zero after a healed probe or none |
| `FailoverHistory.OutcomeTimesAreLatest` | core/drivers/failover_manager.py:283-324 | The last success and failure times are the readings of the latest such outcomes since registration |
| `FailoverRuns.HalfOpenIsNotRationed` | core/drivers/failover_manager.py:400-418 | While no outcome arrives, every one of any number of selections hands out the same half-open primary: nothing limits it to one probe |
| `FailoverRuns.ChosenIff` | core/drivers/failover_manager.py:361-437 | A driver is chosen exactly when it is available after the clock check and no driver ahead of it, by priority and then registration, is |
| `FailoverRuns.ChosenAgainIff` | core/drivers/failover_manager.py:379-437 | The next selection hands the driver just chosen out again if and only if no open driver ahead of it is past its timeout by then |
| `FailoverRuns.PoolIsBounded` | core/drivers/failover_manager.py:206-242 | Every reachable pool has unique ids and at most a hundred drivers |
| `FailoverRuns.RunIsLocal` | core/drivers/failover_manager.py:206-390 | While registered, a driver's record after any run of the whole pool is a function of its own outcomes, its own settings and the selection clocks |
| `FailoverRuns.DecisionLogIsTail` | core/drivers/failover_manager.py:566-572 | After any decisions and resets, the decision log is a contiguous tail of the decisions taken since the last reset, at most `max(1, max_decisions)` long, and holds the latest one |
| `FailoverHistory.DecisionLogLength` | core/drivers/failover_manager.py:566-572 | The exact length of the log after any decisions and resets: it fills to its capacity and then drops its oldest tenth, at least one, each time it is full |
| `FailoverSpec.SelectionIsStableMinimum` | core/drivers/failover_manager.py:361-437 | A selection returns None exactly when no driver is eligible; otherwise the eligible driver of least priority, first registered among equals, with `fallback_used` exactly when it is not the primary, which is exactly when the primary is ineligible; and the available list taken straight afterwards starts with it |
| `FailoverSpec.ChoiceIsStableMinimum` | core/drivers/failover_manager.py:392-435 | The same for the choice alone, on any pool: the primary-first search is a minimum over the eligible drivers in priority-then-registration order |
| `FailoverSpec.ReasonTellsStatus` | core/drivers/failover_manager.py:400-433 | The reason of a decision reads back as the chosen driver's status: half-open exactly when it is, otherwise healthy or degraded exactly for a primary in that status, and otherwise a failover naming the primary |
| `Sorting.SortOrders` | core/drivers/failover_manager.py:393-396 | The library sort by a comparison orders by every relation that agrees with it, ties in their old order included |
| `FailoverSpec.SortIsStable` | core/drivers/failover_manager.py:393-396 | The sort by priority puts one entry before another exactly as priority, then registration order, says |
| `FailoverSpec.StepIsLocal` | core/drivers/failover_manager.py:206-390 | One operation changes a driver only by its own record, settings and the clock, never changes its settings, and removes it only when it unregisters that driver |
| `FailoverSpec.StepIsWellFormed` | core/drivers/failover_manager.py:206-260 | Every operation keeps driver ids unique |
| `FailoverSpec.StepKeepsCapacity` | core/drivers/failover_manager.py:206-242 | No operation takes the pool past its capacity of a hundred drivers |
| `FailoverHistory.RegistrationAdds` | core/drivers/failover_manager.py:206-242 | A new id is registered exactly while there are fewer than a hundred drivers, healthy with nothing recorded; a known id leaves the pool as it is |
| `FailoverHistory.AvailableListIsOrdered` | core/drivers/failover_manager.py:439-455 | The available list holds exactly the healthy, degraded and half-open drivers, in selection order |
| `FailoverManagement.CountsPartitionThePool` | core/drivers/failover_manager.py:507-531 | The four reported status counts plus the half-open drivers, which the statistics leave out, make up the pool |
| `FailoverManagement.CountsAreCardinalities` | core/drivers/failover_manager.py:507-518 | Each count is the number of drivers in that status |
| `FailoverManagement.FallbacksAreCardinalities` | core/drivers/failover_manager.py:520 | The failovers are the logged decisions that fell back |
| `FailoverManagement.FailoverState.NoteSuccess` | core/drivers/failover_manager.py:283-293 | Updates the record in place to the specified state after a success |
| `FailoverManagement.FailoverState.NoteFailure` | core/drivers/failover_manager.py:322-353 | Updates the record in place to the specified state after a failure, with its two clock readings |
| `FailoverManagement.FailoverState.NoteClock` | core/drivers/failover_manager.py:378-390 | Updates the record in place to the specified state after the timeout check |
| `FailoverManagement.FailoverManager.RegisterDriver` | core/drivers/failover_manager.py:206-242 | Adds a fresh driver at the end, and answers true exactly when the id was new and the pool not full |
| `FailoverManagement.FailoverManager.UnregisterDriver` | core/drivers/failover_manager.py:244-260 | Removes exactly that driver, and answers whether it was there |
| `FailoverManagement.FailoverManager.RecordSuccess` | core/drivers/failover_manager.py:266-295 | The pool afterwards is the specified one, and the answer is whether the driver was registered |
| `FailoverManagement.FailoverManager.RecordFailure` | core/drivers/failover_manager.py:297-355 | The pool afterwards is the specified one, and the answer is whether the driver was registered |
| `FailoverManagement.FailoverManager.CheckCircuits` | core/drivers/failover_manager.py:377-390 | The loop over the circuits applies the timeout check to every driver, in place |
| `FailoverManagement.FailoverManager.SelectDriver` | core/drivers/failover_manager.py:361-437 | Applies the clock, returns the specified choice, and logs exactly the decisions it returns |
| `FailoverManagement.FailoverManager.Decide` | core/drivers/failover_manager.py:392-435 | The primary-then-others loop computes the specified choice |
| `FailoverManagement.FailoverManager.RecordDecision` | core/drivers/failover_manager.py:566-572 | Drops a tenth of the capacity, at least one, when full, and appends |
| `FailoverManagement.FailoverManager.GetAvailableDrivers` | core/drivers/failover_manager.py:439-455 | The loop lists the eligible drivers in selection order and changes nothing |
| `FailoverManagement.FailoverManager.GetStats` | core/drivers/failover_manager.py:507-531 | The four counts, the total, how far the counts fall short of it, and the failovers and decisions of the log |
| `FailoverManagement.FailoverManager.Reset` | core/drivers/failover_manager.py:542-547 | Empties pool and log |
| `CacheRuns.HitReturnsLatestPut` | core/drivers/response_cache.py:142-186 | After any run from an empty cache, a hit returns the content of the latest enabled put of that key with no removal of the key since, at most one time-to-live after that put, and credits that put's tokens; no assumption on the clock readings |
| `CacheRuns.RunRecordsLatestPut` | core/drivers/response_cache.py:142-303 | After any run, whatever entry a key has is the one its latest put created |
| `CacheRuns.AbsenceHasCause` | core/drivers/response_cache.py:142-303 | The other half: with a capacity of one or more, a put that the plain log still holds is present if and only if no operation after that put threw its entry out, by an eviction with `max_size - 1` other keys refreshed, or by finding it expired |
| `CacheRuns.HitIff` | core/drivers/response_cache.py:142-303 | The whole refinement: with a capacity of one or more, a lookup hits if and only if the cache is enabled, the plain log holds a put of the key, no operation since that put threw it out, and the put is at most one time-to-live old |
| `CacheRuns.LatestPutIsLatest` | core/drivers/response_cache.py:214-272 | The plain log's latest put is the operation at its place: made while enabled, with that content, tokens and time, and followed by no enabled put, invalidation or clearing of its key |
| `CacheRuns.LeavesOnlyForCause` | core/drivers/response_cache.py:167-272 | An operation removes an entry exactly when it is an enabled lookup of it past expiry, another key's enabled put that evicts it or finds it expired, an invalidation of its key, or a clearing |
| `CacheRuns.EvictionNeedsPressure` | core/drivers/response_cache.py:220-239 | In any run, a key is evicted only when the swept cache is full and at least `max_size - 1` distinct other keys were hit or freshly inserted since the key itself last was; overwriting does not refresh |
| `CacheRuns.RunKeepsYounger` | core/drivers/response_cache.py:167-239 | After any run, every key placed behind a given key was hit or freshly inserted since that key last was |
| `CacheRuns.OverwriteEvictsBystander` | core/drivers/response_cache.py:220-239 | Overwriting a key on a full cache evicts the oldest other entry and leaves the cache one short of full |
| `CacheRuns.BooksBalance` | core/drivers/response_cache.py:162-272 | In any run: size is within capacity; fresh insertions equal size plus evictions, expirations, invalidations and cleared entries; enabled lookups equal hits plus misses; tokens saved equal the sum, over the hits, of the tokens of the latest put of the key hit |
| `CacheCounters.CountersAreTallied` | core/drivers/response_cache.py:162-186 | In any run: hits are the lookups that returned content, misses the enabled ones that did not, expirations the entries found past their time, evictions the puts that met a cache full of live entries |
| `CacheCounters.StepCounts` | core/drivers/response_cache.py:162-226 | One operation moves each counter by exactly that |
| `CacheCounters.EntriesCountTheirHits` | core/drivers/response_cache.py:180-182 | Each entry's hit count is the number of lookups that returned it since it was put |
| `CacheSpec.SweepKeepsLive` | core/drivers/response_cache.py:331-336 | A sweep keeps exactly the unexpired entries |
| `CacheSpec.StepIsWellFormed` | core/drivers/response_cache.py:142-303 | No operation duplicates a key or lets the cache outgrow its capacity |
| `ResponseCaching.DeletingExpiredIsSweep` | core/drivers/response_cache.py:331-336 | Collecting the expired keys and deleting them one by one leaves exactly the unexpired entries in order, and counts them |
| `ResponseCaching.ResponseCache.constructor` | core/drivers/response_cache.py:121-140 | Starts empty with the given capacity and time-to-live |
| `ResponseCaching.ResponseCache.Get` | core/drivers/response_cache.py:142-186 | Returns the specified lookup and leaves the specified cache: disabled, absent, expired and hit branches, order and counters included |
| `ResponseCaching.ResponseCache.Put` | core/drivers/response_cache.py:188-241 | Leaves the specified cache; fails, as popping from an empty dictionary does, exactly when enabled with a capacity below one |
| `ResponseCaching.ResponseCache.EvictExpired` | core/drivers/response_cache.py:331-336 | The two loops leave the sweep of the entries and count the removals |
| `ResponseCaching.ResponseCache.EvictOldest` | core/drivers/response_cache.py:224-227 | The eviction loop drops just enough of the oldest entries, counts them, and runs out exactly when the capacity is below one |
| `ResponseCaching.ResponseCache.Store` | core/drivers/response_cache.py:229-239 | Assigns the new entry, in place when the key is present and at the end when it is not |
| `ResponseCaching.ResponseCache.MoveToEnd` | core/drivers/response_cache.py:181-182 | The hit entry becomes the youngest and its hit count grows by one |
| `ResponseCaching.ResponseCache.Invalidate` | core/drivers/response_cache.py:243-260 | Removes exactly that key, and answers whether it was there |
| `ResponseCaching.ResponseCache.Clear` | core/drivers/response_cache.py:262-272 | Empties the cache, keeps the statistics, and returns how many entries there were |
| `ResponseCaching.ResponseCache.SetEnabled` | core/drivers/response_cache.py:301-303 | Changes the switch alone |
| `ContextWindow.TruncationIsOptimal` | core/drivers/context_manager.py:284-333 | When no unpinned count is negative and pinned tokens are below the budget, the unpinned part of the result is the longest suffix of the unpinned messages that fits |
| `ContextWindow.TruncationIsOptimalIff` | core/drivers/context_manager.py:284-333 | With pinned tokens below the budget and any counts: the unpinned part of the result is the longest suffix that fits if and only if the whole history fits, or every suffix shorter than a fitting one fits too |
| `ContextWindow.NegativeCountDefeatsGreedy` | core/drivers/context_manager.py:314-322 | Where that fails: with unpinned counts 10, -5 and 6 and a budget of 4, nothing is kept although the last two messages fit |
| `ContextWindow.TruncationFits` | core/drivers/context_manager.py:298-333 | With pinned tokens below the budget and any counts at all: an order-preserving subsequence with every pinned message and a suffix of the unpinned ones, within budget, where one more message would not fit |
| `ContextWindow.PinnedOverload` | core/drivers/context_manager.py:311-312 | With pinned tokens at or over the budget, an over-full history gives exactly the pinned messages; over it and with no unpinned count negative, no selection keeping them fits |
| `ContextWindow.ResultFitsIff` | core/drivers/context_manager.py:295-333 | The result fits the budget if and only if the whole history does or its pinned messages do, for any counts |
| `ContextWindow.OverfullPinnedHistory` | core/drivers/context_manager.py:311-312 | One pinned message of five tokens against a budget of four comes back, over budget |
| `ContextWindow.FullPinnedLoadDropsFreeMessages` | core/drivers/context_manager.py:311-312 | When the pinned messages exactly fill the budget and no unpinned count is negative, dropping every other message is the longest fit if and only if the latest unpinned message has a positive count |
| `ContextWindow.TruncationIsMonotone` | core/drivers/context_manager.py:298-333 | A smaller reserve never drops a message that a larger reserve kept, for any counts, negative ones included |
| `ContextWindow.EverythingReturnsIff` | core/drivers/context_manager.py:301-312 | The whole history comes back exactly when it fits or holds no unpinned message |
| `ContextWindow.CanFitMeansNothingIsDropped` | core/drivers/context_manager.py:268-278 | When `can_fit(t)` holds for `t > 0`, adding a `t`-token message returns everything if and only if the history was within the window, or a negative reserve covers the overrun, or nothing may be dropped; with a non-negative reserve it always does |
| `ContextWindow.CanFitIff` | core/drivers/context_manager.py:213-278 | What fits: a positive count exactly when it and the reserve are within the unused part of the window, and anything else always |
| `ContextWindow.EstimateIsQuarter` | core/drivers/context_manager.py:132-147 | An estimate is zero for no text, and otherwise a quarter of its characters rounded down, but at least one |
| `ContextWindow.GreedyFits` | core/drivers/context_manager.py:314-322 | What the backward loop takes fits, and one message more would not |
| `ContextWindow.DropOldestKeepsRest` | core/drivers/context_manager.py:324-333 | Dropping removes exactly the oldest unpinned messages and keeps the order and the pinned ones |
| `ContextWindow.MergeIsDropOldest` | core/drivers/context_manager.py:324-333 | Filtering by object identity against the pinned and kept sets is dropping the oldest unpinned messages |
| `ContextWindow.ContextMessage.constructor` | core/drivers/context_manager.py:80-90 | A zero count is replaced by the estimate |
| `ContextWindow.ContextManager.constructor` | core/drivers/context_manager.py:186-203 | Starts empty; a missing or zero maximum falls back to the model's window |
| `ContextWindow.ContextManager.AddMessage` | core/drivers/context_manager.py:239-266 | Appends one fresh message with the given fields, a zero count estimated |
| `ContextWindow.ContextManager.CanFitTokens` | core/drivers/context_manager.py:213-278 | Agrees with the clamped remaining-token arithmetic |
| `ContextWindow.ContextManager.GetTruncatedHistory` | core/drivers/context_manager.py:284-333 | Returns the specified truncation for the given or the default reserve |
| `ContextWindow.ContextManager.KeepLatest` | core/drivers/context_manager.py:314-322 | The backward loop with its early exit keeps the greedy suffix |
| `ContextWindow.ContextManager.MergeKept` | core/drivers/context_manager.py:324-333 | The identity-filter loop returns the history without the oldest unpinned messages |
| `ContextWindow.ContextManager.Clear` | core/drivers/context_manager.py:335-337 | Empties the history |
| `LimiterSpec.PermitsAreConserved` | core/api/concurrency_limiter.py:185-318 | Under every interleaving of waits, timeouts, cancellations, bodies that return or raise, and releases, free permits plus holders of a semaphore equal the configured maximum plus the releases of that semaphore by nobody who held it |
| `LimiterSpec.BodiesAreLimited` | core/api/concurrency_limiter.py:189-219 | Without such stray releases on a path, at most `max_concurrent` bodies run on it at once |
| `LimiterSpec.BothPathsAreLimited` | core/api/concurrency_limiter.py:133-137 | Without stray releases the two paths together run at most twice the maximum |
| `LimiterSpec.FullHouseReportsNegative` | core/api/concurrency_limiter.py:161-164 | That bound is reached, without a stray release: both semaphores full, twice the maximum running, and the reported available permits are the maximum below zero |
| `LimiterSpec.StrayReleaseBreaksLimit` | core/api/concurrency_limiter.py:312-318 | One stray release is enough to let `max_concurrent + 1` bodies run, whatever the maximum |
| `LimiterSpec.ActiveCountsCalls` | core/api/concurrency_limiter.py:201-219 | The active count is the number of calls between their two statistics updates less the stray releases: a different statement from the permit one, since the permit goes back first |
| `LimiterSpec.AvailablePermitsIff` | core/api/concurrency_limiter.py:161-164 | The reported available permits are negative unless the calls in the count are at most the maximum plus the stray releases; and they are the free permits of a semaphore exactly when the calls in the count, less all stray releases, match its holders, less its own |
| `LimiterSpec.ReportedPermitsIff` | core/api/concurrency_limiter.py:324-349 | The available permits that `get_stats` reports are negative unless the count it shows, which is the active count at its latest change or zero after a reset, is at most the maximum; and they are the free permits of a semaphore exactly when that count matches its holders, less its stray releases |
| `LimiterSpec.ResetHidesHolder` | core/api/concurrency_limiter.py:330-349 | A reset while the single permit is held: the semaphore has none free, the property says none, the statistics say one |
| `LimiterSpec.ActiveCountOutrunsPermits` | core/api/concurrency_limiter.py:214-219 | Without any stray release, and with one permit or more, the active count can reach any number, so the reported available permits can be negative |
| `LimiterSpec.StatisticsBalance` | core/api/concurrency_limiter.py:201-219 | Acquisitions less releases is the change in the active count since the last reset, and the observed maximum is the peak since then |
| `LimiterSpec.StatisticsWithoutReset` | core/api/concurrency_limiter.py:201-318 | Without resets: acquisitions less releases equals the active count equals the one reported, and the observed maximum is its running maximum |
| `LimiterSpec.UsesAreCounted` | core/api/concurrency_limiter.py:201-219 | Each recorded acquisition and each recorded release since the last reset is counted once |
| `LimiterSpec.TimeoutsAreCounted` | core/api/concurrency_limiter.py:190-192 | In every run, timeouts recorded since the last reset plus those still to be recorded equal the waits that expired since then plus those unrecorded at the reset |
| `LimiterSpec.QuietMeansIdle` | core/api/concurrency_limiter.py:212-219 | When every call has gone and nothing was released astray, all permits of both semaphores are free and the count is zero |
| `ConcurrencyLimiting.ConcurrencyLimiter.constructor` | core/api/concurrency_limiter.py:123-149 | Both semaphores start with the maximum, and every count at zero |
| `ConcurrencyLimiting.ConcurrencyLimiter.RecordAcquired` | core/api/concurrency_limiter.py:302-308 | The statistics block after an acquire is the specified update |
| `ConcurrencyLimiting.ConcurrencyLimiter.RecordReleased` | core/api/concurrency_limiter.py:315-318 | The statistics block after a release is the specified update |
| `ConcurrencyLimiting.ConcurrencyLimiter.AcquireSync` | core/api/concurrency_limiter.py:282-310 | With no other thread at work, succeeds exactly when a permit is free, and counts an acquisition or a timeout |
| `ConcurrencyLimiting.ConcurrencyLimiter.ReleaseSync` | core/api/concurrency_limiter.py:312-318 | Gives the permit back, then updates the statistics |
| `ConcurrencyLimiting.ConcurrencyLimiter.AcquireSyncContext` | core/api/concurrency_limiter.py:257-280 | Whether the body returns or raises, permits and active count end as they began, and exactly one acquisition and one release, or one timeout, are counted |
| `ConcurrencyLimiting.ConcurrencyLimiter.ResetStatistics` | core/api/concurrency_limiter.py:346-349 | Forgets the statistics and nothing else |
| `ConcurrencyLimiting.ConcurrencyLimiter.GetStats` | core/api/concurrency_limiter.py:324-344 | Reports the statistics, with the maximum less the count at its last update as available; wait times apart |
| `ConcurrencyLimiting.ConcurrencyLimiter.GetAvailablePermits` | core/api/concurrency_limiter.py:161-164 | The property: the maximum less the active count |
| `FactorySpec.CallsStayIsolated` | core/factory.py:98-131 | With clears at any point of any interleaving, no call meets a missing key, and every call returns an object made for its own tenant and service |
| `FactorySpec.FillingServesOrCreates` | core/factory.py:125-131 | In any run: a service that is there is served without its creator; one that is missing runs the creator once, and its object is stored, or its exception ends the call and nothing is stored |
| `FactorySpec.ServiceIsUniqueWithoutClears` | core/factory.py:107-131 | While a tenant is never cleared, the creator of each of its services completes exactly once for the calls that returned, and all of them return that object |
| `FactorySpec.CreationsAreBounded` | core/factory.py:98-131 | In every run, the completed creator runs for a tenant's service are the dictionaries of that tenant that hold it, and at most one more than the clears that forgot one |
| `FactorySpec.ClearsForceNewInstances` | core/factory.py:476-487 | The bound is reached: `n` calls with a clear after each return `n` different objects |
| `FactorySpec.SameInstanceIff` | core/factory.py:107-131 | Two calls return the same object if and only if they fetched the same dictionary for the same service, in every run |
| `FactorySpec.SharedIffNotClearedBetween` | core/factory.py:98-131 | Two calls for one tenant's service return the same object if and only if the tenant was not cleared between their two fetches |
| `FactorySpec.RunIsConsistent` | core/factory.py:98-131 | In every run, each live dictionary and each call's dictionary belongs to its tenant, and a filled dictionary keeps the service it was filled with |
| `ServiceFactories.ServiceFactory.GetTenantCache` | core/factory.py:99-104 | Returns the tenant's own dictionary, a fresh empty one when there was none, and disturbs no other |
| `ServiceFactories.ServiceFactory.FillCache` | core/factory.py:127-129 | Runs the creator exactly when the service is missing; a creator that raises stores nothing |
| `ServiceFactories.ServiceFactory.GetOrCreate` | core/factory.py:107-131 | Undisturbed: an existing object is returned and nothing changes; otherwise the creator runs once and its object is stored and returned, or its exception propagates |
| `ServiceFactories.ServiceFactory.ClearTenantCache` | core/factory.py:476-487 | Forgets that tenant's dictionary and no other |
| `ServiceFactories.ServiceFactory.ClearAllCaches` | core/factory.py:490-497 | Forgets every dictionary |
| `EventLog.TrimKeepsTail` | core/fsm/event_sourcing.py:287-314 | For `keep >= 1`, a completed trim leaves exactly the last `keep` events, returns how many it removed, and changes nothing when repeated; blank and unreadable lines included |
| `EventLog.RequestIsKept` | core/fsm/event_sourcing.py:297-314 | Which number a request keeps: its own, or the store's maximum when it is missing or zero; a completed trim leaves that many of the latest events |
| `EventLog.InterruptedIff` | core/fsm/event_sourcing.py:263-285 | By positions in the log: a session is reported if and only if its latest event, a missing or empty id read as unknown, leads to none of IDLE, WAITING_USER, ERROR and PANIC, and then with that event's state, trigger and timestamp and the number of its events |
| `EventLog.ReportIsInOrder` | core/fsm/event_sourcing.py:265-285 | Each session is reported once, in the order in which the sessions first occur |
| `EventLog.ReplayReadsLines` | core/fsm/event_sourcing.py:203-237 | Replay returns the events of exactly the readable lines that carry the session id, or of all of them, each once and in file order |
| `EventLog.LastStateIs` | core/fsm/event_sourcing.py:239-251 | The last state of a session, or of the log, is where its latest readable event leads, and there is none without such an event |
| `EventLog.TrimKeepsVerdicts` | core/fsm/event_sourcing.py:253-314 | After a completed trim, the last state of the log is the same, and every session group still present has the same last event and the same interrupted-or-clean verdict |
| `EventLog.TrimKeepsLastState` | core/fsm/event_sourcing.py:239-314 | `get_last_state` for any session answers as before the trim, unless no event of it is left |
| `EventLog.TrimCountIsTruthful` | core/fsm/event_sourcing.py:297-314 | Whatever becomes of the rewrite, the returned count is the number of events removed if and only if nothing was over the number to keep, or the file could not be opened, or the rewrite was completed with a positive number to keep, or it was torn with the log empty, or with zero to keep after every event had been written |
| `EventLog.TornTrimLosesLatest` | core/fsm/event_sourcing.py:306-312 | A rewrite that fails part-way reports nothing removed, and the log then ends where the writing stopped |
| `EventLog.CountsSumToLength` | core/fsm/event_sourcing.py:265-285 | The per-session event counts over all groups sum to the length of the log |
| `EventLog.GroupsAreDistinct` | core/fsm/event_sourcing.py:265-269 | Each group that has an event is listed once, and no other |
| `EventLog.TailKeepsGroupEnds` | core/fsm/event_sourcing.py:265-304 | The events of a group within a tail of the log are a tail of the group's events |
| `EventLog.FSMEventStore.Append` | core/fsm/event_sourcing.py:109-122 | A write adds one event that replay then ends with; a failed write changes nothing |
| `EventLog.FSMEventStore.ReplayEvents` | core/fsm/event_sourcing.py:203-237 | The loop returns the readable events of the session, or of all, in order |
| `EventLog.FSMEventStore.GetLastState` | core/fsm/event_sourcing.py:239-251 | The last event's target state, or none |
| `EventLog.FSMEventStore.GetInterruptedSessions` | core/fsm/event_sourcing.py:253-285 | The loops report exactly the groups whose last event is not terminal, in order of first occurrence, with their counts |
| `EventLog.FSMEventStore.GroupSessions` | core/fsm/event_sourcing.py:265-269 | The grouping loop builds every group's events in order |
| `EventLog.FSMEventStore.Trim` | core/fsm/event_sourcing.py:287-314 | Leaves the specified file and returns the specified count, for completed, torn and refused rewrites and for a missing or zero argument |
| `HealthMonitoring.StatusIsRecomputed` | core/drivers/driver_health_monitor.py:199-233 | After any observations, the window is the last `max_history` events and the stored status is the classification recomputed over them |
| `HealthMonitoring.StoredSeverity` | core/drivers/driver_health_monitor.py:308-361 | After any observations and a fresh latest one, the stored status is unhealthy if and only if the failing share or the mean positive latency of the last `max_history` events reaches the unhealthy limit, degraded if and only if neither does and one reaches the degraded limit, and healthy otherwise; a stale latest one makes it unknown |
| `HealthMonitoring.WindowSeverity` | core/drivers/driver_health_monitor.py:239-262 | The same for the status that `get_health` gives a window |
| `HealthMonitoring.AlertsFormChainIff` | core/drivers/driver_health_monitor.py:308-335 | A driver's alerts since its last clear lead step by step from its first status to its stored status if and only if no fresh observation comes straight after a stale one, or no history is kept |
| `HealthMonitoring.FreshAfterStaleBreaksChain` | core/drivers/driver_health_monitor.py:322-335 | Where that fails: a stale and then a fresh observation give a known status and no alert that leads to it |
| `HealthMonitoring.AlertsAreLinked` | core/drivers/driver_health_monitor.py:322-335 | With stale observations too, every alert is a real change from a known status, and it leads to the next alert's starting status, or for the last one to the stored status, unless it led to unknown |
| `HealthMonitoring.SuccessesRestoreHealth` | core/drivers/driver_health_monitor.py:341-361 | From any past, `max_history` fresh successes in a row, each below both latency limits, leave the driver healthy if and only if all four limits are positive |
| `HealthMonitoring.PercentileHasRank` | core/drivers/driver_health_monitor.py:363-371 | The percentile is one of the values; for `pct` below a hundred, more than `pct` percent of the values are at most it and at most `pct` percent are below it; from a hundred on it is the greatest |
| `HealthMonitoring.SortIsAscending` | core/drivers/driver_health_monitor.py:368 | The sort is ascending and a permutation |
| `HealthMonitoring.DriverHealthMonitor.Record` | core/drivers/driver_health_monitor.py:199-233 | Pushes the event, recomputes the status at a second clock reading, raises the alert if any, and leaves every other driver alone |
| `HealthMonitoring.DriverHealthMonitor.CheckStatusChange` | core/drivers/driver_health_monitor.py:308-335 | Alerts exactly on a change from a known status, and stores the status |
| `HealthMonitoring.DriverHealthMonitor.GetHealth` | core/drivers/driver_health_monitor.py:239-276 | Unknown without events; otherwise successes and failures make up the window, and error rate, average, percentile, age and the status they give are those of the window at this reading |
| `HealthMonitoring.DriverHealthMonitor.ClearDriver` | core/drivers/driver_health_monitor.py:422-429 | Forgets a tracked driver's window and status and no other driver's, and leaves the alert list as it is |
| `HealthMonitoring.DriverHealthMonitor.Clear` | core/drivers/driver_health_monitor.py:415-420 | Forgets everything |
| `LatencyAnalysis.RecordingCovers` | core/drivers/inference_latency_analyzer.py:245-269 | Recording a sample keeps the profiles equal to a recomputation over the full history: one profile for each model seen, each with that model's count, totals, extremes and anomalies |
| `LatencyAnalysis.ProfilesCountHistory` | core/drivers/inference_latency_analyzer.py:245-269 | A profile counts the samples of its model in the full history, and those of them over thirty seconds |
| `LatencyAnalysis.ExtendedDescribes` | core/drivers/inference_latency_analyzer.py:260-269 | One more sample keeps a profile equal to the recomputation |
| `LatencyAnalysis.AverageIsBetween` | core/drivers/inference_latency_analyzer.py:122-127 | Every profile's average lies between its minimum and its maximum |
| `LatencyAnalysis.TotalsAreOfFullHistory` | core/drivers/inference_latency_analyzer.py:376-377 | The profiles' counts and totals add up to those of the full history, evicted samples included |
| `LatencyAnalysis.OverallAverage` | core/drivers/inference_latency_analyzer.py:375-395 | The reported overall average is the average of the full history, and lies between the fastest and the slowest model's average |
| `LatencyAnalysis.OverallIsBetween` | core/drivers/inference_latency_analyzer.py:378-395 | The weighted average of any profiles lies between the extreme averages |
| `LatencyAnalysis.FastestAreFirst` | core/drivers/inference_latency_analyzer.py:306-321 | No model left out of the ranking is faster than one in it, for any limit, negative ones included |
| `LatencyAnalysis.RankingSize` | core/drivers/inference_latency_analyzer.py:321 | How many models the ranking lists, for any limit |
| `LatencyAnalysis.RankingIsStable` | core/drivers/inference_latency_analyzer.py:320 | Equally fast models are ranked in the order in which they were first seen |
| `LatencyAnalysis.SortIsAscending` | core/drivers/inference_latency_analyzer.py:320 | The ranking sort is ascending and a permutation |
| `LatencyAnalysis.LastNAppend` | core/drivers/inference_latency_analyzer.py:271-275 | First-in-first-out eviction keeps the last `max_samples` samples |
| `LatencyAnalysis.InferenceLatencyAnalyzer.RecordSample` | core/drivers/inference_latency_analyzer.py:202-276 | Numbers the sample, updates the profiles as specified, keeps the stored samples the tail of the history, and fails exactly when the capacity is below one |
| `LatencyAnalysis.InferenceLatencyAnalyzer.StoreSample` | core/drivers/inference_latency_analyzer.py:271-275 | Drops the oldest sample at capacity, and appends |
| `LatencyAnalysis.InferenceLatencyAnalyzer.UpdateProfile` | core/drivers/inference_latency_analyzer.py:245-269 | Extends the model's profile in place, or starts one |
| `LatencyAnalysis.InferenceLatencyAnalyzer.GetStats` | core/drivers/inference_latency_analyzer.py:368-403 | Reports the totals, the overall average, and the extremes by average, the model first seen among equals |
| `LatencyAnalysis.InferenceLatencyAnalyzer.GetFastestModels` | core/drivers/inference_latency_analyzer.py:306-321 | The slice of the profiles sorted by average |
| `LatencyAnalysis.InferenceLatencyAnalyzer.Clear` | core/drivers/inference_latency_analyzer.py:414-419 | Forgets samples, profiles and numbering |
| `EvidenceSelection.SelectionIsDiverse` | nexus_research.py:305-335 | For any candidates and positive limit, the two passes return min(limit, distinct spans) candidates, none repeated, the top candidate first, covering at least min(limit, 3, distinct files) files |
| `EvidenceSelection.FirstPassPicks` | nexus_research.py:314-324 | The first pass alone keeps distinct picks from the candidates, the top one first |
| `EvidenceSelection.FirstPassSpreads` | nexus_research.py:312-324 | The first pass alone reaches the file target whenever the candidates have that many files |
| `EvidenceSelection.SecondPassFills` | nexus_research.py:326-333 | The second pass extends what it starts with by distinct candidates and misses none while there is room |
| `EvidenceOrder.FirstPassLeadsByFile` | nexus_research.py:314-324 | The selection starts with the best candidate of each of the first files, up to the file target |
| `EvidenceOrder.SecondPassFillsInOrder` | nexus_research.py:326-333 | Whatever the second pass adds, every candidate before it is selected too |
| `EvidenceSelection.SelectDiverseSources` | nexus_research.py:305-335 | The two loops with their sets and early exits compute the specified selection; nothing for a limit below one |
| `EvidenceRetrieval.AggregationIsExact` | nexus_research.py:364-380 | After any hits there is exactly one candidate for each span retrieved, whose queries, count, best rank and score are the recomputation over that span's hits |
| `EvidenceRetrieval.EntriesReadResults` | nexus_research.py:364-380 | Each candidate, by positions in the result lists: its queries are exactly the subqueries that returned its span, each once, its best rank the least at which the span stands, its score the sum of the inverse ranks |
| `EvidenceRetrieval.HitCountIsBounded` | nexus_research.py:376-380 | A candidate is found by at least one subquery and by no more than there are |
| `EvidenceRetrieval.VerificationScoreIsBounded` | nexus_research.py:261-282 | Verification scores lie in [0,1] |
| `EvidenceScores.SourceScoreIsNear` | nexus_research.py:270-282 | A verification score is a whole number of hundredths within half of one of the weighted sum of the overlap share, the subquery share and the capped rank signal, plus the structure bonus, or of one when that is more |
| `EvidenceScores.SourceScoreMoves` | nexus_research.py:270-282 | More overlap, a higher retrieval score or structure never lower it |
| `EvidenceScores.SourceScoreEnds` | nexus_research.py:270-282 | Full marks give one, and none give zero |
| `EvidenceRetrieval.AggregateHits` | nexus_research.py:352-380 | The nested loops compute the specified aggregation |
| `EvidenceRetrieval.AggregateQuery` | nexus_research.py:364-380 | The loop over one subquery's chunks continues the aggregation in rank order |
| `EvidenceClaims.ClaimsFit` | nexus_research.py:456-548 | For any sources and contradictions: one claim for each anchor, whose support and opposition are those of its group in strength order; each support is a non-empty part of its own anchor's group, disjoint from the opposition, and with it covers the group; opposition names only ids that contradictions name; the status is mixed exactly when there is opposition and otherwise follows the 0.55 mark; scores lie in [0,1]; claims are ordered by status, then falling score |
| `EvidenceScores.ClaimAnswersForItsLists` | nexus_research.py:478-542 | Every claim, from its own lists: its support names distinct sources, strongest first; its queries are exactly theirs, stripped, each once; its score is a whole number of hundredths within half of one of the clamped sum of half their mean verification, a quarter of the share of subqueries, the spread over files and the supporters' bonus, less the cost of its opponents |
| `EvidenceScores.OppositionCosts` | nexus_research.py:515-529 | One opponent more never raises a claim's score, and takes 0.15 off its sum for the first two, 0.05 for the third and nothing after |
| `EvidenceScores.SupportNeverHurts` | nexus_research.py:511-529 | A stronger mean, more queries, more files or more supporters never lower it |
| `EvidenceOrder.ClaimsAreListed` | nexus_research.py:544-545 | The final order by status, falling score and the text of the earlier id |
| `EvidenceOrder.ClaimsAreNumbered` | nexus_research.py:546-547 | Each claim carries its place in the final order |
| `EvidenceTexts.DecimalReadsBack` | nexus_research.py:533 | The number in a claim id reads back as itself, without a leading zero |
| `EvidenceTexts.LexIff` | nexus_research.py:545 | The order of ids as text: a prefix, or the smaller character at the first difference |
| `EvidenceClaims.OppositionIsGrounded` | nexus_research.py:595-596 | With the contradictions found among the sources themselves, opposition names known sources |
| `EvidenceClaims.SupportsAreDisjoint` | nexus_research.py:463-548 | With unique source ids, supports of different claims are disjoint |
| `EvidenceClaims.NumberedSupportsAreDisjoint` | nexus_research.py:406-408 | Collection numbers its sources, so for every collected list supports of different claims are disjoint |
| `EvidenceClaims.EverySourceTakesASide` | nexus_research.py:463-506 | Every source lands in the claim of its own anchor, where it supports or opposes and never both |
| `EvidenceClaims.SettledSplitsGroup` | nexus_research.py:478-506 | Within a group, each source supports or opposes, never both, and at least one supports |
| `EvidenceClaims.LeadSupportsIff` | nexus_research.py:478-506 | The strongest source supports its own claim if and only if it is on both sides of no contradiction, or the contradictions count against every member of the group |
| `EvidenceClaims.TwoSidedLeadLosesItsClaim` | nexus_research.py:428-444 | A lead whose excerpt holds both patterns of a rule opposes its own claim, and a weaker source that holds one of them supports it |
| `EvidenceClaims.SettledFollowsLosers` | nexus_research.py:478-506 | Which sources support and which oppose: a member supports unless some contradiction counts against it, whatever counts against opposes, and when all members are outvoted the lead alone supports |
| `EvidenceClaims.OrderIsIrrelevant` | nexus_research.py:483-506 | The order and repetition of the contradictions make no difference |
| `EvidenceClaims.DisputeGoesToHeavierSide` | nexus_research.py:492-502 | In any list of contradictions, each one that leaves the lead out and has members of the group on both sides goes to the heavier side, the left one on a tie: the other side opposes in full |
| `EvidenceClaims.DisputeKeepsHeavierSide` | nexus_research.py:492-502 | With that contradiction alone and no source on both sides, the supporters weigh at least as much as the opposition |
| `EvidenceClaims.ContradictionsAreGrounded` | nexus_research.py:417-444 | At most one contradiction a rule, each with known sources on both sides |
| `EvidenceTexts.ContradictionsFollowRules` | nexus_research.py:428-444 | There is one contradiction for each rule whose two patterns both occur in the excerpts, in rule order, naming exactly the sources with either |
| `EvidenceTexts.ContradictionsOfSources` | nexus_research.py:46-57 | For the two rules themselves: which contradictions there are, and which sources stand on either side |
| `EvidenceTexts.ContainsIff` | nexus_research.py:429-430 | The substring test, by positions |
| `EvidenceClaims.SortMembers` | nexus_research.py:469-478 | The strength sort keeps the members, and each is at least as strong as those after it |
| `EvidenceOrder.StrengthIsStable` | nexus_research.py:469-478 | Of equally strong sources the one that came earlier is placed first, so the lead is the earliest of the strongest |
| `EvidenceOrder.AnchorsGrow` | nexus_research.py:463-468 | Groups are in the order in which their anchors first occur |
| `EvidenceOrder.GroupGrows` | nexus_research.py:463-465 | A group lists its sources in the order in which they came |
| `EvidenceClaims.SortedClaims` | nexus_research.py:544-547 | The final sort keeps exactly the claims, best status first, then falling score |
| `EvidenceClaims.StatusesPartition` | nexus_research.py:601-603 | Supported, mixed and weak claims are all the claims |
| `EvidenceClaims.OverallScoreIsBounded` | nexus_research.py:598-619 | The overall score, which is clamped only from below, lies in [0,1] |
| `EvidenceScores.AnswerScoreIsNear` | nexus_research.py:598-619 | The overall score is a whole number of hundredths within half of one of the weighted sum of the claims' rounded mean score, the sources per subquery, the spread over files and the share of supported claims, less a tenth a contradiction and 0.08 a mixed claim, or of zero |
| `EvidenceScores.AnswerScoreMoves` | nexus_research.py:604-619 | Better parts never lower it, and a higher penalty never raises it |
| `EvidenceScores.FullMarksGiveOne` | nexus_research.py:604-619 | Full marks in every part give one |
| `EvidenceScores.NoMarksGiveZero` | nexus_research.py:604-619 | Nothing in any part gives zero, whatever the penalty |
| `EvidenceClaims.RoundKeepsUnit` | nexus_research.py:516-529 | Rounding to two decimals, halves to even, never carries a value past zero or one |
| `EvidenceScores.RoundIsNearest` | nexus_research.py:516-527 | Rounding gives a nearest whole number of hundredths, and the even one of two |
| `EvidenceClaims.DedupeKeepsAll` | nexus_research.py:213-222 | Deduplication keeps every stripped query that is not blank, once, and nothing else |
| `EvidenceOrder.DedupeGrows` | nexus_research.py:213-222 | Queries are kept in the order in which they first occur |
| `EvidenceTexts.StrippedIsCore` | nexus_research.py:217 | Stripping removes blanks at the ends and nothing else |
| `EvidenceClaims.DedupeIsIdempotent` | nexus_research.py:213-222 | Deduplicating again changes nothing |
| `EvidenceClaims.BuildContradictions` | nexus_research.py:428-444 | The loop over the rules computes the specified contradictions |
| `EvidenceClaims.GroupByAnchor` | nexus_research.py:463-465 | The grouping loop lists each anchor once, in order of first occurrence, with its sources in order |
| `EvidenceClaims.SettleGroup` | nexus_research.py:478-506 | The loop over the contradictions computes the specified support and opposition |
| `EvidenceClaims.DedupeQueries` | nexus_research.py:213-222 | The loop with its seen-set computes the specified list |
| `EvidenceClaims.BuildClaim` | nexus_research.py:469-542 | The claim of one group: anchor, support, opposition, queries, status and score |
| `EvidenceClaims.BuildClaims` | nexus_research.py:456-548 | For any contradictions, the whole of claim building computes the specified claims, sorted and renumbered |
| `EvidenceCollection.CollectionIsDiverse` | nexus_research.py:338-414 | For any retrieval results and question, collection picks min(limit, distinct spans retrieved) candidates, no span twice, from the spans retrieved, covering at least min(limit, 3, distinct files) files |
| `EvidenceCollection.CollectionIsSound` | nexus_research.py:382-414 | The sources returned are those candidates, numbered from one, with scores in [0,1], found by at least one and at most all subqueries; the first is at least as strong as every candidate |
| `EvidenceCollection.PipelineIsSound` | nexus_research.py:594-636 | From retrieval to verdict: the claims built from whatever collection returns have pairwise disjoint supports, satisfy all that every claim satisfies, and oppose only collected sources; and the overall score lies in [0,1] |
| `EvidenceCollection.CandidatesCoverResults` | nexus_research.py:364-404 | The ranked candidates' spans are exactly the spans retrieved |
| `EvidenceCollection.CandidatesTellOfResults` | nexus_research.py:382-394 | Each candidate answers for the results and its chunk: file, anchor, excerpt, queries, hits, best rank, and the two scores to half a hundredth |
| `EvidenceCollection.CandidatesAreOrdered` | nexus_research.py:396-404 | The candidates are in order of verification score, hits, retrieval score and best rank |
| `EvidenceCollection.CollectSources` | nexus_research.py:338-414 | The loops compute the specified sources |

## Left out

- Locks: a method that holds its lock throughout is one atomic step. The cache's `get` and `put` read the switch and, in `put`, the clock before they take the lock (`core/drivers/response_cache.py:162-167`, `214-220`); here each is one step all the same. Interleaving is modelled where the source leaves its locks between steps, in the limiter and the factory.
- Failover: the two dictionaries of settings and states have the same keys and are one ordered list; logging, exports, `get_driver`, `is_healthy` and the singleton are left out.
- Cache: keys are opaque, so hashing of the request into a key is not modelled; one clock reading serves the whole sweep of a put; model and metadata fields, ages, `reset_stats` and exports are left out.
- Context window: the table of model windows is a parameter; the utilisation report is left out.
- Limiter: wait times and the last-acquisition timestamp, `acquire_async_nowait`, the environment variable and the singleton are left out; the semaphores are counters, and fairness of waiting is not modelled.
- ConcurrencyLimiting.ConcurrencyLimiter.AcquireSync: does not model waiting for another thread's release, because the class form is a single thread; `LimiterSpec` covers the interleaved form.
- ConcurrencyLimiting.ConcurrencyLimiter.AcquireSyncContext: does not model other threads' steps between its own, because the class form is a single thread; `LimiterSpec` covers the interleaved form.
- ConcurrencyLimiting.ConcurrencyLimiter.GetStats: does not return wait times and the last acquisition time, which are clock arithmetic.
- ServiceFactories.ServiceFactory.GetOrCreate: does not model clears by other threads between its steps, because the class form is a single thread; `FactorySpec` covers the interleaved form.
- Factory: the individual getters, resolution of the tenant from a context, the embedding engine and cache statistics are left out; a creator either raises or returns a new object. The lock is re-entrant (`core/factory.py:73`), and a creator that calls the factory again is not modelled.
- EventLog.FSMEventStore.ReplayEvents: skips every line that is not an event, where a line of JSON that is not an object makes `core/fsm/event_sourcing.py:228-229` raise an attribute error.
- EventLog.FSMEventStore.Append: takes a failed write to change nothing, where it may leave part of a line.
- Event log: JSON text is abstract, so a line is an event, blank or unreadable, and a torn rewrite ends at a line boundary; Redis and CEREBRO publishing are left out, and so is an unreadable file.
- Health monitor: the list queries and the overall statistics are left out.
- HealthMonitoring.DriverHealthMonitor.GetHealth: does not return recent error texts and token sums, because events here carry neither.
- Latency: timestamps, first-token times, task types, success flags, throughput and the recent and anomaly queries are left out.
- EvidenceCollection.CollectSources: takes the chunk at a span to be one and the same for every subquery that retrieves it.
- Evidence: extraction of query terms and subqueries, anchors (given with each source), snippets and statements, progress and cancellation callbacks, findings, answer bullets, labels and the report writers are left out; source ids are numbers, and lists of ids that the source sorts are sets.
- EvidenceClaims.BuildClaim: does not model the statement and the confidence label, which are text made from an excerpt and a score.
- EvidenceClaims.BuildClaims: builds claims without statement and label, as `BuildClaim` does.
- EvidenceClaims.DedupeQueries: strips the six ASCII whitespace characters, not the further Unicode ones that Python also strips.
- EvidenceClaims.RoundKeepsUnit: rounds exact reals, because binary floating point is not modelled anywhere in the project.
