# InfrGate control-plane protocols, in Dafny

InfrGate is a gateway in front of language-model providers. This project models the code that
decides who may call a provider, who pays, and when to retry, and proves what that code keeps
over every interleaving and every run:

| files | what they model |
|---|---|
| `Idempotency`, `ClaimAnswers`, `IdempotencySafety`, `OvershootReached` | claim, 90-second lease, compare-and-swap reclaim and finalize, spend accounting |
| `SpendAlerts` | threshold percentages and the deduplicated alert queue |
| `ChatCompletions` | the endpoint's control flow around claim and finalize |
| `CircuitBreaker`, `BreakerDecisions`, `HalfOpenLimit` | the TypeScript SDK's circuit breaker under overlapping calls |
| `Reliability`, `ReliabilityRuns` | retry, the circuit kept in Redis, failover for responses and streams |
| `Routing`, `RoutingRanks` | resolving, filtering and ranking providers |
| `SlidingWindow`, `SlidingWindowAnswers`, `SlidingWindowLag`, `SlidingWindowOrder`, `TokenBucket`, `TokenBucketAdmission` | the two rate limiters |
| `JobQueue`, `JobOutcomes` | the background worker's job table |
| `JsonText`, `JsonRoundTrip`, `Canonicalize`, `CanonicalOrder`, `CanonicalCollisions` | JSON printing and parsing, and the canonical serializer |
| `Streaming`, `StreamingAgreement` | server-sent events from gateway to Python client |
| `Sums`, `Sequences`, `Wrappers` | sums over maps, stable sorting, optional values |

Code that updates state in place is a class whose methods are proved against functions on values;
the runs are sequences of those same functions. What each main operation answers is stated once
more, as an if and only if over its inputs or its history, without naming those functions. `dafny verify dfyconfig.toml` checks everything.

## Assumptions

- One clock that never runs backwards, shared by all processes. A value read from it may be used
  later: an insert's stamp (the start of its transaction,
  `src/infrgate/db/models/usage_ledger.py:53-57`), the reclaim's stamp, the worker's cutoff and the
  limiter's window are separate from the moment their statement is executed. Each SQL statement and
  each Redis pipeline is one atomic step. `fail_job`'s read and write, and one synchronous section
  of TypeScript, are one step with one clock reading.
- Request ids are fresh per call, as the handler states
  (`src/infrgate/api/v1/chat_completions.py:14-15`); the middleware also accepts client ids
  (`src/infrgate/middleware/request_id.py:41-49`).
- A claim is visible to others when it returns. That is the protocol the module documents
  (`src/infrgate/services/idempotency.py:9-17`); the code only flushes there (lines 79 and 135).
- `claimed_at` is never null, and the insert of a spend alert meets the unique index it names.
- Numbers that the source keeps as floats are exact reals. The token bucket's capacity is not
  negative and its refill rate is positive.
- Where a limit bounds a run (requests in flight, cost per request, handler time), it is a
  condition of the theorem and appears in its `requires`.
- The Redis breaker counts consecutive failures. `failure_window_s` and `half_open_max_requests`
  are configured but never read, so neither appears in the model.

## What the code does not keep

Each of these is a lemma with a concrete input or run. A condition marked "exact" is an if and
only if over all runs.

- Leases are more than 90 seconds apart by the stamps in the row. By the time of the writes they
  can be closer, because an insert is stamped with the start of its transaction
  (`IdempotencySafety.LaggingInsert`) and a reclaim with the time of its read (`LaggingReclaim`).
  Exact: `WriteGapsExact` and, with the least distance, `WriteGapBound`.
- A caller that saw an expired lease and loses the reclaim gets 409 even if the row was settled
  meanwhile: `IdempotencySafety.SettledButRefused`. Exact: of all callers waiting when a row is
  settled, those that had seen the lease expired are refused and all others replay the stored
  answer, in every continuation (`IdempotencySafety.SettledAnswers`).
- The half-open limit of the TypeScript breaker can be passed by probes that outlive their phase:
  `CircuitBreaker.OutlivingProbeBreaksLimit`. Exact: it holds in all runs whose probes stay younger
  than `d` if and only if `d` is at most `recoveryTimeoutMs` (`HalfOpenLimit.HalfOpenLimitExact`).
- The sliding window reads the clock in the client and trims in Redis, so a pipeline that another
  one overtook, or that comes after the key expired, can be admitted into a window that is already
  full (`SlidingWindowLag.LateBreaks`, `SlidingWindowOrder.OrderedBreaks`). Exact: with pipelines
  executed in the order of their clock readings and at most `d` seconds late, the full window is
  safe if and only if `d` is at most ten seconds (`SlidingWindowOrder.OrderedWindowExact`). In any
  order, at most `limit` admissions are guaranteed for intervals of `window - d` seconds and no
  longer ones (`SlidingWindowLag.WindowWidthExact`), and key expiry can change a decision only when
  `d` exceeds ten seconds (`SlidingWindowLag.ExpiryExact`).
- `completed` is not final for a job whose first worker outlives the stuck limit:
  `JobQueue.CompletedIsNotFinal`. Exact: a job's terminal row is final in all runs whose executions
  of that job are at most `d` old if and only if `d` is at most the stuck limit (`JobQueue.FinalityExact`).
- `canonicalize` copies keys without escaping them, so one key can imitate several pairs:
  `CanonicalCollisions.RawKeysCollide`. Every object with two or more pairs has the text of some
  value that means something else (`EveryObjectCollides`). That no key of either value contains a
  quote followed by a colon is sufficient for injectivity (`Canonicalize.CanonicalIffSameMeaning`).
  The text is standard JSON exactly when no key needs escaping (`StandardTextExact`).

## Model

| member | source | states |
|---|---|---|
| IdempotencySafety.StepKeepsLeases | src/infrgate/services/idempotency.py:61-240 | every statement of every request keeps: the row belongs to its latest claimer, a pending row to one still holding it, and what each request remembers of the row is still true |
| IdempotencySafety.LeaseSafety | src/infrgate/services/idempotency.py:109-136 | in every interleaving of insert, select, reclaim and finalize, successive successful claims of one (tenant, key) carry stamps more than 90 seconds apart, and the last one owns the row |
| IdempotencySafety.HistoryIsTheClaims | src/infrgate/services/idempotency.py:61-136 | the claim history of a slot grows by exactly one entry in the step in which a request starts to hold it, with every other history unchanged, and no history changes in any other step; an insert only claims an absent row, a reclaim only a row stamped more than 90 seconds ago |
| IdempotencySafety.OnlyLatestClaimerSettles | src/infrgate/services/idempotency.py:201-226 | a row leaves pending only when its latest claimer finalizes it, and stores exactly that settlement |
| IdempotencySafety.SettledForever | src/infrgate/services/idempotency.py:201-226 | once out of pending, a row never changes again, whatever expired holders do |
| IdempotencySafety.ReplayExact | src/infrgate/services/idempotency.py:162-175 | after settlement, in every continuation, every replay given for the slot is exactly the stored code and body, and the next step of a caller finds the row taken, replays it, or is refused if it was reclaiming |
| IdempotencySafety.SettledAnswers | src/infrgate/services/idempotency.py:88-175 | a caller waiting for a slot when it is settled is, in every continuation and once decided, refused with 409 if and only if it had already seen the lease expired, and otherwise replays exactly the stored code and body |
| IdempotencySafety.AtMostOneSettles | src/infrgate/services/idempotency.py:201-240 | whoever has settled a slot in one state of a run and whoever has in the same or a later state are the same request; the 500 answer never occurs |
| IdempotencySafety.StaysSettled | src/infrgate/services/idempotency.py:227-240 | a request that has settled its row keeps that status, however often it is finalized again |
| IdempotencySafety.LaggingInsert | src/infrgate/db/models/usage_ledger.py:53-57 | a run in which two claims are written only 90 seconds apart because the insert came a microsecond after its transaction began, with no reclaim late |
| IdempotencySafety.LaggingReclaim | src/infrgate/services/idempotency.py:109-136 | a run in which two claims are written only 90 seconds apart because a reclaim wrote a microsecond after reading the clock, with no insert late |
| IdempotencySafety.WriteGapsExact | src/infrgate/services/idempotency.py:61-136 | claims are more than 90 seconds apart by their writes in all runs whose claims, inserts and reclaims alike, are written at most `lag` after their stamp if and only if `lag` is zero |
| IdempotencySafety.WriteGapBound | src/infrgate/services/idempotency.py:61-136 | with claims written at most `lag` after their stamp, successive writes of a slot are at least `gap` apart in all runs if and only if `gap` is at most 90 seconds and a microsecond less `lag`, or zero |
| IdempotencySafety.SettledButRefused | src/infrgate/services/idempotency.py:121-160 | a run in which a caller is refused with 409 after the row it tried to reclaim was settled |
| IdempotencySafety.SpendConservation | src/infrgate/services/idempotency.py:202-252 | in every reachable state a tenant's spend is its initial spend plus the cost on its settled rows, less what is settled but not yet charged |
| IdempotencySafety.BoundedOvershoot | src/infrgate/auth/policy.py:64-74 | with a constant cap, at most `k` requests in flight and each costing at most `m`, spend never passes cap - 1 + k * m although every request checks a snapshot |
| OvershootReached.OvershootBoundReached | src/infrgate/api/v1/chat_completions.py:90-111 | for every cap, every `k` and every positive `m` there is a run within those limits that spends exactly cap - 1 + k * m |
| IdempotencySafety.AlertsTelescope | src/infrgate/services/idempotency.py:253-278 | with a fixed cap, the alerts of any run are, in order, exactly the thresholds between the first and the last spend percentage |
| IdempotencySafety.AlertsNeverRepeat | src/infrgate/services/job_service.py:47-57 | at most one alert job per (tenant, threshold, period) exists in any run, even when the cap changes |
| SpendAlerts.CrossedTelescopes | src/infrgate/services/idempotency.py:259-264 | the thresholds crossed by two charges in a row are those crossed by their sum, in order |
| SpendAlerts.CrossedIsExact | src/infrgate/services/idempotency.py:259-264 | a charge crosses exactly the percentages 50, 75, 90 and 100 of a positive cap that lie above the old spend and not above the new, in ascending order, and none without such a cap |
| SpendAlerts.EnqueueAllDistinct | src/infrgate/services/job_service.py:47-57 | enqueuing adds exactly the missing alerts and never a second copy |
| Idempotency.Database.ClaimOrReplay | src/infrgate/services/idempotency.py:40-175 | an uninterrupted claim proceeds, replays or refuses as the specification of the three statements says, and changes the ledger accordingly |
| ClaimAnswers.ClaimDecided | src/infrgate/services/idempotency.py:85-175 | from the row alone: 409 if and only if it is pending and stamped at most 90 seconds ago, a replay of the stored code and body if and only if it is settled, otherwise the claimer proceeds and holds the row; only then does anything change |
| ClaimAnswers.UninterruptedClaim | src/infrgate/services/idempotency.py:61-175 | insert, select and compare-and-swap of the interleaved protocol, with nothing between, leave database, request and claim history exactly as that claim says |
| ClaimAnswers.UninterruptedAnswers | src/infrgate/services/idempotency.py:61-175 | such a request ends rejected if and only if a lease is running, replaying if and only if the row is settled, and otherwise holding the row |
| Idempotency.Database.ChargeTenant | src/infrgate/services/idempotency.py:242-278 | the spend grows by the cost and each crossed threshold is enqueued once, in order, by the loop |
| Idempotency.Database.FinalizeRequest | src/infrgate/services/idempotency.py:178-280 | finalizing settles the matching pending row and charges its cost, or changes nothing when no row matches |
| ChatCompletions.ChatCompletion | src/infrgate/api/v1/chat_completions.py:90-433 | whatever exit it takes, the endpoint makes exactly one finalize call for a request that claimed its row, with the settlement that exit deserves, and none for one that did not |
| ChatCompletions.EveryExitSettles | src/infrgate/api/v1/chat_completions.py:109-433 | for every kind of execution, told case by case: the status, code, body and cost the caller's own row ends with, the charge (that cost), and the answer, whose code and message an error row repeats; over the cap the row is failed with 403 at no cost; no other row changes |
| ChatCompletions.OthersAnswered | src/infrgate/services/idempotency.py:153-175 | whoever may not proceed changes nothing and gets the stored code and body, or 409 while the lease runs |
| ChatCompletions.FinalizeMisses | src/infrgate/services/idempotency.py:227-240 | a finalize whose request holds no pending row of its key changes no row, charges nothing and enqueues nothing |
| ChatCompletions.FinalizeIsARun | src/infrgate/services/idempotency.py:201-280 | a finalize with its charge is the finalize and billing steps of the interleaved protocol |
| ChatCompletions.EndpointIsARun | src/infrgate/api/v1/chat_completions.py:90-433 | the database after one endpoint call is that after a run of the interleaved protocol, so all that holds of runs holds of it |
| ChatCompletions.SecondCallReplays | src/infrgate/api/v1/chat_completions.py:90-107 | a second call with the key changes nothing, whatever it would have done, and gives the stored answer, which is the first call's own response when that was delivered |
| CircuitBreaker.ProviderCircuitBreaker.BeginExecute | packages/sdk/src/circuit-breaker.ts:145-161 | the start of `execute`: refusal when open or full, otherwise admission and, when half-open, a counted probe |
| CircuitBreaker.ProviderCircuitBreaker.EndExecute | packages/sdk/src/circuit-breaker.ts:163-175 | the end of `execute` records the outcome and gives a probe's place back in the state the specification says |
| CircuitBreaker.ProviderCircuitBreaker.GetRecentFailures | packages/sdk/src/circuit-breaker.ts:278-285 | the pruning loop keeps exactly the failures within the window, in order, and stores them |
| BreakerDecisions.AdmissionExact | packages/sdk/src/circuit-breaker.ts:145-175 | after any run the provider is called if and only if the circuit is closed, or the recovery timeout since it last opened has passed and a probe is allowed, or it is half-open with room among its probes; the call is a probe unless the circuit is closed; every refusal names the end of the recovery timeout |
| BreakerDecisions.MovesExactly | packages/sdk/src/circuit-breaker.ts:128-214 | after any run, for every next event, an if and only if for each move: opening by the failures of the window since the last close, half-opening by a read after the timeout, reopening by any failure, closing by the success that completes the threshold since half-opening |
| BreakerDecisions.StatusExactly | packages/sdk/src/circuit-breaker.ts:219-235 | the report of any moment tells the failures of the window since the last close, the newest of them, when the circuit opened, and the successes since it half-opened |
| CircuitBreaker.ProbeLedger | packages/sdk/src/circuit-breaker.ts:145-175 | over all overlapping calls the probe counter never passes its limit and equals the current phase's live probes minus the older ones finished in it |
| CircuitBreaker.PrunedListRefinesLog | packages/sdk/src/circuit-breaker.ts:163-285 | a failure while closed, recorded directly or by a call that ends, opens the circuit exactly when the unpruned log since the last close has the threshold within the window, whatever pruning reads came between; while closed the stored list is shorter than the threshold |
| CircuitBreaker.OutlivingProbeBreaksLimit | packages/sdk/src/circuit-breaker.ts:154-174 | a run with a limit of one probe and two live probes of one phase |
| HalfOpenLimit.ShortCallsKeepLimit | packages/sdk/src/circuit-breaker.ts:128-175 | when every probe in flight stays younger than the recovery timeout, live probes never pass the limit, however long other calls take, direct records and resets included |
| HalfOpenLimit.LongCallsBreakLimit | packages/sdk/src/circuit-breaker.ts:128-175 | for every circuit that can open and every positive limit, a run whose probes are at most as old as the recovery timeout has one live probe more than the limit |
| HalfOpenLimit.HalfOpenLimitExact | packages/sdk/src/circuit-breaker.ts:128-175 | live probes respect the limit in all runs whose probes stay younger than `d` if and only if `d` is at most the recovery timeout, or the configuration admits no probe, or no probe is that young |
| Reliability.Circuits.GetCircuitState | src/infrgate/services/reliability.py:130-153 | the state read is open exactly while the recovery timeout since opening has not passed; a later read stores half-open and zero successes |
| Reliability.Circuits.RecordCircuitResult | src/infrgate/services/reliability.py:156-213 | the hash after a result, including the state read that precedes it |
| Reliability.StopAt | src/infrgate/services/reliability.py:88-108 | the attempt at which retrying ends: all earlier ones may be tried again, and it may only if it is the last |
| Reliability.ExecuteWithRetry | src/infrgate/services/reliability.py:80-112 | the answer or error of that attempt, with exactly that many calls; no allowed attempt is a runtime error without a call |
| Reliability.ExecuteWithFailover | src/infrgate/services/reliability.py:237-314 | the first provider that does not pass the request on decides; the circuits, the error lines, the decision record and the number of calls are those of the providers visited |
| Reliability.ExecuteStreamWithFailover | src/infrgate/services/reliability.py:317-423 | the same for streams up to the first chunk, where an empty stream and any other exception also pass on |
| ReliabilityRuns.RetryExactly | src/infrgate/services/reliability.py:88-112 | retrying answers exactly when an allowed attempt answers before any final error, and passes on exactly when every allowed attempt fails retryably |
| ReliabilityRuns.ResultUnique | src/infrgate/services/reliability.py:255-314 | what failover promises leaves one result and one place to stop |
| ReliabilityRuns.ServedByFirstUsable | src/infrgate/services/reliability.py:255-299 | provider `i` serves if and only if it is usable and not open and every earlier one was open or exhausted its attempts on retryable errors; it serves its first answer, with the decision record of its place |
| ReliabilityRuns.UnavailableExactly | src/infrgate/services/reliability.py:301-314 | the 503 comes if and only if every provider was open or exhausted, with one error line each that says so or tells its last attempt's message |
| ReliabilityRuns.RaisedExactly | src/infrgate/services/reliability.py:292-303 | a provider's own error reaches the caller if and only if the first provider neither open nor exhausted ends in it, final |
| ReliabilityRuns.EscapedExactly | src/infrgate/services/reliability.py:80-112 | any other exception escapes if and only if that provider ends in it, or is allowed no attempt |
| ReliabilityRuns.StreamServedExactly | src/infrgate/services/reliability.py:335-383 | provider `i` serves the stream if and only if it opened, was not skipped as open, and every earlier one was skipped, empty, failed otherwise, or failed retryably; its chunks, ending and decision record |
| ReliabilityRuns.StreamUnavailableExactly | src/infrgate/services/reliability.py:385-422 | the 503 for a stream comes if and only if every provider passed it on, with the line of its reason for each; no other exception escapes |
| ReliabilityRuns.StreamRaisedExactly | src/infrgate/services/reliability.py:385-395 | a provider's own error reaches the caller of a stream if and only if the first provider that did not pass it on failed with it and is not retryable |
| ReliabilityRuns.TurnRecords | src/infrgate/services/reliability.py:269-299 | a turn records a success exactly when the provider answered or its stream opened, and a failure for exhausted attempts, a final error, or a stream that did not open |
| ReliabilityRuns.CallsBounded | src/infrgate/services/reliability.py:255-299 | adapters are called at most the sum of the attempt limits of the providers visited |
| ReliabilityRuns.StreamOfOneProvider | src/infrgate/services/reliability.py:335-383 | a served stream is that of exactly one provider, the first not open that opened, in order, and collecting it gives its content or the error that broke it |
| ReliabilityRuns.CircuitSummarisesHistory | src/infrgate/services/reliability.py:130-213 | in every sequential run the stored hash agrees with the provider's history: closed exactly when not tripped, counters equal to the failures or successes in a row, opening time equal to the last failure |
| ReliabilityRuns.SkippedExactly | src/infrgate/services/reliability.py:130-153 | a provider is skipped if and only if it tripped, nothing succeeded since its last failure, and the recovery timeout has not passed since then |
| ReliabilityRuns.QuietAfterThreshold | src/infrgate/services/reliability.py:168-184 | after `failure_threshold` failed rounds in a row the adapter is not called again before the recovery timeout |
| ReliabilityRuns.OpensExactly | src/infrgate/services/reliability.py:166-189 | a closed circuit opens if and only if the round failed and completes `failure_threshold` failures in a row, and it is stamped with that failure |
| ReliabilityRuns.ClosesExactly | src/infrgate/services/reliability.py:191-206 | a circuit that is not closed closes if and only if the call succeeded and completes `success_threshold` successes with no failure between |
| ReliabilityRuns.RunTracksHistory | src/infrgate/services/reliability.py:255-299 | in a run over many providers each circuit evolves as its own provider's history alone says |
| ReliabilityRuns.FailoverIsTurns | src/infrgate/services/reliability.py:255-299 | a failover that visits `n` providers is `n` turns of the run |
| ReliabilityRuns.FailoverSkipsExactly | src/infrgate/services/reliability.py:255-259 | within whole runs of requests and health reads, failover skips a provider exactly when its own history says so |
| Routing.ResolveProviders | src/infrgate/services/routing.py:31-84 | 400 when nothing qualifies, otherwise the qualifying providers sorted by priority |
| Routing.FilterHealthy | src/infrgate/services/routing.py:87-110 | 503 when every circuit is read as open, otherwise the others in order; every read may half-open its circuit |
| Routing.ScoreProviders | src/infrgate/services/scoring.py:124-156 | sorting (score, provider) pairs in reverse and dropping the scores is the stable sort of the providers by descending score |
| Routing.ScoreRewardsHealth | src/infrgate/services/scoring.py:96-121 | a provider no worse in availability, errors, latency and cost never scores less |
| Routing.Route | src/infrgate/api/v1/chat_completions.py:302-304 | the three stages in sequence, with their two error answers |
| Routing.SortOrders | src/infrgate/services/routing.py:84 | a stable sort by a key refines the order the list had |
| Routing.HealthyExactly | src/infrgate/services/routing.py:87-110 | the filter keeps the order and keeps a provider exactly when its circuit was not read as open |
| Routing.RoutingOrder | src/infrgate/services/scoring.py:152-156 | the routed list holds exactly the enabled, registered, supporting providers not read as open, each once, by score descending, then priority ascending, then configuration order |
| Routing.RankingUnique | src/infrgate/services/scoring.py:152-156 | that order leaves exactly one list for given providers |
| RoutingRanks.RanksByPenalty | src/infrgate/services/scoring.py:68-121 | the exact ranking: the smaller sum of 7/12 for each step of the circuit away from closed, error rate, latency over 7500 ms (up to 5000 ms) and price over 20 (up to 10) comes first, then priority, then configuration order; absent health data counts as no errors and 1000 ms, an absent price as 1 |
| RoutingRanks.BetterSignalFirst | src/infrgate/services/scoring.py:68-121 | of two providers that differ in one signal only, closed comes before half-open before open, and the lower error rate, latency below 5000 ms, or price below 10 first, whatever their priorities |
| RoutingRanks.SignalsTrade | src/infrgate/services/scoring.py:24-30 | how much of one signal outweighs another, as an if and only if for circuit against error rate, error rate against latency, and latency against price |
| RoutingRanks.ReadsHalfOpen | src/infrgate/services/routing.py:87-110 | the health reads change a circuit only from open to half-open, and exactly when one of them comes after its recovery timeout |
| RoutingRanks.ResolvedExactly | src/infrgate/services/routing.py:31-84 | resolving keeps exactly the enabled, registered providers whose adapter supports the model or whose configuration names it by id or alias, by priority, then configuration order |
| RoutingRanks.RoutedExactly | src/infrgate/services/routing.py:87-110 | of those, exactly the ones are routed to whose circuit was not open or whose recovery timeout had passed by their read, in the order of their penalties |
| SlidingWindow.SortedSet.CheckRateLimit | src/infrgate/services/rate_limiter.py:52-92 | pipeline, and on rejection removal and retry hint, as the specification of one sequential check whose pipeline may be executed after its clock reading |
| SlidingWindow.SortedSet.FirstFrom | src/infrgate/services/rate_limiter.py:172-190 | the lookup loop finds the lowest score at or after the start of the window, or none |
| SlidingWindowAnswers.AnswerExact | src/infrgate/services/rate_limiter.py:52-92 | for every key and however late the pipeline: the caller is limited if and only if at least `limit` entries are in the window, otherwise told exactly how many remain, and the key gains the caller's entry only then |
| SlidingWindowAnswers.HintExact | src/infrgate/services/rate_limiter.py:172-190 | the hint from below and above: some entry of the window leaves it before that many seconds, and none a second earlier |
| SlidingWindowAnswers.CheckIsARun | src/infrgate/services/rate_limiter.py:52-85 | after any run, a check is a pipeline of the interleaved protocol, followed by its removal exactly when limited; it is allowed if and only if the run admits the caller, and leaves the same key |
| SlidingWindowAnswers.VerdictExact | src/infrgate/services/rate_limiter.py:52-92 | after any run, a check executed within ten seconds is allowed if and only if the admissions and pending rejections it still sees are below the limit; for sequential checks these are the admissions of the window |
| SlidingWindow.ExpiryNeverDecides | src/infrgate/services/rate_limiter.py:60-68 | for a pipeline executed within ten seconds, key expiry never drops anything the trim would have kept |
| SlidingWindow.CountedExactly | src/infrgate/services/rate_limiter.py:53-69 | such a pipeline counts the admissions it still sees plus the rejected entries it sees that are not yet removed, in whatever order clock readings and executions come |
| SlidingWindow.WindowSafety | src/infrgate/services/rate_limiter.py:52-92 | however pipelines and compensating removals interleave and overtake each other, with pipelines executed at most `d` seconds late every half-open interval of `window - d` seconds holds at most `limit` admissions |
| SlidingWindowOrder.OrderedWindowSafety | src/infrgate/services/rate_limiter.py:52-92 | with pipelines executed in the order of their stamps and within ten seconds, every half-open interval of the full window holds at most `limit` admissions, whatever removals come between |
| SlidingWindowOrder.OrderedWindowExact | src/infrgate/services/rate_limiter.py:52-92 | with pipelines executed in the order of their stamps and at most `d` seconds late, the full window is safe in all runs if and only if `d` is at most ten seconds, or there is no window, or nothing is ever admitted |
| SlidingWindowOrder.OrderedBreaks | src/infrgate/services/rate_limiter.py:60-68 | for every positive limit and window and every lag beyond ten seconds, a run in stamp order that admits one request too many after the key expired |
| SlidingWindow.DecisionExact | src/infrgate/services/rate_limiter.py:53-92 | a pipeline executed within ten seconds admits if and only if the admissions and pending rejections it still sees are below the limit; for the newest pipeline so far those are the entries of the window |
| SlidingWindowLag.WindowWidthExact | src/infrgate/services/rate_limiter.py:53-92 | with lag at most `d`, every half-open interval of a given width holds at most `limit` admissions in all runs if and only if the width is at most `window - d` (or not positive, or the limit is) |
| SlidingWindowLag.LateBreaks | src/infrgate/services/rate_limiter.py:53-92 | for every positive limit, every lag `d` and every positive width up to the window but above `window - d`, a run with lag at most `d` that admits more than `limit` requests within that width |
| SlidingWindowLag.ExpiryExact | src/infrgate/services/rate_limiter.py:60-68 | key expiry never decides in any run with lag at most `d` if and only if `d` is at most ten seconds |
| SlidingWindow.RetryExact | src/infrgate/services/rate_limiter.py:71-85 | from a settled key, a rejected caller's retry, executed within ten seconds, is admitted if and only if the oldest entry has left the window |
| SlidingWindow.RetryAfterSuffices | src/infrgate/services/rate_limiter.py:172-190 | after any sequential run, waiting the returned seconds is enough, however late the retry's pipeline is executed |
| SlidingWindowAnswers.RetryAfterTight | src/infrgate/services/rate_limiter.py:172-190 | from a settled key, a retry that waits less than the returned seconds minus one is limited again |
| TokenBucket.TokenBucketRateLimiter.CheckAndConsume | packages/sdk/src/rate-limiter.ts:89-128 | the answer and the stored buckets, where a denial stores nothing |
| TokenBucket.RefillTwice | packages/sdk/src/rate-limiter.ts:137-149 | refilling in two steps is refilling once |
| TokenBucket.LazyRefillInvisible | packages/sdk/src/rate-limiter.ts:102-128 | in every run the answers are those of a limiter that always stores its refill |
| TokenBucket.Conservation | packages/sdk/src/rate-limiter.ts:89-149 | for all amounts, negative ones included: tokens granted plus tokens left never exceed tokens at the start plus tokens earned plus one capacity per reset plus what negative requests put back |
| TokenBucket.GrantBound | packages/sdk/src/rate-limiter.ts:89-149 | over any stretch of any run a key is granted at most capacity + rate * (t - s) / 1000, plus one capacity per reset of it and every negative amount asked for it |
| TokenBucketAdmission.GrantExact | packages/sdk/src/rate-limiter.ts:89-149 | after any run a request is granted if and only if it fits the capacity and, from every grant since the key's last reset on, grants and request fit capacity + rate * elapsed / 1000: nothing is lost, nothing given away |
| TokenBucketAdmission.RemainingExact | packages/sdk/src/rate-limiter.ts:106-115 | right after a grant, a whole number of tokens is granted if and only if it is at most the reported remainder and fits the capacity |
| TokenBucketAdmission.ResetExact | packages/sdk/src/rate-limiter.ts:106-115 | the bucket is full from the reported reset on, and one that was emptied not before |
| TokenBucket.RetryAfterExact | packages/sdk/src/rate-limiter.ts:118-127 | a denied request is admitted after `n` seconds if and only if it fits the capacity and `n` is at least the returned wait, whose end is the reported reset |
| JobQueue.WorkerLoop.Dequeue | src/infrgate/worker/loop.py:44-68 | takes an earliest due pending job that is not locked, or none only if all due ones are locked |
| JobQueue.WorkerLoop.FailJob | src/infrgate/worker/loop.py:117-132 | dead letter when permanent or out of attempts, otherwise pending again after two to the attempts minutes |
| JobQueue.WorkerLoop.RecoverStuckJobs | src/infrgate/worker/loop.py:146-165 | exactly the rows processing for more than fifteen minutes become pending, and are returned |
| JobOutcomes.EndedForGood | src/infrgate/worker/loop.py:92-132 | when a job's only worker ends, a success leaves it completed, a permanent error or the last allowed attempt a dead letter; in every continuation the row stays so and nobody takes it |
| JobOutcomes.TakeableAfterBackoff | src/infrgate/worker/loop.py:117-132 | when a job's only worker fails its attempt `k` retryably with attempts left, then in every continuation, until somebody takes it, it can be taken at exactly the times from 2^k minutes after the failure on |
| JobOutcomes.Pow2Law | src/infrgate/worker/loop.py:128 | the delays are the powers of two: 1, 2, and the power of a sum is the product |
| JobQueue.AttemptBound | src/infrgate/worker/loop.py:44-68 | in every interleaving, stale workers included, a job is dequeued at most `max_attempts` (at least one) plus its recoveries, and a pending one still has a dequeue left |
| JobQueue.AttemptBoundReached | src/infrgate/worker/loop.py:146-165 | for every limit and every number of recoveries a run reaches that bound |
| JobQueue.BackoffRespected | src/infrgate/worker/loop.py:117-132 | in every interleaving, a job put back after its failed attempt `k` is not dequeued within 2^k minutes of that failure |
| JobQueue.NeverRecoveredOneHolder | src/infrgate/worker/loop.py:44-68 | a job that was never recovered has at most one worker, and only while its row is processing |
| JobQueue.TerminalIsFinal | src/infrgate/worker/loop.py:105-132 | for such a job `completed` and `dead_letter` never change again |
| JobQueue.ShortRunsOneHolder | src/infrgate/worker/loop.py:44-165 | in every run in which no execution of a job gets older than fifteen minutes, crashes and recoveries included, the job has at most one worker, and only while its row is processing |
| JobQueue.ShortRunsFinal | src/infrgate/worker/loop.py:105-165 | in such a run the job's terminal row never changes again |
| JobQueue.FinalityExact | src/infrgate/worker/loop.py:105-165 | a job's terminal row is final in all runs with executions of that job at most `d` old if and only if `d` is at most the stuck limit |
| JobQueue.TerminalMayChangeExactly | src/infrgate/worker/loop.py:105-132 | some continuation of a run changes a terminal row if and only if some worker has an execution of the job in flight; otherwise it is final for every continuation |
| JobQueue.TimelyRuns | src/infrgate/worker/loop.py:146-165 | when every handler of a job ends within fifteen minutes and no worker dies in it, it is never recovered, its processing row has exactly one worker, and once it used its allowance and is not held it is terminal |
| JobQueue.CompletedIsNotFinal | src/infrgate/worker/loop.py:105-132 | a run with executions one microsecond past the limit in which a completed job becomes pending again |
| JsonRoundTrip.RoundTrip | packages/sdk/src/utils/canonicalize.ts:14-35 | the parser inverts the printer in every style, leaving what follows the value |
| Canonicalize.OrderInsensitive | packages/sdk/src/utils/canonicalize.ts:27-34 | values equal up to key order at any depth have the same text |
| Canonicalize.CanonicalReadsBack | packages/sdk/src/utils/canonicalize.ts:14-35 | the text reads back as the value with its keys sorted |
| Canonicalize.CanonicalIffSameMeaning | packages/sdk/src/utils/canonicalize.ts:14-35 | the texts of two values are equal if and only if the values are equal up to key order, for keys without a quote followed by a colon |
| CanonicalCollisions.PairSwallowed | packages/sdk/src/utils/canonicalize.ts:27-34 | every object of two pairs, for all keys and values, has the text of a one-pair object that means something else |
| CanonicalCollisions.EveryObjectCollides | packages/sdk/src/utils/canonicalize.ts:27-34 | every object of two or more pairs has the text of another value that means something else |
| CanonicalCollisions.RawKeysCollide | packages/sdk/src/utils/canonicalize.ts:29-32 | two different objects with one text |
| Canonicalize.StandardTextExact | packages/sdk/src/utils/canonicalize.ts:29-32 | the text is the standard JSON text of the sorted value if and only if no key needs escaping |
| CanonicalOrder.KeysInOrder | packages/sdk/src/utils/canonicalize.ts:27-34 | the text reads back as a value of the same meaning whose objects list their keys, at any depth, strictly ascending by code units |
| CanonicalOrder.EscapesExactly | packages/sdk/src/utils/canonicalize.ts:19-21 | strings are escaped no more than JSON demands: which characters are copied, get a short escape, or six characters of lower-case hexadecimal; the Python printer also escapes all that is not printable ASCII |
| Streaming.StreamUsageTracker.Update | src/infrgate/schemas/streaming.py:92-112 | the tracker holds the contents, last finish reason and latest positive counts of the chunks seen |
| Streaming.StreamUsageTracker.Finalize | src/infrgate/schemas/streaming.py:114-135 | reported usage, or a quarter token per character and at least one for a non-empty answer |
| Streaming.StreamResponse | src/infrgate/api/v1/chat_completions.py:126-256 | whether the stream finishes, breaks, is cancelled or crashes: what is yielded is every chunk in order and the closing events of that ending; what is buffered is the joined content or the error envelope; status and code are those it settles with; the tracker saw every chunk |
| Streaming.Stream.Next | sdk/src/infrgate_sdk/streaming.py:68-78 | the next line that is not ignored, its error, or the end, consuming the lines up to it |
| Streaming.Stream.Collect | sdk/src/infrgate_sdk/streaming.py:90-101 | the joined contents of all chunks, or the first error |
| StreamingAgreement.ChunkReads | src/infrgate/schemas/streaming.py:30-72 | the client decodes a printed chunk to the same id, model, choice and usage |
| StreamingAgreement.ChunksArrive | sdk/src/infrgate_sdk/streaming.py:17-45 | every chunk sent arrives, in order and unchanged, and a broken stream ends in the gateway's own error |
| StreamingAgreement.StreamAgreement | sdk/src/infrgate_sdk/streaming.py:90-101 | for every chunk sequence and every way the stream stops, collecting the text sent gives exactly the content the gateway buffered for replay, or raises the error it buffered |
| StreamingAgreement.DoneExactly | src/infrgate/api/v1/chat_completions.py:159-207 | the text sent ends with the end marker if and only if the stream finished or its error was sent |
| StreamingAgreement.LatestExactly | src/infrgate/schemas/streaming.py:101-112 | of several usage reports the tracker keeps the last positive count |
| StreamingAgreement.LastFinishExactly | src/infrgate/schemas/streaming.py:98-99 | it keeps the last finish reason that is not blank |

## Left out

- HTTP, SQLAlchemy, the Redis client, logging, metrics, the frontend, migrations and configuration: plumbing around the steps modelled here.
- Provider adapters, the SDK's client modules, hashing, key generation and webhook address checks: field mapping and foreign calls; a provider is any sequence of replies.
- The fallback after an `IntegrityError` in the claim, and a finalize that itself raises: the model's statements succeed or match no row.
- A stream whose generator never starts: its row stays claimed until the lease expires.
- Redis failures (the limiters then admit by design), `check_tpm_limit` (a read followed by an add, which no endpoint calls), and `record_usage` (superseded by `finalize_request`).
- `IdempotencyGuard` and `InfrGateControlPlane.execute`: a check followed by an act across awaits, for which no exactly-once property holds.
- `ExecutionTraceBuilder`, `AdapterScorer`, the usage summaries, `record_health_signal` and the `scores` dictionary: they would add only easy members.
- Concurrent writers of one Redis circuit hash: its runs are sequential; the fields `last_failure` and `half_open_at`, which nothing reads, are not kept. The bytes and text keys of the hash are not distinguished.
- `calculate_delay`: the wait between retries is time that passes between clock readings.
- Canonicalize.CanonicalIffSameMeaning: its condition on keys is sufficient, not necessary for every single pair of values; values are null, booleans, integers printed in decimal, strings, arrays and objects; `undefined`, dates, fractions and numbers printed with an exponent are not modelled. Strings are sequences of Unicode scalar values, so lone surrogates, and the order of keys that mix characters outside the basic plane with others, are not modelled.
- Streaming.ParseLine: lines the gateway does not print, such as fractions, an error that is not an object, or blanks other than the four of JSON, may be read differently by the Python library.
- JobQueue.WorkerLoop.ProcessJob: an exception raised after `complete_job` returned, which the source would turn into a failed attempt, is not modelled.
- Exact floating-point results: percentages, scores and token levels are reals.
