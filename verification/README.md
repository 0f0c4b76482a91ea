# TokenGate, modelled and verified

TokenGate is a gateway in front of LLM providers. This project models the parts of it that carry
state, concurrency or arithmetic, and proves what they promise. `dafny verify dfyconfig.toml`
checks everything.

**Rate limiter** (`RateLimits`, `RateLimitProtocol`, `RateLimitUsage`). `RateLimits` has the limiter
as one caller sees it. `RateLimitProtocol` has any number of requests interleaving single INCRBY and
DECRBY commands. `RateLimitUsage` says what the counters and the answers mean in terms of the requests. The central fact is that a value returned within the limit bounds everything cleared
so far, so admitted requests never hold more than the limit. What a reconciliation in another
window does to that is stated exactly.

**Budgets, ledger and usage worker** (`UsagePipeline`, `UsageWorker`, `BudgetOvershoot`,
`LedgerConsistency`, `PipelineWitnesses`, `BudgetCheck`, `BudgetReservations`, `StuckUsage`,
`Reservations`, `Pricing`, `Calendar`, `RedisKeys`).
`UsagePipeline` is the concurrent machine: deliveries that check, insert, bump, log and acknowledge
one command at a time, may stop anywhere, and may be redelivered. `UsageWorker` has the loops of the
code and shows that a call is a run of that machine. `BudgetOvershoot` and `LedgerConsistency` are
the invariants over all its runs, `PipelineWitnesses` the runs that attain them. `StuckUsage` sets
the check before forwarding against the check at booking, `BudgetReservations` sets it against the
reservations that are outstanding.

**Routing** (`Health`, `Latency`, `ProviderLimits`, `RoundRobin`, `Strategies`, `Retry`, `Failover`).
The backoff automaton in 64-bit nanoseconds, the ring buffer, the tracker of the providers' own rate
limits, the weighted scheduler, the selection strategies, the retry loop over any strategy and any
upstream, and what the loop and the fallback strategy make of a request together.

**Event streams** (`EventStream`, `SseTranslator`, `StreamGrammar`, `SpelledCodec`). Line reader,
printer, the Anthropic to Responses translator and the two parsers, and the grammar of what a client
of the translated stream sees. JSON is a codec whose decoding inverts
encoding; `SpelledCodec` is one.

`Basics`, `Sums` and `Text` hold what the others share.

## Where the code departs from its comments

The model follows the code.

- Reconcile and ReleaseReservation recompute the window or period from the clock. Conservation needs
  the same window or the same day; the lemmas say exactly what is lost otherwise.
- A duplicate ledger write is not an error and the counters are bumped again, so a counter can exceed
  the ledger: they agree exactly when no message id was charged twice.
- Providers are resolved without regard to case. The ledger row names the catalogue's provider, counters
  and limits use the spelling of the event, so under another spelling the provider's own counter falls
  behind the ledger.
- `checkBudget` enforces action `block` only and ignores `Enabled`; `PreCheckBudget` honours both and
  counts reservations instead of the cost. A request that passes the one and fails the other is
  answered, and its usage is never acknowledged.
- A check that finds no counter in Redis reads the ledger, and the first increment afterwards may
  leave a counter that is smaller than what the check read.
- The ledger query of that check has no upper bound on the time, so rows after the period count as well.
- `PreCheckBudget` divides by the limit amount, which is nowhere required to be positive.
- The weekly start truncates to 24 hours, which is midnight in UTC only.
- The worker reads new messages only; redelivery is a step of the environment.
- Weighted round-robin leaves non-positive weights out of the modulus but gives each one slot, and
  all groups share one counter: the round statements are about consecutive tickets of one list.
- Cooldown lengths overflow at level 30.
- The retry loop spends an iteration when the strategy repeats itself, and only every third failure
  starts a cooldown. Within a request the fallback strategy leaves a failed deployment only if that
  failure was such a third one, if the headers of the failed answer leave less than a tenth of a provider
  limit, or if one of higher priority recovers. "Some deployment works, so the request succeeds" is false; `Failover` has the exact
  condition.
- `ShouldAvoid` rounds the tenth down, so just below 10% of a limit that is no multiple of ten a deployment
  is not avoided.
- `ParseSSE` decodes into targets with a text member "type", the translator into targets without one: an
  event whose type is not text is counted by the translator alone.
- Reading a line drops one carriage return and forwarding it adds none, so a line ending in two reads
  differently the second time.

## Assumptions stated in the contracts

- Counters are addressed by their fields instead of their Redis keys. This is what Redis does while
  key ids of budgets, and providers, scope ids and scope types of rate limits, contain no colon; model
  names, and providers of budgets, may contain any.
- The server and the usage timestamps are in one time zone where the two budget checks are compared:
  `PreCheckBudget` and the reservations label their periods on the server's clock, the worker on the
  event's UTC timestamp. The reservation statements themselves hold in any zone, on the server's clock.
- Rate limit rows are unique per scope and metric (the table's unique index,
  `api-server/internal/models/pricing.go`). Configuration and prices are fixed during a run.
- In the overshoot bound an API key belongs to one tenant, costs lie between 0 and the given
  maximum, and limits are not negative.
- Equal costs of ledger and log rows need copies of a message id to carry the same usage.
- For counters of one provider, "covers the ledger" and "agrees with the ledger" need events to spell the
  provider as the catalogue does.
- That counter and ledger agree exactly when nothing was charged twice needs copies of a message id to
  carry the same event; that a stopped message stays stopped needs its counter to be in Redis.
- The failover condition is about a request that is over before a cooldown it starts, during which nobody
  recovers and nothing is cancelled, whose providers are registered, and whose deployments either work or
  fail retryably throughout.
- The waits of the retry loop are stated for a base backoff that is not negative and durations that fit
  into 64 bits; the cap is stated for all.
- Decoded JSON strings are text JSON can carry, and encoded JSON is one trimmed line. Decoding into a
  target with a text member "type" fails where the document has that member and it is neither text nor
  null, and otherwise gives what the target without it gives.

## Model

| member | source | states |
|---|---|---|
| RateLimits.EntriesCorrect | api-server/internal/ratelimit/limiter.go:85-130 | the counters a call touches stand for exactly the enabled, matching limits with a positive amount, and the unique index of the configuration makes them pairwise distinct |
| RateLimits.ReleasesCorrect | api-server/internal/ratelimit/limiter.go:269-318 | Reconcile's decrements are exactly the unused amount on every matching output-token limit, none when nothing is unused |
| RateLimits.VerdictUnique | api-server/internal/ratelimit/limiter.go:136-264 | counters and matching limits determine the answer, so the single-limit path and the pipelined path cannot differ |
| RateLimits.RetryAfterWithinWindow | api-server/internal/ratelimit/limiter.go:171-172 | the advised wait is more than zero, at most one window, and ends exactly where the next window begins |
| RateLimits.Limiter.CollectEntries | api-server/internal/ratelimit/limiter.go:85-130 | the collecting loop computes Entries |
| RateLimits.Limiter.CheckPipeline | api-server/internal/ratelimit/limiter.go:141-217 | alone, rejects exactly when some limit has used + amount > limit, reports the first, restores every counter on rejection and raises each by its amount otherwise |
| RateLimits.Limiter.CheckSingle | api-server/internal/ratelimit/limiter.go:220-264 | the same contract as the pipelined path, for one entry |
| RateLimits.Limiter.Check | api-server/internal/ratelimit/limiter.go:68-217 | the same contract for every call, with the reported limit configured and the wait within its window |
| RateLimits.Limiter.Reconcile | api-server/internal/ratelimit/limiter.go:268-322 | lowers every counter by exactly the surplus of the limits reconciled in the current window, and no other counter |
| RateLimitProtocol.IncrementStep | api-server/internal/ratelimit/limiter.go:144-147 | an INCRBY either leaves the cleared shares of a counter alone or Redis answered within the limit: the reason increment-then-check is safe |
| RateLimitProtocol.NextKeeps | api-server/internal/ratelimit/limiter.go:141-193 | the inductive invariant (books balanced, cleared shares within the limit) survives every single command of every request |
| RateLimitProtocol.Reachable | api-server/internal/ratelimit/limiter.go:141-193 | the invariant holds in every state of every interleaving |
| RateLimitProtocol.AdmittedWithinLimitPlusStray | api-server/internal/ratelimit/limiter.go:141-322 | in every interleaving, what admitted requests hold on a limit's counter is at most the limit plus what other windows gave back to it |
| RateLimitProtocol.StrayFreeIffSameWindow | api-server/internal/ratelimit/limiter.go:290-316 | a fully reconciled request gave back only what it took, on every counter, if and only if Reconcile read the clock in the window of Check |
| RateLimitProtocol.CountersExactIffSameWindow | api-server/internal/ratelimit/limiter.go:184-316 | at rest, counters show exactly what admitted requests hold if and only if every reconciliation of the run fell in its own window |
| RateLimitProtocol.AdmittedWithinLimit | api-server/internal/ratelimit/limiter.go:141-322 | with reconciliations in their own window, admitted requests never hold more than the limit, whatever the interleaving |
| RateLimitProtocol.QuiescentCounters | api-server/internal/ratelimit/limiter.go:184-193 | when nobody is between increment and rollback, every counter is the sum over admitted requests only (less stray releases) |
| RateLimitProtocol.ReconciledHoldsActual | api-server/internal/ratelimit/limiter.go:268-322 | once reconciled in its window, a request holds min(actual, max) of every output-token counter |
| RateLimitProtocol.CheckIsRun | api-server/internal/ratelimit/limiter.go:68-217 | a check that nobody interrupts is a run of the concurrent machine that ends as the limiter's contract says |
| RateLimitProtocol.LateReconcileOverAdmits | api-server/internal/ratelimit/limiter.go:290-316 | a concrete run: a reconciliation one window late lets two requests hold 20 tokens of a limit of 10 |
| RateLimitUsage.CountersCountUsage | api-server/internal/ratelimit/limiter.go:85-316 | in every run at rest with same-window reconciliations, an rpm counter is the number of admitted requests the limit covers in its window, an itpm counter their input tokens, an otpm counter their maximum or, once reconciled, their real output tokens |
| RateLimitUsage.VerdictInPlainTerms | api-server/internal/ratelimit/limiter.go:68-264 | a call is admitted iff no configured limit that covers it would be passed by one more request, its input tokens or its maximum output; a rejection names the first such limit, what is used of it and the end of its window |
| RedisKeys.LabelInjective | api-server/internal/pricing/engine.go:636-648 | bucket labels differ between buckets, within and across the three period types |
| RedisKeys.BudgetKeyInjective | api-server/internal/pricing/engine.go:399-648 | with colon-free key ids no two counters of the six budget and reservation families share a Redis key, whatever the providers contain |
| RedisKeys.KeyUnsharedIffColonFree | api-server/internal/pricing/engine.go:590-633 | a key's counter is shared with no other counter if and only if its id has no colon; with one it is also the counter of a key and a provider |
| RedisKeys.RateKeyInjective | api-server/internal/ratelimit/limiter.go:324-330 | rate counter keys are injective even when model names contain colons |
| RedisKeys.ColonInFieldCollides | api-server/internal/ratelimit/limiter.go:324-330 | any colon in a provider name or in a scope id makes two limits share a counter |
| RedisKeys.IncrByOnRenderedKey | api-server/internal/ratelimit/limiter.go:145-145 | a command on a rendered key changes that rate counter and no other, so the models may address counters by value |
| RedisKeys.IncrByOnBudgetKey | api-server/internal/pricing/engine.go:524-546 | the same for budget and reservation counters, and which counters exist stays in step as well |
| UsagePipeline.BumpOnRedis | api-server/internal/pricing/engine.go:524-546 | with colon-free key ids an increment of the machine is one INCRBY on one Redis key |
| UsagePipeline.SpendOnRedis | api-server/internal/pricing/engine.go:430-453 | and the spend a check reads is what Redis holds under the limit's key |
| Calendar.CivilDateCorrect | api-server/internal/pricing/engine.go:654-662 | every day is the day of exactly one valid calendar date |
| Calendar.IsoWeekCorrect | api-server/internal/pricing/engine.go:641-642 | ISO year and week as section 4.1.4 of ISO 8601:2004 defines them: weeks from Monday, week 01 holds January 4, numbers 1 to 53 |
| Calendar.SameIsoWeekIffSameMonday | api-server/internal/pricing/engine.go:640-642 | equal (ISO year, week) means equal Monday, and conversely, across year ends |
| Calendar.BucketIsPeriod | api-server/internal/pricing/engine.go:636-683 | start <= t < end, and a bucket holds exactly the instants of the period |
| Calendar.SameBucketIffSameStart | api-server/internal/pricing/engine.go:636-666 | two instants share a label exactly when they share a period start |
| Calendar.EndStartsNextPeriod | api-server/internal/pricing/engine.go:669-683 | the exclusive end of a period is the start of the next one |
| Calendar.PeriodLengths | api-server/internal/pricing/engine.go:652-683 | a daily period lasts 24 hours, a weekly one seven days, a monthly one 28 to 31 days |
| Calendar.UnixEpoch | api-server/internal/pricing/engine.go:636-648 | the calendar stands where the world's does: day, weekday and ISO week of January 1, 1970 |
| Calendar.ZonedWeeksAgreeIffUtcMidnight | api-server/internal/pricing/engine.go:655-660 | in a zone off UTC, weekly labels and weekly starts agree if and only if local midnight is a UTC midnight |
| UsageWorker.Worker.DbBudgetSpend | api-server/internal/pricing/engine.go:496-507 | the ledger query is the sum of the billed rows of the tenant and provider since the period start |
| UsageWorker.Worker.GetSpend | api-server/internal/pricing/engine.go:430-460 | reads the Redis counter, else the ledger for account limits, else zero |
| LedgerConsistency.FallbackReadsBucketIff | api-server/internal/pricing/engine.go:447-507 | without a counter, the spend of an account limit is the ledger total of its bucket iff the billed rows of its tenant and provider after the period add up to nothing |
| LedgerConsistency.RowChangesSpendIff | api-server/internal/pricing/engine.go:496-507 | a ledger row changes the spend of an account limit without a counter by its cost if it has the tenant, the provider, is billed and not before the period; no other row changes any spend |
| UsageWorker.Worker.CheckBudget | api-server/internal/pricing/engine.go:464-492 | finds the first limit that spend + cost would pass; none is reported exactly when none is passed |
| UsageWorker.Worker.WriteLedger | api-server/internal/pricing/engine.go:554-588 | afterwards the ledger has a row for the message id, and a second one is never added |
| UsageWorker.Worker.IncrementBudget | api-server/internal/pricing/engine.go:512-550 | exactly the event's up to twelve counters move, each by its cost; none if usage is not billed |
| UsageWorker.Worker.Process | api-server/internal/events/worker.go:140-180 | acknowledges exactly when no blocking limit stands in the way; the books become Handled, or stay as they were |
| UsageWorker.BumpAllAdds | api-server/internal/pricing/engine.go:521-549 | distinct counters each move by the cost once, all others stay |
| UsageWorker.ProcessIsRun | api-server/internal/events/worker.go:73-85 | handling a message from start to end is a run of the concurrent machine, acknowledgement included |
| UsageWorker.WorkerNeverOverruns | api-server/internal/pricing/engine.go:159-170 | one worker handling any messages in turn never takes a counter past a blocking limit |
| PipelineWitnesses.OvershootReached | api-server/internal/pricing/engine.go:159-170 | the overshoot bound is attained for any number of processing calls in flight and any greatest cost 0 < C <= L |
| BudgetOvershoot.BumpsOnlyWhatItChecks | api-server/internal/pricing/engine.go:464-550 | an event that bumps a limit's counter is one that had to pass that limit, in the same bucket |
| BudgetOvershoot.SpendSeesCounter | api-server/internal/pricing/engine.go:430-460 | what the check reads is never less than the counter holds, also through the ledger fallback |
| BudgetOvershoot.NextKeeps | api-server/internal/pricing/engine.go:159-170 | counter plus what passed deliveries still owe stays within the bound at every step |
| BudgetOvershoot.OvershootBound | api-server/internal/pricing/engine.go:159-170 | with at most n calls of Process in flight, each costing 0 to C, a counter governed by a block limit L never exceeds L + (n-1)*C, through crashes and redelivery and however many deliveries are still logging or acknowledging |
| BudgetOvershoot.SequentialNeverOverruns | api-server/internal/pricing/engine.go:464-492 | with one call of Process at a time it never exceeds L |
| LedgerConsistency.NextKeepsBooks | api-server/internal/events/worker.go:73-85 | every step keeps: counters are the sum of bumps, the ledger is the sum of written rows, one writer per id, rows where the stages say |
| LedgerConsistency.RowMatchesCounters | api-server/internal/pricing/engine.go:496-549 | a ledger row counts towards an account bucket exactly when its event bumps that counter, for a provider's bucket if the event spells the provider as the catalogue does |
| LedgerConsistency.RowMatchesIff | api-server/internal/pricing/resolver.go:155-185 | it does for every account-level bucket if and only if the spellings agree or nothing is billed |
| LedgerConsistency.RowsAgree | api-server/internal/events/worker.go:140-170 | under crashes and redelivery: one ledger row and one log row per message id, equal costs, no log row of a catalogued model without a ledger row, no cost in a log row without one, both rows for every acknowledged message |
| LedgerConsistency.CounterCoversLedger | api-server/internal/pricing/engine.go:164-170 | once everything delivered is acknowledged, each account-level counter is at least the billed ledger sum of its bucket |
| LedgerConsistency.CounterEqualsLedger | api-server/internal/pricing/engine.go:164-170 | with every message id processed once, counter and ledger sum are equal |
| LedgerConsistency.CounterEqualsLedgerIff | api-server/internal/pricing/engine.go:164-170 | once everything is acknowledged they are equal if and only if no message id was charged to the counter by two deliveries |
| PipelineWitnesses.RedeliveryChargesTwice | api-server/internal/pricing/engine.go:579-584 | for every event, a run with one redelivery after which all is acknowledged, the ledger has the cost once and the counter has it twice |
| PipelineWitnesses.MisspelledFallsBehind | api-server/internal/pricing/engine.go:496-549 | a run: one message in another spelling, handled once and acknowledged, leaves the provider's counter at zero and its ledger sum at the cost |
| Reservations.SameCountersIffSameDay | api-server/internal/pricing/engine.go:333-373 | a release lowers the counters its reservation raised if and only if both fall on the same day of the server's clock |
| Reservations.CounterIsOutstandingLessMisreleased | api-server/internal/pricing/engine.go:300-375 | in every interleaving a reservation counter is what is outstanding less what was released from it without being reserved on it |
| Reservations.CounterIsOutstanding | api-server/internal/pricing/engine.go:300-375 | with same-day releases every counter is the sum outstanding, never negative, and zero once all is released |
| Reservations.CountersOutstandingIffSameDay | api-server/internal/pricing/engine.go:300-375 | in every run with begun releases completed, the counters are the outstanding reservations if and only if every release fell on the day of its reservation |
| Reservations.OvernightReleaseMisbooks | api-server/internal/pricing/engine.go:361-373 | across midnight the release day is debited and the reservation day keeps the amount for good |
| Reservations.OvernightRun | api-server/internal/pricing/engine.go:333-373 | for every overnight release a run that ends with all released, the counter of the release day negative and that of the reservation day positive |
| Reservations.ReservationCounters.Reserve | api-server/internal/pricing/engine.go:333-351 | each of the up to six counters rises by the amount, no other moves |
| Reservations.ReservationCounters.Release | api-server/internal/pricing/engine.go:356-375 | each of the counters current now falls by the amount, no other moves |
| BudgetCheck.PreCheckBudget | api-server/internal/pricing/engine.go:198-296 | blocks iff a first enabled, matching block or alert_block limit has spend + reserved >= limit; otherwise no status iff no limit reached its threshold, else one of greatest used/limit; a zero limit amount faults exactly where it is divided by |
| BudgetCheck.ZeroAlertLimitFaults | api-server/internal/pricing/engine.go:264-266 | an alert limit of zero makes the request fail by division by zero on an account that spent nothing |
| BudgetReservations.ReservedIsOutstanding | api-server/internal/pricing/engine.go:300-397 | in every run of reservations, all complete and released on their day, what a row is compared with is the spend plus the sum of the amounts outstanding by its key, or by its tenant for an account row, in its period |
| BudgetReservations.ReservedNeverLowers | api-server/internal/pricing/engine.go:391-396 | a negative reservation counter never makes the compared amount less than the spend |
| BudgetReservations.DecisionInPlainTerms | api-server/internal/pricing/engine.go:218-285 | a row blocks iff it is enabled, about the tenant, key and provider, its action is block or alert_block, and spend plus outstanding has reached its amount; it alerts iff it does not block and they have reached the threshold percentage |
| BudgetReservations.NearestInPlainTerms | api-server/internal/pricing/engine.go:262-285 | no alerting row has used a greater part of its amount than the reported one |
| StuckUsage.AcknowledgeableIff | api-server/internal/events/worker.go:73-85 | a message can be acknowledged in some continuation of the run if and only if no blocking limit stops it now |
| StuckUsage.FallbackUnsticks | api-server/internal/pricing/engine.go:447-459 | without the counter in Redis this fails: a stopped message gets through once another one has created a smaller counter |
| StuckUsage.ForwardedNeverAcknowledgedIff | api-server/internal/pricing/engine.go:198-492 | a request forwarded in one state and booked in a later one is never acknowledged if and only if a block limit that is disabled, or was not reached by spend + reserved at forwarding, is passed by spend + cost at booking |
| StuckUsage.SlipsFromTheStart | api-server/internal/pricing/engine.go:198-492 | a limit that the cost alone would pass when the request is forwarded is passed at booking whatever happens in between |
| Pricing.ResolvePrices | api-server/internal/pricing/resolver.go:85-150 | each dimension is priced by key config, else contract, else standard, and by nothing else |
| Pricing.PriceComesFrom | api-server/internal/pricing/resolver.go:87-152 | the last row of the key configuration, else the first contract row in force, else the first standard row in force, quoted with its unit size or a million |
| Pricing.Calculate | api-server/internal/pricing/calculator.go:18-56 | the base cost is the price-weighted token sum, and the recorded price points reproduce it |
| Pricing.ApplyMarkups | api-server/internal/pricing/calculator.go:60-70 | percentages add up before they are applied; the shortcuts change nothing |
| Pricing.MarkupsAdd | api-server/internal/pricing/calculator.go:59-69 | a markup of p percent gives (100 + p) hundredths of the base, and each further one adds its percentage of the base |
| Pricing.PriceEvent | api-server/internal/pricing/engine.go:128-136 | base + markup = final |
| Pricing.ExactPerUnit | api-server/internal/pricing/calculator.go:33-52 | with any one unit size the cost times that size is the plain sum of token-price products over the priced dimensions |
| Pricing.ExactPerMillion | api-server/internal/pricing/calculator.go:38-45 | with unit size 10^6 the cost times 10^6 is the plain sum of token-price products over the priced dimensions |
| Pricing.SplittingKeepsCost | api-server/internal/pricing/calculator.go:33-69 | splitting an event's tokens over two events changes neither base nor final cost |
| Pricing.MoreTokensCostNoLess | api-server/internal/pricing/calculator.go:33-69 | with non-negative prices more tokens never cost less |
| Pricing.ReservationCoversOutput | api-server/internal/pricing/engine.go:319-331 | a reservation is at least the base output cost of any response within max tokens, and equals that of the longest |
| Health.HealthTracker.RecordFailure | api-server/internal/provider/health.go:50-70 | the record of that deployment takes one step of the automaton, all others stay |
| Health.HealthTracker.RecordSuccess | api-server/internal/provider/health.go:73-81 | resets count, level and cooldown of that deployment only |
| Health.HealthTracker.EarliestCooldownExpiry | api-server/internal/provider/health.go:97-119 | the first id without a record, else one of earliest cooldown end |
| Health.TraceState | api-server/internal/provider/health.go:50-81 | after any trace, n failures since the last success give fail count n mod 3, level n div 3 and a cooldown from the last third failure |
| Health.BackoffAsIntended | api-server/internal/provider/health.go:60-64 | up to level 29 the 64-bit arithmetic gives min(30s * 2^(level-1), 5min) |
| Health.CooldownSchedule | api-server/internal/provider/health.go:60-64 | the first cooldowns are 30, 60, 120, 240 and 300 seconds |
| Health.BackoffPastOverflow | api-server/internal/provider/health.go:60-64 | at levels 30 to 54 the cooldown is the cap or negative, depending on one bit |
| Health.BackoffVanishes | api-server/internal/provider/health.go:60-64 | from level 55 on there is no cooldown at all |
| Health.BackoffIntendedIff | api-server/internal/provider/health.go:60-64 | the intended backoff is computed at exactly the surviving levels |
| Health.BackoffOverflowsAtLevel30 | api-server/internal/provider/health.go:60-64 | level 30 is the first to fail: its cooldown is negative |
| Health.CooldownAfterStreak | api-server/internal/provider/health.go:50-70 | for any trace, the cooldown is the intended one iff its level survives: always below 90 failures in a row, not at 90, never from 165 on |
| Latency.RingStep | api-server/internal/provider/latency_tracker.go:41-45 | overwriting one slot and moving on keeps the ring equal to the recent history, read round from the position |
| Latency.RecentSamples | api-server/internal/provider/latency_tracker.go:59-62 | the live part of the ring is the last min(n, 100) samples as a multiset |
| Latency.LatencyWindow.Record | api-server/internal/provider/latency_tracker.go:41-45 | appends to the history the ring stands for |
| Latency.RecentAreLatest | api-server/internal/provider/latency_tracker.go:59-62 | the samples averaged are the latest hundred, or all if fewer |
| Latency.MeanRoundsDown | api-server/internal/provider/latency_tracker.go:64-71 | the average of durations is total over number, rounded down |
| Latency.LatencyWindow.Average | api-server/internal/provider/latency_tracker.go:59-71 | the mean, by truncating division, of the last min(n, 100) samples |
| Latency.LatencyTracker.Record | api-server/internal/provider/latency_tracker.go:29-46 | appends to that deployment's history and to no other |
| Latency.LatencyTracker.Average | api-server/internal/provider/latency_tracker.go:50-72 | the mean of the deployment's recent history, zero without samples |
| Latency.LatencyTracker.HasData | api-server/internal/provider/latency_tracker.go:75-83 | true iff the deployment has a sample |
| ProviderLimits.RateLimitTracker.Update | api-server/internal/provider/ratelimit_tracker.go:20-27 | headers replace what was known of that deployment only, an answer without them changes nothing |
| ProviderLimits.RateLimitTracker.ShouldAvoid | api-server/internal/provider/ratelimit_tracker.go:31-57 | true iff the last headers left less than a tenth, rounded down, of the request limit or of the token limit |
| ProviderLimits.LowIsBelowTenthIff | api-server/internal/provider/ratelimit_tracker.go:29-54 | that is "below 10%" if and only if the limit is a multiple of ten or not exactly the rounded tenth is left |
| RoundRobin.RouterState.WeightedSelect | api-server/internal/provider/strategy.go:116-130 | takes one ticket and returns the deployment whose slots contain it; the loop never falls through |
| RoundRobin.RouterState.Select | api-server/internal/provider/strategy.go:97-113 | weighted if any weight is positive, else the ticket modulo the number of candidates |
| RoundRobin.OneOwnerPerTicket | api-server/internal/provider/strategy.go:111-130 | every ticket of the counter goes to exactly one deployment |
| RoundRobin.SelectionsPerRound | api-server/internal/provider/strategy.go:116-130 | over any totalWeight consecutive tickets below 2^63, from any offset, deployment i is selected exactly as often as its slots fit under the modulus |
| RoundRobin.SimpleRoundRobin | api-server/internal/provider/strategy.go:111-113 | without positive weights any n consecutive tickets select each of n deployments once |
| RoundRobin.ShareIsWeight | api-server/internal/provider/strategy.go:97-130 | if no positive weight follows a non-positive one, and so if all are positive, the share is max(weight, 0) |
| RoundRobin.FairIffUnweightedLast | api-server/internal/provider/strategy.go:99-123 | shares are the weights if and only if no positive weight follows a non-positive one |
| RoundRobin.StuckOnFirst | api-server/internal/provider/strategy.go:117-117 | from ticket 2^63 on only the first deployment is selected |
| Strategies.CandidatesCorrect | api-server/internal/provider/strategy.go:33-42 | candidates are group members, available whenever anyone is, and include all available ones |
| Strategies.HealthyDeployments | api-server/internal/provider/strategy.go:34-42 | the filtering loop computes AvailableOf |
| Strategies.Fallback | api-server/internal/provider/strategy.go:48-80 | an available deployment of least priority value if there is one; else the first record-less in priority order; else one of least cooldown end |
| Strategies.RoundRobinSelect | api-server/internal/provider/strategy.go:86-114 | the candidate that owns the next ticket of the shared counter |
| Strategies.TicketsByWeight | api-server/internal/provider/strategy.go:97-130 | candidates with positive weights get exactly their weight of every round of tickets |
| Strategies.LowestLatency | api-server/internal/provider/strategy.go:142-188 | exploring, the candidate without data the draw falls on; else one of least average latency among those with data; else the candidate the draw falls on |
| Strategies.CostOptimized | api-server/internal/provider/strategy.go:194-212 | a cheapest candidate; the group is only ever permuted, and only when nobody is available |
| Retry.ExecuteWithRetry | api-server/internal/provider/retry.go:63-139 | makes a run, round by round: the choice is the strategy's on the router state so far, it is called exactly if its id is new and its provider registered, the outcome is the upstream's, reports, waits and noted headers are those of the attempts, and the loop ends only where the code does |
| Retry.RunUnique | api-server/internal/provider/retry.go:63-139 | strategy and upstream determine the rounds and the answer |
| Retry.RunGuarantees | api-server/internal/provider/retry.go:63-139 | in every run: at most min(MaxRetries+1, n) attempts on distinct ids, all but the last failed retryably, one matching health update each, waits capped, success iff the last attempt succeeded |
| Retry.RunEnds | api-server/internal/provider/retry.go:68-139 | only registered choices of uncancelled iterations are called, a choice is skipped only if unregistered or chosen before, and each way of ending has its own cause |
| Retry.WaitOfRound | api-server/internal/provider/retry.go:253-281 | the wait recorded after each round: the seconds of Retry-After or the base after a 429, base * 2^i after any other error, cut at the maximum; none after a success, a final error or a timeout |
| Retry.DefaultSchedule | api-server/internal/provider/retry.go:23-32 | by default at most four attempts, and waits of 1, 2, 4 and at most 8 seconds after server errors |
| Retry.AttemptOn | api-server/internal/provider/retry.go:100-108 | an attempt is the upstream's answer, notes its rate limit headers whether it failed or not, and causes exactly the health update that matches it |
| Retry.BackoffCappedIff | api-server/internal/provider/retry.go:253-281 | no wait exceeds MaxBackoff, Retry-After (section 10.2.3 of RFC 9110) and overflow included, iff 0 <= MaxBackoff and BaseBackoff <= MaxBackoff |
| Retry.DefaultIsCapped | api-server/internal/provider/retry.go:23-32 | the default configuration meets that condition |
| Failover.FallbackRepeatsIff | api-server/internal/provider/strategy.go:48-80 | after a failure of its choice the fallback strategy answers the same deployment again if and only if the failed answer's headers left a tenth of each limit, and the failure started no cooldown or the cooldown is over |
| Failover.FailoverIff | api-server/internal/provider/retry.go:81-210 | with some ready deployment working, the first being the p-th in priority order, the request succeeds if and only if p <= MaxRetries and every ready one ahead is one failure short of a cooldown or sends headers that leave less than a tenth of a limit; else it ends exhausted |
| Failover.SecondOfTwoReachedIff | api-server/internal/provider/retry.go:86-92 | two deployments of which only the second works, default configuration: it is reached if and only if the first has two failures behind it or its answer leaves less than a tenth; else the request ends exhausted after one call |
| Failover.WorkingDeploymentMissed | api-server/internal/provider/retry.go:86-92 | nobody failed before and the first answers 503 without headers: exhausted after one call |
| Failover.LimitedDeploymentLeft | api-server/internal/provider/retry.go:208-210 | the same with a 429 that says none of 500 requests are left: the second is called and the request succeeds |
| EventStream.FeedOne | api-server/internal/proxy/responses_stream.go:36-51 | reading line by line is reading the whole |
| EventStream.PrintedLines | api-server/internal/proxy/responses_stream.go:134-142 | a printed event splits into its event line, data line and blank line |
| EventStream.PrintedBlock | api-server/internal/proxy/responses_stream.go:36-51 | a printed block yields its event whatever the reader held before |
| EventStream.PrintReadRoundTrip | api-server/internal/proxy/responses_stream.go:134-142 | reading back printed events gives the same events with nothing left over (WHATWG HTML sections 9.2.5 and 9.2.6) |
| EventStream.Unterminated | api-server/internal/proxy/responses_stream.go:53-57 | an event without its blank line completes nothing and is left over |
| EventStream.SeveralDataLines | api-server/internal/proxy/responses_stream.go:147-160 | an event with several data lines has all of them, one to a line, and nothing of what was pending before |
| EventStream.OtherLinesDoNotMatter | api-server/internal/proxy/responses_stream.go:147-160 | lines that are no event, data or blank line change no event |
| EventStream.NoDataNoEvent | api-server/internal/proxy/responses_stream.go:153-160 | an event line without data lines is no event |
| EventStream.ForwardedReadsSameIff | api-server/internal/proxy/stream.go:45-55 | what the parsers forward reads as the same lines if and only if no line of the body ends in a second carriage return |
| EventStream.PaddingDoesNotMatter | api-server/internal/proxy/responses_stream.go:147-152 | space around a field value is dropped |
| EventStream.CarriageReturnDoesNotMatter | api-server/internal/proxy/responses_stream.go:121-145 | lines ending in CR LF read like lines ending in LF |
| EventStream.LastNewlineDoesNotMatter | api-server/internal/proxy/responses_stream.go:121-145 | a body reads the same with and without a newline at its end |
| SseTranslator.ParseSse | api-server/internal/proxy/stream.go:32-81 | forwards every line unchanged and in order, and counts exactly the events ended by a blank line |
| SseTranslator.ParseResponsesSse | api-server/internal/proxy/responses_stream.go:16-63 | forwards every line, and counts every event, an unterminated last one included |
| SseTranslator.TranslateSse | api-server/internal/proxy/responses_stream.go:117-173 | counts and writes what the single-event translation says, event by event |
| SseTranslator.KindsTellApart | api-server/internal/proxy/responses_stream.go:69-82 | of the nine names the translator writes, only two mean anything to the Responses parser |
| SseTranslator.UsageUnderEitherNaming | api-server/internal/proxy/responses_stream.go:86-112 | usage counts under the Responses names where they are not zero and under the Chat Completions names otherwise |
| SseTranslator.ParseWritten | api-server/internal/proxy/responses_stream.go:184-351 | what the output of one upstream event does to the counts of a parser reading it |
| SseTranslator.OutputCarriesCounts | api-server/internal/proxy/responses_stream.go:184-351 | parsing the translator's events gives the totals as of the last message_stop and the length of all text |
| SseTranslator.TranslatedOutputRecovers | api-server/internal/proxy/responses_stream.go:16-173 | for every upstream body, the parser fed the translator's bytes recovers exactly those totals |
| SseTranslator.StoppedStreamRoundTrip | api-server/internal/proxy/responses_stream.go:16-351 | for a stream ending in message_stop it recovers the translator's own id, model, input and output tokens, and the total text length |
| StreamGrammar.StateCounts | api-server/internal/proxy/responses_stream.go:184-351 | the item index is the number of message_stops so far, the part index that of content_block_stops since, id and model those of the last message_start |
| StreamGrammar.ClientSees | api-server/internal/proxy/responses_stream.go:117-351 | for every body the client reads exactly the named events its upstream events cause, in order: two for each decodable message_start, content_block_start, content_block_stop and message_stop, one for each text, with those indices and a total of input plus output |
| StreamGrammar.TextLiesInItsPart | api-server/internal/proxy/responses_stream.go:234-303 | in a well-nested body every text the client sees lies between the events that add and finish the part it names, with none added or finished between |
| SpelledCodec.SpelledIsFaithful | api-server/internal/proxy/responses_stream.go:134-142 | the codec hypotheses of these theorems are met by a codec that also decodes every upstream event, with a type of text or not |
| SseTranslator.SameEventsAgree | api-server/internal/proxy/stream.go:83-117 | on the same events pass-through and translation extract the same model and counts, ids apart from the resp_ prefix, if and only if the events with a text type end with the same start and usage as all; so always where every type is text |
| SseTranslator.PassThroughAgreesIff | api-server/internal/proxy/stream.go:32-117 | on any body they agree if and only if the last decodable message_start and message_delta carry what the last ones do that have a text type and are ended by a blank line |
| SseTranslator.PassThroughAgrees | api-server/internal/proxy/stream.go:32-81 | with text types throughout, if and only if the unterminated last event, if any, would have changed no count; ended with a blank line always |
| SseTranslator.MistypedStartDisagrees | api-server/internal/proxy/responses_stream.go:184-206 | a message_start whose type is not text is counted by the translator and not by the pass-through parser |
| SseTranslator.UnterminatedDeltaDisagrees | api-server/internal/proxy/responses_stream.go:160-164 | an unterminated message_delta is counted by the translator and not by the pass-through parser |

## Left out

- Redis and database errors: every fail-open branch that skips a limit, a check or a write on an error.
- Key expiry and loss of counters: EXPIRE commands, and the restart from zero after a counter is lost.
- Configuration caches and their 60 second staleness; the resolver's cache key without the timestamp.
- Float conversion and INCRBYFLOAT rounding, and decimal division rounding for unusual unit sizes: money is exact.
- 64-bit overflow of token counts and counters; only backoffs and the round-robin counter wrap.
- Unknown period types: the default branches of the key builders and of the period functions.
- JSON itself, and invalid UTF-8 in it: the codec is abstract.
- The 1 MiB line limit of the scanner, write errors of a disconnected client, flushing.
- Whitespace outside ASCII in TrimSpace.
- sort.Slice: any sorted permutation is allowed, which includes what the unstable sort returns.
- Reading the providers' rate limit headers: any information, or none.
- executeOnce: any outcome; its latency samples are not part of the retry loop's contract.
- Locks of the routing trackers: each call is atomic.
- Health updates by other requests while a request retries: the loop sees the records it started with and its own reports.
- Early returns in the proxy handler that never release a reservation: such a reservation stays outstanding.
- ParseOpenAIChatCompletionsSSE and the JSON body extractors: the same loop and field reads again.
- Router.Route, and smart-proxy streaming through AnthropicStreamTranslator.
- Resolution of provider and model names, and the queries that select markups and price rows of a key.
- Notifications and logging.
- HTTP handlers, dashboards, reports, billing, authorisation tables, plan limits, membership and key storage: queries and row guards without state of their own or arithmetic that spans operations.
