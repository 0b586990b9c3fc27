# Verified model of the LLM cost gateway

The gateway forwards chat requests to model providers and must not let an organization or an API key
spend more than its budget. This project models the parts where that is decided, and the loops around
them that have a precise job, and proves what they promise. `dafny verify dfyconfig.toml` checks
everything. Nothing was executed: the statements below are about the model, which follows the cited
lines branch by branch.

## The parts

**The reservation ledger.** `Ledger` holds the tables `cost_limit_counters` and `cost_reservations`
(and the cost and request logs beside them) as values, and the three transactions on them as
functions; `ReservationService.Store` is the same as statements on mutable tables, proved equal to
those functions. `Admission` says in plain sums when a request is let in. `Conservation`, `Overspend`, `Capping` and `LedgerDrift` prove what holds after any run of
transactions. `Interleaving` breaks the transactions into single lock, insert and update steps of any
number of concurrent transactions; `Serializability` and `Deadlock` prove what survives, `Concurrent`
carries the bounds over to them, and `Anomalies` gives the runs in which serializability does not survive.

**What a request costs.** `Calculator`, `Estimate`, `Pricing` and `Metering` model token prices, the
reservation estimate, the pricing version state machine and the transaction that records a success.
`EndToEnd` joins them with the ledger: the honesty of settlements, which `Overspend` assumes, follows
from token counts and prices. `Gateway` and `Disposition` model the retry and fallback loops and what
becomes of a reservation on every way out of `Chat`, `StreamChat` and `FinalizeStream`.

**Around it.** `Routing` (the order of targets, with `Sorting`), `RateLimit` (the Redis window),
`Luhn`, `Detection` and `Redaction` (personal data in prompts), `Sse` and `Relay` (event streams), and
`Pagination` (the request log listing).

`Base` and `Calendar` hold integers, identifiers and the day and month windows.

## What turned out not to hold

- **A limit can be overshot by one request.** On a counter that nothing uses yet, `Reserve` admits an
  estimate above the limit with its amount cut to the limit. Its settlement may then cost the whole
  estimate (`Overspend.CapOvershoots`; `EndToEnd.QuotedOvershoot` with real tokens and prices).
  `Overspend.LimitHoldsExactly` says that the limit holds throughout a run if and only if no request was
  admitted this way, and `Capping.CapsExactly` when that happens: the counter is unused and the estimate
  exceeds the limit. Estimates within the limit never overshoot it (`Capping.SmallEstimatesWithin`).
- **Reserve is not serializable against RecordSuccess.** A `RecordSuccess` that commits after a
  `Reserve` has summed the ledger for a counter that does not exist, and before that `Reserve` ends, is
  missed on that counter and seen on the next (`Anomalies.SeedRace`). `Serializability.CostKeepsExactly`
  gives the exact condition: the cost must not fall into a sum that an open `Reserve` has used, unless
  that counter already exists and the sum still fits in a bigint.
- **A request id can be reserved again while it is being finished.** The id is the client's
  `X-Request-Id` header whenever that is a UUID (`internal/http/middleware/request_id.go:13-17`,
  `internal/http/handlers/gateway/chat_completions_handler.go:45-48`), so any number of transactions,
  for any keys, may share one. The last UPDATE of a settle or release also catches rows that went live
  after the rows were selected; their amount then stays in the counter for good
  (`Anomalies.ReusedRequestLeaks`). `Interleaving.FinishAtomicExactly` gives the exact condition: a
  finish has its atomic effect if and only if every live row of the request is one it has locked and
  updated, and only rows committed after its snapshot can be missing
  (`Interleaving.MissedRowsAreLate`).
- These two are the only conditions of the refinement, and step by step they are exact
  (`Serializability.StepSoundExactly`). Otherwise request ids are arbitrary throughout.
- **A lost commit acknowledgement leaves rows reserved.** When `Reserve` commits but reports an error,
  the gateway believes that nothing is reserved and never releases it (`Disposition.LostAckLeavesRow`).
  A request that had nothing live has something live after `Chat`, or after a stream, if and only if
  this happened to a reservation that inserted rows.
- **Events with several data lines are not relayed faithfully.** The handler prints the joined lines
  after one `data: `, so a reader drops those that do not themselves begin with `data:`.
  `Relay.RelayedExactly` says exactly which streams survive. Unlike section 9.2.6 of the WHATWG HTML
  Living Standard, the reader also trims all white space around a payload, does not end a line at a
  carriage return alone, and delivers an unfinished event at the end of the body.
- **A page of zero rows crashes the listing** as soon as one row is selected, on the first page or a
  later one (`Pagination.CrashesExactly`).
- The limiter's window is fixed, not sliding: twice the limit can pass within 60 seconds, and
  `RateLimit.DoubleBurst` reaches that bound for every limit, within two microseconds.
- On the other hand the pricing timeline needs no assumption that clocks move forward: the CHECK on
  `effective_to` makes an update with an earlier clock fail.

## Model

| member | source | states |
|---|---|---|
| Calendar.PeriodWindow | internal/limits/reservation_service.go:414-427 | the window computed for an instant, by UTC day or calendar month with leap years, contains the instant |
| Calendar.WindowsTile | internal/limits/reservation_service.go:414-427 | the windows of any two instants are equal or disjoint, so an amount belongs to one counter |
| Calendar.WindowBounds | internal/limits/reservation_service.go:414-427 | a daily window is 86,400 seconds from a UTC midnight, a monthly one runs from the first of a month to the first of the next |
| Calendar.YearStarts | internal/limits/reservation_service.go:414-427 | the recursive month count agrees with the Gregorian closed form: January of year y+1 starts after 365y + y/4 - y/100 + y/400 days |
| Calendar.MonthsOfYear | internal/limits/reservation_service.go:414-427 | every month of a year starts after the days of the months before it, leap day included |
| Constraints.OrgLimitIsLeast | internal/limits/reservation_service.go:325-334 | an organization's limit for a period is the least among its active blocking budgets, and absent exactly when it has none |
| Constraints.LoadedExactly | internal/limits/reservation_service.go:323-372 | the constraints loaded are exactly those in force: organization budgets, and key quotas whose action is block |
| Constraints.LoadedMeans | internal/limits/reservation_service.go:323-372 | the same in columns: loading fails exactly without a key of that organization; an organization constraint carries the smallest limit among its active blocking budgets of the period, a key constraint the key's own daily or monthly limit if the key blocks |
| Constraints.LoadedInRankOrder | internal/limits/reservation_service.go:323-372 | constraints come in strictly increasing rank: organization before key, and within each the daily limit before the monthly one |
| ReservationService.Store.LoadBlockingConstraints | internal/limits/reservation_service.go:323-372 | the statements return the constraint list that the lemmas above describe, or an error when the key does not exist |
| ReservationService.Store.EnsureAndLockCounter | internal/limits/reservation_service.go:374-412 | a missing counter is inserted with the sum of the window's costs in scope, an existing one is left alone; it fails exactly when that sum exceeds int64 |
| ReservationService.Store.AdmitOne | internal/limits/reservation_service.go:114-172 | one turn of the loop over constraints has the effect of the ledger's step, which `Admission.OneTurn` decides in plain sums |
| ReservationService.Store.Reserve | internal/limits/reservation_service.go:81-178 | the whole transaction equals the atomic specification. In sums: as long as no int64 operation wraps around, it is allowed if and only if every loaded constraint is passed, then holds min(estimate, limit - used) of each in counter and row, and otherwise answers for the first constraint not passed, with its limit, used and reserved amounts, and leaves the tables as they were. Money is conserved |
| Admission.AdmittedExactly | internal/limits/reservation_service.go:81-178 | for all tables and policies: the outcome is allowed if and only if for every loaded constraint the seed sum is a bigint, used = settled + reserved is below the limit, nothing is used or used plus the estimate is within the limit, the new reserved amount is a bigint, and the request has no row in that slot; an invalid input or an unknown key is an error; all that is written is given row by row and counter by counter |
| Admission.OneTurn | internal/limits/reservation_service.go:114-172 | the same for one constraint |
| Admission.ChargedGrows | internal/limits/reservation_service.go:376-397 | the sum that seeds a counter grows by a cost record if and only if the record is of the same organization, of the key if the limit is the key's, and was completed in the same window |
| Base.WrapsAround | internal/limits/reservation_service.go:122-123 | an int64 sum that leaves its range is the int64 a multiple of 2^64 away |
| Capping.TurnsNeverWrap | internal/limits/reservation_service.go:122-123 | in every run without overcharging, the int64 operations of a turn do not wrap around |
| ReservationService.Store.FinishTx | internal/limits/reservation_service.go:207-321 | selecting live rows in any order, updating their counters one by one and then the rows equals the atomic specification; it fails exactly when the specification does |
| ReservationService.Store.Settle | internal/limits/reservation_service.go:180-193 | settles every live row of a request at the cost, takes each row's own amount off its counter and adds the cost, and touches nothing else; it succeeds exactly for a request id, a non-negative cost and sums within bigint, and otherwise leaves the tables unchanged; conserves money |
| ReservationService.Store.Release | internal/limits/reservation_service.go:195-205 | releases every live row of a request, takes each row's own amount off its counter and touches nothing else; fails only for the nil id; conserves money |
| Conservation.ReserveStepShape | internal/limits/reservation_service.go:114-172 | a granted step ensures one counter and, unless the amount is zero, raises it and appends one row for the same amount |
| Conservation.ReserveConserves | internal/limits/reservation_service.go:81-178 | Reserve keeps: reserved is the sum of live rows, settled is the seed plus the sum of settled rows, on every counter |
| Conservation.FinishConserves | internal/limits/reservation_service.go:207-321 | Settle and Release keep the same, for any request and cost |
| Conservation.FinishedExactly | internal/limits/reservation_service.go:207-321 | when a finish goes through, and what it leaves, row by row and counter by counter: statuses, settled and reserved amounts |
| Conservation.RunConserves | internal/limits/reservation_service.go:81-321 | the same holds after any run of Reserve, RecordSuccess, RecordFailure, Settle and Release |
| Conservation.ClampNeverFires | internal/limits/reservation_service.go:243-256 | a counter always holds at least what a live row takes back, so GREATEST(reserved - amount, 0) never clamps |
| Conservation.FinishTwice | internal/limits/reservation_service.go:207-321 | settling or releasing a finished request again changes nothing |
| Conservation.Close2Commutes | internal/limits/reservation_service.go:207-321 | finishing two different requests gives the same tables, or fails, in either order |
| Conservation.OrderIndependent | internal/limits/reservation_service.go:207-321 | finishing any batch of distinct requests gives the same tables, or fails, in every order of the batch |
| Overspend.AdmissionBounded | internal/limits/reservation_service.go:122-150 | a granted amount is the full estimate and fits under the limit with everything outstanding, or it is capped to the limit on a counter that nothing uses; while a capped row is live nobody else is admitted |
| Overspend.OverspendBound | internal/limits/reservation_service.go:122-150 | after any run with a fixed limit, in which no settlement on the counter exceeds the estimate its reservation was made for, settled plus reserved, and even settled plus every outstanding estimate, is at most the maximum of the limit, the seed and the largest estimate admitted through the cap; request ids may be reused with other estimates |
| Overspend.LimitHoldsExactly | internal/limits/reservation_service.go:122-150 | with a seed within the limit, settled plus every outstanding estimate stays within the limit after every step of the run if and only if no step admitted a request through the cap |
| Capping.CappedExactly | internal/limits/reservation_service.go:122-147 | a Reserve that goes through is capped on a counter exactly when nothing of it is used and the estimate exceeds the limit |
| Capping.CapsExactly | internal/limits/reservation_service.go:122-147 | in a run, the same as a condition on the tables before the step |
| Capping.SmallEstimatesWithin | internal/limits/reservation_service.go:122-150 | estimates within the limit never overshoot it, in any run |
| Overspend.CapOvershoots | internal/limits/reservation_service.go:133-150 | the cap exception is real: for every limit and every larger estimate there is a run that settles the whole estimate |
| LedgerDrift.ReserveKeepsSettled | internal/limits/reservation_service.go:374-412 | Reserve never changes what is settled on an existing counter and seeds a new one with the ledger's sum |
| LedgerDrift.RunDrift | internal/limits/reservation_service.go:376-411 | after any run, the ledger's sum in a counter's scope and window minus its settled amount is exactly: costs recorded there by requests without a live reservation on it, minus amounts settled there whose cost is not recorded in the window |
| LedgerDrift.TracksLedger | internal/metering/service.go:176-269 | without such events the counter equals the sum of the cost records |
| LedgerDrift.TracksExactly | internal/metering/service.go:176-269 | counter and ledger are equal after every step if and only if each step adds the same to both |
| Interleaving.DeltaLocal | internal/limits/reservation_service.go:114-172 | what a Reserve has written so far depends only on the counters it holds locked, the effect of the sums it used, and the slots of its own request |
| Interleaving.FinishWritesAll | internal/limits/reservation_service.go:207-321 | row-by-row updates under locks, if they reached every live row, equal the atomic finish of the current tables |
| Interleaving.FinishAtomicExactly | internal/limits/reservation_service.go:207-321 | committing a finish has its atomic effect if and only if every live row of the request was locked and updated |
| Interleaving.MissedRowsAreLate | internal/limits/reservation_service.go:214-219 | a finish that has scanned and updated can only miss rows committed after its snapshot |
| Serializability.CostKeepsExactly | internal/limits/reservation_service.go:376-397 | a committed cost leaves an open Reserve right if and only if each sum it used over a window with that cost was for an existing counter and still fits in a bigint |
| Serializability.StepSoundExactly | internal/limits/reservation_service.go:81-321 | a step keeps every open transaction right and has the effect and answer of its atomic form if and only if it is orderly; only commits of a finish can fail to be |
| Serializability.InterleavingRefinesAtomic | internal/limits/reservation_service.go:81-321 | for any number of concurrent transactions, with any request ids, and any orderly interleaving, the committed tables are those of the atomic transactions in commit order, with the same answers, and money is conserved |
| Concurrent.InterleavingAsRun | internal/limits/reservation_service.go:81-321 | the committed tables of any orderly interleaving are those of a run of atomic transactions, one for each that ended, with policies that load the constraints it walked |
| Concurrent.ConcurrentOverspend | internal/limits/reservation_service.go:122-150 | the overspend bound holds for any number of concurrent transactions under any orderly interleaving, whatever list of atomic transactions describes what was committed |
| Concurrent.ConcurrentDrift | internal/limits/reservation_service.go:376-411 | so does the exact difference between a counter and the ledger |
| Anomalies.SeedRace | internal/limits/reservation_service.go:376-397 | a reachable run in which a cost committed between a Reserve's seeding and its commit makes the result differ from both serial orders |
| Anomalies.ReusedRequestLeaks | internal/limits/reservation_service.go:301-321 | a reachable run with a reused request id in which every row is released and a counter still has an amount reserved |
| Deadlock.ReachableClimbing | internal/limits/reservation_service.go:113-121 | in every reachable state each Reserve holds only counters below the one it will lock next |
| Deadlock.NoWaitCycle | internal/limits/reservation_service.go:113-121 | the waits-for relation among Reserves has no cycle in any reachable state |
| Deadlock.ReservesNeverStuck | internal/limits/reservation_service.go:113-121 | whenever only Reserves are open, at least one of them can take its next step |
| Calculator.CalculateExact | internal/costing/calculator.go:31-77 | each side is its exact rational cost rounded down, and the result is an error exactly when their sum exceeds int64 |
| Calculator.BilledExactly | internal/costing/calculator.go:31-77 | a calculation gives a total if and only if it is the sum of the two prices rounded down and fits in int64 |
| Calculator.CalculateMonotone | internal/costing/calculator.go:31-77 | more tokens never cost less, and if the larger count can be priced so can the smaller |
| Calculator.TruncationError | internal/costing/calculator.go:70-77 | over n requests the truncated costs sum to at most the truncated cost of all tokens, and fall short of the exact cost by less than n micro-USD |
| Estimate.EstimatePromptTokens | internal/gateway/chat_service.go:1061-1074 | the smallest number of tokens of four runes each that covers all messages, at least one for a request with messages, and none without |
| Estimate.EstimateReservationCost | internal/gateway/chat_service.go:1017-1037 | the loop returns the cost of the dearest model, and an error exactly when some model cannot be priced |
| Estimate.ExpectedMeans | internal/gateway/chat_service.go:1017-1051 | a model is estimated at the price of the prompt estimate and of max_tokens, or of what the context window leaves, or of 4096 tokens |
| Estimate.ChargeWithinEstimate | internal/gateway/chat_service.go:1017-1051 | whichever of the models serves, with tokens within the estimates and at the same price, the charge exists and is at most the estimate |
| Pricing.TimelinePartitions | internal/costing/pricing_service.go:98-156 | from creation on, every instant is covered by exactly one version |
| Pricing.ActiveIsModelPrice | internal/costing/pricing_service.go:98-156 | exactly the last version is active, and its price is the one on the model row |
| Pricing.RepricedTimeline | internal/costing/pricing_service.go:98-156 | a price change keeps the timeline: numbers 1..n, one active version, adjoining intervals |
| Pricing.StatementsReprice | internal/costing/pricing_service.go:98-156 | superseding the active row, updating the model and inserting version MAX+1 amounts to closing the last interval and appending one, and never clashes on the version number |
| Pricing.PricingService.CreateModel | internal/costing/pricing_service.go:65-83 | succeeds exactly for a new model with an identity and non-negative prices, and starts its timeline |
| Pricing.PricingService.UpdateModelPricing | internal/costing/pricing_service.go:85-161 | succeeds exactly for an existing model and an admissible price and clock; then only that listing changes, and the old and new versions are returned; otherwise nothing changes |
| Metering.Service.RecordSuccess | internal/metering/service.go:170-269 | request log, cost record and settlement take effect together or not at all; the cost record's total is the price of prompt plus completion at the active version, each rounded down, and the live rows are settled at it; money is conserved |
| Metering.RecordedExactly | internal/metering/service.go:170-269 | from pricing timelines and conserved tables: a valid request without a log row is charged if and only if its model has an active version, the total of its prompt and completion price, each rounded down, is an int64 and fits on its counters; the cost record carries that total with the input's request, organization, key and completion time |
| Metering.Service.RecordFailure | internal/metering/service.go:304-364 | succeeds exactly for valid input whose request has no log row yet, adds that row, and touches neither counters nor reservations |
| EndToEnd.PlayListed | internal/costing/pricing_service.go:65-156 | after any run of model creation, price changes and requests, every model's versions form a timeline |
| EndToEnd.PlayIsRun | internal/metering/service.go:170-269 | a run of requests, price changes and failures is, for the ledger, a run of its own events |
| EndToEnd.SettlesWithinQuote | internal/gateway/chat_service.go:1017-1051 | a request served by a quoted model, within the estimated tokens and at the quoted price, is charged at most its quote |
| EndToEnd.NoOverspend | internal/gateway/chat_service.go:984-1051 | in any run in which requests with a reservation on a counter are served as that reservation was quoted, the counter does not exceed the maximum of its limit, its seed and the largest capped estimate |
| EndToEnd.ConcurrentNoOverspend | internal/gateway/chat_service.go:984-1051 | the same for any orderly interleaving of the transactions, with prices changing between them |
| EndToEnd.QuotedOvershoot | internal/limits/reservation_service.go:133-150 | those conditions can be met, and the capped term is needed even then: under any positive limit up to the token range, one request served exactly as quoted settles more than the limit |
| Gateway.ChatProviderWithRetry | internal/gateway/chat_service.go:1121-1146 | calls go on exactly while they fail with a timeout, an unavailable provider or a retryable error, are not cancelled or interrupted, and retries are left; the answer is that of the last call or of the interrupted wait |
| Gateway.TryTargets | internal/gateway/chat_service.go:448-510 | the targets tried are a prefix of the list (one unless the strategy is fallback), all but the last failed retryably, the selected one produced the response, and every recorded attempt is what happened |
| Gateway.CallsBounded | internal/gateway/chat_service.go:1121-1146 | adapter calls are at most (retries + 1) times the targets tried |
| Disposition.ChatService.ReserveProviderCost | internal/gateway/chat_service.go:984-1015 | an active reservation means the request's rows were inserted as reserved; without one nothing was, unless a commit was reported as failed; tables and answer are those of the estimate's reservation |
| Disposition.ReservingMeans | internal/gateway/chat_service.go:984-1037 | an active reservation is the allowed Reserve of the positive estimate; only a request estimated to cost nothing goes on without one; with a working transaction, a request is refused only if it cannot be estimated or its Reserve is not allowed, and a blocked one is logged |
| Disposition.ChatService.Serve | internal/gateway/chat_service.go:443-567 | after the reservation: the response of the selected target is recorded at its cost, or the failure is logged and the reservation released; tables and answer are determined by the attempts |
| Disposition.RecordingMeans | internal/gateway/chat_service.go:538-567 | a served request is paid if and only if it is a valid success without a log row whose price at the active version fits everywhere, and its transaction commits: one cost record, one log row, live rows settled; its caller hears of it unless the acknowledgement is lost. Otherwise nothing is charged and an active reservation is released |
| Disposition.ConcludedMeans | internal/gateway/chat_service.go:443-567 | a request whose last attempt answered is paid or given back as above, with the answer that says so; any other is logged as failed, released, and answered with the error of the last attempt, or as unavailable when the fallbacks are exhausted |
| Disposition.ChatService.Chat | internal/gateway/chat_service.go:428-567 | on every way out, a request that reserved has all its rows settled at the cost reported, or all released, never both, never left reserved. When it answers, the cost is the price of the usage answered at the active version of the target that served, and exactly one cost record with it was added; one whose last attempt answered and whose record is committed is answered if and only if it can be charged; otherwise there is no cost record unless the acknowledgement was lost. A request that had nothing live has something live afterwards if and only if its reservation was committed with the acknowledgement lost and inserted rows |
| Disposition.LostAckLeavesRow | internal/gateway/chat_service.go:996-1004 | under any limit there is such a request: its row stays reserved and the gateway does not know |
| Disposition.StreamService.StreamChat | internal/gateway/chat_stream_service.go:147-221 | the reservation is released on every failure, and handed over intact with the stream; nothing is charged |
| Disposition.OpeningMeans | internal/gateway/chat_stream_service.go:147-221 | there is a stream if and only if the request may go on and the first target answers; without one the failure is logged and the reservation given back |
| Disposition.StreamService.FinalizeStream | internal/gateway/chat_stream_service.go:223-309 | a stream that ended without error and with usage is paid, its cost told, under the same condition as a served request of `Chat`, and given back otherwise; a stream that failed or reported no usage is logged, released and not charged |
| Disposition.FinalizingMeans | internal/gateway/chat_stream_service.go:223-309 | the same of the specification, in the columns of the tables |
| Disposition.StreamService.StreamRequest | internal/gateway/chat_stream_service.go:147-309 | the two together dispose of every reservation exactly once, add exactly the one cost record told, and leave something live under the same condition as `Chat` |
| Routing.OrdersDecide | internal/routing/resolver.go:370-400 | all three comparisons are strict orders that decide between any two targets with different ids |
| Routing.OrdersMean | internal/routing/resolver.go:370-400 | sorted by cost: cost ascends, at equal cost priority, then id; by latency: measured before unmeasured, 95th percentile, then median, ascending, then priority and id; by priority: priority, then id |
| Routing.ResolveLowestCostTargets | internal/routing/resolver.go:273-334 | the result is exactly the targets whose token price is within the cap, cheapest first, ties by priority and id; if all are dearer, all of them by priority and id, unless the policy forbids it; errors exactly for an invalid policy or a target that cannot be priced |
| Routing.EstimableMeans | internal/routing/resolver.go:273-308 | a target cannot be priced exactly if its model has a negative price or the total is no int64 |
| Routing.LowestCostCanonical | internal/routing/resolver.go:273-308 | the answer depends only on which targets there are, not on the order they came in |
| Routing.ResolveLowestLatencyTargets | internal/routing/resolver.go:336-388 | all targets with the latency measured for their provider and model: measured ones before unmeasured, by p95, then p50, ascending, then priority and id |
| Routing.RankingUnique | internal/routing/resolver.go:370-400 | a ranking of given targets by any of the orders is unique |
| Routing.CandidatesMean | internal/routing/resolver.go:213-244 | the ranking strategies drop unusable targets, the others reject the route; nobody accepts a missing provider or model |
| Routing.ResolveTargets | internal/routing/resolver.go:182-265 | the result is the strategy's answer for the usable targets, never an empty list |
| Sorting.StableSortSorts | internal/routing/resolver.go:370-400 | the stable sort returns a sorted permutation for every strict weak order |
| Sorting.StableSortStable | internal/policy/pii_detector.go:40-45 | elements that tie keep their order |
| RateLimit.Redis.IncrementWithTTL | internal/ratelimit/redis_limiter.go:15-21 | the script counts up what has not expired and starts the time to live with the first increment |
| RateLimit.RedisLimiter.Allow | internal/ratelimit/redis_limiter.go:59-99 | the shared counters and the decision are those of one call of the specification: the minute's counter goes up by one, living 120 seconds from the first; allowed if and only if the count is within the limit; the reset time is the end of the minute; without a client it fails and denies |
| RateLimit.StillHeld | internal/ratelimit/redis_limiter.go:80-84 | a counter never expires during its own minute |
| RateLimit.AdmittedByRank | internal/ratelimit/redis_limiter.go:59-99 | over any monotone run, a call is admitted exactly when Redis answered and it is among the first `limit` calls of its minute; the remaining count is what is left of the limit |
| RateLimit.PerMinute | internal/ratelimit/redis_limiter.go:59-99 | per key and minute at most `limit` calls are admitted, and exactly the smaller of calls and limit when Redis always answers |
| RateLimit.AnySixtySeconds | internal/ratelimit/redis_limiter.go:59-99 | any 60 second interval admits at most twice the limit |
| RateLimit.DoubleBurst | internal/ratelimit/redis_limiter.go:59-99 | that bound is reached for every limit |
| Luhn.LuhnValid | internal/policy/pii_detector.go:114-129 | the loop computes the checksum defined digit by digit from the right |
| Luhn.SumByPlaces | internal/policy/pii_detector.go:114-129 | counting from the right, odd places add their digit, even places the digits of its double; from a number of zeros, which sums to zero, this gives every sum |
| Luhn.SumOfZeros | internal/policy/pii_detector.go:114-129 | zeros add nothing, at any place |
| Luhn.SingleErrorDetected | internal/policy/pii_detector.go:114-129 | in a valid number of any length, changing any one digit is detected |
| Luhn.SwapDetected | internal/policy/pii_detector.go:114-129 | swapping two neighbouring digits goes unnoticed exactly for equal digits and for 0 next to 9 |
| Detection.OverlapsType | internal/policy/pii_detector.go:92-102 | true exactly when some hit of the kind overlaps the span |
| Detection.DigitsJoin | internal/policy/pii_detector.go:104-112 | what is kept of a text are its characters 0 to 9, in order |
| Detection.Detect | internal/policy/pii_detector.go:34-90 | for any matches within the text, the hits are the stable sort of what the four detectors append, by start and then by end, and within the text |
| Detection.DetectedExactly | internal/policy/pii_detector.go:34-102 | a hit is reported exactly when its match qualifies: a card has 13 to 19 digits and a valid checksum, a phone overlaps no reported card; equal spans keep detector order |
| Redaction.MergeHits | internal/policy/redactor.go:24-47 | for hits in order: sorted disjoint pieces, each hit inside one, each piece held together by its hits and labelled with its first |
| Redaction.FirstKindMeans | internal/policy/redactor.go:24-47 | a piece's label is the kind of the first hit in the list that starts where it does |
| Redaction.SameCover | internal/policy/redactor.go:24-47 | the pieces cover exactly the positions the hits cover |
| Redaction.SameStarts | internal/policy/redactor.go:24-47 | the pieces begin exactly where maximal groups of overlapping hits begin |
| Redaction.Redact | internal/policy/redactor.go:5-22 | for hits in order the result is the text's bytes outside every hit, in order, with one tag at the start of each maximal group and no byte of any hit; for other hits all slices stay in bounds |
| Redaction.TagsRead | internal/policy/redactor.go:17 | the four tags, letter by letter |
| Detection.RedactMessage | internal/gateway/chat_service.go:846-854 | a message is rewritten by exactly the hits that qualify |
| Sse.ReadStream | internal/provider/openai_compatible/stream_adapter.go:122-173 | the loop emits the events of the reading function, and fails exactly when the connection broke before an event ended the stream, unless cancelled |
| Sse.ReadMeans | internal/provider/openai_compatible/stream_adapter.go:122-161 | one event per block with data lines, their trimmed payloads joined by line feeds, an unfinished block included, up to the first `[DONE]` |
| Sse.TrimSpaceMeans | internal/provider/openai_compatible/stream_adapter.go:155-160 | trimming removes white space only, and all of it, at both ends |
| Sse.TrimBreaksMeans | internal/provider/openai_compatible/stream_adapter.go:144 | carriage returns and line feeds, and all of them, are cut off the end of a line |
| Sse.JoinMeans | internal/provider/openai_compatible/stream_adapter.go:122-161 | data lines are joined by single line feeds |
| Sse.FrameOfText | internal/provider/openai_compatible/stream_adapter.go:122-161 | every body is such a sequence of blocks, so the previous statement covers all bodies |
| Relay.WriteEvents | internal/http/handlers/gateway/chat_completions_handler.go:99-107 | what has been written is the print of the events up to the first failed write |
| Relay.PrintMeans | internal/http/handlers/gateway/chat_completions_handler.go:103-105 | an event is printed as one `data: ` field and a blank line, and a list of events one after the other |
| Relay.RelayedExactly | internal/http/handlers/gateway/chat_completions_handler.go:103-105 | printed events read back as the same list up to `[DONE]` if and only if every payload is one trimmed line |
| Relay.UnfinishedRelayed | internal/provider/openai_compatible/stream_adapter.go:129-142 | the last event also arrives without the final line feed or without both |
| Pagination.List | internal/http/handlers/admin/request_log_handler.go:61-131 | a page has, newest first, only rows of the organization that match the query in every column and are older than the cursor, and all such rows but those older than the page; there is a next cursor, to the page's last row, exactly when such rows remain; an unusable cursor is refused |
| Pagination.CrashesExactly | internal/http/handlers/admin/request_log_handler.go:113-119 | a page fails hard exactly when the limit is zero, the cursor, if any, is usable, and a row behind it matches |
| Pagination.ListingMembers | internal/store/sqlc/request_logs.sql.go:112-130 | the listing has exactly the matching rows behind the cursor, strictly newest first |
| Pagination.RestOfListing | internal/store/sqlc/request_logs.sql.go:112-130 | behind a page's last row comes exactly the rest of the listing, even after newer rows were inserted |
| Pagination.PagesComplete | internal/http/handlers/admin/request_log_handler.go:77-125 | following the cursor ends after exactly as many pages as the rows need, and the pages together are the listing at the time of the first page, without gap or repetition |

## Left out

- PostgreSQL, Redis, Kafka, ClickHouse and HTTP themselves: tables are maps and sequences, transactions are steps, and calls that can fail are parameters.
- Serializability.InterleavingRefinesAtomic: one direction for whole runs. Its conditions are exact for every single step (`Serializability.StepSoundExactly`), but a run that breaks one may still end well, as when the disturbed Reserve is aborted.
- Interleaving: locking a counter and writing it and its reservation row are one step, and so is each UPDATE; the sum that seeds a counter is a step of its own, before any wait. RecordFailure, which touches no counter or reservation, takes part in the runs of `Conservation` but not in the interleavings.
- Deadlock.ReservesNeverStuck: says nothing about SettleTx and ReleaseTx, whose row query fixes no order of locks.
- EndToEnd.NoOverspend: token counts above the estimates, and price changes between a request's quote and its settlement, are excluded by its conditions.
- The part of `Chat` and `StreamChat` before the reservation: validation, budget and quota warnings, anomaly checks and the exact and semantic caches; after it, cache writes, metrics, tracing and published events.
- An adapter that returns neither a response nor an error, and the handler's early return when the writer cannot flush, which skips FinalizeStream.
- Disposition.ChatService.Chat: the Release transaction itself is taken to succeed, and the request log, cost and reservation tables to be those of one store.
- Authentication, administration of keys, budgets, providers and models, secret rotation, metadata and configuration parsing; they would add only simple members.
- Regular expressions: matches are arbitrary non-empty spans within the text; HitTypes, which lists the kinds found, is not modelled.
- Sse.ReadStream: token usage parsed from an event's JSON is not modelled; text is Unicode characters, so invalid UTF-8 is not.
- Pagination.PagesComplete: filters and time window are the same for all pages, as in a client that sends `from` and `to`; without them the handler's window moves with the clock. Cursors are values; their base64 and JSON form is not modelled. Rows have real start times and ids other than the nil one, which the writers refuse.
- RateLimit.AdmittedByRank: one clock for the gateway and Redis, not before 1970 and never going back; the counter's own 64-bit limit is not modelled.
- Routing.ResolveTargets: database errors, which are passed on, and the parsing of the policy's JSON; latency percentiles are exact reals; ids are numbers in the order of their hexadecimal form.
- Metering.Service.RecordSuccess: provider usage, pricing snapshot and other columns that nothing here reads.
