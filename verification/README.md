# Verified model of the Nexus inference gateway

This project models the stateful core of Nexus in Dafny and proves what that core is for. A request passes
the rate limiter, looks into the semantic cache, and, on a miss, goes through the LLM gateway, which asks the
provider router whom to try first. Conversation memory and the benchmark's percentile summary stand beside
that path.

| file | what it holds |
|---|---|
| `RouterSpec`, `Router` | the router on values (statistics, availability, score, selection) and as the class the program runs |
| `RouterLaws`, `GatewayLaws` | what router and gateway compute, said on raw counts, outcome histories and provider reactions |
| `StepSystems` | runs of any step system: chaining, and the states they pass through |
| `GatewaySpec`, `Gateway` | one attempt, one retry loop, one call on values; the gateway class with its loops, counters and gauges |
| `GatewayRuns` | properties of whole sequential runs: exploration, probe bound, exact exploration cost |
| `GatewayEffort` | how many provider calls and how much time one call can take |
| `GatewayConcurrent`, `GatewayRefinement` | many calls in flight as a step system; the class's calls are executions of it |
| `GatewayProbes` | half-open probes when calls overlap |
| `Keys`, `Redis` | key construction; the expiring store, its commands and the two adapters |
| `RateLimiter`, `RateLimiterProperties` | the check and the log its counters stand for; admission and Retry-After |
| `RateLimiterWorkers`, `RateLimiterTightness` | delayed interleaved workers; executions that attain their bound |
| `JsonStrings`, `Normalization` | the two stored JSON objects; the canonical form of a query |
| `SemanticCache`, `GenerateRoute` | the response cache; the endpoint as a method and as interleaved requests with cache faults |
| `SessionMemory` | bounded memory as a window on an unbounded history |
| `Percentile` | interpolated order statistics |
| `EndToEnd` | limiter, cache, endpoint and the gateways of all processes interleaved on one store |

Conventions of the model:

- Code between two awaits is one step and takes no time. Router and gateway times are reals in seconds; the
  limiter and the store share one timeline of integer milliseconds, of which the limiter reads whole seconds.
- A provider is a script of reactions, one per attempt. `asyncio.wait_for` lets a reaction through that comes
  within the timeout and turns a later one into a timeout at the deadline.
- A labelled Prometheus counter is the multiset of label values it was incremented with; a gauge is a map entry.
- Statistics are keyed by provider name, so names are taken to be distinct and non-blank, and a provider is its name.
- An entry of the store is gone from its expiry on; Redis itself keeps it for one more millisecond, so bounds hold
  of it as they stand, and boundaries (`StoredIsFound`, the delays in `DelayBoundIsAttained`) shift by a millisecond.
- A cache write is sent when the gateway has replied and reaches the store at any later time, or never, whatever
  became of the request. SHA-256 is a parameter; theorems that need it assume that
  no two prompts in use with different normal forms share a hash. The case-folding table is a parameter
  with its assumptions stated (`IsFolding`).
- Every class is proved against functions on values, and the main properties are proved of those functions. What the
  functions themselves compute is stated without their own names: on counts, histories, reactions and literal texts.

Where the code does something its documentation does not lead one to expect, the model follows the code:

- A timeout error raised by the provider itself is not retried but does fall back; a timeout of the gateway's
  own deadline is retried (gateway.py:184-188, 309-353, 431-457).
- The fallback order ignores availability (gateway.py:536-555), so an open breaker keeps a provider from
  being the first choice only.
- An average latency of zero scores as 1.0 (router.py:228-230), so the score is not monotone in the latency of
  the next success: `ScoreFollowsLatency` says exactly when it is, and `InstantSuccessScoresWorse` is an input
  for which it is not.
- Selecting reserves nothing, so a half-open breaker can let several overlapping calls through
  (router.py:101-133): `TwoProbesInFlight` is an execution that does, and `HalfOpenUntilRecorded` says until when.
- Text with a high surrogate code point directly followed by a low one does not survive storage;
  `RereadIsIdentity` says this is the only case.
- An admitted retry after exactly Retry-After seconds is not guaranteed: `RetryAfterCanDisappoint` is an input,
  and `RetryAfterExact` gives the condition.

## Model

| member | source | states |
|---|---|---|
| RouterSpec.StatsAreFoldOfHistory | src/nexus/llm/routing/router.py:15-22 | after any outcome history, requests = successes + failures = its length, total latency is the sum over the successes, consecutive failures is the length of the longest all-failure suffix, and the last failure time is set exactly when that suffix is non-empty |
| RouterSpec.FailureRaisesScore | src/nexus/llm/routing/router.py:218-234 | once a success exists, recording a failure strictly raises the score |
| RouterSpec.QuickSuccessNeverRaisesScore | src/nexus/llm/routing/router.py:218-234 | once a success exists, another one no slower than the average never raises the score, latency zero included |
| RouterSpec.ScoreFollowsLatency | src/nexus/llm/routing/router.py:228-230 | of two possible next successes the faster scores no worse, if and only if it is not the case that it leaves the average at zero while the slower one leaves it positive and below one second |
| RouterSpec.InstantSuccessScoresWorse | src/nexus/llm/routing/router.py:228-230 | the exception occurs: a first success of no latency scores worse than one of half a second |
| RouterSpec.ArgMinIsEarliestMinimum | src/nexus/llm/routing/router.py:128-131 | `min` with a key settles on the earliest of the least elements |
| RouterSpec.UnexploredIsFilter | src/nexus/llm/routing/router.py:113-117 | the scan for untried providers finds exactly those without a request |
| RouterSpec.AvailableIsFilter | src/nexus/llm/routing/router.py:119-123 | the candidates are exactly the available providers |
| RouterSpec.AvailableKeepsOrder | src/nexus/llm/routing/router.py:119-123 | filtering by availability keeps the configured order, so ties go to the earlier provider |
| RouterSpec.CandidatesAreEligible | src/nexus/llm/routing/router.py:119-126 | a provider is scored if and only if it is available, or nobody is |
| RouterSpec.ExploitationCorrect | src/nexus/llm/routing/router.py:119-133 | with all providers tried, the pick is eligible, of least score among the eligible, and earliest among those |
| RouterSpec.SelectionCorrect | src/nexus/llm/routing/router.py:101-133 | the selection is the earliest untried provider, else the earliest eligible one of least score; and no other provider satisfies that description |
| RouterLaws.ScoreOnCounts | src/nexus/llm/routing/router.py:225-234 | on raw counts, the score is the average latency (a second if none is known) plus the share of failures |
| RouterLaws.PairPreference | src/nexus/llm/routing/router.py:119-133 | of two explored, available providers with latency measured, the first is picked if and only if its average latency plus its share of failures is no larger than the second's |
| RouterLaws.PickOnCounts | src/nexus/llm/routing/router.py:119-133 | of any number of such providers, the pick has the least sum of average latency and share of failures among the eligible |
| RouterLaws.FailureCosts | src/nexus/llm/routing/router.py:232-234 | after s successes in r requests, one failure raises the score by exactly s / (r * (r + 1)) |
| RouterLaws.AvailabilityOfHistory | src/nexus/llm/routing/router.py:202-216 | over the outcome history: available if and only if there are fewer than three outcomes, or a success is among the last three, or the last failure is a cooldown ago |
| RouterLaws.RatesOfHistory | src/nexus/llm/routing/router.py:24-43 | success rate, error rate and average latency are the shares and the mean of the outcome history, with their defaults when there is nothing to divide by |
| RouterLaws.ScoreOfHistory | src/nexus/llm/routing/router.py:225-234 | the score over the outcome history |
| Router.ProviderStats.constructor | src/nexus/llm/routing/router.py:9-22 | a new statistics object is the empty history's |
| Router.ProviderRouter.constructor | src/nexus/llm/routing/router.py:94-99 | a new router holds one separate, empty statistics object per provider |
| Router.ProviderRouter.Create | src/nexus/llm/routing/router.py:79-99 | construction succeeds exactly for a non-empty provider list and a positive cooldown, and names the first check that fails |
| Router.ProviderRouter.SelectProvider | src/nexus/llm/routing/router.py:101-133 | the early-return scan, filter and `min` pick the provider that `SelectionCorrect` characterises, and change nothing |
| Router.ProviderRouter.SelectBest | src/nexus/llm/routing/router.py:119-133 | the exploitation phase picks the best of the available providers, or of all when none is |
| Router.ProviderRouter.AvailableProviders | src/nexus/llm/routing/router.py:119-123 | the list comprehension yields the available providers in configured order |
| Router.ProviderRouter.LeastScore | src/nexus/llm/routing/router.py:128-131 | the loop's strict comparison finds the earliest minimum |
| Router.ProviderRouter.IsAvailable | src/nexus/llm/routing/router.py:202-216 | available if and only if fewer than three failures in a row, or the last failure is at least a cooldown ago |
| Router.ProviderRouter.RecordSuccess | src/nexus/llm/routing/router.py:135-159 | a negative latency or an unknown provider is an error and changes nothing; otherwise exactly that provider's entry takes the success, every other entry stays |
| Router.ProviderRouter.RecordFailure | src/nexus/llm/routing/router.py:161-174 | an unknown provider is an error and changes nothing; otherwise exactly that provider's entry takes the failure |
| Router.ProviderRouter.GetStats | src/nexus/llm/routing/router.py:176-193 | returns a fresh object with the current values, so later recording does not show through it |
| Router.ProviderRouter.GetScores | src/nexus/llm/routing/router.py:195-200 | one score record per provider, in configured order, computed from the current statistics |
| Router.ScoreRecordOfHistory | src/nexus/llm/routing/router.py:218-242 | the five reported values of a provider over the history of its outcomes |
| GatewaySpec.RetryLoopEnds | src/nexus/llm/gateway.py:287-481 | the retry loop ends at exactly one attempt: all earlier ones failed retryably, and it either did not or was the last the budget allows |
| GatewaySpec.LastAttemptEnds | src/nexus/llm/gateway.py:287-481 | from any attempt reached by retryable failures, the loop's own recursion arrives at such an attempt |
| GatewaySpec.EndingIs | src/nexus/llm/gateway.py:287-481 | attempts made, time spent (attempts and backoffs) and what leaves the loop are determined by that attempt |
| GatewaySpec.ElapsedIsDuration | src/nexus/llm/gateway.py:155-168 | the routing latency handed to the router is never negative, so `record_success` never rejects it |
| GatewaySpec.OthersIsFilter | src/nexus/llm/gateway.py:549-553 | the loop keeps exactly the providers other than the selected one |
| GatewaySpec.OrderIsPermutation | src/nexus/llm/gateway.py:536-555 | the order tries every configured provider exactly once, the selected one first |
| GatewaySpec.TurnIs | src/nexus/llm/gateway.py:147-252 | a provider's turn is its attempts' counters, then one success or failure record, with a fallback counted only after a transient failure with a successor |
| GatewaySpec.CallIsWalk | src/nexus/llm/gateway.py:118-147 | a call walks a permutation of the providers that begins with the selected one, from unchanged statistics |
| GatewaySpec.CallStops | src/nexus/llm/gateway.py:147-264 | the walk stops at the first provider that does not fail transiently, or at the last; its result and the sum of the turns' times are the call's |
| GatewaySpec.CallRecords | src/nexus/llm/gateway.py:157-252 | every provider up to that one is recorded exactly once, at the time its turn ended |
| GatewaySpec.CallLeavesAlone | src/nexus/llm/gateway.py:147-252 | a provider the call does not reach keeps its statistics |
| GatewaySpec.CallOutcome | src/nexus/llm/gateway.py:140-264 | the nested loops in closed form: exactly one stopping provider exists, and it determines the result (the last provider's error if all end transiently), the duration and every statistics entry |
| GatewayLaws.RetryLaw | src/nexus/llm/gateway.py:303-481 | the error taxonomy on reactions: after k passing reactions (late, rate limited, unavailable) within the budget, an in-time answer at k is the result after k + 1 attempts, an in-time timeout, authentication, response or generic error is the result after k + 1 attempts, and with the budget spent a late reaction is a timeout and any other error is itself |
| GatewayLaws.FirstLastingEnds | src/nexus/llm/gateway.py:303-481 | whichever attempt ends the loop, the first reaction within the budget that will not pass is that attempt's, and its result is the loop's |
| GatewayLaws.DelayLaw | src/nexus/llm/gateway.py:590-599 | the first delay is the base delay, each next one is twice the one before until that exceeds the cap, and the cap from then on |
| GatewayLaws.TimesAreSums | src/nexus/llm/gateway.py:303-307 | attempt time is the sum of the waits, each cut at the timeout, and backoff time the sum of the delays |
| GatewayLaws.ElapsedLaw | src/nexus/llm/gateway.py:155-163 | the routing latency of a turn is the sum of its waits and of the delays between them |
| GatewayLaws.LabelLaw | src/nexus/llm/gateway.py:575-588 | a failed attempt is counted under the one label its reaction shows |
| GatewayLaws.RetriesLaw | src/nexus/llm/gateway.py:309-403 | n retried attempts are n error requests, and n errors and n retries under the labels their reactions show |
| GatewayLaws.CountedLast | src/nexus/llm/gateway.py:309-481 | with the last attempt, the counters are those of all reactions of the turn |
| GatewayLaws.TurnLaw | src/nexus/llm/gateway.py:148-252 | the counters of a turn from the reactions alone, the fallback from this provider to the next included; no other provider's counters move |
| GatewayLaws.CallLaw | src/nexus/llm/gateway.py:147-264 | the next provider is asked exactly after a rate limit, an unavailable provider or a timeout, and any other ending is the call's at once; who is asked how often, and which fallbacks are counted |
| GatewayLaws.OrderLaw | src/nexus/llm/gateway.py:547-555 | the order is the selected provider and then the others exactly as configured |
| GatewayLaws.WholeCallLaw | src/nexus/llm/gateway.py:118-264 | the same for a whole call from its selection on, which is counted once |
| GatewayLaws.RejectionLaw | src/nexus/llm/gateway.py:62-96 | which settings are refused with which complaint, in the order of the checks |
| GatewayLaws.GaugesOfHistory | src/nexus/llm/gateway.py:506-534 | all seven gauge values over the outcome history |
| Gateway.Clock.Pass | src/nexus/llm/gateway.py:590-599 | time moves by exactly what was awaited |
| Gateway.LLMGateway.constructor | src/nexus/llm/gateway.py:57-99 | a new gateway has fresh statistics, empty counters and published gauges, with a 30 second cooldown |
| Gateway.LLMGateway.Create | src/nexus/llm/gateway.py:57-99 | construction succeeds exactly for a non-empty list and valid settings, and otherwise reports the first of the six checks that fails |
| Gateway.LLMGateway.UpdateProviderMetrics | src/nexus/llm/gateway.py:483-534 | all seven gauges of every provider equal freshly computed values; gauges of other names stay |
| GatewaySpec.RefreshOne | src/nexus/llm/gateway.py:491-534 | one loop iteration brings one more provider's gauges up to date and spoils none |
| GatewaySpec.OverlayIsSnapshot | src/nexus/llm/gateway.py:491-534 | once all are up to date, the gauges are the old ones overlaid with a snapshot of the statistics |
| Gateway.LLMGateway.PublishedGauges | src/nexus/llm/gateway.py:491-534 | the loop over the scores covers every provider and touches nothing else |
| Gateway.LLMGateway.GaugeFor | src/nexus/llm/gateway.py:506-534 | five gauge values come from the statistics and two from the score, all of the same provider |
| Gateway.LLMGateway.OrderedProviders | src/nexus/llm/gateway.py:536-555 | the built list is the selected provider and the rest in configured order |
| Gateway.LLMGateway.Backoff | src/nexus/llm/gateway.py:590-599 | the call sleeps base * 2^attempt, capped at the maximum delay |
| Gateway.LLMGateway.CountError | src/nexus/llm/gateway.py:316-324 | an error is counted once as a request and once under its label, no other counter moves |
| Gateway.LLMGateway.CountRetry | src/nexus/llm/gateway.py:338-341 | a retry is counted under its label, no other counter moves |
| Gateway.LLMGateway.CountSuccess | src/nexus/llm/gateway.py:466-469 | a success is counted as a request, no other counter moves |
| Gateway.LLMGateway.CountFallback | src/nexus/llm/gateway.py:206-214 | a fallback is counted with both names, no other counter moves |
| Gateway.LLMGateway.CountSelected | src/nexus/llm/gateway.py:124-126 | a selection is counted under its name, nothing else of the state moves |
| Gateway.LLMGateway.GenerateWithRetry | src/nexus/llm/gateway.py:266-481 | the first reaction within the budget that is neither late, nor rate limited, nor unavailable is the result, unchanged; and the `while True` loop returns what the unique ending attempt yields, spends exactly the attempts' and backoffs' time, and counts one error and one retry per retried attempt and one request for the last |
| Gateway.LLMGateway.RecordSuccess | src/nexus/llm/gateway.py:163-170 | router record and gauges move together: the whole new state is given |
| Gateway.LLMGateway.NoteFailure | src/nexus/llm/gateway.py:189-191 | router record and gauges of a failure, in any of the three branches: the whole new state is given |
| Gateway.LLMGateway.RecordFailure | src/nexus/llm/gateway.py:189-252 | router record, gauges and fallback counter: the whole new state is given |
| Gateway.LLMGateway.TakeTurn | src/nexus/llm/gateway.py:148-252 | one iteration of the provider loop yields the turn's result, time and whole new state |
| Gateway.LLMGateway.Route | src/nexus/llm/gateway.py:118-145 | selects as the router does, counts the selection, publishes, and orders the providers |
| Gateway.LLMGateway.Walk | src/nexus/llm/gateway.py:140-264 | the loop with `last_error` ends as the walk on values does, and the branch "all LLM providers failed" is unreachable |
| Gateway.LLMGateway.Generate | src/nexus/llm/gateway.py:101-264 | state, clock and result after a call equal those of the call on values, on which all run properties are proved |
| GatewayRuns.CallEffect | src/nexus/llm/gateway.py:118-252 | seen from one provider, a call records its outcome exactly once, or leaves it alone if it was not the selected one |
| GatewayRuns.CallKeepsSound | src/nexus/llm/routing/router.py:135-174 | every call keeps the statistics consistent: sums agree and no failure lies in the future |
| GatewayRuns.CallExplores | src/nexus/llm/routing/router.py:113-117 | each call strictly shrinks the set of untried providers while it is non-empty, whether it succeeds or fails |
| GatewayRuns.RunExploresAll | src/nexus/llm/routing/router.py:105-106 | as many calls as there are untried providers leave none untried |
| GatewayRuns.ProbeHasCooledDown | src/nexus/llm/routing/router.py:202-216 | while somebody is available, a first choice whose breaker is open has served its cooldown |
| GatewayRuns.OneMoreCall | src/nexus/llm/routing/router.py:161-174 | a failure in between, first choice or fallback, only pushes the next probe later |
| GatewayRuns.ProbesAreSpaced | src/nexus/llm/routing/router.py:101-133 | in any run in which a provider never answers, first choices of it that find the breaker open come a cooldown after its last failure and a cooldown apart |
| GatewayRuns.SpacedProbesAreFew | src/nexus/llm/routing/router.py:214-216 | probes spaced that way number at most 3 + floor(T / cooldown) in T seconds |
| GatewayRuns.ProbeBound | src/nexus/llm/routing/router.py:101-133 | a provider that never answers is the first choice at most 3 + floor(T / cooldown) times in any sequential run spanning T seconds with somebody available at every selection |
| GatewayRuns.RejectionsProbe | src/nexus/llm/routing/router.py:125-126 | a lone provider that rejects at once is the first choice of every one of n calls, without any time passing |
| GatewayRuns.LoneDeadProviderBreaksBound | src/nexus/llm/routing/router.py:125-126 | the availability hypothesis is needed: for a lone provider, from any state and for any span, there is a run in which it never answers and is the first choice more often than the bound allows |
| GatewayRuns.RejectedCall | src/nexus/llm/gateway.py:226-238 | a call rejected at once takes no time and records one failure of the provider it picked |
| GatewayRuns.ProbedEachCooldown | src/nexus/llm/routing/router.py:202-216 | with two providers that never succeeded, the first is picked again after each cooldown, as long as it lasts |
| GatewayRuns.FirstFour | src/nexus/llm/routing/router.py:113-133 | of four calls rejected at once, two new providers get three and one |
| GatewayRuns.ProbeBoundIsAttained | src/nexus/llm/routing/router.py:101-133 | the bound cannot be improved: for any two providers, cooldown and span, a run with somebody available at every selection picks a provider that never answers exactly 3 + floor(T / cooldown) times |
| GatewayRuns.SteadyPick | src/nexus/llm/routing/router.py:113-133 | with constant latencies the next untried provider is picked, then always the earliest quickest |
| GatewayRuns.ConstantEnding | src/nexus/llm/gateway.py:303-307 | a provider that answers in time takes exactly its latency and one attempt |
| GatewayRuns.ConstantCall | src/nexus/llm/gateway.py:157-182 | such a call lasts the selected provider's latency and records only that provider |
| GatewayRuns.ConstantRun | src/nexus/llm/gateway.py:157-182 | from any intermediate state of such a run, the rest asks the untried providers once each, then only the quickest |
| GatewayRuns.ExplorationCost | src/nexus/llm/routing/router.py:113-133 | k >= n calls over n providers of constant positive latency cost exactly the sum of all latencies plus (k - n) times the least, and every call after the n-th asks the earliest quickest provider |
| GatewayEffort.BackoffBounded | src/nexus/llm/gateway.py:590-599 | n backoffs last at most base * (2^n - 1) and at most n * max |
| GatewayEffort.TurnBounded | src/nexus/llm/gateway.py:287-403 | one provider gets at most max_retries + 1 attempts and at most their timeouts plus the backoffs |
| GatewayEffort.CallsBounded | src/nexus/llm/gateway.py:147-264 | walking n providers takes at most n times that many attempts |
| GatewayEffort.OrderBounded | src/nexus/llm/gateway.py:147-264 | and lasts at most n times the longest turn |
| GatewayEffort.CallsAreCounted | src/nexus/llm/gateway.py:316-324 | the growth of the request counter is exactly the number of provider calls made |
| GatewayEffort.LongestTurnBounded | src/nexus/llm/gateway.py:590-599 | the longest turn in closed form, by both bounds on the backoffs |
| GatewayEffort.CallBounded | src/nexus/llm/gateway.py:147-264 | one call over n providers makes at most n * (max_retries + 1) provider calls and lasts at most n longest turns |
| GatewayConcurrent.StepKeepsReady | src/nexus/llm/gateway.py:147-264 | in any interleaving each call in flight stays on a permutation of the providers and within its retry budget |
| GatewayConcurrent.LandedError | src/nexus/llm/gateway.py:316-341 | counting an error or a retry moves one provider's totals by one and no other's |
| GatewayConcurrent.FailureBalances | src/nexus/llm/gateway.py:189-252 | giving up on a provider keeps errors = retries + router failures, for it and every other |
| GatewayConcurrent.RetryBalances | src/nexus/llm/gateway.py:355-403 | retrying keeps the same balance |
| GatewayConcurrent.SuccessBalances | src/nexus/llm/gateway.py:157-182 | a success keeps success responses = router successes |
| GatewayConcurrent.StepKeepsBalance | src/nexus/llm/gateway.py:147-481 | every step keeps every provider's balance |
| GatewayConcurrent.OneMoreRequest | src/nexus/llm/routing/router.py:154-171 | recording one outcome raises the sum of all providers' requests by exactly one |
| GatewayConcurrent.ReturnKeepsTurns | src/nexus/llm/gateway.py:157-252 | a returning attempt keeps the balance of turns, whether the call ends or moves on |
| GatewayConcurrent.StepKeepsTurns | src/nexus/llm/gateway.py:124-252 | every step keeps: recorded requests + calls in flight + aborted calls = selections + fallbacks |
| GatewayConcurrent.FallbackLands | src/nexus/llm/gateway.py:206-214 | a counted fallback adds one to the provider it leads to and to no other |
| GatewayConcurrent.FlightMoves | src/nexus/llm/gateway.py:147-155 | a call in flight is at exactly one provider: moving it adds one there and takes one where it was |
| GatewayConcurrent.ReturnKeepsTurnsAt | src/nexus/llm/gateway.py:157-252 | a returning attempt keeps every single provider's balance of turns |
| GatewayConcurrent.StepKeepsTurnsAt | src/nexus/llm/gateway.py:124-252 | every step keeps, for each provider: its recorded requests + calls in flight at it + calls aborted at it = its selections + the fallbacks to it |
| GatewayConcurrent.StepKeepsPublished | src/nexus/llm/gateway.py:483-534 | at every await point the gauges are those of the present statistics, as of their last publication |
| GatewayConcurrent.GaugesAgree | src/nexus/llm/gateway.py:528-530 | all gauges are current except health: shown healthy implies available now, shown unhealthy can be stale only because the cooldown expired since |
| GatewayConcurrent.StepKeepsInv | src/nexus/llm/gateway.py:101-481 | all of these together are kept by every step |
| GatewayConcurrent.Conservation | src/nexus/llm/gateway.py:101-481 | at every await point of every interleaving, with cancellations and foreign exceptions included as aborted calls, conservation (per provider and over all) and gauge agreement hold |
| GatewayConcurrent.ExecutionsExtend | src/nexus/llm/gateway.py:101-481 | every possible step can be taken from every reachable state, so the statements about executions are not vacuous |
| GatewayRefinement.RetryExecutes | src/nexus/llm/gateway.py:355-403 | a retried attempt of the loop is four steps of the interleaved system |
| GatewayRefinement.ReturnRecords | src/nexus/llm/gateway.py:405-481 | the step that ends a turn records it on exactly the counters of the whole retry loop, and moves the call on or out of flight |
| GatewayRefinement.LastReturn | src/nexus/llm/gateway.py:405-481 | the step that ends a turn leaves exactly the state of the turn on values |
| GatewayRefinement.LastExecutes | src/nexus/llm/gateway.py:405-481 | the final attempt is two steps that do so |
| GatewayRefinement.TurnExecutes | src/nexus/llm/gateway.py:287-481 | the whole retry loop is a sequence of steps that leaves other calls in flight alone |
| GatewayRefinement.WalkExecutes | src/nexus/llm/gateway.py:147-264 | so is the walk over the providers |
| GatewayRefinement.CallIsExecution | src/nexus/llm/gateway.py:101-264 | a call run to its end is an execution of the interleaved system with the same state and clock, whatever else is in flight |
| GatewayRefinement.RunsKeepInv | src/nexus/llm/gateway.py:101-481 | the invariant survives any sequence of steps |
| GatewayRefinement.CallKeepsBooks | src/nexus/llm/gateway.py:101-264 | hence conservation and gauge agreement hold after every call of the gateway class |
| GatewayProbes.ArrivalsAgree | src/nexus/llm/routing/router.py:101-133 | selecting leaves the statistics alone, so two calls that arrive together take the same order |
| GatewayProbes.StepRecords | src/nexus/llm/routing/router.py:152-174 | a step of the interleaved system leaves an entry alone, or a success that closes the breaker, or a failure stamped now |
| GatewayProbes.EntriesSince | src/nexus/llm/routing/router.py:152-174 | along any execution, an entry that changed since some moment shows it: its breaker is closed or its last failure is later |
| GatewayProbes.HalfOpenUntilRecorded | src/nexus/llm/routing/router.py:202-216 | from a half-open moment on and for less than a cooldown, the breaker is half-open if and only if no outcome of the provider was recorded since |
| GatewayProbes.PickedIsHalfOpen | src/nexus/llm/routing/router.py:119-133 | behind an open breaker a selection comes only once it is half-open, if somebody else would do |
| GatewayProbes.CloseProbesAreUnrecorded | src/nexus/llm/routing/router.py:101-133 | in any execution, two selections of a provider less than a cooldown apart, the later behind an open breaker with somebody available, have no outcome of the provider recorded between them |
| GatewayProbes.StaysOpen | src/nexus/llm/routing/router.py:161-174 | without a success an open breaker stays open, in any interleaving |
| GatewayProbes.FallbacksGrow | src/nexus/llm/gateway.py:206-214 | the fallbacks counted to a provider never decrease |
| GatewayProbes.UnrecordedSelections | src/nexus/llm/gateway.py:124-126 | while nothing is recorded of a provider, its selections since are still in flight at it or were aborted |
| GatewayProbes.ShutIsNotSelected | src/nexus/llm/routing/router.py:202-216 | once something is recorded, a provider that never answers is not selected again before the cooldown is over |
| GatewayProbes.HalfOpenSelections | src/nexus/llm/routing/router.py:101-133 | within one cooldown of a half-open moment, a provider that never answers is selected at most as often as it has calls in flight at the last moment nothing was recorded of it, plus those aborted until then |
| GatewayProbes.RejectedCall | src/nexus/llm/gateway.py:226-238 | a call rejected for good is two steps that record one failure of the selected provider |
| GatewayProbes.BreakerOpens | src/nexus/llm/routing/router.py:161-174 | with any two providers, an execution opens the first one's breaker, leaves the second available, and waits out the cooldown |
| GatewayProbes.TwoProbesInFlight | src/nexus/llm/routing/router.py:101-133 | then two overlapping calls both probe the first provider: an execution that ends there, for any settings |
| Keys.DecimalIsDigits | src/nexus/cache/keys.py:21-26 | a formatted bucket is a non-empty string of digits, so it contains no colon |
| Keys.DecimalInjective | src/nexus/cache/keys.py:21-26 | different buckets format differently |
| Keys.SplitAtLastColon | src/nexus/cache/keys.py:21-26 | what follows the last colon can be recovered, whatever precedes it |
| Keys.RateLimitKeyInjective | src/nexus/cache/keys.py:21-26 | a rate-limit key determines user, window and bucket, for arbitrary user strings |
| Keys.SemanticCacheKeyInjective | src/nexus/cache/keys.py:17-18 | different hashes get different cache keys |
| Keys.SessionMemoryKeyInjective | src/nexus/cache/keys.py:29-30 | different sessions get different keys |
| Keys.DocumentKeyInjective | src/nexus/cache/keys.py:13-14 | different document hashes get different keys |
| Keys.FamiliesDisjoint | src/nexus/cache/keys.py:9-30 | keys of the four families never coincide, for arbitrary user and session strings |
| Keys.DecimalDenotes | src/nexus/cache/keys.py:21-26 | a bucket is written as its decimal numeral, without leading zeros |
| Keys.KeyShapes | src/nexus/cache/keys.py:13-30 | document, cache and session keys in full |
| Keys.RateLimitKeyShapes | src/nexus/cache/keys.py:21-26 | minute and hour keys in full |
| Redis.Server.Incr | src/nexus/cache/adapters/redis.py:24-32 | INCR on a missing or expired key starts at 1 without expiry, keeps the expiry otherwise, and refuses a non-counter |
| Redis.Server.Expire | src/nexus/cache/adapters/redis.py:24-32 | EXPIRE changes the expiry of a live key only |
| Redis.Server.RPush | src/nexus/cache/adapters/redis_memory.py:42-46 | RPUSH appends to a live list or starts one without expiry, and refuses another type |
| Redis.Server.LTrim | src/nexus/cache/adapters/redis_memory.py:42-46 | LTRIM with positions counted from either end keeps that part and the expiry, and removes a list trimmed to nothing |
| Redis.Server.LRange | src/nexus/cache/adapters/redis_memory.py:59-65 | LRANGE yields that part of a live list, nothing for a missing or expired one, and refuses another type |
| Redis.Server.Get | src/nexus/cache/adapters/redis.py:62-71 | GET yields a live text, or a counter as its numeral, and refuses a list |
| Redis.LastItems | src/nexus/cache/adapters/redis_memory.py:42-67 | positions -n to -1 are the last n items in order, or the whole of a shorter list |
| Redis.RedisCacheAdapter.Get | src/nexus/cache/adapters/redis.py:62-71 | a missing key, or one whose expiry has come, reads as nothing; before that the stored text comes back, and a list is an error |
| Redis.RedisCacheAdapter.Set | src/nexus/cache/adapters/redis.py:73-89 | a non-positive TTL is an error and changes nothing; otherwise the key holds the text until the TTL is over |
| Redis.RedisCacheAdapter.Increment | src/nexus/cache/adapters/redis.py:91-124 | the script's two commands together set the expiry exactly when the counter starts, and never extend it |
| Redis.RedisCacheAdapter.Delete | src/nexus/cache/adapters/redis.py:138-139 | the key is gone and 1 is returned exactly if it was live |
| Redis.RedisSessionMemoryAdapter.AppendBounded | src/nexus/cache/adapters/redis_memory.py:28-48 | the transaction's three commands append, keep the last items and renew the expiry; on another type only the expiry changes and the error is raised |
| Redis.RedisSessionMemoryAdapter.GetRecent | src/nexus/cache/adapters/redis_memory.py:50-67 | LRANGE from -max_items to -1 yields the last min(max_items, length) items in order, nothing for a missing or expired list, and an error for another type or a non-positive bound |
| Redis.RedisSessionMemoryAdapter.Delete | src/nexus/cache/adapters/redis_memory.py:69-71 | the key is gone and 1 is returned exactly if it was live |
| Redis.RefusedArguments | src/nexus/cache/adapters/redis.py:80-113 | which arguments the adapters refuse, with which error, and that nothing changes then |
| Redis.WrittenIsRead | src/nexus/cache/adapters/redis.py:73-89 | what was written is read back until its TTL is over, for good without one, and no other key changes |
| Redis.IncrementedIsRead | src/nexus/cache/adapters/redis.py:24-32 | a counter starts at one, goes up by one, and is gone a TTL after it started, not after it was last raised |
| Redis.WrongTypeLaw | src/nexus/cache/adapters/redis_memory.py:41-48 | a live value of another type is refused: counting changes nothing, appending only renews its expiry, reading a list as text is an error and nothing else is |
| Redis.DeletedIsGone | src/nexus/cache/adapters/redis.py:138-139 | a deleted key reads as nothing, the count says whether it was there, and no other key changes |
| RateLimiter.RateLimiter.Create | src/nexus/cache/services/rate_limiter.py:39-56 | construction succeeds exactly for two positive limits and names the first bad one |
| RateLimiter.RateLimiter.Check | src/nexus/cache/services/rate_limiter.py:58-109 | two increments in sequence and the branches on the limits yield the verdict and store that the check on values gives, errors included |
| RateLimiter.HitAgrees | src/nexus/cache/adapters/redis.py:24-32 | an increment returns one more than the log counts and keeps counters and log in agreement for every bucket to come |
| RateLimiter.HitLeavesOthers | src/nexus/cache/services/rate_limiter.py:64-82 | it leaves the other window's counters in agreement |
| RateLimiter.CheckAgrees | src/nexus/cache/services/rate_limiter.py:58-109 | a check returns the verdict for the log's counts and keeps both windows in agreement |
| RateLimiter.CountersAreTheLog | src/nexus/cache/services/rate_limiter.py:59-82 | after any history of checks and foreign writes, every live counter of a current or future bucket equals the full log's count and outlives its bucket |
| RateLimiter.CheckCountsTheLog | src/nexus/cache/services/rate_limiter.py:58-109 | despite expiry, each check's counts are 1 + the number of earlier checks, admitted or refused, of that user in the same bucket |
| RateLimiterProperties.RejectionLaw | src/nexus/cache/services/rate_limiter.py:48-56 | which limits are refused, the minute's first |
| RateLimiterProperties.CountIsCardinality | src/nexus/cache/services/rate_limiter.py:59-72 | the log's count is the number of checks of that user whose time falls in that minute or hour |
| RateLimiterProperties.CheckReports | src/nexus/cache/services/rate_limiter.py:58-109 | all six reported values over the log and the limits: both counts, both limits, admission if and only if neither count exceeds its limit, and the wait for the next hour, the next minute, or none |
| RateLimiterProperties.AdmittedSplits | src/nexus/cache/services/rate_limiter.py:84-87 | admissions over adjacent stretches of time add up |
| RateLimiterProperties.OneBucketAdmits | src/nexus/cache/services/rate_limiter.py:84-87 | within one bucket at most the limit is admitted |
| RateLimiterProperties.BucketsAdmit | src/nexus/cache/services/rate_limiter.py:84-87 | within n buckets at most n times the limit |
| RateLimiterProperties.WindowAdmitsFor | src/nexus/cache/services/rate_limiter.py:58-109 | any stretch of W admits at most limit * (ceil(W / window) + 1), wherever it starts |
| RateLimiterProperties.WindowAdmits | src/nexus/cache/services/rate_limiter.py:58-109 | the same for the minute and the hour together, hence for the smaller bound |
| RateLimiterProperties.HourWaitDominates | src/nexus/cache/services/rate_limiter.py:94-100 | when the hour is exceeded, the maximum is always the hour's term |
| RateLimiterProperties.RemainingIsExact | src/nexus/cache/services/rate_limiter.py:91-95 | the wait ends exactly where the next bucket begins, not a second earlier |
| RateLimiterProperties.ExceededStaysExceeded | src/nexus/cache/services/rate_limiter.py:84-100 | a counter over its limit refuses every check for the rest of its bucket |
| RateLimiterProperties.RetryAfterBlocks | src/nexus/cache/services/rate_limiter.py:84-100 | after a refusal, no check of that user before Retry-After has passed is admitted, whatever happens in between |
| RateLimiterProperties.RetryAfterExact | src/nexus/cache/services/rate_limiter.py:84-100 | the next check at exactly Retry-After is admitted if and only if the hour has rolled over or the refused check's hour count was below the hour limit |
| RateLimiterProperties.RetryAfterCanDisappoint | src/nexus/cache/services/rate_limiter.py:84-100 | the condition can fail: with limits 1 and 2, a check refused with 59 seconds to wait, and the next one refused after exactly 59 seconds |
| RateLimiterProperties.MinuteRollsOver | src/nexus/cache/services/rate_limiter.py:91-100 | by then the minute has always rolled over |
| RateLimiterWorkers.LandsInTime | src/nexus/cache/services/rate_limiter.py:59-82 | an increment within its allowed lateness lands before its bucket's end plus the slack, which is none when it lands in its own bucket |
| RateLimiterWorkers.HitEffect | src/nexus/cache/adapters/redis.py:24-32 | an increment starts an expired or missing counter at 1 with a full window to live, and raises a live one without extending it |
| RateLimiterWorkers.NextLifeBegins | src/nexus/cache/adapters/redis.py:24-32 | a new life of a counter begins a full window after the previous one, so lives are counted by time |
| RateLimiterWorkers.LandingKeepsCounter | src/nexus/cache/adapters/redis.py:24-32 | however late an increment lands, the lives of one counter do not overlap and each life grants at most the limit |
| RateLimiterWorkers.HitKeepsCounters | src/nexus/cache/services/rate_limiter.py:74-82 | the same for all users, windows and buckets at once; increments never meet a foreign type |
| RateLimiterWorkers.StepKeepsInv | src/nexus/cache/services/rate_limiter.py:58-109 | every step of any worker, in any interleaving, keeps the invariant |
| RateLimiterWorkers.Reachable | src/nexus/cache/services/rate_limiter.py:58-109 | so it holds in every reachable state |
| RateLimiterWorkers.InvAdmits | src/nexus/cache/services/rate_limiter.py:84-87 | any state that satisfies the invariant respects the bound below |
| RateLimiterWorkers.DelayedWorkersAdmit | src/nexus/cache/services/rate_limiter.py:58-109 | if increments land at most D after their clock read, one user's checks admitted for one bucket number at most limit * (1 + ceil(D / window)): the limit for D = 0, twice it for D up to a window; and at most the limit if increments land in their own bucket, however late in it |
| RateLimiterWorkers.CheckInSteps | src/nexus/cache/services/rate_limiter.py:58-109 | a check nobody interrupts is three steps of the interleaved system, with the same store and verdict |
| RateLimiterTightness.BothHits | src/nexus/cache/services/rate_limiter.py:74-82 | the two increments of a check raise the window's count by one and the other window's by at most one |
| RateLimiterTightness.AdmitOne | src/nexus/cache/services/rate_limiter.py:74-87 | a waiting worker below both limits can land both increments and be admitted |
| RateLimiterTightness.AdmitMany | src/nexus/cache/services/rate_limiter.py:74-87 | so can as many workers as the limits leave room for, within one life of the counter |
| RateLimiterTightness.StandsInTime | src/nexus/cache/adapters/redis.py:24-32 | time never raises a count, and a window later the life is over and the counter starts afresh |
| RateLimiterTightness.LivesInTurn | src/nexus/cache/services/rate_limiter.py:59-87 | late workers use up one life after the other, all admitted for the first window |
| RateLimiterTightness.FirstLife | src/nexus/cache/services/rate_limiter.py:59-87 | a full limit of checks at time 0 is admitted |
| RateLimiterTightness.LaterLives | src/nexus/cache/services/rate_limiter.py:59-87 | workers that read the clock in the window's last millisecond are admitted in its later lives, a full limit in each |
| RateLimiterTightness.DelayBoundIsAttained | src/nexus/cache/services/rate_limiter.py:59-87 | for the minute and for the hour, for every limit and every delay, an execution admits exactly limit * (1 + ceil(D / window)) checks of one user for one window, provided the other window's limit leaves room and its delay is no shorter |
| JsonStrings.RereadIsIdentity | src/nexus/cache/services/semantic_cache.py:46-55 | text survives storage if and only if no high surrogate is directly followed by a low one; every text of Unicode scalar values does |
| JsonStrings.ScanEscape | src/nexus/cache/services/semantic_cache.py:58-61 | each escape form reads back as its character (section 7 of RFC 8259) |
| JsonStrings.ScanReadsBack | src/nexus/cache/services/semantic_cache.py:46-61 | an escaped string reads back up to its closing quote, for all strings of code points |
| JsonStrings.CachePayloadReadsBack | src/nexus/cache/services/semantic_cache.py:46-61 | the cache's object decodes to the response that was encoded |
| JsonStrings.MessagePayloadReadsBack | src/nexus/cache/services/memory.py:42-48 | the memory's object decodes to the role and content that were encoded |
| JsonStrings.PayloadsAreAscii | src/nexus/cache/services/semantic_cache.py:63-66 | payloads are printable ASCII, so the size compared with the limit is their length |
| JsonStrings.EscapeSizes | src/nexus/cache/services/semantic_cache.py:58-63 | every character is written in 2, 1, 6 or 12 characters, by exactly these ranges |
| JsonStrings.EscapeExamples | src/nexus/cache/services/semantic_cache.py:58-61 | how given characters are written: short escapes, lower-case hex, surrogate pairs (section 7 of RFC 8259) |
| JsonStrings.PayloadShapes | src/nexus/cache/services/memory.py:42-48 | both objects around their strings, without spaces |
| JsonStrings.ReaderExamples | src/nexus/cache/services/semantic_cache.py:46 | the reader also takes capital hex digits and an escaped slash, and refuses raw control characters, unknown escapes and unclosed strings |
| JsonStrings.ScanRest | src/nexus/cache/services/semantic_cache.py:46 | what follows a string is the rest of the input after its closing quote |
| JsonStrings.CachePayloadIsWhole | src/nexus/cache/services/semantic_cache.py:46-51 | whatever reads as a cached response is that object and nothing more |
| JsonStrings.MessagePayloadIsWhole | src/nexus/cache/services/memory.py:73-80 | whatever reads as a message is that object and nothing more |
| Normalization.StripIsRedundant | src/nexus/cache/services/semantic_cache.py:81-83 | the leading `strip` never changes the normal form |
| Normalization.SplitUndoesJoin | src/nexus/cache/services/semantic_cache.py:81-83 | splitting joined words gives the words back |
| Normalization.FoldOfJoin | src/nexus/cache/services/semantic_cache.py:81-83 | folding the joined text is joining the folded words |
| Normalization.NormalizeIsJoin | src/nexus/cache/services/semantic_cache.py:81-83 | the normal form's words are the query's words, case-folded |
| Normalization.NormalFormIsCanonical | src/nexus/cache/services/semantic_cache.py:81-83 | normalisation is idempotent, and two queries share a normal form if and only if their case-folded word lists are equal |
| Normalization.SpacesAreThese | src/nexus/cache/services/semantic_cache.py:81-83 | the 29 characters words are split on |
| Normalization.SplitLaw | src/nexus/cache/services/semantic_cache.py:81-83 | splitting is determined: nothing has no words, a word is one, and any whitespace character separates what is before it from what is after it |
| Normalization.FoldLaw | src/nexus/cache/services/semantic_cache.py:81-83 | folding is determined: each character is replaced by its image |
| Normalization.NormalFormIsTidy | src/nexus/cache/services/semantic_cache.py:81-83 | a normal form has no whitespace at its ends and only single spaces inside, and its words are the query's, case-folded and in order |
| Normalization.CaseDoesNotMatter | src/nexus/cache/services/semantic_cache.py:81-83 | queries that differ only in characters with the same image have the same normal form |
| Normalization.WhitespaceDoesNotMatter | src/nexus/cache/services/semantic_cache.py:81-83 | any whitespace does as well as a single space, repeating it changes nothing, and at the ends it does nothing |
| SemanticCache.SemanticCache.Create | src/nexus/cache/services/semantic_cache.py:22-35 | construction succeeds exactly for a positive TTL and size, and names the first bad one |
| SemanticCache.SemanticCache.Get | src/nexus/cache/services/semantic_cache.py:37-55 | yields what the store holds for the query; a hit or a miss is counted exactly when one is returned, errors count as neither |
| SemanticCache.SemanticCache.Set | src/nexus/cache/services/semantic_cache.py:57-74 | stored if and only if the payload is at most the maximum size and the normal form can be encoded; too large if and only if it exceeds it; a refusal changes nothing |
| SemanticCache.SemanticCache.Delete | src/nexus/cache/services/semantic_cache.py:76-79 | the query's key is gone; an unencodable query is an error and changes nothing |
| SemanticCache.RejectionLaw | src/nexus/cache/services/semantic_cache.py:31-35 | which settings are refused, the TTL first |
| SemanticCache.StoresWhatFits | src/nexus/cache/services/semantic_cache.py:57-74 | a response is stored if and only if its payload is at most the maximum size and the query's normal form has no surrogate; it is too large if and only if its payload is; what is refused changes nothing, what is stored lasts the TTL |
| SemanticCache.StoredIsFound | src/nexus/cache/services/semantic_cache.py:37-74 | a response whose payload fits, for a query that can be encoded, is found for every query of the same normal form until the TTL is over, and not from then on |
| SemanticCache.LookupLaw | src/nexus/cache/services/semantic_cache.py:37-55 | every outcome of a lookup by what is under the query's key: miss, response, invalid payload, store error, unencodable query |
| SemanticCache.DeletedIsMissed | src/nexus/cache/services/semantic_cache.py:76-79 | a deleted query is a miss |
| SemanticCache.StoringIsLocal | src/nexus/cache/services/semantic_cache.py:57-74 | storing leaves every query of another hash as it was |
| GenerateRoute.Generate | src/nexus/api/routes/generate.py:39-122 | a hit answers without the gateway; anything else, a raising cache included, asks it exactly once; its reply is stored unless the write is lost, even if the write raises after it was applied; only an invalid prompt or the gateway can fail the request |
| GenerateRoute.StepKeepsBook | src/nexus/api/routes/generate.py:52-122 | every write to the cache repeats a gateway reply, and no request is on record as asking twice |
| GenerateRoute.StepKeepsCache | src/nexus/api/routes/generate.py:112-116 | every cache entry is what some recorded write left, under foreign writes and with writes that land late, after a cancellation, or never |
| GenerateRoute.StepKeepsAnswers | src/nexus/api/routes/generate.py:52-122 | every answer stays justified by a reply or a write |
| GenerateRoute.Reachable | src/nexus/api/routes/generate.py:39-122 | all of this holds in every reachable state of every interleaving |
| GenerateRoute.CachedAnswersAreSound | src/nexus/api/routes/generate.py:52-87 | an answer from the cache repeats a gateway reply to a prompt of the same normal form, stored less than the TTL before the store was read for it |
| GenerateRoute.CacheIsTransparent | src/nexus/api/routes/generate.py:39-122 | if the gateway's reply depends only on the normal form, cached and fresh answers agree |
| GenerateRoute.StepKeepsEntry | src/nexus/api/routes/generate.py:112-116 | only an eviction or a later write of the same hash takes a cache entry away |
| GenerateRoute.EntryStays | src/nexus/api/routes/generate.py:112-116 | so it stays, over any stretch of an execution without one |
| GenerateRoute.LandedWriteIsHit | src/nexus/api/routes/generate.py:52-87 | what the cache is for: once the write of a fitting reply has landed, a request of the same normal form that looks within the TTL is a hit and does not ask the gateway, unless the entry was evicted or overwritten or reading fails |
| GenerateRoute.AnswerLabels | src/nexus/api/routes/generate.py:22-37 | which prompts are refused, and what an answer says of its source and model |
| GenerateRoute.AskedAtMostOnce | src/nexus/api/routes/generate.py:95-99 | no request asks the gateway twice |
| GenerateRoute.FailuresComeFromGateway | src/nexus/api/routes/generate.py:52-116 | a request is on record as failed with an error if and only if the gateway raised that error for it: no cache fault reaches a client |
| GenerateRoute.NoRequestIsLost | src/nexus/api/routes/generate.py:39-122 | each request that began is in flight, answered, failed by the gateway, or cancelled |
| GenerateRoute.StepMoves | src/nexus/api/routes/generate.py:39-122 | a step lets one request in, moves one on, ends one, or concerns none |
| GenerateRoute.LookRuns | src/nexus/api/routes/generate.py:52-87 | arriving and looking into the cache is a run that leaves the request answerable or asking |
| GenerateRoute.ReplyRuns | src/nexus/api/routes/generate.py:95-122 | from there the gateway's reply, the write in each of its three fates, and the answer are a run |
| GenerateRoute.RequestIsExecution | src/nexus/api/routes/generate.py:39-122 | whatever other requests are doing, a request the endpoint method serves, its write lost, applied, or applied and then failing, is an execution of the interleaved system with the same store, answer and number of gateway calls |
| SessionMemory.AgentMemory.Create | src/nexus/cache/services/memory.py:18-35 | construction succeeds exactly for three positive settings and names the first bad one |
| SessionMemory.AgentMemory.AppendMessage | src/nexus/cache/services/memory.py:37-60 | refused as too large if and only if the payload exceeds the limit, and then nothing changes; otherwise exactly the session's list changes |
| SessionMemory.AgentMemory.RecentMessages | src/nexus/cache/services/memory.py:62-89 | the decoding loop returns all stored messages in order, or fails if any of them does not decode |
| SessionMemory.AgentMemory.ClearSession | src/nexus/cache/services/memory.py:91-94 | exactly the session's key is gone |
| SessionMemory.AppendAgrees | src/nexus/cache/services/memory.py:37-60 | an append keeps the stored list equal to the tail of the remembered history |
| SessionMemory.StoreIsTail | src/nexus/cache/adapters/redis_memory.py:28-48 | after any history, the live list is the last items of everything said since the latest clear or TTL-long silence |
| SessionMemory.OthersLeaveKey | src/nexus/cache/keys.py:29-30 | other sessions, other key families and oversized appends never touch the session |
| SessionMemory.DecodesBack | src/nexus/cache/services/memory.py:70-89 | stored messages decode to what was appended |
| SessionMemory.DecodeLaw | src/nexus/cache/services/memory.py:70-89 | stored values are returned, in order, if and only if every one of them reads as a message; otherwise the payload is invalid |
| SessionMemory.ForeignTypeLaw | src/nexus/cache/adapters/redis_memory.py:28-67 | a session's key that holds something else is the store's error, in reading and in appending |
| SessionMemory.RecentIsLastOfHistory | src/nexus/cache/services/memory.py:62-89 | at any time `get_recent` returns exactly the last k messages since the latest clear or TTL-long silence |
| SessionMemory.RejectionLaw | src/nexus/cache/services/memory.py:27-35 | which settings are refused, in the order of the checks |
| SessionMemory.AppendLaw | src/nexus/cache/services/memory.py:42-60 | a message is refused as too large if and only if its payload exceeds the limit, and then changes nothing; any other is appended unless the key holds another type |
| SessionMemory.OverIsForgotten | src/nexus/cache/adapters/redis_memory.py:41-48 | after a clear, or a TTL later, nothing is remembered |
| SessionMemory.TalkIsRemembered | src/nexus/cache/services/memory.py:37-60 | while a conversation goes on, exactly what was said in it is remembered |
| SessionMemory.RecentOfTalk | src/nexus/cache/services/memory.py:62-89 | `get_recent` returns the last min(N, k) messages of the conversation going on, element by element: those said since the latest clear or TTL-long silence whose payloads are within the limit |
| SessionMemory.ClearedIsEmpty | src/nexus/cache/services/memory.py:91-94 | after a clear there is nothing to read |
| SessionMemory.MessageSurvives | src/nexus/cache/services/memory.py:42-48 | a message comes back unchanged if and only if neither part has a split surrogate pair |
| Percentile.SortSorts | benchmarks/generate_benchmark.py:105 | sorting orders and permutes |
| Percentile.SortedIsUnique | benchmarks/generate_benchmark.py:105 | there is only one ordered arrangement of a collection |
| Percentile.InsertMonotone | benchmarks/generate_benchmark.py:105 | inserting a larger value into a larger list dominates element by element |
| Percentile.SortMonotone | benchmarks/generate_benchmark.py:105 | raising values raises every order statistic |
| Percentile.InterpolateMonotone | benchmarks/generate_benchmark.py:107-120 | interpolation never falls as the position grows, across cell borders too |
| Percentile.InterpolateDominance | benchmarks/generate_benchmark.py:107-120 | interpolation never falls as the ordered values grow |
| Percentile.PercentileMonotone | benchmarks/generate_benchmark.py:98-120 | the percentile never falls as the percentage grows over [0, 100] |
| Percentile.PercentileDominance | benchmarks/generate_benchmark.py:98-120 | replacing every latency by one at least as large never lowers a percentile, in whatever order they were recorded |
| Percentile.PercentileIgnoresOrder | benchmarks/generate_benchmark.py:98-120 | the percentile depends on the collection only, not on its order |
| Percentile.EndPercentiles | benchmarks/generate_benchmark.py:98-120 | the 0th and 100th percentiles are the minimum and the maximum |
| Percentile.CellIsStraight | benchmarks/generate_benchmark.py:107-120 | between two neighbouring positions the value runs along a straight line |
| Percentile.PercentileAtMark | benchmarks/generate_benchmark.py:98-120 | at percentage 100 * k / (n - 1) the percentile is the k-th order statistic |
| Percentile.PercentileOfOne | benchmarks/generate_benchmark.py:113-115 | a single value is every percentile |
| Percentile.PercentileAtMidpoint | benchmarks/generate_benchmark.py:117-120 | between the marks of two neighbours, halfway in percentage is halfway in value |
| Percentile.PercentileReflects | benchmarks/generate_benchmark.py:98-120 | negating all values turns the p-th percentile into the negated (100 - p)-th |
| Percentile.SummaryIsOrdered | benchmarks/generate_benchmark.py:144-168 | a non-empty result has min <= p50 <= p95 <= p99 <= max |
| Percentile.SummaryAddsUp | benchmarks/generate_benchmark.py:123-168 | successes and failures add up to the requests, and both rates lie between 0 and 100 percent |
| Percentile.CountTrueIsCount | benchmarks/generate_benchmark.py:132-134 | successes and failures are counted |
| Percentile.SummaryLaw | benchmarks/generate_benchmark.py:130-168 | every field by counting: both rates are shares in percent, the throughput is requests per second, each zero where there is nothing to divide by, and minimum and maximum are those of the latencies |
| EndToEnd.ServeWritesCache | src/nexus/api/routes/generate.py:112-116 | serving a request writes at most one cache entry, so the limiter sees a foreign write at most |
| EndToEnd.LimitWritesCounter | src/nexus/cache/services/rate_limiter.py:64-82 | a check writes at most one rate-limit counter, never a cache entry |
| EndToEnd.LimiterLives | src/nexus/cache/services/rate_limiter.py:58-109 | the limiter's invariant holds in the composition |
| EndToEnd.RouteSees | src/nexus/api/routes/generate.py:39-122 | every step of the composition is, for the endpoint, one of its own steps or none |
| EndToEnd.RouteLives | src/nexus/api/routes/generate.py:39-122 | so the cache's and the endpoint's invariants hold in the composition |
| EndToEnd.GatewaysLive | src/nexus/llm/gateway.py:101-481 | conservation and gauge agreement hold for the gateway of every process |
| EndToEnd.TicketsKept | src/nexus/api/dependencies.py:18-34 | every request that began used up an admitted check of its own |
| EndToEnd.UnderwayKept | src/nexus/api/routes/generate.py:95-99 | a gateway call in flight belongs to a request that asked and still waits, and that request has no other call in any process |
| EndToEnd.AttendedKept | src/nexus/api/routes/generate.py:95-99 | and conversely, a request that waits for the gateway has a call in flight in some process |
| EndToEnd.TurnAdvances | src/nexus/llm/gateway.py:287-403 | a call that goes on has come further, counted in attempts, by each provider call it starts |
| EndToEnd.StartsProgress | src/nexus/llm/gateway.py:147-403 | a call in flight has started no more provider calls than its progress |
| EndToEnd.BudgetKept | src/nexus/llm/gateway.py:147-403 | no request ever starts more than n * (max_retries + 1) provider calls, and none before it asked |
| EndToEnd.StepKeepsInv | src/nexus/api/routes/generate.py:39-122 | all of this is kept by every step of every process |
| EndToEnd.Reachable | src/nexus/api/routes/generate.py:39-122 | and holds in every reachable state |
| EndToEnd.WaitingHasItsCall | src/nexus/api/routes/generate.py:95-99 | a request that waits for the gateway has exactly one call in flight, in one process |
| EndToEnd.CallIsFree | src/nexus/llm/gateway.py:101-481 | the guards of the composition never stop a call: its attempt can return with any result, its backoff can end, and it can be aborted |
| EndToEnd.LookIsFree | src/nexus/api/routes/generate.py:52-64 | nor a request about to look into the cache, in any process |
| EndToEnd.RequestIsNeverStuck | src/nexus/api/routes/generate.py:39-122 | in every phase a request can move on and can be cancelled; a waiting one through its call |
| EndToEnd.NothingElseIsBlocked | src/nexus/api/dependencies.py:18-34 | a worker's step and a write on its way are possible exactly when they are on their own, and a request can enter exactly with a valid prompt and an admitted check nobody used yet |
| EndToEnd.RequestsAreAdmitted | src/nexus/api/dependencies.py:18-34 | no more requests run on a caller's checks of one bucket than the limiter admitted |
| EndToEnd.StartsAtMost | src/nexus/cache/services/rate_limiter.py:84-87 | in every interleaving of all processes, one caller's checks of one bucket, minute or hour, set off at most limit * (1 + ceil(lateness / window)) * n * (max_retries + 1) provider calls |
| EndToEnd.MinuteStartsAtMost | src/nexus/cache/services/rate_limiter.py:84-87 | with every increment landing in its own bucket, however late in it and whatever is interleaved, the requests one caller gets admitted in a minute start at most minute_limit * n * (max_retries + 1) provider calls |

## Left out

- Tracing spans, log lines, histogram buckets and Prometheus transport.
- The provider clients (HTTP requests and response parsing): a provider is a script of reactions.
- `llm/services/gateway.py`, the request-size guardrail and the provider factory: each is settled by one branch.
- Authentication, HTTP headers and status codes, middleware, configuration loading, application lifespan and deployment files.
- Floating-point rounding: latencies, scores and percentiles are reals.
- Exceptions outside the provider-error family, and cancellation, appear only as aborted calls in `GatewayConcurrent`; a provider that raises Python's own `TimeoutError` reads as a passed deadline.
- Providers sharing a name: the code would merge their statistics; the model takes names to be distinct. The two name-deriving helpers are not part of the model.
- Redis outages inside the limiter, failover, replica clock skew, eviction and 64-bit counter overflow. INCR on a stored text is an error even if the text is a numeral.
- The general JSON grammar: the reader accepts the two compact object shapes the code writes and rejects every other payload.
- The internals of SHA-256 and of the case-folding table.
- Times before the epoch, for which buckets would be negative.
- Percentages outside [0, 100], for which the code extrapolates or fails; no caller passes one.
- GatewayRuns.ProbeBound: bounds sequential runs; overlapping calls can probe together, as `GatewayProbes.TwoProbesInFlight` exhibits, until `GatewayProbes.HalfOpenUntilRecorded` ends it.
- The time an answer takes from the endpoint to the client, and the transit of store commands other than the delay of increments and of cache reads.
- Benchmark request driving, metrics scraping and printing.
