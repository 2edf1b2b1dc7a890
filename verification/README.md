# TrueNow control plane: a verified model

This project models the control logic of TrueNow's gateway and autoscaler in Dafny and proves what it
is for. The gateway decides which requests get in: token buckets in two levels, a circuit breaker, a
bounded priority queue and an adaptive controller. The autoscaler decides how many instances run:
threshold decisions with cooldowns, cascade rules, a controller of instances with ports and a registry,
and a smoothed backpressure level.

`dafny verify dfyconfig.toml` checks the whole project.

## How it is built

- Objects whose methods update fields are classes with the source's loops and branches. A contract ties
  the new state to a function of the old one, and the properties are proved of those functions over
  whole runs: `TokenBucket`, `HierarchicalLimiter`, `CircuitBreaker`, `CascadeManager`, `Search`,
  `Finder`, `InMemoryRegistry`, `PortAllocator`, `ServiceController`, `Coordinator`,
  `AdaptiveController`, `ScalingEngine`.
- Lock-free and channel code is a machine whose step is one atomic action of one goroutine (a load, a
  compare-and-swap, taking a lock, a select, a channel operation). A schedule is any sequence of moves,
  so a statement over schedules covers every interleaving: `BucketMachine`, `ConcurrentLimiter`,
  `TenantMap`, `BreakerMachine`, `BreakerProgress`, `BreakerSticking`, `RequestQueue`, `QueueOrder`.
- Where a function both specifies an operation and is what its method computes, a further lemma says in
  plain numbers, or in terms of a run's history, what that function answers.
- Clock readings, hashes, free ports, process outcomes, collected metrics and the order of map
  iteration are parameters or free choices, so the theorems hold for all of them.

| file | what it models |
|---|---|
| `TokenBucket.dfy`, `Limiter.dfy`, `Shards.dfy` | the buckets and the sharded two-level limiter used by one thread |
| `BucketMachine.dfy` | one bucket shared by any number of threads |
| `TenantMap.dfy` | the double-checked tenant map under its read-write locks |
| `ConcurrentLimiter.dfy` | the two levels shared by any number of callers |
| `CircuitBreaker.dfy` | the breaker with atomic calls, its history and its half-open episodes |
| `BreakerHistory.dfy` | the breaker's answers and states read off the history of its calls |
| `BreakerMachine.dfy` | the breaker's calls step by step, in any interleaving: how many an episode admits |
| `BreakerProgress.dfy` | the same steps by callers that record each outcome once: whether an episode can stay undecided |
| `BreakerSticking.dfy` | which configurations and how many callers that takes |
| `RequestQueue.dfy` | enqueuers, workers and the shutdown drain |
| `QueueOrder.dfy` | which channel a request goes into, and which request is served first |
| `Adaptive.dfy` | the ring of ticks and the two adjusted limits |
| `Graph.dfy`, `CycleSearch.dfy` | walks, cycles and the depth-first search for one |
| `CascadeRules.dfy`, `CascadeKeys.dfy`, `CascadeRounds.dfy`, `CascadeSettling.dfy`, `CascadeHistory.dfy`, `CascadeChain.dfy`, `CascadeManager.dfy` | the rules, their cooldown keys, evaluation rounds, chains and the manager |
| `Registry.dfy`, `PortAllocator.dfy`, `ServiceController.dfy` | instances, their index, their ports and their life cycle |
| `ControllerRuns.dfy` | runs of the controller: who owns a port, and when a channel is closed twice |
| `Smoothing.dfy` | the backpressure level and its sliding window |
| `ScalingEngine.dfy` | thresholds, decisions and cooldowns |
| `Arith.dfy`, `Collections.dfy` | Go's truncating division and conversion; options and windows |

## What the code does not do

Where a property one would expect is false of the code, the model keeps the code, and a theorem says
exactly when the property holds.

- A request for n tokens keeps buckets within capacity if and only if n >= 0; a negative one adds tokens
  (`TokenBucket.ConsumeStaysInRange`).
- A half-open episode admits at most maxRequests + 1 callers before a closing transition has reset the
  counter if and only if no other caller that saw the breaker open is still under way
  (`BreakerMachine.EpisodeAdmitsFewIff`, `BreakerMachine.OverlapIsReachable`). Closing resets the counter
  before it stores the state, so the whole episode can admit maxRequests more, and no more than that; it
  keeps to maxRequests + 1 only if the quota was used up when it started (`BreakerMachine.EpisodeMaximum`,
  `BreakerMachine.ClosingAdmitsMore`).
- A breaker can come to turn callers away for ever if and only if maxFailures >= 8 and there are enough
  concurrent callers (`BreakerSticking.CanStickIff`): callers counted between the entry's reset of the
  counter and its store of the state bring that about (`BreakerSticking.LateProbesStick`). Once all calls
  have returned the counters say whether it can still happen (`BreakerProgress.GetsStuckIff`).
- An accepted request is answered if and only if it was accepted before Shutdown returned
  (`RequestQueue.AnsweredIffAcceptedInTime`, `RequestQueue.LateRequestIsStranded`).
- Valid acyclic cascade rules settle from every start if and only if no snapshot has two rules that apply to one
  service and disagree while no rule upstream asks for a change (`CascadeSettling.AlwaysSettleIff`,
  `CascadeRounds.CascadesSettle`, `CascadeRounds.RivalRulesNeverSettle`).
- Cascade cooldowns are kept apart if and only if no trigger's name is another one followed by an arrow
  (`CascadeKeys.KeysDistinguishRules`, `CascadeKeys.ArrowNamesCollide`).
- A monitor's release keeps port ownership if and only if the port is still its instance's or nobody's; a
  monitor that outlives its instance can put two instances on one port
  (`ServiceController.ReleaseKeepsOwned`, `ControllerRuns.StaleMonitorSharesPort`).
- Stopping an instance, or closing the controller, closes a channel twice if and only if an earlier stop of
  a managed instance failed to kill it (`ControllerRuns.StopClosesTwice`, `ControllerRuns.CloseClosesTwice`).
- The smoothed level is blind if and only if the smoothing window is shorter than the evaluation interval
  (`Smoothing.BlindIffWindowIsShort`); a service with neither instances nor a maximum blinds it too
  (`Smoothing.UndefinedIsBlind`).
- An adaptive limit stays in its bounds, reaches its minimum or reaches its maximum exactly under the
  conditions of `Adaptive.LimitsStayWithin`, `Adaptive.LoweringReachesMin` and `Adaptive.RaisingReachesMax`.
- The engine and the threshold evaluator agree except on a metric that was not collected and has a negative
  threshold while nothing is busy (`ScalingEngine.FlagsAgree`).
- A comment in ScaleService promises to stop the newest instances first; the order is that of a map
  iteration, and the model follows the code by allowing any order.

## Model

| member | source | states |
|---|---|---|
| BucketMachine.TokensStayInRange | services/gateway/internal/ratelimit/hierarchical.go:142-211 | In every interleaving of any number of threads running TryConsume, Return and refill on one bucket, 0 <= tokens <= maxTokens. |
| BucketMachine.TimeIsCreditedOnce | services/gateway/internal/ratelimit/hierarchical.go:182-192 | The successful swaps of lastRefill tile the elapsed time: each starts where the one before ended and moves strictly forward, so no interval is credited twice, whatever the clock does. |
| BucketMachine.RateBound | services/gateway/internal/ratelimit/hierarchical.go:142-211 | Net consumption + tokens + credit in flight <= initial tokens + floor(rate x elapsed / 1e9), at every moment of every interleaving. |
| BucketMachine.RefillShortfall | services/gateway/internal/ratelimit/hierarchical.go:194-198 | k refills grant at most the exact credit and fall short of it by less than k tokens. |
| BucketMachine.Linearizable | services/gateway/internal/ratelimit/hierarchical.go:142-211 | The order of the successful swaps is a legal run of an atomic bucket that ends with the same number of tokens. |
| BucketMachine.CallsTakeEffectOnce | services/gateway/internal/ratelimit/hierarchical.go:142-175 | A TryConsume takes its n tokens or is refused exactly once, in the step in which it returns; a Return gives back exactly once; until then neither has any effect beyond refilling. |
| BucketMachine.SoloConsume | services/gateway/internal/ratelimit/hierarchical.go:142-160 | Without interference the step machine and the one-thread bucket agree: same tokens, same lastRefill, same verdict. |
| BucketMachine.SoloVerdict | services/gateway/internal/ratelimit/hierarchical.go:142-160 | In numbers: an undisturbed TryConsume(n) is refused if and only if the bucket holds fewer than n tokens and would also with floor((now - lastRefill) x rate / 10^9) more, up to its capacity; otherwise it takes n, refilling only a short bucket. |
| BucketMachine.SoloRefill | services/gateway/internal/ratelimit/hierarchical.go:178-220 | An undisturbed refill, as the refill loop starts it, adds that credit up to the capacity and moves lastRefill to the clock reading. |
| BucketMachine.SoloReturn | services/gateway/internal/ratelimit/hierarchical.go:163-175 | An undisturbed Return adds n, up to the capacity. |
| BucketMachine.LostRaceRetries | services/gateway/internal/ratelimit/hierarchical.go:155-210 | A swap that fails because of another thread changes nothing but its own thread's place: back to the load, or, for lastRefill, out of the refill. |
| BucketMachine.AloneIsARun | services/gateway/internal/ratelimit/hierarchical.go:142-160 | Running one thread alone is one of the interleavings the other results range over. |
| TokenBucket.ReturnUndoesConsume | services/gateway/internal/ratelimit/hierarchical.go:142-175 | Giving back what was just taken restores the bucket exactly when it did not hold more than its capacity. |
| TokenBucket.ConsumeStaysInRange | services/gateway/internal/ratelimit/hierarchical.go:142-160 | Requests for n tokens keep every bucket within its capacity if and only if n >= 0; a negative n passes the balance test and adds tokens. |
| TokenBucket.RefillCredits | services/gateway/internal/ratelimit/hierarchical.go:178-211 | A refill adds floor(elapsed x rate / 10^9) tokens if that is positive, up to the capacity, and notes the later of the two times. |
| TokenBucket.ConsumeTakes | services/gateway/internal/ratelimit/hierarchical.go:142-160 | A request is refused if and only if the bucket is short and would be short after a refill; otherwise exactly n are taken, and a bucket that is not short is not refilled. |
| TokenBucket.TokenBucket.TryConsume | services/gateway/internal/ratelimit/hierarchical.go:142-160 | The retry loop computes the atomic consume: refill only if short, refuse if still short, otherwise take n. |
| TokenBucket.TokenBucket.Refill | services/gateway/internal/ratelimit/hierarchical.go:178-211 | The refill with its two swaps computes the credit function; lastRefill advances even when the credit rounds down to nothing. |
| TokenBucket.TokenBucket.Return | services/gateway/internal/ratelimit/hierarchical.go:163-175 | Adds n, clamped at the capacity. |
| TokenBucket.TokenBucket.SetLimit | services/gateway/internal/ratelimit/hierarchical.go:236-247 | Both limits become qps and tokens above qps are dropped. |
| Limiter.RefusalOnlyRefills | services/gateway/internal/ratelimit/hierarchical.go:81-93 | A refused request leaves both buckets as they were, or as a refill alone leaves them, and touches no other tenant. |
| Limiter.AdmissionTakesFromBoth | services/gateway/internal/ratelimit/hierarchical.go:81-93 | An admitted request takes exactly n from its tenant's bucket and exactly n from the global one, and nothing from any other tenant. |
| Limiter.AdmittedIff | services/gateway/internal/ratelimit/hierarchical.go:81-139 | A request is admitted if and only if its tenant's bucket and the global one can each give n tokens, if need be after a refill; a new tenant has a full bucket of a tenth of the global rate, but at least 1000. |
| Limiter.RefillLoopCredits | services/gateway/internal/ratelimit/hierarchical.go:214-231 | A turn of the refill loop adds what its bucket has earned and touches no other. |
| Limiter.LimitIsSet | services/gateway/internal/ratelimit/hierarchical.go:235-248 | Setting a limit makes it the capacity and the rate of exactly that tenant and drops only tokens above it. |
| Limiter.LimitBoundsAdmissions | services/gateway/internal/ratelimit/hierarchical.go:81-93 | Over every run after a tenant's limit was set to qps, the tenant is admitted at most qps plus qps for each second since its bucket's last refill before that. |
| Limiter.AdmissionsAreConserved | services/gateway/internal/ratelimit/hierarchical.go:63-93 | Over every sequential run of requests, limit changes and refills, the sum of admissions of all tenants is exactly the global burst plus what refills of the global bucket added (a request that found it short, or the refill loop) less the tokens left there; and with those tokens it is at most the burst plus rate x elapsed time. |
| Limiter.RunKeepsBalance | services/gateway/internal/ratelimit/hierarchical.go:63-93 | After every sequential run from a fresh limiter the admissions, the tokens left and the refills actually made balance, and the refills respect the rate. |
| Limiter.AllowedGlobal | services/gateway/internal/ratelimit/hierarchical.go:81-93 | The global bucket is asked only by a request its tenant admits; it is then refilled if short, and n is taken from it exactly if the request is admitted. |
| ConcurrentLimiter.ConcurrentAdmissionsAreConserved | services/gateway/internal/ratelimit/hierarchical.go:81-93 | Two-level conservation in every interleaving of AllowN calls and refills on the lock-free buckets: what all tenants were admitted is exactly the net consumption of the global bucket, within its initial tokens plus rate x elapsed time. |
| ConcurrentLimiter.TenantsAreConserved | services/gateway/internal/ratelimit/hierarchical.go:81-93 | At every moment a tenant's bucket has given up, net, exactly what the tenant was admitted plus what callers hold between the two levels or are giving back, within the tenant's rate. |
| ConcurrentLimiter.RefusalsCostNothing | services/gateway/internal/ratelimit/hierarchical.go:81-93 | Once all callers have returned, every tenant has been charged exactly what it was admitted, and the global bucket the sum of that. |
| ConcurrentLimiter.SoloAllowN | services/gateway/internal/ratelimit/hierarchical.go:81-93 | A request that nobody interferes with is admitted if and only if both buckets can give n tokens, and then takes n from each; otherwise the tenant's bucket gets back what it gave. |
| ConcurrentLimiter.SoloRefillTurn | services/gateway/internal/ratelimit/hierarchical.go:214-231 | A turn of the refill loop that nobody interferes with refills its bucket. |
| ConcurrentLimiter.NextKeepsAccounts | services/gateway/internal/ratelimit/hierarchical.go:81-211 | Every single move of a caller, in either level and including give-backs, keeps the accounts of all buckets. |
| Limiter.TotalSplits | services/gateway/internal/ratelimit/hierarchical.go:63-93 | The total over tenants does not depend on the order in which they are added up. |
| Limiter.RefillBalance | services/gateway/internal/ratelimit/hierarchical.go:178-211 | A refill of the global bucket adds no more than the rate allows for the time by which lastRefill moved. |
| Limiter.HierarchicalLimiter.AllowN | services/gateway/internal/ratelimit/hierarchical.go:81-93 | On the sharded buckets, with give-back when the global bucket refuses, computes the two-level consume on the flat map of tenants. Allow is the case n = 1. |
| Limiter.HierarchicalLimiter.GetTenantBucket | services/gateway/internal/ratelimit/hierarchical.go:103-139 | Returns the tenant's bucket, creating it with a tenth of the global rate (at least 1000) in the shard of its hash; no other bucket changes. |
| Limiter.HierarchicalLimiter.SetTenantLimit | services/gateway/internal/ratelimit/hierarchical.go:235-248 | Changes exactly the tenant's limits and clamps its tokens. |
| Limiter.HierarchicalLimiter.constructor | services/gateway/internal/ratelimit/hierarchical.go:37-60 | A fresh limiter has a full global bucket and no tenants. |
| TenantMap.RefinesFlatMap | services/gateway/internal/ratelimit/hierarchical.go:96-139 | In every interleaving of getTenantBucket calls and for every hash function, the 32 shards hold exactly one flat map, each tenant only in the shard hash % 32, and stores and answers form a run of an atomic get-or-create. |
| TenantMap.SameTenantSameBucket | services/gateway/internal/ratelimit/hierarchical.go:103-139 | Any two answers, from any threads at any time, are the same bucket if and only if they are for the same tenant. |
| TenantMap.AnswersLast | services/gateway/internal/ratelimit/hierarchical.go:103-139 | A bucket once handed out stays the tenant's bucket. |
| TenantMap.CallsAnswerOnce | services/gateway/internal/ratelimit/hierarchical.go:103-139 | Every call answers exactly once, for its own tenant, in the step in which it returns. |
| TenantMap.GetOrCreateAlone | services/gateway/internal/ratelimit/hierarchical.go:103-139 | An undisturbed call returns the bucket in shard hash % 32, or creates, stores and returns a new one there. |
| TenantMap.StepKeepsInv | services/gateway/internal/ratelimit/hierarchical.go:103-139 | Every locking, lookup, allocation and store step keeps lock exclusion, the shard placement and what each thread between the two checks relies on. |
| Shards.StoreRepresents | services/gateway/internal/ratelimit/hierarchical.go:96-100 | Storing a tenant in the shard of its hash is storing it in the flat map. |
| CircuitBreaker.FailuresAreTheTrailingRun | services/gateway/internal/circuit/breaker.go:99-140 | While closed, `failures` is the number of failures since the last success or closing, and that number is below maxFailures (or zero). |
| CircuitBreaker.OpensAtMaxFailures | services/gateway/internal/circuit/breaker.go:118-129 | A closed breaker opens exactly on the failure that brings the trailing run to maxFailures, and leaves the closed state in no other way. |
| CircuitBreaker.TimeoutBacksOff | services/gateway/internal/circuit/breaker.go:131-139 | After k >= 1 failed half-open episodes in a row the timeout is min(t0 x 2^k, 30s), t0 being the constructor's value before the first closing and 1s afterwards; with none it is t0. |
| BreakerHistory.AdmissionFollowsHistory | services/gateway/internal/circuit/breaker.go:43-140 | After every history a request is admitted always while closed; while open if and only if more than the timeout has passed since the clock of the last failure in the history, the timeout being the constructor's until the first closing and 10^9 ns afterwards, doubled for each failed episode and at most 3 x 10^10; while half-open if and only if fewer than maxFailures / 2 requests came since the one that began the episode. |
| BreakerHistory.StatusFollowsHistory | services/gateway/internal/circuit/breaker.go:72-172 | And the state after any further call, likewise from the history: what opens, half-opens and closes the breaker, with a quarter of maxFailures as the number of successes that closes it. |
| BreakerHistory.CallsAreEvents | services/gateway/internal/circuit/breaker.go:53-69 | A Call asks, and records its own outcome if and only if it was admitted. |
| CircuitBreaker.EpisodeAdmitsFew | services/gateway/internal/circuit/breaker.go:72-96 | When AllowRequest takes effect at once, one half-open episode admits at most maxRequests + 1 requests, however requests of this and earlier episodes finish. |
| BreakerMachine.EpisodeBound | services/gateway/internal/circuit/breaker.go:72-172 | In every interleaving of the single loads, stores, adds and lock operations, from the moment a caller has made the breaker half-open: at most maxRequests + 1 callers are admitted for it and for each other caller that had also seen the breaker open and was still under way, less what the counter then shows as used of the quota, until a closing transition has reset the counter; and at most maxRequests more until it has stored the new state. |
| BreakerMachine.EpisodeMaximum | services/gateway/internal/circuit/breaker.go:72-172 | That is exact, whatever the counter shows: a number bounds every course of a half-open episode if and only if it is at least that sum, two threads being free when the episode starts. |
| BreakerMachine.BeforeClosingMaximum | services/gateway/internal/circuit/breaker.go:72-96 | Likewise for the part of the episode before a closing transition has reset the counter, one thread being free. |
| BreakerMachine.EpisodeAdmitsFewIff | services/gateway/internal/circuit/breaker.go:72-172 | Just after a caller has made the breaker half-open, no course of the episode admits more than maxRequests + 1 callers before a closing transition has reset the counter if and only if no other caller that saw the breaker open is still under way; over the whole episode, if and only if moreover the counter already shows maxRequests or more. |
| BreakerMachine.RunIsLocked | services/gateway/internal/circuit/breaker.go:143-172 | In every run from a fresh breaker, of any calls, only the holder of the lock stores for a transition, and the half-open counter is not negative: what these results ask of a start. |
| BreakerMachine.ClosingAdmitsMore | services/gateway/internal/circuit/breaker.go:143-172 | From a fresh breaker with maxFailures >= 1 and two threads or more, an episode is reached in which nobody else had seen the breaker open and whose exact maximum is 2 x maxRequests + 1 callers, because closing stores the counter before the state. |
| BreakerMachine.OverlapIsReachable | services/gateway/internal/circuit/breaker.go:43-172 | From a fresh breaker, with maxFailures >= 1 and two threads or more, an episode is reached that can admit more than maxRequests + 1 callers before any closing transition. |
| BreakerMachine.SoloCall | services/gateway/internal/circuit/breaker.go:72-172 | A call that nobody interferes with, a reset by hand included, does exactly what the atomic breaker's step says, and is admitted exactly if that says so. |
| BreakerProgress.GetsStuckIff | services/gateway/internal/circuit/breaker.go:72-172 | At a moment of a half-open episode when all calls have returned, some course of the episode ends with the quota used up, nobody running and the breaker half-open if and only if nobody is running and the counter admits nobody, or the successes so far with those of everybody running and everybody still to be admitted fall short of maxRequests / 2. |
| BreakerProgress.StuckForever | services/gateway/internal/circuit/breaker.go:72-172 | From there on no calls of any number of callers, in any interleaving, change that or are admitted, unless the breaker is reset by hand. |
| BreakerSticking.CanStickIff | services/gateway/internal/circuit/breaker.go:43-172 | For every configuration and number of callers: some run from a fresh breaker ends with the quota used up, nobody running and the breaker half-open if and only if maxFailures >= 8 and there are at least maxRequests - maxRequests / 2 + 3 concurrent callers, maxRequests being maxFailures / 2. |
| BreakerSticking.SafeNeverSticks | services/gateway/internal/circuit/breaker.go:72-172 | The half for every run: with fewer callers, or if one success closes the breaker, no interleaving ends there. |
| BreakerSticking.LateProbesStick | services/gateway/internal/circuit/breaker.go:72-172 | The run in all other cases: callers left over from an earlier episode are counted after a new one has reset the counter and before it has stored the state, and their successes are not. |
| BreakerSticking.FreshEpisodeNeverSticks | services/gateway/internal/circuit/breaker.go:72-172 | At any moment of any run: if the breaker is half-open, its counter is zero and some caller is running or about to be admitted by its transition, no course of the episode gets there, whatever the other callers are in the middle of. |
| CircuitBreaker.EpisodeIsDecided | services/gateway/internal/circuit/breaker.go:72-140 | When calls take effect at once and a half-open breaker turns a request away, a probe is still under way; if one fails the breaker opens, if all succeed it closes, so it cannot be stuck. |
| CircuitBreaker.SequentialCallsAreProbed | services/gateway/internal/circuit/breaker.go:53-115 | When calls follow one another none is ever turned away while half-open. |
| CircuitBreaker.ActsKeepEpisodeInv | services/gateway/internal/circuit/breaker.go:72-140 | The relation of admissions, half-open counter, successes and outstanding probes holds in every run of concurrent requests. |
| CircuitBreaker.CircuitBreaker.AllowRequest | services/gateway/internal/circuit/breaker.go:72-96 | Admission and the new state, including Open to HalfOpen strictly after the timeout. |
| CircuitBreaker.CircuitBreaker.RecordSuccess | services/gateway/internal/circuit/breaker.go:99-115 | Resets the failures while closed; closes a half-open breaker at maxRequests / 2 successes. |
| CircuitBreaker.CircuitBreaker.RecordFailure | services/gateway/internal/circuit/breaker.go:118-140 | Counts and opens while closed; reopens a half-open breaker with a doubled, capped timeout; only the time stamp while open. |
| CircuitBreaker.CircuitBreaker.TransitionTo | services/gateway/internal/circuit/breaker.go:143-172 | The counters each transition resets; closing sets the timeout to one second. |
| CircuitBreaker.CircuitBreaker.Execute | services/gateway/internal/circuit/breaker.go:53-69 | Call: a refused call changes what AllowRequest changes and no more; an admitted one records its outcome. |
| CircuitBreaker.CircuitBreaker.Reset | services/gateway/internal/circuit/breaker.go:192-198 | Closes the breaker by hand. |
| RequestQueue.ExactlyOnce | services/gateway/internal/backpressure/queue.go:73-290 | At every moment of every interleaving of enqueuers, workers and the shutdown drain, an accepted request is in exactly one place: one channel, one worker's hands, or answered once; any other request is in none. |
| RequestQueue.CounterIsExact | services/gateway/internal/backpressure/queue.go:73-246 | `queued` = channel contents + enqueuers holding an increment + workers that received and have not decremented + requests answered by the drain (which does not decrement). |
| RequestQueue.NeverOverfull | services/gateway/internal/backpressure/queue.go:51-70 | The three channels together never hold more than maxSize requests, although the capacity test and the increment are separate steps. |
| QueueOrder.RequestsAreRouted | services/gateway/internal/backpressure/queue.go:93-155 | In every run, a request in the high channel was enqueued high; one in the normal channel normal, or high by a call that found the high channel full; one in the low channel low, or normal by a call that found the normal channel full; none of unknown priority, and none by a call that had found its context done. |
| QueueOrder.RefusalsHaveReasons | services/gateway/internal/backpressure/queue.go:73-155 | Every refusal has its reason: full only at maxSize or for a low request that found the low channel full, a timeout only after the context was done, an invalid priority only for one; and an unknown priority gets no other answer unless one of the first two applies. |
| QueueOrder.MostUrgentFirst | services/gateway/internal/backpressure/queue.go:166-203 | In every run a worker takes from the normal channel only after finding the high one empty, and from the low one only after finding both empty, since it last began with the high one. |
| QueueOrder.ChannelsAreQueues | services/gateway/internal/backpressure/queue.go:93-290 | Requests leave each channel in the order in which they went in. |
| QueueOrder.SharesAreKept | services/gateway/internal/backpressure/queue.go:51-70 | The channels hold at most maxSize / 5, maxSize x 3 / 5 and maxSize / 5 requests. |
| QueueOrder.EnqueueAlone | services/gateway/internal/backpressure/queue.go:73-155 | A call that nobody interferes with and whose context is not done: refused at maxSize, else put into the first of its channels with room; without room high and normal requests wait, low and unknown ones are refused. |
| QueueOrder.WorkerAlone | services/gateway/internal/backpressure/queue.go:166-246 | A worker that nobody interferes with takes the first request of the most urgent channel that has one and answers it as processed. |
| QueueOrder.AnswersSayWhy | services/gateway/internal/backpressure/queue.go:206-290 | Every answer says why: processed, gateway timeout or shutting down. |
| QueueOrder.SelectsAreFair | services/gateway/internal/backpressure/queue.go:101-203 | At a select with the context, a case that alone is ready is taken, and with both ready either can be. |
| QueueOrder.ShutdownCanFinish | services/gateway/internal/backpressure/queue.go:264-290 | After every run with the queue open, some continuation lets Shutdown return. |
| RequestQueue.RefusalLeavesNoTrace | services/gateway/internal/backpressure/queue.go:73-155 | Over every run in which an enqueuer starts and ends outside, whatever others do meanwhile: its net contribution to `queued` is the number of requests it got accepted, and if that is none its own moves have touched no channel, worker or answer. |
| RequestQueue.OwnContribution | services/gateway/internal/backpressure/queue.go:73-155 | At every moment of every interleaving what an enqueuer has added to `queued` is what it holds now plus one for each request it got accepted. |
| RequestQueue.ShutdownAnswersEveryone | services/gateway/internal/backpressure/queue.go:264-290 | When Shutdown returns, every request accepted so far has been answered exactly once. |
| RequestQueue.AnsweredIffAcceptedInTime | services/gateway/internal/backpressure/queue.go:264-290 | After Shutdown has returned, an accepted request is ever answered if and only if it was accepted before that. |
| RequestQueue.LateRequestIsStranded | services/gateway/internal/backpressure/queue.go:73-155 | Such late requests exist: a concrete run in which Enqueue returns success and the request is never answered. |
| RequestQueue.ClosedAnswersNobody | services/gateway/internal/backpressure/queue.go:264-290 | After Shutdown no run of further moves answers anybody. |
| RequestQueue.StepKeepsInv | services/gateway/internal/backpressure/queue.go:73-290 | Every atomic move keeps requests located, the counter exact, the channels bounded and the enqueuers' requests apart. |
| RequestQueue.EnqueuerAccounts | services/gateway/internal/backpressure/queue.go:73-155 | Each move of Enqueue, including the fallback to the next lower channel, keeps every request's location and the counter. |
| RequestQueue.WorkerAccounts | services/gateway/internal/backpressure/queue.go:166-246 | Each move of a worker keeps every request's location and the counter. |
| CycleSearch.FindCycle | services/autoscaler/pkg/scaler/cascade.go:273-304 | Starting a search at every service with outgoing rules, in any map order, answers true if and only if the graph has a directed cycle; it terminates on every graph. |
| CycleSearch.Search.HasCycle | services/autoscaler/pkg/scaler/cascade.go:273-294 | The recursive search: true only with a cycle at hand; false leaves the explored services closed, on no cycle, and the recursion stack as it was. |
| CycleSearch.CycleMeetsAKey | services/autoscaler/pkg/scaler/cascade.go:296-304 | Every cycle passes through a service with outgoing rules, so starting there is enough. |
| Graph.OutsideIsOnNoCycle | services/autoscaler/pkg/scaler/cascade.go:278-294 | A service outside a closed set whose successors all lie inside is on no cycle. |
| CascadeManager.DependenciesAreRules | services/autoscaler/pkg/scaler/cascade.go:263-271 | The adjacency list built from the rules has exactly the rules' edges. |
| CascadeManager.CascadeManager.HasCircularDependency | services/autoscaler/pkg/scaler/cascade.go:262-305 | True if and only if the stored rules together with the new one contain a directed cycle. |
| CascadeManager.CascadeManager.AddRule | services/autoscaler/pkg/scaler/cascade.go:60-88 | Stores a rule exactly when it is valid and closes no cycle; keeps the list valid, acyclic and sorted; a rejected rule changes nothing and a stored one goes behind its equals. |
| CascadeManager.CascadeManager.RemoveRule | services/autoscaler/pkg/scaler/cascade.go:331-352 | Removes exactly the matching rules, fails if there is none, and keeps the list valid, acyclic and sorted. |
| CascadeManager.CascadeManager.SortRulesByPriority | services/autoscaler/pkg/scaler/cascade.go:308-318 | The in-place exchange sort returns a stable permutation with non-increasing priority. |
| CascadeRules.StableSortIsUnique | services/autoscaler/pkg/scaler/cascade.go:308-318 | There is only one sorted stable permutation, so that contract determines the result. |
| CascadeRules.SwapIsStable | services/autoscaler/pkg/scaler/cascade.go:311-317 | Exchanging neighbours of different priority keeps the order within every priority. |
| CascadeRules.StableKeepsRules | services/autoscaler/pkg/scaler/cascade.go:308-318 | A stable permutation has the same rules and the same graph. |
| CascadeRules.WithoutMembers | services/autoscaler/pkg/scaler/cascade.go:335-344 | Removal keeps a rule if and only if it does not match. |
| CascadeRules.TargetInRange | services/autoscaler/pkg/scaler/cascade.go:192-204 | For a valid rule the wanted number of instances is at least the minimum (never negative) and at most a positive maximum. |
| CascadeRules.ConditionMeans | services/autoscaler/pkg/scaler/cascade.go:173-189 | What each condition says about the count and the threshold; an unknown one counts as at least. |
| CascadeRules.TargetMeans | services/autoscaler/pkg/scaler/cascade.go:192-204 | The wanted number is the count times the ratio without its fraction, at least the minimum and at most a positive maximum. |
| CascadeManager.CascadeManager.EvaluateCascades | services/autoscaler/pkg/scaler/cascade.go:91-170 | The loop over the rules computes the decisions and the cooldown records of one evaluation on one snapshot. |
| CascadeHistory.DecidedIff | services/autoscaler/pkg/scaler/cascade.go:91-230 | Over every history of evaluations, with any rules and snapshots at each: a rule decides if and only if its trigger is there and fires, its target is there with another count than asked for, and the last decision for its pair of services is at least its delay ago; and what it decides. |
| CascadeHistory.DecisionsAreRecorded | services/autoscaler/pkg/scaler/cascade.go:206-230 | After an evaluation a pair is recorded with its time if and only if one of its rules decided in it, and otherwise as before. |
| CascadeHistory.DecisionsAreSpaced | services/autoscaler/pkg/scaler/cascade.go:206-217 | With a clock that never goes back, two decisions for one pair in different evaluations are at least the later rule's delay apart. |
| CascadeRounds.ApplyDecisions | services/autoscaler/pkg/autoscaler/autoscaler.go:337-382 | Applying the decisions in order, each only if it differs from the current count, sets every decided service to its last decision. |
| CascadeRounds.LastDecisionCounts | services/autoscaler/pkg/autoscaler/autoscaler.go:337-382 | A service that was decided on ends with the target of its last decision. |
| CascadeRounds.CascadesSettle | services/autoscaler/pkg/scaler/cascade.go:91-204 | On acyclic rules, with rounds spaced by the delays, after as many rounds as services less one no rule asks for a change if and only if the rules of each service that apply by then agree; several rules per target and shared cooldowns of one target are allowed. |
| CascadeSettling.AlwaysSettleIff | services/autoscaler/pkg/scaler/cascade.go:91-204 | Valid acyclic rules settle from every start with non-negative instance counts, after every such run, if and only if no such snapshot of the services is a deadlock: two rules of one service that apply and disagree while no rule upstream of it asks for a change. This condition does not mention rounds. |
| CascadeSettling.DeadlockPends | services/autoscaler/pkg/scaler/cascade.go:91-204 | From a deadlock some rule asks for a change after every number of rounds at any times. |
| CascadeRounds.AgreedSettles | services/autoscaler/pkg/scaler/cascade.go:91-204 | After that many rounds a service on which and upstream of which the rules agree has what its rules ask for, whatever the rules of other services do. |
| CascadeRounds.CascadesConverge | services/autoscaler/pkg/scaler/cascade.go:91-204 | Convergence with one rule per target: after that many rounds no rule asks for a change, and further rounds change nothing. |
| CascadeRounds.SettlesIffAgree | services/autoscaler/pkg/scaler/cascade.go:173-204 | For all valid rules, any snapshot and any service: some count of the service satisfies all its rules if and only if those that apply ask for the same number. |
| CascadeRounds.DisagreeingRulesPend | services/autoscaler/pkg/scaler/cascade.go:91-170 | Two rules that apply and disagree on a target are never settled, after any number of rounds at any times, while their triggers keep their counts. |
| CascadeRounds.RoundSets | services/autoscaler/pkg/autoscaler/autoscaler.go:295-382 | One round of evaluating all rules on one snapshot and applying every decision gives a service the number all rules that want to change it ask for. |
| CascadeRounds.RoundKeeps | services/autoscaler/pkg/autoscaler/autoscaler.go:295-382 | A service no rule wants to change is as before after a round. |
| CascadeRounds.CooldownHasACause | services/autoscaler/pkg/scaler/cascade.go:207-217 | A rule that a round finds in cooldown, and was not before, shares its key with a rule that wanted a change earlier in that round. |
| CascadeRounds.ChangeHasAHistory | services/autoscaler/pkg/scaler/cascade.go:91-204 | If the rules agree in the end on a service and on all services upstream of it, a change of that service in round k has a walk of k rules behind it. |
| CascadeRounds.RoundKeepsReady | services/autoscaler/pkg/scaler/cascade.go:207-217 | Rounds at least a rule's delay apart never find it in cooldown. |
| CascadeRounds.RivalRulesNeverSettle | services/autoscaler/pkg/scaler/cascade.go:91-170 | Any two rules that apply and disagree on a target, with triggers that are no rule's target, are never settled by any number of rounds at any times. |
| CascadeRounds.RivalRulesExist | services/autoscaler/pkg/scaler/cascade.go:60-88 | Such rules can be valid and acyclic, so the manager accepts them. |
| CascadeKeys.KeysDistinguishRules | services/autoscaler/pkg/scaler/cascade.go:207-217 | For every set of trigger names: valid rules with these triggers share a cooldown only if trigger and target are the same, if and only if no name is another one followed by an arrow. |
| CascadeKeys.ArrowNamesCollide | services/autoscaler/pkg/scaler/cascade.go:207-217 | A trigger shares a cooldown with some rule of a shorter trigger if and only if its name has an arrow behind its first character. |
| CascadeKeys.PlainNamesHaveDistinctKeys | services/autoscaler/pkg/scaler/cascade.go:207-217 | Rules whose triggers contain no arrow share a cooldown only with the same trigger and target. |
| CascadeManager.CascadeManager.GetCascadeChain | services/autoscaler/pkg/scaler/cascade.go:368-393 | Whatever the stored rules, no rule is listed twice; each listed rule fires at the count recorded for its trigger, which is the start service or was reached with that count by an earlier listed rule; and every rule of a visited service that fires is listed. With one rule per target that is exactly the enabled rules. |
| CascadeManager.EmptyChain | services/autoscaler/pkg/scaler/cascade.go:368-393 | Such a chain is empty if and only if no rule of the start service fires. |
| CascadeChain.ListedIsDiscovered | services/autoscaler/pkg/scaler/cascade.go:368-393 | Every listed rule ends a path of firing rules from the start service, at the count recorded for its trigger. |
| CascadeChain.DiscoveredIsListed | services/autoscaler/pkg/scaler/cascade.go:368-393 | On acyclic rules with one rule per target, every rule at the end of such a path is listed. |
| CascadeChain.Finder.FindChain | services/autoscaler/pkg/scaler/cascade.go:372-391 | The recursion terminates on every rule set (cyclic ones too) and explores every service it visits completely. |
| Registry.AgreementIsIndex | services/autoscaler/pkg/registry/memory.go:48-175 | The two levels agree (a bucket has an identifier exactly when the table has it with that service, the same object in both, no empty bucket) only if the index is the one determined by the table. |
| Registry.IndexAgrees | services/autoscaler/pkg/registry/memory.go:48-175 | And that index does agree, so the class invariant is exactly the agreement of the two levels. |
| Registry.InsertIndex | services/autoscaler/pkg/registry/memory.go:71-78 | Storing an instance in its service's bucket gives the index of the enlarged table. |
| Registry.DeleteIndex | services/autoscaler/pkg/registry/memory.go:105-114 | Removing an identifier, and its bucket if that becomes empty, gives the index of the reduced table. |
| Registry.InMemoryRegistry.Register | services/autoscaler/pkg/registry/memory.go:48-89 | Every error case, and on success the table gains exactly the new instance; the levels agree. |
| Registry.InMemoryRegistry.Deregister | services/autoscaler/pkg/registry/memory.go:92-125 | Every error case, and on success exactly that identifier is gone from both levels. |
| Registry.InMemoryRegistry.Update | services/autoscaler/pkg/registry/memory.go:128-175 | Every error case, and on success the instance is replaced and, if its service changed, moved between buckets; the levels agree. |
| Registry.InMemoryRegistry.UpdateStatus | services/autoscaler/pkg/registry/memory.go:247-275 | Changes the status and time of exactly one record, seen through both levels. |
| Registry.InMemoryRegistry.BucketIsFilter | services/autoscaler/pkg/registry/memory.go:193-244 | A bucket of the index is exactly the filter of the whole table by service, and its running members the filter by health. |
| Registry.InMemoryRegistry.GetByService | services/autoscaler/pkg/registry/memory.go:193-209 | Lists exactly the records of the service, each once. |
| Registry.InMemoryRegistry.GetHealthy | services/autoscaler/pkg/registry/memory.go:226-244 | Lists exactly the running records of the service, each once. |
| Registry.InMemoryRegistry.GetAll | services/autoscaler/pkg/registry/memory.go:212-223 | Lists exactly all records, each once. |
| Registry.InMemoryRegistry.GetServiceState | services/autoscaler/pkg/registry/memory.go:298-341 | The counts are those of the filters, the copied records those of the service, and each metric some record has is its sum over the records divided by the number of instances. |
| Registry.InMemoryRegistry.UpdateMetrics | services/autoscaler/pkg/registry/memory.go:278-295 | Changes the metrics and time of exactly one record, seen through both levels. |
| Registry.SummedStep | services/autoscaler/pkg/registry/memory.go:316-331 | Adding one more record's metrics to sums over some records gives the sums over all of them, for every order. |
| Registry.UniformAverage | services/autoscaler/pkg/registry/memory.go:298-341 | If all records of a service report the same value of a metric, that is the average. |
| Registry.InMemoryRegistry.Get | services/autoscaler/pkg/registry/memory.go:178-190 | Finds exactly the stored record. |
| PortAllocator.PortAllocator.Allocate | services/autoscaler/pkg/controller/port.go:27-45 | Returns the lowest port of the range that is neither allocated nor in use and allocates only it; fails only when there is none. |
| PortAllocator.PortAllocator.AllocateSpecific | services/autoscaler/pkg/controller/port.go:48-66 | Allocates exactly the given port or says why not, in the order out of range, allocated, in use. |
| PortAllocator.PortAllocator.Release | services/autoscaler/pkg/controller/port.go:69-74 | Frees exactly the given port. |
| PortAllocator.PortAllocator.GetAvailableCount | services/autoscaler/pkg/controller/port.go:117-123 | The number of ports of the range that are not allocated. |
| ServiceController.ServiceController.StartInstance | services/autoscaler/pkg/controller/controller.go:70-147 | Either a new instance exists everywhere (a port that was free and not taken, the registry, the managed map) or nothing has changed, on each failure path. |
| ServiceController.ServiceController.StopInstance | services/autoscaler/pkg/controller/controller.go:150-190 | Every way a stop can end and the state it leaves; the allocated ports stay exactly the ports of managed instances. |
| ServiceController.StoppingFits | services/autoscaler/pkg/controller/controller.go:150-190 | However a stop ends, ports are owned by exactly one managed instance each and managed instances are registered. |
| ServiceController.StopMeans | services/autoscaler/pkg/controller/controller.go:150-190 | A stop succeeds if and only if the instance is managed, configured, not stopped before and its process stops or can be killed; exactly then it is no longer managed and its port is free. |
| ServiceController.StartingFits | services/autoscaler/pkg/controller/controller.go:70-147 | Adding an instance with a port nobody has keeps ownership. |
| ServiceController.ReleaseKeepsOwned | services/autoscaler/pkg/controller/controller.go:358-366 | What a monitor does when a process has died keeps ownership if and only if the port is still the instance's own or, for an instance no longer managed, nobody's: a stale monitor breaks it once the port has been reused. |
| ServiceController.ServiceController.MonitorTick | services/autoscaler/pkg/controller/controller.go:348-370 | A tick marks the instance as failed, releases the port the monitor remembers and forgets the instance, managed or not; ownership survives if and only if the port is the instance's own or nobody's. |
| ControllerRuns.StaleMonitorSharesPort | services/autoscaler/pkg/controller/controller.go:312-370 | After any run, for any three new instances and any free port: start a, clean a up, start b on the port, tick of a's monitor, start d; then b and d are managed on the same port. |
| ControllerRuns.RunKeepsOwnership | services/autoscaler/pkg/controller/controller.go:70-370 | Over every run of starts, stops, cleanups and ticks in which no stale monitor hits a taken port, exactly the ports of managed instances are taken, no two share one, and every managed instance is registered. |
| ControllerRuns.StatusIsLastMark | services/autoscaler/pkg/controller/controller.go:70-369 | Over every run the registry shows exactly the last mark on an instance: starting, stopping, stopped, failed, and when. |
| ControllerRuns.ClosedIffKillFailed | services/autoscaler/pkg/controller/controller.go:150-190 | Over every run, the stop channel of a managed instance is closed if and only if an earlier stop of it failed to kill. |
| ControllerRuns.StopTwice | services/autoscaler/pkg/controller/controller.go:150-190 | A second stop closes the channel twice if and only if the first could not kill the instance, or closed it twice itself. |
| ControllerRuns.StopClosesTwice | services/autoscaler/pkg/controller/controller.go:150-190 | A stop closes a channel twice if and only if the instance is managed and configured and an earlier stop of it failed to kill. |
| ControllerRuns.CloseClosesTwice | services/autoscaler/pkg/controller/controller.go:330-345 | Closing the controller closes a channel twice if and only if it still manages such an instance. |
| ControllerRuns.FailedKillThenStop | services/autoscaler/pkg/controller/controller.go:150-190 | After any run, a new instance that neither stops nor can be killed leads to that. |
| ServiceController.ServiceController.Cleanup | services/autoscaler/pkg/controller/controller.go:312-327 | Forgets exactly the managed instances whose process is gone and marks exactly them as failed; ownership holds. |
| ServiceController.ServiceController.Close | services/autoscaler/pkg/controller/controller.go:330-345 | Releases every port, manages nothing and marks exactly the managed instances as stopped in the registry (which ignores it when closed), unless the stop channel of a managed instance is closed already, in which case closing it again panics. |
| ServiceController.ServiceController.ScaleService | services/autoscaler/pkg/controller/controller.go:253-309 | If every live instance is managed: on success exactly the wanted number is running or starting, on an error part-way the number lies between old and wanted, other services are untouched. Always: ownership holds. |
| ServiceController.ServiceController.ScaleOut | services/autoscaler/pkg/controller/controller.go:276-289 | Starts that many instances or as many as succeed before the first error, each adding exactly one live instance. |
| ServiceController.ServiceController.StopTail | services/autoscaler/pkg/controller/controller.go:291-306 | Stops from the end of the list; what is left alive is exactly the rest of the list. |
| ServiceController.StopRemovesLive | services/autoscaler/pkg/controller/controller.go:150-190 | Stopping a live managed instance makes exactly that one not live, even if the kill fails. |
| ServiceController.StartGrows | services/autoscaler/pkg/controller/controller.go:70-147 | A new instance adds exactly one live instance of its service and changes no other service. |
| Smoothing.CalculateLevel | services/autoscaler/pkg/backpressure/coordinator.go:235-277 | The loop computes the level of the weighted average (gateway counts twice) for every map order. |
| Smoothing.RawLevelIsReached | services/autoscaler/pkg/backpressure/coordinator.go:235-277 | For finite percentages the level is critical, high, medium, low or none exactly as their average, with the gateway counted twice, reaches the thresholds tried from critical down. |
| Smoothing.InfiniteLevels | services/autoscaler/pkg/backpressure/coordinator.go:235-277 | A positive infinity makes it critical; a negative one or an undefined sum makes it none. |
| Smoothing.WindowIsQuotient | services/autoscaler/pkg/backpressure/coordinator.go:210-213 | The window is the whole number of intervals in the smoothing window. |
| Smoothing.RawLevelIsMonotone | services/autoscaler/pkg/backpressure/coordinator.go:235-277 | For two loads, one of them higher on every service, the level of the higher one is not lower if and only if the higher one leaves the weighted sum defined or the level was none already. |
| Smoothing.SumIsClassified | services/autoscaler/pkg/backpressure/coordinator.go:247-256 | The weighted sum is undefined if and only if a term is or infinities of both signs meet, and infinite if and only if a term is. |
| Smoothing.UndefinedIsBlind | services/autoscaler/pkg/backpressure/coordinator.go:151-160 | A service whose percentage is undefined, such as one with no instances and no maximum, puts the level at none however loaded the others are. |
| Smoothing.SumSplits | services/autoscaler/pkg/backpressure/coordinator.go:247-256 | The weighted sums do not depend on the order of iteration. |
| Smoothing.GetSmoothedLevel | services/autoscaler/pkg/backpressure/coordinator.go:280-302 | Returns a level of maximal count in the history for every map order; none for an empty history. |
| Smoothing.MajorityWins | services/autoscaler/pkg/backpressure/coordinator.go:280-302 | A strict majority in the window is the result for every map order. |
| Smoothing.SustainedLevelWins | services/autoscaler/pkg/backpressure/coordinator.go:201-222 | More than half a window of equal raw levels decides the current level, whatever came before. |
| Smoothing.MinorityBurstIsIgnored | services/autoscaler/pkg/backpressure/coordinator.go:201-222 | Fewer than half a window of other levels do not move a full window of one level. |
| Smoothing.BlindIffWindowIsShort | services/autoscaler/pkg/backpressure/coordinator.go:205-222 | The level is none for ever, whatever the load, if and only if the smoothing window is shorter than the evaluation interval. |
| Smoothing.Coordinator.Tick | services/autoscaler/pkg/backpressure/coordinator.go:189-232 | The history is always the last min(k, w) raw levels, w being the smoothing window divided by the interval, and the current level a most common one of them; level changes are counted exactly; a negative w panics. |
| Smoothing.Coordinator.constructor | services/autoscaler/pkg/backpressure/coordinator.go:106-134 | Zeros in the configuration are replaced by the defaults. |
| Smoothing.Coordinator.UpdateServiceState | services/autoscaler/pkg/backpressure/coordinator.go:151-160 | Sets the percentage of exactly that service; with a maximum of zero it is infinite or undefined. |
| Adaptive.LimitsStayWithin | services/gateway/internal/backpressure/adaptive.go:107-147 | With Min <= Max, increase >= 1 and 0 <= decrease < 1, one adjustment keeps every value within [Min, Max] if and only if Max >= 0 and Min x (increase - 1) > -1; so always for Min >= 0. |
| Adaptive.LimitsNeverLeave | services/gateway/internal/backpressure/adaptive.go:29-148 | Under that condition the limit stays within [Min, Max] over every run from the constructor's value. |
| Adaptive.AdjustmentMeans | services/gateway/internal/backpressure/adaptive.go:79-148 | If the average positive latency of the window, in whole milliseconds, is above target or the average successes x 100 below the target rate, a limit becomes the limit x decrease without its fraction, at least the minimum; if the latency is below eight tenths of the target and the rate above, the limit x increase, at most the maximum; otherwise it stays. |
| Adaptive.AdjustmentHelps | services/gateway/internal/backpressure/adaptive.go:115-147 | So a limit in its bounds never goes up under strain nor down when relaxed. |
| Adaptive.LoweringReachesMin | services/gateway/internal/backpressure/adaptive.go:110-130 | Repeated decreases reach Min if and only if Min >= 0 or the limit is there already, and then at the latest after as many steps as the distance. |
| Adaptive.RaisingReachesMax | services/gateway/internal/backpressure/adaptive.go:132-146 | Repeated increases from c < Max reach Max if and only if c x (increase - 1) >= 1; otherwise no number of them lifts the limit at all. |
| Adaptive.RingSum | services/gateway/internal/backpressure/adaptive.go:85-96 | Summing the ring in slot order gives the statistics of exactly the last WindowSize ticks. |
| Adaptive.RingAdvance | services/gateway/internal/backpressure/adaptive.go:83-101 | Opening a new tick overwrites exactly the oldest one of the window. |
| Adaptive.RingRecord | services/gateway/internal/backpressure/adaptive.go:49-64 | Recording changes exactly the current tick. |
| Adaptive.AdaptiveController.Adjust | services/gateway/internal/backpressure/adaptive.go:79-148 | Judges exactly the last WindowSize ticks, opens a new tick and moves both limits by that verdict. |
| Adaptive.AdaptiveController.MoveLimits | services/gateway/internal/backpressure/adaptive.go:103-147 | No data, too slow or too many failures, well below target, or neither: how each limit moves. |
| Adaptive.AdaptiveController.RecordLatency | services/gateway/internal/backpressure/adaptive.go:49-54 | The current tick's latency is the last one recorded. |
| Adaptive.AdaptiveController.RecordSuccess | services/gateway/internal/backpressure/adaptive.go:57-64 | The current tick's successes grow by one exactly on a success. |
| ScalingEngine.EngineFlags | services/autoscaler/pkg/scaler/engine.go:107-133 | The early-exit loop: scale out if and only if some collected metric exceeds its threshold, scale in if and only if none is above 80% of it; the trigger is the first exceeded metric. |
| ScalingEngine.EvaluatorFlags | services/autoscaler/pkg/scaler/threshold.go:44-120 | The full loop, where a metric that was not collected reads as zero; the trigger is the last exceeded metric. |
| ScalingEngine.FlagsAgree | services/autoscaler/pkg/scaler/threshold.go:44-120 | The two loops give the same flags if and only if something is overloaded or busy or every metric with a negative threshold was collected; so always for thresholds >= 0. |
| ScalingEngine.DecisionsAreSound | services/autoscaler/pkg/scaler/engine.go:135-185 | Every decision keeps Current < Target <= Max (out) or Min <= Target < Current (in) and has the right cause. |
| ScalingEngine.DecisionMeans | services/autoscaler/pkg/scaler/engine.go:105-185 | In numbers: scale out if and only if some collected value exceeds its threshold and the maximum is not reached, scale in if and only if none exceeds it or eight tenths of it and the count is above the minimum and six fifths of it with enough healthy instances; by exactly the increment, or to the bound. |
| ScalingEngine.LastActionHolds | services/autoscaler/pkg/scaler/engine.go:82-92 | Over every run an evaluation is held back exactly until the cooldown of the last applied action of the service ends; then it returns what the metrics say. |
| ScalingEngine.UnscaledIsFree | services/autoscaler/pkg/scaler/engine.go:82-92 | Before the first applied action of a service nothing is held back. |
| ScalingEngine.ActionsAreSpaced | services/autoscaler/pkg/scaler/engine.go:264-301 | With a clock that never goes back, an action the engine asks for comes at least the shorter cooldown after every earlier applied action of the service, cascades included. |
| ScalingEngine.OverloadReachesMax | services/autoscaler/pkg/scaler/engine.go:147-155 | Constant overload drives a service to exactly its maximum. |
| ScalingEngine.QuietSettles | services/autoscaler/pkg/scaler/engine.go:156-168 | Without load a service settles between its minimum and the 20% buffer above it, and then nothing more is decided. |
| ScalingEngine.ScalingEngine.EvaluateService | services/autoscaler/pkg/scaler/engine.go:68-185 | Every outcome: unknown service, held by a cooldown, metrics failed, or the decision; cooldowns are those of the run so far. |
| ScalingEngine.ScalingEngine.ApplyDecision | services/autoscaler/pkg/scaler/engine.go:264-291 | Starts the cooldown of the action's direction for exactly that service; no action starts none; an unknown service is an error. |
| ScalingEngine.ScalingEngine.GetCooldownStatus | services/autoscaler/pkg/scaler/engine.go:294-301 | Held if and only if the clock is before the recorded end. |

## Left out

- BucketMachine.RateBound: maxTokens and refillRate are fixed and integers unbounded, because the promise is about one configuration and an overflow of elapsed x rate is not modelled.
- TenantMap.RefinesFlatMap: the shards are values of a step machine, because the claim is about interleavings, which a sequential class cannot express.
- RequestQueue.ExactlyOnce: a step machine on values for the same reason. Each response channel has room for its one message, the capacity is not negative, and payloads and the counters of processed, dropped and timed-out requests are not modelled. It does not say that accepted requests are processed: Enqueue cancels the request's context when it returns.
- Limiter.HierarchicalLimiter.AllowN: one thread at a time, so that each retry loop swaps at its first try; concurrent use is in `BucketMachine`, `TenantMap` and `ConcurrentLimiter`.
- ConcurrentLimiter.ConcurrentAdmissionsAreConserved: the tenants' buckets exist from the start, because `TenantMap` covers their creation; limits are fixed.
- CircuitBreaker.EpisodeAdmitsFew: for calls that take effect at once, like CircuitBreaker.EpisodeIsDecided; `BreakerMachine`, `BreakerProgress` and `BreakerSticking` have the calls step by step.
- BreakerMachine.EpisodeBound: memory is sequentially consistent, although the source reads and writes the timeout without synchronisation. Functions that panic and the totals are not modelled.
- BreakerProgress.GetsStuckIff: at moments when all calls have returned, because a caller that is still to enter the episode resets its counters; `BreakerSticking` covers every moment of every run. Callers do not reset the breaker by hand.
- CascadeRounds.CascadesSettle: assumes that every scaling succeeds, that the engine decides nothing in between and that rules share a cooldown only with their target (`CascadeKeys.PlainNamesHaveDistinctKeys` gives names for which they do). One clock reading per evaluation.
- CascadeManager.CascadeManager.EvaluateCascades: the event channel and the texts of decisions are not modelled.
- Registry.InMemoryRegistry.Update: identifier, service and port of an instance object never change, so a caller who writes the service of a stored object is not modelled. Watchers, events, labels, process identifiers and the time-to-live cleanup are not modelled either.
- ServiceController.ServiceController.ScaleService: the count is promised only when every live instance is managed and not yet told to stop. Pauses between starts and the goroutine that marks an instance as running after two seconds are not modelled.
- Smoothing.Coordinator.Tick: a tick needs a positive evaluation interval, as the source's ticker does. Callbacks, response strategies and rate limits derived from the level are expressions over it.
- Adaptive.AdaptiveController.Adjust: recording and adjusting do not overlap, as under the source's lock for the statistics; the limits are reals truncated to integers, without float rounding.
- ScalingEngine.ScalingEngine.EvaluateService: the registry's counts and the collected metrics are parameters; reasons and copied metrics of a decision are not modelled.
- Float rounding: every float is a real, apart from the infinite and undefined percentages in `Smoothing`. Integer width: integers are unbounded.
- AllowWithLimit rewrites a bucket's limits for the time of one call, so capacity and exact give-back do not hold through it.
- The 100 Hz refill loop: its refills appear as moves and calls at any time, its schedule does not.
- History of metrics (sustained load), CanScaleOut, CanScaleIn and EvaluateAll of the scaling packages: easy next to what is modelled.
- RestartInstance is a stop and a start; process runners, environment variables and port probing are parameters.
- Load shedding, service discovery, percentiles, rebalancing, hot tier, query planning and watermarks.
- Generated protocol code, gRPC and HTTP servers, the monitor's user interface, configuration loading, storage and message brokers.
