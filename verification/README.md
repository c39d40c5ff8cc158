# An LLM gateway's decision and resilience layers, verified

The project models the parts of the gateway that decide and protect: the smooth weighted round-robin balancer,
the circuit breakers and their manager, the retry and fallback engine, the chat service that composes them, the
sliding-window rate limiter, the semantic cache with its vector codec, the embedding arithmetic, the semantic
router, the provider registry and router, and the streaming path from upstream lines to the client.

Check it with `dafny verify dfyconfig.toml`.

## How it is built

Code that changes objects is a class or a method over arrays, proved against a specification function on values;
the theorems are lemmas about these functions, over all inputs, runs or interleavings.

| files | what they hold |
|---|---|
| RealSums, SmoothRoundRobin | sums over positions and subsets; the cup game, its potential, bounds and fairness |
| Balancer, BalancerRuns, BalancerChoices | the balancer class; why a run of Select is a run of the game; which candidate is chosen |
| CircuitBreaker, BreakerManager, BreakerCreation | the breaker, the keyed manager, the double-checked creation as a protocol |
| Model, Fallback, FallbackProofs | shared values; the engine's loop; Execute against its plan |
| ChatService, ChatServiceProofs, ServiceAnswers, ChatServer | the service as one run over breakers, clock and audit log; its invariants; what it answers and stores, case by case; the same on a real manager object |
| ServiceInterleavings | requests interleaving at every breaker and provider step |
| ChatGateway | a request through cache, router, breakers, engine and cache again, on the real objects |
| Streams, StreamPayloads, StreamPipeline, StreamService | the two line loops; what each line sends; three goroutines over two unbuffered channels; one outcome per stream |
| RateLimiter, RateLimiterBounds | the sorted set, its lifetime, and the protocol of five commands; runs that reach its bound, and when single decisions are exact |
| CacheEntries, CachePointers, SemanticCache, CacheRuns, VectorCodec | one partition as a sequence; the best-entry pointer under overlap; the cache over backing arrays; runs; the codec |
| Vectors, CosineGeometry, Pooling, Texts, SemanticRouter | cosine and normalisation; the value of the cosine and when it is 1; padding to pooled vectors; text extraction; prototypes and the decision |
| Registry, Router, RouteRuns | the provider indexes; the strategy chain; whom a run of Route decides |

Main results, hardest first: `BalancerRuns.CurrentWeightsBounded` and `NeverStarved` (a potential over all subsets of
providers), `BalancerRuns.SelectIsFair`, `BalancerChoices.RunChoosesGreatest`, `RouteRuns.RoutesAreFair`, `RateLimiterBounds.LeastBound`, `LimitHoldsIff` and `RejectionsJustifiedIff`,
`ServiceInterleavings.EveryInterleavingIsSound` and `RefusalNeedsFailure`, `ChatServiceProofs.EveryRunIsSound`,
`RetriesStopAtThreshold` and `FallbackIffEmptyName`, `StreamPipeline.PipelineDelivers` and `StreamPayloads.AnthropicTextReachesClient`, `CacheEntries.SweepIsExact`
with `StaleRemovalIsSafeIff`, `CachePointers.PointerKeepsAnswer` and `SemanticCaches.LookupIn`, `CacheRuns.RunEvictsOldest`,
`SemanticRouter.PrototypesKeepDecision`, `FallbackProofs.ExecuteIsPlan`, `Pooling.Embed`, `Routers.Router.Route`,
`ChatGateways.ChatGateway.HandleChatCompletion` and `SecondRequestHits`, `CosineGeometry.CosineIsOneIff`.

## Where the code differs from what one might expect

- A breaker checks its threshold only when a failure arrives, so a threshold below 1 acts as 1 (`CircuitBreakers.Trip`).
- Half-Open admits any number of calls, and the configured failure window is not used.
- The rate limiter reads its clock before it talks to the store, trims and counts in two commands, and adds and sets the
  key's lifetime in two more. With at most `owed` admitted requests under way, a window keeps limit+owed-1 admissions if
  and only if no count stalls (or requests are serialised and stalls last at most 60 s) and no key can expire early
  (`RateLimiterBounds.LimitHoldsIff`). With two under way one millisecond is enough to exceed it
  (`OneMillisecondExceedsBound`), and a single request exceeds its limit after 60 s (`StalledReaderExceedsLimit`).
- A member added without its lifetime keeps an old lifetime alive: when a request sets it over 60 s after its clock
  reading, the key can expire under members a few milliseconds old (`RateLimiterBounds.ExpiriesTakeOldIff`,
  `LateLifetimeExceedsBound`). An old member added between another request's trim and count can reject that request
  although its window is not full (`RejectionsJustifiedIff`).
- `Lookup` collects expired indices under one lock and removes them under another. Run without interleaving this is exact;
  overlapping lookups can remove a live entry, and `CacheEntries.StaleRemovalIsSafeIff` says when not: appends and
  stamps in between are harmless (`AppendsAndStampsAreSafe`), removals need not be (`OverlappingLookupsLoseLiveEntry`).
- `Lookup` reads the response through a pointer into the backing array, after the lock is gone. An eviction that names
  the scored slot in between makes it return the answer to another prompt (`CachePointers.AnotherAnswerIsRead`);
  `PointerKeepsAnswer` and `HitSlotGets` say exactly when.
- After a sweep the access stamp can land on a slot past the end of the slice and be lost (`CacheEntries.StampReachesBest`,
  `StampIsLost`).
- Attempts of a fallback chain carry no provider name, and the send function looks that empty name up, so through the
  chat service the chain answers if and only if a provider is registered under the empty name and serves
  (`ChatServiceProofs.FallbackIffEmptyName`, `NoFallbackThroughService`, `ChainMissesItsProvider`).
- A provider that lists a model twice appears twice in that model's index (`Registries.ForModelIsFilterIff`,
  `ListedTwiceIndexedTwice`).
- An admission is not a reservation: another request's failure can open the breaker before the admitted one calls
  (`ServiceInterleavings.RefusalNeedsFailure`, `AdmittedThenRefused`).
- Two pairs can share a breaker exactly when a provider or model name has a slash (`BreakerManagers.CollidesIffSlash`).
- The handler stops reading at the first error chunk; that blocks nobody only because both line loops end there
  (`StreamPipeline.BlockedIff`).

## Model

| member | source | states |
|---|---|---|
| Balancers.WiredWeightIsBaseWeight | internal/decision/balancer.go:57-70 | As the gateway wires candidates (no load, full warm-up and health) the effective weight is the configured weight, whatever the penalties. |
| Balancers.EffectiveWeight | internal/decision/balancer.go:57-70 | The effective weight is never negative. |
| Balancers.LoadDividesWeight | internal/decision/balancer.go:57-70 | With in-flight requests and latency the effective weight times 1 + penalty*inflight + penalty*latency is the base weight times warm-up times health. |
| Balancers.NothingWeighsNothing | internal/decision/balancer.go:57-70 | No base weight, no warm-up or no health: no effective weight. |
| Balancers.Balancer.constructor | internal/decision/balancer.go:38-43 | A new balancer has no slots and a valid name index. |
| Balancers.Balancer.Register | internal/decision/balancer.go:45-55 | A known name keeps its slot and changes nothing; a new one gets the next slot with weight 0; the name index stays a bijection onto the slots. |
| Balancers.Balancer.ResolveSlots | internal/decision/balancer.go:72-85 | Every candidate gets the slot of its provider name, new names in candidate order; the bijection is kept. |
| Balancers.Balancer.Weigh | internal/decision/balancer.go:92-99 | All effective weights in candidate order, and their sum as the total. |
| Balancers.Balancer.Pass | internal/decision/balancer.go:106-116 | The fused loop: slots and chosen index are those of the specification of accumulating, comparing and charging, whose choice `BalancerChoices.SelectChoosesGreatest` says without the loop or its start value. |
| Balancers.Balancer.Select | internal/decision/balancer.go:87-119 | No candidates: the zero candidate and no change. Otherwise state and choice are those of one Selection, by `BalancerChoices` a candidate of greatest final weight, and the bijection is kept. |
| Balancers.RegisteredIsValid | internal/decision/balancer.go:45-55 | Registering keeps the bijection and the sum of all current weights. |
| Balancers.ResolvedIsValid | internal/decision/balancer.go:72-85 | Resolving any list of names keeps the bijection and the sum of all current weights. |
| Balancers.ChargedConserves | internal/decision/balancer.go:107-116 | Handing out all weights and charging their total to one slot leaves the sum of all slots unchanged, also when candidates share slots. |
| Balancers.SelectionKeepsBalance | internal/decision/balancer.go:87-119 | Select keeps the bijection and the sum of all current weights for every candidate list. |
| Balancers.Run | internal/decision/balancer.go:45-119 | After any run of Register and Select with changing lists and weights the index is a bijection and all current weights sum to 0. |
| BalancerRuns.FusedPassRefinesTwoPass | internal/decision/balancer.go:106-114 | Comparing while accumulating selects a slot of maximal final weight, repeated provider names included, as soon as some final weight tops the sentinel; otherwise candidate 0. |
| BalancerRuns.FusedPassMaximalIff | internal/decision/balancer.go:106-114 | Exactly when the choice is maximal: something tops the sentinel, or candidate 0 is maximal anyway. |
| BalancerRuns.BelowSentinelTakesFirst | internal/decision/balancer.go:106-114 | A failing input: with all slots below the sentinel candidate 0 is taken although candidate 1 ends higher. |
| BalancerChoices.SelectChoosesGreatest | internal/decision/balancer.go:87-119 | If one candidate's current weight lies above -9223372036854775808, the chosen candidate's current weight plus everything the call hands to its name is greatest among all candidates, repeated names included. |
| BalancerChoices.SelectChoosesFirst | internal/decision/balancer.go:106-114 | Among different names it is the first of the greatest. |
| BalancerChoices.RunNotBelow | internal/decision/balancer.go:87-119 | Along every run of Register and Select with changing lists no current weight falls below minus the sum of all calls' totals, and no two together do. |
| BalancerChoices.RunChoosesGreatest | internal/decision/balancer.go:45-119 | So every call of such a run chooses a candidate of greatest final weight, as long as the totals of all calls together are at most 2^63. |
| BalancerRuns.ChargedIsStep | internal/decision/balancer.go:106-116 | On balanced distinct slots the fused loop is one round of the cup game: same served position, same new weights. |
| BalancerRuns.SelectionIsStep | internal/decision/balancer.go:87-119 | One Select on balanced candidates with distinct names is one round of the game on their current weights, whatever other slots exist. |
| BalancerRuns.SelectRunIsGame | internal/decision/balancer.go:87-119 | From zero weights a run of Selects over one candidate set is a run of the game. |
| BalancerRuns.ChosenIsServed | internal/decision/balancer.go:106-118 | Call j of such a run chooses the position the game serves in round j. |
| BalancerRuns.CurrentWeightsBounded | internal/decision/balancer.go:87-119 | Lag bound: with call totals at most W every current weight stays in [-W, W(1/2+...+1/n)], the weights changing freely from call to call. |
| BalancerRuns.NeverStarved | internal/decision/balancer.go:87-119 | A provider whose weight stays at least w and that none of the last m calls chose has m*w <= W(1+1/2+...+1/n). |
| BalancerRuns.SelectAccounting | internal/decision/balancer.go:87-119 | With fixed integer weights, after k calls the current weight of i is k*w_i minus (times chosen)*W. |
| BalancerRuns.SelectIsFair | internal/decision/balancer.go:87-119 | During W calls, W the total weight, every candidate is chosen exactly as often as its weight. |
| BalancerRuns.SelectReturnsToZero | internal/decision/balancer.go:87-119 | After W calls every current weight of the set is 0 again. |
| BalancerRuns.SelectRepeats | internal/decision/balancer.go:87-119 | The choices repeat with period W. |
| SmoothRoundRobin.StepConserves | internal/decision/balancer.go:106-116 | A round of the game leaves the sum of the current weights unchanged. |
| SmoothRoundRobin.NeverBelow | internal/decision/balancer.go:106-116 | Over every run no current weight falls below -W. |
| SmoothRoundRobin.StepWithinCap | internal/decision/balancer.go:106-116 | A round keeps the potential: any k of the n positions hold at most k*W(1/(k+1)+...+1/n) together. |
| SmoothRoundRobin.AfterWithinCaps | internal/decision/balancer.go:106-116 | The potential over all subsets of positions holds after every run. |
| SmoothRoundRobin.LagBound | internal/decision/balancer.go:106-116 | Every current weight of every run lies in [-W, W(1/2+...+1/n)]. |
| SmoothRoundRobin.StarvationBound | internal/decision/balancer.go:106-116 | A position of weight at least w passed over in the last m rounds has m*w <= W(1+1/2+...+1/n). |
| SmoothRoundRobin.EarnedMinusCharged | internal/decision/balancer.go:106-116 | With fixed integer weights the state is weight earned minus total charged, at every moment. |
| SmoothRoundRobin.PeriodReturnsToZero | internal/decision/balancer.go:106-116 | After W rounds every position is back at 0. |
| SmoothRoundRobin.ExactFairness | internal/decision/balancer.go:106-116 | In W rounds every position is served exactly as often as its weight. |
| SmoothRoundRobin.StateAtIsRun | internal/decision/balancer.go:106-116 | The fixed-weight schedule is the run of the game that repeats the same weights. |
| SmoothRoundRobin.PickCountIsPicks | internal/decision/balancer.go:106-116 | Counting in the schedule is counting in that run. |
| SmoothRoundRobin.RepeatedRunIsFair | internal/decision/balancer.go:106-116 | The run that repeats integer weights W times serves every position its weight many times and ends at zero. |
| SmoothRoundRobin.ScheduleRepeats | internal/decision/balancer.go:106-116 | State and served position repeat with period W. |
| CircuitBreakers.CircuitBreaker.constructor | internal/decision/circuitbreaker.go:25-27 | A new breaker is closed with no failures. |
| CircuitBreakers.CircuitBreaker.Allow | internal/decision/circuitbreaker.go:29-37 | An open breaker past its cooldown turns half-open and answers yes; otherwise the state stays and the answer is whether it is not open. |
| CircuitBreakers.CircuitBreaker.RecordSuccess | internal/decision/circuitbreaker.go:39-44 | No failures, closed. |
| CircuitBreakers.CircuitBreaker.RecordFailure | internal/decision/circuitbreaker.go:46-54 | One more failure; at the threshold the breaker opens at the given time. |
| CircuitBreakers.RunInvariant | internal/decision/circuitbreaker.go:29-54 | On every chronological trace the fields are the failure streak, closed iff the streak is below the threshold, and the time of the last failure when not closed. |
| CircuitBreakers.AllowIsRule | internal/decision/circuitbreaker.go:29-37 | For every threshold, cooldown and chronological trace, Allow(t) is true iff fewer than threshold failures (one, for a threshold below 1) came since the last success or t is at least cooldown after the last failure. |
| CircuitBreakers.AdmissionIsStable | internal/decision/circuitbreaker.go:29-37 | Without new outcomes a yes stays a yes as time passes. |
| CircuitBreakers.HalfOpenIsErasable | internal/decision/circuitbreaker.go:29-54 | A machine with only a counter and a time gives the same answers on every chronological trace. |
| BreakerManagers.SplitAtSlash | internal/decision/router.go:55-59 | Splitting at the first slash gives a slash-free provider and a model whose key is the whole string. |
| BreakerManagers.SplitInvertsKey | internal/ingress/service.go:217-219 | The router's split recovers provider and model from the key exactly when the provider has no slash. |
| BreakerManagers.KeyInjective | internal/ingress/service.go:217-219 | For slash-free providers the key determines provider and model. |
| BreakerManagers.SlashInProviderCollides | internal/ingress/service.go:217-219 | With a slash in a provider name two pairs can share a key. |
| BreakerManagers.CollidesIffSlash | internal/ingress/service.go:217-219 | Another pair shares the key iff the provider or the model has a slash. |
| BreakerManagers.BreakerManager.constructor | internal/ingress/service.go:209-215 | A new manager has no breakers. |
| BreakerManagers.BreakerManager.GetOrCreate | internal/ingress/service.go:221-237 | The breaker of the key is returned, a new one in its fresh state if there was none; every other breaker object and state stays. |
| BreakerManagers.BreakerManager.Allow | internal/ingress/service.go:239-241 | Only the state of this key changes, and as its own breaker answers. |
| BreakerManagers.BreakerManager.RecordSuccess | internal/ingress/service.go:243-245 | Only the state of this key changes, by one success. |
| BreakerManagers.BreakerManager.RecordFailure | internal/ingress/service.go:247-249 | Only the state of this key changes, by one failure at the given time. |
| BreakerManagers.KeysAreIsolated | internal/ingress/service.go:221-249 | Each key's state after any run of calls is that of a single breaker run on the calls of that key; a key has a breaker iff it was called. |
| BreakerCreation.PublishedStays | internal/ingress/service.go:221-237 | In every interleaving of the double-checked creation a published breaker is never replaced. |
| BreakerCreation.CallersShareOneBreaker | internal/ingress/service.go:221-237 | In every interleaving each returned caller holds the breaker published for its key, and every breaker made is published under exactly one key. |
| BreakerCreation.TwoStepsSuffice | internal/ingress/service.go:221-237 | Every caller returns after at most two critical sections. |
| BreakerCreation.SameKeySameBreaker | internal/ingress/service.go:221-237 | Two returned callers hold the same breaker iff they asked for the same key. |
| FallbackEngine.NewEngine | internal/fallback/engine.go:43-62 | Retries, backoff and message are positive or non-empty after defaulting. |
| FallbackProofs.NewEngineKeeps | internal/fallback/engine.go:43-62 | Chains and positive settings are kept; missing ones become 2 retries and 1 second; the message is the content of the default response. |
| FallbackEngine.Attempts | internal/fallback/engine.go:71-84 | The loop builds the plan: primary, retries, then the chain without provider names. |
| FallbackProofs.PlanInOrder | internal/fallback/engine.go:71-84 | Entry by entry: the primary first, then retryMax retries of the same provider and model, then the chain's models in order without a provider. |
| FallbackEngine.Execute | internal/fallback/engine.go:127-160 | The loop is the walk over the plan: same final environment, outcome and sends; a nil send function is an internal error. |
| FallbackProofs.ExecuteIsPlan | internal/fallback/engine.go:127-160 | Without cancellation the sends are the plan, minus all retries iff the primary error is not retryable, cut after the first success; the outcome is that success with its level, else the default. |
| FallbackProofs.DefaultIffAllFail | internal/fallback/engine.go:149-159 | The default response comes back iff every planned send fails, and then all were sent. |
| FallbackProofs.ExecuteWaits | internal/fallback/engine.go:123-148 | An Execute that has sent j retries has waited base*(2^j-1) in total, cancelled or not. |
| FallbackProofs.CancelledExecuteIsPrefix | internal/fallback/engine.go:134-148 | With cancellation at any point the log is a prefix of the uncancelled plan cut at the first success. |
| FallbackProofs.InterruptedWaitAborts | internal/fallback/engine.go:134-148 | An interrupted wait ends Execute with the interruption's error; no retry and no chain attempt is sent. |
| FallbackProofs.CancelledAborts | internal/fallback/engine.go:134-148 | Wherever Execute has come to, a cancellation found before an attempt ends it with that error, and so does an interruption of the wait before any retry; nothing more is sent. |
| ChatServiceProofs.SendIsSound | internal/ingress/service.go:168-198 | One send keeps the breakers explained by the log, every answer on the two-variable rule, and each provider call between its admission and its record. |
| ChatServiceProofs.WalkIsSound | internal/fallback/engine.go:127-160 | A whole Execute through the send function keeps the same. |
| ChatServiceProofs.EveryRunIsSound | internal/ingress/service.go:65-198 | Over every run of requests, stream openings and stream outcomes one after the other: the breakers are the manager's run on the log, every answer is the two-variable rule on its key's own history, every provider call is bracketed. The interleaved form is EveryInterleavingIsSound. |
| ChatServiceProofs.EveryCallIsBracketed | internal/ingress/service.go:175-191 | In such a log each provider call directly follows a true Allow on its key and is directly followed by its one record, and each record belongs to a call. |
| ChatServiceProofs.EveryAnswerFollowsRule | internal/ingress/service.go:86-89 | In such a log each Allow answers by the two-variable rule applied to the calls of its key before it. |
| ServiceInterleavings.EveryInterleavingIsSound | internal/ingress/service.go:65-198 | However requests and streams interleave step by step: the breakers are the manager's run on the shared log, every answer is the two-variable rule on its key's history with everybody's outcomes in it, and in each request's own entries every call is bracketed. |
| ServiceInterleavings.EveryOwnCallIsBracketed | internal/ingress/service.go:175-191 | In any such run each provider call of an idle request directly follows, in that request's own log, its true Allow and is directly followed by its one record. |
| ServiceInterleavings.AdmissionSurvives | internal/decision/circuitbreaker.go:29-37 | Asks and successes never take an admission back, as time passes. |
| ServiceInterleavings.RefusalNeedsFailure | internal/ingress/service.go:86-95 | Under any interleaving a key that admitted one request refuses a later one only if somebody recorded a failure on that key in between. |
| ServiceInterleavings.AdmittedThenRefused | internal/ingress/service.go:86-95 | And it can: with threshold 1, two requests are admitted, one fails, and the other's own attempt is refused. |
| ServiceInterleavings.SendIsEvents | internal/ingress/service.go:168-198 | A send of the service is a sequence of enabled events of one request that leaves the same world. |
| ServiceInterleavings.WalkIsEvents | internal/fallback/engine.go:127-160 | So is a whole walk of the engine, with its waits as pauses. |
| ServiceInterleavings.ChatIsEvents | internal/ingress/service.go:65-120 | And so is a whole chat request, but for the entry it hands to the cache. |
| ChatServiceProofs.PrimaryIsNeverRefused | internal/ingress/service.go:86-95 | An admitted request's primary attempt reaches the provider, however much later it runs, when nobody else touches the key in between; under interference see RefusalNeedsFailure. |
| ChatServiceProofs.RetriesStopAtThreshold | internal/ingress/service.go:168-198 | With f failures below the threshold and a provider failing retryably within the cooldown, one Execute sends it exactly min(1+retryMax, threshold-f) calls. |
| ChatServiceProofs.ChainLeavesProvider | internal/fallback/engine.go:71-84 | Chain attempts add no call to any provider with a name. |
| ChatServiceProofs.ChainWithoutEmptyName | internal/ingress/service.go:168-173 | With no provider registered under the empty name a chain changes nothing and ends in the default response, or in the cancellation it finds. |
| ChatServiceProofs.NoFallbackThroughService | internal/fallback/engine.go:71-84 | Without such a provider no Execute of the service is ever answered by its chain, from any world. |
| ChatServiceProofs.ChainHeadServesIff | internal/ingress/service.go:168-198 | The first chain attempt succeeds iff the empty name is registered, its breaker admits the model and it replies; then the answer has level fallback. |
| ChatServiceProofs.FallbackIffEmptyName | internal/fallback/engine.go:71-84 | For every requested provider: with a chain ready to be served where the attempts before it end, the answer comes from the chain iff primary and retries all failed and a provider is registered under the empty name. |
| ChatServiceProofs.ChainFollows | internal/fallback/engine.go:127-160 | The walk goes on with the chain exactly where the attempts before it are exhausted; otherwise the chain changes nothing. |
| ChatServiceProofs.UnknownProviderFallsBackIff | internal/ingress/service.go:168-173 | So for a requested provider that does not exist. |
| ChatServiceProofs.FailingProviderFallsBackIff | internal/ingress/service.go:168-191 | And for a registered provider that fails every call, its name neither empty nor with a slash. |
| ChatServiceProofs.ChainMissesItsProvider | internal/fallback/engine.go:80-82 | One input each way: a chain that only "openai" could answer yields the default, and a provider of the empty name answers it. |
| ChatServiceProofs.OnlyRealResponsesAreStored | internal/ingress/service.go:97-117 | A request hands at most one entry to the cache: the answer it returns, which is a provider's successful reply to a call of this very request. |
| ServiceAnswers.EarlyAnswers | internal/ingress/service.go:65-84 | A streaming request is an invalid_request, a cache hit answers the cached response, a request without a route gets the router's error; none of them touches breakers, clock, log or cache. |
| ServiceAnswers.RefusedAnswers | internal/ingress/service.go:86-89 | A refused admission answers circuit_breaker_open, adds its one question to the log, and calls and stores nothing. |
| ServiceAnswers.AdmittedAnswers | internal/ingress/service.go:93-119 | An admitted miss answers with the outcome of Execute, the provider name completed, a cancelled Execute with its error; exactly that answer is stored iff there is a cache and the level is not exhausted. |
| ServiceAnswers.ProviderAnswerComesBack | internal/ingress/service.go:86-119 | What the routed provider says is what the client gets and the cache is given, stamped with provider and model; the log gains the admission, the attempt's question, the call and its success. |
| ServiceAnswers.SendAnswers | internal/ingress/service.go:168-198 | An unknown provider is a provider_error that changes nothing, a refused breaker a circuit_breaker_open; a provider's error is passed on and its answer comes stamped with provider and model. |
| ServiceAnswers.PrimarySucceeds | internal/ingress/service.go:168-198 | A registered, admitting provider that answers ends Execute at its primary attempt, with one question, one call and one success. |
| ServiceAnswers.StreamAnswers | internal/ingress/service.go:122-163 | A stream request is told, in this order: the router's error, circuit_breaker_open, provider_error for an unknown provider, the error of SendStream, or else gets the channel of SendStream itself. |
| ChatServers.ChatServer.constructor | internal/ingress/service.go:49-63 | The service starts with its manager's breakers and an empty log. |
| ChatServers.ChatServer.SendOnce | internal/ingress/service.go:168-198 | The send function on a real breaker manager does to breakers, clock and log what the specification says, and replies so. |
| ChatServers.ChatServer.Execute | internal/fallback/engine.go:127-160 | The engine's loop over the real send function leaves the world, and returns the outcome, of the walk over its plan. |
| ChatServers.ChatServer.HandleChatCompletion | internal/ingress/service.go:65-120 | On a real breaker manager, for any cache answer and route: world and answer are those of the specification, which `ServiceAnswers` spells out case by case. |
| ChatGateways.ChatGateway.constructor | internal/ingress/service.go:49-63 | The gateway starts with its parts in a valid state. |
| ChatGateways.ChatGateway.Forward | internal/ingress/service.go:80-117 | Past the cache: the router's decision with its effect on the balancer, and for that decision the specified answer and world; at most the answer itself is kept for the cache, which is not touched yet. |
| ChatGateways.ChatGateway.HandleChatCompletion | internal/ingress/service.go:65-120 | Over the real cache, router, balancer, breakers and engine: a hit leaves router, breakers and providers alone; after a miss the route decides, its answer is the service's, and what the service hands over is stored under the requested model; other partitions stay. `FirstRequestIsStored` and `SecondRequestHits` follow. |
| ChatGateways.StoresAtMostOne | internal/ingress/service.go:115-117 | A request hands its own uncached answer to the cache, or nothing; without a cache nothing. |
| ChatGateways.ChatGateway.RepeatIsAnsweredFromCache | internal/ingress/service.go:72-78 | After a provider's answer was stored, the same text within its lifetime is answered from the cache with score 1, below the limit with exactly that response decoded. |
| ChatGateways.ChatGateway.FirstRequestIsStored | internal/ingress/service.go:65-119 | A first request that misses and whose routed provider answers gets that answer, and exactly it is stored under the requested model. |
| ChatGateways.ChatGateway.SecondRequestHits | internal/ingress/service.go:65-119 | The second of two requests with the same text, within the lifetime of the first one's entry and below the limit, gets the first one's answer from the cache with score 1 and touches neither balancer nor breakers nor providers. |
| ChatServers.ChatServer.OpenStream | internal/ingress/service.go:122-147 | Opening a stream on a real breaker manager does and answers what the specification says. |
| ChatServers.ChatServer.ForwardStream | internal/ingress/service.go:149-163 | The forwarding loop passes every chunk on and records each error, or one success when there was none. |
| CacheEntries.RemoveAllExact | internal/cache/semantic.go:187-201 | Descending swap-removal takes out exactly the multiset of entries its ascending indices pointed at before. |
| CacheEntries.RemoveAllKeepsOthers | internal/cache/semantic.go:187-201 | A surviving position that no index names keeps its entry. |
| CacheEntries.SweepIsExact | internal/cache/semantic.go:98-121 | Lazy expiry leaves exactly the multiset of unexpired entries. |
| CacheEntries.StaleRemovalIsSafeIff | internal/cache/semantic.go:98-121 | Removal by indices collected from an earlier view leaves every unexpired entry in place iff each index still in range points at an expired entry. |
| CacheEntries.AppendsAndStampsAreSafe | internal/cache/semantic.go:98-121 | If between scan and removal others only append and stamp, the removal takes exactly the expired ones among the scanned entries. |
| CacheEntries.OverlappingLookupsLoseLiveEntry | internal/cache/semantic.go:98-121 | Two overlapping lookups that saw the same expired entry remove a live one: the boundary of exact expiry. |
| CachePointers.ContentsAfter | internal/cache/semantic.go:168-229 | The writes to the backing array are swap-removal, append, stamp and compaction of the partition. |
| CachePointers.UnhitSlotStays | internal/cache/semantic.go:98-136 | A write leaves the answer in a slot unless it hits it: a removal naming it, an append at the length, or a compaction past an expired entry. |
| CachePointers.HitSlotGets | internal/cache/semantic.go:168-229 | A hit puts the last entry, the new one, or one from behind into the slot. |
| CachePointers.PointerKeepsAnswer | internal/cache/semantic.go:126-136 | Whatever calls run between scan and read, a lookup reads the answer it scored if no write hit the slot of its best entry. |
| CachePointers.WithoutRemovalNeverHit | internal/cache/semantic.go:168-175 | Appends and stamps of other calls never hit. |
| CachePointers.MovedNeverHit | internal/cache/semantic.go:169-169 | Nothing hits once an append has moved the partition to another array. |
| CachePointers.OwnSweepMisses | internal/cache/semantic.go:119-121 | The removals of the lookup's own sweep miss its best entry. |
| CachePointers.AnotherAnswerIsRead | internal/cache/semantic.go:126-136 | It can go wrong: a store at the limit evicts the scored entry, and the lookup returns the answer to another prompt. |
| CacheEntries.StampReachesBest | internal/cache/semantic.go:126-128 | The access stamp reaches the scored entry's live copy iff its index is below the survivor count; otherwise the survivors are unstamped. |
| CacheEntries.StampIsLost | internal/cache/semantic.go:126-128 | It can miss: with one expired entry in front of the live best one the stamp is lost. |
| CacheEntries.SameTextHits | internal/cache/semantic.go:102-124 | A stored unexpired nonzero vector is found again with score 1 when the threshold is at most 1. |
| CacheEntries.LivesForTtl | internal/cache/semantic.go:102-107 | An entry answers up to and including its lifetime after it was stored, and no longer. |
| CacheEntries.StoreNeverGrowsPastLimit | internal/cache/semantic.go:168-175 | A store never grows a partition beyond the larger of its previous size and the limit, also after an uncapped load. |
| CacheEntries.StoreEvictsOldest | internal/cache/semantic.go:168-175 | Within the limit a store appends; on overflow it removes exactly the first entry with the least access time, never the one just stored; it never compacts. |
| CacheEntries.StoreCompactsWhenFarOver | internal/cache/semantic.go:168-175 | At the limit or beyond, a store that still ends above 3/2 of the limit keeps exactly the unexpired of the entries that eviction left; below that it keeps all of them. |
| SemanticCaches.RemoveExpiredIn | internal/cache/semantic.go:187-201 | The in-place loop leaves the specified sequence, and touches no slot of the backing array that no index names. |
| SemanticCaches.EvictOneIn | internal/cache/semantic.go:203-216 | The in-place eviction swap-removes the first entry with the least access time; nothing on an empty slice. |
| SemanticCaches.CompactIn | internal/cache/semantic.go:218-229 | The in-place compaction keeps exactly the unexpired entries, in order. |
| SemanticCaches.ScanIn | internal/cache/semantic.go:102-117 | One pass finds the last of the best unexpired entries at or above the threshold, and exactly the expired indices. |
| SemanticCaches.LookupIn | internal/cache/semantic.go:102-136 | On the backing array: the response read through the best pointer after the sweep is that of the entry scored best, and the slice becomes the swept one with the stamp where it lands. |
| SemanticCaches.SemanticCache.constructor | internal/cache/semantic.go:59-73 | An empty cache; a limit that is not positive becomes 10000. |
| SemanticCaches.SemanticCache.Lookup | internal/cache/semantic.go:81-138 | A hit is the decoded response of the best entry, none without a usable query; the partition is swept and stamped; every other partition stays. |
| SemanticCaches.SemanticCache.EvictOne | internal/cache/semantic.go:203-216 | Only this partition changes, by one eviction. |
| SemanticCaches.SemanticCache.CompactExpired | internal/cache/semantic.go:218-229 | Only this partition changes, to its unexpired entries. |
| SemanticCaches.SemanticCache.StoreEntry | internal/cache/semantic.go:168-175 | Append, evict one on overflow, compact when far over the limit; other partitions stay. |
| SemanticCaches.SemanticCache.Store | internal/cache/semantic.go:140-185 | A streaming or unusable request, or a response that does not encode, changes nothing and saves nothing; otherwise the partition is the stored one with the new entry, which is also the one handed to the persistent store; other partitions stay. |
| SemanticCaches.QueryIsCodeOfText | internal/cache/semantic.go:81-100 | The query vector is the code of exactly this text; there is none when the cache is off, or the text empty or too long. |
| SemanticCaches.EntryHoldsRequest | internal/cache/semantic.go:140-167 | A stored entry holds the model, the text's hash, its code, the encoded response and its two clock readings. |
| SemanticCaches.SemanticCache.LoadFromStore | internal/cache/semantic.go:231-256 | Every partition grows by the loaded entries of its model, restamped with the clock read for that model, without a limit; a model that cannot be read is skipped. |
| SemanticCaches.LoadedOnce | internal/cache/semantic.go:231-256 | A model listed once among those to recover gets exactly its own entries, stamped with the clock read for it. |
| SemanticCaches.RestampedEntry | internal/cache/semantic.go:231-256 | A loaded entry keeps model, key, vector and response and lives from the load. |
| CacheRuns.RunWithinLimit | internal/cache/semantic.go:81-229 | From empty, every run of lookups and stores keeps every partition within the limit. |
| CacheRuns.RunNeverCompacts | internal/cache/semantic.go:168-175 | In such a run a store only appends or evicts one; compaction is never reached. |
| CacheRuns.OthersUntouched | internal/cache/semantic.go:81-229 | A call on one model leaves every other partition alone. |
| CacheRuns.RunEvictsOldest | internal/cache/semantic.go:168-175 | Along every run with a non-decreasing clock a store below the limit appends, one at the limit removes exactly the first least recently used entry, and the new entry stays. |
| CacheRuns.HeldPersists | internal/cache/semantic.go:81-229 | Lookups of any model and stores on other models never remove an entry within its lifetime. |
| CacheRuns.StoreThenLookupHits | internal/cache/semantic.go:81-185 | After any such run a store is followed within the lifetime by a hit of score 1 for the same text, whatever lookups of any model and stores on other models come in between. |
| Texts.CacheText | internal/cache/semantic.go:258-265 | The cache's backward walk finds the last non-empty user message. |
| Texts.RouterText | internal/decision/strategy_semantic.go:92-103 | The router's collected list ends in the same text, on every message list. |
| Texts.LastUserTextIsLast | internal/cache/semantic.go:258-265 | That text is the content of the last qualifying message. |
| Texts.LastUserTextEmpty | internal/cache/semantic.go:258-265 | It is empty iff no message qualifies. |
| VectorCodec.EncodeVector | internal/cache/semantic.go:272-278 | The buffer holds eight bytes per word, each word at its place, little end first. |
| VectorCodec.DecodeVector | internal/cache/semantic.go:280-286 | As many words as fit, each joined from its eight bytes. |
| VectorCodec.DecodeInvertsEncode | internal/cache/semantic.go:272-286 | Decoding an encoding returns the same 64-bit words for every vector. |
| VectorCodec.EncodeInvertsDecode | internal/cache/semantic.go:272-286 | Encoding a decoding returns the bytes of the whole words: all bytes iff the length is a multiple of 8. |
| VectorCodec.EncodingIsInjective | internal/cache/semantic.go:272-278 | No two vectors share an encoding. |
| VectorCodec.LittleEndFirst | internal/cache/semantic.go:272-278 | Byte j of a word's encoding is the word divided by 256^j, modulo 256. |
| VectorCodec.BytesInOrder | internal/cache/semantic.go:272-286 | Byte j of word i stands at i*8+j. |
| RateLimiter.Window.Trim | internal/ingress/middleware_ratelimit.go:43-44 | The scores up to now-60s go; when no member is left the key and its lifetime go too. |
| RateLimiter.Window.Count | internal/ingress/middleware_ratelimit.go:45-45 | The number of members. |
| RateLimiter.Window.Add | internal/ingress/middleware_ratelimit.go:65-65 | The member is added under the time read earlier; the lifetime stays, and a new key has none. |
| RateLimiter.Window.Touch | internal/ingress/middleware_ratelimit.go:66-66 | The key lives 120 s from the command; a key that does not exist stays so. |
| RateLimiter.Window.Expire | internal/ingress/middleware_ratelimit.go:66-66 | The store drops the key once its lifetime is up. |
| RateLimiter.Window.Admit | internal/ingress/middleware_ratelimit.go:33-68 | When nobody interferes: without a limit the key is not touched; otherwise the request passes iff fewer than limit members are younger than 60 s, and then it is one of them and the lifetime is set. |
| RateLimiter.OneMinuteWindow | internal/ingress/middleware_ratelimit.go:43-66 | Trim keeps exactly the scores younger than 60 000 ms, and a key lives 120 000 ms. |
| RateLimiter.RunKeepsWindow | internal/ingress/middleware_ratelimit.go:38-66 | At every state of every legal interleaving of the five commands and key expiry, all but few admissions of a window are stored or about to be stored until the clock leaves it, and the count bound holds. |
| RateLimiter.RunKeepsInv | internal/ingress/middleware_ratelimit.go:40-66 | In every legal run the members are admissions with their times, each still under way or outlived by the key, and a key can only expire under a young member if some stored request has delayed its lifetime for over 60 s. |
| RateLimiter.WindowBound | internal/ingress/middleware_ratelimit.go:38-66 | With at most owed admitted requests and flight requests under way, counts at most stall and lifetimes at most span after the clock reading, no 60 s window holds more than limit+owed-1 admissions plus the slack of stalled counts (0, flight-1 up to 60 s, flight beyond) plus owed-1 if a key can expire early. |
| RateLimiterBounds.StallReaches | internal/ingress/middleware_ratelimit.go:40-66 | Some legal run puts limit+owed-1 plus the slack of stalled counts into one window. |
| RateLimiterBounds.EarlyExpiryReaches | internal/ingress/middleware_ratelimit.go:64-66 | Where a key can expire early, some run adds owed-1 to that, and stalls of three milliseconds more add their slack as well. |
| RateLimiterBounds.LeastBound | internal/ingress/middleware_ratelimit.go:38-66 | A number bounds every window of every legal run iff it is at least that bound, wherever the two reaching runs can be combined. |
| RateLimiterBounds.UnstalledBound | internal/ingress/middleware_ratelimit.go:38-66 | When nobody stalls, the least bound is limit+owed-1, with any number of requests under way. |
| RateLimiterBounds.LimitHoldsIff | internal/ingress/middleware_ratelimit.go:38-66 | Without stalls, or when all under way may be admitted: every legal run keeps limit+owed-1 iff no count stalls, or one request is under way and stalls last at most 60 s, and no key can expire early. |
| RateLimiterBounds.StalledReaderExceedsLimit | internal/ingress/middleware_ratelimit.go:40-46 | With limit 1, a request alone under way that stalls 60 001 ms gets a second admission into one window. |
| RateLimiterBounds.OneMillisecondExceedsBound | internal/ingress/middleware_ratelimit.go:40-46 | With limit 1 and two under way a stall of one millisecond already admits three in one window. |
| RateLimiterBounds.LateLifetimeExceedsBound | internal/ingress/middleware_ratelimit.go:65-66 | With limit 2, two under way and no stall, one lifetime set 60 001 ms late admits four in one window. |
| RateLimiterBounds.ExpiriesTakeOldIff | internal/ingress/middleware_ratelimit.go:64-66 | Every expiry takes only members over 60 s old iff no key can expire early. |
| RateLimiterBounds.AdmissionsJustifiedIff | internal/ingress/middleware_ratelimit.go:43-62 | Punctual admissions are justified iff no key can expire early. |
| RateLimiterBounds.RejectionsJustifiedIff | internal/ingress/middleware_ratelimit.go:43-62 | When all under way may be admitted, punctual rejections are justified iff members are added less than 60 s after their clock reading, or requests are serialised. |
| RateLimiter.PunctualDecision | internal/ingress/middleware_ratelimit.go:43-62 | Who counts at its own clock reading is admitted only when at most limit-1 admissions lie in its window, besides those still to be added, if no key can expire early; and rejected only when limit do, if nobody adds a member 60 s old. |
| RateLimiter.SerialDecisionIsExact | internal/ingress/middleware_ratelimit.go:43-66 | Serialised and counting within 60 s of its clock reading, a request is admitted iff fewer than limit admissions lie in its window. |
| RateLimiter.ExpiryLosesOld | internal/ingress/middleware_ratelimit.go:64-66 | If lifetimes are set within 60 s of the clock reading, or the limit or the number of admitted requests under way is 1, an expiry of the key takes only members over 60 s old. |
| Vectors.CosineSimilarity | internal/embedding/embedding.go:5-19 | The loop computes the cosine, which lies in [-1, 1]; empty, unequal or zero vectors give 0; its value is `CosineGeometry.CosineValue`. |
| Vectors.CauchySchwarz | internal/embedding/embedding.go:9-13 | The squared dot product is at most the product of the squared norms. |
| Vectors.CosineInRange | internal/embedding/embedding.go:5-19 | The cosine of any two vectors of any lengths lies in [-1, 1]. |
| Vectors.CosineOfSelf | internal/embedding/embedding.go:5-19 | A nonzero vector has cosine 1 with itself, the zero vector 0. |
| Vectors.CosineIgnoresScale | internal/embedding/embedding.go:5-19 | A positive factor on a vector changes no cosine. |
| CosineGeometry.CosineValue | internal/embedding/embedding.go:5-19 | For equal non-empty lengths and nonzero norms the cosine times both roots of the sums of squares is the sum of the products, the sums written out; otherwise it is 0. |
| CosineGeometry.EqualityMeansParallel | internal/embedding/embedding.go:9-13 | The equality case of Cauchy-Schwarz: then one vector is a multiple of the other. |
| CosineGeometry.CosineOfMultiple | internal/embedding/embedding.go:5-19 | A nonzero vector has cosine 1 with its positive and -1 with its negative multiples. |
| CosineGeometry.CosineIsOneIff | internal/embedding/embedding.go:5-19 | For nonzero vectors the cosine is 1 iff one is a positive multiple of the other, and -1 iff a negative one. |
| Vectors.NormalizeVector | internal/embedding/embedding.go:21-35 | The vector over its norm in a new array, or the argument array itself when the norm is 0. |
| Vectors.NormalizedKeepsCosine | internal/embedding/embedding.go:21-35 | Normalising changes no cosine, and a nonzero vector gets norm 1. |
| Pooling.PadAndMask | internal/embedding/onnx.go:145-157 | Ids and mask of the fixed length: the first min(tokens, length) ids with mask 1, zeros after. |
| Pooling.ReshapeHidden | internal/embedding/onnx.go:159-170 | Cell (b, s, d) is the flat entry (b*len+s)*dim+d. |
| Pooling.ReshapeMask | internal/embedding/onnx.go:172-179 | Cell (b, s) is the flat entry b*len+s. |
| Pooling.HiddenAtReadsStates | internal/embedding/onnx.go:159-170 | That flat entry is the right one: of states written text after text, position after position, it reads component d at position s of text b. |
| Pooling.MaskAtReadsRows | internal/embedding/onnx.go:172-179 | And so for the mask. |
| Pooling.MeanPooling | internal/embedding/embedding.go:37-62 | Each component is the weighted sum over its positions, divided by the weight sum when that is positive. |
| Pooling.PooledIsCoveredMean | internal/embedding/embedding.go:43-58 | Masked pooling of a padded text is the mean over its covered positions, zero when there are none. |
| Pooling.PaddingIsIrrelevant | internal/embedding/embedding.go:43-58 | Hidden states that agree on the covered positions pool alike. |
| Pooling.MeanGrows | internal/embedding/embedding.go:43-58 | One more covered position adds its value to n times the mean. |
| Pooling.MeanIsBetween | internal/embedding/embedding.go:43-58 | Each pooled component lies between the least and the greatest covered value. |
| Pooling.BuildInputs | internal/embedding/onnx.go:82-92 | The flat ids and mask of the batch hold every padded text in its own row. |
| Pooling.Embed | internal/embedding/onnx.go:76-137 | The vector of every text is the normalised mean of the hidden states at its first min(tokens, 512) positions, read at flat index (b*512+s)*512+d. |
| SemanticRouter.BuildPrototype | internal/decision/strategy_semantic.go:41-51 | The nested loops and the division build the normalised average of the exemplar vectors, the shorter ones added on their own length. |
| SemanticRouter.EveryExemplarCounts | internal/decision/strategy_semantic.go:41-51 | Every exemplar is added to the sum, each to its own length; one exemplar is its own sum. |
| SemanticRouter.PrototypeKeepsScores | internal/decision/strategy_semantic.go:41-51 | Averaging and normalising change no score against any query. |
| SemanticRouter.NewSemanticRouter | internal/decision/strategy_semantic.go:26-60 | One prototype per category whose exemplars have vectors, in order; none without an embedder, and nothing when it fails. |
| SemanticRouter.Route | internal/decision/strategy_semantic.go:62-90 | The answer is that of the first maximal score that is positive and at least the threshold; empty when the query is unusable or there is no such score. |
| SemanticRouter.SomeoneWinsIff | internal/decision/strategy_semantic.go:76-90 | Some category answers iff one scores above zero and at or above the threshold. |
| SemanticRouter.AnswerIsGreatest | internal/decision/strategy_semantic.go:62-90 | The answer is that of the first category of the greatest score of all, with that score, positive and at least the threshold, as confidence. |
| SemanticRouter.ScoresAreOfText | internal/decision/strategy_semantic.go:62-76 | The scores are the cosines of the code of exactly this text with the prototypes, and there are none without categories or for an empty or too long text. |
| SemanticRouter.PrototypesKeepDecision | internal/decision/strategy_semantic.go:26-90 | Route on the router built from a configuration answers the category that the raw sums of the exemplar vectors would choose, and none in the same cases. |
| Registries.Registry.constructor | internal/egress/adapter.go:16-21 | An empty registry with consistent indexes. |
| Registries.Registry.Register | internal/egress/adapter.go:23-31 | The provider is appended and both indexes stay functions of the list. |
| Registries.Registry.ProvidersForModel | internal/egress/adapter.go:41-48 | The providers of the model in registration order, once per listing. |
| Registries.Registry.ProviderByName | internal/egress/adapter.go:50-54 | The last registered provider of the name. |
| Registries.NamedIsLast | internal/egress/adapter.go:50-54 | It is the provider registered last under the name: none after it has that name. |
| Registries.NobodyNamed | internal/egress/adapter.go:50-54 | There is none iff nobody registered the name. |
| Registries.Registry.Providers | internal/egress/adapter.go:33-39 | All providers in registration order. |
| Registries.ForModelMembers | internal/egress/adapter.go:23-48 | A model's index holds exactly the registered providers that list it. |
| Registries.ForModelIsFilterIff | internal/egress/adapter.go:28-30 | The index equals the filter of the list iff no provider lists the model twice. |
| Registries.ListedTwiceIndexedTwice | internal/egress/adapter.go:28-30 | A failing input: a provider that lists a model twice stands twice in its index. |
| Routers.Router.ResolveModelList | internal/decision/router.go:112-123 | The first model of the list with a provider decides, with one Select on its providers; without one there is no decision and no change. |
| Routers.Router.ResolveWithBalancer | internal/decision/router.go:125-139 | No decision and no change without providers; otherwise one Select on the model's candidates, and the decision names the candidate it chose, or the first provider when that name is empty. |
| Routers.Router.RouteByStrategies | internal/decision/router.go:61-95 | The strategies are tried in configured order; unknown or unconfigured ones propose nothing. |
| Routers.Router.RouteByDefault | internal/decision/router.go:97-108 | Then the default cascade, then the requested model. |
| Routers.Router.Route | internal/decision/router.go:55-110 | An explicit model splits at its first slash and touches nothing; otherwise the first served step of the whole chain decides, for the provider that Select chooses among those of its model, with exactly that one Select; none when the chain is unserved. |
| Routers.Router.constructor | cmd/gateway/main.go:156-175 | The weight of a provider is the configured one, 100 where none is. |
| Routers.ChainInOrder | internal/decision/router.go:61-108 | The first configured strategy proposes first, then the others; without any, the default cascade and then the requested model unless it is empty. |
| Routers.StrategiesSpeak | internal/decision/router.go:61-95 | "semantic", "capability" and "cost_cascade" propose what their own router answers, all of it; an empty cascade becomes the default one, and any other strategy proposes nothing. |
| Routers.RequestedIsServed | internal/decision/router.go:97-110 | With a provider for the requested model the chain is served, whatever the strategies propose. |
| RouteRuns.DecidedIsGreatest | internal/decision/router.go:125-139 | The decided provider has the greatest current weight plus configured weight among the providers of the decided model. |
| RouteRuns.OnlyEmptyNamesGiveWay | internal/decision/router.go:129-137 | Only an empty chosen name gives way to the first provider. |
| RouteRuns.RoutesAreFair | internal/decision/router.go:55-139 | On a balancer that has not used the providers of the first served model yet, as many calls of Route as their weights add up to decide every provider exactly as often as its configured weight. |
| Routers.ServedOrNot | internal/decision/router.go:55-110 | A chain has at most one first served step, and none exactly when it is unserved. |
| Routers.DecidedProviderIsRegistered | internal/decision/router.go:112-139 | With the registry behind the router the decided provider is registered and lists the decided model. |
| Routers.UnservedMeansUnregistered | internal/decision/router.go:110-123 | A chain is unserved iff no registered provider lists any of its models. |
| Streams.StreamOpenAI | internal/egress/openai.go:147-167 | The line loop sends exactly the chunks that pass the filter up to the first terminator or error, and the scanner's error if no line ended the stream. |
| Streams.PaddingIsIgnored | internal/egress/openai.go:101-105 | White space around an OpenAI line changes nothing of how it is read. |
| Streams.DataLineCarriesPayload | internal/egress/openai.go:101-125 | A data line carries its payload whatever white space follows the colon: [DONE] ends the stream, malformed JSON is an error, otherwise id, model and the first choice's delta get through. |
| Streams.OwnClosingLineTerminates | internal/ingress/handler.go:121-124 | The closing line the gateway writes is read as a terminator by its own OpenAI loop. |
| Streams.StreamAnthropic | internal/egress/anthropic.go:195-224 | The same for Anthropic, though the loop carries the announced event from line to line; what a line sends is `StreamPayloads.AnthropicDataLineSends`. |
| Streams.EventTypeIsIrrelevant | internal/egress/anthropic.go:119-156 | The event type changes no result of parsing a data line. |
| Streams.EventLinesAreIrrelevant | internal/egress/anthropic.go:199-219 | Deleting every event: line changes nothing of what is sent. |
| Streams.TextIsPreserved | internal/egress/openai.go:151-163 | A loop whose filter drops no text sends exactly the concatenated text of all lines before the one that ends the stream. |
| Streams.OpenAITextIsPreserved | internal/egress/openai.go:101-163 | So for OpenAI lines, although chunks without id and text are dropped. |
| Streams.AnthropicTextIsPreserved | internal/egress/anthropic.go:119-219 | So for Anthropic lines. |
| StreamPayloads.OpenAIDataLineSends | internal/egress/openai.go:101-163 | With any white space after the colon: [DONE] sends the closing chunk, malformed JSON a provider_error, an event its id, model and first choice's delta unless it has neither id nor text. |
| StreamPayloads.OtherOpenAILineSendsNothing | internal/egress/openai.go:103-105 | A blank line or one without data: sends nothing and ends nothing. |
| StreamPayloads.AnthropicDataLineSends | internal/egress/anthropic.go:119-219 | For any white space around a JSON object: message_start sends id, model and role, a text_delta exactly its text, message_stop the closing chunk, malformed JSON a provider_error; any other kind or kind of delta sends nothing. |
| StreamPayloads.OtherAnthropicLineSendsNothing | internal/egress/anthropic.go:200-219 | Any other line, and a data line without a JSON object, sends nothing and ends nothing. |
| StreamPayloads.AnthropicTextIsDeltas | internal/egress/anthropic.go:119-219 | The text sent is the concatenation of the texts of the text_delta lines before the first line that is a message_stop or malformed. |
| StreamPayloads.OpenAITextIsChoices | internal/egress/openai.go:101-163 | And for OpenAI that of the first choices before the first [DONE] or malformed line. |
| Streams.EndOfStream | internal/egress/openai.go:151-166 | At most one chunk is terminal, and it is the last: an error iff the ending line is malformed or no line ends the stream and the scanner fails, a terminator iff the ending line is one. |
| Streams.OpenAIEnds | internal/egress/openai.go:101-167 | An OpenAI stream ends at most once, with an error exactly in those cases. |
| Streams.AnthropicEnds | internal/egress/anthropic.go:119-224 | An Anthropic stream ends at most once, with an error exactly in those cases. |
| StreamPipeline.HandleStream | internal/ingress/handler.go:80-110 | A refused request or a missing flusher gets only an error answer; otherwise the handler writes every event up to the first error, then the closing line iff there was none. |
| StreamPipeline.WrittenInOrder | internal/ingress/handler.go:99-110 | The client is written one event a chunk, in order, up to and including the first error; the closing line comes at the end, exactly when there is none. |
| StreamPipeline.Forward | internal/ingress/service.go:149-163 | The forwarding loop passes every chunk on and records each error, or one success. |
| StreamPipeline.RunKeeps | internal/ingress/service.go:149-163 | The invariant of provider, service and handler holds in every state of every interleaving. |
| StreamPipeline.OutputIsPrefix | internal/ingress/handler.go:99-109 | At every moment of every interleaving the client has a prefix of what the handler's loop writes. |
| StreamPipeline.AlwaysComesToRest | internal/ingress/service.go:149-163 | No schedule makes more than 2n+3 steps for n chunks. |
| StreamPipeline.EveryRunEnds | internal/ingress/handler.go:80-110 | At rest the output is exactly the handler's, the records exactly those of the chunks that left the provider, and no sender is blocked iff the handler took all chunks. |
| StreamPipeline.BlockedIff | internal/ingress/handler.go:93-109 | No sender stays blocked iff there are no chunks, or the handler streams and no chunk follows the first error. |
| StreamPipeline.PipelineDelivers | internal/ingress/service.go:149-163 | For a provider that ends its stream at most once, every interleaving ends with no sender blocked, exactly one outcome, every chunk in order, [DONE] iff no error, and exactly the provider's text. |
| StreamPipeline.OpenAIEndToEnd | internal/egress/openai.go:147-167 | From OpenAI lines to the client: the text of all lines before the ending one, one outcome, [DONE] iff the stream did not fail, no sender blocked. |
| StreamPipeline.AnthropicEndToEnd | internal/egress/anthropic.go:195-224 | The same from Anthropic lines. |
| StreamPayloads.AnthropicTextReachesClient | internal/egress/anthropic.go:119-224 | In every interleaving of provider, service and handler the client ends with exactly the texts of the text_delta lines before the ending one. |
| StreamPayloads.OpenAITextReachesClient | internal/egress/openai.go:101-167 | And for OpenAI with exactly those of the first choices. |
| StreamService.OpeningOutcomes | internal/ingress/service.go:122-147 | A stream opens iff SendStream is called and succeeds, then without an outcome yet; a failing SendStream records one failure; anything earlier records nothing. |
| StreamService.OneOutcomePerStream | internal/ingress/service.go:149-163 | Every opened stream settles as exactly one outcome on its own key, whatever world it finds when it records: failure iff it carried an error chunk. |

## Left out

- HTTP clients, Gin, Redis, the ONNX runtime and the tokenizer: foreign calls; providers, the inference session, the embedder and JSON are function parameters, the rate limiter's store is a map with an expiry time.
- Floating-point rounding: numbers are reals. The balancer's weights as wired are integers whose bounds keep float64 exact; cosine and pooling are stated over the reals with any square root.
- 64-bit time and counters: times, durations and failure counts are unbounded integers, so an overflow of the doubling backoff is not modelled.
- Balancers.EffectiveWeight: a load denominator of zero, which negative penalties could produce and which gives an infinite weight in the source, is excluded by a requires.
- Balancers.Balancer.Weigh: the same requires, for each candidate.
- Balancers.Balancer.Select: the same requires, for each candidate.
- ChatServers.ChatServer.Execute: the engine's loop appears twice, once over an arbitrary environment and once calling this service's send function, because a Dafny function value cannot change an object; both are proved against the same walk.
- ChatGateways.ChatGateway.HandleChatCompletion: one request at a time on the objects; the interleaving of several is proved on values in ServiceInterleavings.
- ChatServiceProofs.EveryRunIsSound: requests and stream outcomes follow one another; `ServiceInterleavings.EveryInterleavingIsSound` is the form in which they interleave.
- ServiceInterleavings.EveryInterleavingIsSound: each breaker call is one atomic step, as its mutex makes it; a request may ask for any provider and need not use its admission, so the protocol allows more than the service does; `ChatIsEvents` shows that it allows every chat request.
- RateLimiterBounds.LeastBound: two cases have the upper bound of WindowBound only: counts that stall while fewer requests may be admitted than under way, and an early expiry together with a stall at most two milliseconds above 0 or above 60 s.
- RateLimiter.WindowBound: the store's clock and the requests' clocks are one, and an expired key may still be seen for a while, which allows more runs than the store does.
- SemanticCaches.LookupIn: runs without interleaving; what may happen between its scan and its read is `CachePointers.PointerKeepsAnswer`.
- CachePointers.PointerKeepsAnswer: a write is one step, so a scan or a read torn in the middle of a write is not modelled.
- SemanticCaches.SemanticCache.Lookup: scan, removal and stamp of one lookup run without interleaving; what may happen between them is `CacheEntries.StaleRemovalIsSafeIff` and `AppendsAndStampsAreSafe`.
- SemanticCaches.SemanticCache.Append: the growth of a Go slice is modelled as doubling; the source leaves the new capacity to the runtime.
- Routers.Router.Route: a router built without a balancer or a candidate builder, which takes the first provider, is not modelled; the gateway always wires both. What the semantic, capability and cost routers answer is a parameter.
- Pooling.MeanPooling: the padded rectangular batch the pipeline builds; ragged batches, which would index out of range, are excluded by the array types.
- Streams.StreamOpenAI: lines arrive as a sequence with an optional scanner error; reading the response body, cancelling it and the HTTP status check before it are outside.
- StreamPipeline.HandleStream: an event is written as its chunk; JSON encoding and write errors, which the source ignores, are outside.
- The condition language of the capability router, the cost table, the error patterns of `IsRetryable` and the status table of the handler: single-branch lookups that no other part of the model depends on.
- Metrics, logging, configuration, health checks, authentication and validation middleware.
- Redis failure paths of the limiter (requests pass) and of the cache store (errors ignored).
- Warm-up progression and health windows: configured, not computed by the code.
