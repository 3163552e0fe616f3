# Verification of the inference gateway's request path

A Dafny model of the gateway's request pipeline and of the shared parts it works on: the
token-budget rate limiter, the circuit breakers, the latency tracker and routing policies, the
backend registry, the two-tier cache and the server-sent events of a streamed completion.
`dafny verify dfyconfig.toml` checks the whole project.

## How the model is built

* **Shared parts.** Every Redis script or command is one atomic step. Each part has a step function
  on values and a `Run` over any sequence of steps, so that any number of replicas may interleave. The
  classes `LimiterKey`, `Breaker`, `Tracker`, `Registry` and `Cache` carry the steps out on mutable
  fields, and their methods are proved to do exactly what the step functions say.
* **The limiter** exists twice: `RateLimiter` works on the member strings `id:cost` that Redis holds
  and reads them back by pattern matching; `TokenWindow` works on records. The first refines the second.
  The TTL is part of the state, including the cases in which the source sets none or loses it.
* **A request** (`Orchestrator`) runs against an `Env`, which answers what the rest of the system tells
  it. The answers of breakers, policies and backends may depend on everything the request did
  before, so an `Env` can stand for any shared state and any interference. A run is the trace of the
  request's effects and its outcome. `HandleComplete` and `HandleStream` are the source's two loops;
  `Handle` specifies both.
* **Whole runs** (`GatewayRuns`) are sequences of steps of any number of requests. Each request's
  own steps are a prefix of its trace, so requests may be in flight or abandoned anywhere, and each
  answer that a request got from the limiter, the cache or a breaker is the answer that part gives after
  the steps before it.
* A cache lookup is two steps, one per tier, as a cache write is.
* Time is an integer, costs and prices are exact. A clock shared by all replicas is assumed only
  where `Ordered` or `OneClock` appears.

| file | content |
|---|---|
| Common, Sorting | sums and collections over sequences; the stable sort |
| MemberCodec, TokenWindow, RateLimiter, LimiterExpiry | the limiter, and what key expiry can change |
| CircuitBreaker | the breaker |
| LatencyTracker, Routing | rolling p95, the two policies, repeated selection |
| BackendRegistry | reload, candidates, client lifecycle |
| CacheKeys, TwoTierCache | key text; L1 and L2 against the history of writes |
| Orchestrator, Failover, Streaming | the pipeline, failover, streaming rules |
| RequestTraces, Outcomes, GatewayRuns | ledger, cache and breaker discipline, outcomes and order of steps of one request, and whole runs |
| Sse | frames and the wire format |

## Where code and documentation differ

The model follows the code.

* HLD+LLD.md:258 promises one half-open probe. The script lets every caller through
  (src/gateway/resilience/breaker.py:29-30): `HalfOpenAdmitsManyProbes`.
* src/gateway/routing/base.py:18-19 says that candidates are filtered by their breakers before
  `select`. The orchestrator asks the breaker after it (src/gateway/orchestrator.py:178-183).
* `record` is declared to return the state (src/gateway/resilience/breaker.py:75), but returns nothing
  until a success or a trip has stored one.
* A reserve sets the TTL to the window, but a reconcile moves an entry forward without extending it
  (src/gateway/resilience/ratelimit.py:49-50), and a reconcile that comes after the expiry finds nothing.
  So an expiring key can forget charges (`ExpiryCanOverAdmit` gives a run). Exactly when:
  `ExpiryHarmlessExactly` for a run of one key, `RunExpiryHarmlessExactly` for runs of the gateway.
* A reload that fails at one row leaves the clients it has already made for earlier rows open and
  unreferenced (src/gateway/backends/registry.py:63-67). Exactly those are lost: `NoClientLostExactly`.
* A stream that breaks after its first chunk raises AllBackendsUnavailable without a 503 row
  (src/gateway/orchestrator.py:326-327): `BrokenStreamIsNotLogged`; `GivingUpIsLogged` is exact.
* With a window size of 0 the tracker's LTRIM keeps everything; the list is capped exactly for sizes of
  1 and more (`CappedExactly`).
* The exact-cache key does not identify the message list: every list of two or more messages shares its
  hashed text with a shorter one (`ManyCollide`), and every content that holds a bar followed by a role
  name and a colon with a longer one (`AmbiguousCollides`). `TextIsOwnExactly` gives the exact
  condition on one request, `KeysIdentifyRequests` one for pairs.
* The L2 TTL of HLD+LLD.md:55 and the EWMA fallback of HLD+LLD.md:265 do not exist in the code.

## Model

| member | source | states |
|---|---|---|
| `MemberCodec.CostRoundTrip` | src/gateway/resilience/ratelimit.py:26-28 | the pattern `:(%-?%d+)$` reads back exactly the cost that was printed behind a colon-free id |
| `MemberCodec.PrefixSelectsId` | src/gateway/resilience/ratelimit.py:48-48 | among members with ids of one length, the prefix test selects exactly those of the given id |
| `MemberCodec.MemberInjective` | src/gateway/resilience/ratelimit.py:35-35 | two member strings are equal only if their ids and costs are |
| `MemberCodec.WritesDecimal` | src/gateway/resilience/ratelimit.py:35-35 | costs are written in decimal behind a colon, and read back from there |
| `TokenWindow.TrimmingIsHarmless` | src/gateway/resilience/ratelimit.py:22-37 | in every interleaving under one clock and a fixed positive window, without expiry, the stored set is a never-trimmed log restricted to the live scores, and each reserve is decided as the true in-window sum decides it |
| `TokenWindow.BudgetBound` | src/gateway/resilience/ratelimit.py:22-53 | in every reachable state the stored costs are at most the budget plus the upward corrections since the last admitted reserve, and at most the budget right after one, whatever clocks, trims, denials and expiries |
| `TokenWindow.ScoresAreExplained` | src/gateway/resilience/ratelimit.py:35-50 | in every reachable state the deadline is the last admitted reserve's time plus window, and every newer score, or a missing TTL, comes from a later reconcile |
| `TokenWindow.ExpiryLosesOnlyRescored` | src/gateway/resilience/ratelimit.py:35-50 | an entry still in its window when the deadline has passed was re-scored by a reconcile after the last admitted reserve |
| `TokenWindow.MissingTtlMeansSoleReconciled` | src/gateway/resilience/ratelimit.py:49-50 | a key without a TTL holds exactly one entry, re-scored since the last admitted reserve |
| `TokenWindow.DeadlineExactly` | src/gateway/resilience/ratelimit.py:22-51 | the deadline after every operation: set by an admitted reserve, lost by whatever empties the set on the way, kept otherwise; a non-positive window deletes the key |
| `TokenWindow.SetIsOrdered` | src/gateway/resilience/ratelimit.py:24-50 | the stored set is always in ascending order of scores |
| `LimiterExpiry.ExpiryHarmlessWithoutReconcile` | src/gateway/resilience/ratelimit.py:35-36 | in runs without reconcile, expiry never changes a later decision |
| `LimiterExpiry.DeletionHarmlessExactly` | src/gateway/resilience/ratelimit.py:22-54 | deleting a key leaves every decision of everything that requests can still do to it alone if and only if nothing is charged in the window and no stored reservation still awaits its reconcile |
| `LimiterExpiry.StrangersAgree` | src/gateway/resilience/ratelimit.py:22-54 | when nothing is charged in the window, a deletion is not noticed by any later sequence that reserves with new ids and leaves the stored reservations alone |
| `LimiterExpiry.LateReconcileTells` | src/gateway/resilience/ratelimit.py:46-54 | after a deletion the late reconcile of any stored reservation misses, and a reserve that the kept key denies is admitted |
| `LimiterExpiry.ExpiryHarmlessExactly` | src/gateway/resilience/ratelimit.py:35-54 | the first expiry of a valid run goes unnoticed in all its valid continuations if and only if nothing was charged in the window and every stored reservation had been reconciled |
| `LimiterExpiry.ExpiryCanOverAdmit` | src/gateway/resilience/ratelimit.py:36-50 | a valid run, with ids of the real length, in which expiry after a reconcile admits a reserve that the persistent key denies |
| `RateLimiter.SumCosts` | src/gateway/resilience/ratelimit.py:24-29 | the loop over the members adds up their costs, or fails on one without a cost |
| `RateLimiter.LimiterKey.Reserve` | src/gateway/resilience/ratelimit.py:14-38 | the reserve script on strings leaves the state and gives the reply of the string-level step |
| `RateLimiter.LimiterKey.Reconcile` | src/gateway/resilience/ratelimit.py:40-55 | the reconcile script likewise, including the key and TTL lost when ZREM empties the set |
| `RateLimiter.TextRefinesRecords` | src/gateway/resilience/ratelimit.py:14-55 | in every run with fresh ids and costs below the exponent limit the strings hold exactly the record-level state, at most one member per id, and every reply is the record-level one; no script fails |
| `RateLimiter.StoredCostIsLastCharge` | src/gateway/resilience/ratelimit.py:35-50 | every stored reservation is charged what the last operation on it said |
| `CircuitBreaker.Breaker.Allow` | src/gateway/resilience/breaker.py:12-31 | the allow script is the step function, a Lua error on a missing `opened_at` included |
| `CircuitBreaker.Breaker.Record` | src/gateway/resilience/breaker.py:33-54 | the record script is the step function and returns the stored state |
| `CircuitBreaker.RunHasClosedForm` | src/gateway/resilience/breaker.py:17-53 | every interleaving, by any clocks, leads to exactly the state read off the history: phase, failure count and `opened_at`, missing fields included |
| `CircuitBreaker.AllowExactly` | src/gateway/resilience/breaker.py:17-30 | allow is true exactly when trailing failures are below the threshold, or the cooldown is over, or an earlier probe found it over; `opened_at` is never missing |
| `CircuitBreaker.AllowUnderOneClock` | src/gateway/resilience/breaker.py:17-30 | under one clock the probe clause disappears |
| `CircuitBreaker.HalfOpenTestRedundant` | src/gateway/resilience/breaker.py:47-47 | in reachable states the failure count alone decides a trip |
| `CircuitBreaker.HalfOpenExactly` | src/gateway/resilience/breaker.py:21-25 | the breaker is half-open if and only if it is tripped and a probe since has found the cooldown over |
| `CircuitBreaker.HalfOpenIsReached` | src/gateway/resilience/breaker.py:21-49 | for every threshold and cooldown some run reaches half-open |
| `CircuitBreaker.HalfOpenAdmitsManyProbes` | src/gateway/resilience/breaker.py:29-30 | while half-open, any number of probes is let through |
| `LatencyTracker.ListIsRecentHistory` | src/gateway/resilience/latency_tracker.py:21-31 | in every interleaving of pushes and trims the list is a prefix of the reversed history, at least min(k, W) and at most W plus the pushes awaiting their trim long |
| `LatencyTracker.CappedExactly` | src/gateway/resilience/latency_tracker.py:30-31 | the length bound holds in all interleavings if and only if the window size is at least 1 |
| `LatencyTracker.ZeroWindowKeepsAll` | src/gateway/resilience/latency_tracker.py:31-31 | with window 0 nothing is ever trimmed |
| `LatencyTracker.P95IsOrderStatistic` | src/gateway/resilience/latency_tracker.py:33-39 | p95 is a sample with more than floor(95n/100) samples at most it and at most so many below it; the clamp never changes the index |
| `Sorting.SortIsTheStableSort` | src/gateway/routing/cost.py:18-18 | a list is the sort's result if and only if it is ordered and keeps, rank by rank, the elements in their order |
| `Routing.LatencyChoiceIsBest` | src/gateway/routing/latency.py:17-24 | the policy picks the first candidate that none beats: one without data if there is any, else one of the least p95 |
| `Routing.LatencyVisitsFastestFirst` | src/gateway/routing/latency.py:17-24 | repeated selection visits every candidate, those without data first, then by ascending p95, equal ones as in the list |
| `Routing.CostVisitsByCost` | src/gateway/routing/cost.py:17-19 | repeated selection visits by ascending sum of input and output price, equal ones as in the list, below the complexity threshold, and in exactly the reverse order from it on |
| `BackendRegistry.Build` | src/gateway/backends/registry.py:60-67 | the loop fills both dictionaries as the functions of the rows read so far say, up to the first factory error |
| `BackendRegistry.SortGroups` | src/gateway/backends/registry.py:69-70 | every group is replaced by its stable priority sort |
| `BackendRegistry.Registry.Install` | src/gateway/backends/registry.py:55-73 | a reload swaps in both indexes and queues the old clients for closing, or changes nothing on a factory error |
| `BackendRegistry.Registry.Candidates` | src/gateway/backends/registry.py:78-81 | pairs each backend of the model, in order, with its client |
| `BackendRegistry.CandidatesAgreeWithSnapshot` | src/gateway/backends/registry.py:55-81 | after any events the candidates of m are the stable priority sort of the enabled rows for m in the snapshot last swapped in, each with a client |
| `BackendRegistry.CandidatesByPriority` | src/gateway/backends/registry.py:63-81 | the candidates of m are exactly the enabled rows for m in the snapshot last swapped in, by ascending priority number, rows of equal priority as they stand in the table |
| `BackendRegistry.ClientIsOwn` | src/gateway/backends/registry.py:63-67 | with distinct ids, each enabled row is served by the client that the factory made when it came to that row |
| `BackendRegistry.InstallConserves` | src/gateway/backends/registry.py:59-73 | a reload that succeeds moves the old clients to the closing queue and adds only new ones |
| `BackendRegistry.CloseConserves` | src/gateway/backends/registry.py:75-76 | a close moves one client from awaiting to closed |
| `BackendRegistry.InstalledClientsAreOpen` | src/gateway/backends/registry.py:59-76 | under any interleaving of reloads no installed client has been closed and none is closed twice |
| `BackendRegistry.TrackedExactly` | src/gateway/backends/registry.py:55-76 | after any interleaving a client is installed, awaiting its close, or closed, once in all, if and only if it was made and no failed reload left it behind |
| `BackendRegistry.NoClientLostExactly` | src/gateway/backends/registry.py:63-73 | every client made is accounted for if and only if no reload failed after the factory had made one |
| `BackendRegistry.CandidatesDistinct` | src/gateway/backends/registry.py:78-81 | snapshots with a primary key give candidates with distinct ids |
| `CacheKeys.L1KeyInjective` | src/gateway/cache/exact.py:13-14 | with digests of one length equal keys have equal model and digest, colons in the model included |
| `CacheKeys.KeysIdentifyRequests` | src/gateway/orchestrator.py:71-73 | unless the hash collides on them, two requests share a key if and only if model and messages are equal, when no content holds a bar followed by a role name and a colon |
| `CacheKeys.NoBarMeansUnambiguous` | src/gateway/orchestrator.py:72-72 | contents without a bar meet that condition |
| `CacheKeys.AmbiguousCollides` | src/gateway/orchestrator.py:72-72 | every list with a hidden message shares its hashed text with a longer list |
| `CacheKeys.ManyCollide` | src/gateway/orchestrator.py:72-72 | every list of two or more messages shares its hashed text with a shorter list |
| `CacheKeys.TextIsOwnExactly` | src/gateway/orchestrator.py:71-73 | no other message list of the model has a request's hashed text if and only if the request is at most one message and hides none |
| `CacheKeys.KeyFormats` | src/gateway/orchestrator.py:71-73 | the hashed text and the Redis key of one request, written out |
| `TwoTierCache.Cache.Embed` | src/gateway/cache/semantic.py:38-49 | the factory is asked at most once per process and its first answer stays |
| `TwoTierCache.Cache.Lookup` | src/gateway/cache/cache.py:15-23 | answers from L1 without resolving the embedder, else from L2 as it stands after the awaited writes of others, else nothing |
| `TwoTierCache.Cache.Store` | src/gateway/cache/cache.py:25-47 | writes L1 and, if there is an embedder, after the awaited writes of others, L2 |
| `TwoTierCache.GetRefinesHistory` | src/gateway/cache/cache.py:15-23 | a lookup that reads L1 after one history of writes and L2 after any longer one answers as they prescribe: the latest live write of the key, else the best similar write of the model, else nothing |
| `TwoTierCache.NearestThenCheck` | src/gateway/persistence/repositories.py:143-171 | taking the nearest row and then checking it equals filtering by threshold and then taking the nearest |
| `TwoTierCache.BestIsMostSimilar` | src/gateway/persistence/repositories.py:143-171 | L2 has an answer if and only if some write of the model reaches the threshold, and it is a most similar one |
| `TwoTierCache.AnyLiveMeansLatestLive` | src/gateway/cache/exact.py:34-40 | under one clock, if any write of a key is live then so is the latest |
| `TwoTierCache.HitWasWritten` | src/gateway/cache/cache.py:15-47 | an L1 hit was written under the same model and digest and is live; an L2 hit needs an embedder and was written under the same model with a similarity that reaches the threshold |
| `Orchestrator.HandleComplete` | src/gateway/orchestrator.py:122-237 | the pipeline performs the effects and ends as `Handle` specifies |
| `Orchestrator.CompleteLoop` | src/gateway/orchestrator.py:177-237 | the failover loop does what the recursive walk specifies |
| `Orchestrator.CompleteCall` | src/gateway/orchestrator.py:182-199 | one allowed call and its end, as the attempt specifies |
| `Orchestrator.HandleStream` | src/gateway/orchestrator.py:239-368 | the streaming pipeline performs the effects and ends as `Handle` specifies |
| `Orchestrator.StreamLoop` | src/gateway/orchestrator.py:302-368 | the streaming failover loop does what the recursive walk specifies |
| `Orchestrator.StreamCall` | src/gateway/orchestrator.py:310-333 | one streamed call: chunks passed on, then the answer or the failure, before or after the first chunk |
| `Orchestrator.Consume` | src/gateway/orchestrator.py:316-322 | the event loop passes on exactly the text chunks and keeps the last usage |
| `Orchestrator.Join` | src/gateway/orchestrator.py:330-330 | the content is the chunks in their order: each stands where the ones before it end, and nothing more follows |
| `Orchestrator.ConcatAppend` | src/gateway/orchestrator.py:330-330 | the content of two runs of chunks is the one content followed by the other |
| `Orchestrator.ChunksAreTexts` | src/gateway/orchestrator.py:316-322 | the chunks are the texts of the events, in order, and of no usage event |
| `Orchestrator.UsageIsLast` | src/gateway/orchestrator.py:317-333 | tokens and finish reason are those of the last usage event, or zeros and "stop" without one |
| `Orchestrator.CharsOfAll` | src/gateway/orchestrator.py:60-60 | the counted characters are the sum of the lengths of all contents |
| `Orchestrator.EstimateTokens` | src/gateway/orchestrator.py:56-61 | the estimate is a quarter of the characters, rounded down, and at least one |
| `Orchestrator.EstimateComplexity` | src/gateway/orchestrator.py:64-68 | the complexity is the share of 2000 characters, and at most one |
| `Orchestrator.FirstWithId` | src/gateway/orchestrator.py:179-179 | the chosen id is looked up as the first candidate that has it |
| `Failover.WalkCounts` | src/gateway/orchestrator.py:177-199 | each candidate is examined at most once and no one else is; calls equal grants equal breaker records, so refused backends get no record |
| `Failover.WalkNamesCandidates` | src/gateway/orchestrator.py:178-186 | a walk examines, calls and hears from its candidates alone |
| `Failover.FailoverIsExhaustive` | src/gateway/orchestrator.py:177-237 | the non-streaming walk gives up if and only if every candidate was refused or failed; otherwise it returns the answer of one that was neither |
| `Failover.WalkEndsRightly` | src/gateway/orchestrator.py:302-368 | the same for both walks, a broken stream being the one other way to give up |
| `Failover.CompleteGivesUpExactly` | src/gateway/orchestrator.py:122-237 | handle_complete raises AllBackendsUnavailable if and only if it is admitted, misses the cache, has candidates, and all are dismissed |
| `Failover.FirstSuccessWins` | src/gateway/orchestrator.py:177-231 | nothing is examined, called or answered after the first success |
| `Failover.WalkFollowsVisitOrder` | src/gateway/orchestrator.py:178-180 | with policy data fixed during the request, the walk examines a prefix of the policy's visiting order, and all of it when it gives up without text |
| `Failover.LatencyRequestIsSorted` | src/gateway/orchestrator.py:177-180 | under the latency policy the whole request examines candidates without data first, then by ascending p95, equal ones as listed |
| `Failover.CostRequestIsSorted` | src/gateway/orchestrator.py:172-180 | under the cost policy it examines them by ascending sum of prices, or in exactly the reverse order, by the complexity of its messages |
| `Streaming.StreamNeverSplices` | src/gateway/orchestrator.py:285-364 | in every run all delivered text is one cache hit's, with no call, or the chunks of the last call, before which nothing was delivered; the result comes last, once, its content is the delivered chunks in their order and is what is cached; an exception follows no result and no cache write |
| `Streaming.WalkHasOneSource` | src/gateway/orchestrator.py:302-368 | the streaming walk delivers from one call at most and calls no backend after it |
| `Streaming.WalkTerminatesRightly` | src/gateway/orchestrator.py:302-368 | the streaming walk ends in one terminal result that matches the text, or in an exception without one |
| `Streaming.StreamAgreesWithComplete` | src/gateway/orchestrator.py:122-368 | with faithful streams both handlers do the same to breaker, limiter, cache, tracker and log in the same order and end alike (finish reasons aside) |
| `RequestTraces.RequestAnatomy` | src/gateway/orchestrator.py:132-237 | every request reserves, perhaps looks up, tries backends without touching ledger or cache, and ends by giving up, with a 503 row exactly if no text was delivered, serving a hit or settling an answer |
| `RequestTraces.GivingUpIsLogged` | src/gateway/orchestrator.py:326-368 | a request writes the 503 row without tokens if and only if it raises AllBackendsUnavailable and delivered no text; all its other rows are 200 rows |
| `RequestTraces.GivingUpWalkIsLogged` | src/gateway/orchestrator.py:233-237 | the same of each walk |
| `RequestTraces.BrokenStreamIsNotLogged` | src/gateway/orchestrator.py:324-327 | a run, for any backend and request, whose stream fails after one chunk and leaves no row |
| `RequestTraces.RequestLedger` | src/gateway/orchestrator.py:56-219 | one reserve, first, of a quarter of the total length of all contents, at least one; one reconcile and one 200 row if it returns and none if it raises; equal amounts, adjacent, equal to the result's tokens |
| `RequestTraces.ResultIsAccountedFor` | src/gateway/orchestrator.py:199-231 | a result is logged with its own tokens, tier, finish reason, answering backend and price, and cached in both tiers exactly when a backend gave it and the cache is not bypassed; an exception leaves nothing in the cache |
| `RequestTraces.PrefixLedger` | src/gateway/orchestrator.py:207-219 | at every prefix the reconciled amount is the logged amount plus what is still to be logged |
| `RequestTraces.RequestLeavesAmount` | src/gateway/orchestrator.py:132-219 | a finished request told the limiter its estimate and then, unless it raised, its result's tokens, and nothing else |
| `RequestTraces.RequestCache` | src/gateway/orchestrator.py:146-206 | it caches only what a candidate answered it before, touches no cache when bypassed, and returns the requested model |
| `RequestTraces.RequestGuarded` | src/gateway/orchestrator.py:182-188 | each call directly follows its breaker's consent |
| `Outcomes.OutcomeExactly` | src/gateway/orchestrator.py:136-170 | a request raises RateLimitExceeded if and only if it is denied, NoBackendsAvailable if and only if it is admitted, uses no hit and has no candidates, and returns a cached answer, without finish reason and backend, if and only if it finds one |
| `Outcomes.LastBackendDecides` | src/gateway/orchestrator.py:174-237 | a request that reaches its backends returns what the last called one answered, with "stop" or the last reported usage, or reports that call's error, and none if every backend was refused |
| `Outcomes.StepsFollowPipeline` | src/gateway/orchestrator.py:132-219 | every step directly follows one that it may follow in the pipeline; L1 is read exactly when the request is admitted and not bypassed, L2 exactly after a miss there |
| `GatewayRuns.CacheProvenance` | src/gateway/orchestrator.py:146-206 | in every run of any number of requests, a hit for m carries what an enabled backend registered for m answered earlier to a non-bypassed request for m, which stored it in that tier: for L1 under the same digest and still live, for L2 with enough similarity |
| `GatewayRuns.ExactHitIsSamePrompt` | src/gateway/orchestrator.py:139-150 | a request of at most one message that hides none gets from L1 only what was answered to the same messages, unless the hash collides on the two prompts |
| `GatewayRuns.BypassLeavesCacheAlone` | src/gateway/orchestrator.py:146-150 | no step of a bypassed request reads or changes the cache |
| `GatewayRuns.ResultHasRequestedModel` | src/gateway/orchestrator.py:227-231 | every result carries the requested model, given how the registry groups candidates |
| `GatewayRuns.CallsRespectBreaker` | src/gateway/orchestrator.py:182-188 | in every run a backend is called only after its breaker was asked, when the failures recorded by all requests since the last success were below the threshold, or the cooldown was over or had been found over |
| `GatewayRuns.DenialsAreExact` | src/gateway/orchestrator.py:132-170 | in every run a request ends in RateLimitExceeded if and only if its reserve was answered no, and in NoBackendsAvailable if and only if it was answered yes, no hit is used and the snapshot has no enabled row for the model |
| `GatewayRuns.GrantsAreExact` | src/gateway/orchestrator.py:182-183 | under one clock each grant in a run is given if and only if the failures of all requests are below the threshold or the cooldown is over |
| `GatewayRuns.LimiterRunIsValid` | src/gateway/orchestrator.py:132-135 | what the requests of a key do to the limiter is well formed and never reuses an id |
| `GatewayRuns.LimiterHoldsInRuns` | src/gateway/orchestrator.py:132-209 | in every run the strings of each key are its records, and their sum is within budget plus corrections |
| `GatewayRuns.AdmissionKeepsBudget` | src/gateway/orchestrator.py:132-137 | every admitted reserve of a run leaves its key within budget |
| `GatewayRuns.AdmissionsAreExact` | src/gateway/orchestrator.py:132-137 | under one clock, while a key does not expire, each reserve of a run is decided as the true sum of its window |
| `GatewayRuns.LimiterReconcilesOnce` | src/gateway/orchestrator.py:152-209 | no reservation of a key is reconciled twice |
| `GatewayRuns.RunExpiryHarmlessExactly` | src/gateway/orchestrator.py:132-209 | in every run, the first expiry of a key goes unnoticed in all that may follow if and only if nothing was charged in its window and every reservation it stored had been reconciled |
| `GatewayRuns.CompletionsGiveUpExactly` | src/gateway/orchestrator.py:122-237 | a finished completion of a run gave up on all backends if and only if it was admitted, missed the cache, had candidates, and each of them was refused or failed |
| `GatewayRuns.FinishedChargeIsRight` | src/gateway/orchestrator.py:132-219 | what is still stored for a finished request is charged at its result's tokens, or at the estimate if it raised |
| `GatewayRuns.TokenAccountsBalance` | src/gateway/orchestrator.py:207-219 | at every point of every run a key's reconciled amounts equal the tokens of its 200 rows plus the amounts of requests between reconcile and log |
| `GatewayRuns.AccountsBalanceAtRest` | src/gateway/orchestrator.py:275-282 | with no request in flight they are equal |
| `Sse.EventStream` | src/gateway/api/routers.py:75-117 | the generator emits the frames that the items and the exception prescribe |
| `Sse.FrameGrammar` | src/gateway/api/routers.py:75-117 | for every run the frames are the delivered text, one usage or error frame, one `[DONE]`; the error is "rate_limit" if and only if the request was denied; the deltas are, in order, the result's content |
| `Sse.WireRoundTrip` | src/gateway/api/routers.py:92-117 | a client following section 9.2 of the WHATWG HTML Standard reads back exactly the framed payloads |
| `Sse.FramesRoundTrip` | src/gateway/api/routers.py:92-117 | a client receives exactly the frames that were sent |
| `Sse.ClientReadsGrammar` | src/gateway/api/routers.py:75-117 | a client of any streamed completion receives the deltas, the closing frame and Done, and the deltas concatenate to the content |

## Left out

- LimiterExpiry.ExpiryHarmlessExactly: budgets of 10^14 and more, which the integer column cannot hold; a valid id that the run has not used is a parameter.
- RateLimiter.TextRefinesRecords: costs of 10^14 and more, which Lua prints in exponent form, and negative costs, which no caller passes.
- LatencyTracker.P95IsOrderStatistic: the index is floor(95n/100) in exact arithmetic; the source multiplies by the float 0.95.
- TwoTierCache.NearestThenCheck: search is exact and ties go to the oldest row; the approximate HNSW index and SQL's free choice among ties are not modelled.
- CacheKeys.KeysIdentifyRequests: SHA-256 is a parameter; that it does not collide on the two texts is a premise.
- Failover.WalkFollowsVisitOrder: latency data that changes while the request runs.
- Sse.ClientReadsGrammar: JSON printer and parser are parameters with the stated round trip; completion id and creation time are left out of the frames.
- Cancellation, a consumer that closes the generator, and Redis or database errors: a request may stop after any prefix of its steps, which the theorems about whole runs cover; clean-up code of that kind does not exist in the source.
- Semaphores and timeouts: a timeout is one way for a call to fail; waiting for a semaphore is not a step.
- Metrics counters and the latency values that are recorded and logged.
- What the client factory builds, `aclose` errors during a reload, and `BackendRegistry.aclose` at shutdown.
- FastAPI wiring, authentication, settings, migrations, admin routes and the non-streaming HTTP mapping: no hard property.
