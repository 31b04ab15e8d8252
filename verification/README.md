# LLM gateway: verified model

A Dafny model of the request path of an LLM proxy: the `infer` protocol over a
shared Redis cache, Redis lock, circuit breaker and clock; the sliding-window
rate limiter; the breaker itself; the cache key; and the server-sent event
relay. `dafny verify dfyconfig.toml` checks everything.

The classes have the methods of their sources. `CircuitBreaker`, `Redis`,
`SlidingWindowRateLimiter`, `UsageMeters` and `HttpStream` hold the mutable
state and change their fields in place; `SemanticCache`, `RequestCollapser`,
`InferenceService` and `StreamingService` have none of their own, as in the
source, and work on those objects. Each method is proved against a pure
function or a state machine, and the theorems are about those: every run, every
interleaving, every input.

- `BreakerState.dfy`, `BreakerRuns.dfy`, `CircuitBreaker.dfy`: the breaker's
  operations, its runs against the unpruned failure history, and the class.
- `SortedSet.dfy`, `RateLimiter.dfy`, `LimiterInterleaving.dfy`,
  `LimiterBounds.dfy`, `LimiterRetry.dfy`: the limiter, one check at a time
  against the accepted history, then with pipelines and removals of many callers
  interleaved, and how far the interleaved guarantees reach.
- `Json.dfy`, `JsonDecoding.dfy`, `JsonReading.dfy`, `CacheKey.dfy`: the JSON
  printer, its unique decodability, a reader written from sections 2 to 7 of RFC
  8259 that gives back every printed value, and the cache key.
- `Gateway.dfy`: the state machine of `infer`. A request is a program counter,
  one step is the effect of one awaited operation or the code up to the next,
  and every Redis command can be lost before or after its effect.
- `Outcomes.dfy`: how each request ends, against the one step that decides it, and
  that no Redis fault ends one.
- `Transparency.dfy`, `TransparencyBounds.dfy`, `Conservation.dfy`, `Races.dfy`:
  what holds in every behaviour, with faults at any step, and what does not.
- `SingleFlight.dfy`, `PromptRuns.dfy`, `TimingBounds.dfy`, `LockOwnership.dfy`:
  request collapsing under timing assumptions, exactly which timings are enough,
  and whose lock a release deletes.
- `InferenceService.dfy`: `infer` as methods that await, while other tasks run,
  and then update Redis, breaker and counters themselves. `Site.Commit` demands
  that what they did is the step of the state machine, so every execution is one
  of its behaviours.
- `HttpAdapter.dfy`, `StreamingService.dfy`, `Framing.dfy`: the line parser, the
  event generator and the text of the stream.

Several statements one might expect are false of the code. Each has a run or an
input that refutes it and the exact extent to which it holds:

- "One LLM call instead of N" (DECISIONS.md:84). There is no cache read after
  the lock is taken, so a request can call the adapter for a cached key
  (`SecondCallForCachedKey`). Such a request read the cache in vain before, and
  unless that read met a fault its value is live now exactly when it was written
  after the read and has not expired (`CallsForCachedKeyExactly`). At most one
  call *in flight* per key does hold, in every prompt run exactly when lock TTL +
  poll period exceed neither the wait timeout nor the cache TTL
  (`SingleFlightExactly`, `DeliveryExactly`); there, of two calls for a key the
  first caller releases its lock before the second takes it (`CallsAreSerial`).
  A poll period below the cache TTL alone is not enough: a leader that writes
  early and releases late can let the entry expire unseen. The defaults 10, 0.05,
  15 and 300 fit.
- "No adapter call while the circuit is open". With collapsing it can start for
  all settings under which the circuit can block at all
  (`CallsStartWhileOpenExactly`). For a request past its admission the circuit
  blocks exactly when a failure tripped it after that admission and less than the
  recovery timeout ago (`Races.BlocksExactlyAfterTrip`).
- "A release deletes its caller's lock". In every behaviour it finds its caller's
  own live lock exactly when the caller took it less than the lock TTL ago and no
  other release of the key has got through since (`ReleaseIsOwnExactly`), and it
  deletes another request's live lock exactly when that request took it later,
  less than the lock TTL ago, and it was not deleted since
  (`ReleaseIsAnothersExactly`). So it is always the caller's own if lock holders
  finish inside the lock TTL (`ReleaseIsOwn`); and for every lock TTL there is a
  holder that overstays and deletes another's (`OverstayerDeletesAnothersLock`).
- "HALF_OPEN lets one probe through". It lets every caller through until a failure
  trips the circuit again, and refuses exactly for the recovery timeout after such
  a failure (`BreakerRuns.BlocksExactlyAfterTrip`). A failure below the threshold
  does not end it, which happens exactly for thresholds of at least two and windows
  that are not negative (`HalfOpenOutlastsFailureExactly`), and a call admitted
  before the trip can close the circuit (`OldCallClosesCircuit`).
- "Clients know exactly when to retry" (DECISIONS.md:90). The Retry-After
  header is the floor of the remaining time; waiting it out is enough exactly
  when that time is whole (`TruncatedRetrySufficesExactlyWhenWhole`, for the
  breaker and for the limiter), and times that are not whole are reached
  (`FractionalRetryIsReached`, for both).
- "A stable `retry_after_s` based on when real allowed requests expire"
  (DECISIONS.md:52). It is for checks made one at a time (`ExactRetryTime`). With
  overlapping checks a rejection is genuine if accepted checks alone fill the
  window, and spurious if it takes removals still outstanding to fill it. The time
  is right exactly for the genuine ones (`NamesTheInstantExactly`), and stable: every
  check before that instant names it again, whatever is outstanding
  (`LimiterRetry.RetryIsExact`). A spurious rejection can name 59 seconds too many
  (`PendingLengthensRetry`). From the instant named on, a check is accepted exactly
  when accepted and outstanding entries leave room for it, so one that comes beside
  outstanding removals can be rejected again (`PendingProlongsRejection`).
- Every entry into OPEN has its own `threshold` failures, for any settings.
  `EvidenceCountingExactly` gives the settings for which that bound holds.
- The 60-second window holds under concurrency. With timestamps at most `d` out
  of order, and the key renewed in time, exactly the windows of length up to
  60 - d are safe (`WindowIsSafeExactly`); without renewal none is
  (`OrderAloneNeverSuffices`).
- The cache key separates all requests. `json.loads` leaves surrogates that
  arrive as raw bytes unpaired, and the printed key pairs them. Any two requests
  share a key exactly when their sorted payloads are equal with all surrogate
  pairs fused (`KeyDecides`); on valid Unicode that is equality of model, input
  and config as a JSON value (`KeyIsExactInUnicode`). A config value split in two
  raw surrogates shares the key of the character it encodes
  (`SplitPairCollides`).

## Model

| member | source | states |
|---|---|---|
| CircuitBreakers.CircuitBreaker.constructor | app/core/circuit_breaker.py:13-25 | a new breaker is CLOSED, with no failures and no opening time |
| CircuitBreakers.CircuitBreaker.IsOpen | app/core/circuit_breaker.py:31-40 | true exactly while OPEN within the recovery timeout; afterwards the state becomes HALF_OPEN and nothing else changes |
| CircuitBreakers.CircuitBreaker.RecordFailure | app/core/circuit_breaker.py:47-55 | the failure is appended, failures older than the window are dropped, and the circuit opens now, from any state, exactly when enough are left |
| CircuitBreakers.CircuitBreaker.RecordSuccess | app/core/circuit_breaker.py:57-62 | HALF_OPEN goes back to the initial state; any other state is unchanged |
| BreakerRuns.PrunedListHoldsEvidence | app/core/circuit_breaker.py:49-53 | after any run the pruned list holds as many failures inside any later window as the full history since the last close |
| BreakerRuns.OpensExactlyOnEvidence | app/core/circuit_breaker.py:47-55 | after any run a failure opens the circuit exactly when the full history since the last close has at least threshold failures in [now - window, now] |
| BreakerRuns.ClosedExactlyWhenNeverOpened | app/core/circuit_breaker.py:31-62 | in every reachable state CLOSED and a missing opening time imply each other |
| BreakerRuns.StaysOpen | app/core/circuit_breaker.py:31-62 | late successes, late failures and probes before t + recovery leave a circuit that tripped at t OPEN |
| BreakerRuns.OpenPeriodSafety | app/core/circuit_breaker.py:31-62 | every query before t + recovery after a trip at t is answered "open", whatever is recorded or probed in between |
| BreakerRuns.HalfOpenOnlyAfterRecovery | app/core/circuit_breaker.py:31-40 | HALF_OPEN is reached only after the recovery timeout, and no opening time lies in the future |
| BreakerRuns.QueriesAgree | app/core/circuit_breaker.py:31-45 | in every reachable state at one instant `is_open` is true exactly when `get_retry_after` is positive, and that is at most the recovery timeout |
| BreakerRuns.WaitKeepsOpeningTime | app/core/circuit_breaker.py:31-62 | probes and successes leave a blocking circuit as it is |
| BreakerRuns.BlocksExactlyAfterTrip | app/core/circuit_breaker.py:31-55 | from HALF_OPEN, and from CLOSED, a query after any further run is refused exactly when one of its failures tripped the circuit less than the recovery timeout ago |
| BreakerRuns.HalfOpenOutlastsFailure | app/core/circuit_breaker.py:47-55 | for all thresholds of at least two and windows that are not negative, a run in which a failure in HALF_OPEN leaves the circuit there, with every query let through |
| BreakerRuns.HalfOpenOutlastsFailureExactly | app/core/circuit_breaker.py:47-55 | such a run exists exactly for these settings; for all others every failure in HALF_OPEN opens the circuit |
| BreakerRuns.HalfOpenAdmitsEveryCaller | app/core/circuit_breaker.py:33-40 | without a failure any number of queries is let through in HALF_OPEN, and the state changes exactly by a success, which closes the circuit |
| BreakerRuns.RetryTimeIsExact | app/core/circuit_breaker.py:42-45 | without a new failure the circuit blocks before the reported retry time has passed and at no instant after it, whatever else is called |
| BreakerRuns.TruncatedRetrySufficesExactlyWhenWhole | app/api/exception_handlers.py:74-83 | waiting out the integer Retry-After header unblocks the circuit exactly when the real retry time is a whole number |
| BreakerRuns.FractionalRetryIsReached | app/api/exception_handlers.py:74-83 | for all settings under which the circuit can block, a run in which waiting out the header leaves it blocking |
| BreakerRuns.OpeningNeedsWindow | app/core/circuit_breaker.py:52-53 | with a negative window and a positive threshold the circuit never leaves CLOSED |
| BreakerRuns.EvidenceIsFresh | app/core/circuit_breaker.py:47-62 | with recovery longer than the window, the failures behind an entry into OPEN all come after every earlier entry |
| BreakerRuns.EvidenceCounting | app/core/circuit_breaker.py:15-17 | with recovery longer than the window, entries into OPEN times threshold never exceed the recorded failures |
| BreakerRuns.ShortRecoveryReusesEvidence | app/core/circuit_breaker.py:33-55 | otherwise, for every threshold of two or more, a run in which one failure in HALF_OPEN re-opens on old evidence breaks that bound |
| BreakerRuns.EvidenceCountingExactly | app/core/circuit_breaker.py:13-18 | the bound holds of all runs exactly for thresholds up to one, negative windows, or recovery longer than the window |
| RateLimiters.SlidingWindowRateLimiter.constructor | app/infra/rate_limiter.py:8-11 | a new limiter has accepted nothing |
| RateLimiters.SlidingWindowRateLimiter.ExecutePipeline | app/infra/rate_limiter.py:22-28 | ZADD, prune, ZCARD, oldest entry and EXPIRE in one atomic step on a key that is gone once expired; other keys stay |
| RateLimiters.SlidingWindowRateLimiter.Remove | app/infra/rate_limiter.py:42 | ZREM removes the caller's entry and nothing else, and keeps the expiry |
| RateLimiters.SlidingWindowRateLimiter.CheckKey | app/infra/rate_limiter.py:22-44 | the answer and the entries left behind, from the pipeline result alone |
| RateLimiters.SlidingWindowRateLimiter.Check | app/infra/rate_limiter.py:17-44 | accepted exactly when fewer than `limit` accepted checks lie in (now - 60, now]; the key is left with exactly the accepted checks of its window; retry and reset follow from the history, and a burst of further checks right after it would be accepted as a whole exactly if it is no longer than `remaining`; other clients are untouched |
| RateLimiters.RemainingExactly | app/api/middleware/rate_limit.py:16-20 | after any check, fresh checks at the same instant are all accepted exactly if they number at most the `remaining` it was told |
| RateLimiters.ResetExactly | app/infra/rate_limiter.py:32-44 | every answer's reset time is the floor of the time until the first check of its window, the own one included, leaves it, between 0 and 60 seconds; a rejection's retry time is that time itself and an acceptance's is 0 |
| RateLimiters.SlidingWindowRateLimiter.ExpiryOnlyForestallsPruning | app/infra/rate_limiter.py:24-27 | at any later instant the key, expired or not, shows the same window of accepted checks, so EXPIRE removes only what the next prune would |
| RateLimiters.PipelineSeesHistory | app/infra/rate_limiter.py:22-30 | the pipeline leaves and counts the accepted checks of the window plus the caller, and removing the caller restores them |
| RateLimiters.CheckMeetsHistory | app/infra/rate_limiter.py:22-44 | the answer computed from Redis is the decision on the plain history, and all keys go on tracking their histories |
| RateLimiters.AdmitKeepsCap | app/infra/rate_limiter.py:37-39 | no window from now on ever sees more than `limit` accepted checks |
| RateLimiters.RejectedExactlyUntilRetry | app/infra/rate_limiter.py:30-44 | after a rejection at t with retry r, 0 < r <= 60, a check is accepted exactly from t + r on, and later rejections name the same instant |
| RateLimiters.ExactRetryTime | DECISIONS.md:52 | with checks made one at a time that instant stays put over any burst of rejected checks: all of them are rejected and the next check is accepted exactly from then on |
| RateLimiters.TruncatedRetrySufficesExactlyWhenWhole | app/api/exception_handlers.py:56-71 | waiting out the integer Retry-After header gets a check accepted exactly when the real retry time is a whole number |
| RateLimiters.FractionalRetryIsReached | app/api/exception_handlers.py:56-71 | for every limit, a rejected check whose header of 59 seconds is half a second too short |
| RateLimiters.KeyOfIsInjective | app/infra/rate_limiter.py:19 | different clients have different Redis keys |
| SortedSets.Oldest | app/infra/rate_limiter.py:26 | the first entry by score is a stored score that none is below, and is missing exactly for an empty key |
| LimiterInterleaving.Survives | app/infra/rate_limiter.py:22-28 | with timestamps at most d out of order and the key renewed, an entry younger than 60 - d that is not removed is still in the key, whatever pipelines and removals came between |
| LimiterInterleaving.Origin | app/infra/rate_limiter.py:22-42 | every entry of the key was added by a pipeline with that score and not removed since |
| LimiterInterleaving.WindowSafety | app/infra/rate_limiter.py:22-42 | with removals delayed or lost, timestamps at most d out of order and the key renewed, no window of length 60 - d holds more than `limit` accepted checks |
| LimiterInterleaving.RejectionHasCause | app/infra/rate_limiter.py:37-42 | at a rejection the live accepted entries and those still awaiting removal number at least `limit`, whatever the timestamps |
| LimiterInterleaving.RejectedExactlyWhenFull | app/infra/rate_limiter.py:37-42 | with timestamps in order and the key renewed a check is rejected exactly when those entries fill the limit |
| LimiterInterleaving.StoredIsWindow | app/infra/rate_limiter.py:22-28 | with timestamps in order, the key renewed and no removal outstanding, the pipeline leaves exactly the accepted checks of the window and the caller |
| LimiterRetry.AgreesExactly | app/infra/rate_limiter.py:30-44 | with timestamps in order and the key renewed the whole answer, accepted or not, retry, remaining and reset, is that of the sequential limiter on the same accepted history exactly when no removal is outstanding or accepted checks fill the window |
| LimiterRetry.NamesTheInstantExactly | DECISIONS.md:52 | a rejection names the instant from which on the accepted checks leave room exactly if accepted checks alone filled the window |
| LimiterRetry.RetryIsExact | app/infra/rate_limiter.py:30-44 | with checks and removals interleaved and whatever is outstanding: a check at a window full of accepted checks is rejected with some r, 0 < r <= 60; while nothing is accepted, every check sooner than r later is rejected and names the same instant, and a check is accepted exactly when it comes at least r later and the live accepted and outstanding entries are fewer than the limit |
| LimiterRetry.PendingLengthensRetry | app/infra/rate_limiter.py:28-44 | for every limit, clocks in step, a spurious rejection with 59 seconds to go while a removal is outstanding, and an acceptance one second later |
| LimiterRetry.PendingProlongsRejection | app/infra/rate_limiter.py:28-44 | for every limit, clocks in step, a genuine rejection, and a check that comes when its retry time is over and is rejected because removals are outstanding |
| LimiterBounds.LongerWindowOverfills | app/infra/rate_limiter.py:22-42 | for every limit and every window longer than 60 - d, a run in order up to d with the key renewed that overfills it |
| LimiterBounds.WindowIsSafeExactly | app/infra/rate_limiter.py:22-42 | for every limit of at least one and every d, exactly the windows of length up to 60 - d (and the empty ones) are safe |
| LimiterBounds.OrderAloneNeverSuffices | app/infra/rate_limiter.py:27 | for every limit and every window, a run with all timestamps in order overfills it, because EXPIRE follows the Redis clock |
| LimiterBounds.SteadyLagSuffices | app/infra/rate_limiter.py:18-28 | timestamps whose lag behind Redis varies by at most d, either way, are in order up to d and keep the key renewed |
| LimiterBounds.SteadyWindowIsSafeExactly | app/infra/rate_limiter.py:18-42 | with the lag of timestamps behind Redis varying by at most d, either way, exactly the windows of length up to 60 - d (and the empty ones) are safe |
| JsonReading.PreferredEscapes | app/infra/cache.py:18 | quote, backslash and the five control characters with a letter have two-character escapes, other characters outside printable ASCII lower-case hexadecimal ones, and slash and tilde none |
| JsonReading.QuoteReads | app/services/streaming_service.py:82 | a reader of RFC 8259 strings gives back, from any quoted string and whatever follows it, its UTF-16 units, so the string with surrogate pairs fused, and what follows |
| JsonReading.DecimalReads | app/services/streaming_service.py:82 | an integer prints in decimal without leading zeros and reads as itself |
| JsonReading.ValueReads | app/infra/cache.py:18 | a reader of RFC 8259 values gives back every printed value, at any nesting depth and in front of any continuation, surrogate pairs fused |
| JsonReading.ReadsBack | app/infra/cache.py:18 | reading the text printed for a value gives that value, surrogate pairs fused |
| JsonDecoding.UnitsInjective | app/infra/cache.py:18 | two clean strings with the same UTF-16 units are equal |
| JsonDecoding.ValueDecodes | app/infra/cache.py:18 | a printed value with clean strings and what follows it can be read back in one way only, at every nesting depth |
| JsonDecoding.FuseKeepsPrint | app/infra/cache.py:18 | a value and the same value with its surrogate pairs fused print alike |
| JsonDecoding.PrintDecides | app/infra/cache.py:18 | any two parsed values print alike exactly when they fuse to the same value |
| CacheKeys.BeforeIsLexicographic | app/infra/cache.py:18 | one key sorts before another exactly if, after a common beginning, it ends or has the smaller code point |
| CacheKeys.SortFieldsSorts | app/infra/cache.py:18 | `sort_keys` keeps exactly the members of an object and puts distinct keys in strictly ascending order |
| CacheKeys.SortedIsUnique | app/infra/cache.py:18 | the same members have one sorted order |
| CacheKeys.CanonDecides | DECISIONS.md:60 | sorting keys at every depth makes two values identical exactly when they are equal as JSON values |
| CacheKeys.KeyDecides | app/infra/cache.py:17-20 | any two received requests share a cache key exactly when their payloads, keys sorted and surrogate pairs fused, are equal |
| CacheKeys.KeyReads | app/infra/cache.py:17-20 | behind "cache:" the text of a key reads as a JSON object whose members are, in this order, "config", "input" and "model", with the values of the request |
| CacheKeys.KeyIsCanonical | app/infra/cache.py:17-20 | if no object key splits a surrogate pair, two requests share a cache key exactly when, fused, model and input agree and the configs are equal as JSON values |
| CacheKeys.KeyIsExactInUnicode | app/infra/cache.py:17-20 | on valid Unicode that is equality of model, input and config as a JSON value |
| CacheKeys.KeySeparatesUnits | app/infra/cache.py:17-20 | with valid Unicode in the configs it is equality of the configs and of the UTF-16 units of model and input |
| CacheKeys.SplitPairCollides | app/infra/cache.py:17-20 | a config value received as two raw surrogates shares its key with the different, valid config that has their character |
| Gateway.OthersStay | app/services/inference_service.py:36-205 | an event of another request, of the clock or of another breaker user leaves a request's local state as it is |
| Gateway.TimeAdvances | app/services/inference_service.py:36-205 | no step turns the clock back |
| Outcomes.OutcomeExactly | app/services/inference_service.py:43-205 | in every behaviour a finished request has an outcome exactly if a step of its own decided on it: refused at the breaker check while the circuit blocked, with the floor of the retry time; timed out or failed as its adapter call did; a hit by a read that got through to a live value, with that value; or its own answer, with the output of its call and the numbers it reported as "prompt_tokens" and "completion_tokens" |
| Outcomes.RefusedExactly | app/services/inference_service.py:76-83 | a request is refused exactly if it stood at the breaker check while the circuit blocked, with the floor of the retry time at that moment |
| Outcomes.FaultGoesOn | app/services/inference_service.py:45-182 | a lost Redis request or reply leads from the lookup to the breaker check, from the lock to the wait without it, from a poll to the adapter call, and from write and release on to the request's own answer; breaker, calls and counters stay |
| Outcomes.RedisFailureIsAMiss | DECISIONS.md:32 | a request whose cache reads all fail still ends by its own adapter call or at a circuit that blocks |
| Transparency.HitIsSound | app/infra/cache.py:22-26 | a value read from the cache was produced for an equal request and written less than the TTL ago |
| Transparency.StepSound | app/services/inference_service.py:43-205 | every step of a request, with any Redis fault, keeps the provenance of all cache entries, payloads and responses |
| Transparency.AlwaysSound | app/infra/cache.py:28-31 | in every reachable state each cache entry was written by a successful call for an equal request and expires one TTL later, and each response comes from such an entry or from the request's own call |
| Transparency.ResponseHasCall | app/services/inference_service.py:45-205 | every successful response has the output and model of a successful call of a request with the same cache key, and as tokens in and out the numbers that call reported as "prompt_tokens" and "completion_tokens", 0 where missing |
| Transparency.ResponsesAreTransparent | app/services/inference_service.py:45-205 | with a deterministic adapter that gives the same output and token counts for requests with the same text, that is up to key order and split surrogate pairs, every successful response to any received request, hit, collapsed or miss, carries output and reported token counts of a direct call, and its model up to split surrogate pairs |
| Transparency.ResponsesAreExactInUnicode | app/services/inference_service.py:45-205 | if all requests are valid Unicode and the adapter gives the same output and token counts for equal requests, it is the response of a direct call, up to the hit flag |
| TransparencyBounds.TransparentExactly | app/services/inference_service.py:45-205 | with a positive cache TTL all responses in all runs have output and reported token counts of a direct call exactly for the deterministic adapters that agree in both on requests with the same text |
| Conservation.CostIsLinear | app/main.py:128-132 | the estimated cost of two usages is that of their sum |
| Conservation.RecordedMeters | app/main.py:128-140 | recording a usage adds its tokens, and its price per 1000 tokens of input and of output, to its own model's counters only |
| Conservation.CallEndKeepsCalls | app/services/inference_service.py:129-169 | the end of an adapter call adds one call for its own request, makes one matching record in the breaker, adds its usage to the counters if it returned, and moves nobody else |
| Conservation.OtherStepsKeepCalls | app/services/inference_service.py:43-127 | no other step touches the calls, the counters or the set of requests that have had one |
| Conservation.Conserved | app/services/inference_service.py:129-169 | in every reachable state each request has had at most one call and hits, collapsed and refused ones none; the input and output counters of every model are the sums of "prompt_tokens" and "completion_tokens" its returned calls reported, and its cost counter is the first sum / 1000 times the input price plus the second / 1000 times the output price |
| Conservation.RecordsAreCalls | app/services/inference_service.py:135-160 | the successes and failures among the breaker's uses that `infer` made are, one for one and in order, the finished calls that returned and those that did not |
| Conservation.BreakerFollowsItsTrace | app/core/circuit_breaker.py:31-62 | inside the gateway the breaker is always in the state of a chronological breaker run of requests, streams and health checks, so all of `BreakerRuns` applies |
| Conservation.RefusedWhileTripped | app/services/inference_service.py:76-83 | a request that meets the breaker within the recovery timeout after a trip is refused without a call, whatever others do |
| Races.SecondCallForCachedKey | app/services/inference_service.py:85-92 | a reachable state in which a request is calling the adapter although the value for its key was produced and is in the cache |
| Races.LiveExactlySinceWrite | app/infra/cache.py:22-31 | after a miss the value is live later exactly when a write since then has not expired |
| Races.CallsForCachedKeyExactly | app/services/inference_service.py:45-92 | a request past its lookup, as one that calls the adapter, looked up in vain at some step; and unless that was a fault its value is live now exactly when it was written strictly after that step and has not expired |
| Races.EveryCallWasAdmitted | app/services/inference_service.py:76-83 | every request past the breaker check passed it at an earlier step at which the breaker did not block |
| Races.BlocksExactlyAfterTrip | app/services/inference_service.py:76-134 | for every request past that check the circuit blocks exactly when a failure after its admission tripped it less than the recovery timeout ago |
| Races.CallStartsWhileOpen | app/services/inference_service.py:76-134 | for every request, and every threshold, window and recovery timeout under which the circuit can block, a state in which it is about to call the adapter while the circuit blocks |
| Races.CallsStartWhileOpenExactly | app/services/inference_service.py:76-134 | with collapsing such a state is reachable exactly for a positive recovery timeout and a non-negative window or a threshold of at most zero |
| Races.OldCallClosesCircuit | app/services/inference_service.py:160 | for all settings under which the circuit can block, a call under way when it trips returns in HALF_OPEN and resets the circuit, with no call that HALF_OPEN let through |
| SingleFlight.NextCollapsed | app/services/inference_service.py:85-182 | every step of a calm run keeps the collapsing invariant: leaders hold their live locks, and each follower's value is pending or cached long enough for its next poll |
| SingleFlight.OneCallInFlight | app/services/inference_service.py:85-182 | in every calm run at most one adapter call per cache key is in flight |
| SingleFlight.CallsAreSerial | app/services/inference_service.py:85-182 | in every calm run, of two calls for one key the first caller releases its lock, and the second takes it, in between |
| SingleFlight.FollowerIsServed | app/infra/request_collapsing.py:36-49 | in every calm run a request that loses the lock race is waiting before its deadline or answered from the cache before it, and so never calls the adapter |
| LockOwnership.LockedExactly | app/infra/request_collapsing.py:27-52 | in every behaviour a request owns the live lock of a key exactly if it took it less than the lock TTL ago and no release of the key has got through since |
| LockOwnership.ReleaseIsOwnExactly | app/infra/request_collapsing.py:51-52 | in every behaviour a releasing request took the free lock before, and finds its own live lock exactly when that was less than the lock TTL ago and no release of the key has got through since |
| LockOwnership.ReleaseIsAnothersExactly | app/infra/request_collapsing.py:51-52 | it finds the live lock of another request exactly when that request took it after it did, less than the lock TTL ago, and no release of the key has got through since |
| LockOwnership.ReleaseDeletes | app/infra/request_collapsing.py:51-52 | a release that gets through deletes the lock of its key, whoever owns it, and no other |
| LockOwnership.ReleaseIsOwn | app/infra/request_collapsing.py:51-52 | if lock holders finish inside the lock TTL, every release finds the live lock its own caller acquired |
| LockOwnership.OverstayerDeletesAnothersLock | app/infra/request_collapsing.py:51-52 | for every lock TTL a reachable state in which a holder that overstayed is about to delete the live lock of another request |
| LockOwnership.LockOutlivesFailure | app/services/inference_service.py:135-158 | when a holder's adapter call fails its lock stays, so that nobody takes it, until the lock TTL has passed |
| LockOwnership.FollowerWaitsInVain | app/infra/request_collapsing.py:43-49 | while nobody writes its key a follower waits out its whole timeout and then goes on to the adapter without the lock |
| PromptRuns.PromptIsTimely | app/infra/request_collapsing.py:15-17 | lock holders that finish inside the lock TTL release within that TTL after their write |
| PromptRuns.ReachedIsCollapsed | app/infra/request_collapsing.py:15-17 | every state of a prompt run satisfies the collapsing invariant when lock TTL + poll period exceed neither the wait timeout nor the cache TTL |
| TimingBounds.ExpiryBeforeFirstPoll | app/infra/request_collapsing.py:43-49 | for every shorter cache TTL a prompt run ends with a follower giving up |
| TimingBounds.WriteAfterLastPoll | app/infra/request_collapsing.py:43-49 | for every shorter wait timeout above the poll period a prompt run ends with a follower giving up just after the write |
| TimingBounds.NoPollAtAll | app/infra/request_collapsing.py:43-49 | for a wait timeout within the poll period a follower gives up without a poll |
| TimingBounds.UnfitOverlaps | app/services/inference_service.py:85-134 | for every timing that does not fit, a prompt run ends with two calls for one key in flight |
| TimingBounds.DeliveryExactly | app/infra/request_collapsing.py:36-49 | in all prompt runs no request that lost the race gets to the adapter, exactly when lock TTL + poll period exceed neither the wait timeout nor the cache TTL |
| TimingBounds.SingleFlightExactly | DECISIONS.md:82-84 | in all prompt runs at most one call per key is in flight, exactly under the same condition |
| InferenceServices.Redis.Get | app/infra/cache.py:25 | GET finds the live value of the key and nothing else |
| InferenceServices.Redis.SetEx | app/infra/cache.py:31 | SETEX stores the value until now + TTL and leaves other keys alone |
| InferenceServices.Redis.SetNx | app/infra/request_collapsing.py:28-33 | SET NX EX takes the lock exactly when no live one is there, until now + TTL |
| InferenceServices.Redis.Del | app/infra/request_collapsing.py:52 | DEL removes that lock, whoever owns it |
| InferenceServices.UsageMeters.Record | app/main.py:128-140 | tokens and estimated cost are added to the counters of the model |
| InferenceServices.Site.Commit | app/services/inference_service.py:36-205 | a task that did to cache, locks, breaker and counters what its step in the state machine does extends a behaviour by that step |
| InferenceServices.Site.Continue | app/infra/request_collapsing.py:43-48 | plain code between awaits changes only the task's own place: the deadline is computed, compared, and passed over to the adapter |
| InferenceServices.Site.AnswersAreTransparent | app/services/inference_service.py:36-205 | an answer returned by an execution of `Infer` has output and usage of a direct adapter call |
| InferenceServices.SemanticCache.Get | app/infra/cache.py:22-26 | the reply is the live entry of the request's key, unless it is a fault; the cache stays as it is; a value ends the request as a hit, and a miss or fault leads from the lookup to the breaker check; at a poll a miss leads to the next sleep and a fault to the adapter call |
| InferenceServices.SemanticCache.Set | app/infra/cache.py:28-31 | the cache gains exactly the entry of the key, for the cache TTL; only after a fault it may have stayed as it was |
| InferenceServices.RequestCollapser.TryAcquire | app/infra/request_collapsing.py:27-34 | true exactly when the key had no live lock and the reply came; the lock then lives for the lock TTL; a live lock of another stays as it is |
| InferenceServices.RequestCollapser.WaitForValue | app/infra/request_collapsing.py:36-49 | returns a value exactly when that live cache entry answered the request, and nothing without a fault only after the whole wait timeout |
| InferenceServices.RequestCollapser.Release | app/infra/request_collapsing.py:51-52 | the lock of the key is gone and every other lock is as it was; only after a fault it may still be there |
| InferenceServices.InferenceService.CheckBreaker | app/services/inference_service.py:76-83 | refuses exactly when the circuit blocks, with the truncated retry time, and probes the breaker |
| InferenceServices.InferenceService.Collapse | app/services/inference_service.py:85-104 | a leader goes on with the lock, a follower ends with the live cached value or goes on without a lock |
| InferenceServices.InferenceService.CallAdapter | app/services/inference_service.py:129-169 | success records a success and counts the reported "prompt_tokens" and "completion_tokens", timeout and error record a failure, and the task goes on to store a payload with that output and those numbers or ends accordingly |
| InferenceServices.InferenceService.Publish | app/services/inference_service.py:170-182 | an acknowledged write put the payload into the cache for its TTL, an acknowledged release deleted the lock, and whatever fails the request ends with its own payload |
| InferenceServices.InferenceService.Infer | app/services/inference_service.py:36-205 | for every schedule of other tasks and every fault, the execution extends a behaviour of the state machine and returns an outcome exactly if a step of the task decided on it: refused exactly at a circuit that blocked |
| HttpAdapters.HttpStream.constructor | app/adapters/http.py:43-53 | a new generator has all lines of its response ahead |
| HttpAdapters.HttpStream.Next | app/adapters/http.py:53-68 | each resumption yields the first of the tokens ahead, or ends as they end |
| HttpAdapters.LinesAreRead | app/adapters/http.py:53-62 | the line "data: [DONE]" ends the stream normally, another line that starts with "data: " gives its content, nothing or an exception, and any other line is skipped |
| HttpAdapters.ParserIsLossless | app/adapters/http.py:53-68 | when the data lines before [DONE] parse, the tokens are exactly their non-empty contents in order; the end is normal exactly when [DONE] was seen or the body ended normally, and otherwise a timeout exactly for a read timeout, an upstream error with its code exactly for a bad status, and one without a code exactly for a transport error |
| HttpAdapters.ParserFailsOnMalformed | app/adapters/http.py:59-60 | a data line before [DONE] that does not parse ends the stream with an exception |
| HttpAdapters.UsageSurvivesExtraction | app/adapters/http.py:103-112 | the extracted usage holds the reported "prompt_tokens", "completion_tokens" and "total_tokens", 0 or their sum where missing, and the service takes the first two as tokens in and out |
| StreamingServices.StreamingService.RelayTokens | app/services/streaming_service.py:72-85 | the frames are the emitted tokens numbered from 0, a prefix of the upstream tokens and all of them if the upstream ends the loop; the audited list lags by at most one; each token is emitted after asking for the client, and the loop is left for a client that is gone or a consumer that does not come back |
| StreamingServices.StreamingService.Conclude | app/services/streaming_service.py:86-115 | each way out of the loop gives its terminal frame, audit status and, at the time of the last chunk, its one breaker record |
| StreamingServices.StreamingService.Refuse | app/services/streaming_service.py:59-68 | an open circuit gives one frame with the truncated retry time and no record |
| StreamingServices.StreamingService.Stream | app/services/streaming_service.py:50-115 | with others using the breaker at every suspension, every run emits the circuit-open frame exactly when the circuit blocks, or numbered token frames and at most one terminal frame; [DONE] exactly with one recorded success; the record is made once, when the upstream ends; the audit is a prefix of the emitted tokens, shorter by at most one; no frame and no record follows once the client is known to be gone or the consumer has left; uninterrupted runs relay the upstream |
| StreamingServices.RelayIsLossless | app/services/streaming_service.py:73-89 | for upstream lines that parse and complete, an uninterrupted run emits exactly the non-empty contents before [DONE], numbered consecutively, and then [DONE] |
| StreamingServices.EndIsTold | app/services/streaming_service.py:86-106 | an uninterrupted run sends [DONE] and records one success exactly for a response that parses and is complete; it sends the timeout frame exactly for an incomplete one with a read timeout, the upstream-error frame exactly for one with another error, and raises exactly when a line does not parse, with one recorded failure each |
| Framing.TerminalTexts | app/services/streaming_service.py:89-102 | the literal texts of the [DONE], timeout and upstream-error frames |
| Framing.TokenReads | app/services/streaming_service.py:82-83 | the text of a token frame is literally an object with the quoted token and the decimal index, and its payload reads as an object with that "token" and "index" |
| Framing.CircuitOpenReads | app/services/streaming_service.py:63-67 | the same of the circuit-open frame with its "error" and "retry_after_s" |
| Framing.PayloadIsOneLine | app/services/streaming_service.py:82-89 | printed payloads are printable ASCII, and only the end marker reads [DONE] |
| Framing.StreamSplits | app/services/streaming_service.py:83 | splitting the stream text at all line boundaries gives each frame's data line and a blank line |
| Framing.FramingRoundTrip | app/adapters/http.py:53-59 | the adapter's line filter applied to the printed stream returns exactly the printed payloads before [DONE], in order, and meets [DONE] exactly when it was sent |
| Framing.TextDecidesFrames | app/services/streaming_service.py:63-102 | two runs have the same text exactly when they have the same frames, tokens and numbers, surrogate pairs in tokens fused |

## Left out

Assumptions:

- Times are reals on one nondecreasing clock; the limiter's callers and Redis may disagree in `LimiterInterleaving`. Clock readings with no `await` between them are one reading.
- SHA-256 is free of collisions, so the key stands for its JSON text. Floats are identified by their `repr`, so 1 and 1.0 are different JSON values, as they are for the key.
- Limiter members are unique; a Redis pipeline is atomic; SET NX and SETEX expire exactly at their TTL; a cached JSON object is read back as it was written, which asks for valid Unicode in the adapter's output.
- The only Redis fault is `ConnectionError`, before or after the command took effect.
- Token counts and prices are exact: counts are natural numbers, cost is over reals.
- The breaker's asyncio lock is never held across an `await`, so each of its methods is one step.

Deliberately weaker:

- LimiterInterleaving.WindowSafety: next to the order of timestamps it asks that EXPIRE takes no entry a later pipeline would count, since `LimiterBounds.OrderAloneNeverSuffices` shows that order alone gives nothing.
- HttpAdapters.ParserIsLossless: JSON decoding of an upstream chunk is an arbitrary function from the line's payload to an exception, no content or a text.
- Conservation.Conserved: cancellation inside `infer` skips the breaker record and is excluded; a lock left behind by a failed call is modelled and only expires.
- TimingBounds.DeliveryExactly: the poll period is positive and at least the sleep interval, since otherwise no prompt run polls twice.
- InferenceServices.InferenceService.Infer: plain code between two awaits of the wait loop may be interrupted in the model, though it is not in the source.

Not modelled:

- FastAPI routing, middleware, authentication, settings and the response bodies beyond their Retry-After values.
- Tracing, structured logs, metrics other than token and cost counters, request ids and latencies.
- The HTTP request body, the non-streaming response decoding and the health check of the adapter.
- Sanitising and truncating text for logs; the audit is its tokens and its status.
- The classifier models, their wrappers and registry, training scripts and load tests.
