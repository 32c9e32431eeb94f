# Verification model of upstreamer

This project models the admission, health, balancing and reconfiguration engine of the upstreamer
reverse proxy in Dafny and proves what it keeps over whole runs.
`dafny verify dfyconfig.toml` checks everything.

| file | models |
|---|---|
| `RateLimit.dfy` | the token bucket and the per-address limiter, as values and as objects updated in place |
| `Conformance.dfy`, `Eviction.dfy` | what a bucket promises over a sequence of requests; eviction of idle buckets; many addresses at once |
| `Origin.dfy`, `Interleaving.dfy` | the counters of an origin, one call at a time and then one atomic operation at a time |
| `Schedules.dfy` | which final health flags the schedule of many calls, each with its own threshold, can bring about |
| `Balance.dfy`, `RoundRobin.dfy`, `Weighted.dfy` | the three balancers |
| `Config.dfy`, `Route.dfy` | validation, routers with and without discovered origins, matching |
| `Proxy.dfy` | start-up, one request, one reload, one discovery event, as functions on a state value; properties of runs |
| `Shares.dfy` | what a route's configured algorithm means for its candidates, and which answer a request gets |
| `Gates.dfy` | which requests are turned away, from start-up until the first reload |
| `Outcomes.dfy` | what an origin's counters, latency and flag say about the requests it was sent |
| `Tables.dfy`, `AppState.dfy` | the same four operations on mutable objects, proved to compute those functions |
| `Live.dfy` | the reload task, the discovery task and traffic as interleaved steps, one publication each |
| `Publication.dfy` | what the published router was built from in such a run |
| `Admissions.dfy`, `Attainment.dfy` | a bound on what one address gets past a route's limiter across reloads, its exact condition, and runs that reach it |
| `FailOpen.dfy` | what gets through while a reload has removed the route's limiter, and runs that reach that bound |
| `Requests.dfy` | many requests at once, each in stages, beside those tasks |
| `Recordings.dfy` | what an origin's counters, latency and flag say when many requests are under way at once |
| `Primitives.dfy` | machine integers, optional values, URLs |

The pattern throughout: what the program updates in place is a class whose methods are proved equal to
a function on values, and the guarantees are lemmas about those functions.

## Assumptions

- Time is an input in whole nanoseconds and does not run backwards within a run. Tokens are counted in
  billionths, so refilling is exact where the program rounds in `f64`. Weights are reals.
- `Earned(rate, span)` is `rate * span` (`RateLimit.EarnedIsProduct`), written as repeated addition to
  keep proofs linear.
- Counters are 32 and 64 bits wide and wrap, as in a release build. `usize` has 64 bits.
- The program's atomics are relaxed; here all threads agree on one order of steps.
- Random draws, the clock, the latency and the outcome of a forwarded request, and how often a weak
  exchange fails spuriously are inputs. A URL is its scheme and its canonical text.
- A limiter table is a concurrent sharded map, so one cleanup pass is a sequence of `Cleanup` steps,
  each of which visits some of the addresses at a time of its own, and the clearing of the table of route
  limiters by a reload is one step for each limiter, in any order.

## Where the code and its documentation differ

The model follows the code.

- The weighted-metrics balancer is documented to fall back to latency; the code never reads latency
  (`Weighted.MetricsIgnoresLatency`).
- With passive tracking off, outcomes are still recorded, with thresholds 2 and 5
  (`src/server.rs:172-191`). The documentation gives `false` as the default of both `enabled` flags;
  the code has `true`.
- An absent `match_path` is documented as `/`; the code accepts every path then. For keys an absent
  pattern is `*`, so an absent host and the host `*` share a limiter: validation accepts both routes, and
  the first is served with the limits of the second (`Proxy.OwnLimiterCanFail`).
- Host globs: with one star, prefix and suffix may overlap; with two or more, stars are literal
  (`Route.FaithfulIff` says for which patterns the code is right).
- The active checker looks an origin up by its URL without trailing slashes, while states are filed
  under the whole URL (`Route.ProbeFindsOwnKeyIff`). With origins `http://h/a` and `http://h/a/` both probes report on the
  first (`Route.ProbeFindsNeighbour`).
- Round-robin passes over an origin that has no state; the weighted balancers give it a default weight
  (`Proxy.ChoiceSound`).
- Discovered services are documented to map to origins automatically; a reload publishes a router
  without them, and they stay away until the next discovery event (`Publication.DroppedUntilRebuild`).
- `rate` and `burst` are documented as `u64` and are `u32`.

## Properties that hold only under a condition

- Eviction is invisible exactly when `rate * (max_idle + 1 ns) >= burst`, and on the same condition, and no
  other, the window bound of each address holds: `Eviction.EvictionInvisibleIff`, `Eviction.WindowBoundIff`.
- The latency average stays within 9 ns exactly while no sum overflows: `Origin.EwmaTracksIff`. Samples up
  to a bound can never overflow it, from a new origin, exactly when the bound is at most
  `(2^64 + 80) / 10` ns: `Origin.SafeSamplesIff`.
- Round-robin shares survive the wrap of the ticket counter exactly when the number of candidates
  divides 2^64: `RoundRobin.FairAcrossWrapIff`.
- Every route finds its own limiter at start-up exactly when routes with equal keys have equal limits:
  `Proxy.OwnLimiterIff`.
- Routes have limiter keys of their own exactly when no two differ only in a written star and no colon of
  a host can be read as the separator: `Route.DistinctKeysIff`.
- What the limiter of a route that requests reach admits from one address over time `T`, while `R` reloads
  are accepted, is at most `(R + 1) * burst + fast * T` for every `fast` that is the rate or more and refills
  an idle bucket before it is stale (`Admissions.AdmissionsAcrossReloads`). With the rate itself for `fast`
  the bound holds exactly when the rate does that (`Attainment.BoundAcrossReloadsIff`), and for every `R` a
  run of requests reaches it (`Attainment.BoundAttained`). `burst + rate * T` is enough exactly when,
  besides, there are no reloads (`Attainment.OneBurstIff`).
- That is not all that gets through on the route. While a reload has removed the limiter, requests meet the
  global limiter, and without one nothing: one reload lets any number through in no time
  (`FailOpen.OpenWindow`). What gets through in runs of requests with `R` reloads is bounded exactly when `R`
  is zero or a global limiter is configured, whatever the rates (`FailOpen.PassedBoundedIff`). With a global
  limiter the bound is `(R + 1) * burst` and the burst of the global one, plus what each earns at a number
  that is fast enough for it (`FailOpen.PassedAcrossReloads`); for every `R` but zero a run of requests
  reaches it (`FailOpen.PassedBoundAttained`).
- With no reload in flight, the router was built from the published configuration exactly when the last
  publication was not a rebuild overtaken by a reload: its time from load to publication overlaps that of
  the reload from router to configuration swap, and the two configurations differ
  (`Publication.AgreesWhenIdleIff`, `Publication.OutdatedRebuild`).
- A reload loses no discovered candidate exactly when nothing is listed for its pools:
  `Publication.ReloadDropsIff`.
- When no success overlaps a failure the final health flag is that of the sequential history
  (`Schedules.NoOverlapIsSequential`). Otherwise it is what was last written
  (`HealthInterleaving.FlagWhenInterleaved`), and that can be a success older than every failure
  (`Schedules.LateSuccess`). Given the calls, each with a threshold of its own, the schedule has no say
  exactly if no failure has a threshold within the number of failures, or no success has one within the
  number of successes and the failures cannot be spread between the successes so that none reaches its
  threshold: for some `k` more than `(S + 1) * (k - 1)` of them have thresholds of `k` at most, `S` being the
  number of successes (`Schedules.ScheduleIrrelevantIff`). With one threshold `st` for successes and one `ft`
  for the `F` failures that is `F < ft`, or `S < st` and `F > (S + 1) * (ft - 1)`
  (`Schedules.UniformIrrelevantIff`).
- An unhealthy origin is sent nothing and stays as it is in every interleaving exactly if no request is under
  way to it: none has been sent there, and none has read the state of a candidate for it that its balancer
  may still choose (`Requests.UnhealthyAbsorbsIff`; requests already reading have at most 2^64 candidates).
  Requests already sent can revive it (`Requests.RevivedInFlight`).
- An idle reload task leaves the configuration, limiters and passive settings of a fresh start on the last
  accepted configuration in every run (`Live.SettingsRefineFreshStart`), and its router, too, in every run
  without discovery (`Live.ReloadRefinesFreshStart`); `Publication.AgreesWhenIdleIff` is the condition with it.

## Model

| member | source | states |
|---|---|---|
| `RateLimit.TokenBucket.constructor` | src/middleware/ratelimit.rs:20-28 | a new bucket holds `burst` tokens and was used just now |
| `RateLimit.TokenBucket.TryConsume` | src/middleware/ratelimit.rs:33-49 | the in-place refill, cap and consume is the step `Consume`, whose long-run meaning `Conformance` proves |
| `RateLimit.TokenBucket.IsStale` | src/middleware/ratelimit.rs:52-54 | stale means idle for strictly longer than the limit |
| `RateLimit.RateLimiter.constructor` | src/middleware/ratelimit.rs:72-78 | a new limiter has no buckets |
| `RateLimit.RateLimiter.Check` | src/middleware/ratelimit.rs:85-95 | the answer and the whole new table are those of the value step: only the bucket of this address moves, and a missing one starts full |
| `RateLimit.RateLimiter.Retained` | src/middleware/ratelimit.rs:102 | asking each bucket in turn keeps exactly those that are not stale |
| `RateLimit.RateLimiter.CleanupStale` | src/middleware/ratelimit.rs:101-103 | exactly the stale buckets go and the rest stay as they are |
| `RateLimit.EarnedAdds` | src/middleware/ratelimit.rs:35-38 | refilling over two spans earns what refilling over both together does |
| `RateLimit.BackwardsEarnsNothing` | src/middleware/ratelimit.rs:33-54 | a clock that reads earlier earns nothing and makes nothing stale |
| `Conformance.BucketHolds` | src/middleware/ratelimit.rs:33-49 | at each request a bucket holds what an account would that starts full and pays for exactly the requests the bucket admitted |
| `Conformance.PaysIffFits` | src/middleware/ratelimit.rs:33-49 | such an account can pay exactly when every window ending at the request has room for it |
| `Conformance.BucketIsGreedy` | src/middleware/ratelimit.rs:39-48 | a bucket admits every request it can pay for and no other |
| `Conformance.ExactAnswer` | src/middleware/ratelimit.rs:33-49 | each single answer in terms of the answers before it: admitted if and only if all windows `[t_i, t_k]` still have room |
| `Conformance.ExactConformance` | src/middleware/ratelimit.rs:20-49 | a whole sequence is admitted if and only if `j - i + 1 <= burst + rate * (t_j - t_i)` for all `i <= j` |
| `Conformance.AffordableIffWindows` | src/middleware/ratelimit.rs:33-49 | a policy spends only tokens it holds if and only if it keeps every window within the bound |
| `Conformance.RivalBehind` | src/middleware/ratelimit.rs:33-49 | a rival policy never holds more than the bucket plus one token for each admission it is behind |
| `Conformance.GreedyOptimal` | src/middleware/ratelimit.rs:33-49 | at every point the bucket has admitted at least as many requests as any rival that spends only held tokens under the same rate and burst |
| `Conformance.AffordableWindow` | src/middleware/ratelimit.rs:33-49 | any such policy admits at most `burst + rate * (hi - lo)` requests in the time window `[lo, hi]` |
| `Conformance.WindowBound` | src/middleware/ratelimit.rs:33-49 | the bucket itself obeys that bound |
| `Eviction.FilledIsNew` | src/middleware/ratelimit.rs:86-94 | a bucket sure to have refilled answers, and ends up, just as a newly made one |
| `Eviction.SimulatedRun` | src/middleware/ratelimit.rs:85-103 | refinement: a limiter that has lost only such buckets gives the same answers for the rest of any run as one that never evicts |
| `Eviction.EvictionShows` | src/middleware/ratelimit.rs:85-103 | when an idle bucket cannot refill in time, a concrete run in which eviction changes an answer |
| `Eviction.EvictionInvisibleIff` | src/middleware/ratelimit.rs:33-103 | eviction changes no answer in any run, for any address, if and only if `rate * (max_idle + 1 ns)` covers the burst |
| `Eviction.EvictionInvisibleInUse` | src/bin/upstreamer/main.rs:57-66 | with the idle time of 300 s in use, it is invisible in every run if and only if `rate` times 300 s and a nanosecond covers the burst, and so whenever `rate * 300 >= burst` |
| `Eviction.Isolation` | src/middleware/ratelimit.rs:85-95 | however requests of many addresses interleave, one address is answered as by a lone bucket run on its own requests |
| `Eviction.WindowBoundOfAddress` | src/middleware/ratelimit.rs:85-103 | so each address stays within `burst + rate * (hi - lo)` in every window of every run |
| `Eviction.WindowBoundIff` | src/middleware/ratelimit.rs:85-103 | that bound holds for all runs, addresses and windows if and only if an idle bucket refills before it is stale |
| `Eviction.WindowBoundInUse` | src/bin/upstreamer/main.rs:57-66 | the window bound of every address with that idle time, on the same condition |
| `Eviction.IsolationIff` | src/middleware/ratelimit.rs:85-103 | every address is answered as by a lone bucket in every run, evictions included, if and only if an idle bucket refills before it is stale |
| `Eviction.AbuseExceeds` | src/middleware/ratelimit.rs:85-103 | otherwise a run in which one address gets twice the burst in a window that earns less than one |
| `Origin.OriginState.constructor` | src/balance/mod.rs:36-45 | a new origin is healthy with zero counters |
| `Origin.OriginState.RecordLatency` | src/balance/mod.rs:47-63 | the compare-exchange loop ends with exactly one update of the average, whatever spurious failures it meets |
| `Origin.OriginState.RecordSuccess` | src/balance/mod.rs:65-67 | a success with the fixed threshold 2 |
| `Origin.OriginState.RecordFailure` | src/balance/mod.rs:69-71 | a failure with the fixed threshold 5 |
| `Origin.OriginState.RecordSuccessWithThreshold` | src/balance/mod.rs:73-79 | the whole new state: wrapped count, other count cleared, flag set at the threshold |
| `Origin.OriginState.RecordFailureWithThreshold` | src/balance/mod.rs:81-88 | the whole new state: wrapped count, other count cleared, total counted, flag cleared at the threshold |
| `Origin.OriginState.IncrementRequests` | src/balance/mod.rs:90-92 | one more request, wrapping, and nothing else |
| `Origin.WrapNeverShows` | src/balance/mod.rs:73-88 | for every history of outcomes and thresholds the flag is that of unbounded counters, and the 32-bit counts are theirs modulo 2^32 |
| `Origin.IdealFlag` | src/balance/mod.rs:73-88 | with unbounded counters the flag is decided by the most recent completed run, each outcome held to the threshold it was recorded with |
| `Origin.FlagFromHistory` | src/balance/mod.rs:36-88 | so is the program's flag, for every history in which every call brings its own threshold; a threshold of zero acts as one |
| `Origin.FlagWithFixedThresholds` | src/balance/mod.rs:36-88 | with fixed thresholds: the most recent completed run of threshold-many failures or successes decides |
| `Origin.EwmaTracksIff` | src/balance/mod.rs:47-63 | the integer average is below the exact one by less than 9 ns at every sample if and only if no 64-bit sum overflowed |
| `Origin.EwmaAccurate` | src/balance/mod.rs:47-63 | from a new origin, with samples up to a safe bound: no overflow, never above the largest sample, even 9 below the bound, and within 9 ns of the exact average |
| `Origin.SafeSamplesIff` | src/balance/mod.rs:47-63 | samples up to a bound never overflow, in any sequence, if and only if the bound is at most `(2^64 + 80) / 10` |
| `Origin.EwmaCanWrap` | src/balance/mod.rs:52 | two larger samples drive the average to zero |
| `LatencyInterleaving.StepLinearised` | src/balance/mod.rs:49-62 | each atomic step of any thread keeps the shared average equal to the fold over completed calls |
| `LatencyInterleaving.Linearisable` | src/balance/mod.rs:47-63 | in every interleaving the average is the fold over completed calls in the order of their exchanges, each once; spurious failures and reappearing values do no harm |
| `LatencyInterleaving.OrderOnlyGrows` | src/balance/mod.rs:47-63 | completed calls keep their places, so the order respects real time |
| `LatencyInterleaving.AccurateWhenInterleaved` | src/balance/mod.rs:47-63 | the 9 ns bound holds at every point of every interleaving |
| `HealthInterleaving.CountersWhenInterleaved` | src/balance/mod.rs:73-88 | in every interleaving both consecutive counters are nonzero only while some call is between its increment and its reset; at quiescence one is zero and the total is the number of failure calls modulo 2^64 |
| `HealthInterleaving.FlagWhenInterleaved` | src/balance/mod.rs:73-88 | in every interleaving of successes and failures with any thresholds: the flag is what was last written to it, the counters are the current runs modulo 2^32, and each call compares its threshold with the run that its own increment extended |
| `Schedules.ConcurrentFailuresMark` | src/balance/mod.rs:81-88 | failure calls alone, each with its own threshold and however they interleave, mark the origin unhealthy if for some `k` at least `k` of them have thresholds of `k` at most, and only if the threshold of one is within their number |
| `Schedules.UniformFailuresMark` | src/balance/mod.rs:81-88 | with one threshold they do so if and only if there are at least threshold-many, zero acting as one |
| `Schedules.LateSuccess` | src/balance/mod.rs:73-88 | for every pair of thresholds a run in which a success that began before all failures finishes last: it undoes the mark of threshold-many completed failures and clears their count |
| `Schedules.UnhealthyPossibleIff` | src/balance/mod.rs:73-88 | given any calls, each with its own threshold, some schedule ends unhealthy if and only if some failure has a threshold within the number of failures |
| `Schedules.HealthyPossibleIff` | src/balance/mod.rs:73-88 | some schedule ends healthy if and only if some success has a threshold within the number of successes, or the failures can be spread between the successes so that none reaches its threshold, which is a bound on the number of failures below each threshold |
| `Schedules.ScheduleIrrelevantIff` | src/balance/mod.rs:73-88 | so exactly which calls end with the same flag in every schedule |
| `Schedules.UniformIrrelevantIff` | src/balance/mod.rs:73-88 | the same in numbers when all successes share one threshold and all failures another |
| `Schedules.NoOverlapIsSequential` | src/balance/mod.rs:73-88 | if no success overlaps a failure, counters and flag at quiescence are those of the calls one by one in the order of their increments |
| `RoundRobin.RoundRobinBalancer.constructor` | src/balance/round_robin.rs:10-14 | tickets start at zero |
| `RoundRobin.RoundRobinBalancer.SelectOrigin` | src/balance/round_robin.rs:24-47 | the scan returns what its ticket picks, and takes one ticket exactly if there are candidates |
| `RoundRobin.PickSound` | src/balance/round_robin.rs:29-46 | something is picked if and only if some candidate has a healthy state, and then such a one |
| `RoundRobin.ScanIff` | src/balance/round_robin.rs:36-44 | a scan picks position `i` exactly from `i` itself and from the run of unhealthy positions cyclically before it |
| `RoundRobin.RoundShare` | src/balance/round_robin.rs:33-44 | one round of starts picks a healthy position once plus the length of that run |
| `RoundRobin.RoundRobinShare` | src/balance/round_robin.rs:29-46 | the same for any `n` consecutive tickets without a wrap of the counter |
| `RoundRobin.LongShare` | src/balance/round_robin.rs:29-46 | over any number of selections, the full rounds give exact shares and the rest at most one more |
| `RoundRobin.FairWhenAllUp` | src/balance/round_robin.rs:29-46 | with all candidates healthy, `k` selections give each position `k / n` rounded down or up |
| `RoundRobin.FairAcrossWrapIff` | src/balance/round_robin.rs:34 | the shares hold across the wrap of the 64-bit counter if and only if `n` divides 2^64 |
| `Weighted.WeightedRandomSelect` | src/balance/weighted.rs:34-52 | a positive total: the one index `i` with `P(i) <= unit * total < P(i) + w(i)`, `P(i)` being the sum of the weights before it; the final fallback is never reached. No positive total: the uniform draw |
| `Weighted.IntervalsDisjoint` | src/balance/weighted.rs:43-49 | no draw lies in two intervals |
| `Weighted.TotalPositiveIff` | src/balance/weighted.rs:35-38 | the total is positive if and only if some weight is |
| `Weighted.DrawIff` | src/balance/weighted.rs:91-96 | the draws that select `i` are exactly those with `P(i) <= unit * total < P(i) + w(i)`; something is selected if and only if some weight is positive, and never an index of weight zero |
| `Weighted.DrawSplits` | src/balance/weighted.rs:34-52 | the draws from zero to one fall into consecutive intervals, one for each index, whose lengths are the weights over their total |
| `Weighted.SelectByWeight` | src/balance/weighted.rs:91-96 | from the index of the scan to the choice: none exactly when no weight is positive |
| `Weighted.SelectByLatency` | src/balance/weighted.rs:54-98 | the loop builds the latency weights and selects by them |
| `Weighted.SelectByMetrics` | src/balance/weighted.rs:100-152 | the loop, latency branch included, builds weights that are constant but for health and user weight |
| `Weighted.WeightPositiveIff` | src/balance/weighted.rs:65-89 | a weight is positive if and only if the candidate is not known to be unhealthy and its user weight is not zero |
| `Weighted.LatencyWeightIs` | src/balance/weighted.rs:66-86 | unless it is known to be unhealthy, a candidate's weight times its latency plus one is its user weight, an unmeasured latency counting as zero |
| `Weighted.MetricsIgnoresLatency` | src/balance/weighted.rs:118-131 | equal health flags give equal metrics weights, whatever the latencies |
| `Weighted.WeightedChoice` | src/balance/weighted.rs:54-152 | both weighted balancers choose if and only if some candidate is eligible, and only an eligible one |
| `Config.Validate` | src/config/parser.rs:87-174 | accepts exactly the acceptable configurations and otherwise reports the first problem |
| `Config.ValidatePools` | src/config/parser.rs:114-146 | the pools of one route: the first empty pool or refused origin, in order |
| `Config.ValidateOrigins` | src/config/parser.rs:123-145 | the first origin whose scheme is not http, `https` having an error of its own |
| `Config.AcceptedIff` | src/config/parser.rs:87-174 | the ordered search for a problem finds none if and only if the order-free definition of acceptable holds |
| `Config.ErrorIsReal` | src/config/parser.rs:87-174 | the reported error is the first thing wrong with the first route that has anything wrong, in the order repeated match, no pools, pools, limit, or with the settings looked at last when no route has |
| `Config.RouteNameIs` | src/config/parser.rs:91-97 | a route is named in errors by its host, or else its path, or else its index in decimal |
| `Route.KeysEqualIff` | src/route.rs:66-70 | two routes share a key if and only if host and path agree, absent read as a star, or a colon of one host can be read as the separator |
| `Route.KeysCanCollide` | src/config/parser.rs:87-174 | the two ways to share a key, each in a configuration that validation accepts |
| `Route.DistinctKeysIff` | src/route.rs:66-70 | keys are pairwise distinct if and only if no colon can be misread and no two routes differ only in a written star |
| `Route.ReadableWhenPlain` | src/route.rs:66-70 | no colon can be misread when no host has one, and also when hosts, ports included, have no slash and paths begin with one |
| `Route.DistinctKeys` | src/config/parser.rs:98-107 | an accepted configuration in which no colon can be misread and no lone star is written has pairwise distinct keys |
| `Route.ProbeFindsIff` | src/health/checker.rs:30-63 | a probe of one origin finds the state of another if and only if that one's URL has no slash at its end and the probed URL is the same with slashes after it |
| `Route.ProbeFindsOwnKeyIff` | src/health/checker.rs:30-63 | the active checker looks an origin up under its own key if and only if the URL does not end in a slash |
| `Route.ProbeFindsNeighbour` | src/health/checker.rs:30-63 | two URLs of which both probes find the state of the first |
| `Route.FromConfig` | src/route.rs:36-84 | one entry a route in order, with its own fresh balancer, its key and its configured candidates in order |
| `Route.FromConfigWithK8s` | src/route.rs:86-150 | the same with discovered candidates after those of each pool |
| `Route.RoutersHold` | src/route.rs:36-150 | every router has, route by route, the patterns, key and algorithm of the route and, pool by pool in order, one candidate for each configured origin with its URL, weight and health path, then one for each URL found for the pool, without weight or path, and nothing else |
| `Route.StaticCandidatesOf` | src/route.rs:52-64 | the candidate loop without discovery |
| `Route.CandidatesOf` | src/route.rs:105-130 | the candidate loop with discovery |
| `Route.MatchRoute` | src/route.rs:152-174 | the loop returns the first entry whose host pattern, if any, passes the host test and whose path, if any, begins the path of the request, and nothing if there is none |
| `Route.MatchIsFirst` | src/route.rs:152-174 | the specification of matching returns `k` if and only if `k` is that first entry, and none if and only if there is none |
| `Route.MatchByGlob` | src/route.rs:152-174 | with patterns that the code reads as globs, the host half is that the glob fits the host |
| `Route.HostTestIs` | src/route.rs:176-190 | the host test for every pattern: one star asks for a beginning and an end, any other number for equality |
| `Route.GlobOneStar` | src/route.rs:181-187 | what a one-star glob means: prefix, suffix and room for both |
| `Route.MatchGlobIff` | src/route.rs:176-190 | with at most one star, the code accepts what the glob means and, beyond that, exactly the too short values it lets overlap |
| `Route.FaithfulIff` | src/route.rs:176-190 | the code agrees with the glob on every host if and only if the pattern has no star, or one star whose two sides do not overlap |
| `Route.MatchGlobDeparts` | src/route.rs:181-189 | a host for each of the two ways it fails |
| `Route.DiscoveryAddsOnly` | src/route.rs:105-130 | configured candidates stay an in-order subsequence and what is added is exactly what is listed for the pools |
| `Route.DiscoveryPreservesRouting` | src/route.rs:86-174 | whatever is discovered, every request goes to the route the configuration alone gives, with the same key and algorithm; an empty discovery changes nothing |
| `Proxy.RoutersHaveKeys` | src/route.rs:36-150 | each candidate of a router comes from its configuration or from what was discovered |
| `Proxy.FreshIs` | src/state.rs:31-77 | start-up gives the URLs of the configured origins, and no others, healthy states with nothing counted, and takes the passive settings over |
| `Proxy.ReloadIs` | src/config/reload.rs:45-93 | a reload keeps every state and the global limiter as they are, gives new origins empty states, and otherwise leaves what a start-up with the new configuration would |
| `Proxy.RebuildIs` | src/health/discovery.rs:44-55 | a discovery event builds the router from the published configuration, adds empty states for found URLs that have none, and changes nothing else |
| `Proxy.OwnLimiterIff` | src/state.rs:51-58 | at start-up every route finds the limiter of its own settings, or none if it has none, if and only if routes with equal keys have equal limits |
| `Proxy.OwnLimiter` | src/server.rs:104-113 | for an accepted configuration in which no colon can be misread and no lone star is written, the route a request is matched to finds its own limiter or none |
| `Proxy.OwnLimiterCanFail` | src/state.rs:51-58 | an accepted configuration whose first route is matched and finds the limiter of its second |
| `Proxy.ChoiceSound` | src/server.rs:120-132 | each balancer chooses if and only if it may choose something, and only what it may |
| `Shares.LatencyShares` | src/balance/weighted.rs:55-96 | on a `weighted_latency` route the draws that choose a candidate form an interval in proportion to user weight over (latency + 1), an unhealthy candidate getting none |
| `Shares.MetricsShares` | src/balance/weighted.rs:98-152 | on a `weighted_metrics` route in proportion to the user weight alone |
| `Shares.TurnIff` | src/balance/round_robin.rs:29-46 | on a `round_robin` route the first healthy candidate from position `ticket mod n` on, going round once, is chosen |
| `Shares.ServeAnswers` | src/server.rs:86-134 | which of the four answers a request gets, from the first entry that takes it and the candidates that may be chosen |
| `Shares.ServeTakesTurn` | src/balance/round_robin.rs:34 | a request that is let through takes one ticket of its own round-robin route with candidates, and nothing else takes any |
| `Gates.AllLetThroughIff` | src/server.rs:103-118 | from start-up until a reload, beside all other requests and discoveries: all requests of an address at one limiter, its route's own or else the global one, are let through if and only if `j - i + 1 <= burst + rate * (t_j - t_i)` for all of them, in seconds, by the configured settings |
| `Gates.LetThroughIff` | src/server.rs:103-118 | each single one is let through if and only if every stretch that ends with it still has room |
| `Gates.NoGateNoLimit` | src/server.rs:107-113 | a request whose route has no limiter is never turned away when there is no global one |
| `Proxy.ServeSparesUnhealthy` | src/server.rs:120-193 | one request is never sent to an origin known to be unhealthy and leaves its state alone |
| `Proxy.UnhealthyAbsorbs` | src/server.rs:120-193 | through any requests, reloads and discoveries without probes, an unhealthy origin is sent nothing and its state never changes |
| `Proxy.UnhealthyAbsorbsFromStart` | src/state.rs:31-77 | the same after any run from start-up |
| `Outcomes.ServeRecords` | src/server.rs:136-193 | one request changes the state of the one origin it was sent to, by one recorded outcome, and no other |
| `Outcomes.OutcomeLeaves` | src/server.rs:146-193 | what one outcome leaves: a response outside 500..599 clears the failures in a row and counts a success; one within, or none at all, clears the successes in a row and counts a failure in a row and in total; thresholds are the configured ones, or 2 and 5 when passive tracking is off |
| `Outcomes.StatelessUnrecorded` | src/server.rs:146-193 | a request sent to a candidate without a state leaves no record, and only the weighted balancers send one there |
| `Outcomes.RunAccounts` | src/server.rs:146-193 | over any run from a supplied state, an origin's counters, flag and average advance by exactly the requests sent to it |
| `Outcomes.TrafficIsCounted` | src/server.rs:120-193 | from start-up, through any requests, reloads and discoveries, for every key: the totals are the numbers of requests sent to it, and of those with no response or one in 500..599, modulo 2^64, and the latency is the average over those requests; a key without a state has been sent none |
| `Outcomes.TrafficDecidesFlag` | src/server.rs:150-192 | the flag of every origin is decided by the last completed run among the outcomes of those requests, each held to the threshold in force then, 2 or 5 when passive tracking is off |
| `Live.EveryCandidateHasState` | src/health/discovery.rs:44-55 | in every interleaving of reload, discovery and traffic each origin of the published configuration has a state, and a router candidate lacks one only while a task in flight is due to add it |
| `Live.CoveredThroughout` | src/config/reload.rs:45-93 | the invariant behind it, kept by every step from any state that has it |
| `Live.StatesOnlyGrow` | src/config/reload.rs:65-77 | over any run no origin state is dropped, only outcomes recorded for an origin change it, and the global limiter keeps its first settings |
| `Live.CleanupDrops` | src/bin/upstreamer/main.rs:57-66 | a cleanup of the global limiter or of one route's drops exactly the visited buckets unused for more than 300 s and touches nothing else |
| `Live.CourseThroughout` | src/config/reload.rs:45-93 | what is published at each stage of a reload, in every run without discovery |
| `Live.SettledThroughout` | src/config/reload.rs:45-93 | what of them is published at each stage of a reload, from any state that agrees with some last configuration, discovery included |
| `Live.ReloadRefinesFreshStart` | src/config/reload.rs:36-102 | after any accepted and refused reloads and no discovery, an idle reload task leaves the configuration, router, limiter table and passive settings that starting afresh on the last accepted configuration gives, up to traffic |
| `Live.SettingsRefineFreshStart` | src/config/reload.rs:36-102 | the same for configuration, limiter table and passive settings in every run, discovery included |
| `Publication.RouterFollowsBasis` | src/config/reload.rs:46-47 | in every interleaving the router is, up to turns taken, the one built from the configuration and discoveries of the last publication |
| `Publication.RouterHasBasis` | src/health/discovery.rs:45-47 | from start-up, that configuration is the first one or an accepted one, and those discoveries were listed at some point |
| `Publication.AgreesWhenIdleIff` | src/health/discovery.rs:45-47 | with no reload in flight, the router was built from the published configuration if and only if the last publication was not a rebuild that the last publishing reload overlaps, from its router to its swap, with another configuration |
| `Publication.OutdatedRebuild` | src/health/discovery.rs:45-47 | from any idle state and for any acceptable configuration, a run that ends idle with that configuration and a router of the one before |
| `Publication.ReloadDropsIff` | src/config/reload.rs:46 | the router of a reload has all the candidates of one with discoveries if and only if nothing is listed for any of its pools |
| `Publication.DroppedUntilRebuild` | src/config/reload.rs:45-93 | from the publication of a reload until discovery acts, no router holds a discovered candidate |
| `Live.PassAlone` | src/config/reload.rs:45-93 | reload steps that nothing interrupts amount to the undisturbed pass |
| `Live.DiscoveryAlone` | src/health/discovery.rs:44-55 | the same for discovery |
| `Live.RequestAlone` | src/server.rs:70-207 | the steps of one request that nothing interrupts amount to serving it |
| `Requests.RequestAlone` | src/server.rs:70-207 | so do its stages, one state read at a time: match, limit, read, select, record |
| `Requests.ShadowRuns` | src/server.rs:70-207 | every run of requests in stages is, in what it does to the published state, a run of the tasks of `Live`, so all their invariants hold in it |
| `Requests.Lifted` | src/server.rs:101-113 | conversely, tasks and limiter checks that a request for a given host and path would make at those moments are what some run of requests does |
| `Requests.MoveSparesUnhealthy` | src/balance/round_robin.rs:36-44 | no move of any request or task sends anything to an unhealthy origin that no request is under way to, or changes its state; reading that state removes the last way there |
| `Requests.UnhealthyAbsorbs` | src/server.rs:120-193 | so in every interleaving of any number of requests, reloads, discovery and cleanup it is never selected and its state never changes |
| `Requests.UnhealthyAbsorbsIff` | src/server.rs:120-193 | an unhealthy origin is sent nothing and keeps its state in every interleaving if and only if no request has been sent there and none holds what lets its balancer choose it |
| `Requests.UnhealthyAbsorbsFromStart` | src/state.rs:31-77 | the sufficient half from any point of any run from start-up |
| `Requests.RevivedInFlight` | src/server.rs:138-192 | a run from start-up in which an origin goes unhealthy while two requests are on their way to it, and their success makes it healthy again |
| `Recordings.RecordedWhenInterleaved` | src/server.rs:138-193 | from start-up, in every interleaving of any number of requests with reloads, discovery and cleanup, for every key: the totals are the numbers of recordings, and of those with no response or one in 500..599, modulo 2^64, the latency is the average over just those, and the flag is decided by the last completed run among them in the order of recording |
| `Recordings.RunBalances` | src/server.rs:138-193 | of the requests sent to an origin that has a state, each is recorded on it exactly once or still under way |
| `Recordings.EachSentRequestCounts` | src/server.rs:138-193 | so from start-up the total of a configured origin is the number of requests sent to it less those under way, modulo 2^64 |
| `Admissions.StepMovesPurse` | src/server.rs:107-113 | each step pays for what it admits out of tokens in hand, time, and the one burst an accepted reload hands over |
| `Admissions.PurseOverRun` | src/config/reload.rs:50-63 | the same summed over any run, from any state that fits |
| `Admissions.AdmissionsAcrossReloads` | src/config/reload.rs:49-63 | from start-up, for any settings, what the limiter of one route admits from one address is at most `(R + 1) * burst + fast * T` over time `T` with `R` accepted reloads, `fast` being the rate if idle buckets refill before they are stale, and otherwise any larger number that makes them |
| `Admissions.AdmissionsInWindow` | src/config/reload.rs:49-63 | the same for any window that begins with no reload in flight |
| `Attainment.BurstEachReload` | src/config/reload.rs:49-63 | from any idle state with a full bucket, `r` reloads let one address through `(r + 1) * burst` times in no time, each check being one that a request matched to the route makes |
| `Attainment.BoundAttained` | src/config/reload.rs:49-63 | so requests reach the bound across reloads from start-up for every number of reloads |
| `Attainment.BoundAcrossReloadsIff` | src/config/reload.rs:49-63 | for a route that requests reach, the bound across reloads holds in every run of requests if and only if an idle bucket refills before it is stale |
| `Attainment.EmptiedTwiceAdmits` | src/bin/upstreamer/main.rs:63-65 | emptied, evicted after 300 s and emptied again, a bucket of a route admits twice the burst with no reload |
| `Attainment.OneBurstIff` | src/config/reload.rs:49-63 | every run of requests with `r` accepted reloads stays within `burst + rate * T` if and only if `r` is zero and an idle bucket refills in time |
| `FailOpen.OpenWindow` | src/server.rs:107-113 | from any idle state without a global limiter, one accepted reload lets one address through any number of times in no time, by requests matched to a route of the new configuration |
| `FailOpen.PassedSplits` | src/server.rs:107-113 | with a global limiter, every request that gets through is admitted by it or by the route's own |
| `FailOpen.GlobalOverRun` | src/server.rs:109-110 | over any run the global limiter admits from one address at most what it can hand it and earns, whatever reloads do |
| `FailOpen.PassedAcrossReloads` | src/config/reload.rs:50-63 | with a global limiter and any settings, what one address gets through on a route, by whatever limiter, is at most `(R + 1) * burst`, the burst of the global one, and what both earn |
| `FailOpen.PassedInWindow` | src/config/reload.rs:50-63 | the same for any window that begins with no reload in flight |
| `FailOpen.PassedBoundedIff` | src/config/reload.rs:50-63 | for every accepted configuration, what gets through on a limited route that requests reach, in runs of requests with `r` accepted reloads of a given length, has a bound if and only if `r` is zero or a global limiter is configured |
| `FailOpen.PassedBoundAttained` | src/config/reload.rs:50-63 | with a global limiter and a reload or more, requests get `(r + 1) * burst` and the burst of the global limiter through in no time: the bound is reached |
| `Tables.OriginMap.OrDefault` | src/state.rs:37 | adds a new state under a key that has none and touches no other |
| `Tables.RecordOn` | src/server.rs:147-192 | the branches on passive tracking, status and error add up to recording one outcome with the right thresholds |
| `Tables.OriginMap.Record` | src/server.rs:146-193 | an origin with a state gets the outcome; without one, nothing happens |
| `Tables.LimiterMap.Check` | src/server.rs:107-108 | checking one limiter moves that limiter only |
| `Tables.LimiterMap.Clear` | src/config/reload.rs:50 | the table is emptied |
| `Tables.LimiterMap.Insert` | src/config/reload.rs:58-61 | a key gets a limiter with no history |
| `AppState.Router.Match` | src/route.rs:152-174 | the published router matches as its value does |
| `AppState.Router.Select` | src/server.rs:120-132 | one route's balancer chooses, and no other route's turn moves |
| `AppState.AddOriginStates` | src/state.rs:34-40 | the nested loops give every configured origin a state and keep those there are |
| `AppState.FillLimiters` | src/state.rs:52-58 | the loop builds the limiter table, later routes overwriting equal keys |
| `AppState.AppState.constructor` | src/state.rs:31-77 | start-up yields the fresh state of the configuration |
| `AppState.AppState.CheckLimits` | src/server.rs:107-113 | the route's limiter answers if there is one, else the global one, else the request passes |
| `AppState.AppState.HandleRequest` | src/server.rs:70-207 | response and whole new state of one request |
| `AppState.AppState.AttemptReload` | src/config/reload.rs:36-102 | an unparsable or unacceptable configuration changes nothing; any other is reloaded |
| `AppState.AppState.ReloadPass` | src/config/reload.rs:45-93 | the publications in order amount to one reload |
| `AppState.AppState.Discover` | src/health/discovery.rs:94-107 | a pool holds only the URL that came last; the router is rebuilt from the published configuration and every listed URL has a state |

## Left out

- HTTP forwarding, header copying, bodies and connections (`src/server.rs:19-68`, `src/server.rs:209-271`): the outcome and latency of a forwarded request are inputs.
- Active probes and the health and metrics endpoints: networking and rendering. That a recovered origin returns to rotation depends on probes and is not claimed; `Route.ProbeFindsOwnKeyIff` models only the key of the lookup.
- Reading and parsing TOML and URLs, file watching and debouncing: a reload attempt receives a configuration or nothing, and whether a directory exists is an input.
- Settings that the modelled code does not read: listen addresses, active probing, Kubernetes, `observation_window`, the page files of `error_pages`.
- The reason text of an invalid URL scheme (`src/config/parser.rs:140`): the error carries the scheme.
- The Kubernetes client, the watch stream and `service_to_origin`: discovery receives pairs of pool and URL.
- Prometheus and `/proc` metrics, logging, the command line, error pages: no property of the engine depends on them.
- Rounding in `f64`, the quality of the random generator, reorderings that relaxed atomics allow beyond one common order.
- The order of URLs in a hash map of discovered origins: states are added in any order.
- The cleanup task in `AppState`: its loop over limiters is modelled by the steps `CleanGlobal` and `CleanRoute` of `Live`.
- Concurrent requests in `AppState`: each method there is one undisturbed pass. In `Live` a limiter check, a ticket and the recording of an outcome are separate steps; in `Requests` a request keeps its route entry, possibly of a router already replaced, and its stages interleave with everything else, its ticket being any number. The atomic operations inside one recording interleave only in `Interleaving` and `Schedules`.
- Gates.AllLetThroughIff: no reload and no cleanup in the run; `Eviction` says when cleanup shows, and `Admissions` and `FailOpen` what reloads add.
- Admissions.AdmissionsAcrossReloads: counts what the route's own limiter admits; requests that a reload has left without it are counted by `FailOpen.PassedAcrossReloads`. The settings must stay the same, so that the bound has one rate and one burst.
- Live.ReloadRefinesFreshStart: no discovery runs beside the reloads, since a rebuild may publish a router made from the configuration that a reload is about to replace; `Live.SettingsRefineFreshStart` covers everything but the router, and `Publication` says what the router is then.
- Proxy.UnhealthyAbsorbs: requests are taken one at a time; `Requests.UnhealthyAbsorbs` is the same for requests in stages.
- Requests.UnhealthyAbsorbs: reading one origin state and recording one outcome are single moves, and a balancer that lists one URL twice reads its state once.
- Requests.UnhealthyAbsorbsIff: a route entry has at most 2^64 candidates, so that some ticket names each of them.
- Recordings.RecordedWhenInterleaved: one outcome is recorded in a single move; the atomic operations inside it interleave in `Interleaving` and `Schedules`.
- Outcomes.TrafficIsCounted: requests, reloads and discoveries one after the other; `Recordings.RecordedWhenInterleaved` is the same for requests in stages. There a candidate can lack a state while a task in flight is due to add it, and `Outcomes.StatelessUnrecorded` says what becomes of a request sent there.
- Outcomes.TrafficDecidesFlag: requests one at a time, as above; `Recordings.RecordedWhenInterleaved` has the flag as well.
