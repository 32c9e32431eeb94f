/** What gets past the limiters while a reload has removed a route's own: the request meets the global
    limiter if one is configured, and otherwise nothing. */
module FailOpen {
  import opened Primitives
  import opened Config
  import opened RateLimit
  import opened Live
  import opened Admissions
  import opened Requests
  import opened Attainment
  import Eviction
  import Proxy
  import Route

  /** The step lets a request of `ip` for the route of `key` pass, by whatever limiter or by none. */
  predicate PassesBy(l: World, step: Step, key: string, ip: IpAddr) {
    step.Check? && step.limiter == key && step.ip == ip && Proxy.Admit(l.p, key, ip, step.at).1
  }

  function Passed(l: World, steps: seq<Step>, key: string, ip: IpAddr): nat
    requires CanRun(l, steps)
    decreases |steps|
  {
    if steps == [] then 0
    else (if PassesBy(l, steps[0], key, ip) then 1 else 0) + Passed(Apply(l, steps[0]), steps[1..], key, ip)
  }

  /** The step is let through by the global limiter. */
  predicate GlobalAdmitsBy(l: World, step: Step, ip: IpAddr) {
    && step.Check? && step.ip == ip && step.limiter !in l.p.limiters
    && l.p.global.Some? && l.p.global.value.Check(ip, step.at).1
  }

  function GlobalAdmitted(l: World, steps: seq<Step>, ip: IpAddr): nat
    requires CanRun(l, steps)
    decreases |steps|
  {
    if steps == [] then 0
    else (if GlobalAdmitsBy(l, steps[0], ip) then 1 else 0) + GlobalAdmitted(Apply(l, steps[0]), steps[1..], ip)
  }

  /** With a global limiter every request that passes is admitted by one limiter or the other. */
  lemma {:induction false} PassedSplits(l: World, steps: seq<Step>, key: string, ip: IpAddr)
    requires CanRun(l, steps) && l.p.global.Some?
    ensures Passed(l, steps, key, ip) <= Admitted(l, steps, key, ip) + GlobalAdmitted(l, steps, ip)
    decreases |steps|
  {
    if steps == [] {
    } else {
      PassedSplits(Apply(l, steps[0]), steps[1..], key, ip);
    }
  }

  /** Without reloads the route's limiter stays where it is, and decides alone. */
  lemma {:induction false} PassedWithoutReloads(l: World, steps: seq<Step>, key: string, ip: IpAddr)
    requires CanRun(l, steps) && Reloads(steps) == 0 && l.reload.NoReload? && key in l.p.limiters
    ensures Passed(l, steps, key, ip) == Admitted(l, steps, key, ip)
    decreases |steps|
  {
    if steps == [] {
    } else {
      PassedWithoutReloads(Apply(l, steps[0]), steps[1..], key, ip);
    }
  }

  // ----- the global limiter

  /** The global limiter as a table of one. */
  function GlobalTable(l: World): map<string, Limiter> {
    if l.p.global.Some? then map["" := l.p.global.value] else map[]
  }

  ghost predicate GlobalFit(l: World, ip: IpAddr, rate: u32, burst: u32, now: nat) {
    l.p.global.Some? && LimiterSound(GlobalTable(l), "", ip, rate, burst, now)
  }

  function GlobalHand(l: World, ip: IpAddr, fast: nat, now: nat): nat {
    InHand(GlobalTable(l), "", ip, fast, now)
  }

  lemma GlobalCleanupKeepsHand(l: World, step: Step, ip: IpAddr, rate: u32, burst: u32, fast: nat)
    requires step.CleanGlobal? && GlobalFit(l, ip, rate, burst, step.at) && FastEnough(rate, burst, fast)
    ensures GlobalFit(Apply(l, step), ip, rate, burst, step.at)
    ensures GlobalHand(Apply(l, step), ip, fast, step.at) == GlobalHand(l, ip, fast, step.at)
  {
    if ip in l.p.global.value.buckets {
      var b := l.p.global.value.buckets[ip];
      if Stale(b, Eviction.MAX_IDLE, step.at) {
        StaleIsGenerous(b, rate, burst, fast, step.at);
      }
    }
  }

  lemma GlobalCheckMovesHand(l: World, step: Step, ip: IpAddr, rate: u32, burst: u32, fast: nat)
    requires step.Check? && GlobalFit(l, ip, rate, burst, step.at) && fast >= rate
    ensures GlobalFit(Apply(l, step), ip, rate, burst, step.at)
    ensures GlobalHand(Apply(l, step), ip, fast, step.at) + (if GlobalAdmitsBy(l, step, ip) then NANOS else 0)
         <= GlobalHand(l, ip, fast, step.at)
  {
    if step.limiter !in l.p.limiters && step.ip == ip {
      CheckSpends(l.p.global.value, ip, fast, step.at);
    }
  }

  lemma StepMovesGlobal(l: World, step: Step, ip: IpAddr, rate: u32, burst: u32, fast: nat, now: nat)
    requires GlobalFit(l, ip, rate, burst, now) && Enabled(l, step) && now <= TimeOf(step, now)
    requires FastEnough(rate, burst, fast)
    ensures var l', later := Apply(l, step), TimeOf(step, now);
      && GlobalFit(l', ip, rate, burst, later)
      && GlobalHand(l', ip, fast, later) + (if GlobalAdmitsBy(l, step, ip) then NANOS else 0)
         <= GlobalHand(l, ip, fast, now) + Earned(fast, later - now)
  {
    HandLater(GlobalTable(l), "", ip, rate, burst, fast, now, TimeOf(step, now));
    if step.Check? {
      GlobalCheckMovesHand(l, step, ip, rate, burst, fast);
    } else if step.CleanGlobal? {
      GlobalCleanupKeepsHand(l, step, ip, rate, burst, fast);
    } else {
      assert Apply(l, step).p.global == l.p.global;
    }
  }

  lemma {:induction false} GlobalOverRun(l: World, steps: seq<Step>, ip: IpAddr, rate: u32, burst: u32, fast: nat,
                                         now: nat)
    requires GlobalFit(l, ip, rate, burst, now) && CanRun(l, steps) && StepsInOrder(now, steps)
    requires FastEnough(rate, burst, fast)
    ensures now <= EndTime(now, steps) && GlobalFit(Run(l, steps), ip, rate, burst, EndTime(now, steps))
    ensures Whole(GlobalAdmitted(l, steps, ip))
         <= GlobalHand(l, ip, fast, now) + Earned(fast, EndTime(now, steps) - now)
    decreases |steps|
  {
    if steps == [] {
    } else {
      hide GlobalFit, GlobalHand, GlobalAdmitsBy, Apply, Enabled;
      var step, rest := steps[0], steps[1..];
      var later, end := TimeOf(step, now), EndTime(now, steps);
      StepMovesGlobal(l, step, ip, rate, burst, fast, now);
      GlobalOverRun(Apply(l, step), rest, ip, rate, burst, fast, later);
      EarnedAdds(fast, later - now, end - later);
    }
  }

  // ----- bounds on what passes

  /** Limits, and numbers that are fast enough for them. */
  datatype Limits = Limits(own: RateLimitConfig, ownFast: nat, global: RateLimitConfig, globalFast: nat)

  ghost predicate Good(x: Limits) {
    FastEnough(x.own.rate, x.own.burst, x.ownFast) && FastEnough(x.global.rate, x.global.burst, x.globalFast)
  }

  /** Whole tokens in bursts of the own limiter and one of the global. */
  function Handed(x: Limits, reloads: nat): nat {
    (reloads + 1) * x.own.burst + x.global.burst
  }

  /** What both earn in a span. */
  function EarnedByBoth(x: Limits, span: nat): nat {
    Earned(x.ownFast, span) + Earned(x.globalFast, span)
  }

  lemma HandedInTwo(x: Limits, reloads: nat)
    ensures Whole(Handed(x, reloads)) == Whole((reloads + 1) * x.own.burst) + Whole(x.global.burst)
  {
  }

  lemma EarnedByBothIs(x: Limits, span: nat)
    ensures EarnedByBoth(x, span) == x.ownFast * span + x.globalFast * span
  {
    EarnedIsProduct(x.ownFast, span);
    EarnedIsProduct(x.globalFast, span);
  }

  lemma GlobalFrom(l: World, steps: seq<Step>, ip: IpAddr, x: Limits, now: nat)
    requires GlobalFit(l, ip, x.global.rate, x.global.burst, now) && Good(x)
    requires CanRun(l, steps) && StepsInOrder(now, steps)
    ensures now <= EndTime(now, steps)
    ensures var time := EndTime(now, steps) - now;
      Whole(GlobalAdmitted(l, steps, ip)) <= Whole(x.global.burst) + Earned(x.globalFast, time)
  {
    GlobalOverRun(l, steps, ip, x.global.rate, x.global.burst, x.globalFast, now);
    HandAtMostBurst(GlobalTable(l), "", ip, x.global.rate, x.global.burst, x.globalFast, now);
  }

  /** From any point with no reload in flight, with a global limiter: what one address gets through on a
      route is bounded by what the two limiters can hand it. */
  lemma PassedFrom(l: World, steps: seq<Step>, key: string, ip: IpAddr, x: Limits, now: nat)
    requires Fit(l, key, ip, x.own.rate, x.own.burst, now) && l.reload.NoReload?
    requires GlobalFit(l, ip, x.global.rate, x.global.burst, now) && Good(x)
    requires CanRun(l, steps) && StepsInOrder(now, steps) && AllKeep(steps, key, x.own.rate, x.own.burst)
    ensures now <= EndTime(now, steps)
    ensures Whole(Passed(l, steps, key, ip))
         <= Whole(Handed(x, Reloads(steps))) + EarnedByBoth(x, EndTime(now, steps) - now)
  {
    AdmissionsFrom(l, steps, key, ip, x.own.rate, x.own.burst, x.ownFast, now);
    GlobalFrom(l, steps, ip, x, now);
    EarnedIsProduct(x.ownFast, EndTime(now, steps) - now);
    PassedSplits(l, steps, key, ip);
    hide Fit, GlobalFit, Good, AllKeep;
    HandedInTwo(x, Reloads(steps));
  }

  /** From start-up, with a global limiter: `(R + 1) * burst + fast * T` of the route's own, and the burst
      and the earnings of the global one. Each `fast` is the rate if idle buckets refill before they are
      stale. */
  lemma PassedAcrossReloads(config: ProxyConfig, steps: seq<Step>, key: string, ip: IpAddr, x: Limits)
    requires Keeping(config, steps, key, x.own.rate, x.own.burst) && Keeps(config, key, x.own.rate, x.own.burst)
    requires config.ratelimit == Some(x.global) && Good(x)
    ensures Whole(Passed(Start(config), steps, key, ip))
         <= Whole(Handed(x, Reloads(steps))) + EarnedByBoth(x, EndTime(0, steps))
  {
    StartFits(config, key, ip, x.own.rate, x.own.burst);
    PassedFrom(Start(config), steps, key, ip, x, 0);
  }

  /** The same for any window of a run that begins with no reload in flight. */
  lemma PassedInWindow(config: ProxyConfig, before: seq<Step>, steps: seq<Step>, key: string, ip: IpAddr, x: Limits)
    requires Keeping(config, before, key, x.own.rate, x.own.burst) && Keeps(config, key, x.own.rate, x.own.burst)
    requires CanRun(Run(Start(config), before), steps) && StepsInOrder(EndTime(0, before), steps)
    requires Run(Start(config), before).reload.NoReload? && AllKeep(steps, key, x.own.rate, x.own.burst)
    requires config.ratelimit == Some(x.global) && Good(x)
    ensures var l, from := Run(Start(config), before), EndTime(0, before);
      && from <= EndTime(from, steps)
      && Whole(Passed(l, steps, key, ip))
         <= Whole(Handed(x, Reloads(steps))) + EarnedByBoth(x, EndTime(from, steps) - from)
  {
    StartFits(config, key, ip, x.own.rate, x.own.burst);
    FitThroughout(Start(config), before, key, ip, x.own.rate, x.own.burst, x.ownFast, 0);
    GlobalOverRun(Start(config), before, ip, x.global.rate, x.global.burst, x.globalFast, 0);
    PassedFrom(Run(Start(config), before), steps, key, ip, x, EndTime(0, before));
  }

  // ----- no bound

  lemma {:induction false} VolleyPasses(l: World, key: string, ip: IpAddr, now: nat, n: nat)
    requires key !in l.p.limiters && l.p.global.None?
    ensures CanRun(l, Volley(key, ip, now, n)) && Passed(l, Volley(key, ip, now, n), key, ip) == n
  {
    if n == 0 {
    } else {
      assert Apply(l, Check(key, ip, now)) == l;
      assert Volley(key, ip, now, n)[1..] == Volley(key, ip, now, n - 1);
      VolleyPasses(l, key, ip, now, n - 1);
    }
  }

  lemma {:induction false} PassedJoined(l: World, a: seq<Step>, b: seq<Step>, key: string, ip: IpAddr)
    requires CanRun(l, a) && CanRun(Run(l, a), b)
    ensures CanRun(l, a + b) && Run(l, a + b) == Run(Run(l, a), b)
    ensures Passed(l, a + b, key, ip) == Passed(l, a, key, ip) + Passed(Run(l, a), b, key, ip)
    decreases |a|
  {
    if a == [] {
      assert a + b == b;
    } else {
      assert (a + b)[1..] == a[1..] + b;
      PassedJoined(Apply(l, a[0]), a[1..], b, key, ip);
    }
  }

  /** From an accepted attempt to where the limiter of `key` has been removed. */
  lemma RemoveLimiter(l: World, key: string) returns (steps: seq<Step>)
    requires l.reload.Validated?
    ensures CanRun(l, steps) && OnlyReload(steps)
    ensures var l' := Run(l, steps);
      && key !in l'.p.limiters && l'.p.global == l.p.global
      && l'.p.router == Route.PlainEntries(l.reload.config) && l'.reload == RouterPublished(l.reload.config)
  {
    var publish, remove := ReloadStep(""), ReloadStep(key);
    if key in l.p.limiters {
      RunTwo(l, publish, remove);
      steps := [publish, remove];
    } else {
      RunOne(l, publish);
      steps := [publish];
    }
  }

  lemma {:induction false} PassedWithoutChecks(l: World, steps: seq<Step>, key: string, ip: IpAddr)
    requires CanRun(l, steps) && forall step :: step in steps ==> !step.Check?
    ensures Passed(l, steps, key, ip) == 0
    decreases |steps|
  {
    if steps == [] {
    } else {
      assert steps[0] in steps;
      PassedWithoutChecks(Apply(l, steps[0]), steps[1..], key, ip);
    }
  }

  lemma LimiterRemoved(l: World, c: ProxyConfig, pagesExist: bool, key: string, ip: IpAddr, now: nat)
    returns (steps: seq<Step>)
    requires l.reload.NoReload? && Acceptable(c, pagesExist)
    ensures CanRun(l, steps) && Instant(now, steps) && Reloads(steps) == 1 && Passed(l, steps, key, ip) == 0
    ensures var l' := Run(l, steps);
      && key !in l'.p.limiters && l'.p.global == l.p.global
      && l'.p.router == Route.PlainEntries(c) && l'.reload == RouterPublished(c)
    ensures OnlyLoads(steps, c) && forall step :: step in steps ==> TimeOf(step, now) == now
    ensures forall step :: step in steps ==> !step.Check? && !step.Record?
  {
    AcceptedIff(c, pagesExist);
    var attempt := Attempt(Some(c), pagesExist);
    var removal := RemoveLimiter(Apply(l, attempt), key);
    ReloadStepsInstant(Apply(l, attempt), removal, key, ip, now);
    PassedWithoutChecks(Apply(l, attempt), removal, key, ip);
    steps := [attempt] + removal;
    assert steps[1..] == removal;
  }

  /** From any idle state without a global limiter, one accepted reload lets one address through as often as
      it likes, in no time at all, on any route that the new configuration has for it. */
  lemma OpenWindow(l: World, c: ProxyConfig, pagesExist: bool, key: string, ip: IpAddr, now: nat, n: nat,
                   host: string, path: string)
    returns (steps: seq<Step>)
    requires l.reload.NoReload? && l.p.global.None? && Acceptable(c, pagesExist) && Serves(c, host, path, key)
    ensures CanRun(l, steps) && Instant(now, steps) && Reloads(steps) == 1 && Passed(l, steps, key, ip) == n
    ensures OnlyLoads(steps, c) && Genuine(l, steps, host, path, key)
  {
    var removed := LimiterRemoved(l, c, pagesExist, key, ip, now);
    var volley := Volley(key, ip, now, n);
    VolleyInstant(key, ip, now, n);
    VolleyPasses(Run(l, removed), key, ip, now, n);
    PassedJoined(l, removed, volley, key, ip);
    InstantJoined(now, removed, volley);
    GenuineWithoutChecks(l, removed, host, path, key);
    VolleyGenuine(Run(l, removed), key, ip, now, n, host, path);
    GenuineJoined(l, removed, volley, host, path, key);
    steps := removed + volley;
  }

  lemma {:induction false} OpenWindowAfter(l: World, c: ProxyConfig, pagesExist: bool, key: string, ip: IpAddr,
                                           now: nat, r: nat, n: nat, host: string, path: string)
    returns (steps: seq<Step>)
    requires l.reload.NoReload? && l.p.global.None? && Acceptable(c, pagesExist) && r > 0
    requires Serves(c, host, path, key)
    ensures CanRun(l, steps) && Instant(now, steps) && Reloads(steps) == r && Passed(l, steps, key, ip) >= n
    ensures OnlyLoads(steps, c) && Genuine(l, steps, host, path, key)
    decreases r
  {
    if r == 1 {
      steps := OpenWindow(l, c, pagesExist, key, ip, now, n, host, path);
    } else {
      var reload := WholeReload(l, c, pagesExist, key, ip, now);
      var rest := OpenWindowAfter(Run(l, reload), c, pagesExist, key, ip, now, r - 1, n, host, path);
      PassedJoined(l, reload, rest, key, ip);
      InstantJoined(now, reload, rest);
      GenuineWithoutChecks(l, reload, host, path, key);
      GenuineJoined(l, reload, rest, host, path, key);
      steps := reload + rest;
    }
  }

  // ----- when there is a bound

  /** `bound` covers what one address gets through on a route in every run of requests with `r` accepted
      reloads that takes `span` at most. */
  ghost predicate Bounds(config: ProxyConfig, key: string, ip: IpAddr, own: RateLimitConfig, r: nat, span: nat,
                         bound: nat)
  {
    forall moves :: KeepingTraffic(config, moves, key, own.rate, own.burst) && Reloads(Asked(config, moves)) == r
                    && EndTime(0, Asked(config, moves)) <= span
      ==> Passed(Start(config), Asked(config, moves), key, ip) <= bound
  }

  lemma InWholeTokens(passed: nat, bursts: nat, earned: nat, more: nat)
    requires Whole(passed) <= Whole(bursts) + earned && earned <= more
    ensures passed <= bursts + more
  {
  }

  lemma WithinBoth(config: ProxyConfig, steps: seq<Step>, key: string, ip: IpAddr, x: Limits, span: nat)
    requires Keeping(config, steps, key, x.own.rate, x.own.burst) && Keeps(config, key, x.own.rate, x.own.burst)
    requires config.ratelimit == Some(x.global) && Good(x) && EndTime(0, steps) <= span
    ensures Passed(Start(config), steps, key, ip) <= Handed(x, Reloads(steps)) + EarnedByBoth(x, span)
  {
    var end := EndTime(0, steps);
    PassedAcrossReloads(config, steps, key, ip, x);
    EarnedGrows(x.ownFast, end, span);
    EarnedGrows(x.globalFast, end, span);
    hide Handed, Whole, Keeping, Keeps, Good;
    InWholeTokens(Passed(Start(config), steps, key, ip), Handed(x, Reloads(steps)), EarnedByBoth(x, end),
                  EarnedByBoth(x, span));
  }

  lemma WithinOwn(config: ProxyConfig, steps: seq<Step>, key: string, ip: IpAddr, own: RateLimitConfig, fast: nat,
                  span: nat)
    requires Keeping(config, steps, key, own.rate, own.burst) && Keeps(config, key, own.rate, own.burst)
    requires Files(config, key, own.rate, own.burst) && Reloads(steps) == 0 && EndTime(0, steps) <= span
    requires FastEnough(own.rate, own.burst, fast)
    ensures Passed(Start(config), steps, key, ip) <= own.burst + Earned(fast, span)
  {
    var passed, end := Passed(Start(config), steps, key, ip), EndTime(0, steps);
    PassedWithoutReloads(Start(config), steps, key, ip);
    AdmissionsAcrossReloads(config, steps, key, ip, own.rate, own.burst, fast);
    EarnedIsProduct(fast, end);
    EarnedGrows(fast, end, span);
    hide Whole, Keeps, Keeping, Files, FastEnough;
    assert (Reloads(steps) + 1) * own.burst == own.burst;
    InWholeTokens(passed, own.burst, Earned(fast, end), Earned(fast, span));
  }

  lemma BoundedWithGlobal(config: ProxyConfig, key: string, ip: IpAddr, own: RateLimitConfig, r: nat, span: nat)
    requires Keeps(config, key, own.rate, own.burst) && config.ratelimit.Some?
    ensures exists bound: nat :: Bounds(config, key, ip, own, r, span, bound)
  {
    var global := config.ratelimit.value;
    var x := Limits(own, own.rate + Whole(own.burst), global, global.rate + Whole(global.burst));
    AlwaysFastEnough(own.rate, own.burst);
    AlwaysFastEnough(global.rate, global.burst);
    var bound: nat := Handed(x, r) + EarnedByBoth(x, span);
    assert Good(x);
    hide Handed, EarnedByBoth, Good, Keeps, Keeping, Whole, FastEnough;
    forall moves | KeepingTraffic(config, moves, key, own.rate, own.burst) && Reloads(Asked(config, moves)) == r
                   && EndTime(0, Asked(config, moves)) <= span
      ensures CanRun(Start(config), Asked(config, moves))
      ensures Passed(Start(config), Asked(config, moves), key, ip) <= bound
    {
      AskedRuns(config, moves);
      WithinBoth(config, Asked(config, moves), key, ip, x, span);
    }
    assert Bounds(config, key, ip, own, r, span, bound);
  }

  lemma BoundedWithoutReloads(config: ProxyConfig, key: string, ip: IpAddr, own: RateLimitConfig, span: nat)
    requires Keeps(config, key, own.rate, own.burst) && Files(config, key, own.rate, own.burst)
    ensures exists bound: nat :: Bounds(config, key, ip, own, 0, span, bound)
  {
    var fast: nat := own.rate + Whole(own.burst);
    AlwaysFastEnough(own.rate, own.burst);
    var bound: nat := own.burst + Earned(fast, span);
    hide Keeps, Keeping, Files, Whole, FastEnough;
    forall moves | KeepingTraffic(config, moves, key, own.rate, own.burst) && Reloads(Asked(config, moves)) == 0
                   && EndTime(0, Asked(config, moves)) <= span
      ensures CanRun(Start(config), Asked(config, moves))
      ensures Passed(Start(config), Asked(config, moves), key, ip) <= bound
    {
      AskedRuns(config, moves);
      WithinOwn(config, Asked(config, moves), key, ip, own, fast, span);
    }
    assert Bounds(config, key, ip, own, 0, span, bound);
  }

  lemma NotBounded(config: ProxyConfig, pagesExist: bool, key: string, ip: IpAddr, own: RateLimitConfig, r: nat,
                   span: nat, bound: nat, host: string, path: string)
    requires Acceptable(config, pagesExist) && Keeps(config, key, own.rate, own.burst)
    requires Serves(config, host, path, key) && r > 0 && config.ratelimit.None?
    ensures !Bounds(config, key, ip, own, r, span, bound)
  {
    var steps := OpenWindowAfter(Start(config), config, pagesExist, key, ip, 0, r, bound + 1, host, path);
    var moves := MadeByRequests(config, steps, key, own.rate, own.burst, host, path);
  }

  /** What one address gets through on a limited route that requests reach, in runs of requests with `r`
      accepted reloads and of a given length, is bounded exactly when there are no reloads or a global
      limiter is configured. */
  lemma PassedBoundedIff(config: ProxyConfig, pagesExist: bool, key: string, ip: IpAddr, own: RateLimitConfig,
                         r: nat, span: nat, host: string, path: string)
    requires Acceptable(config, pagesExist) && Serves(config, host, path, key)
    requires Keeps(config, key, own.rate, own.burst) && Files(config, key, own.rate, own.burst)
    ensures (exists bound: nat :: Bounds(config, key, ip, own, r, span, bound))
       <==> r == 0 || config.ratelimit.Some?
  {
    hide Bounds, Keeps, Files, Acceptable, Serves;
    if config.ratelimit.Some? {
      BoundedWithGlobal(config, key, ip, own, r, span);
    } else if r == 0 {
      BoundedWithoutReloads(config, key, ip, own, span);
    } else {
      forall bound: nat ensures !Bounds(config, key, ip, own, r, span, bound) {
        NotBounded(config, pagesExist, key, ip, own, r, span, bound, host, path);
      }
    }
  }

  // ----- the bound is reached

  lemma {:induction false} OwnVolley(l: World, key: string, ip: IpAddr, now: nat, n: nat)
    requires key in l.p.limiters && Refilled(l.p.limiters[key].BucketFor(ip, now), now) >= Whole(n)
    ensures CanRun(l, Volley(key, ip, now, n)) && Passed(l, Volley(key, ip, now, n), key, ip) == n
    ensures var l' := Run(l, Volley(key, ip, now, n)); l'.reload == l.reload && l'.p.global == l.p.global
    decreases n
  {
    if n == 0 {
    } else {
      Eviction.VolleyStep(l.p.limiters[key], ip, now);
      OwnVolley(Apply(l, Check(key, ip, now)), key, ip, now, n - 1);
      assert Volley(key, ip, now, n)[1..] == Volley(key, ip, now, n - 1);
    }
  }

  lemma {:induction false} GlobalVolley(l: World, key: string, ip: IpAddr, now: nat, n: nat)
    requires key !in l.p.limiters && l.p.global.Some?
    requires Refilled(l.p.global.value.BucketFor(ip, now), now) >= Whole(n)
    ensures CanRun(l, Volley(key, ip, now, n)) && Passed(l, Volley(key, ip, now, n), key, ip) == n
    ensures Run(l, Volley(key, ip, now, n)).reload == l.reload
    decreases n
  {
    if n == 0 {
    } else {
      Eviction.VolleyStep(l.p.global.value, ip, now);
      GlobalVolley(Apply(l, Check(key, ip, now)), key, ip, now, n - 1);
      assert Volley(key, ip, now, n)[1..] == Volley(key, ip, now, n - 1);
    }
  }

  lemma OwnBurst(l: World, c: ProxyConfig, key: string, ip: IpAddr, now: nat, own: RateLimitConfig,
                 host: string, path: string)
    returns (steps: seq<Step>)
    requires key in l.p.limiters && Refilled(l.p.limiters[key].BucketFor(ip, now), now) >= Whole(own.burst)
    requires Asks(l.p.router, host, path, key)
    ensures Burst(l, steps, c, now, host, path, key) && Reloads(steps) == 0 && Passed(l, steps, key, ip) == own.burst
    ensures var l' := Run(l, steps); l'.reload == l.reload && l'.p.global == l.p.global
  {
    steps := Volley(key, ip, now, own.burst);
    OwnVolley(l, key, ip, now, own.burst);
    VolleyBurst(l, c, key, ip, now, own.burst, host, path);
  }

  /** A reload during which, while the limiter is away, the global one hands out its burst. */
  lemma ReloadWithGlobalBurst(l: World, c: ProxyConfig, pagesExist: bool, key: string, ip: IpAddr, now: nat, n: nat,
                              host: string, path: string)
    returns (steps: seq<Step>)
    requires l.reload.NoReload? && Acceptable(c, pagesExist) && Serves(c, host, path, key)
    requires l.p.global.Some? && Refilled(l.p.global.value.BucketFor(ip, now), now) >= Whole(n)
    ensures Burst(l, steps, c, now, host, path, key) && Reloads(steps) == 1 && Passed(l, steps, key, ip) == n
    ensures var l' := Run(l, steps);
      l'.reload.NoReload? && l'.p.limiters == FullTable(c) && l'.p.router == Route.PlainEntries(c)
  {
    var removed := LimiterRemoved(l, c, pagesExist, key, ip, now);
    GenuineWithoutChecks(l, removed, host, path, key);
    var l1 := Run(l, removed);
    var volley := Volley(key, ip, now, n);
    GlobalVolley(l1, key, ip, now, n);
    VolleyBurst(l1, c, key, ip, now, n, host, path);
    var l2 := Run(l1, volley);
    var rest := PublishedAlone(l2, c);
    ReloadStepsInstant(l2, rest, key, ip, now);
    PassedWithoutChecks(l2, rest, key, ip);
    GenuineWithoutChecks(l2, rest, host, path, key);
    hide CanRun, Run, Genuine, Passed, Reloads;
    BurstJoined(l1, volley, rest, c, now, host, path, key);
    PassedJoined(l1, volley, rest, key, ip);
    BurstJoined(l, removed, volley + rest, c, now, host, path, key);
    PassedJoined(l, removed, volley + rest, key, ip);
    steps := removed + (volley + rest);
  }

  lemma QuietReload(l: World, c: ProxyConfig, pagesExist: bool, key: string, ip: IpAddr, now: nat,
                    host: string, path: string)
    returns (steps: seq<Step>)
    requires l.reload.NoReload? && Acceptable(c, pagesExist)
    ensures Burst(l, steps, c, now, host, path, key) && Reloads(steps) == 1 && Passed(l, steps, key, ip) == 0
    ensures Run(l, steps) == l.(p := Proxy.Reload(l.p, c))
  {
    steps := WholeReload(l, c, pagesExist, key, ip, now);
    GenuineWithoutChecks(l, steps, host, path, key);
    PassedWithoutChecks(l, steps, key, ip);
  }

  /** From full buckets with no reload in flight, `r` reloads let one address through `r + 1` times the burst
      of the route and once that of the global limiter, in no time. */
  lemma {:induction false} BothBursts(l: World, c: ProxyConfig, pagesExist: bool, key: string, ip: IpAddr,
                                      own: RateLimitConfig, n: nat, now: nat, r: nat, host: string, path: string)
    returns (steps: seq<Step>)
    requires l.reload.NoReload? && Acceptable(c, pagesExist) && Files(c, key, own.rate, own.burst) && r > 0
    requires key in l.p.limiters && Refilled(l.p.limiters[key].BucketFor(ip, now), now) >= Whole(own.burst)
    requires l.p.global.Some? && Refilled(l.p.global.value.BucketFor(ip, now), now) >= Whole(n)
    requires Asks(l.p.router, host, path, key) && Serves(c, host, path, key)
    ensures Burst(l, steps, c, now, host, path, key) && Reloads(steps) == r
    ensures Passed(l, steps, key, ip) == (r + 1) * own.burst + n
    decreases r
  {
    var volley := OwnBurst(l, c, key, ip, now, own, host, path);
    var l1 := Run(l, volley);
    FreshBucketFull(NewLimiter(own.rate, own.burst), ip, now);
    var rest: seq<Step>;
    if r == 1 {
      var reload := ReloadWithGlobalBurst(l1, c, pagesExist, key, ip, now, n, host, path);
      var last := OwnBurst(Run(l1, reload), c, key, ip, now, own, host, path);
      BurstJoined(l1, reload, last, c, now, host, path, key);
      PassedJoined(l1, reload, last, key, ip);
      rest := reload + last;
    } else {
      var reload := QuietReload(l1, c, pagesExist, key, ip, now, host, path);
      var more := BothBursts(Run(l1, reload), c, pagesExist, key, ip, own, n, now, r - 1, host, path);
      BurstJoined(l1, reload, more, c, now, host, path, key);
      PassedJoined(l1, reload, more, key, ip);
      rest := reload + more;
    }
    BurstJoined(l, volley, rest, c, now, host, path, key);
    PassedJoined(l, volley, rest, key, ip);
    steps := volley + rest;
    OneMoreBurst(r, own.burst);
  }

  /** With a global limiter and a reload at least, requests reach the bound on what passes, in no time. */
  lemma PassedBoundAttained(config: ProxyConfig, pagesExist: bool, key: string, ip: IpAddr, own: RateLimitConfig,
                            r: nat, host: string, path: string)
    returns (moves: seq<Move>)
    requires Acceptable(config, pagesExist) && Serves(config, host, path, key) && r > 0
    requires Keeps(config, key, own.rate, own.burst) && Files(config, key, own.rate, own.burst)
    requires config.ratelimit.Some?
    ensures KeepingTraffic(config, moves, key, own.rate, own.burst)
    ensures Reloads(Asked(config, moves)) == r && EndTime(0, Asked(config, moves)) == 0
    ensures Passed(Start(config), Asked(config, moves), key, ip) == (r + 1) * own.burst + config.ratelimit.value.burst
  {
    var global := config.ratelimit.value;
    FreshBucketFull(NewLimiter(own.rate, own.burst), ip, 0);
    FreshBucketFull(NewLimiter(global.rate, global.burst), ip, 0);
    var steps := BothBursts(Start(config), config, pagesExist, key, ip, own, global.burst, 0, r, host, path);
    moves := MadeByRequests(config, steps, key, own.rate, own.burst, host, path);
  }
}
