/** The bound on admissions across reloads is attained: each accepted reload can add a whole burst. */
module Attainment {
  import opened Primitives
  import opened Config
  import opened RateLimit
  import opened Live
  import opened Admissions
  import opened Requests
  import Eviction
  import Proxy
  import Route

  /** The run takes no time. */
  ghost predicate Instant(now: nat, steps: seq<Step>) {
    StepsInOrder(now, steps) && EndTime(now, steps) == now
  }

  lemma {:induction false} InstantJoined(now: nat, a: seq<Step>, b: seq<Step>)
    requires Instant(now, b) && StepsInOrder(now, a) && EndTime(now, a) == now
    requires forall step :: step in a ==> TimeOf(step, now) == now
    ensures Instant(now, a + b) && Reloads(a + b) == Reloads(a) + Reloads(b)
    decreases |a|
  {
    if a == [] {
      assert a + b == b;
    } else {
      assert a[0] in a && (a + b)[1..] == a[1..] + b;
      InstantJoined(now, a[1..], b);
    }
  }

  lemma {:induction false} AdmittedJoined(l: World, a: seq<Step>, b: seq<Step>, key: string, ip: IpAddr)
    requires CanRun(l, a) && CanRun(Run(l, a), b)
    ensures CanRun(l, a + b) && Run(l, a + b) == Run(Run(l, a), b)
    ensures Admitted(l, a + b, key, ip) == Admitted(l, a, key, ip) + Admitted(Run(l, a), b, key, ip)
    decreases |a|
  {
    if a == [] {
      assert a + b == b;
    } else {
      assert (a + b)[1..] == a[1..] + b;
      AdmittedJoined(Apply(l, a[0]), a[1..], b, key, ip);
    }
  }

  /** `n` requests of one address, all at once. */
  function Volley(key: string, ip: IpAddr, now: nat, n: nat): seq<Step> {
    if n == 0 then [] else [Check(key, ip, now)] + Volley(key, ip, now, n - 1)
  }

  lemma {:induction false} VolleyInstant(key: string, ip: IpAddr, now: nat, n: nat)
    ensures Instant(now, Volley(key, ip, now, n)) && Reloads(Volley(key, ip, now, n)) == 0
    ensures forall step :: step in Volley(key, ip, now, n) ==> step == Check(key, ip, now)
  {
    if n == 0 {
    } else {
      VolleyInstant(key, ip, now, n - 1);
      assert Volley(key, ip, now, n)[1..] == Volley(key, ip, now, n - 1);
    }
  }

  lemma {:induction false} VolleyAdmitted(l: World, key: string, ip: IpAddr, now: nat, n: nat)
    requires key in l.p.limiters && Refilled(l.p.limiters[key].BucketFor(ip, now), now) >= Whole(n)
    ensures CanRun(l, Volley(key, ip, now, n)) && Admitted(l, Volley(key, ip, now, n), key, ip) == n
    ensures Run(l, Volley(key, ip, now, n)).reload == l.reload
    decreases n
  {
    if n == 0 {
    } else {
      Eviction.VolleyStep(l.p.limiters[key], ip, now);
      VolleyAdmitted(Apply(l, Check(key, ip, now)), key, ip, now, n - 1);
      assert Volley(key, ip, now, n)[1..] == Volley(key, ip, now, n - 1);
    }
  }

  /** Checks do not touch the router, so a volley that one request could make, many can. */
  lemma {:induction false} VolleyGenuine(l: World, key: string, ip: IpAddr, now: nat, n: nat,
                                         host: string, path: string)
    requires CanRun(l, Volley(key, ip, now, n)) && Asks(l.p.router, host, path, key)
    ensures Genuine(l, Volley(key, ip, now, n), host, path, key)
    ensures Run(l, Volley(key, ip, now, n)).p.router == l.p.router
    decreases n
  {
    if n == 0 {
    } else {
      assert Volley(key, ip, now, n)[1..] == Volley(key, ip, now, n - 1);
      VolleyGenuine(Apply(l, Check(key, ip, now)), key, ip, now, n - 1, host, path);
    }
  }

  /** The router of `c` sends this host and path to a route with this key. */
  predicate Serves(c: ProxyConfig, host: string, path: string, key: string) {
    Asks(Route.PlainEntries(c), host, path, key)
  }

  lemma {:induction false} ReloadStepsInstant(l: World, steps: seq<Step>, key: string, ip: IpAddr, now: nat)
    requires OnlyReload(steps) && CanRun(l, steps)
    ensures Instant(now, steps) && Reloads(steps) == 0 && Admitted(l, steps, key, ip) == 0
    decreases |steps|
  {
    if steps == [] {
    } else {
      assert steps[0] in steps;
      ReloadStepsInstant(Apply(l, steps[0]), steps[1..], key, ip, now);
    }
  }

  /** The limiter that `c` files under `key` is new and has these settings. */
  ghost predicate Files(c: ProxyConfig, key: string, rate: u32, burst: u32) {
    key in FullTable(c) && FullTable(c)[key] == NewLimiter(rate, burst)
  }

  ghost predicate OnlyLoads(steps: seq<Step>, c: ProxyConfig) {
    forall step :: step in steps && Accepted(step) ==> step.parsed == Some(c)
  }

  /** One accepted reload of `c`, from its attempt to its end. */
  lemma WholeReload(l: World, c: ProxyConfig, pagesExist: bool, key: string, ip: IpAddr, now: nat)
    returns (steps: seq<Step>)
    requires l.reload.NoReload? && Acceptable(c, pagesExist)
    ensures CanRun(l, steps) && Instant(now, steps) && Reloads(steps) == 1 && Admitted(l, steps, key, ip) == 0
    ensures Run(l, steps) == l.(p := Proxy.Reload(l.p, c))
    ensures OnlyLoads(steps, c) && forall step :: step in steps ==> TimeOf(step, now) == now
    ensures forall step :: step in steps ==> !step.Check? && !step.Record?
  {
    AcceptedIff(c, pagesExist);
    var attempt := Attempt(Some(c), pagesExist);
    var pass := PassAlone(Apply(l, attempt), c);
    ReloadStepsInstant(Apply(l, attempt), pass, key, ip, now);
    steps := [attempt] + pass;
    assert steps[1..] == pass;
  }

  lemma FreshBucketFull(l: Limiter, ip: IpAddr, now: nat)
    requires l == NewLimiter(l.rate, l.burst)
    ensures Refilled(l.BucketFor(ip, now), now) == Whole(l.burst)
  {
  }

  /** Part of a run that takes no time, makes genuine checks and loads no other configuration. */
  ghost predicate Burst(l: World, steps: seq<Step>, c: ProxyConfig, now: nat, host: string, path: string, key: string) {
    && CanRun(l, steps) && Genuine(l, steps, host, path, key) && OnlyLoads(steps, c)
    && Instant(now, steps) && forall step :: step in steps ==> TimeOf(step, now) == now
  }

  lemma BurstJoined(l: World, a: seq<Step>, b: seq<Step>, c: ProxyConfig, now: nat, host: string, path: string,
                    key: string)
    requires Burst(l, a, c, now, host, path, key) && Burst(Run(l, a), b, c, now, host, path, key)
    ensures Burst(l, a + b, c, now, host, path, key) && Run(l, a + b) == Run(Run(l, a), b)
    ensures Reloads(a + b) == Reloads(a) + Reloads(b)
  {
    hide Genuine, CanRun, Run, Reloads;
    RunJoined(l, a, b);
    GenuineJoined(l, a, b, host, path, key);
    InstantJoined(now, a, b);
  }

  lemma VolleyBurst(l: World, c: ProxyConfig, key: string, ip: IpAddr, now: nat, n: nat, host: string, path: string)
    requires CanRun(l, Volley(key, ip, now, n)) && Asks(l.p.router, host, path, key)
    ensures Burst(l, Volley(key, ip, now, n), c, now, host, path, key) && Reloads(Volley(key, ip, now, n)) == 0
    ensures Run(l, Volley(key, ip, now, n)).p.router == l.p.router
  {
    VolleyInstant(key, ip, now, n);
    VolleyGenuine(l, key, ip, now, n, host, path);
  }

  lemma OneMoreBurst(r: nat, burst: nat)
    requires r > 0
    ensures (r + 1) * burst == burst + r * burst && (r == 1 ==> r * burst == burst)
  {
  }

  /** From a full bucket with no reload in flight, `r` reloads let one address through `r + 1` times the
      burst in no time at all. */
  lemma {:induction false} BurstEachReload(l: World, c: ProxyConfig, pagesExist: bool, key: string, ip: IpAddr,
                                           rate: u32, burst: u32, now: nat, r: nat, host: string, path: string)
    returns (steps: seq<Step>)
    requires l.reload.NoReload? && Acceptable(c, pagesExist) && Files(c, key, rate, burst)
    requires key in l.p.limiters && Refilled(l.p.limiters[key].BucketFor(ip, now), now) >= Whole(burst)
    requires Asks(l.p.router, host, path, key) && Serves(c, host, path, key)
    ensures Burst(l, steps, c, now, host, path, key) && Reloads(steps) == r
    ensures Admitted(l, steps, key, ip) == (r + 1) * burst
    decreases r
  {
    hide Genuine, Asks, Acceptable, CanRun, Run, Instant, Reloads, Admitted, Refilled, OnlyLoads;
    var volley := Volley(key, ip, now, burst);
    VolleyAdmitted(l, key, ip, now, burst);
    VolleyBurst(l, c, key, ip, now, burst, host, path);
    if r == 0 {
      steps := volley;
    } else {
      var l' := Run(l, volley);
      var reload := WholeReload(l', c, pagesExist, key, ip, now);
      GenuineWithoutChecks(l', reload, host, path, key);
      FreshBucketFull(NewLimiter(rate, burst), ip, now);
      var rest := BurstEachReload(Run(l', reload), c, pagesExist, key, ip, rate, burst, now, r - 1, host, path);
      BurstJoined(l', reload, rest, c, now, host, path, key);
      AdmittedJoined(l', reload, rest, key, ip);
      BurstJoined(l, volley, reload + rest, c, now, host, path, key);
      AdmittedJoined(l, volley, reload + rest, key, ip);
      steps := volley + (reload + rest);
      OneMoreBurst(r, burst);
    }
  }

  /** The runs that the bound across reloads is about. */
  ghost predicate Keeping(config: ProxyConfig, steps: seq<Step>, key: string, rate: u32, burst: u32) {
    CanRun(Start(config), steps) && StepsInOrder(0, steps) && AllKeep(steps, key, rate, burst)
  }

  ghost predicate WithinBursts(config: ProxyConfig, steps: seq<Step>, key: string, ip: IpAddr, rate: u32, burst: u32,
                               bursts: nat)
    requires CanRun(Start(config), steps)
  {
    Whole(Admitted(Start(config), steps, key, ip)) <= Whole(bursts * burst) + rate * EndTime(0, steps)
  }

  /** What a run of requests from start-up does to the world. */
  function Asked(config: ProxyConfig, moves: seq<Move>): seq<Step>
    requires CanGo(Begin(config), moves)
  {
    Shadow(Begin(config), moves)
  }

  ghost predicate KeepingTraffic(config: ProxyConfig, moves: seq<Move>, key: string, rate: u32, burst: u32) {
    CanGo(Begin(config), moves) && Keeping(config, Asked(config, moves), key, rate, burst)
  }

  lemma AskedRuns(config: ProxyConfig, moves: seq<Move>)
    requires CanGo(Begin(config), moves)
    ensures CanRun(Start(config), Asked(config, moves))
  {
    ShadowRuns(Begin(config), moves);
  }

  /** Steps with genuine checks are what requests from start-up do. */
  lemma MadeByRequests(config: ProxyConfig, steps: seq<Step>, key: string, rate: u32, burst: u32,
                       host: string, path: string)
    returns (moves: seq<Move>)
    requires Keeping(config, steps, key, rate, burst) && Genuine(Start(config), steps, host, path, key)
    ensures KeepingTraffic(config, moves, key, rate, burst) && Asked(config, moves) == steps
  {
    moves := Lifted(Begin(config), steps, host, path, key, 0);
  }

  /** The bound across reloads is attained for every number of reloads, by requests for the route. */
  lemma BoundAttained(config: ProxyConfig, pagesExist: bool, key: string, ip: IpAddr, rate: u32, burst: u32, r: nat,
                      host: string, path: string)
    returns (moves: seq<Move>)
    requires Acceptable(config, pagesExist) && Keeps(config, key, rate, burst) && Files(config, key, rate, burst)
    requires Serves(config, host, path, key)
    ensures KeepingTraffic(config, moves, key, rate, burst)
    ensures Reloads(Asked(config, moves)) == r && EndTime(0, Asked(config, moves)) == 0
    ensures Admitted(Start(config), Asked(config, moves), key, ip) == (r + 1) * burst
  {
    FreshBucketFull(NewLimiter(rate, burst), ip, 0);
    var steps := BurstEachReload(Start(config), config, pagesExist, key, ip, rate, burst, 0, r, host, path);
    moves := MadeByRequests(config, steps, key, rate, burst, host, path);
  }

  // ----- when eviction exceeds the bound

  lemma {:induction false} VolleyOnLimiter(l: World, key: string, ip: IpAddr, now: nat, n: nat)
    requires key in l.p.limiters && CanRun(l, Volley(key, ip, now, n))
    ensures var l' := Run(l, Volley(key, ip, now, n));
      key in l'.p.limiters && l'.p.limiters[key] == Eviction.AfterVolley(l.p.limiters[key], ip, now, n)
    decreases n
  {
    if n == 0 {
    } else {
      assert Volley(key, ip, now, n)[1..] == Volley(key, ip, now, n - 1);
      VolleyOnLimiter(Apply(l, Check(key, ip, now)), key, ip, now, n - 1);
    }
  }

  lemma {:induction false} InOrderJoined(now: nat, a: seq<Step>, b: seq<Step>)
    requires StepsInOrder(now, a) && StepsInOrder(EndTime(now, a), b)
    ensures StepsInOrder(now, a + b) && EndTime(now, a + b) == EndTime(EndTime(now, a), b)
    ensures Reloads(a + b) == Reloads(a) + Reloads(b)
    decreases |a|
  {
    if a == [] {
      assert a + b == b;
    } else {
      assert (a + b)[1..] == a[1..] + b;
      InOrderJoined(TimeOf(a[0], now), a[1..], b);
    }
  }

  /** The bucket is emptied, evicted as soon as it may be, and emptied again. */
  function EmptiedTwice(key: string, ip: IpAddr, burst: nat): seq<Step> {
    var later := Eviction.MAX_IDLE + 1;
    Volley(key, ip, 0, burst) + ([CleanRoute(key, {ip}, later)] + Volley(key, ip, later, burst))
  }

  lemma SecondVolley(l: World, key: string, ip: IpAddr, rate: u32, burst: u32)
    requires burst > 0 && key in l.p.limiters
    requires l.p.limiters[key] == Eviction.AfterVolley(NewLimiter(rate, burst), ip, 0, burst)
    ensures var later := Eviction.MAX_IDLE + 1;
      var rest := [CleanRoute(key, {ip}, later)] + Volley(key, ip, later, burst);
      CanRun(l, rest) && Admitted(l, rest, key, ip) == burst
  {
    var later := Eviction.MAX_IDLE + 1;
    var rest := [CleanRoute(key, {ip}, later)] + Volley(key, ip, later, burst);
    FreshBucketFull(NewLimiter(rate, burst), ip, 0);
    Eviction.VolleyDrains(NewLimiter(rate, burst), ip, 0, burst);
    var l' := Apply(l, rest[0]);
    assert ip !in l'.p.limiters[key].buckets;
    assert Refilled(l'.p.limiters[key].BucketFor(ip, later), later) == Whole(burst);
    VolleyAdmitted(l', key, ip, later, burst);
    assert rest[1..] == Volley(key, ip, later, burst);
  }

  lemma EmptiedTwiceAdmits(config: ProxyConfig, key: string, ip: IpAddr, rate: u32, burst: u32)
    requires burst > 0 && Files(config, key, rate, burst)
    ensures var steps := EmptiedTwice(key, ip, burst);
      && Keeping(config, steps, key, rate, burst) && Reloads(steps) == 0
      && EndTime(0, steps) == 300_000_000_001
      && Admitted(Start(config), steps, key, ip) == 2 * burst
  {
    hide Refilled, Consume, Proxy.LimiterTable, Eviction.AfterVolley;
    var l, later, volley := Start(config), Eviction.MAX_IDLE + 1, Volley(key, ip, 0, burst);
    var rest := [CleanRoute(key, {ip}, later)] + Volley(key, ip, later, burst);
    FreshBucketFull(NewLimiter(rate, burst), ip, 0);
    VolleyInstant(key, ip, 0, burst);
    VolleyAdmitted(l, key, ip, 0, burst);
    VolleyOnLimiter(l, key, ip, 0, burst);
    SecondVolley(Run(l, volley), key, ip, rate, burst);
    AdmittedJoined(l, volley, rest, key, ip);
    VolleyInstant(key, ip, later, burst);
    assert rest[1..] == Volley(key, ip, later, burst);
    InOrderJoined(0, volley, rest);
  }

  lemma {:induction false} VolleyRuns(l: World, key: string, ip: IpAddr, now: nat, n: nat)
    ensures CanRun(l, Volley(key, ip, now, n))
    decreases n
  {
    if n == 0 {
    } else {
      assert Volley(key, ip, now, n)[1..] == Volley(key, ip, now, n - 1);
      VolleyRuns(Apply(l, Check(key, ip, now)), key, ip, now, n - 1);
    }
  }

  lemma EmptiedTwiceGenuine(config: ProxyConfig, key: string, ip: IpAddr, rate: u32, burst: u32,
                            host: string, path: string)
    requires burst > 0 && Files(config, key, rate, burst) && Serves(config, host, path, key)
    requires CanRun(Start(config), EmptiedTwice(key, ip, burst))
    ensures Genuine(Start(config), EmptiedTwice(key, ip, burst), host, path, key)
  {
    var l, later, volley := Start(config), Eviction.MAX_IDLE + 1, Volley(key, ip, 0, burst);
    var again := Volley(key, ip, later, burst);
    var clean := CleanRoute(key, {ip}, later);
    VolleyRuns(l, key, ip, 0, burst);
    VolleyGenuine(l, key, ip, 0, burst, host, path);
    var l' := Run(l, volley);
    VolleyRuns(Apply(l', clean), key, ip, later, burst);
    VolleyGenuine(Apply(l', clean), key, ip, later, burst, host, path);
    assert ([clean] + again)[1..] == again;
    GenuineJoined(l, volley, [clean] + again, host, path, key);
  }

  lemma EvictionExceeds(config: ProxyConfig, key: string, ip: IpAddr, rate: u32, burst: u32, host: string, path: string)
    returns (moves: seq<Move>)
    requires Files(config, key, rate, burst) && Serves(config, host, path, key)
    requires rate * (Eviction.MAX_IDLE + 1) < Whole(burst)
    ensures KeepingTraffic(config, moves, key, rate, burst) && Reloads(Asked(config, moves)) == 0
    ensures !WithinBursts(config, Asked(config, moves), key, ip, rate, burst, 1)
  {
    var steps := EmptiedTwice(key, ip, burst);
    EmptiedTwiceAdmits(config, key, ip, rate, burst);
    EmptiedTwiceGenuine(config, key, ip, rate, burst, host, path);
    moves := MadeByRequests(config, steps, key, rate, burst, host, path);
  }

  lemma RefillingWithin(config: ProxyConfig, steps: seq<Step>, key: string, ip: IpAddr, rate: u32, burst: u32)
    requires Keeps(config, key, rate, burst) && Keeping(config, steps, key, rate, burst)
    requires rate * (Eviction.MAX_IDLE + 1) >= Whole(burst)
    ensures WithinBursts(config, steps, key, ip, rate, burst, Reloads(steps) + 1)
  {
    FastEnoughIff(rate, burst, rate);
    AdmissionsAcrossReloads(config, steps, key, ip, rate, burst, rate);
  }

  /** For a route that requests reach, the bound across reloads holds in every run of requests exactly when
      an idle bucket refills before it is stale. */
  lemma BoundAcrossReloadsIff(config: ProxyConfig, key: string, ip: IpAddr, rate: u32, burst: u32,
                              host: string, path: string)
    requires Keeps(config, key, rate, burst) && Files(config, key, rate, burst) && Serves(config, host, path, key)
    ensures (forall moves :: KeepingTraffic(config, moves, key, rate, burst) ==>
               WithinBursts(config, Asked(config, moves), key, ip, rate, burst, Reloads(Asked(config, moves)) + 1))
       <==> rate * 300_000_000_001 >= burst * 1_000_000_000
  {
    hide WithinBursts, Keeps, Files, Acceptable, Serves, Asked;
    if rate * (Eviction.MAX_IDLE + 1) >= Whole(burst) {
      forall moves | KeepingTraffic(config, moves, key, rate, burst)
        ensures WithinBursts(config, Asked(config, moves), key, ip, rate, burst, Reloads(Asked(config, moves)) + 1)
      {
        RefillingWithin(config, Asked(config, moves), key, ip, rate, burst);
      }
    } else {
      var moves := EvictionExceeds(config, key, ip, rate, burst, host, path);
      assert !WithinBursts(config, Asked(config, moves), key, ip, rate, burst, Reloads(Asked(config, moves)) + 1);
    }
  }

  lemma BurstPositive(config: ProxyConfig, pagesExist: bool, key: string, rate: u32, burst: u32)
    requires Acceptable(config, pagesExist) && Files(config, key, rate, burst)
    ensures burst >= 1
  {
    Proxy.TableEntryFrom(config.routes, |config.routes|, key);
  }

  lemma MoreThanOne(r: nat, burst: nat)
    requires r > 0 && burst > 0
    ensures (r + 1) * burst > burst
  {
    assert (r + 1) * burst == r * burst + burst;
  }

  lemma ReloadsExceed(config: ProxyConfig, pagesExist: bool, key: string, ip: IpAddr, rate: u32, burst: u32, r: nat,
                      host: string, path: string)
    returns (moves: seq<Move>)
    requires Acceptable(config, pagesExist) && Keeps(config, key, rate, burst) && Files(config, key, rate, burst)
    requires Serves(config, host, path, key) && r > 0
    ensures KeepingTraffic(config, moves, key, rate, burst) && Reloads(Asked(config, moves)) == r
    ensures !WithinBursts(config, Asked(config, moves), key, ip, rate, burst, 1)
  {
    moves := BoundAttained(config, pagesExist, key, ip, rate, burst, r, host, path);
    BurstPositive(config, pagesExist, key, rate, burst);
    MoreThanOne(r, burst);
  }

  /** The bound of a single bucket survives `r` accepted reloads exactly when there are none and an idle
      bucket refills before it is stale. */
  lemma OneBurstIff(config: ProxyConfig, pagesExist: bool, key: string, ip: IpAddr, rate: u32, burst: u32, r: nat,
                    host: string, path: string)
    requires Acceptable(config, pagesExist) && Keeps(config, key, rate, burst) && Files(config, key, rate, burst)
    requires Serves(config, host, path, key)
    ensures (forall moves :: KeepingTraffic(config, moves, key, rate, burst) && Reloads(Asked(config, moves)) == r ==>
               WithinBursts(config, Asked(config, moves), key, ip, rate, burst, 1))
       <==> r == 0 && rate * 300_000_000_001 >= burst * 1_000_000_000
  {
    hide WithinBursts, Keeping, Keeps, Files, Acceptable, Serves, Asked;
    if r > 0 {
      var moves := ReloadsExceed(config, pagesExist, key, ip, rate, burst, r, host, path);
    } else if rate * (Eviction.MAX_IDLE + 1) < Whole(burst) {
      var moves := EvictionExceeds(config, key, ip, rate, burst, host, path);
    } else {
      BoundAcrossReloadsIff(config, key, ip, rate, burst, host, path);
    }
  }
}
