/** How many requests of one address a route's limiter admits while reloads replace it. */
module Admissions {
  import opened Primitives
  import opened Config
  import opened RateLimit
  import opened Route
  import opened Live
  import Eviction
  import Proxy

  /** The clock reading a step takes, or the last one if it takes none. */
  function TimeOf(step: Step, now: nat): nat {
    match step
    case Check(_, _, at) => at
    case CleanGlobal(_, at) => at
    case CleanRoute(_, _, at) => at
    case _ => now
  }

  predicate StepsInOrder(now: nat, steps: seq<Step>)
    decreases |steps|
  {
    steps == [] || (now <= TimeOf(steps[0], now) && StepsInOrder(TimeOf(steps[0], now), steps[1..]))
  }

  function EndTime(now: nat, steps: seq<Step>): nat
    decreases |steps|
  {
    if steps == [] then now else EndTime(TimeOf(steps[0], now), steps[1..])
  }

  /** The step admits a request of `ip` by the limiter filed under `key`. Requests that find no such
      limiter, because a reload has cleared the table, are not counted. */
  predicate AdmitsBy(l: World, step: Step, key: string, ip: IpAddr) {
    && step.Check? && step.limiter == key && step.ip == ip
    && key in l.p.limiters && l.p.limiters[key].Check(ip, step.at).1
  }

  function Admitted(l: World, steps: seq<Step>, key: string, ip: IpAddr): nat
    requires CanRun(l, steps)
    decreases |steps|
  {
    if steps == [] then 0
    else (if AdmitsBy(l, steps[0], key, ip) then 1 else 0) + Admitted(Apply(l, steps[0]), steps[1..], key, ip)
  }

  /** Reload attempts that were accepted. */
  function Reloads(steps: seq<Step>): nat
    decreases |steps|
  {
    if steps == [] then 0 else (if Accepted(steps[0]) then 1 else 0) + Reloads(steps[1..])
  }

  /** One route at most has this key, and if it is limited, then by these settings. */
  ghost predicate Keeps(config: ProxyConfig, key: string, rate: u32, burst: u32) {
    && (forall i, j :: 0 <= i < j < |config.routes| && KeyOf(config.routes[i]) == key ==>
          KeyOf(config.routes[j]) != key)
    && (forall i :: 0 <= i < |config.routes| && KeyOf(config.routes[i]) == key ==>
          config.routes[i].ratelimit.None? || config.routes[i].ratelimit == Some(RateLimitConfig(rate, burst)))
  }

  ghost predicate AllKeep(steps: seq<Step>, key: string, rate: u32, burst: u32) {
    forall step :: step in steps && Accepted(step) ==> Keeps(step.parsed.value, key, rate, burst)
  }

  /** The limiter under the key has the settings, and the bucket of `ip` is sound. */
  ghost predicate LimiterSound(limiters: map<string, Limiter>, key: string, ip: IpAddr, rate: u32, burst: u32,
                               now: nat) {
    key in limiters ==>
      && limiters[key].rate == rate && limiters[key].burst == burst
      && (ip in limiters[key].buckets ==> Eviction.Sound(limiters[key].buckets[ip], rate, burst, now))
  }

  ghost predicate TaskKeeps(r: ReloadTask, key: string, rate: u32, burst: u32) {
    && (r.Validated? || r.RouterPublished? || r.Filling? ==> Keeps(r.config, key, rate, burst))
    && (r.Filling? ==> r.k <= |r.config.routes|)
  }

  ghost predicate Fit(l: World, key: string, ip: IpAddr, rate: u32, burst: u32, now: nat) {
    LimiterSound(l.p.limiters, key, ip, rate, burst, now) && TaskKeeps(l.reload, key, rate, burst)
  }

  function Generous(b: Bucket, fast: nat, now: nat): nat {
    Min(b.tokens + Earned(fast, Elapsed(now, b.lastRefill)), b.maxTokens)
  }

  /** What the limiter under the key could hand `ip` at once if its buckets refilled at `fast`. */
  function InHand(limiters: map<string, Limiter>, key: string, ip: IpAddr, fast: nat, now: nat): nat {
    if key in limiters then Generous(limiters[key].BucketFor(ip, now), fast, now) else 0
  }

  /** At `fast`, which is the rate or more, an idle bucket refills before it is stale. For any settings there
      is such a number; it is the rate itself when eviction is invisible. */
  ghost predicate FastEnough(rate: u32, burst: u32, fast: nat) {
    fast >= rate && Earned(fast, Eviction.MAX_IDLE + 1) >= Whole(burst)
  }

  lemma FastEnoughIff(rate: u32, burst: u32, fast: nat)
    ensures FastEnough(rate, burst, fast) <==> fast >= rate && fast * (Eviction.MAX_IDLE + 1) >= Whole(burst)
  {
    EarnedIsProduct(fast, Eviction.MAX_IDLE + 1);
  }

  lemma AlwaysFastEnough(rate: u32, burst: u32)
    ensures FastEnough(rate, burst, rate + Whole(burst))
  {
    var fast: nat := rate + Whole(burst);
    EarnedGrows(fast, 1, Eviction.MAX_IDLE + 1);
    assert Earned(fast, 1) == Earned(fast, 0) + fast;
  }

  lemma {:induction false} FasterEarnsMore(rate: nat, fast: nat, span: nat)
    requires rate <= fast
    ensures Earned(rate, span) <= Earned(fast, span)
  {
    if span == 0 {
    } else {
      FasterEarnsMore(rate, fast, span - 1);
    }
  }

  predicate EnteredBefore(c: ProxyConfig, k: nat, key: string) {
    exists j :: 0 <= j < k && j < |c.routes| && KeyOf(c.routes[j]) == key && c.routes[j].ratelimit.Some?
  }

  /** The reload in flight may still file a full limiter under the key. */
  predicate StillToFile(r: ReloadTask, key: string) {
    match r
    case Validated(_) => true
    case RouterPublished(_) => true
    case Filling(c, k) => !EnteredBefore(c, k, key)
    case _ => false
  }

  /** The tokens of `n` full buckets: `n * burst`, as repeated addition. */
  function Bursts(burst: u32, n: nat): nat {
    if n == 0 then 0 else Bursts(burst, n - 1) + Whole(burst)
  }

  lemma {:induction false} BurstsIsProduct(burst: u32, n: nat)
    ensures Bursts(burst, n) == Whole(n * burst)
  {
    if n == 0 {
    } else {
      BurstsIsProduct(burst, n - 1);
      assert n * burst == (n - 1) * burst + burst;
    }
  }

  /** Tokens in hand now, and those that reloads in flight will hand over. */
  function Purse(l: World, key: string, ip: IpAddr, burst: u32, fast: nat, now: nat): int {
    InHand(l.p.limiters, key, ip, fast, now) + if StillToFile(l.reload, key) then Whole(burst) else 0
  }

  lemma HandAtMostBurst(limiters: map<string, Limiter>, key: string, ip: IpAddr, rate: u32, burst: u32, fast: nat,
                        now: nat)
    requires LimiterSound(limiters, key, ip, rate, burst, now)
    ensures InHand(limiters, key, ip, fast, now) <= Whole(burst)
  {
  }

  /** Time alone adds at most what is earned in it. */
  lemma HandLater(limiters: map<string, Limiter>, key: string, ip: IpAddr, rate: u32, burst: u32, fast: nat,
                  now: nat, later: nat)
    requires LimiterSound(limiters, key, ip, rate, burst, now) && now <= later
    ensures InHand(limiters, key, ip, fast, later) <= InHand(limiters, key, ip, fast, now) + Earned(fast, later - now)
    ensures LimiterSound(limiters, key, ip, rate, burst, later)
  {
    if key in limiters && ip in limiters[key].buckets {
      var b := limiters[key].buckets[ip];
      EarnedAdds(fast, now - b.lastRefill, later - now);
    }
  }

  lemma CheckSpends(l: Limiter, ip: IpAddr, fast: nat, now: nat)
    requires ip in l.buckets ==> Eviction.Sound(l.buckets[ip], l.rate, l.burst, now)
    requires fast >= l.rate
    ensures var (l', allowed) := l.Check(ip, now);
      && l'.rate == l.rate && l'.burst == l.burst
      && Eviction.Sound(l'.buckets[ip], l.rate, l.burst, now)
      && Generous(l'.BucketFor(ip, now), fast, now) + (if allowed then NANOS else 0)
         <= Generous(l.BucketFor(ip, now), fast, now)
  {
    FasterEarnsMore(l.rate, fast, Elapsed(now, l.BucketFor(ip, now).lastRefill));
  }

  lemma CheckMovesHand(l: World, step: Step, key: string, ip: IpAddr, rate: u32, burst: u32, fast: nat)
    requires step.Check? && LimiterSound(l.p.limiters, key, ip, rate, burst, step.at) && fast >= rate
    ensures var l' := Apply(l, step);
      && LimiterSound(l'.p.limiters, key, ip, rate, burst, step.at)
      && InHand(l'.p.limiters, key, ip, fast, step.at) + (if AdmitsBy(l, step, key, ip) then NANOS else 0)
         <= InHand(l.p.limiters, key, ip, fast, step.at)
  {
    if step.limiter == key && key in l.p.limiters && step.ip == ip {
      CheckSpends(l.p.limiters[key], ip, fast, step.at);
    }
  }

  lemma StaleIsGenerous(b: Bucket, rate: u32, burst: u32, fast: nat, now: nat)
    requires Eviction.Sound(b, rate, burst, now) && Stale(b, Eviction.MAX_IDLE, now) && FastEnough(rate, burst, fast)
    ensures Generous(b, fast, now) == Whole(burst)
  {
    EarnedGrows(fast, Eviction.MAX_IDLE + 1, now - b.lastRefill);
  }

  lemma CleanupKeepsHand(l: World, step: Step, key: string, ip: IpAddr, rate: u32, burst: u32, fast: nat)
    requires step.CleanRoute? && LimiterSound(l.p.limiters, key, ip, rate, burst, step.at)
    requires FastEnough(rate, burst, fast)
    ensures var l' := Apply(l, step);
      && LimiterSound(l'.p.limiters, key, ip, rate, burst, step.at)
      && InHand(l'.p.limiters, key, ip, fast, step.at) == InHand(l.p.limiters, key, ip, fast, step.at)
  {
    if step.limiter == key && key in l.p.limiters && ip in l.p.limiters[key].buckets {
      var b := l.p.limiters[key].buckets[ip];
      if Stale(b, Eviction.MAX_IDLE, step.at) {
        StaleIsGenerous(b, rate, burst, fast, step.at);
      }
    }
  }

  /** Filing a limiter hands over what was still to be filed, once. */
  lemma FilingKeepsPurse(l: World, key': string, key: string, ip: IpAddr, rate: u32, burst: u32, fast: nat, now: nat)
    requires Fit(l, key, ip, rate, burst, now) && Enabled(l, ReloadStep(key'))
    requires l.reload.Filling? && l.reload.k < |l.reload.config.routes|
    ensures var l' := StepReload(l, key');
      Fit(l', key, ip, rate, burst, now) && Purse(l', key, ip, burst, fast, now) <= Purse(l, key, ip, burst, fast, now)
  {
    var c, k := l.reload.config, l.reload.k;
    var l' := StepReload(l, key');
    var route := c.routes[k];
    HandAtMostBurst(l.p.limiters, key, ip, rate, burst, fast, now);
    if KeyOf(route) == key && route.ratelimit.Some? {
      assert !EnteredBefore(c, k, key);
      assert EnteredBefore(c, k + 1, key) by {
        assert 0 <= k < k + 1 && KeyOf(c.routes[k]) == key;
      }
      assert l'.p.limiters[key] == NewLimiter(rate, burst);
    } else {
      assert EnteredBefore(c, k, key) <==> EnteredBefore(c, k + 1, key);
    }
  }

  lemma ReloadKeepsPurse(l: World, key': string, key: string, ip: IpAddr, rate: u32, burst: u32, fast: nat, now: nat)
    requires Fit(l, key, ip, rate, burst, now) && Enabled(l, ReloadStep(key'))
    ensures var l' := StepReload(l, key');
      Fit(l', key, ip, rate, burst, now) && Purse(l', key, ip, burst, fast, now) <= Purse(l, key, ip, burst, fast, now)
  {
    if l.reload.Filling? && l.reload.k < |l.reload.config.routes| {
      FilingKeepsPurse(l, key', key, ip, rate, burst, fast, now);
    } else if l.reload.RouterPublished? {
      assert !EnteredBefore(l.reload.config, 0, key);
    }
  }

  /** One step: what it admits comes out of the purse, time and a newly accepted reload fill it. */
  lemma StepMovesPurse(l: World, step: Step, key: string, ip: IpAddr, rate: u32, burst: u32, fast: nat, now: nat)
    requires Fit(l, key, ip, rate, burst, now) && Enabled(l, step) && now <= TimeOf(step, now)
    requires FastEnough(rate, burst, fast)
    requires Accepted(step) ==> Keeps(step.parsed.value, key, rate, burst)
    ensures var l', later := Apply(l, step), TimeOf(step, now);
      && Fit(l', key, ip, rate, burst, later)
      && Purse(l', key, ip, burst, fast, later) + (if AdmitsBy(l, step, key, ip) then NANOS else 0)
         <= Purse(l, key, ip, burst, fast, now) + Earned(fast, later - now)
            + (if Accepted(step) then Whole(burst) else 0)
  {
    HandLater(l.p.limiters, key, ip, rate, burst, fast, now, TimeOf(step, now));
    if step.Check? {
      CheckMovesHand(l, step, key, ip, rate, burst, fast);
    } else if step.CleanRoute? {
      CleanupKeepsHand(l, step, key, ip, rate, burst, fast);
    } else if step.ReloadStep? {
      ReloadKeepsPurse(l, step.key, key, ip, rate, burst, fast, now);
    } else if !step.Attempt? {
      assert Apply(l, step).p.limiters == l.p.limiters && Apply(l, step).reload == l.reload;
    }
  }

  lemma KeepRest(steps: seq<Step>, key: string, rate: u32, burst: u32)
    requires steps != [] && AllKeep(steps, key, rate, burst)
    ensures Accepted(steps[0]) ==> Keeps(steps[0].parsed.value, key, rate, burst)
    ensures AllKeep(steps[1..], key, rate, burst)
  {
    assert steps[0] in steps;
  }

  lemma {:induction false} FitThroughout(l: World, steps: seq<Step>, key: string, ip: IpAddr, rate: u32,
                                         burst: u32, fast: nat, now: nat)
    requires Fit(l, key, ip, rate, burst, now) && CanRun(l, steps) && StepsInOrder(now, steps)
    requires FastEnough(rate, burst, fast) && AllKeep(steps, key, rate, burst)
    ensures Fit(Run(l, steps), key, ip, rate, burst, EndTime(now, steps))
    decreases |steps|
  {
    if steps == [] {
    } else {
      KeepRest(steps, key, rate, burst);
      StepMovesPurse(l, steps[0], key, ip, rate, burst, fast, now);
      FitThroughout(Apply(l, steps[0]), steps[1..], key, ip, rate, burst, fast, TimeOf(steps[0], now));
    }
  }

  /** The run admits no more than the purse holds, time earns and accepted reloads hand over. */
  ghost predicate WithinPurse(l: World, steps: seq<Step>, key: string, ip: IpAddr, rate: u32, burst: u32,
                              fast: nat, now: nat)
    requires CanRun(l, steps)
  {
    && now <= EndTime(now, steps)
    && Whole(Admitted(l, steps, key, ip))
       <= Purse(l, key, ip, burst, fast, now) + Earned(fast, EndTime(now, steps) - now) + Bursts(burst, Reloads(steps))
  }

  lemma Ledger(all: nat, rest: nat, admits: bool, reloads: nat, more: nat, accepts: bool, burst: u32,
               purse: int, left: int, earned: nat, first: nat, second: nat)
    requires all == (if admits then 1 else 0) + rest
    requires reloads == (if accepts then 1 else 0) + more
    requires earned == first + second
    requires left + (if admits then NANOS else 0) <= purse + first + (if accepts then Whole(burst) else 0)
    requires Whole(rest) <= left + second + Bursts(burst, more)
    ensures Whole(all) <= purse + earned + Bursts(burst, reloads)
  {
  }

  lemma PurseOverOneMore(l: World, steps: seq<Step>, key: string, ip: IpAddr, rate: u32, burst: u32,
                         fast: nat, now: nat)
    requires steps != [] && CanRun(l, steps) && now <= TimeOf(steps[0], now)
    requires var l', later := Apply(l, steps[0]), TimeOf(steps[0], now);
      && Purse(l', key, ip, burst, fast, later) + (if AdmitsBy(l, steps[0], key, ip) then NANOS else 0)
         <= Purse(l, key, ip, burst, fast, now) + Earned(fast, later - now)
            + (if Accepted(steps[0]) then Whole(burst) else 0)
      && WithinPurse(l', steps[1..], key, ip, rate, burst, fast, later)
    ensures WithinPurse(l, steps, key, ip, rate, burst, fast, now)
  {
    hide Purse, AdmitsBy, Apply, Enabled;
    var step, rest := steps[0], steps[1..];
    var l', later, end := Apply(l, step), TimeOf(step, now), EndTime(now, steps);
    EarnedAdds(fast, later - now, end - later);
    Ledger(Admitted(l, steps, key, ip), Admitted(l', rest, key, ip), AdmitsBy(l, step, key, ip),
           Reloads(steps), Reloads(rest), Accepted(step), burst,
           Purse(l, key, ip, burst, fast, now), Purse(l', key, ip, burst, fast, later),
           Earned(fast, end - now), Earned(fast, later - now), Earned(fast, end - later));
  }

  lemma {:induction false} PurseOverRun(l: World, steps: seq<Step>, key: string, ip: IpAddr, rate: u32,
                                        burst: u32, fast: nat, now: nat)
    requires Fit(l, key, ip, rate, burst, now) && CanRun(l, steps) && StepsInOrder(now, steps)
    requires FastEnough(rate, burst, fast) && AllKeep(steps, key, rate, burst)
    ensures WithinPurse(l, steps, key, ip, rate, burst, fast, now)
    decreases |steps|
  {
    if steps == [] {
      assert Purse(l, key, ip, burst, fast, now) >= 0;
      assert Admitted(l, steps, key, ip) == 0;
    } else {
      KeepRest(steps, key, rate, burst);
      StepMovesPurse(l, steps[0], key, ip, rate, burst, fast, now);
      PurseOverRun(Apply(l, steps[0]), steps[1..], key, ip, rate, burst, fast, TimeOf(steps[0], now));
      PurseOverOneMore(l, steps, key, ip, rate, burst, fast, now);
    }
  }

  lemma AdmissionsFrom(l: World, steps: seq<Step>, key: string, ip: IpAddr, rate: u32, burst: u32, fast: nat, now: nat)
    requires Fit(l, key, ip, rate, burst, now) && l.reload.NoReload?
    requires CanRun(l, steps) && StepsInOrder(now, steps)
    requires FastEnough(rate, burst, fast) && AllKeep(steps, key, rate, burst)
    ensures now <= EndTime(now, steps)
    ensures Whole(Admitted(l, steps, key, ip))
         <= Whole((Reloads(steps) + 1) * burst) + fast * (EndTime(now, steps) - now)
  {
    PurseOverRun(l, steps, key, ip, rate, burst, fast, now);
    HandAtMostBurst(l.p.limiters, key, ip, rate, burst, fast, now);
    EarnedIsProduct(fast, EndTime(now, steps) - now);
    BurstsIsProduct(burst, Reloads(steps) + 1);
  }

  lemma StartFits(config: ProxyConfig, key: string, ip: IpAddr, rate: u32, burst: u32)
    requires Keeps(config, key, rate, burst)
    ensures Fit(Start(config), key, ip, rate, burst, 0)
  {
    if key in Proxy.Fresh(config).limiters {
      Proxy.TableEntryFrom(config.routes, |config.routes|, key);
    }
  }

  /** In whole tokens and seconds: it does so whenever `rate * 300 s` covers the burst. */
  lemma EnoughToRefill(rate: u32, burst: u32)
    requires rate * 300 >= burst
    ensures rate * (Eviction.MAX_IDLE + 1) >= Whole(burst)
  {
    assert rate * (Eviction.MAX_IDLE + 1) == rate * 300 * 1_000_000_000 + rate;
  }

  /** From start-up, over any run: `(R + 1) * burst + fast * T` bounds what the limiter of one route
      admits from one address while `R` reloads are accepted, provided every configuration leaves the
      key to one route with these settings. Here `fast` is `rate` if an idle bucket refills before it is
      stale, and more otherwise. Requests that do not meet that limiter, because a reload has removed it,
      are the business of module FailOpen. */
  lemma AdmissionsAcrossReloads(config: ProxyConfig, steps: seq<Step>, key: string, ip: IpAddr, rate: u32, burst: u32,
                                fast: nat)
    requires CanRun(Start(config), steps) && StepsInOrder(0, steps)
    requires Keeps(config, key, rate, burst) && AllKeep(steps, key, rate, burst)
    requires FastEnough(rate, burst, fast)
    ensures Whole(Admitted(Start(config), steps, key, ip))
         <= Whole((Reloads(steps) + 1) * burst) + fast * EndTime(0, steps)
  {
    StartFits(config, key, ip, rate, burst);
    AdmissionsFrom(Start(config), steps, key, ip, rate, burst, fast, 0);
  }

  /** The same for any window of a run that begins with no reload in flight. */
  lemma AdmissionsInWindow(config: ProxyConfig, before: seq<Step>, steps: seq<Step>, key: string, ip: IpAddr,
                           rate: u32, burst: u32, fast: nat)
    requires CanRun(Start(config), before) && CanRun(Run(Start(config), before), steps)
    requires StepsInOrder(0, before) && StepsInOrder(EndTime(0, before), steps)
    requires Run(Start(config), before).reload.NoReload?
    requires Keeps(config, key, rate, burst) && AllKeep(before, key, rate, burst) && AllKeep(steps, key, rate, burst)
    requires FastEnough(rate, burst, fast)
    ensures var l, from := Run(Start(config), before), EndTime(0, before);
      && from <= EndTime(from, steps)
      && Whole(Admitted(l, steps, key, ip))
         <= Whole((Reloads(steps) + 1) * burst) + fast * (EndTime(from, steps) - from)
  {
    StartFits(config, key, ip, rate, burst);
    FitThroughout(Start(config), before, key, ip, rate, burst, fast, 0);
    AdmissionsFrom(Run(Start(config), before), steps, key, ip, rate, burst, fast, EndTime(0, before));
  }
}
