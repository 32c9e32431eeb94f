/** Whole runs of a limiter: eviction of idle buckets, and the separation of client addresses. */
module Eviction {
  import opened Primitives
  import opened RateLimit
  import opened Conformance

  /** The idle time after which the background task drops a bucket: five minutes. */
  const MAX_IDLE: nat := 300_000_000_000

  datatype Event =
    | Check(ip: IpAddr, at: nat)
    | Cleanup(visited: set<IpAddr>, at: nat)

  /** The clock does not go back, and reads at least `now` to begin with. */
  predicate InOrder(now: nat, events: seq<Event>)
    decreases |events|
  {
    events == [] || (now <= events[0].at && InOrder(events[0].at, events[1..]))
  }

  function Step(l: Limiter, maxIdle: nat, e: Event): (Limiter, seq<bool>) {
    match e
    case Check(ip, at) => var (l', allowed) := l.Check(ip, at); (l', [allowed])
    case Cleanup(visited, at) => (l.Cleanup(visited, maxIdle, at), [])
  }

  /** The answers given during a run. */
  function Run(l: Limiter, maxIdle: nat, events: seq<Event>): seq<bool>
    decreases |events|
  {
    if events == [] then []
    else
      var (l', answer) := Step(l, maxIdle, events[0]);
      answer + Run(l', maxIdle, events[1..])
  }

  function ChecksOnly(events: seq<Event>): seq<Event> {
    if events == [] then []
    else (if events[0].Check? then [events[0]] else []) + ChecksOnly(events[1..])
  }

  // ----- eviction

  /** The bucket is of this limiter, and was last touched no later than `now`. */
  ghost predicate Sound(b: Bucket, rate: u32, burst: u32, now: nat) {
    && b.maxTokens == Whole(burst) && b.refillRate == rate
    && b.lastUsed == b.lastRefill <= now
  }

  /** However it is used next, the bucket will be full by then. */
  ghost predicate SureToFill(b: Bucket, now: nat) {
    b.lastRefill <= now && b.tokens + Earned(b.refillRate, now - b.lastRefill) >= b.maxTokens
  }

  /** `l` has lost only buckets that refill to the cap before they are next used. */
  ghost predicate Simulates(l: Limiter, full: Limiter, now: nat) {
    && l.rate == full.rate && l.burst == full.burst
    && (forall ip :: ip in full.buckets ==> Sound(full.buckets[ip], full.rate, full.burst, now))
    && (forall ip :: ip in l.buckets ==> ip in full.buckets && l.buckets[ip] == full.buckets[ip])
    && (forall ip :: ip in full.buckets && ip !in l.buckets ==> SureToFill(full.buckets[ip], now))
  }

  lemma FillingLater(b: Bucket, now: nat, later: nat)
    requires SureToFill(b, now) && now <= later
    ensures SureToFill(b, later)
  {
    EarnedGrows(b.refillRate, now - b.lastRefill, later - b.lastRefill);
  }

  lemma StaleFills(b: Bucket, rate: u32, burst: u32, maxIdle: nat, now: nat)
    requires Sound(b, rate, burst, now) && Stale(b, maxIdle, now)
    requires Earned(rate, maxIdle + 1) >= Whole(burst)
    ensures SureToFill(b, now)
  {
    EarnedGrows(rate, maxIdle + 1, now - b.lastRefill);
  }

  /** A bucket that is sure to fill answers as a new one does, and is the same afterwards. */
  lemma FilledIsNew(b: Bucket, rate: u32, burst: u32, now: nat)
    requires Sound(b, rate, burst, now) && SureToFill(b, now)
    ensures Consume(b, now) == Consume(Full(rate, burst, now), now)
  {
  }

  lemma SimulationLater(l: Limiter, full: Limiter, now: nat, later: nat)
    requires Simulates(l, full, now) && now <= later
    ensures Simulates(l, full, later)
  {
    forall ip | ip in full.buckets && ip !in l.buckets ensures SureToFill(full.buckets[ip], later) {
      FillingLater(full.buckets[ip], now, later);
    }
  }

  lemma SimulatedCheck(l: Limiter, full: Limiter, ip: IpAddr, now: nat)
    requires Simulates(l, full, now)
    ensures l.Check(ip, now).1 == full.Check(ip, now).1
    ensures Simulates(l.Check(ip, now).0, full.Check(ip, now).0, now)
  {
    if ip in full.buckets && ip !in l.buckets {
      FilledIsNew(full.buckets[ip], full.rate, full.burst, now);
    }
  }

  lemma SimulatedCleanup(l: Limiter, full: Limiter, visited: set<IpAddr>, maxIdle: nat, now: nat)
    requires Simulates(l, full, now)
    requires Earned(full.rate, maxIdle + 1) >= Whole(full.burst)
    ensures Simulates(l.Cleanup(visited, maxIdle, now), full, now)
  {
    var l' := l.Cleanup(visited, maxIdle, now);
    forall ip | ip in full.buckets && ip !in l'.buckets ensures SureToFill(full.buckets[ip], now) {
      if ip in l.buckets {
        StaleFills(full.buckets[ip], full.rate, full.burst, maxIdle, now);
      }
    }
  }

  lemma {:induction false} SimulatedRun(l: Limiter, full: Limiter, maxIdle: nat, now: nat, events: seq<Event>)
    requires Simulates(l, full, now) && InOrder(now, events)
    requires Earned(full.rate, maxIdle + 1) >= Whole(full.burst)
    ensures Run(l, maxIdle, events) == Run(full, maxIdle, ChecksOnly(events))
    decreases |events|
  {
    if events == [] {
    } else {
      var e := events[0];
      SimulationLater(l, full, now, e.at);
      match e {
        case Check(ip, at) =>
          SimulatedCheck(l, full, ip, at);
          SimulatedRun(l.Check(ip, at).0, full.Check(ip, at).0, maxIdle, at, events[1..]);
          assert ChecksOnly(events)[1..] == ChecksOnly(events[1..]);
        case Cleanup(visited, at) =>
          SimulatedCleanup(l, full, visited, maxIdle, at);
          SimulatedRun(l.Cleanup(visited, maxIdle, at), full, maxIdle, at, events[1..]);
          assert ChecksOnly(events) == ChecksOnly(events[1..]);
      }
    }
  }

  // ----- when eviction shows

  function Volley(ip: IpAddr, at: nat, n: nat): seq<Event> {
    if n == 0 then [] else [Check(ip, at)] + Volley(ip, at, n - 1)
  }

  function Passes(n: nat): seq<bool> {
    if n == 0 then [] else [true] + Passes(n - 1)
  }

  lemma RunNothing(l: Limiter, maxIdle: nat)
    ensures Run(l, maxIdle, []) == []
  {
  }

  lemma RunFirst(l: Limiter, maxIdle: nat, e: Event, rest: seq<Event>)
    ensures Run(l, maxIdle, [e] + rest) == Step(l, maxIdle, e).1 + Run(Step(l, maxIdle, e).0, maxIdle, rest)
  {
    assert ([e] + rest)[1..] == rest;
  }

  lemma Reassociate<T>(x: T, a: seq<T>, b: seq<T>)
    ensures [x] + (a + b) == ([x] + a) + b
  {
  }

  function AfterVolley(l: Limiter, ip: IpAddr, at: nat, n: nat): Limiter
    decreases n
  {
    if n == 0 then l else AfterVolley(l.Check(ip, at).0, ip, at, n - 1)
  }

  function Replies(l: Limiter, ip: IpAddr, at: nat, n: nat): seq<bool>
    decreases n
  {
    if n == 0 then [] else [l.Check(ip, at).1] + Replies(l.Check(ip, at).0, ip, at, n - 1)
  }

  lemma {:induction false} RunVolley(l: Limiter, maxIdle: nat, ip: IpAddr, at: nat, n: nat, rest: seq<Event>)
    ensures Run(l, maxIdle, Volley(ip, at, n) + rest)
         == Replies(l, ip, at, n) + Run(AfterVolley(l, ip, at, n), maxIdle, rest)
    decreases n
  {
    if n == 0 {
      assert Volley(ip, at, n) + rest == rest;
    } else {
      var (next, allowed) := l.Check(ip, at);
      RunVolley(next, maxIdle, ip, at, n - 1, rest);
      RunFirst(l, maxIdle, Check(ip, at), Volley(ip, at, n - 1) + rest);
      Reassociate(Check(ip, at), Volley(ip, at, n - 1), rest);
      Reassociate(allowed, Replies(next, ip, at, n - 1), Run(AfterVolley(l, ip, at, n), maxIdle, rest));
    }
  }

  lemma VolleyStep(l: Limiter, ip: IpAddr, at: nat)
    ensures var (next, allowed), held := l.Check(ip, at), Refilled(l.BucketFor(ip, at), at);
      && (allowed <==> held >= NANOS)
      && next.rate == l.rate && next.burst == l.burst
      && Refilled(next.BucketFor(ip, at), at) == if allowed then held - NANOS else held
  {
  }

  lemma PassesMore(x: bool, replies: seq<bool>, n: nat)
    requires n > 0
    ensures [x] + replies == Passes(n) <==> x && replies == Passes(n - 1)
  {
    assert ([x] + replies)[0] == x && ([x] + replies)[1..] == replies;
    assert Passes(n)[0] && Passes(n)[1..] == Passes(n - 1);
  }

  lemma OneLess(held: nat, allowed: bool, left: nat, n: nat)
    requires n > 0 && (allowed <==> held >= NANOS) && left == if allowed then held - NANOS else held
    ensures allowed && left >= Whole(n - 1) <==> held >= Whole(n)
  {
  }

  /** `n` simultaneous requests all pass exactly when the bucket holds `n` tokens. */
  lemma {:induction false} VolleyPassesIff(l: Limiter, ip: IpAddr, at: nat, n: nat)
    ensures Replies(l, ip, at, n) == Passes(n) <==> Refilled(l.BucketFor(ip, at), at) >= Whole(n)
    decreases n
  {
    if n == 0 {
    } else {
      hide Refilled, Passes, Whole;
      var (next, allowed) := l.Check(ip, at);
      VolleyStep(l, ip, at);
      VolleyPassesIff(next, ip, at, n - 1);
      PassesMore(allowed, Replies(next, ip, at, n - 1), n);
      OneLess(Refilled(l.BucketFor(ip, at), at), allowed, Refilled(next.BucketFor(ip, at), at), n);
    }
  }

  lemma {:induction false} VolleyDrains(l: Limiter, ip: IpAddr, at: nat, n: nat)
    requires n > 0 && Refilled(l.BucketFor(ip, at), at) >= Whole(n)
    ensures var b := l.BucketFor(ip, at);
      && AfterVolley(l, ip, at, n).rate == l.rate && AfterVolley(l, ip, at, n).burst == l.burst
      && ip in AfterVolley(l, ip, at, n).buckets
      && AfterVolley(l, ip, at, n).buckets[ip]
         == b.(tokens := Refilled(b, at) - Whole(n), lastRefill := at, lastUsed := at)
    decreases n
  {
    VolleyStep(l, ip, at);
    if n > 1 {
      VolleyDrains(l.Check(ip, at).0, ip, at, n - 1);
    } else {
      assert AfterVolley(l, ip, at, 1) == l.Check(ip, at).0;
    }
  }

  /** One address empties its bucket, is evicted as soon as it may be, and empties it again. */
  function Abuse(ip: IpAddr, burst: nat, maxIdle: nat): seq<Event> {
    Volley(ip, 0, burst) + [Cleanup({ip}, maxIdle + 1)] + Volley(ip, maxIdle + 1, burst)
  }

  lemma {:induction false} VolleyInOrder(ip: IpAddr, now: nat, at: nat, n: nat, rest: seq<Event>)
    requires now <= at && InOrder(at, rest)
    ensures InOrder(now, Volley(ip, at, n) + rest)
    ensures ChecksOnly(Volley(ip, at, n) + rest) == Volley(ip, at, n) + ChecksOnly(rest)
    decreases n
  {
    if n == 0 {
      assert Volley(ip, at, n) + rest == rest;
    } else {
      VolleyInOrder(ip, at, at, n - 1, rest);
      assert (Volley(ip, at, n) + rest)[1..] == Volley(ip, at, n - 1) + rest;
    }
  }

  lemma SamePrefix(p: seq<bool>, a: seq<bool>, b: seq<bool>)
    requires a != b
    ensures p + a != p + b
  {
    assert (p + a)[|p|..] == a && (p + b)[|p|..] == b;
  }

  lemma CleanupThenVolley(ip: IpAddr, at: nat, n: nat)
    ensures var rest := [Cleanup({ip}, at)] + Volley(ip, at, n);
      InOrder(at, rest) && ChecksOnly(rest) == Volley(ip, at, n)
  {
    var again := Volley(ip, at, n);
    var rest := [Cleanup({ip}, at)] + again;
    VolleyInOrder(ip, at, at, n, []);
    assert rest[1..] == again && again + [] == again && [] + again == again;
  }

  lemma AbuseInOrder(ip: IpAddr, burst: nat, maxIdle: nat)
    ensures InOrder(0, Abuse(ip, burst, maxIdle))
    ensures ChecksOnly(Abuse(ip, burst, maxIdle)) == Volley(ip, 0, burst) + Volley(ip, maxIdle + 1, burst)
  {
    var rest := [Cleanup({ip}, maxIdle + 1)] + Volley(ip, maxIdle + 1, burst);
    CleanupThenVolley(ip, maxIdle + 1, burst);
    VolleyInOrder(ip, 0, 0, burst, rest);
    assert Abuse(ip, burst, maxIdle) == Volley(ip, 0, burst) + rest;
  }

  /** Both volleys pass in full, since the second meets a new bucket. */
  lemma AbusePasses(ip: IpAddr, rate: u32, burst: u32, maxIdle: nat)
    requires burst > 0
    ensures Run(NewLimiter(rate, burst), maxIdle, Abuse(ip, burst, maxIdle)) == Passes(burst) + Passes(burst)
  {
    hide Run, Replies, Passes, Volley, AfterVolley;
    var l, later := NewLimiter(rate, burst), maxIdle + 1;
    var again := Volley(ip, later, burst);
    var rest := [Cleanup({ip}, later)] + again;
    assert again + [] == again;
    assert Abuse(ip, burst, maxIdle) == Volley(ip, 0, burst) + rest;
    var drained := AfterVolley(l, ip, 0, burst);
    var evicted := drained.Cleanup({ip}, maxIdle, later);
    VolleyDrains(l, ip, 0, burst);
    RunVolley(l, maxIdle, ip, 0, burst, rest);
    RunFirst(drained, maxIdle, Cleanup({ip}, later), again);
    RunVolley(evicted, maxIdle, ip, later, burst, []);
    RunNothing(AfterVolley(evicted, ip, later, burst), maxIdle);
    VolleyPassesIff(l, ip, 0, burst);
    VolleyPassesIff(evicted, ip, later, burst);
  }

  /** Without eviction the second volley meets a bucket that has not refilled. */
  lemma KeptBucketRefuses(ip: IpAddr, rate: u32, burst: u32, maxIdle: nat) returns (replies: seq<bool>)
    requires Earned(rate, maxIdle + 1) < Whole(burst)
    ensures Run(NewLimiter(rate, burst), maxIdle, Volley(ip, 0, burst) + Volley(ip, maxIdle + 1, burst))
         == Passes(burst) + replies
    ensures replies != Passes(burst)
  {
    hide Replies, Passes, Volley, AfterVolley;
    var l, later := NewLimiter(rate, burst), maxIdle + 1;
    var again := Volley(ip, later, burst);
    var drained := AfterVolley(l, ip, 0, burst);
    VolleyDrains(l, ip, 0, burst);
    RunVolley(l, maxIdle, ip, 0, burst, again);
    RunVolley(drained, maxIdle, ip, later, burst, []);
    assert again + [] == again;
    VolleyPassesIff(l, ip, 0, burst);
    VolleyPassesIff(drained, ip, later, burst);
    replies := Replies(drained, ip, later, burst);
  }

  lemma EvictionShows(rate: u32, burst: u32, maxIdle: nat)
    requires Earned(rate, maxIdle + 1) < Whole(burst)
    ensures var events := Abuse(V4(0), burst, maxIdle);
      && InOrder(0, events)
      && Run(NewLimiter(rate, burst), maxIdle, events) != Run(NewLimiter(rate, burst), maxIdle, ChecksOnly(events))
  {
    AbusePasses(V4(0), rate, burst, maxIdle);
    AbuseInOrder(V4(0), burst, maxIdle);
    var replies := KeptBucketRefuses(V4(0), rate, burst, maxIdle);
    SamePrefix(Passes(burst), Passes(burst), replies);
  }

  ghost predicate Invisible(rate: u32, burst: u32, maxIdle: nat, events: seq<Event>) {
    Run(NewLimiter(rate, burst), maxIdle, events) == Run(NewLimiter(rate, burst), maxIdle, ChecksOnly(events))
  }

  /** Eviction is invisible in every run exactly when an idle bucket refills before it is stale. */
  lemma EvictionInvisibleIff(rate: u32, burst: u32, maxIdle: nat)
    ensures (forall events :: InOrder(0, events) ==> Invisible(rate, burst, maxIdle, events))
       <==> rate * (maxIdle + 1) >= Whole(burst)
  {
    EarnedIsProduct(rate, maxIdle + 1);
    if Earned(rate, maxIdle + 1) >= Whole(burst) {
      forall events | InOrder(0, events) ensures Invisible(rate, burst, maxIdle, events) {
        SimulatedRun(NewLimiter(rate, burst), NewLimiter(rate, burst), maxIdle, 0, events);
      }
    } else {
      EvictionShows(rate, burst, maxIdle);
      assert !Invisible(rate, burst, maxIdle, Abuse(V4(0), burst, maxIdle));
    }
  }

  /** With the program's own idle time of 300 s: exactly when 300 s and a nanosecond at this rate cover the
      burst, and so whenever `rate * 300` does. */
  lemma EvictionInvisibleInUse(rate: u32, burst: u32)
    ensures (forall events :: InOrder(0, events) ==> Invisible(rate, burst, MAX_IDLE, events))
       <==> rate * 300_000_000_001 >= burst * 1_000_000_000
    ensures rate * 300 >= burst ==> forall events :: InOrder(0, events) ==> Invisible(rate, burst, MAX_IDLE, events)
  {
    EvictionInvisibleIff(rate, burst, MAX_IDLE);
    assert rate * 300_000_000_001 == rate * 300 * 1_000_000_000 + rate;
  }

  function TimesOf(events: seq<Event>, ip: IpAddr): seq<nat> {
    if events == [] then []
    else (if events[0].Check? && events[0].ip == ip then [events[0].at] else []) + TimesOf(events[1..], ip)
  }

  function AnswersTo(l: Limiter, maxIdle: nat, events: seq<Event>, ip: IpAddr): (answers: seq<bool>)
    ensures |answers| == |TimesOf(events, ip)|
    decreases |events|
  {
    if events == [] then []
    else
      var (l', answer) := Step(l, maxIdle, events[0]);
      (if events[0].Check? && events[0].ip == ip then answer else []) + AnswersTo(l', maxIdle, events[1..], ip)
  }

  /** The run keeps what `ip` gets in the window `[lo, hi]` within `burst + rate * (hi - lo)`. */
  ghost predicate KeepsWindow(rate: u32, burst: u32, maxIdle: nat, events: seq<Event>, ip: IpAddr, lo: nat, hi: nat) {
    var d, times := AnswersTo(NewLimiter(rate, burst), maxIdle, events, ip), TimesOf(events, ip);
    CountIn(times, d, |times|, lo, hi) * 1_000_000_000 <= burst * 1_000_000_000 + rate * (hi - lo)
  }

  /** The limiter treats `ip` as the lone bucket `b` would: it holds `b`, or `b` will be full. */
  ghost predicate Tracks(l: Limiter, ip: IpAddr, b: Bucket, now: nat) {
    && Sound(b, l.rate, l.burst, now)
    && if ip in l.buckets then l.buckets[ip] == b else SureToFill(b, now)
  }

  lemma {:induction false} AfterShift(b: Bucket, t: nat, times: seq<nat>, k: nat)
    requires k <= |times|
    ensures After(b, [t] + times, k + 1) == After(Consume(b, t).0, times, k)
  {
    if k == 0 {
      assert After(b, [t] + times, 0) == b;
    } else {
      AfterShift(b, t, times, k - 1);
    }
  }

  lemma AnswersShift(b: Bucket, t: nat, times: seq<nat>)
    ensures Answers(b, [t] + times) == [Consume(b, t).1] + Answers(Consume(b, t).0, times)
  {
    var longer := [t] + times;
    forall k | 0 <= k < |longer|
      ensures Answers(b, longer)[k] == ([Consume(b, t).1] + Answers(Consume(b, t).0, times))[k]
    {
      if k > 0 {
        AfterShift(b, t, times, k - 1);
      }
    }
  }

  lemma {:induction false} IsolatedRun(l: Limiter, maxIdle: nat, now: nat, events: seq<Event>, ip: IpAddr, b: Bucket)
    requires Tracks(l, ip, b, now) && InOrder(now, events)
    requires Earned(l.rate, maxIdle + 1) >= Whole(l.burst) || forall e :: e in events ==> e.Check?
    ensures AnswersTo(l, maxIdle, events, ip) == Answers(b, TimesOf(events, ip))
    decreases |events|
  {
    if events == [] {
    } else {
      var e := events[0];
      var l' := Step(l, maxIdle, e).0;
      if ip !in l.buckets {
        FillingLater(b, now, e.at);
      }
      if e.Check? && e.ip == ip {
        if ip !in l.buckets {
          FilledIsNew(b, l.rate, l.burst, e.at);
        }
        assert Tracks(l', ip, Consume(b, e.at).0, e.at);
        IsolatedRun(l', maxIdle, e.at, events[1..], ip, Consume(b, e.at).0);
        AnswersShift(b, e.at, TimesOf(events[1..], ip));
      } else {
        if ip in l.buckets && ip !in l'.buckets {
          StaleFills(b, l.rate, l.burst, maxIdle, e.at);
        }
        assert Tracks(l', ip, b, e.at);
        IsolatedRun(l', maxIdle, e.at, events[1..], ip, b);
        assert TimesOf(events, ip) == TimesOf(events[1..], ip);
      }
    }
  }

  /** Isolation: the answers to one address are those of a lone bucket run on its own requests,
      whatever other addresses do, as long as no bucket is evicted or eviction is invisible. */
  lemma Isolation(rate: u32, burst: u32, maxIdle: nat, events: seq<Event>, ip: IpAddr)
    requires InOrder(0, events)
    requires rate * (maxIdle + 1) >= Whole(burst) || forall e :: e in events ==> e.Check?
    ensures AnswersTo(NewLimiter(rate, burst), maxIdle, events, ip)
         == Answers(Full(rate, burst, 0), TimesOf(events, ip))
  {
    EarnedIsProduct(rate, maxIdle + 1);
    IsolatedRun(NewLimiter(rate, burst), maxIdle, 0, events, ip, Full(rate, burst, 0));
  }

  lemma {:induction false} TimesInOrder(now: nat, events: seq<Event>, ip: IpAddr)
    requires InOrder(now, events)
    ensures Ordered(TimesOf(events, ip))
    ensures forall i :: 0 <= i < |TimesOf(events, ip)| ==> now <= TimesOf(events, ip)[i]
    decreases |events|
  {
    if events == [] {
    } else {
      TimesInOrder(events[0].at, events[1..], ip);
    }
  }

  /** The window bound of one address in a run of many. */
  lemma WindowBoundOfAddress(rate: u32, burst: u32, maxIdle: nat, events: seq<Event>, ip: IpAddr, lo: nat, hi: nat)
    requires InOrder(0, events) && lo <= hi
    requires rate * (maxIdle + 1) >= Whole(burst) || forall e :: e in events ==> e.Check?
    ensures KeepsWindow(rate, burst, maxIdle, events, ip, lo, hi)
  {
    Isolation(rate, burst, maxIdle, events, ip);
    TimesInOrder(0, events, ip);
    WindowBound(rate, burst, 0, TimesOf(events, ip), lo, hi);
  }

  lemma {:induction false} InVolley(ip: IpAddr, at: nat, n: nat)
    ensures forall e :: e in Volley(ip, at, n) ==> e == Check(ip, at)
  {
    if n == 0 {
    } else {
      InVolley(ip, at, n - 1);
    }
  }

  lemma {:induction false} OneAddress(l: Limiter, maxIdle: nat, events: seq<Event>, ip: IpAddr, hi: nat)
    requires forall e :: e in events ==> e.at <= hi && (e.Check? ==> e.ip == ip)
    ensures AnswersTo(l, maxIdle, events, ip) == Run(l, maxIdle, events)
    ensures forall i :: 0 <= i < |TimesOf(events, ip)| ==> TimesOf(events, ip)[i] <= hi
    decreases |events|
  {
    if events == [] {
    } else {
      assert events[0] in events;
      OneAddress(Step(l, maxIdle, events[0]).0, maxIdle, events[1..], ip, hi);
    }
  }

  lemma {:induction false} AllPass(n: nat)
    ensures |Passes(n)| == n && forall i :: 0 <= i < n ==> Passes(n)[i]
  {
    if n == 0 {
    } else {
      AllPass(n - 1);
    }
  }

  /** An address that is evicted too early gets twice the burst. */
  lemma AbuseExceeds(rate: u32, burst: u32, maxIdle: nat)
    requires rate * (maxIdle + 1) < Whole(burst)
    ensures InOrder(0, Abuse(V4(0), burst, maxIdle))
    ensures !KeepsWindow(rate, burst, maxIdle, Abuse(V4(0), burst, maxIdle), V4(0), 0, maxIdle + 1)
  {
    var ip, later := V4(0), maxIdle + 1;
    var events, l := Abuse(ip, burst, maxIdle), NewLimiter(rate, burst);
    AbuseInOrder(ip, burst, maxIdle);
    AbusePasses(ip, rate, burst, maxIdle);
    InVolley(ip, 0, burst);
    InVolley(ip, later, burst);
    OneAddress(l, maxIdle, events, ip, later);
    AllPass(burst);
    AllInWindow(TimesOf(events, ip), AnswersTo(l, maxIdle, events, ip), 2 * burst, 0, later);
  }

  /** The window bound holds in every run, for every address and window, exactly when an idle bucket
      refills before it is stale. */
  lemma WindowBoundIff(rate: u32, burst: u32, maxIdle: nat)
    ensures (forall events, ip, lo: nat, hi: nat :: InOrder(0, events) && lo <= hi ==>
               KeepsWindow(rate, burst, maxIdle, events, ip, lo, hi))
       <==> rate * (maxIdle + 1) >= Whole(burst)
  {
    if rate * (maxIdle + 1) >= Whole(burst) {
      forall events, ip, lo: nat, hi: nat | InOrder(0, events) && lo <= hi
        ensures KeepsWindow(rate, burst, maxIdle, events, ip, lo, hi)
      {
        WindowBoundOfAddress(rate, burst, maxIdle, events, ip, lo, hi);
      }
    } else {
      AbuseExceeds(rate, burst, maxIdle);
    }
  }

  /** The same for the bound on every address in every window. */
  lemma WindowBoundInUse(rate: u32, burst: u32)
    ensures (forall events, ip, lo: nat, hi: nat :: InOrder(0, events) && lo <= hi ==>
               KeepsWindow(rate, burst, MAX_IDLE, events, ip, lo, hi))
       <==> rate * 300_000_000_001 >= burst * 1_000_000_000
  {
    WindowBoundIff(rate, burst, MAX_IDLE);
  }

  // ----- one address among many

  ghost predicate Isolated(rate: u32, burst: u32, maxIdle: nat, events: seq<Event>, ip: IpAddr) {
    AnswersTo(NewLimiter(rate, burst), maxIdle, events, ip) == Answers(Full(rate, burst, 0), TimesOf(events, ip))
  }

  /** Isolation holds in every run, for every address, on the same condition. */
  lemma IsolationIff(rate: u32, burst: u32, maxIdle: nat)
    ensures (forall events, ip :: InOrder(0, events) ==> Isolated(rate, burst, maxIdle, events, ip))
       <==> rate * (maxIdle + 1) >= Whole(burst)
  {
    if rate * (maxIdle + 1) >= Whole(burst) {
      forall events, ip | InOrder(0, events) ensures Isolated(rate, burst, maxIdle, events, ip) {
        Isolation(rate, burst, maxIdle, events, ip);
      }
    } else {
      var events, ip := Abuse(V4(0), burst, maxIdle), V4(0);
      AbuseExceeds(rate, burst, maxIdle);
      TimesInOrder(0, events, ip);
      WindowBound(rate, burst, 0, TimesOf(events, ip), 0, maxIdle + 1);
      assert !Isolated(rate, burst, maxIdle, events, ip);
    }
  }
}
