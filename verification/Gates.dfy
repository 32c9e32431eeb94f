/** Which requests are turned away, from start-up until the first reload: each limiter answers just the requests
    it is there for, and each address as if it were alone. */
module Gates {
  import opened Primitives
  import opened Config
  import opened RateLimit
  import opened Route
  import opened Proxy
  import Conformance
  import Eviction

  /** One route's own limiter, or the global one, which is there for all routes that have none. */
  datatype Gate = Own(key: string) | Shared

  /** A request matched to a route with this key goes through this gate. */
  predicate Guards(p: State, gate: Gate, key: string) {
    match gate
    case Own(own) => key == own && own in p.limiters
    case Shared => key !in p.limiters && p.global.Some?
  }

  predicate Exists(p: State, gate: Gate) {
    match gate
    case Own(own) => own in p.limiters
    case Shared => p.global.Some?
  }

  function LimiterAt(p: State, gate: Gate): Limiter
    requires Exists(p, gate)
  {
    match gate
    case Own(own) => p.limiters[own]
    case Shared => p.global.value
  }

  /** The event is a request of `ip` that goes through this gate. */
  predicate Meets(p: State, e: Event, gate: Gate, ip: IpAddr) {
    && e.Arrives? && e.request.ip == ip
    && var m := MatchIndex(p.router, e.request.host, e.request.path);
       m.Some? && Guards(p, gate, p.router[m.value].key)
  }

  /** When the requests of `ip` that go through this gate arrive. */
  function Arrivals(s: System, events: seq<Event>, gate: Gate, ip: IpAddr): seq<nat>
    decreases |events|
  {
    if events == [] then []
    else (if Meets(s.proxy, events[0], gate, ip) then [events[0].request.now] else [])
         + Arrivals(Step(s, events[0]), events[1..], gate, ip)
  }

  /** Whether they are let through. */
  function LetThrough(s: System, events: seq<Event>, gate: Gate, ip: IpAddr): (d: seq<bool>)
    ensures |d| == |Arrivals(s, events, gate, ip)|
    decreases |events|
  {
    if events == [] then []
    else (if Meets(s.proxy, events[0], gate, ip) then [!Serve(s.proxy, events[0].request).1.RateLimited?] else [])
         + LetThrough(Step(s, events[0]), events[1..], gate, ip)
  }

  /** No reloads, and the clock does not go back. */
  predicate Plain(now: nat, events: seq<Event>)
    decreases |events|
  {
    events == [] ||
    match events[0]
    case Arrives(r) => now <= r.now && Plain(r.now, events[1..])
    case Reloads(_) => false
    case Discovers(_, _) => Plain(now, events[1..])
  }

  lemma ServeMovesGate(p: State, r: Request, gate: Gate)
    requires Exists(p, gate)
    ensures var p' := Serve(p, r).0;
      && Exists(p', gate) && p'.limiters.Keys == p.limiters.Keys && p'.global.Some? == p.global.Some?
      && var m := MatchIndex(p.router, r.host, r.path);
         if m.Some? && Guards(p, gate, p.router[m.value].key)
         then && LimiterAt(p', gate) == LimiterAt(p, gate).Check(r.ip, r.now).0
              && (Serve(p, r).1.RateLimited? <==> !LimiterAt(p, gate).Check(r.ip, r.now).1)
         else LimiterAt(p', gate) == LimiterAt(p, gate)
  {
  }

  /** The bucket that stands for `ip` after one more event. */
  function AfterEvent(p: State, e: Event, gate: Gate, ip: IpAddr, b: Bucket): Bucket {
    if Meets(p, e, gate, ip) then Consume(b, e.request.now).0 else b
  }

  function Later(e: Event, now: nat): nat {
    if e.Arrives? then e.request.now else now
  }

  lemma EventTracks(s: System, e: Event, gate: Gate, ip: IpAddr, b: Bucket, now: nat)
    requires Exists(s.proxy, gate) && Eviction.Tracks(LimiterAt(s.proxy, gate), ip, b, now)
    requires !e.Reloads? && now <= Later(e, now)
    ensures var p', b' := Step(s, e).proxy, AfterEvent(s.proxy, e, gate, ip, b);
      Exists(p', gate) && Eviction.Tracks(LimiterAt(p', gate), ip, b', Later(e, now))
    ensures Meets(s.proxy, e, gate, ip) ==>
      (Serve(s.proxy, e.request).1.RateLimited? <==> !Consume(b, e.request.now).1)
  {
    if e.Arrives? {
      ServeMovesGate(s.proxy, e.request, gate);
      hide Serve;
      var l := LimiterAt(s.proxy, gate);
      if ip !in l.buckets {
        Eviction.FillingLater(b, now, e.request.now);
        Eviction.FilledIsNew(b, l.rate, l.burst, e.request.now);
      }
    }
  }

  lemma {:induction false} RunTracks(s: System, events: seq<Event>, gate: Gate, ip: IpAddr, b: Bucket, now: nat)
    requires Exists(s.proxy, gate) && Plain(now, events)
    requires Eviction.Tracks(LimiterAt(s.proxy, gate), ip, b, now)
    ensures LetThrough(s, events, gate, ip) == Conformance.Answers(b, Arrivals(s, events, gate, ip))
    ensures forall i :: 0 <= i < |Arrivals(s, events, gate, ip)| ==> now <= Arrivals(s, events, gate, ip)[i]
    ensures Conformance.Ordered(Arrivals(s, events, gate, ip))
    decreases |events|
  {
    if events == [] {
    } else {
      var e, s', rest := events[0], Step(s, events[0]), events[1..];
      EventTracks(s, e, gate, ip, b, now);
      RunTracks(s', rest, gate, ip, AfterEvent(s.proxy, e, gate, ip, b), Later(e, now));
      hide Serve, Step, Exists, Eviction.Tracks, Plain, Consume, Conformance.Answers, LimiterAt, Guards;
      if Meets(s.proxy, e, gate, ip) {
        Eviction.AnswersShift(b, e.request.now, Arrivals(s', rest, gate, ip));
      } else {
        assert Arrivals(s, events, gate, ip) == Arrivals(s', rest, gate, ip);
        assert LetThrough(s, events, gate, ip) == LetThrough(s', rest, gate, ip);
      }
    }
  }

  /** The settings of the limiter at this gate: those of the last route entered under the key, or the global
      ones. */
  ghost predicate Settings(config: ProxyConfig, gate: Gate, limit: RateLimitConfig) {
    match gate
    case Own(key) =>
      exists i :: 0 <= i < |config.routes| && KeyOf(config.routes[i]) == key
                  && config.routes[i].ratelimit == Some(limit)
                  && forall j :: i < j < |config.routes| && KeyOf(config.routes[j]) == key ==>
                       config.routes[j].ratelimit.None?
    case Shared => config.ratelimit == Some(limit)
  }

  lemma {:induction false} TableLast(routes: seq<RouteConfig>, k: nat, i: nat)
    requires i < k <= |routes| && routes[i].ratelimit.Some?
    requires forall j :: i < j < k && KeyOf(routes[j]) == KeyOf(routes[i]) ==> routes[j].ratelimit.None?
    ensures var table, limit := LimiterTable(routes, k), routes[i].ratelimit.value;
      KeyOf(routes[i]) in table && table[KeyOf(routes[i])] == NewLimiter(limit.rate, limit.burst)
    decreases k
  {
    if i == k - 1 {
    } else {
      TableLast(routes, k - 1, i);
    }
  }

  lemma GateAtStart(config: ProxyConfig, gate: Gate, limit: RateLimitConfig)
    requires Settings(config, gate, limit)
    ensures Exists(Fresh(config), gate) && LimiterAt(Fresh(config), gate) == NewLimiter(limit.rate, limit.burst)
  {
    if gate.Own? {
      var i :| 0 <= i < |config.routes| && KeyOf(config.routes[i]) == gate.key
               && config.routes[i].ratelimit == Some(limit)
               && forall j :: i < j < |config.routes| && KeyOf(config.routes[j]) == gate.key ==>
                    config.routes[j].ratelimit.None?;
      TableLast(config.routes, |config.routes|, i);
    }
  }

  lemma GateIsBucket(config: ProxyConfig, events: seq<Event>, gate: Gate, ip: IpAddr, limit: RateLimitConfig)
    requires Settings(config, gate, limit) && Plain(0, events)
    ensures var s := System(Fresh(config), map[]);
      var times := Arrivals(s, events, gate, ip);
      && Conformance.Ordered(times)
      && LetThrough(s, events, gate, ip) == Conformance.Answers(Full(limit.rate, limit.burst, 0), times)
  {
    GateAtStart(config, gate, limit);
    var b := Full(limit.rate, limit.burst, 0);
    assert Eviction.SureToFill(b, 0);
    RunTracks(System(Fresh(config), map[]), events, gate, ip, b, 0);
  }

  /** `n` requests from one time to another are no more than the burst and what is earned in between, at a
      billion nanoseconds to the second. */
  ghost predicate Within(limit: RateLimitConfig, n: int, from: int, to: int) {
    n * 1_000_000_000 <= limit.burst * 1_000_000_000 + limit.rate * (to - from)
  }

  /** Until the first reload, whatever else is served and discovered: all requests of an address at one gate are
      let through exactly if any of them, from one to another, are no more than the burst and what the time
      between them earns. */
  lemma AllLetThroughIff(config: ProxyConfig, events: seq<Event>, gate: Gate, ip: IpAddr, limit: RateLimitConfig)
    requires Settings(config, gate, limit) && Plain(0, events)
    ensures var s := System(Fresh(config), map[]);
      var times, d := Arrivals(s, events, gate, ip), LetThrough(s, events, gate, ip);
      (forall k :: 0 <= k < |d| ==> d[k])
      <==> forall i, j :: 0 <= i <= j < |times| ==> Within(limit, j - i + 1, times[i], times[j])
  {
    hide Arrivals, LetThrough, Settings;
    var times := Arrivals(System(Fresh(config), map[]), events, gate, ip);
    GateIsBucket(config, events, gate, ip, limit);
    Conformance.ExactConformance(limit.rate, limit.burst, 0, times);
    forall i, j | 0 <= i <= j < |times|
      ensures Conformance.Conforms(limit.rate, limit.burst, times, i, j)
         <==> Within(limit, j - i + 1, times[i], times[j])
    {
    }
  }

  /** Request `k` and those let through among `i`, ..., `k - 1` are no more than that. */
  ghost predicate HasRoom(limit: RateLimitConfig, times: seq<nat>, d: seq<bool>, i: nat, k: nat)
    requires |d| == |times| && i <= k < |times|
  {
    Within(limit, Conformance.Count(d, i, k) + 1, times[i], times[k])
  }

  lemma HasRoomIff(limit: RateLimitConfig, times: seq<nat>, d: seq<bool>, i: nat, k: nat)
    requires |d| == |times| && i <= k < |times| && times[i] <= times[k]
    ensures HasRoom(limit, times, d, i, k) <==> Conformance.Fits(limit.rate, limit.burst, times, d, i, k)
  {
    EarnedIsProduct(limit.rate, times[k] - times[i]);
  }

  lemma BucketHasRoom(limit: RateLimitConfig, times: seq<nat>, k: nat)
    requires k < |times| && Conformance.Ordered(times)
    ensures var d := Conformance.Answers(Full(limit.rate, limit.burst, 0), times);
      d[k] <==> forall i :: 0 <= i <= k ==> HasRoom(limit, times, d, i, k)
  {
    hide HasRoom, Conformance.Fits;
    var d := Conformance.Answers(Full(limit.rate, limit.burst, 0), times);
    Conformance.ExactAnswer(limit.rate, limit.burst, 0, times, k);
    forall i | 0 <= i <= k
      ensures HasRoom(limit, times, d, i, k) <==> Conformance.Fits(limit.rate, limit.burst, times, d, i, k)
    {
      HasRoomIff(limit, times, d, i, k);
    }
  }

  /** And each single one exactly if every stretch of requests that ends with it has room for it beside those let
      through before. */
  lemma LetThroughIff(config: ProxyConfig, events: seq<Event>, gate: Gate, ip: IpAddr, limit: RateLimitConfig,
                      k: nat)
    requires Settings(config, gate, limit) && Plain(0, events)
    requires k < |Arrivals(System(Fresh(config), map[]), events, gate, ip)|
    ensures var s := System(Fresh(config), map[]);
      var times, d := Arrivals(s, events, gate, ip), LetThrough(s, events, gate, ip);
      d[k] <==> forall i :: 0 <= i <= k ==> HasRoom(limit, times, d, i, k)
  {
    hide *;
    GateIsBucket(config, events, gate, ip, limit);
    BucketHasRoom(limit, Arrivals(System(Fresh(config), map[]), events, gate, ip), k);
  }

  /** A request that meets no gate is never turned away. */
  lemma NoGateNoLimit(p: State, r: Request)
    requires forall gate :: !Meets(p, Arrives(r), gate, r.ip)
    ensures !Serve(p, r).1.RateLimited?
  {
    var m := MatchIndex(p.router, r.host, r.path);
    if m.Some? {
      var key := p.router[m.value].key;
      assert !Meets(p, Arrives(r), Own(key), r.ip) && !Meets(p, Arrives(r), Shared, r.ip);
    }
  }
}
