/** The proxy's shared state as a value, and what start-up, a request, a reload and a discovery event
    make of it: src/state.rs, src/server.rs, src/config/reload.rs, src/health/discovery.rs. */
module Proxy {
  import opened Primitives
  import opened Config
  import opened RateLimit
  import opened Origin
  import opened Balance
  import opened Route
  import RR = RoundRobin
  import opened Weighted

  datatype State = State(config: ProxyConfig, router: seq<Entry>, states: StateTable, global: Option<Limiter>,
                         limiters: map<string, Limiter>, passive: PassiveHealth)

  // ----- the keys of origin states

  function KeysOfOrigins(origins: seq<OriginConfig>): set<string> {
    if origins == [] then {}
    else KeysOfOrigins(origins[..|origins| - 1]) + {origins[|origins| - 1].url.text}
  }

  function KeysOfPools(pools: seq<PoolRef>): set<string> {
    if pools == [] then {} else KeysOfPools(pools[..|pools| - 1]) + KeysOfOrigins(pools[|pools| - 1].origins)
  }

  function KeysOfRoutes(routes: seq<RouteConfig>): set<string> {
    if routes == [] then {} else KeysOfRoutes(routes[..|routes| - 1]) + KeysOfPools(routes[|routes| - 1].pools)
  }

  function KeysOfUrls(urls: seq<Url>): set<string> {
    set i | 0 <= i < |urls| :: urls[i].text
  }

  function FoundKeys(found: Discovered): set<string> {
    set pool, key | pool in found && key in KeysOfUrls(found[pool]) :: key
  }

  lemma {:induction false} OriginKeyIff(origins: seq<OriginConfig>, key: string)
    ensures key in KeysOfOrigins(origins) <==> exists o :: o in origins && o.url.text == key
  {
    if origins == [] {
    } else {
      OriginKeyIff(origins[..|origins| - 1], key);
      assert origins == origins[..|origins| - 1] + [origins[|origins| - 1]];
    }
  }

  ghost predicate InPool(pool: PoolRef, key: string) {
    exists o :: o in pool.origins && o.url.text == key
  }

  lemma {:induction false} PoolKeyIff(pools: seq<PoolRef>, key: string)
    ensures key in KeysOfPools(pools) <==> exists pool :: pool in pools && InPool(pool, key)
  {
    if pools == [] {
    } else {
      PoolKeyIff(pools[..|pools| - 1], key);
      OriginKeyIff(pools[|pools| - 1].origins, key);
      assert key in KeysOfOrigins(pools[|pools| - 1].origins) <==> InPool(pools[|pools| - 1], key);
      assert pools == pools[..|pools| - 1] + [pools[|pools| - 1]];
    }
  }

  ghost predicate InRoute(route: RouteConfig, key: string) {
    exists pool :: pool in route.pools && InPool(pool, key)
  }

  /** The keys of a configuration are the texts of the URLs of its origins. */
  lemma {:induction false} RouteKeyIff(routes: seq<RouteConfig>, key: string)
    ensures key in KeysOfRoutes(routes) <==> exists route :: route in routes && InRoute(route, key)
  {
    if routes == [] {
    } else {
      RouteKeyIff(routes[..|routes| - 1], key);
      PoolKeyIff(routes[|routes| - 1].pools, key);
      assert key in KeysOfPools(routes[|routes| - 1].pools) <==> InRoute(routes[|routes| - 1], key);
      assert routes == routes[..|routes| - 1] + [routes[|routes| - 1]];
    }
  }

  /** Gives each of `keys` a new state unless it has one. */
  function AddStates(table: StateTable, keys: set<string>): StateTable {
    table + map key | key in keys && key !in table :: NEW
  }

  lemma AddInTwo(table: StateTable, a: set<string>, b: set<string>)
    ensures AddStates(AddStates(table, a), b) == AddStates(table, a + b)
  {
  }

  ghost predicate CandidatesWithin(candidates: seq<Endpoint>, keys: set<string>) {
    forall c :: c in candidates ==> c.urlKey in keys
  }

  lemma {:induction false} StaticsWithin(origins: seq<OriginConfig>)
    ensures CandidatesWithin(Statics(origins), KeysOfOrigins(origins))
  {
    if origins == [] {
    } else {
      StaticsWithin(origins[..|origins| - 1]);
    }
  }

  lemma {:induction false} ExtrasWithin(urls: seq<Url>)
    ensures CandidatesWithin(Extras(urls), KeysOfUrls(urls))
  {
    if urls == [] {
    } else {
      ExtrasWithin(urls[..|urls| - 1]);
      assert urls[|urls| - 1].text in KeysOfUrls(urls);
    }
  }

  lemma {:induction false} CandidatesHaveKeys(pools: seq<PoolRef>, found: Discovered)
    ensures CandidatesWithin(PlainCandidates(pools), KeysOfPools(pools))
    ensures CandidatesWithin(Candidates(pools, found), KeysOfPools(pools) + FoundKeys(found))
  {
    if pools == [] {
    } else {
      var pool := pools[|pools| - 1];
      CandidatesHaveKeys(pools[..|pools| - 1], found);
      StaticsWithin(pool.origins);
      ExtrasWithin(UrlsFor(pool.name, found));
    }
  }

  lemma {:induction false} RouteKeysWithin(routes: seq<RouteConfig>, i: nat)
    requires i < |routes|
    ensures KeysOfPools(routes[i].pools) <= KeysOfRoutes(routes)
  {
    if i == |routes| - 1 {
    } else {
      RouteKeysWithin(routes[..|routes| - 1], i);
    }
  }

  ghost predicate RouterWithin(router: seq<Entry>, keys: set<string>) {
    forall i :: 0 <= i < |router| ==> CandidatesWithin(router[i].candidates, keys)
  }

  lemma WithinMore(router: seq<Entry>, keys: set<string>, more: set<string>)
    requires RouterWithin(router, keys) && keys <= more
    ensures RouterWithin(router, more)
  {
    forall i, c | 0 <= i < |router| && c in router[i].candidates ensures c.urlKey in more {
      assert CandidatesWithin(router[i].candidates, keys);
    }
  }

  /** Every candidate of a router comes from the configuration or from discovery. */
  lemma RoutersHaveKeys(config: ProxyConfig, found: Discovered)
    ensures RouterWithin(PlainEntries(config), KeysOfRoutes(config.routes))
    ensures RouterWithin(Entries(config, found), KeysOfRoutes(config.routes) + FoundKeys(found))
  {
    forall i | 0 <= i < |config.routes|
      ensures CandidatesWithin(PlainEntries(config)[i].candidates, KeysOfRoutes(config.routes))
      ensures CandidatesWithin(Entries(config, found)[i].candidates, KeysOfRoutes(config.routes) + FoundKeys(found))
    {
      CandidatesHaveKeys(config.routes[i].pools, found);
      RouteKeysWithin(config.routes, i);
    }
  }

  // ----- start-up and its limiter table

  function LimiterFor(limit: RateLimitConfig): Limiter {
    NewLimiter(limit.rate, limit.burst)
  }

  /** The table after the first `k` routes have been entered in order. */
  function LimiterTable(routes: seq<RouteConfig>, k: nat): map<string, Limiter>
    requires k <= |routes|
  {
    if k == 0 then map[]
    else if routes[k - 1].ratelimit.Some?
    then LimiterTable(routes, k - 1)[KeyOf(routes[k - 1]) := LimiterFor(routes[k - 1].ratelimit.value)]
    else LimiterTable(routes, k - 1)
  }

  function Fresh(config: ProxyConfig): State {
    State(config, PlainEntries(config), AddStates(map[], KeysOfRoutes(config.routes)),
          if config.ratelimit.Some? then Some(LimiterFor(config.ratelimit.value)) else None,
          LimiterTable(config.routes, |config.routes|), config.passive)
  }

  /** Start-up gives every configured origin, and no other, a healthy state with nothing counted, and takes
      configuration and passive settings over as they are. */
  lemma FreshIs(config: ProxyConfig)
    ensures var p := Fresh(config);
      && (forall key :: key in p.states <==> exists route :: route in config.routes && InRoute(route, key))
      && (forall key :: key in p.states ==> p.states[key] == Stats(0, 0, 0, 0, 0, true))
      && p.config == config && p.passive == config.passive
  {
    forall key ensures key in Fresh(config).states <==> exists route :: route in config.routes && InRoute(route, key) {
      RouteKeyIff(config.routes, key);
    }
  }

  /** The table answers for route `i` with a limiter of its own rate and burst, or, if it has none,
      with nothing. */
  ghost predicate FindsOwn(table: map<string, Limiter>, route: RouteConfig) {
    match route.ratelimit
    case Some(limit) => KeyOf(route) in table && table[KeyOf(route)] == LimiterFor(limit)
    case None => KeyOf(route) !in table
  }

  lemma {:induction false} TableEntryFrom(routes: seq<RouteConfig>, k: nat, key: string)
    requires k <= |routes| && key in LimiterTable(routes, k)
    ensures exists j: nat :: j < k && KeyOf(routes[j]) == key && routes[j].ratelimit.Some?
              && LimiterTable(routes, k)[key] == LimiterFor(routes[j].ratelimit.value)
    decreases k
  {
    if routes[k - 1].ratelimit.Some? && KeyOf(routes[k - 1]) == key {
      assert LimiterTable(routes, k)[key] == LimiterFor(routes[k - 1].ratelimit.value);
    } else {
      TableEntryFrom(routes, k - 1, key);
    }
  }

  lemma {:induction false} TableHasLimited(routes: seq<RouteConfig>, k: nat, i: nat)
    requires i < k <= |routes| && routes[i].ratelimit.Some?
    ensures KeyOf(routes[i]) in LimiterTable(routes, k)
    decreases k
  {
    if i == k - 1 {
    } else {
      TableHasLimited(routes, k - 1, i);
    }
  }

  ghost predicate SameKeySameLimit(routes: seq<RouteConfig>) {
    forall i, j :: 0 <= i < |routes| && 0 <= j < |routes| && KeyOf(routes[i]) == KeyOf(routes[j]) ==>
      routes[i].ratelimit == routes[j].ratelimit
  }

  /** Every route finds its own limiter exactly when routes that share a key share their limits. */
  lemma OwnLimiterIff(config: ProxyConfig)
    ensures (forall i :: 0 <= i < |config.routes| ==> FindsOwn(Fresh(config).limiters, config.routes[i]))
       <==> SameKeySameLimit(config.routes)
  {
    var routes, n := config.routes, |config.routes|;
    var table := LimiterTable(routes, n);
    if SameKeySameLimit(routes) {
      forall i | 0 <= i < n ensures FindsOwn(table, routes[i]) {
        if routes[i].ratelimit.Some? {
          TableHasLimited(routes, n, i);
        }
        if KeyOf(routes[i]) in table {
          TableEntryFrom(routes, n, KeyOf(routes[i]));
        }
      }
    }
    if forall i :: 0 <= i < n ==> FindsOwn(table, routes[i]) {
      forall i, j | 0 <= i < n && 0 <= j < n && KeyOf(routes[i]) == KeyOf(routes[j])
        ensures routes[i].ratelimit == routes[j].ratelimit
      {
        assert FindsOwn(table, routes[i]) && FindsOwn(table, routes[j]);
      }
    }
  }

  /** Two acceptable routes with one key: the first answers, and finds the limiter of the second. */
  lemma OwnLimiterCanFail()
    ensures var limits := (RateLimitConfig(1, 1), RateLimitConfig(2, 2));
      var config := SimpleConfig([SimpleRoute(None, Some("/"), Some(limits.0)),
                                  SimpleRoute(Some("*"), Some("/"), Some(limits.1))]);
      var p := Fresh(config);
      && Acceptable(config, false)
      && MatchIndex(p.router, "host", "/") == Some(0)
      && !FindsOwn(p.limiters, config.routes[0])
      && p.router[0].key in p.limiters && p.limiters[p.router[0].key] == LimiterFor(limits.1)
  {
    var config := SimpleConfig([SimpleRoute(None, Some("/"), Some(RateLimitConfig(1, 1))),
                                SimpleRoute(Some("*"), Some("/"), Some(RateLimitConfig(2, 2)))]);
    assert KeyOf(config.routes[0]) == KeyOf(config.routes[1]);
    assert LimiterTable(config.routes, 2)[KeyOf(config.routes[1])] == LimiterFor(RateLimitConfig(2, 2));
  }

  /** At start-up, for an acceptable configuration with readable keys that writes no lone star, the route
      a request is matched to finds the limiter made from its own settings, or none if it has none. */
  lemma OwnLimiter(config: ProxyConfig, pagesExist: bool, host: string, path: string)
    requires Acceptable(config, pagesExist) && KeysReadable(config)
    requires forall route :: route in config.routes ==> NoWrittenStar(route)
    ensures var p := Fresh(config);
      var m := MatchIndex(p.router, host, path);
      m.Some? ==>
        && p.router[m.value].key == KeyOf(config.routes[m.value])
        && FindsOwn(p.limiters, config.routes[m.value])
  {
    DistinctKeys(config, pagesExist);
    assert SameKeySameLimit(config.routes) by {
      forall i, j | 0 <= i < |config.routes| && 0 <= j < |config.routes|
                    && KeyOf(config.routes[i]) == KeyOf(config.routes[j])
        ensures i == j
      {
      }
    }
    OwnLimiterIff(config);
  }

  // ----- one request

  type Unit = r: real | 0.0 <= r < 1.0

  datatype Outcome = Responded(status: nat) | Failed

  /** What arrives, and what the world contributes while it is handled: the clock at the limiter, the
      random draws, and the time and outcome of the forwarded request. */
  datatype Request = Request(host: string, path: string, ip: IpAddr, now: nat, unit: Unit, fallback: nat,
                             nanos: nat, outcome: Outcome)

  datatype Response =
    | NotFound
    | RateLimited
    | BadGateway
    | Forwarded(route: nat, candidate: nat, outcome: Outcome)

  predicate Succeeded(outcome: Outcome) {
    outcome.Responded? && !(500 <= outcome.status < 600)
  }

  /** The limiter of the route if there is one, else the global one if there is one. */
  function Admit(p: State, key: string, ip: IpAddr, now: nat): (State, bool) {
    if key in p.limiters then
      var (l, allowed) := p.limiters[key].Check(ip, now);
      (p.(limiters := p.limiters[key := l]), allowed)
    else if p.global.Some? then
      var (l, allowed) := p.global.value.Check(ip, now);
      (p.(global := Some(l)), allowed)
    else (p, true)
  }

  function Choose(e: Entry, table: StateTable, unit: Unit): Option<nat> {
    match e.algorithm
    case RoundRobin => RR.Pick(RR.Up(e.candidates, table), e.tickets)
    case WeightedLatency =>
      LatencyWeightsSound(e.candidates, table);
      Draw(LatencyWeights(e.candidates, table), unit)
    case WeightedMetrics =>
      MetricsWeightsSound(e.candidates, table);
      Draw(MetricsWeights(e.candidates, table), unit)
  }

  function DrawTicket(e: Entry): Entry {
    if e.algorithm.RoundRobin? && e.candidates != [] then e.(tickets := Succ64(e.tickets)) else e
  }

  /** Outcomes are recorded whether or not passive tracking is on; that decides the thresholds. */
  function RecordOutcome(s: Stats, passive: PassiveHealth, nanos: nat, outcome: Outcome): Stats {
    var s' := s.IncrementRequests().RecordLatency(nanos);
    if Succeeded(outcome)
    then s'.RecordSuccess(if passive.enabled then passive.successThreshold else DEFAULT_SUCCESS_THRESHOLD)
    else s'.RecordFailure(if passive.enabled then passive.failureThreshold else DEFAULT_FAILURE_THRESHOLD)
  }

  function RecordAt(p: State, key: string, nanos: nat, outcome: Outcome): State {
    if key in p.states
    then p.(states := p.states[key := RecordOutcome(p.states[key], p.passive, nanos, outcome)])
    else p
  }

  /** Which candidate a balancer may choose. Turn-taking passes over an origin that has no state; the
      weighted balancers give it a default weight. */
  predicate MayChoose(e: Entry, i: nat, table: StateTable)
    requires i < |e.candidates|
  {
    if e.algorithm.RoundRobin? then KnownHealthy(e.candidates[i].urlKey, table)
    else Eligible(e.candidates[i], table)
  }

  /** A balancer chooses something exactly when it may choose something, and then one it may. */
  lemma ChoiceSound(e: Entry, table: StateTable, unit: Unit)
    ensures Choose(e, table, unit).Some? <==> exists i: nat :: i < |e.candidates| && MayChoose(e, i, table)
    ensures Choose(e, table, unit).Some? ==>
      Choose(e, table, unit).value < |e.candidates| && MayChoose(e, Choose(e, table, unit).value, table)
  {
    match e.algorithm {
      case RoundRobin =>
        RR.PickSound(RR.Up(e.candidates, table), e.tickets);
        assert forall i: nat :: i < |e.candidates| ==> RR.Up(e.candidates, table)[i] == MayChoose(e, i, table);
      case _ =>
        WeightedChoice(e.candidates, table, unit);
        assert forall i: nat :: i < |e.candidates| ==> Eligible(e.candidates[i], table) == MayChoose(e, i, table);
    }
  }

  function Serve(p: State, r: Request): (result: (State, Response))
    ensures result.1.Forwarded? ==>
      result.1.route < |p.router| && result.1.candidate < |p.router[result.1.route].candidates|
  {
    var m := MatchIndex(p.router, r.host, r.path);
    if m.None? then (p, NotFound)
    else
      var e := p.router[m.value];
      var (admitted, allowed) := Admit(p, e.key, r.ip, r.now);
      if !allowed then (admitted, RateLimited)
      else
        ChoiceSound(e, admitted.states, r.unit);
        var chosen := Choose(e, admitted.states, r.unit);
        var drawn := admitted.(router := admitted.router[m.value := DrawTicket(e)]);
        if chosen.None? then (drawn, BadGateway)
        else
          (RecordAt(drawn, e.candidates[chosen.value].urlKey, r.nanos, r.outcome),
           Forwarded(m.value, chosen.value, r.outcome))
  }

  // ----- one accepted reload and one discovery event, undisturbed

  /** The global limiter stays as it was at start-up. */
  function Reload(p: State, config: ProxyConfig): State {
    State(config, PlainEntries(config), AddStates(p.states, KeysOfRoutes(config.routes)), p.global,
          LimiterTable(config.routes, |config.routes|), config.passive)
  }

  function Rebuild(p: State, found: Discovered): State {
    p.(router := Entries(p.config, found), states := AddStates(p.states, FoundKeys(found)))
  }

  /** A reload keeps every state and the global limiter as they are; new origins start with nothing counted, and
      router, route limiters, configuration and passive settings are those of a start-up. */
  lemma ReloadIs(p: State, config: ProxyConfig)
    ensures var p', q := Reload(p, config), Fresh(config);
      && (forall key :: key in p'.states <==>
            key in p.states || exists route :: route in config.routes && InRoute(route, key))
      && (forall key :: key in p'.states ==>
            p'.states[key] == if key in p.states then p.states[key] else Stats(0, 0, 0, 0, 0, true))
      && p'.global == p.global && p'.limiters == q.limiters && p'.router == q.router
      && p'.config == config && p'.passive == config.passive
  {
    forall key ensures key in KeysOfRoutes(config.routes) <==>
      exists route :: route in config.routes && InRoute(route, key)
    {
      RouteKeyIff(config.routes, key);
    }
  }

  ghost predicate WasFound(found: Discovered, key: string) {
    exists pool, i :: pool in found && 0 <= i < |found[pool]| && found[pool][i].text == key
  }

  lemma FoundKeyIff(found: Discovered, key: string)
    ensures key in FoundKeys(found) <==> WasFound(found, key)
  {
    if WasFound(found, key) {
      var pool, i :| pool in found && 0 <= i < |found[pool]| && found[pool][i].text == key;
      assert found[pool][i].text in KeysOfUrls(found[pool]);
    }
  }

  /** A discovery event changes the router and adds states for what was found, and nothing else. */
  lemma RebuildIs(p: State, found: Discovered)
    ensures var p' := Rebuild(p, found);
      && (forall key :: key in p'.states <==> key in p.states || WasFound(found, key))
      && (forall key :: key in p'.states ==>
            p'.states[key] == if key in p.states then p.states[key] else Stats(0, 0, 0, 0, 0, true))
      && p' == p.(router := Entries(p.config, found), states := p'.states)
  {
    forall key ensures key in FoundKeys(found) <==> WasFound(found, key) {
      FoundKeyIff(found, key);
    }
  }

  // ----- runs without active checks

  datatype Event =
    | Arrives(request: Request)
    | Reloads(config: ProxyConfig)
    | Discovers(pool: string, url: Url)

  datatype System = System(proxy: State, found: Discovered)

  function Step(s: System, e: Event): System {
    match e
    case Arrives(request) => s.(proxy := Serve(s.proxy, request).0)
    case Reloads(config) => s.(proxy := Reload(s.proxy, config))
    case Discovers(pool, url) =>
      var found := s.found[pool := [url]];
      System(Rebuild(s.proxy, found), found)
  }

  function Run(s: System, events: seq<Event>): System
    decreases |events|
  {
    if events == [] then s else Run(Step(s, events[0]), events[1..])
  }

  /** The key of the origin an event sends a request to, if it does. */
  function SentTo(s: System, e: Event): set<string> {
    if e.Arrives? && Serve(s.proxy, e.request).1.Forwarded? then
      var answer := Serve(s.proxy, e.request).1;
      {s.proxy.router[answer.route].candidates[answer.candidate].urlKey}
    else {}
  }

  function AllSentTo(s: System, events: seq<Event>): set<string>
    decreases |events|
  {
    if events == [] then {} else SentTo(s, events[0]) + AllSentTo(Step(s, events[0]), events[1..])
  }

  /** Every endpoint is keyed by its own URL. */
  ghost predicate KeyedByUrl(router: seq<Entry>) {
    forall i, c :: 0 <= i < |router| && c in router[i].candidates ==> c.urlKey == c.url.text
  }

  lemma {:induction false} StaticsKeyed(origins: seq<OriginConfig>)
    ensures forall c :: c in Statics(origins) ==> c.urlKey == c.url.text
  {
    if origins == [] {
    } else {
      StaticsKeyed(origins[..|origins| - 1]);
    }
  }

  lemma {:induction false} ExtrasKeyed(urls: seq<Url>)
    ensures forall c :: c in Extras(urls) ==> c.urlKey == c.url.text
  {
    if urls == [] {
    } else {
      ExtrasKeyed(urls[..|urls| - 1]);
    }
  }

  lemma {:induction false} BuiltCandidatesKeyed(pools: seq<PoolRef>, found: Discovered)
    ensures forall c :: c in PlainCandidates(pools) ==> c.urlKey == c.url.text
    ensures forall c :: c in Candidates(pools, found) ==> c.urlKey == c.url.text
  {
    if pools == [] {
    } else {
      BuiltCandidatesKeyed(pools[..|pools| - 1], found);
      StaticsKeyed(pools[|pools| - 1].origins);
      ExtrasKeyed(UrlsFor(pools[|pools| - 1].name, found));
    }
  }

  lemma BuiltRoutersKeyed(config: ProxyConfig, found: Discovered)
    ensures KeyedByUrl(PlainEntries(config)) && KeyedByUrl(Entries(config, found))
  {
    forall i | 0 <= i < |config.routes|
      ensures forall c :: c in PlainEntries(config)[i].candidates ==> c.urlKey == c.url.text
      ensures forall c :: c in Entries(config, found)[i].candidates ==> c.urlKey == c.url.text
    {
      BuiltCandidatesKeyed(config.routes[i].pools, found);
    }
  }

  lemma ServeSparesUnhealthy(p: State, r: Request, key: string)
    requires KeyedByUrl(p.router) && KnownUnhealthy(key, p.states)
    ensures var (p', answer) := Serve(p, r);
      && key in p'.states && p'.states[key] == p.states[key]
      && (answer.Forwarded? ==> p.router[answer.route].candidates[answer.candidate].urlKey != key)
  {
    var m := MatchIndex(p.router, r.host, r.path);
    if m.Some? {
      var e := p.router[m.value];
      ChoiceSound(e, p.states, r.unit);
      var chosen := Choose(e, p.states, r.unit);
      if chosen.Some? {
        assert e.candidates[chosen.value] in e.candidates;
        assert MayChoose(e, chosen.value, p.states);
      }
    }
  }

  lemma ServeKeepsCandidates(p: State, r: Request)
    ensures |Serve(p, r).0.router| == |p.router|
    ensures forall i :: 0 <= i < |p.router| ==> Serve(p, r).0.router[i].candidates == p.router[i].candidates
  {
  }

  /** Unhealthy is absorbing without probes: through any requests, reloads and discoveries, taken one
      at a time, an unhealthy origin is sent nothing and its counters, latency and flag stay put. */
  lemma {:induction false} UnhealthyAbsorbs(s: System, events: seq<Event>, key: string)
    requires KeyedByUrl(s.proxy.router) && KnownUnhealthy(key, s.proxy.states)
    ensures key !in AllSentTo(s, events)
    ensures var final := Run(s, events).proxy.states;
      key in final && final[key] == s.proxy.states[key]
    decreases |events|
  {
    if events == [] {
    } else {
      var s' := Step(s, events[0]);
      match events[0] {
        case Arrives(request) =>
          ServeSparesUnhealthy(s.proxy, request, key);
          ServeKeepsCandidates(s.proxy, request);
        case Reloads(config) => BuiltRoutersKeyed(config, map[]);
        case Discovers(pool, url) => BuiltRoutersKeyed(s.proxy.config, s'.found);
      }
      UnhealthyAbsorbs(s', events[1..], key);
    }
  }

  lemma {:induction false} RunKeepsKeys(s: System, events: seq<Event>)
    requires KeyedByUrl(s.proxy.router)
    ensures KeyedByUrl(Run(s, events).proxy.router)
    decreases |events|
  {
    if events == [] {
    } else {
      var s' := Step(s, events[0]);
      match events[0] {
        case Arrives(request) => ServeKeepsCandidates(s.proxy, request);
        case Reloads(config) => BuiltRoutersKeyed(config, map[]);
        case Discovers(pool, url) => BuiltRoutersKeyed(s.proxy.config, s'.found);
      }
      RunKeepsKeys(s', events[1..]);
    }
  }

  /** In particular from start-up: once any run has made an origin unhealthy, no later one uses it. */
  lemma UnhealthyAbsorbsFromStart(config: ProxyConfig, before: seq<Event>, after: seq<Event>, key: string)
    requires KnownUnhealthy(key, Run(System(Fresh(config), map[]), before).proxy.states)
    ensures var s := Run(System(Fresh(config), map[]), before);
      && key !in AllSentTo(s, after)
      && key in Run(s, after).proxy.states
      && Run(s, after).proxy.states[key] == s.proxy.states[key]
  {
    var s0 := System(Fresh(config), map[]);
    BuiltRoutersKeyed(config, map[]);
    RunKeepsKeys(s0, before);
    UnhealthyAbsorbs(Run(s0, before), after, key);
  }
}
