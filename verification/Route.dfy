/** Routers built from configuration, and route matching: src/route.rs. */
module Route {
  import opened Primitives
  import opened Config
  import opened Balance
  import opened RoundRobin

  type Discovered = map<string, seq<Url>>

  // ----- keys

  function OrStar(pattern: Option<string>): string {
    if pattern.Some? then pattern.value else "*"
  }

  /** The key under which a route's limiter is filed. */
  function RouteKey(host: Option<string>, path: Option<string>): string {
    OrStar(host) + ":" + OrStar(path)
  }

  function KeyOf(route: RouteConfig): string {
    RouteKey(route.matchHost, route.matchPath)
  }

  /** The longer host is the shorter one, a colon, and what stands before a colon in the other path. */
  predicate ColonMoved(h: string, p: string, h': string, p': string) {
    |h| < |h'| && h'[..|h|] == h && h'[|h|] == ':' && p == h'[|h| + 1..] + ":" + p'
  }

  lemma LongerHost(h: string, p: string, h': string, p': string)
    requires |h| < |h'|
    ensures h + ":" + p == h' + ":" + p' <==> ColonMoved(h, p, h', p')
  {
    var key, key' := h + ":" + p, h' + ":" + p';
    assert key == h + (":" + p) && key' == h'[..|h|] + (h'[|h|..] + ":" + p');
    assert h == key[..|h|] && ":" + p == key[|h|..];
    assert h'[..|h|] == key'[..|h|] && h'[|h|..] + ":" + p' == key'[|h|..];
    assert h'[|h|..] + ":" + p' == [h'[|h|]] + (h'[|h| + 1..] + ":" + p');
    assert (":" + p)[1..] == p && ([h'[|h|]] + (h'[|h| + 1..] + ":" + p'))[1..] == h'[|h| + 1..] + ":" + p';
  }

  /** Two routes share a key exactly when host and path agree, an absent pattern read as a star, or when
      a colon of one host can be read as the one that separates host and path. */
  lemma KeysEqualIff(host: Option<string>, path: Option<string>, host': Option<string>, path': Option<string>)
    ensures var h, p, h', p' := OrStar(host), OrStar(path), OrStar(host'), OrStar(path');
      RouteKey(host, path) == RouteKey(host', path')
      <==> (h == h' && p == p') || ColonMoved(h, p, h', p') || ColonMoved(h', p', h, p)
  {
    var h, p, h', p' := OrStar(host), OrStar(path), OrStar(host'), OrStar(path');
    if |h| < |h'| {
      LongerHost(h, p, h', p');
    } else if |h'| < |h| {
      LongerHost(h', p', h, p);
    } else {
      var key, key' := h + ":" + p, h' + ":" + p';
      assert h == key[..|h|] && h' == key'[..|h|];
      assert p == key[|h| + 1..] && p' == key'[|h| + 1..];
    }
  }

  ghost predicate KeysDistinct(config: ProxyConfig) {
    forall i, j :: 0 <= i < j < |config.routes| ==> KeyOf(config.routes[i]) != KeyOf(config.routes[j])
  }

  /** The same host and path once an absent pattern is read as a star. */
  predicate SameUpToStars(a: RouteConfig, b: RouteConfig) {
    OrStar(a.matchHost) == OrStar(b.matchHost) && OrStar(a.matchPath) == OrStar(b.matchPath)
  }

  predicate SameUpToColon(a: RouteConfig, b: RouteConfig) {
    ColonMoved(OrStar(a.matchHost), OrStar(a.matchPath), OrStar(b.matchHost), OrStar(b.matchPath))
  }

  /** No colon of a host can be taken for the separator. */
  ghost predicate KeysReadable(config: ProxyConfig) {
    forall a, b :: a in config.routes && b in config.routes ==> !SameUpToColon(a, b)
  }

  /** Every route has a key of its own exactly when keys are readable and no two routes differ only in
      whether a star is written out. */
  lemma DistinctKeysIff(config: ProxyConfig)
    ensures KeysDistinct(config) <==>
      && KeysReadable(config)
      && forall i, j :: 0 <= i < j < |config.routes| ==> !SameUpToStars(config.routes[i], config.routes[j])
  {
    var routes := config.routes;
    forall i, j | 0 <= i < |routes| && 0 <= j < |routes|
      ensures KeyOf(routes[i]) == KeyOf(routes[j])
         <==> || SameUpToStars(routes[i], routes[j])
              || SameUpToColon(routes[i], routes[j]) || SameUpToColon(routes[j], routes[i])
    {
      KeysEqualIff(routes[i].matchHost, routes[i].matchPath, routes[j].matchHost, routes[j].matchPath);
    }
    if KeysDistinct(config) {
      forall a, b | a in routes && b in routes ensures !SameUpToColon(a, b) {
        var i, j :| 0 <= i < |routes| && 0 <= j < |routes| && routes[i] == a && routes[j] == b;
        assert i != j ==> KeyOf(routes[i]) != KeyOf(routes[j]);
      }
    }
  }

  predicate Colonless(route: RouteConfig) {
    ':' !in OrStar(route.matchHost)
  }

  /** No slash in the host, which may name a port, and a path that is a star or begins with a slash. */
  predicate Slashed(route: RouteConfig) {
    '/' !in OrStar(route.matchHost) && (OrStar(route.matchPath) == "*" || "/" <= OrStar(route.matchPath))
  }

  lemma SlashesDecide(h: string, p: string, h': string, p': string)
    requires '/' !in h' && (p == "*" || "/" <= p)
    ensures !ColonMoved(h, p, h', p')
  {
    if |h| < |h'| {
      var moved := h'[|h| + 1..] + ":" + p';
      assert moved[|h'| - |h| - 1] == ':';
      assert moved[0] == if |h'| == |h| + 1 then ':' else h'[|h| + 1];
    }
  }

  /** Keys are readable when hosts have no colon, and also when hosts have no slash and paths begin with
      one. */
  lemma ReadableWhenPlain(config: ProxyConfig)
    requires || (forall route :: route in config.routes ==> Colonless(route))
             || (forall route :: route in config.routes ==> Slashed(route))
    ensures KeysReadable(config)
  {
    forall a, b | a in config.routes && b in config.routes ensures !SameUpToColon(a, b) {
      if Slashed(a) && Slashed(b) {
        SlashesDecide(OrStar(a.matchHost), OrStar(a.matchPath), OrStar(b.matchHost), OrStar(b.matchPath));
      }
    }
  }

  predicate NoWrittenStar(route: RouteConfig) {
    route.matchHost != Some("*") && route.matchPath != Some("*")
  }

  /** So an acceptable configuration with readable keys that writes no lone star gives every route a key
      of its own. */
  lemma DistinctKeys(config: ProxyConfig, pagesExist: bool)
    requires Acceptable(config, pagesExist) && KeysReadable(config)
    requires forall route :: route in config.routes ==> NoWrittenStar(route)
    ensures KeysDistinct(config)
  {
    DistinctKeysIff(config);
    forall i, j | 0 <= i < j < |config.routes| ensures !SameUpToStars(config.routes[i], config.routes[j]) {
      assert !SameMatch(config.routes[i], config.routes[j]);
      assert config.routes[i] in config.routes && config.routes[j] in config.routes;
    }
  }

  function SimpleRoute(host: Option<string>, path: Option<string>, limit: Option<RateLimitConfig>): RouteConfig {
    var origin := OriginConfig(Url("http", "http://origin/"), None, None);
    RouteConfig(host, path, [PoolRef("pool", [origin])], LbAlgorithm.RoundRobin, limit)
  }

  function SimpleConfig(routes: seq<RouteConfig>): ProxyConfig {
    ProxyConfig(routes, None, PassiveHealth(true, 5, 2), None)
  }

  /** Two acceptable configurations in which routes share a key: an absent pattern beside a written star,
      and a colon that can be read as part of the host or of the path. */
  lemma KeysCanCollide()
    ensures var config := SimpleConfig([SimpleRoute(None, Some("/"), None), SimpleRoute(Some("*"), Some("/"), None)]);
      Acceptable(config, false) && !KeysDistinct(config)
    ensures var config := SimpleConfig([SimpleRoute(Some("a"), Some("b:c"), None),
                                        SimpleRoute(Some("a:b"), Some("c"), None)]);
      Acceptable(config, false) && !KeysDistinct(config)
  {
    var one := SimpleConfig([SimpleRoute(None, Some("/"), None), SimpleRoute(Some("*"), Some("/"), None)]);
    assert KeyOf(one.routes[0]) == KeyOf(one.routes[1]);
    var two := SimpleConfig([SimpleRoute(Some("a"), Some("b:c"), None), SimpleRoute(Some("a:b"), Some("c"), None)]);
    assert "a" + ":" + "b:c" == "a:b:c" == "a:b" + ":" + "c";
    assert KeyOf(two.routes[0]) == KeyOf(two.routes[1]);
  }

  // ----- candidates

  /** Drops every trailing slash. */
  function TrimSlashes(text: string): string {
    if text != "" && text[|text| - 1] == '/' then TrimSlashes(text[..|text| - 1]) else text
  }

  predicate EndsInSlash(text: string) {
    text != "" && text[|text| - 1] == '/'
  }

  /** `text` is `key` and then slashes only. */
  predicate SlashesAfter(text: string, key: string) {
    key <= text && forall i :: |key| <= i < |text| ==> text[i] == '/'
  }

  lemma {:induction false} TrimmedIff(text: string, key: string)
    ensures TrimSlashes(text) == key <==> !EndsInSlash(key) && SlashesAfter(text, key)
  {
    if !EndsInSlash(text) {
      assert |key| < |text| && SlashesAfter(text, key) ==> text[|text| - 1] == '/';
    } else {
      TrimmedIff(text[..|text| - 1], key);
      assert !EndsInSlash(key) && SlashesAfter(text, key) ==> key != text;
    }
  }

  /** States are filed under the full URL text, but the active checker looks for the trimmed text. What a
      probe of one origin finds is the state of another exactly when that one's text has no slash at its
      end and the probed text is the same with slashes after it. */
  lemma ProbeFindsIff(probed: Url, other: Url)
    ensures TrimSlashes(probed.text) == other.text
       <==> !EndsInSlash(other.text) && SlashesAfter(probed.text, other.text)
  {
    TrimmedIff(probed.text, other.text);
  }

  /** So it finds an origin under its own key exactly when the text does not end in a slash. */
  lemma ProbeFindsOwnKeyIff(url: Url)
    ensures TrimSlashes(url.text) == url.text <==> !EndsInSlash(url.text)
  {
    TrimmedIff(url.text, url.text);
  }

  /** Two origins, of which both probes report on the first. */
  lemma ProbeFindsNeighbour()
    ensures var first, second := Url("http", "http://h/a"), Url("http", "http://h/a/");
      TrimSlashes(first.text) == first.text && TrimSlashes(second.text) == first.text
  {
    TrimmedIff("http://h/a", "http://h/a");
    TrimmedIff("http://h/a/", "http://h/a");
  }

  function EndpointAt(url: Url, weight: Option<u32>, healthCheckPath: Option<string>): Endpoint {
    Endpoint(url, url.text, TrimSlashes(url.text), weight, healthCheckPath)
  }

  function Statics(origins: seq<OriginConfig>): seq<Endpoint> {
    if origins == [] then []
    else
      var last := origins[|origins| - 1];
      Statics(origins[..|origins| - 1]) + [EndpointAt(last.url, last.weight, last.healthCheckPath)]
  }

  function Extras(urls: seq<Url>): seq<Endpoint> {
    if urls == [] then [] else Extras(urls[..|urls| - 1]) + [EndpointAt(urls[|urls| - 1], None, None)]
  }

  function UrlsFor(pool: string, found: Discovered): seq<Url> {
    if pool in found then found[pool] else []
  }

  /** Configured candidates, pool by pool. */
  function PlainCandidates(pools: seq<PoolRef>): seq<Endpoint> {
    if pools == [] then []
    else PlainCandidates(pools[..|pools| - 1]) + Statics(pools[|pools| - 1].origins)
  }

  /** Configured candidates, each pool followed by what discovery has listed for it. */
  function Candidates(pools: seq<PoolRef>, found: Discovered): seq<Endpoint> {
    if pools == [] then []
    else
      var pool := pools[|pools| - 1];
      Candidates(pools[..|pools| - 1], found) + Statics(pool.origins) + Extras(UrlsFor(pool.name, found))
  }

  /** Everything discovery has listed for these pools. */
  function Added(pools: seq<PoolRef>, found: Discovered): seq<Endpoint> {
    if pools == [] then []
    else Added(pools[..|pools| - 1], found) + Extras(UrlsFor(pools[|pools| - 1].name, found))
  }

  // ----- routers

  /** The value of a route entry; `tickets` is its round-robin counter. */
  datatype Entry = Entry(matchHost: Option<string>, matchPath: Option<string>, key: string,
                         algorithm: LbAlgorithm, candidates: seq<Endpoint>, tickets: u64)

  function EntryFor(route: RouteConfig, candidates: seq<Endpoint>): Entry {
    Entry(route.matchHost, route.matchPath, KeyOf(route), route.lbAlgorithm, candidates, 0)
  }

  function PlainEntries(config: ProxyConfig): (entries: seq<Entry>)
    ensures |entries| == |config.routes|
  {
    seq(|config.routes|, i requires 0 <= i < |config.routes| =>
      EntryFor(config.routes[i], PlainCandidates(config.routes[i].pools)))
  }

  function Entries(config: ProxyConfig, found: Discovered): (entries: seq<Entry>)
    ensures |entries| == |config.routes|
  {
    seq(|config.routes|, i requires 0 <= i < |config.routes| =>
      EntryFor(config.routes[i], Candidates(config.routes[i].pools, found)))
  }

  datatype LoadBalancer =
    | Turns(balancer: RoundRobinBalancer)
    | ByLatency
    | ByMetrics

  datatype RouteEntry = RouteEntry(matchHost: Option<string>, matchPath: Option<string>, key: string,
                                   loadBalancer: LoadBalancer, candidates: seq<Endpoint>)

  function Footprint(lb: LoadBalancer): set<object> {
    match lb
    case Turns(balancer) => {balancer}
    case _ => {}
  }

  /** The entry has this value now. */
  ghost predicate Shows(e: RouteEntry, v: Entry)
    reads Footprint(e.loadBalancer)
  {
    && e.matchHost == v.matchHost && e.matchPath == v.matchPath && e.key == v.key && e.candidates == v.candidates
    && match e.loadBalancer {
       case Turns(balancer) => v.algorithm == LbAlgorithm.RoundRobin && balancer.counter == v.tickets
       case ByLatency => v.algorithm == WeightedLatency && v.tickets == 0
       case ByMetrics => v.algorithm == WeightedMetrics && v.tickets == 0
     }
  }

  function AllFootprints(routes: seq<RouteEntry>): set<object> {
    set i, o | 0 <= i < |routes| && o in Footprint(routes[i].loadBalancer) :: o
  }

  /** A router shows these values, and no two of its routes share a balancer. */
  ghost predicate RouterShows(routes: seq<RouteEntry>, values: seq<Entry>)
    reads AllFootprints(routes)
  {
    && |routes| == |values|
    && (forall i :: 0 <= i < |routes| ==> Shows(routes[i], values[i]))
    && (forall i, j :: 0 <= i < j < |routes| ==> Footprint(routes[i].loadBalancer) !! Footprint(routes[j].loadBalancer))
  }

  method NewBalancer(algorithm: LbAlgorithm) returns (lb: LoadBalancer)
    ensures fresh(Footprint(lb))
    ensures match lb {
      case Turns(balancer) => algorithm == LbAlgorithm.RoundRobin && balancer.counter == 0
      case ByLatency => algorithm == WeightedLatency
      case ByMetrics => algorithm == WeightedMetrics
    }
  {
    match algorithm {
      case RoundRobin =>
        var balancer := new RoundRobinBalancer();
        lb := Turns(balancer);
      case WeightedLatency => lb := ByLatency;
      case WeightedMetrics => lb := ByMetrics;
    }
  }

  method PushStatics(before: seq<Endpoint>, origins: seq<OriginConfig>) returns (candidates: seq<Endpoint>)
    ensures candidates == before + Statics(origins)
  {
    candidates := before;
    for j := 0 to |origins|
      invariant candidates == before + Statics(origins[..j])
    {
      var url := origins[j].url;
      candidates := candidates
        + [Endpoint(url, url.text, TrimSlashes(url.text), origins[j].weight, origins[j].healthCheckPath)];
      assert origins[..j + 1][..j] == origins[..j];
    }
    assert origins[..|origins|] == origins;
  }

  method PushExtras(before: seq<Endpoint>, urls: seq<Url>) returns (candidates: seq<Endpoint>)
    ensures candidates == before + Extras(urls)
  {
    candidates := before;
    for j := 0 to |urls|
      invariant candidates == before + Extras(urls[..j])
    {
      var url := urls[j];
      candidates := candidates + [Endpoint(url, url.text, TrimSlashes(url.text), None, None)];
      assert urls[..j + 1][..j] == urls[..j];
    }
    assert urls[..|urls|] == urls;
  }

  method StaticCandidatesOf(pools: seq<PoolRef>) returns (candidates: seq<Endpoint>)
    ensures candidates == PlainCandidates(pools)
  {
    candidates := [];
    for i := 0 to |pools|
      invariant candidates == PlainCandidates(pools[..i])
    {
      candidates := PushStatics(candidates, pools[i].origins);
      assert pools[..i + 1][..i] == pools[..i];
    }
    assert pools[..|pools|] == pools;
  }

  method CandidatesOf(pools: seq<PoolRef>, found: Discovered) returns (candidates: seq<Endpoint>)
    ensures candidates == Candidates(pools, found)
  {
    candidates := [];
    for i := 0 to |pools|
      invariant candidates == Candidates(pools[..i], found)
    {
      candidates := PushStatics(candidates, pools[i].origins);
      if pools[i].name in found {
        candidates := PushExtras(candidates, found[pools[i].name]);
      }
      assert pools[..i + 1][..i] == pools[..i];
    }
    assert pools[..|pools|] == pools;
  }

  method Append(routes: seq<RouteEntry>, entry: RouteEntry, ghost values: seq<Entry>, ghost i: nat)
    returns (longer: seq<RouteEntry>)
    requires i < |values| && RouterShows(routes, values[..i]) && Shows(entry, values[i])
    requires Footprint(entry.loadBalancer) !! AllFootprints(routes)
    ensures longer == routes + [entry]
    ensures RouterShows(longer, values[..i + 1])
    ensures AllFootprints(longer) == AllFootprints(routes) + Footprint(entry.loadBalancer)
  {
    longer := routes + [entry];
    assert forall k :: 0 <= k < |routes| ==> longer[k] == routes[k];
    assert forall k :: 0 <= k < |routes| ==> Footprint(routes[k].loadBalancer) <= AllFootprints(routes);
    assert longer[|routes|] == entry;
  }

  method FromConfig(config: ProxyConfig) returns (routes: seq<RouteEntry>)
    ensures RouterShows(routes, PlainEntries(config))
    ensures fresh(AllFootprints(routes))
  {
    routes := [];
    for i := 0 to |config.routes|
      invariant RouterShows(routes, PlainEntries(config)[..i])
      invariant fresh(AllFootprints(routes))
    {
      var route := config.routes[i];
      var lb := NewBalancer(route.lbAlgorithm);
      var candidates := StaticCandidatesOf(route.pools);
      var entry := RouteEntry(route.matchHost, route.matchPath,
                              OrStar(route.matchHost) + ":" + OrStar(route.matchPath), lb, candidates);
      routes := Append(routes, entry, PlainEntries(config), i);
    }
  }

  method FromConfigWithK8s(config: ProxyConfig, found: Discovered) returns (routes: seq<RouteEntry>)
    ensures RouterShows(routes, Entries(config, found))
    ensures fresh(AllFootprints(routes))
  {
    routes := [];
    for i := 0 to |config.routes|
      invariant RouterShows(routes, Entries(config, found)[..i])
      invariant fresh(AllFootprints(routes))
    {
      var route := config.routes[i];
      var lb := NewBalancer(route.lbAlgorithm);
      var candidates := CandidatesOf(route.pools, found);
      var entry := RouteEntry(route.matchHost, route.matchPath,
                              OrStar(route.matchHost) + ":" + OrStar(route.matchPath), lb, candidates);
      routes := Append(routes, entry, Entries(config, found), i);
    }
  }

  // ----- what a router holds

  /** How many candidates the first `a` pools have, each with its origins and what was found for it. */
  function CountBefore(pools: seq<PoolRef>, found: Discovered, a: nat): nat
    requires a <= |pools|
  {
    if a == 0 then 0
    else
      var pool := pools[a - 1];
      CountBefore(pools, found, a - 1) + |pool.origins| + if pool.name in found then |found[pool.name]| else 0
  }

  /** The candidate is the origin at this URL: keyed by its text, and with no slash at the end of its base. */
  ghost predicate IsAt(c: Endpoint, url: Url) {
    && c.url == url && c.urlKey == url.text
    && !EndsInSlash(c.urlBase) && SlashesAfter(url.text, c.urlBase)
  }

  /** A configured candidate has the weight and the path of its origin. */
  ghost predicate IsOrigin(c: Endpoint, origin: OriginConfig) {
    IsAt(c, origin.url) && c.weight == origin.weight && c.healthCheckPath == origin.healthCheckPath
  }

  /** One that was found has neither. */
  ghost predicate IsFound(c: Endpoint, url: Url) {
    IsAt(c, url) && c.weight.None? && c.healthCheckPath.None?
  }

  /** The candidates from `at` on are these origins in order. */
  ghost predicate HoldsOrigins(candidates: seq<Endpoint>, at: nat, origins: seq<OriginConfig>) {
    at + |origins| <= |candidates| && forall j :: 0 <= j < |origins| ==> IsOrigin(candidates[at + j], origins[j])
  }

  ghost predicate HoldsFound(candidates: seq<Endpoint>, at: nat, urls: seq<Url>) {
    at + |urls| <= |candidates| && forall j :: 0 <= j < |urls| ==> IsFound(candidates[at + j], urls[j])
  }

  lemma {:induction false} StaticsHold(origins: seq<OriginConfig>)
    ensures |Statics(origins)| == |origins| && HoldsOrigins(Statics(origins), 0, origins)
  {
    if origins == [] {
    } else {
      StaticsHold(origins[..|origins| - 1]);
      TrimmedIff(origins[|origins| - 1].url.text, TrimSlashes(origins[|origins| - 1].url.text));
    }
  }

  lemma {:induction false} ExtrasHold(urls: seq<Url>)
    ensures |Extras(urls)| == |urls| && HoldsFound(Extras(urls), 0, urls)
  {
    if urls == [] {
    } else {
      ExtrasHold(urls[..|urls| - 1]);
      TrimmedIff(urls[|urls| - 1].text, TrimSlashes(urls[|urls| - 1].text));
    }
  }

  ghost predicate HoldsPool(candidates: seq<Endpoint>, pools: seq<PoolRef>, found: Discovered, a: nat)
    requires a < |pools|
  {
    var at, pool := CountBefore(pools, found, a), pools[a];
    && HoldsOrigins(candidates, at, pool.origins)
    && (pool.name in found ==> HoldsFound(candidates, at + |pool.origins|, found[pool.name]))
  }

  /** The candidates of the pools are, pool by pool in order, the configured origins with their settings and
      then what was found for the pool, and nothing else. */
  ghost predicate HoldsPools(candidates: seq<Endpoint>, pools: seq<PoolRef>, found: Discovered) {
    && |candidates| == CountBefore(pools, found, |pools|)
    && forall a :: 0 <= a < |pools| ==> HoldsPool(candidates, pools, found, a)
  }

  lemma {:induction false} CountOfPrefix(pools: seq<PoolRef>, found: Discovered, a: nat)
    requires pools != [] && a < |pools|
    ensures CountBefore(pools[..|pools| - 1], found, a) == CountBefore(pools, found, a)
  {
    if a == 0 {
    } else {
      CountOfPrefix(pools, found, a - 1);
    }
  }

  lemma HoldsWithin(before: seq<Endpoint>, part: seq<Endpoint>, after: seq<Endpoint>, at: nat,
                    origins: seq<OriginConfig>, urls: seq<Url>)
    ensures HoldsOrigins(part, at, origins) ==> HoldsOrigins(before + part + after, |before| + at, origins)
    ensures HoldsFound(part, at, urls) ==> HoldsFound(before + part + after, |before| + at, urls)
  {
    var all := before + part + after;
    assert forall k :: 0 <= k < |part| ==> part[k] == all[|before| + k];
    if HoldsOrigins(part, at, origins) {
      forall j | 0 <= j < |origins| ensures IsOrigin(all[|before| + at + j], origins[j]) {
        assert IsOrigin(part[at + j], origins[j]);
      }
    }
    if HoldsFound(part, at, urls) {
      forall j | 0 <= j < |urls| ensures IsFound(all[|before| + at + j], urls[j]) {
        assert IsFound(part[at + j], urls[j]);
      }
    }
  }

  lemma PoolStillHeld(candidates: seq<Endpoint>, pools: seq<PoolRef>, found: Discovered, more: seq<Endpoint>,
                      pool: PoolRef, a: nat)
    requires a < |pools| && HoldsPool(candidates, pools, found, a)
    ensures HoldsPool(candidates + more, pools + [pool], found, a)
  {
    var longer := pools + [pool];
    assert longer[..|longer| - 1] == pools;
    CountOfPrefix(longer, found, a);
    var at, name, origins := CountBefore(pools, found, a), pools[a].name, pools[a].origins;
    HoldsWithin([], candidates, more, at, origins, []);
    if name in found {
      HoldsWithin([], candidates, more, at + |origins|, [], found[name]);
    }
    assert [] + candidates + more == candidates + more;
  }

  lemma NextPoolHeld(candidates: seq<Endpoint>, pools: seq<PoolRef>, found: Discovered, pool: PoolRef)
    requires |candidates| == CountBefore(pools, found, |pools|)
    ensures var more := Statics(pool.origins) + Extras(UrlsFor(pool.name, found));
      && HoldsPool(candidates + more, pools + [pool], found, |pools|)
      && |candidates + more| == CountBefore(pools + [pool], found, |pools| + 1)
  {
    var longer, statics, extras := pools + [pool], Statics(pool.origins), Extras(UrlsFor(pool.name, found));
    assert longer[..|longer| - 1] == pools;
    CountOfPrefix(longer, found, |pools|);
    StaticsHold(pool.origins);
    ExtrasHold(UrlsFor(pool.name, found));
    hide IsOrigin, IsFound;
    HoldsWithin(candidates, statics, extras, 0, pool.origins, []);
    HoldsWithin(candidates + statics, extras, [], 0, [], UrlsFor(pool.name, found));
    assert candidates + statics + extras + [] == candidates + statics + extras == candidates + (statics + extras);
  }

  lemma HoldsMore(candidates: seq<Endpoint>, pools: seq<PoolRef>, found: Discovered, pool: PoolRef)
    requires HoldsPools(candidates, pools, found)
    ensures HoldsPools(candidates + (Statics(pool.origins) + Extras(UrlsFor(pool.name, found))), pools + [pool], found)
  {
    var more := Statics(pool.origins) + Extras(UrlsFor(pool.name, found));
    NextPoolHeld(candidates, pools, found, pool);
    hide HoldsPool, CountBefore, UrlsFor;
    forall a: nat | a < |pools| ensures HoldsPool(candidates + more, pools + [pool], found, a) {
      PoolStillHeld(candidates, pools, found, more, pool, a);
    }
  }

  lemma {:induction false} CandidatesHold(pools: seq<PoolRef>, found: Discovered)
    ensures HoldsPools(Candidates(pools, found), pools, found)
    ensures HoldsPools(PlainCandidates(pools), pools, map[])
  {
    if pools == [] {
    } else {
      var front, pool := pools[..|pools| - 1], pools[|pools| - 1];
      CandidatesHold(front, found);
      assert pools == front + [pool];
      var extras := Extras(UrlsFor(pool.name, found));
      HoldsMore(Candidates(front, found), front, found, pool);
      assert Candidates(pools, found) == Candidates(front, found) + (Statics(pool.origins) + extras);
      HoldsMore(PlainCandidates(front), front, map[], pool);
      assert PlainCandidates(pools) == PlainCandidates(front) + (Statics(pool.origins) + []);
    }
  }

  /** The entry is the one that the route asks for. */
  ghost predicate IsEntryOf(e: Entry, route: RouteConfig, found: Discovered) {
    && e.matchHost == route.matchHost && e.matchPath == route.matchPath && e.algorithm == route.lbAlgorithm
    && e.tickets == 0
    && e.key == (match route.matchHost { case Some(h) => h case None => "*" }) + ":"
              + (match route.matchPath { case Some(q) => q case None => "*" })
    && HoldsPools(e.candidates, route.pools, found)
  }

  /** A router is, route by route, what its configuration asks for and discovery has found. */
  lemma RoutersHold(config: ProxyConfig, found: Discovered)
    ensures |PlainEntries(config)| == |Entries(config, found)| == |config.routes|
    ensures forall i :: 0 <= i < |config.routes| ==>
              && IsEntryOf(PlainEntries(config)[i], config.routes[i], map[])
              && IsEntryOf(Entries(config, found)[i], config.routes[i], found)
  {
    forall i | 0 <= i < |config.routes|
      ensures IsEntryOf(PlainEntries(config)[i], config.routes[i], map[])
      ensures IsEntryOf(Entries(config, found)[i], config.routes[i], found)
    {
      CandidatesHold(config.routes[i].pools, found);
    }
  }

  // ----- matching

  predicate StartsWith(value: string, prefix: string) {
    prefix <= value
  }

  predicate EndsWith(value: string, suffix: string) {
    |suffix| <= |value| && value[|value| - |suffix|..] == suffix
  }

  function Stars(pattern: string): nat {
    if pattern == "" then 0 else (if pattern[0] == '*' then 1 else 0) + Stars(pattern[1..])
  }

  function FirstStar(pattern: string): (k: nat)
    requires Stars(pattern) > 0
    ensures k < |pattern| && pattern[k] == '*' && '*' !in pattern[..k]
    ensures Stars(pattern[k + 1..]) == Stars(pattern) - 1
  {
    if pattern[0] == '*' then 0
    else
      var k := FirstStar(pattern[1..]);
      assert pattern[1..][k + 1..] == pattern[k + 2..];
      assert pattern[..k + 1] == [pattern[0]] + pattern[1..][..k];
      k + 1
  }

  /** The code's host test: a pattern with one star is a prefix and a suffix, tested apart; any other
      is compared as it stands. */
  predicate MatchGlob(value: string, pattern: string) {
    if pattern == "*" then true
    else if Stars(pattern) == 1 then
      var k := FirstStar(pattern);
      StartsWith(value, pattern[..k]) && EndsWith(value, pattern[k + 1..])
    else value == pattern
  }

  lemma {:induction false} StarsNoneIff(pattern: string)
    ensures Stars(pattern) == 0 <==> '*' !in pattern
  {
    if pattern == "" {
    } else {
      StarsNoneIff(pattern[1..]);
      assert pattern == [pattern[0]] + pattern[1..];
    }
  }

  lemma {:induction false} StarsSplit(pattern: string, k: nat)
    requires k < |pattern| && pattern[k] == '*'
    ensures Stars(pattern) == Stars(pattern[..k]) + 1 + Stars(pattern[k + 1..])
  {
    if k == 0 {
    } else {
      StarsSplit(pattern[1..], k - 1);
      assert pattern[1..][..k - 1] == pattern[..k][1..] && pattern[1..][k..] == pattern[k + 1..];
    }
  }

  /** What a glob means: each star stands for any text at all. */
  predicate Glob(value: string, pattern: string)
    decreases |value| + |pattern|
  {
    if pattern == "" then value == ""
    else if pattern[0] == '*' then Glob(value, pattern[1..]) || (value != "" && Glob(value[1..], pattern))
    else value != "" && value[0] == pattern[0] && Glob(value[1..], pattern[1..])
  }

  lemma {:induction false} GlobWithoutStar(value: string, pattern: string)
    requires Stars(pattern) == 0
    ensures Glob(value, pattern) <==> value == pattern
    decreases |pattern|
  {
    if pattern == "" || value == "" {
    } else {
      GlobWithoutStar(value[1..], pattern[1..]);
      assert value == [value[0]] + value[1..] && pattern == [pattern[0]] + pattern[1..];
    }
  }

  lemma {:induction false} GlobAfterStar(value: string, suffix: string)
    requires Stars(suffix) == 0
    ensures Glob(value, "*" + suffix) <==> EndsWith(value, suffix)
    decreases |value|
  {
    var pattern := "*" + suffix;
    assert pattern[1..] == suffix;
    GlobWithoutStar(value, suffix);
    if value == "" {
    } else {
      GlobAfterStar(value[1..], suffix);
      if |suffix| < |value| {
        assert value[1..][|value| - 1 - |suffix|..] == value[|value| - |suffix|..];
      }
    }
  }

  lemma FirstStarUnique(pattern: string, k: nat)
    requires Stars(pattern) > 0 && k < |pattern| && pattern[k] == '*' && '*' !in pattern[..k]
    ensures FirstStar(pattern) == k
  {
  }

  lemma {:induction false} GlobOneStar(value: string, pattern: string)
    requires Stars(pattern) == 1
    ensures var k := FirstStar(pattern);
      Glob(value, pattern) <==>
        |value| >= |pattern| - 1 && StartsWith(value, pattern[..k]) && EndsWith(value, pattern[k + 1..])
    decreases |pattern|
  {
    var k := FirstStar(pattern);
    if k == 0 {
      assert pattern == "*" + pattern[1..];
      GlobAfterStar(value, pattern[1..]);
    } else if value == "" || value[0] != pattern[0] {
    } else {
      var tail, rest := pattern[1..], value[1..];
      GlobOneStar(rest, tail);
      assert FirstStar(tail) == k - 1 by {
        FirstStarUnique(tail, k - 1);
      }
      var prefix, suffix := pattern[..k], pattern[k + 1..];
      assert tail[..k - 1] == prefix[1..] && tail[k..] == suffix;
      assert StartsWith(value, prefix) <==> StartsWith(rest, prefix[1..]);
      if |value| >= |pattern| - 1 {
        assert rest[|rest| - |suffix|..] == value[|value| - |suffix|..];
      }
    }
  }

  /** For a pattern with at most one star, the code accepts just what the glob means, except that it
      also accepts values too short to hold prefix and suffix side by side. */
  lemma MatchGlobIff(value: string, pattern: string)
    requires Stars(pattern) <= 1
    ensures Glob(value, pattern) <==> MatchGlob(value, pattern) && |value| + Stars(pattern) >= |pattern|
  {
    if Stars(pattern) == 0 {
      GlobWithoutStar(value, pattern);
    } else {
      GlobOneStar(value, pattern);
      if pattern == "*" {
        FirstStarUnique(pattern, 0);
      }
    }
  }

  predicate OverlapBy(prefix: string, suffix: string, m: nat) {
    0 < m <= |prefix| && m <= |suffix| && prefix[|prefix| - m..] == suffix[..m]
  }

  /** Some end of `prefix` is also a beginning of `suffix`, so a value can use it for both. */
  ghost predicate Overlap(prefix: string, suffix: string) {
    exists m: nat :: OverlapBy(prefix, suffix, m)
  }

  /** A value too short for both, yet with both, exists exactly when they overlap. */
  lemma ShortValueIffOverlap(prefix: string, suffix: string)
    ensures Overlap(prefix, suffix)
       <==> exists value :: |value| < |prefix| + |suffix| && StartsWith(value, prefix) && EndsWith(value, suffix)
  {
    if value :| |value| < |prefix| + |suffix| && StartsWith(value, prefix) && EndsWith(value, suffix) {
      var m := |prefix| + |suffix| - |value|;
      assert prefix == value[..|prefix|];
      assert prefix[|prefix| - m..] == value[|prefix| - m..|prefix|] == suffix[..m];
      assert OverlapBy(prefix, suffix, m);
    }
    if m: nat :| OverlapBy(prefix, suffix, m) {
      var value := prefix + suffix[m..];
      assert value[|value| - |suffix|..] == prefix[|prefix| - m..] + suffix[m..] == suffix;
      assert StartsWith(value, prefix) && EndsWith(value, suffix);
    }
  }

  lemma {:induction false} GlobSelf(text: string)
    ensures Glob(text, text)
  {
    if text == "" {
    } else {
      GlobSelf(text[1..]);
      assert text[0] == '*' ==> Glob(text[1..], text);
    }
  }

  /** A star may stand for nothing. */
  lemma {:induction false} GlobWithoutFirst(pattern: string)
    requires Stars(pattern) > 0
    ensures var k := FirstStar(pattern); Glob(pattern[..k] + pattern[k + 1..], pattern)
  {
    var k := FirstStar(pattern);
    var value := pattern[..k] + pattern[k + 1..];
    if k == 0 {
      GlobSelf(pattern[1..]);
      assert value == pattern[1..];
    } else {
      GlobWithoutFirst(pattern[1..]);
      FirstStarUnique(pattern[1..], k - 1);
      assert value[1..] == pattern[1..][..k - 1] + pattern[1..][k..];
    }
  }

  predicate FaithfulAt(value: string, pattern: string) {
    MatchGlob(value, pattern) <==> Glob(value, pattern)
  }

  /** Patterns the code reads as globs: no star, or one star whose two sides do not overlap. */
  ghost predicate Faithful(pattern: string) {
    || Stars(pattern) == 0
    || (Stars(pattern) == 1 && !Overlap(pattern[..FirstStar(pattern)], pattern[FirstStar(pattern) + 1..]))
  }

  /** The code agrees with the glob on every host exactly for these patterns. */
  lemma FaithfulIff(pattern: string)
    ensures (forall value :: FaithfulAt(value, pattern)) <==> Faithful(pattern)
  {
    if Stars(pattern) <= 1 {
      forall value ensures FaithfulAt(value, pattern)
        <==> !(MatchGlob(value, pattern) && |value| + Stars(pattern) < |pattern|)
      {
        MatchGlobIff(value, pattern);
      }
    }
    if Stars(pattern) == 1 {
      var prefix, suffix := pattern[..FirstStar(pattern)], pattern[FirstStar(pattern) + 1..];
      ShortValueIffOverlap(prefix, suffix);
      if Overlap(prefix, suffix) {
        var value :| |value| < |prefix| + |suffix| && StartsWith(value, prefix) && EndsWith(value, suffix);
        assert !FaithfulAt(value, pattern);
      }
    } else if Stars(pattern) > 1 {
      GlobWithoutFirst(pattern);
      var k := FirstStar(pattern);
      assert !FaithfulAt(pattern[..k] + pattern[k + 1..], pattern);
    }
  }

  lemma StarsOf(pattern: string)
    ensures Stars(pattern) == if pattern == "" then 0 else (if pattern[0] == '*' then 1 else 0) + Stars(pattern[1..])
  {
  }

  /** The two ways the code departs from globs: overlap with one star, and literal stars with two. */
  lemma MatchGlobDeparts()
    ensures MatchGlob("aba", "ab*ba") && !Glob("aba", "ab*ba")
    ensures !MatchGlob("axb", "a*b*") && Glob("axb", "a*b*")
  {
    var one, two := "ab*ba", "a*b*";
    assert Stars(one) == 1 by { StarsOf(one); }
    FirstStarUnique(one, 2);
    assert one[..2] == "ab" && one[3..] == "ba" && "aba"[1..] == "ba";
    MatchGlobIff("aba", one);
    assert Stars(two) == 2 by { StarsOf(two); }
    assert Glob("", "*") && Glob("", "");
    assert two[1..] == "*b*" && two[2..] == "b*" && "*b*"[1..] == "b*" && "b*"[1..] == "*" && "xb"[1..] == "b";
    assert Glob("b", "b*");
    assert Glob("b", "*b*");
    assert Glob("xb", "*b*");
  }

  predicate Accepts(host: Option<string>, path: Option<string>, reqHost: string, reqPath: string) {
    && (host.Some? ==> MatchGlob(reqHost, host.value))
    && (path.Some? ==> StartsWith(reqPath, path.value))
  }

  /** The first entry, from `i` on, that accepts the request. */
  function MatchFrom(entries: seq<Entry>, host: string, path: string, i: nat): (m: Option<nat>)
    requires i <= |entries|
    ensures m.Some? ==> i <= m.value < |entries|
    decreases |entries| - i
  {
    if i == |entries| then None
    else if Accepts(entries[i].matchHost, entries[i].matchPath, host, path) then Some(i)
    else MatchFrom(entries, host, path, i + 1)
  }

  function MatchIndex(entries: seq<Entry>, host: string, path: string): Option<nat> {
    MatchFrom(entries, host, path, 0)
  }

  /** The entry's host pattern, if it has one, passes the host test, and its path, if it has one, is how the
      request's path begins. */
  ghost predicate Takes(e: Entry, host: string, path: string) {
    && (e.matchHost.Some? ==> MatchGlob(host, e.matchHost.value))
    && (e.matchPath.Some? ==>
          var start := e.matchPath.value; |start| <= |path| && path[..|start|] == start)
  }

  /** Entry `k` is the first from `i` on that takes the request. */
  ghost predicate FirstToTake(entries: seq<Entry>, host: string, path: string, i: nat, k: nat) {
    i <= k < |entries| && Takes(entries[k], host, path) && forall j :: i <= j < k ==> !Takes(entries[j], host, path)
  }

  /** A match is the first entry in order that takes the request, and none means that no entry does. */
  lemma {:induction false} MatchIsFirst(entries: seq<Entry>, host: string, path: string, i: nat)
    requires i <= |entries|
    ensures forall k: nat :: MatchFrom(entries, host, path, i) == Some(k) <==> FirstToTake(entries, host, path, i, k)
    ensures MatchFrom(entries, host, path, i).None? <==>
              forall j :: i <= j < |entries| ==> !Takes(entries[j], host, path)
    decreases |entries| - i
  {
    if i == |entries| {
    } else {
      MatchIsFirst(entries, host, path, i + 1);
      assert Accepts(entries[i].matchHost, entries[i].matchPath, host, path) <==> Takes(entries[i], host, path);
    }
  }

  /** The host test, pattern by pattern: one star asks for what stands before it at the beginning and what
      stands after it at the end; without a star, and with two or more, the host must equal the pattern. */
  lemma HostTestIs(host: string, pattern: string)
    ensures forall k: nat :: k < |pattern| && pattern[k] == '*' && '*' !in pattern[..k] && '*' !in pattern[k + 1..] ==>
              var before, after := pattern[..k], pattern[k + 1..];
              (MatchGlob(host, pattern) <==>
                 && |before| <= |host| && host[..|before|] == before
                 && |after| <= |host| && host[|host| - |after|..] == after)
    ensures '*' !in pattern ==> (MatchGlob(host, pattern) <==> host == pattern)
    ensures (exists i, j :: 0 <= i < j < |pattern| && pattern[i] == '*' && pattern[j] == '*') ==>
              (MatchGlob(host, pattern) <==> host == pattern)
  {
    StarsNoneIff(pattern);
    if k: nat :| k < |pattern| && pattern[k] == '*' && '*' !in pattern[..k] && '*' !in pattern[k + 1..] {
      StarsSplit(pattern, k);
      StarsNoneIff(pattern[..k]);
      StarsNoneIff(pattern[k + 1..]);
      FirstStarUnique(pattern, k);
    }
    if i, j :| 0 <= i < j < |pattern| && pattern[i] == '*' && pattern[j] == '*' {
      StarsSplit(pattern, i);
      assert pattern[i + 1..][j - i - 1] == '*';
      StarsNoneIff(pattern[i + 1..]);
    }
  }

  method MatchRoute(routes: seq<RouteEntry>, host: string, path: string, ghost values: seq<Entry>)
    returns (m: Option<nat>)
    requires RouterShows(routes, values)
    ensures m == MatchIndex(values, host, path)
    ensures forall k: nat :: m == Some(k) <==> FirstToTake(values, host, path, 0, k)
  {
    MatchIsFirst(values, host, path, 0);
    for i := 0 to |routes|
      invariant MatchIndex(values, host, path) == MatchFrom(values, host, path, i)
    {
      var route := routes[i];
      assert Shows(route, values[i]);
      var hostMatch := if route.matchHost.Some? then MatchGlob(host, route.matchHost.value) else true;
      if !hostMatch {
        continue;
      }
      var pathMatch := if route.matchPath.Some? then StartsWith(path, route.matchPath.value) else true;
      if pathMatch {
        return Some(i);
      }
    }
    return None;
  }

  /** Every host pattern is one that the code reads as a glob. */
  ghost predicate AllFaithful(entries: seq<Entry>) {
    forall i :: 0 <= i < |entries| && entries[i].matchHost.Some? ==> Faithful(entries[i].matchHost.value)
  }

  ghost predicate TakesByGlob(e: Entry, host: string, path: string) {
    && (e.matchHost.Some? ==> Glob(host, e.matchHost.value))
    && (e.matchPath.Some? ==>
          var start := e.matchPath.value; |start| <= |path| && path[..|start|] == start)
  }

  /** Then a match is the first entry whose glob fits the host and whose path begins the request's. */
  lemma MatchByGlob(entries: seq<Entry>, host: string, path: string)
    requires AllFaithful(entries)
    ensures forall k: nat :: MatchIndex(entries, host, path) == Some(k) <==>
              && k < |entries| && TakesByGlob(entries[k], host, path)
              && forall j :: 0 <= j < k ==> !TakesByGlob(entries[j], host, path)
  {
    forall i | 0 <= i < |entries| ensures TakesByGlob(entries[i], host, path) <==> Takes(entries[i], host, path) {
      if entries[i].matchHost.Some? {
        FaithfulIff(entries[i].matchHost.value);
        assert FaithfulAt(host, entries[i].matchHost.value);
      }
    }
    MatchIsFirst(entries, host, path, 0);
  }

  // ----- discovery and routing

  lemma {:induction false} MatchingIgnoresCandidates(a: seq<Entry>, b: seq<Entry>, host: string, path: string, i: nat)
    requires |a| == |b| && i <= |a|
    requires forall k :: 0 <= k < |a| ==> a[k].matchHost == b[k].matchHost && a[k].matchPath == b[k].matchPath
    ensures MatchFrom(a, host, path, i) == MatchFrom(b, host, path, i)
    decreases |a| - i
  {
    if i == |a| {
    } else {
      MatchingIgnoresCandidates(a, b, host, path, i + 1);
    }
  }

  /** `part` is `whole` with some elements left out. */
  ghost predicate Subsequence(part: seq<Endpoint>, whole: seq<Endpoint>) {
    if part == [] then true
    else whole != [] &&
         (Subsequence(part, whole[..|whole| - 1])
          || (part[|part| - 1] == whole[|whole| - 1] && Subsequence(part[..|part| - 1], whole[..|whole| - 1])))
  }

  lemma {:induction false} SubsequenceGrows(part: seq<Endpoint>, whole: seq<Endpoint>, both: seq<Endpoint>,
                                            more: seq<Endpoint>)
    requires Subsequence(part, whole)
    ensures Subsequence(part + both, whole + (both + more))
    decreases |both| + |more|
  {
    if more != [] {
      var fewer := more[..|more| - 1];
      SubsequenceGrows(part, whole, both, fewer);
      assert (whole + (both + more))[..|whole + (both + more)| - 1] == whole + (both + fewer);
    } else if both != [] {
      var fewer := both[..|both| - 1];
      SubsequenceGrows(part, whole, fewer, []);
      assert (whole + (both + more))[..|whole + (both + more)| - 1] == whole + (fewer + []);
      assert (part + both)[..|part + both| - 1] == part + fewer;
    } else {
      assert part + both == part && whole + (both + more) == whole;
    }
  }

  lemma AnotherPool(plain: seq<Endpoint>, all: seq<Endpoint>, added: seq<Endpoint>,
                    statics: seq<Endpoint>, extras: seq<Endpoint>)
    requires Subsequence(plain, all) && multiset(all) == multiset(plain) + multiset(added)
    ensures Subsequence(plain + statics, all + statics + extras)
    ensures multiset(all + statics + extras) == multiset(plain + statics) + multiset(added + extras)
  {
    SubsequenceGrows(plain, all, statics, extras);
    assert all + statics + extras == all + (statics + extras);
  }

  /** Discovery leaves the configured candidates in order, and adds exactly what it has listed. */
  lemma {:induction false} DiscoveryAddsOnly(pools: seq<PoolRef>, found: Discovered)
    ensures Subsequence(PlainCandidates(pools), Candidates(pools, found))
    ensures multiset(Candidates(pools, found)) == multiset(PlainCandidates(pools)) + multiset(Added(pools, found))
  {
    if pools == [] {
    } else {
      var front, pool := pools[..|pools| - 1], pools[|pools| - 1];
      DiscoveryAddsOnly(front, found);
      AnotherPool(PlainCandidates(front), Candidates(front, found), Added(front, found),
                  Statics(pool.origins), Extras(UrlsFor(pool.name, found)));
    }
  }

  lemma {:induction false} NothingFoundNothingAdded(pools: seq<PoolRef>)
    ensures Candidates(pools, map[]) == PlainCandidates(pools)
  {
    if pools == [] {
    } else {
      NothingFoundNothingAdded(pools[..|pools| - 1]);
    }
  }

  /** Whatever discovery has found, requests are routed as the configuration alone would route them. */
  lemma DiscoveryPreservesRouting(config: ProxyConfig, found: Discovered, host: string, path: string)
    ensures MatchIndex(Entries(config, found), host, path) == MatchIndex(PlainEntries(config), host, path)
    ensures forall i :: 0 <= i < |config.routes| ==>
      && Entries(config, found)[i].key == PlainEntries(config)[i].key
      && Entries(config, found)[i].algorithm == PlainEntries(config)[i].algorithm
      && Subsequence(PlainEntries(config)[i].candidates, Entries(config, found)[i].candidates)
      && multiset(Entries(config, found)[i].candidates)
         == multiset(PlainEntries(config)[i].candidates) + multiset(Added(config.routes[i].pools, found))
    ensures Entries(config, map[]) == PlainEntries(config)
  {
    MatchingIgnoresCandidates(Entries(config, found), PlainEntries(config), host, path, 0);
    forall i | 0 <= i < |config.routes|
      ensures Subsequence(PlainCandidates(config.routes[i].pools), Candidates(config.routes[i].pools, found))
      ensures multiset(Candidates(config.routes[i].pools, found))
         == multiset(PlainCandidates(config.routes[i].pools)) + multiset(Added(config.routes[i].pools, found))
      ensures Entries(config, map[])[i] == PlainEntries(config)[i]
    {
      DiscoveryAddsOnly(config.routes[i].pools, found);
      NothingFoundNothingAdded(config.routes[i].pools);
    }
  }
}
