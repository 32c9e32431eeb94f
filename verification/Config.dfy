/** Configuration data and its validation: src/config/parser.rs. */
module Config {
  import opened Primitives

  datatype LbAlgorithm = RoundRobin | WeightedLatency | WeightedMetrics

  datatype OriginConfig = OriginConfig(url: Url, weight: Option<u32>, healthCheckPath: Option<string>)

  datatype PoolRef = PoolRef(name: string, origins: seq<OriginConfig>)

  datatype RateLimitConfig = RateLimitConfig(rate: u32, burst: u32)

  datatype RouteConfig = RouteConfig(matchHost: Option<string>, matchPath: Option<string>, pools: seq<PoolRef>,
                                     lbAlgorithm: LbAlgorithm, ratelimit: Option<RateLimitConfig>)

  datatype PassiveHealth = PassiveHealth(enabled: bool, failureThreshold: u32, successThreshold: u32)

  datatype ProxyConfig = ProxyConfig(routes: seq<RouteConfig>, ratelimit: Option<RateLimitConfig>,
                                     passive: PassiveHealth, errorPages: Option<string>)

  datatype ConfigError =
    | RouteHasNoPools(route: string)
    | PoolHasNoOrigins(route: string, pool: string)
    | InvalidOriginUrl(route: string, pool: string, origin: string, scheme: string)
    | HttpsNotSupported(route: string, pool: string, origin: string)
    | InvalidRateLimit
    | DuplicateRouteMatch(host: Option<string>, path: Option<string>)
    | ErrorPagesDirectoryNotFound(directory: string)

  function Decimal(n: nat): string {
    if n < 10 then ['0' + n as char] else Decimal(n / 10) + ['0' + (n % 10) as char]
  }

  function RouteName(route: RouteConfig, index: nat): string {
    if route.matchHost.Some? then route.matchHost.value
    else if route.matchPath.Some? then route.matchPath.value
    else "index-" + Decimal(index)
  }

  /** The number that these decimal digits write. */
  function NumberOf(digits: string): int {
    if digits == "" then 0 else 10 * NumberOf(digits[..|digits| - 1]) + (digits[|digits| - 1] as int - '0' as int)
  }

  lemma {:induction false} DecimalReads(n: nat)
    ensures Decimal(n) != "" && NumberOf(Decimal(n)) == n
    ensures forall i :: 0 <= i < |Decimal(n)| ==> '0' <= Decimal(n)[i] <= '9'
    ensures n > 0 ==> Decimal(n)[0] != '0'
  {
    if n < 10 {
      assert Decimal(n)[..0] == "";
    } else {
      DecimalReads(n / 10);
      assert Decimal(n)[..|Decimal(n)| - 1] == Decimal(n / 10);
    }
  }

  /** What an error calls a route: its host, or else its path, or else its number in decimal. */
  lemma RouteNameIs(route: RouteConfig, index: nat)
    ensures route.matchHost.Some? ==> RouteName(route, index) == route.matchHost.value
    ensures route.matchHost.None? && route.matchPath.Some? ==> RouteName(route, index) == route.matchPath.value
    ensures route.matchHost.None? && route.matchPath.None? ==>
      exists digits ::
        && RouteName(route, index) == "index-" + digits && digits != "" && NumberOf(digits) == index
        && (forall i :: 0 <= i < |digits| ==> '0' <= digits[i] <= '9') && (index > 0 ==> digits[0] != '0')
  {
    DecimalReads(index);
  }

  // ----- what is accepted

  predicate GoodLimit(limit: Option<RateLimitConfig>) {
    limit.Some? ==> limit.value.rate > 0 && limit.value.burst > 0
  }

  predicate GoodPool(pool: PoolRef) {
    pool.origins != [] && forall o :: o in pool.origins ==> o.url.scheme == "http"
  }

  predicate GoodRoute(route: RouteConfig) {
    && route.pools != []
    && (forall pool :: pool in route.pools ==> GoodPool(pool))
    && GoodLimit(route.ratelimit)
  }

  predicate SameMatch(a: RouteConfig, b: RouteConfig) {
    a.matchHost == b.matchHost && a.matchPath == b.matchPath
  }

  /** `pagesExist` says whether the directory of error pages, if one is named, is there. */
  ghost predicate Acceptable(config: ProxyConfig, pagesExist: bool) {
    && (forall i, j :: 0 <= i < j < |config.routes| ==> !SameMatch(config.routes[i], config.routes[j]))
    && (forall i :: 0 <= i < |config.routes| ==> GoodRoute(config.routes[i]))
    && GoodLimit(config.ratelimit)
    && (config.errorPages.Some? ==> pagesExist)
  }

  // ----- the first problem, in the order the validator looks

  function OriginProblem(name: string, pool: string, o: OriginConfig): Option<ConfigError> {
    if o.url.scheme == "http" then None
    else if o.url.scheme == "https" then Some(HttpsNotSupported(name, pool, o.url.text))
    else Some(InvalidOriginUrl(name, pool, o.url.text, o.url.scheme))
  }

  function OriginsProblem(name: string, pool: string, origins: seq<OriginConfig>): Option<ConfigError> {
    if origins == [] then None
    else
      var p := OriginProblem(name, pool, origins[0]);
      if p.Some? then p else OriginsProblem(name, pool, origins[1..])
  }

  function PoolsProblem(name: string, pools: seq<PoolRef>): Option<ConfigError> {
    if pools == [] then None
    else if pools[0].origins == [] then Some(PoolHasNoOrigins(name, pools[0].name))
    else
      var p := OriginsProblem(name, pools[0].name, pools[0].origins);
      if p.Some? then p else PoolsProblem(name, pools[1..])
  }

  predicate Repeats(routes: seq<RouteConfig>, i: nat)
    requires i < |routes|
  {
    exists j :: 0 <= j < i && routes[j].matchHost == routes[i].matchHost && routes[j].matchPath == routes[i].matchPath
  }

  predicate EmptyLimit(limit: Option<RateLimitConfig>) {
    limit.Some? && (limit.value.rate == 0 || limit.value.burst == 0)
  }

  function RouteProblem(routes: seq<RouteConfig>, i: nat): Option<ConfigError>
    requires i < |routes|
  {
    var route := routes[i];
    if Repeats(routes, i) then Some(DuplicateRouteMatch(route.matchHost, route.matchPath))
    else if route.pools == [] then Some(RouteHasNoPools(RouteName(route, i)))
    else
      var p := PoolsProblem(RouteName(route, i), route.pools);
      if p.Some? then p else if EmptyLimit(route.ratelimit) then Some(InvalidRateLimit) else None
  }

  function RoutesProblem(routes: seq<RouteConfig>, i: nat): Option<ConfigError>
    requires i <= |routes|
    decreases |routes| - i
  {
    if i == |routes| then None
    else
      var p := RouteProblem(routes, i);
      if p.Some? then p else RoutesProblem(routes, i + 1)
  }

  function FirstProblem(config: ProxyConfig, pagesExist: bool): Option<ConfigError> {
    var p := RoutesProblem(config.routes, 0);
    if p.Some? then p
    else if EmptyLimit(config.ratelimit) then Some(InvalidRateLimit)
    else if config.errorPages.Some? && !pagesExist then Some(ErrorPagesDirectoryNotFound(config.errorPages.value))
    else None
  }

  lemma {:induction false} NoOriginsProblemIff(name: string, pool: string, origins: seq<OriginConfig>)
    ensures OriginsProblem(name, pool, origins).None? <==> forall o :: o in origins ==> o.url.scheme == "http"
  {
    if origins == [] {
    } else {
      NoOriginsProblemIff(name, pool, origins[1..]);
      assert origins == [origins[0]] + origins[1..];
    }
  }

  lemma {:induction false} NoPoolsProblemIff(name: string, pools: seq<PoolRef>)
    ensures PoolsProblem(name, pools).None? <==> forall pool :: pool in pools ==> GoodPool(pool)
  {
    if pools == [] {
    } else {
      NoOriginsProblemIff(name, pools[0].name, pools[0].origins);
      NoPoolsProblemIff(name, pools[1..]);
      assert pools == [pools[0]] + pools[1..];
      assert PoolsProblem(name, pools).None? <==> GoodPool(pools[0]) && PoolsProblem(name, pools[1..]).None?;
    }
  }

  lemma {:induction false} NoRoutesProblemIff(routes: seq<RouteConfig>, i: nat)
    requires i <= |routes|
    ensures RoutesProblem(routes, i).None?
       <==> forall k: nat :: i <= k < |routes| ==> !Repeats(routes, k) && GoodRoute(routes[k])
    decreases |routes| - i
  {
    if i == |routes| {
    } else {
      NoPoolsProblemIff(RouteName(routes[i], i), routes[i].pools);
      NoRoutesProblemIff(routes, i + 1);
      assert RouteProblem(routes, i).None? <==> !Repeats(routes, i) && GoodRoute(routes[i]);
    }
  }

  /** The validator finds nothing exactly when the configuration is acceptable. */
  lemma AcceptedIff(config: ProxyConfig, pagesExist: bool)
    ensures FirstProblem(config, pagesExist).None? <==> Acceptable(config, pagesExist)
  {
    var routes := config.routes;
    NoRoutesProblemIff(routes, 0);
    if RoutesProblem(routes, 0).None? {
      forall i, j | 0 <= i < j < |routes| ensures !SameMatch(routes[i], routes[j]) {
        assert !Repeats(routes, j);
      }
    }
  }

  /** An earlier route asks for the same host and path. */
  ghost predicate RepeatsOne(routes: seq<RouteConfig>, i: nat)
    requires i < |routes|
  {
    exists j :: 0 <= j < i && SameMatch(routes[j], routes[i])
  }

  lemma RepeatsOneIff(routes: seq<RouteConfig>, i: nat)
    requires i < |routes|
    ensures RepeatsOne(routes, i) <==> Repeats(routes, i)
  {
    if j :| 0 <= j < i && SameMatch(routes[j], routes[i]) {
      assert routes[j].matchHost == routes[i].matchHost;
    }
    if j :| 0 <= j < i && routes[j].matchHost == routes[i].matchHost && routes[j].matchPath == routes[i].matchPath {
      assert SameMatch(routes[j], routes[i]);
    }
  }

  /** The error names something that is wrong with this origin, pool or route. */
  ghost predicate BlamesOrigin(name: string, pool: string, o: OriginConfig, e: ConfigError) {
    || (o.url.scheme == "https" && e == HttpsNotSupported(name, pool, o.url.text))
    || (o.url.scheme != "http" && o.url.scheme != "https"
        && e == InvalidOriginUrl(name, pool, o.url.text, o.url.scheme))
  }

  ghost predicate AllHttp(origins: seq<OriginConfig>, j: nat) {
    forall i: nat :: i < j && i < |origins| ==> origins[i].url.scheme == "http"
  }

  /** The first thing wrong with the pool: it is empty, or its first origin that is not plain HTTP. */
  ghost predicate BlamesPool(name: string, pool: PoolRef, e: ConfigError) {
    || (pool.origins == [] && e == PoolHasNoOrigins(name, pool.name))
    || exists j: nat ::
         j < |pool.origins| && AllHttp(pool.origins, j) && BlamesOrigin(name, pool.name, pool.origins[j], e)
  }

  ghost predicate PoolsGood(pools: seq<PoolRef>, a: nat) {
    forall b: nat :: b < a && b < |pools| ==> GoodPool(pools[b])
  }

  ghost predicate BlamesRoute(routes: seq<RouteConfig>, i: nat, e: ConfigError)
    requires i < |routes|
  {
    var route, name := routes[i], RouteName(routes[i], i);
    || (RepeatsOne(routes, i) && e == DuplicateRouteMatch(route.matchHost, route.matchPath))
    || (!RepeatsOne(routes, i) && route.pools == [] && e == RouteHasNoPools(name))
    || (!RepeatsOne(routes, i)
        && exists a: nat :: a < |route.pools| && PoolsGood(route.pools, a) && BlamesPool(name, route.pools[a], e))
    || (!RepeatsOne(routes, i) && route.pools != [] && PoolsGood(route.pools, |route.pools|)
        && !GoodLimit(route.ratelimit) && e == InvalidRateLimit)
  }

  lemma {:induction false} OriginsProblemBlames(name: string, pool: string, origins: seq<OriginConfig>)
    returns (j: nat)
    requires OriginsProblem(name, pool, origins).Some?
    ensures j < |origins| && AllHttp(origins, j)
    ensures BlamesOrigin(name, pool, origins[j], OriginsProblem(name, pool, origins).value)
  {
    if OriginProblem(name, pool, origins[0]).Some? {
      j := 0;
    } else {
      j := OriginsProblemBlames(name, pool, origins[1..]);
      assert forall i :: 0 < i < |origins| ==> origins[i] == origins[1..][i - 1];
      j := j + 1;
    }
  }

  lemma {:induction false} PoolsProblemBlames(name: string, pools: seq<PoolRef>) returns (a: nat)
    requires PoolsProblem(name, pools).Some?
    ensures a < |pools| && PoolsGood(pools, a) && BlamesPool(name, pools[a], PoolsProblem(name, pools).value)
  {
    var first := pools[0];
    if first.origins != [] && OriginsProblem(name, first.name, first.origins).None? {
      NoOriginsProblemIff(name, first.name, first.origins);
      a := PoolsProblemBlames(name, pools[1..]);
      assert forall i :: 0 < i < |pools| ==> pools[i] == pools[1..][i - 1];
      a := a + 1;
    } else {
      if first.origins != [] {
        var j := OriginsProblemBlames(name, first.name, first.origins);
      }
      a := 0;
    }
  }

  ghost predicate GoodBefore(routes: seq<RouteConfig>, k: nat) {
    forall i: nat :: i < k && i < |routes| ==> !RepeatsOne(routes, i) && GoodRoute(routes[i])
  }

  lemma {:induction false} RoutesProblemBlames(routes: seq<RouteConfig>, i: nat) returns (k: nat)
    requires i <= |routes| && RoutesProblem(routes, i).Some? && GoodBefore(routes, i)
    ensures k < |routes| && GoodBefore(routes, k) && BlamesRoute(routes, k, RoutesProblem(routes, i).value)
    decreases |routes| - i
  {
    NoPoolsProblemIff(RouteName(routes[i], i), routes[i].pools);
    RepeatsOneIff(routes, i);
    if RouteProblem(routes, i).Some? {
      k := i;
      if PoolsProblem(RouteName(routes[i], i), routes[i].pools).Some? {
        var a := PoolsProblemBlames(RouteName(routes[i], i), routes[i].pools);
      }
    } else {
      k := RoutesProblemBlames(routes, i + 1);
    }
  }

  /** A reported error is the first thing wrong with the first route that has anything wrong, or, when no
      route has, with the settings that are looked at last. */
  lemma ErrorIsReal(config: ProxyConfig, pagesExist: bool)
    requires FirstProblem(config, pagesExist).Some?
    ensures var e := FirstProblem(config, pagesExist).value;
      || (exists k: nat :: k < |config.routes| && GoodBefore(config.routes, k) && BlamesRoute(config.routes, k, e))
      || (GoodBefore(config.routes, |config.routes|) && !GoodLimit(config.ratelimit) && e == InvalidRateLimit)
      || (GoodBefore(config.routes, |config.routes|) && GoodLimit(config.ratelimit) && !pagesExist
          && config.errorPages.Some? && e == ErrorPagesDirectoryNotFound(config.errorPages.value))
  {
    NoRoutesProblemIff(config.routes, 0);
    if RoutesProblem(config.routes, 0).Some? {
      var k := RoutesProblemBlames(config.routes, 0);
    }
  }

  // ----- the validator

  function MatchKeys(routes: seq<RouteConfig>): (keys: seq<(Option<string>, Option<string>)>)
    ensures |keys| == |routes|
  {
    seq(|routes|, i requires 0 <= i < |routes| => (routes[i].matchHost, routes[i].matchPath))
  }

  method ValidateOrigins(name: string, pool: PoolRef) returns (r: Result<ConfigError>)
    ensures r == match OriginsProblem(name, pool.name, pool.origins) { case Some(e) => Err(e) case None => Ok }
  {
    for i := 0 to |pool.origins|
      invariant OriginsProblem(name, pool.name, pool.origins) == OriginsProblem(name, pool.name, pool.origins[i..])
    {
      var origin := pool.origins[i];
      if origin.url.scheme != "http" {
        if origin.url.scheme == "https" {
          return Err(HttpsNotSupported(name, pool.name, origin.url.text));
        } else {
          return Err(InvalidOriginUrl(name, pool.name, origin.url.text, origin.url.scheme));
        }
      }
      assert pool.origins[i..][1..] == pool.origins[i + 1..];
    }
    return Ok;
  }

  method ValidatePools(name: string, pools: seq<PoolRef>) returns (r: Result<ConfigError>)
    ensures r == match PoolsProblem(name, pools) { case Some(e) => Err(e) case None => Ok }
  {
    for i := 0 to |pools|
      invariant PoolsProblem(name, pools) == PoolsProblem(name, pools[i..])
    {
      if pools[i].origins == [] {
        return Err(PoolHasNoOrigins(name, pools[i].name));
      }
      var checked := ValidateOrigins(name, pools[i]);
      if checked.Err? {
        return checked;
      }
      assert pools[i..][1..] == pools[i + 1..];
    }
    return Ok;
  }

  lemma SeenIffRepeats(routes: seq<RouteConfig>, i: nat)
    requires i < |routes|
    ensures (routes[i].matchHost, routes[i].matchPath) in MatchKeys(routes)[..i] <==> Repeats(routes, i)
  {
    var keys := MatchKeys(routes);
    if Repeats(routes, i) {
      var j :| 0 <= j < i
        && routes[j].matchHost == routes[i].matchHost && routes[j].matchPath == routes[i].matchPath;
      assert keys[..i][j] == (routes[i].matchHost, routes[i].matchPath);
    }
    if (routes[i].matchHost, routes[i].matchPath) in keys[..i] {
      var j :| 0 <= j < i && keys[..i][j] == (routes[i].matchHost, routes[i].matchPath);
      assert routes[j].matchHost == routes[i].matchHost;
    }
  }

  /** Accepts exactly the acceptable configurations, and otherwise reports the first problem. */
  method Validate(config: ProxyConfig, pagesExist: bool) returns (r: Result<ConfigError>)
    ensures r.Ok? <==> Acceptable(config, pagesExist)
    ensures r.Err? ==> FirstProblem(config, pagesExist) == Some(r.error)
  {
    AcceptedIff(config, pagesExist);
    var seenMatches := [];
    for i := 0 to |config.routes|
      invariant seenMatches == MatchKeys(config.routes)[..i]
      invariant RoutesProblem(config.routes, 0) == RoutesProblem(config.routes, i)
    {
      var route := config.routes[i];
      var matchKey := (route.matchHost, route.matchPath);
      assert matchKey in seenMatches <==> Repeats(config.routes, i) by {
        SeenIffRepeats(config.routes, i);
      }
      if matchKey in seenMatches {
        return Err(DuplicateRouteMatch(route.matchHost, route.matchPath));
      }
      seenMatches := seenMatches + [matchKey];
      if route.pools == [] {
        return Err(RouteHasNoPools(RouteName(route, i)));
      }
      var checked := ValidatePools(RouteName(route, i), route.pools);
      if checked.Err? {
        return checked;
      }
      if route.ratelimit.Some? && (route.ratelimit.value.rate == 0 || route.ratelimit.value.burst == 0) {
        return Err(InvalidRateLimit);
      }
    }
    if config.ratelimit.Some? && (config.ratelimit.value.rate == 0 || config.ratelimit.value.burst == 0) {
      return Err(InvalidRateLimit);
    }
    if config.errorPages.Some? && !pagesExist {
      return Err(ErrorPagesDirectoryNotFound(config.errorPages.value));
    }
    return Ok;
  }
}
