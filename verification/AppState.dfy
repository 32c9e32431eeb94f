/** The shared state as the program holds it, and the three passes over it: a request, a reload and a
    discovery event. Each method is one undisturbed pass; how passes interleave is the business of
    module Live. */
module AppState {
  import opened Primitives
  import opened Config
  import opened RateLimit
  import opened Route
  import opened Weighted
  import opened Proxy
  import opened Tables

  /** A published router: fixed routes whose balancers keep their own turns. */
  class Router {
    const routes: seq<RouteEntry>
    ghost var Values: seq<Entry>
    ghost const Repr: set<object>

    ghost predicate Valid()
      reads this, Repr
      ensures Valid() ==> this in Repr
    {
      this in Repr && this !in AllFootprints(routes) && AllFootprints(routes) <= Repr && RouterShows(routes, Values)
    }

    constructor (routes: seq<RouteEntry>, ghost values: seq<Entry>)
      requires RouterShows(routes, values)
      ensures Valid() && Values == values
      ensures fresh(Repr - AllFootprints(routes))
    {
      this.routes := routes;
      this.Values := values;
      this.Repr := {this} + AllFootprints(routes);
    }

    /** The first route that accepts the request, with its key and candidates. */
    method Match(host: string, path: string) returns (m: Option<nat>)
      requires Valid()
      ensures m == MatchIndex(Values, host, path)
      ensures forall k: nat :: m == Some(k) <==> FirstToTake(Values, host, path, 0, k)
      ensures |routes| == |Values|
      ensures m.Some? ==>
        && m.value < |routes|
        && routes[m.value].key == Values[m.value].key && routes[m.value].candidates == Values[m.value].candidates
    {
      m := MatchRoute(routes, host, path, Values);
      assert m.Some? ==> Shows(routes[m.value], Values[m.value]);
    }

    /** The choice route `i` makes among its candidates. */
    method Select(i: nat, origins: OriginMap, unit: Unit, fallback: nat) returns (chosen: Option<nat>)
      requires Valid() && i < |routes| && i < |Values|
      requires origins.Valid() && origins.Repr !! Repr
      modifies Repr
      ensures Valid()
      ensures chosen == Choose(old(Values)[i], origins.Contents, unit)
      ensures Values == old(Values)[i := DrawTicket(old(Values)[i])]
    {
      var e := routes[i];
      assert Shows(e, Values[i]);
      var draw := if e.candidates == [] then 0 else fallback % |e.candidates|;
      match e.loadBalancer {
        case Turns(balancer) =>
          assert e.loadBalancer == routes[i].loadBalancer && balancer in Footprint(routes[i].loadBalancer);
          assert {balancer} <= AllFootprints(routes);
          chosen := balancer.SelectOrigin(e.candidates, origins.states, origins.Contents);
          Values := Values[i := DrawTicket(Values[i])];
          forall j | 0 <= j < |routes| && j != i ensures Shows(routes[j], Values[j]) {
            assert old(Shows(routes[j], Values[j]));
          }
        case ByLatency => chosen := SelectByLatency(e.candidates, origins.states, origins.Contents, unit, draw);
        case ByMetrics => chosen := SelectByMetrics(e.candidates, origins.states, origins.Contents, unit, draw);
      }
    }
  }

  method AddEach(table: OriginMap, origins: seq<OriginConfig>)
    requires table.Valid()
    modifies table.Repr
    ensures table.Valid() && fresh(table.Repr - old(table.Repr))
    ensures table.Contents == AddStates(old(table.Contents), KeysOfOrigins(origins))
  {
    hide OriginMap.Valid, LimiterMap.Valid;
    for k := 0 to |origins|
      invariant table.Valid() && fresh(table.Repr - old(table.Repr))
      invariant table.Contents == AddStates(old(table.Contents), KeysOfOrigins(origins[..k]))
    {
      table.OrDefault(origins[k].url.text);
      AddInTwo(old(table.Contents), KeysOfOrigins(origins[..k]), {origins[k].url.text});
      assert origins[..k + 1][..k] == origins[..k];
    }
    assert origins[..|origins|] == origins;
  }

  method AddPoolStates(table: OriginMap, pools: seq<PoolRef>)
    requires table.Valid()
    modifies table.Repr
    ensures table.Valid() && fresh(table.Repr - old(table.Repr))
    ensures table.Contents == AddStates(old(table.Contents), KeysOfPools(pools))
  {
    hide OriginMap.Valid, LimiterMap.Valid;
    for j := 0 to |pools|
      invariant table.Valid() && fresh(table.Repr - old(table.Repr))
      invariant table.Contents == AddStates(old(table.Contents), KeysOfPools(pools[..j]))
    {
      AddEach(table, pools[j].origins);
      AddInTwo(old(table.Contents), KeysOfPools(pools[..j]), KeysOfOrigins(pools[j].origins));
      assert pools[..j + 1][..j] == pools[..j];
    }
    assert pools[..|pools|] == pools;
  }

  /** Gives every origin of these routes a state, unless it has one. */
  method AddOriginStates(table: OriginMap, routes: seq<RouteConfig>)
    requires table.Valid()
    modifies table.Repr
    ensures table.Valid() && fresh(table.Repr - old(table.Repr))
    ensures table.Contents == AddStates(old(table.Contents), KeysOfRoutes(routes))
  {
    hide OriginMap.Valid, LimiterMap.Valid;
    for i := 0 to |routes|
      invariant table.Valid() && fresh(table.Repr - old(table.Repr))
      invariant table.Contents == AddStates(old(table.Contents), KeysOfRoutes(routes[..i]))
    {
      ghost var before := table.Contents;
      AddPoolStates(table, routes[i].pools);
      AddInTwo(old(table.Contents), KeysOfRoutes(routes[..i]), KeysOfPools(routes[i].pools));
      assert routes[..i + 1][..i] == routes[..i];
    }
    assert routes[..|routes|] == routes;
  }

  /** Gives every discovered URL a state, unless it has one. */
  method AddFoundStates(table: OriginMap, found: Discovered)
    requires table.Valid()
    modifies table.Repr
    ensures table.Valid() && fresh(table.Repr - old(table.Repr))
    ensures table.Contents == AddStates(old(table.Contents), FoundKeys(found))
  {
    hide OriginMap.Valid, LimiterMap.Valid;
    var due := FoundKeys(found);
    ghost var added := {};
    while due != {}
      invariant added + due == FoundKeys(found)
      invariant table.Valid() && fresh(table.Repr - old(table.Repr))
      invariant table.Contents == AddStates(old(table.Contents), added)
      decreases due
    {
      var key :| key in due;
      table.OrDefault(key);
      AddInTwo(old(table.Contents), added, {key});
      due, added := due - {key}, added + {key};
    }
  }

  /** Enters the limiters of these routes, in order, into an empty table. */
  method FillLimiters(table: LimiterMap, routes: seq<RouteConfig>)
    requires table.Valid() && table.Contents == map[]
    modifies table.Repr
    ensures table.Valid() && fresh(table.Repr - old(table.Repr))
    ensures table.Contents == LimiterTable(routes, |routes|)
  {
    hide OriginMap.Valid, LimiterMap.Valid;
    for i := 0 to |routes|
      invariant table.Valid() && fresh(table.Repr - old(table.Repr))
      invariant table.Contents == LimiterTable(routes, i)
    {
      if routes[i].ratelimit.Some? {
        var key := OrStar(routes[i].matchHost) + ":" + OrStar(routes[i].matchPath);
        table.Insert(key, routes[i].ratelimit.value.rate, routes[i].ratelimit.value.burst);
      }
    }
  }

  method NewRouter(config: ProxyConfig) returns (router: Router)
    ensures router.Valid() && fresh(router.Repr) && router.Values == PlainEntries(config)
  {
    var routes := FromConfig(config);
    router := new Router(routes, PlainEntries(config));
  }

  method NewOrigins(routes: seq<RouteConfig>) returns (table: OriginMap)
    ensures table.Valid() && fresh(table.Repr) && table.Contents == AddStates(map[], KeysOfRoutes(routes))
  {
    table := new OriginMap();
    AddOriginStates(table, routes);
  }

  method NewLimiters(routes: seq<RouteConfig>) returns (table: LimiterMap)
    ensures table.Valid() && fresh(table.Repr) && table.Contents == LimiterTable(routes, |routes|)
  {
    table := new LimiterMap();
    FillLimiters(table, routes);
  }

  method NewGlobal(limit: Option<RateLimitConfig>) returns (global: RateLimiter?)
    ensures global == null <==> limit.None?
    ensures global != null ==> global.Valid() && fresh(global.Repr) && global.Value() == LimiterFor(limit.value)
  {
    global := null;
    if limit.Some? {
      global := new RateLimiter(limit.value.rate, limit.value.burst);
    }
  }

  class AppState {
    var config: ProxyConfig
    var router: Router
    const originStates: OriginMap
    const ratelimiter: RateLimiter?
    const routeRatelimiters: LimiterMap
    var passive: PassiveHealth
    ghost var Repr: set<object>

    ghost function GlobalParts(): set<object>
      reads this, ratelimiter
    {
      if ratelimiter == null then {} else ratelimiter.Repr
    }

    /** The parts are whole and share nothing. */
    ghost predicate Valid()
      reads this, Repr
    {
      && {this, router, originStates, routeRatelimiters} <= Repr
      && (ratelimiter != null ==> ratelimiter in Repr)
      && router.Repr <= Repr && originStates.Repr <= Repr && routeRatelimiters.Repr <= Repr && GlobalParts() <= Repr
      && this !in router.Repr + originStates.Repr + routeRatelimiters.Repr + GlobalParts()
      && router.Repr !! originStates.Repr !! routeRatelimiters.Repr !! GlobalParts()
      && router.Valid() && originStates.Valid() && routeRatelimiters.Valid()
      && (ratelimiter != null ==> ratelimiter.Valid())
    }

    /** What all of this amounts to. */
    ghost function View(): State
      requires Valid()
      reads this, Repr
    {
      State(config, router.Values, originStates.Contents,
            if ratelimiter == null then None else Some(ratelimiter.Value()), routeRatelimiters.Contents, passive)
    }

    constructor (config: ProxyConfig)
      ensures Valid() && fresh(Repr)
      ensures View() == Fresh(config)
    {
      hide OriginMap.Valid, LimiterMap.Valid, Router.Valid, RateLimiter.Valid;
      hide KeysOfRoutes, LimiterTable, PlainEntries, AddStates;
      var router := NewRouter(config);
      var origins := NewOrigins(config.routes);
      var global := NewGlobal(config.ratelimit);
      var limiters := NewLimiters(config.routes);
      this.config := config;
      this.router := router;
      this.originStates := origins;
      this.ratelimiter := global;
      this.routeRatelimiters := limiters;
      this.passive := config.passive;
      this.Repr := {this} + router.Repr + origins.Repr + limiters.Repr
                   + if global == null then {} else global.Repr;
    }

    // ----- one request

    method CheckLimits(key: string, ip: IpAddr, now: nat) returns (allowed: bool)
      requires Valid()
      modifies this`Repr, routeRatelimiters.Repr, GlobalParts()
      ensures Valid() && fresh(Repr - old(Repr))
      ensures (View(), allowed) == Admit(old(View()), key, ip, now)
    {
      hide OriginMap.Valid, LimiterMap.Valid, Router.Valid, RateLimiter.Valid;
      if key in routeRatelimiters.limiters {
        allowed := routeRatelimiters.Check(key, ip, now);
        Repr := Repr + routeRatelimiters.Repr;
      } else if ratelimiter != null {
        allowed := ratelimiter.Check(ip, now);
        Repr := Repr + ratelimiter.Repr;
      } else {
        allowed := true;
      }
    }

    /** Route, limit, choose, forward, record. What the world contributes comes with the request. */
    method HandleRequest(r: Request, spurious: nat) returns (response: Response)
      requires Valid()
      modifies Repr
      ensures Valid() && fresh(Repr - old(Repr))
      ensures (View(), response) == Serve(old(View()), r)
    {
      hide OriginMap.Valid, LimiterMap.Valid, Router.Valid, RateLimiter.Valid;
      hide MatchIndex, FirstToTake, Choose, RecordOutcome, DrawTicket, Admit;
      var m := router.Match(r.host, r.path);
      if m.None? {
        return NotFound;
      }
      var route := router.routes[m.value];
      var allowed := CheckLimits(route.key, r.ip, r.now);
      if !allowed {
        return RateLimited;
      }
      var chosen := router.Select(m.value, originStates, r.unit, r.fallback);
      if chosen.None? {
        return BadGateway;
      }
      ChoiceSound(old(View()).router[m.value], originStates.Contents, r.unit);
      var origin := route.candidates[chosen.value];
      originStates.Record(origin.urlKey, passive, r.nanos, spurious, r.outcome);
      return Forwarded(m.value, chosen.value, r.outcome);
    }

    // ----- one reload

    method PublishRouter(routes: seq<RouteEntry>, ghost values: seq<Entry>)
      requires Valid() && RouterShows(routes, values) && AllFootprints(routes) !! Repr
      modifies this`router, this`Repr
      ensures Valid() && Repr >= old(Repr) && fresh(Repr - old(Repr) - AllFootprints(routes))
      ensures View() == old(View()).(router := values)
    {
      hide OriginMap.Valid, LimiterMap.Valid, Router.Valid, RateLimiter.Valid;
      router := new Router(routes, values);
      Repr := Repr + router.Repr;
    }

    method RefillLimiters(routes: seq<RouteConfig>)
      requires Valid()
      modifies this`Repr, routeRatelimiters.Repr
      ensures Valid() && fresh(Repr - old(Repr))
      ensures View() == old(View()).(limiters := LimiterTable(routes, |routes|))
    {
      hide OriginMap.Valid, LimiterMap.Valid, Router.Valid, RateLimiter.Valid;
      routeRatelimiters.Clear();
      FillLimiters(routeRatelimiters, routes);
      Repr := Repr + routeRatelimiters.Repr;
    }

    method AddOrigins(routes: seq<RouteConfig>)
      requires Valid()
      modifies this`Repr, originStates.Repr
      ensures Valid() && fresh(Repr - old(Repr))
      ensures View() == old(View()).(states := AddStates(old(View()).states, KeysOfRoutes(routes)))
    {
      hide OriginMap.Valid, LimiterMap.Valid, Router.Valid, RateLimiter.Valid;
      AddOriginStates(originStates, routes);
      Repr := Repr + originStates.Repr;
    }

    method StorePassive(settings: PassiveHealth)
      requires Valid()
      modifies this`passive
      ensures Valid() && View() == old(View()).(passive := settings)
    {
      hide OriginMap.Valid, LimiterMap.Valid, Router.Valid, RateLimiter.Valid;
      passive := passive.(enabled := settings.enabled);
      passive := passive.(failureThreshold := settings.failureThreshold);
      passive := passive.(successThreshold := settings.successThreshold);
    }

    method SwapConfig(newConfig: ProxyConfig)
      requires Valid()
      modifies this`config
      ensures Valid() && View() == old(View()).(config := newConfig)
    {
      hide OriginMap.Valid, LimiterMap.Valid, Router.Valid, RateLimiter.Valid;
      config := newConfig;
    }

    method ReloadPass(newConfig: ProxyConfig)
      requires Valid()
      modifies Repr
      ensures Valid() && fresh(Repr - old(Repr))
      ensures View() == Reload(old(View()), newConfig)
    {
      hide OriginMap.Valid, LimiterMap.Valid, Router.Valid, RateLimiter.Valid;
      hide RouterShows, KeysOfRoutes, LimiterTable, PlainEntries, AddStates;
      var routes := FromConfig(newConfig);
      PublishRouter(routes, PlainEntries(newConfig));

      RefillLimiters(newConfig.routes);
      AddOrigins(newConfig.routes);

      StorePassive(newConfig.passive);
      SwapConfig(newConfig);
    }

    /** A parse error or a configuration the validator refuses changes nothing. */
    method AttemptReload(parsed: Option<ProxyConfig>, pagesExist: bool) returns (accepted: bool)
      requires Valid()
      modifies Repr
      ensures Valid() && fresh(Repr - old(Repr))
      ensures accepted <==> parsed.Some? && Acceptable(parsed.value, pagesExist)
      ensures View() == if accepted then Reload(old(View()), parsed.value) else old(View())
    {
      hide OriginMap.Valid, LimiterMap.Valid, Router.Valid, RateLimiter.Valid;
      accepted := false;
      if parsed.Some? {
        var valid := Validate(parsed.value, pagesExist);
        if valid.Ok? {
          accepted := true;
          ReloadPass(parsed.value);
        }
      }
    }

    // ----- one discovery event

    /** The pool's list is cleared before the new URL goes in, so a pool holds what came last. */
    method Discover(pool: string, url: Url, found: Discovered) returns (found': Discovered)
      requires Valid()
      modifies Repr
      ensures Valid() && fresh(Repr - old(Repr))
      ensures found' == found[pool := [url]]
      ensures View() == Rebuild(old(View()), found')
    {
      hide OriginMap.Valid, LimiterMap.Valid, Router.Valid, RateLimiter.Valid;
      var entry := if pool in found then found[pool] else [];
      entry := [];
      entry := entry + [url];
      found' := found[pool := entry];
      assert entry == [url];
      var routes := FromConfigWithK8s(config, found');
      PublishRouter(routes, Entries(config, found'));
      AddFoundStates(originStates, found');
      Repr := Repr + originStates.Repr;
    }
  }
}
