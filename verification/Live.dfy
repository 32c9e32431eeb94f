/** Live reconfiguration, one publication a step: the reload task of src/config/reload.rs and the
    discovery task of src/health/discovery.rs, running beside requests and bucket cleanup. */
module Live {
  import opened Primitives
  import opened Config
  import opened RateLimit
  import opened Route
  import opened Proxy
  import Eviction

  /** How far a reload has got. `RouterPublished` lasts while the old limiters are removed one by one. `due`
      are origin states still to be added, `k` counts what is done. */
  datatype ReloadTask =
    | NoReload
    | Validated(config: ProxyConfig)
    | RouterPublished(config: ProxyConfig)
    | Filling(config: ProxyConfig, k: nat)
    | AddingOrigins(config: ProxyConfig, due: set<string>)
    | SettingPassive(config: ProxyConfig, k: nat)

  datatype DiscoveryTask =
    | NoEvent
    | Noticed
    | Snapshot(seen: ProxyConfig)
    | AddingUrls(due: set<string>)

  datatype World = World(p: State, reload: ReloadTask, discovery: DiscoveryTask, found: Discovered)

  function Start(config: ProxyConfig): World {
    World(Fresh(config), NoReload, NoEvent, map[])
  }

  /** `key` is the limiter a task removes next or the origin state it adds next, when that is what it does.
      The last five steps are traffic and cleanup. */
  datatype Step =
    | Attempt(parsed: Option<ProxyConfig>, pagesExist: bool)
    | ReloadStep(key: string)
    | Notice(pool: string, url: Url)
    | DiscoveryStep(key: string)
    | Check(limiter: string, ip: IpAddr, at: nat)
    | Ticket(i: nat)
    | Record(origin: string, nanos: nat, outcome: Outcome)
    | CleanGlobal(visited: set<IpAddr>, at: nat)
    | CleanRoute(limiter: string, visited: set<IpAddr>, at: nat)

  predicate Accepted(step: Step) {
    step.Attempt? && step.parsed.Some? && FirstProblem(step.parsed.value, step.pagesExist).None?
  }

  predicate Enabled(l: World, step: Step) {
    match step
    case Attempt(_, _) => l.reload.NoReload?
    case ReloadStep(key) =>
      && !l.reload.NoReload?
      && (l.reload.RouterPublished? && l.p.limiters != map[] ==> key in l.p.limiters)
      && (l.reload.Filling? ==> l.reload.k <= |l.reload.config.routes|)
      && (l.reload.AddingOrigins? && l.reload.due != {} ==> key in l.reload.due)
    case Notice(_, _) => l.discovery.NoEvent?
    case DiscoveryStep(key) =>
      && !l.discovery.NoEvent?
      && (l.discovery.AddingUrls? && l.discovery.due != {} ==> key in l.discovery.due)
    case Ticket(i) => i < |l.p.router|
    case _ => true
  }

  function StepReload(l: World, key: string): World
    requires Enabled(l, ReloadStep(key))
  {
    var p := l.p;
    match l.reload
    case Validated(c) => l.(p := p.(router := PlainEntries(c)), reload := RouterPublished(c))
    case RouterPublished(c) =>
      if p.limiters == map[] then l.(reload := Filling(c, 0)) else l.(p := p.(limiters := p.limiters - {key}))
    case Filling(c, k) =>
      if k < |c.routes| then
        var route := c.routes[k];
        var limiters :=
          if route.ratelimit.Some? then p.limiters[KeyOf(route) := LimiterFor(route.ratelimit.value)] else p.limiters;
        l.(p := p.(limiters := limiters), reload := Filling(c, k + 1))
      else l.(reload := AddingOrigins(c, KeysOfRoutes(c.routes)))
    case AddingOrigins(c, due) =>
      if due == {} then l.(reload := SettingPassive(c, 0))
      else l.(p := p.(states := AddStates(p.states, {key})), reload := AddingOrigins(c, due - {key}))
    case SettingPassive(c, k) =>
      if k == 0 then
        l.(p := p.(passive := p.passive.(enabled := c.passive.enabled)), reload := SettingPassive(c, 1))
      else if k == 1 then
        l.(p := p.(passive := p.passive.(failureThreshold := c.passive.failureThreshold)),
           reload := SettingPassive(c, 2))
      else if k == 2 then
        l.(p := p.(passive := p.passive.(successThreshold := c.passive.successThreshold)),
           reload := SettingPassive(c, 3))
      else l.(p := p.(config := c), reload := NoReload)
  }

  function StepDiscovery(l: World, key: string): World
    requires Enabled(l, DiscoveryStep(key))
  {
    match l.discovery
    case Noticed => l.(discovery := Snapshot(l.p.config))
    case Snapshot(seen) =>
      l.(p := l.p.(router := Entries(seen, l.found)), discovery := AddingUrls(FoundKeys(l.found)))
    case AddingUrls(due) =>
      if due == {} then l.(discovery := NoEvent)
      else l.(p := l.p.(states := AddStates(l.p.states, {key})), discovery := AddingUrls(due - {key}))
  }

  function Apply(l: World, step: Step): World
    requires Enabled(l, step)
  {
    match step
    case Attempt(parsed, pagesExist) => if Accepted(step) then l.(reload := Validated(parsed.value)) else l
    case ReloadStep(key) => StepReload(l, key)
    case Notice(pool, url) => l.(found := l.found[pool := [url]], discovery := Noticed)
    case DiscoveryStep(key) => StepDiscovery(l, key)
    case Check(limiter, ip, at) => l.(p := Admit(l.p, limiter, ip, at).0)
    case Ticket(i) => l.(p := l.p.(router := l.p.router[i := DrawTicket(l.p.router[i])]))
    case Record(origin, nanos, outcome) => l.(p := RecordAt(l.p, origin, nanos, outcome))
    case CleanGlobal(visited, at) =>
      if l.p.global.None? then l
      else l.(p := l.p.(global := Some(l.p.global.value.Cleanup(visited, Eviction.MAX_IDLE, at))))
    case CleanRoute(limiter, visited, at) =>
      if limiter !in l.p.limiters then l
      else l.(p := l.p.(limiters :=
        l.p.limiters[limiter := l.p.limiters[limiter].Cleanup(visited, Eviction.MAX_IDLE, at)]))
  }

  ghost predicate Dropped(before: Limiter, after: Limiter, visited: set<IpAddr>, at: nat) {
    && after.rate == before.rate && after.burst == before.burst
    && (forall ip :: ip in after.buckets <==>
          ip in before.buckets && !(ip in visited && at > before.buckets[ip].lastUsed + 300_000_000_000))
    && (forall ip :: ip in after.buckets ==> after.buckets[ip] == before.buckets[ip])
  }

  /** A cleanup drops the buckets of the visited addresses that have not been used for more than 300 s, and
      touches nothing else. */
  lemma CleanupDrops(l: World, visited: set<IpAddr>, at: nat, key: string)
    ensures var l' := Apply(l, CleanGlobal(visited, at));
      && l' == l.(p := l.p.(global := l'.p.global)) && (l'.p.global.None? <==> l.p.global.None?)
      && (l.p.global.Some? ==> Dropped(l.p.global.value, l'.p.global.value, visited, at))
    ensures var l' := Apply(l, CleanRoute(key, visited, at));
      && l' == l.(p := l.p.(limiters := l'.p.limiters)) && l'.p.limiters.Keys == l.p.limiters.Keys
      && (forall other :: other in l.p.limiters && other != key ==> l'.p.limiters[other] == l.p.limiters[other])
      && (key in l.p.limiters ==> Dropped(l.p.limiters[key], l'.p.limiters[key], visited, at))
  {
  }

  predicate CanRun(l: World, steps: seq<Step>)
    decreases |steps|
  {
    steps == [] || (Enabled(l, steps[0]) && CanRun(Apply(l, steps[0]), steps[1..]))
  }

  function Run(l: World, steps: seq<Step>): World
    requires CanRun(l, steps)
    decreases |steps|
  {
    if steps == [] then l else Run(Apply(l, steps[0]), steps[1..])
  }

  // ----- every candidate has a state, or is about to

  /** Origin states that the reload in flight has still to add. */
  function ReloadDue(r: ReloadTask): set<string> {
    match r
    case RouterPublished(c) => KeysOfRoutes(c.routes)
    case Filling(c, _) => KeysOfRoutes(c.routes)
    case AddingOrigins(_, due) => due
    case _ => {}
  }

  function DiscoveryDue(d: DiscoveryTask): set<string> {
    if d.AddingUrls? then d.due else {}
  }

  ghost predicate Covered(l: World) {
    var have := l.p.states.Keys;
    && KeysOfRoutes(l.p.config.routes) <= have
    && RouterWithin(l.p.router, have + ReloadDue(l.reload) + DiscoveryDue(l.discovery))
    && (l.reload.AddingOrigins? ==> KeysOfRoutes(l.reload.config.routes) <= have + l.reload.due)
    && (l.reload.SettingPassive? ==> KeysOfRoutes(l.reload.config.routes) <= have)
    && (l.discovery.Snapshot? ==> KeysOfRoutes(l.discovery.seen.routes) <= have)
  }

  lemma TrafficKeepsCovered(l: World, step: Step)
    requires Covered(l) && Enabled(l, step)
    requires !step.ReloadStep? && !step.DiscoveryStep?
    ensures Covered(Apply(l, step))
  {
    var l' := Apply(l, step);
    assert l'.p.states.Keys == l.p.states.Keys;
    assert |l'.p.router| == |l.p.router|;
    forall i | 0 <= i < |l'.p.router| ensures l'.p.router[i].candidates == l.p.router[i].candidates {
    }
    var keys := l.p.states.Keys + ReloadDue(l.reload) + DiscoveryDue(l.discovery);
    forall i | 0 <= i < |l'.p.router| ensures CandidatesWithin(l'.p.router[i].candidates, keys) {
      assert CandidatesWithin(l.p.router[i].candidates, keys);
    }
    var keys' := l'.p.states.Keys + ReloadDue(l'.reload) + DiscoveryDue(l'.discovery);
    assert keys <= keys';
    WithinMore(l'.p.router, keys, keys');
  }

  lemma ReloadKeepsCovered(l: World, key: string)
    requires Covered(l) && Enabled(l, ReloadStep(key))
    ensures Covered(StepReload(l, key))
  {
    var l' := StepReload(l, key);
    var keys := l.p.states.Keys + ReloadDue(l.reload) + DiscoveryDue(l.discovery);
    var keys' := l'.p.states.Keys + ReloadDue(l'.reload) + DiscoveryDue(l'.discovery);
    if l.reload.Validated? {
      RoutersHaveKeys(l.reload.config, map[]);
      WithinMore(l'.p.router, KeysOfRoutes(l.reload.config.routes), keys');
    } else {
      assert keys <= keys';
      WithinMore(l'.p.router, keys, keys');
    }
  }

  lemma DiscoveryKeepsCovered(l: World, key: string)
    requires Covered(l) && Enabled(l, DiscoveryStep(key))
    ensures Covered(StepDiscovery(l, key))
  {
    var l' := StepDiscovery(l, key);
    var keys := l.p.states.Keys + ReloadDue(l.reload) + DiscoveryDue(l.discovery);
    var keys' := l'.p.states.Keys + ReloadDue(l'.reload) + DiscoveryDue(l'.discovery);
    if l.discovery.Snapshot? {
      RoutersHaveKeys(l.discovery.seen, l.found);
      WithinMore(l'.p.router, KeysOfRoutes(l.discovery.seen.routes) + FoundKeys(l.found), keys');
    } else {
      assert keys <= keys';
      WithinMore(l'.p.router, keys, keys');
    }
  }

  lemma {:induction false} CoveredThroughout(l: World, steps: seq<Step>)
    requires Covered(l) && CanRun(l, steps)
    ensures Covered(Run(l, steps))
    decreases |steps|
  {
    if steps == [] {
    } else {
      match steps[0] {
        case ReloadStep(key) => ReloadKeepsCovered(l, key);
        case DiscoveryStep(key) => DiscoveryKeepsCovered(l, key);
        case _ => TrafficKeepsCovered(l, steps[0]);
      }
      CoveredThroughout(Apply(l, steps[0]), steps[1..]);
    }
  }

  /** In every interleaving of reloads, discovery and traffic: each origin of the published
      configuration has a state; each router candidate has one or is due from a task in flight; so
      with both tasks idle every candidate has one. */
  lemma EveryCandidateHasState(config: ProxyConfig, steps: seq<Step>)
    requires CanRun(Start(config), steps)
    ensures var l := Run(Start(config), steps);
      && KeysOfRoutes(l.p.config.routes) <= l.p.states.Keys
      && RouterWithin(l.p.router, l.p.states.Keys + ReloadDue(l.reload) + DiscoveryDue(l.discovery))
      && (l.reload.NoReload? && l.discovery.NoEvent? ==> RouterWithin(l.p.router, l.p.states.Keys))
  {
    RoutersHaveKeys(config, map[]);
    WithinMore(PlainEntries(config), KeysOfRoutes(config.routes), Fresh(config).states.Keys);
    assert Covered(Start(config));
    CoveredThroughout(Start(config), steps);
    var l := Run(Start(config), steps);
    assert l.p.states.Keys + {} + {} == l.p.states.Keys;
  }

  ghost predicate RecordsFor(steps: seq<Step>, key: string) {
    exists step :: step in steps && step.Record? && step.origin == key
  }

  ghost predicate SameGlobal(one: Option<Limiter>, other: Option<Limiter>) {
    && (one.Some? <==> other.Some?)
    && (one.Some? ==> one.value.rate == other.value.rate && one.value.burst == other.value.burst)
  }

  /** Over any run, discovery and reloads included: origin states are never dropped, only outcomes
      recorded for an origin change its state, and the global limiter keeps the settings it started
      with. */
  lemma {:induction false} StatesOnlyGrow(l: World, steps: seq<Step>)
    requires CanRun(l, steps)
    ensures l.p.states.Keys <= Run(l, steps).p.states.Keys
    ensures forall key :: key in l.p.states && !RecordsFor(steps, key) ==>
              Run(l, steps).p.states[key] == l.p.states[key]
    ensures SameGlobal(Run(l, steps).p.global, l.p.global)
    decreases |steps|
  {
    if steps == [] {
    } else {
      var l' := Apply(l, steps[0]);
      StatesOnlyGrow(l', steps[1..]);
      forall key | key in l.p.states && !RecordsFor(steps, key)
        ensures !RecordsFor(steps[1..], key) && l'.p.states[key] == l.p.states[key]
      {
        assert steps[0] in steps;
      }
    }
  }

  // ----- reload refines a fresh start

  function EntryShape(e: Entry): Entry {
    e.(tickets := 0)
  }

  /** The same router, apart from the turns taken. */
  ghost predicate SameRouter(router: seq<Entry>, other: seq<Entry>) {
    |router| == |other| && forall i :: 0 <= i < |router| ==> EntryShape(router[i]) == EntryShape(other[i])
  }

  /** The same limiters, apart from the buckets in them. */
  ghost predicate SameLimiters(table: map<string, Limiter>, other: map<string, Limiter>) {
    && table.Keys == other.Keys
    && forall key :: key in table ==> table[key].rate == other[key].rate && table[key].burst == other[key].burst
  }

  /** Equal up to traffic. Origin states are apart, and the global limiter is never reloaded. */
  ghost predicate SameUpToTraffic(p: State, q: State) {
    && p.config == q.config
    && SameRouter(p.router, q.router)
    && SameLimiters(p.limiters, q.limiters)
    && p.passive == q.passive
  }

  function FullTable(c: ProxyConfig): map<string, Limiter> {
    LimiterTable(c.routes, |c.routes|)
  }

  function PassiveAt(old': PassiveHealth, new': PassiveHealth, k: nat): PassiveHealth {
    PassiveHealth(if k > 0 then new'.enabled else old'.enabled,
                  if k > 1 then new'.failureThreshold else old'.failureThreshold,
                  if k > 2 then new'.successThreshold else old'.successThreshold)
  }

  /** Configuration, limiters and passive settings at each stage, with `last` the last accepted
      configuration. */
  ghost predicate Settled(l: World, last: ProxyConfig) {
    var p := l.p;
    match l.reload
    case NoReload => p.config == last && p.passive == last.passive && SameLimiters(p.limiters, FullTable(last))
    case Validated(c) =>
      c == last && p.passive == p.config.passive && SameLimiters(p.limiters, FullTable(p.config))
    case RouterPublished(c) => c == last && p.passive == p.config.passive
    case Filling(c, k) =>
      && c == last && p.passive == p.config.passive
      && k <= |c.routes| && SameLimiters(p.limiters, LimiterTable(c.routes, k))
    case AddingOrigins(c, _) => c == last && p.passive == p.config.passive && SameLimiters(p.limiters, FullTable(c))
    case SettingPassive(c, k) =>
      && c == last && k <= 3
      && p.passive == PassiveAt(p.config.passive, c.passive, k)
      && SameLimiters(p.limiters, FullTable(c))
  }

  /** The router at each stage. */
  ghost predicate Routed(l: World) {
    var config := if l.reload.NoReload? || l.reload.Validated? then l.p.config else l.reload.config;
    SameRouter(l.p.router, PlainEntries(config))
  }

  ghost predicate OnCourse(l: World, last: ProxyConfig) {
    Settled(l, last) && Routed(l)
  }

  function LastAccepted(last: ProxyConfig, steps: seq<Step>): ProxyConfig
    decreases |steps|
  {
    if steps == [] then last
    else LastAccepted(if Accepted(steps[0]) then steps[0].parsed.value else last, steps[1..])
  }

  predicate NoDiscovery(steps: seq<Step>) {
    forall step :: step in steps ==> !step.Notice? && !step.DiscoveryStep?
  }

  lemma TrafficKeepsShape(l: World, step: Step)
    requires Enabled(l, step)
    requires !step.Attempt? && !step.ReloadStep? && !step.Notice? && !step.DiscoveryStep?
    ensures var l' := Apply(l, step);
      && l'.reload == l.reload && l'.p.config == l.p.config && l'.p.passive == l.p.passive
      && SameRouter(l'.p.router, l.p.router) && SameLimiters(l'.p.limiters, l.p.limiters)
  {
  }

  lemma FillKeepsTable(l: World, key: string)
    requires Enabled(l, ReloadStep(key)) && l.reload.Filling? && l.reload.k < |l.reload.config.routes|
    requires SameLimiters(l.p.limiters, LimiterTable(l.reload.config.routes, l.reload.k))
    ensures SameLimiters(StepReload(l, key).p.limiters, LimiterTable(l.reload.config.routes, l.reload.k + 1))
  {
  }

  lemma PassiveKeepsSettled(l: World, key: string, last: ProxyConfig)
    requires Settled(l, last) && Enabled(l, ReloadStep(key)) && l.reload.SettingPassive?
    ensures Settled(StepReload(l, key), last)
  {
    hide PlainEntries, LimiterTable, AddStates;
  }

  lemma ReloadKeepsSettled(l: World, key: string, last: ProxyConfig)
    requires Settled(l, last) && Enabled(l, ReloadStep(key))
    ensures Settled(StepReload(l, key), last)
  {
    if l.reload.Filling? && l.reload.k < |l.reload.config.routes| {
      FillKeepsTable(l, key);
    } else if l.reload.SettingPassive? {
      PassiveKeepsSettled(l, key, last);
    }
  }

  lemma ShapeKeepsSettled(l: World, l': World, last: ProxyConfig)
    requires Settled(l, last)
    requires l'.reload == l.reload && l'.p.config == l.p.config && l'.p.passive == l.p.passive
    requires SameLimiters(l'.p.limiters, l.p.limiters)
    ensures Settled(l', last)
  {
  }

  lemma DiscoveryKeepsShape(l: World, step: Step)
    requires Enabled(l, step) && (step.Notice? || step.DiscoveryStep?)
    ensures var l' := Apply(l, step);
      && l'.reload == l.reload && l'.p.config == l.p.config && l'.p.passive == l.p.passive
      && l'.p.limiters == l.p.limiters
  {
  }

  lemma StepKeepsSettled(l: World, step: Step, last: ProxyConfig)
    requires Settled(l, last) && Enabled(l, step)
    ensures Settled(Apply(l, step), if Accepted(step) then step.parsed.value else last)
  {
    if step.ReloadStep? {
      ReloadKeepsSettled(l, step.key, last);
    } else if step.Notice? || step.DiscoveryStep? {
      DiscoveryKeepsShape(l, step);
      ShapeKeepsSettled(l, Apply(l, step), last);
    } else if !step.Attempt? {
      TrafficKeepsShape(l, step);
      ShapeKeepsSettled(l, Apply(l, step), last);
    }
  }

  lemma {:induction false} SettledThroughout(l: World, steps: seq<Step>, last: ProxyConfig)
    requires Settled(l, last) && CanRun(l, steps)
    ensures Settled(Run(l, steps), LastAccepted(last, steps))
    decreases |steps|
  {
    if steps == [] {
    } else {
      StepKeepsSettled(l, steps[0], last);
      SettledThroughout(Apply(l, steps[0]), steps[1..], if Accepted(steps[0]) then steps[0].parsed.value else last);
    }
  }

  /** After any reload attempts, good and bad, any traffic and any discovery, an idle reload task leaves the
      configuration, limiters and passive settings that starting afresh on the last accepted configuration
      would. */
  lemma SettingsRefineFreshStart(config: ProxyConfig, steps: seq<Step>)
    requires CanRun(Start(config), steps) && Run(Start(config), steps).reload.NoReload?
    ensures var p, last := Run(Start(config), steps).p, LastAccepted(config, steps);
      p.config == last && p.passive == last.passive && SameLimiters(p.limiters, Fresh(last).limiters)
  {
    SettledThroughout(Start(config), steps, config);
  }

  lemma StepKeepsRouted(l: World, step: Step)
    requires Routed(l) && Enabled(l, step)
    requires !step.Notice? && !step.DiscoveryStep?
    ensures Routed(Apply(l, step))
  {
    if !step.Attempt? && !step.ReloadStep? {
      TrafficKeepsShape(l, step);
    }
  }

  /** What is published at each stage in a run without discovery. */
  lemma {:induction false} CourseThroughout(l: World, steps: seq<Step>, last: ProxyConfig)
    requires OnCourse(l, last) && CanRun(l, steps) && NoDiscovery(steps)
    ensures OnCourse(Run(l, steps), LastAccepted(last, steps))
    decreases |steps|
  {
    if steps == [] {
    } else {
      hide Settled, Routed, Apply, Enabled;
      assert steps[0] in steps;
      StepKeepsSettled(l, steps[0], last);
      StepKeepsRouted(l, steps[0]);
      CourseThroughout(Apply(l, steps[0]), steps[1..], if Accepted(steps[0]) then steps[0].parsed.value else last);
    }
  }

  /** Reload refines a fresh start: without discovery, after any reload attempts, good and bad, and any
      traffic, an idle reload task leaves what starting afresh on the last accepted configuration
      would. */
  lemma ReloadRefinesFreshStart(config: ProxyConfig, steps: seq<Step>)
    requires CanRun(Start(config), steps) && NoDiscovery(steps)
    requires Run(Start(config), steps).reload.NoReload?
    ensures SameUpToTraffic(Run(Start(config), steps).p, Fresh(LastAccepted(config, steps)))
  {
    CourseThroughout(Start(config), steps, config);
  }

  // ----- the pass as a whole

  lemma {:induction false} RunJoined(l: World, a: seq<Step>, b: seq<Step>)
    requires CanRun(l, a) && CanRun(Run(l, a), b)
    ensures CanRun(l, a + b) && Run(l, a + b) == Run(Run(l, a), b)
    decreases |a|
  {
    if a == [] {
      assert a + b == b;
    } else {
      assert (a + b)[1..] == a[1..] + b;
      RunJoined(Apply(l, a[0]), a[1..], b);
    }
  }

  lemma RunOne(l: World, step: Step)
    requires Enabled(l, step)
    ensures CanRun(l, [step]) && Run(l, [step]) == Apply(l, step)
  {
    assert [step][1..] == [];
    assert CanRun(Apply(l, step), []) && Run(Apply(l, step), []) == Apply(l, step);
  }

  lemma RunTwo(l: World, a: Step, b: Step)
    requires Enabled(l, a) && Enabled(Apply(l, a), b)
    ensures CanRun(l, [a, b]) && Run(l, [a, b]) == Apply(Apply(l, a), b)
  {
    RunOne(Apply(l, a), b);
    assert [a, b][1..] == [b];
  }

  ghost predicate OnlyReload(steps: seq<Step>) {
    forall step :: step in steps ==> step.ReloadStep?
  }

  lemma {:induction false} FillAlone(l: World, c: ProxyConfig, k: nat) returns (steps: seq<Step>)
    requires k <= |c.routes| && l.reload == Filling(c, k) && l.p.limiters == LimiterTable(c.routes, k)
    ensures OnlyReload(steps) && CanRun(l, steps)
    ensures Run(l, steps)
         == l.(p := l.p.(limiters := FullTable(c)), reload := AddingOrigins(c, KeysOfRoutes(c.routes)))
    decreases |c.routes| - k
  {
    var first := ReloadStep("");
    var l' := Apply(l, first);
    if k == |c.routes| {
      steps := [first];
    } else {
      var rest := FillAlone(l', c, k + 1);
      steps := [first] + rest;
      assert steps[1..] == rest;
    }
  }

  lemma {:induction false} AddAlone(l: World, c: ProxyConfig, due: set<string>) returns (steps: seq<Step>)
    requires l.reload == AddingOrigins(c, due)
    ensures OnlyReload(steps) && CanRun(l, steps)
    ensures Run(l, steps) == l.(p := l.p.(states := AddStates(l.p.states, due)), reload := SettingPassive(c, 0))
    decreases due
  {
    if due == {} {
      steps := [ReloadStep("")];
      assert AddStates(l.p.states, due) == l.p.states;
    } else {
      var key :| key in due;
      var l' := Apply(l, ReloadStep(key));
      var rest := AddAlone(l', c, due - {key});
      steps := [ReloadStep(key)] + rest;
      assert steps[1..] == rest;
      assert {key} + (due - {key}) == due;
      AddInTwo(l.p.states, {key}, due - {key});
    }
  }

  lemma {:induction false} ClearAlone(l: World, c: ProxyConfig) returns (steps: seq<Step>)
    requires l.reload == RouterPublished(c)
    ensures OnlyReload(steps) && CanRun(l, steps)
    ensures Run(l, steps) == l.(p := l.p.(limiters := map[]), reload := Filling(c, 0))
    decreases l.p.limiters.Keys
  {
    if l.p.limiters == map[] {
      steps := [ReloadStep("")];
      RunOne(l, ReloadStep(""));
    } else {
      var key :| key in l.p.limiters;
      var l' := Apply(l, ReloadStep(key));
      assert key !in l'.p.limiters;
      var rest := ClearAlone(l', c);
      steps := [ReloadStep(key)] + rest;
      assert steps[1..] == rest;
    }
  }

  lemma PassiveAlone(l: World, c: ProxyConfig) returns (steps: seq<Step>)
    requires l.reload == SettingPassive(c, 0)
    ensures OnlyReload(steps) && CanRun(l, steps)
    ensures Run(l, steps) == l.(p := l.p.(passive := c.passive, config := c), reload := NoReload)
  {
    var s := ReloadStep("");
    var l2 := Apply(Apply(l, s), s);
    RunTwo(l, s, s);
    RunTwo(l2, s, s);
    RunJoined(l, [s, s], [s, s]);
    steps := [s, s] + [s, s];
  }

  /** The rest of a reload from where its router is published. */
  lemma PublishedAlone(l: World, c: ProxyConfig) returns (steps: seq<Step>)
    requires l.reload == RouterPublished(c)
    ensures OnlyReload(steps) && CanRun(l, steps)
    ensures Run(l, steps) == l.(p := Reload(l.p, c).(router := l.p.router), reload := NoReload)
  {
    var clear := ClearAlone(l, c);
    var l2 := Run(l, clear);
    var fill := FillAlone(l2, c, 0);
    RunJoined(l, clear, fill);
    var l3 := Run(l2, fill);
    var add := AddAlone(l3, c, KeysOfRoutes(c.routes));
    RunJoined(l, clear + fill, add);
    var l4 := Run(l3, add);
    var passive := PassiveAlone(l4, c);
    RunJoined(l, clear + fill + add, passive);
    steps := clear + fill + add + passive;
  }

  /** A reload whose steps nothing interrupts does what the undisturbed pass does. */
  lemma PassAlone(l: World, c: ProxyConfig) returns (steps: seq<Step>)
    requires l.reload == Validated(c)
    ensures OnlyReload(steps) && CanRun(l, steps)
    ensures Run(l, steps) == l.(p := Reload(l.p, c), reload := NoReload)
  {
    var publish := ReloadStep("");
    RunOne(l, publish);
    var rest := PublishedAlone(Apply(l, publish), c);
    RunJoined(l, [publish], rest);
    steps := [publish] + rest;
  }

  ghost predicate OnlyDiscovery(steps: seq<Step>) {
    forall step :: step in steps ==> step.DiscoveryStep?
  }

  lemma {:induction false} AddFoundAlone(l: World, due: set<string>) returns (steps: seq<Step>)
    requires l.discovery == AddingUrls(due)
    ensures OnlyDiscovery(steps) && CanRun(l, steps)
    ensures Run(l, steps) == l.(p := l.p.(states := AddStates(l.p.states, due)), discovery := NoEvent)
    decreases due
  {
    if due == {} {
      steps := [DiscoveryStep("")];
      RunOne(l, DiscoveryStep(""));
      assert AddStates(l.p.states, due) == l.p.states;
    } else {
      var key :| key in due;
      var rest := AddFoundAlone(Apply(l, DiscoveryStep(key)), due - {key});
      steps := [DiscoveryStep(key)] + rest;
      assert steps[1..] == rest;
      assert {key} + (due - {key}) == due;
      AddInTwo(l.p.states, {key}, due - {key});
    }
  }

  /** A discovery event whose steps nothing interrupts does what the undisturbed rebuild does. */
  lemma DiscoveryAlone(l: World) returns (steps: seq<Step>)
    requires l.discovery.Noticed?
    ensures OnlyDiscovery(steps) && CanRun(l, steps)
    ensures Run(l, steps) == l.(p := Rebuild(l.p, l.found), discovery := NoEvent)
  {
    var s := DiscoveryStep("");
    RunTwo(l, s, s);
    var l2 := Apply(Apply(l, s), s);
    var add := AddFoundAlone(l2, FoundKeys(l.found));
    RunJoined(l, [s, s], add);
    steps := [s, s] + add;
  }

  ghost predicate OnlyTraffic(steps: seq<Step>) {
    forall step :: step in steps ==> step.Check? || step.Ticket? || step.Record?
  }

  /** A request whose steps nothing interrupts does what serving it does. */
  lemma RequestAlone(l: World, r: Request) returns (steps: seq<Step>)
    ensures OnlyTraffic(steps) && CanRun(l, steps)
    ensures Run(l, steps) == l.(p := Serve(l.p, r).0)
  {
    var m := MatchIndex(l.p.router, r.host, r.path);
    if m.None? {
      steps := [];
    } else {
      var e := l.p.router[m.value];
      var check, ticket := Check(e.key, r.ip, r.now), Ticket(m.value);
      var l1 := Apply(l, check);
      RunOne(l, check);
      steps := [check];
      if Admit(l.p, e.key, r.ip, r.now).1 {
        RunTwo(l, check, ticket);
        steps := [check, ticket];
        ChoiceSound(e, l1.p.states, r.unit);
        var chosen := Choose(e, l1.p.states, r.unit);
        if chosen.Some? {
          var record := Record(e.candidates[chosen.value].urlKey, r.nanos, r.outcome);
          RunOne(Apply(l1, ticket), record);
          RunJoined(l, [check, ticket], [record]);
          steps := [check, ticket] + [record];
        }
      }
    }
  }
}
