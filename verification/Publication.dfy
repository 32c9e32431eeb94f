/** What the published router was built from while reloads and discovery interleave. */
module Publication {
  import opened Primitives
  import opened Config
  import opened Route
  import opened Live
  import Proxy

  /** The configuration and the discoveries a router is built from. */
  datatype Basis = Basis(config: ProxyConfig, found: Discovered)

  /** A reload publishes a router without discoveries, a rebuild one from the configuration it has seen. */
  function NextBasis(l: World, step: Step, basis: Basis): Basis {
    if step.ReloadStep? && l.reload.Validated? then Basis(l.reload.config, map[])
    else if step.DiscoveryStep? && l.discovery.Snapshot? then Basis(l.discovery.seen, l.found)
    else basis
  }

  /** What the router that is last published in a run is built from. */
  function LastBasis(l: World, steps: seq<Step>, basis: Basis): Basis
    requires CanRun(l, steps)
    decreases |steps|
  {
    if steps == [] then basis else LastBasis(Apply(l, steps[0]), steps[1..], NextBasis(l, steps[0], basis))
  }

  ghost predicate BuiltFrom(l: World, basis: Basis) {
    SameRouter(l.p.router, Entries(basis.config, basis.found))
  }

  lemma StepKeepsBasis(l: World, step: Step, basis: Basis)
    requires Enabled(l, step) && BuiltFrom(l, basis)
    ensures BuiltFrom(Apply(l, step), NextBasis(l, step, basis))
  {
    if step.ReloadStep? && l.reload.Validated? {
      DiscoveryPreservesRouting(l.reload.config, map[], "", "");
    } else if !step.Attempt? && !step.ReloadStep? && !step.Notice? && !step.DiscoveryStep? {
      TrafficKeepsShape(l, step);
    }
  }

  /** In every interleaving the router is, up to turns taken, the one built from the last basis. */
  lemma {:induction false} RouterFollowsBasis(l: World, steps: seq<Step>, basis: Basis)
    requires CanRun(l, steps) && BuiltFrom(l, basis)
    ensures BuiltFrom(Run(l, steps), LastBasis(l, steps, basis))
    decreases |steps|
  {
    if steps == [] {
    } else {
      StepKeepsBasis(l, steps[0], basis);
      RouterFollowsBasis(Apply(l, steps[0]), steps[1..], NextBasis(l, steps[0], basis));
    }
  }

  // ----- where it comes from

  /** These configurations and all that the run accepts. */
  function Loaded(known: set<ProxyConfig>, steps: seq<Step>): set<ProxyConfig>
    decreases |steps|
  {
    if steps == [] then known
    else Loaded(if Accepted(steps[0]) then known + {steps[0].parsed.value} else known, steps[1..])
  }

  /** The lists of discovered origins, these and all that the run goes through. */
  function Listed(found: Discovered, known: set<Discovered>, steps: seq<Step>): set<Discovered>
    decreases |steps|
  {
    if steps == [] then known
    else
      var found' := if steps[0].Notice? then found[steps[0].pool := [steps[0].url]] else found;
      Listed(found', known + {found'}, steps[1..])
  }

  ghost predicate InStock(l: World, basis: Basis, configs: set<ProxyConfig>, founds: set<Discovered>) {
    && l.p.config in configs && basis.config in configs
    && (!l.reload.NoReload? ==> l.reload.config in configs)
    && (l.discovery.Snapshot? ==> l.discovery.seen in configs)
    && l.found in founds && basis.found in founds && map[] in founds
  }

  lemma StepKeepsStock(l: World, step: Step, basis: Basis, configs: set<ProxyConfig>, founds: set<Discovered>)
    requires Enabled(l, step) && InStock(l, basis, configs, founds)
    ensures InStock(Apply(l, step), NextBasis(l, step, basis),
                    if Accepted(step) then configs + {step.parsed.value} else configs,
                    founds + {Apply(l, step).found})
  {
  }

  lemma {:induction false} BasisInStock(l: World, steps: seq<Step>, basis: Basis,
                                        configs: set<ProxyConfig>, founds: set<Discovered>)
    requires CanRun(l, steps) && InStock(l, basis, configs, founds)
    ensures InStock(Run(l, steps), LastBasis(l, steps, basis), Loaded(configs, steps), Listed(l.found, founds, steps))
    decreases |steps|
  {
    if steps == [] {
    } else {
      var step := steps[0];
      StepKeepsStock(l, step, basis, configs, founds);
      assert Apply(l, step).found == if step.Notice? then l.found[step.pool := [step.url]] else l.found;
      BasisInStock(Apply(l, step), steps[1..], NextBasis(l, step, basis),
                   if Accepted(step) then configs + {step.parsed.value} else configs,
                   founds + {Apply(l, step).found});
    }
  }

  function FirstBasis(config: ProxyConfig): Basis {
    Basis(config, map[])
  }

  lemma StartBuilt(config: ProxyConfig)
    ensures BuiltFrom(Start(config), FirstBasis(config))
  {
    DiscoveryPreservesRouting(config, map[], "", "");
  }

  /** In every interleaving from start-up, the published router is, up to turns taken, built from the
      start-up configuration or one that was accepted, and from a list that discovery went through. */
  lemma RouterHasBasis(config: ProxyConfig, steps: seq<Step>)
    requires CanRun(Start(config), steps)
    ensures var basis := LastBasis(Start(config), steps, FirstBasis(config));
      && BuiltFrom(Run(Start(config), steps), basis)
      && basis.config in Loaded({config}, steps)
      && basis.found in Listed(map[], {map[]}, steps)
  {
    StartBuilt(config);
    RouterFollowsBasis(Start(config), steps, FirstBasis(config));
    BasisInStock(Start(config), steps, FirstBasis(config), {config}, {map[]});
  }

  // ----- when router and configuration agree

  /** The events of a run that decide it: a reload publishes its router and later swaps its configuration
      in; a rebuild loads the published configuration and later publishes its router. */
  datatype Mark =
    | Publish(config: ProxyConfig)
    | Swap
    | Load(config: ProxyConfig)
    | Rebuild
    | Other

  function MarkOf(l: World, step: Step): Mark {
    if step.ReloadStep? && l.reload.Validated? then Publish(l.reload.config)
    else if step.ReloadStep? && l.reload.SettingPassive? && l.reload.k > 2 then Swap
    else if step.DiscoveryStep? && l.discovery.Noticed? then Load(l.p.config)
    else if step.DiscoveryStep? && l.discovery.Snapshot? then Rebuild
    else Other
  }

  function Marks(l: World, steps: seq<Step>): seq<Mark>
    requires CanRun(l, steps)
    decreases |steps|
  {
    if steps == [] then [] else [MarkOf(l, steps[0])] + Marks(Apply(l, steps[0]), steps[1..])
  }

  datatype Kind = Publishes | Loads | PublishesEither

  predicate Is(m: Mark, kind: Kind) {
    match kind
    case Publishes => m.Publish?
    case Loads => m.Load?
    case PublishesEither => m.Publish? || m.Rebuild?
  }

  /** The last mark of a kind. */
  function Last(marks: seq<Mark>, kind: Kind): (i: Option<nat>)
    ensures i.Some? ==> i.value < |marks| && Is(marks[i.value], kind)
    ensures forall k :: (if i.Some? then i.value else -1) < k < |marks| ==> !Is(marks[k], kind)
  {
    if marks == [] then None
    else if Is(marks[|marks| - 1], kind) then Some(|marks| - 1)
    else Last(marks[..|marks| - 1], kind)
  }

  lemma LastIs(marks: seq<Mark>, kind: Kind, i: nat)
    requires i < |marks| && Is(marks[i], kind) && forall k :: i < k < |marks| ==> !Is(marks[k], kind)
    ensures Last(marks, kind) == Some(i)
  {
  }

  /** No configuration is swapped in after mark `i` and before mark `j`. */
  ghost predicate NoSwapBetween(marks: seq<Mark>, i: nat, j: nat)
    requires j <= |marks|
  {
    forall k :: i < k < j ==> !marks[k].Swap?
  }

  /** The last reload to publish a router before mark `b` was not done when the rebuild that ends at `b`
      loaded its configuration, and reloads another one: the two overlap and differ. */
  ghost predicate Overtaken(marks: seq<Mark>, b: nat)
    requires b < |marks|
  {
    var load, publish := Last(marks[..b], Loads), Last(marks[..b], Publishes);
    && marks[b].Rebuild? && load.Some? && publish.Some?
    && NoSwapBetween(marks, publish.value, load.value)
    && marks[publish.value].config != marks[load.value].config
  }

  /** The last publication is a rebuild that a reload has overtaken. */
  ghost predicate Outdated(marks: seq<Mark>) {
    var last := Last(marks, PublishesEither);
    last.Some? && Overtaken(marks, last.value)
  }

  predicate Ahead(l: World) {
    !l.reload.NoReload? && !l.reload.Validated?
  }

  /** The configuration that the router ought to be built from: a reload that has published its router
      is ahead of the published configuration. */
  function Intended(l: World): ProxyConfig {
    if Ahead(l) then l.reload.config else l.p.config
  }

  /** The configuration of the last reload to publish, or the first of all. */
  function LastPublished(first: ProxyConfig, marks: seq<Mark>): ProxyConfig {
    var publish := Last(marks, Publishes);
    if publish.Some? then marks[publish.value].config else first
  }

  ghost predicate Unswapped(marks: seq<Mark>) {
    var publish := Last(marks, Publishes);
    publish.Some? && NoSwapBetween(marks, publish.value, |marks|)
  }

  ghost predicate LoadTells(first: ProxyConfig, marks: seq<Mark>, a: nat)
    requires a < |marks| && marks[a].Load?
  {
    Unswapped(marks[..a]) || marks[a].config == LastPublished(first, marks[..a])
  }

  /** A rebuild that loads while no reload is ahead loads what was last published. */
  ghost predicate LoadsTell(first: ProxyConfig, marks: seq<Mark>) {
    forall a: nat :: a < |marks| && marks[a].Load? ==> LoadTells(first, marks, a)
  }

  /** Where the last router came from. */
  ghost predicate BasisTold(first: ProxyConfig, marks: seq<Mark>, basis: Basis) {
    var last := Last(marks, PublishesEither);
    if last.None? then basis.config == first
    else if marks[last.value].Publish? then basis.config == marks[last.value].config
    else
      var load := Last(marks[..last.value], Loads);
      load.Some? && basis.config == marks[load.value].config
  }

  ghost predicate Told(l: World, first: ProxyConfig, marks: seq<Mark>, basis: Basis) {
    && Intended(l) == LastPublished(first, marks)
    && (Ahead(l) <==> Unswapped(marks))
    && (l.discovery.Snapshot? ==>
          var load := Last(marks, Loads); load.Some? && marks[load.value].config == l.discovery.seen)
    && LoadsTell(first, marks)
    && BasisTold(first, marks, basis)
  }

  lemma LastGrows(marks: seq<Mark>, m: Mark, kind: Kind)
    ensures Last(marks + [m], kind) == if Is(m, kind) then Some(|marks|) else Last(marks, kind)
  {
    assert (marks + [m])[..|marks|] == marks;
  }

  lemma UnswappedGrows(marks: seq<Mark>, m: Mark)
    ensures Unswapped(marks + [m]) <==> m.Publish? || (Unswapped(marks) && !m.Swap?)
  {
    LastGrows(marks, m, Publishes);
    var publish := Last(marks, Publishes);
    if publish.Some? && !m.Publish? {
      assert NoSwapBetween(marks + [m], publish.value, |marks| + 1)
        <==> NoSwapBetween(marks, publish.value, |marks|) && !m.Swap? by {
        assert (marks + [m])[|marks|] == m;
      }
    }
  }

  lemma LoadsTellGrows(first: ProxyConfig, marks: seq<Mark>, m: Mark)
    requires LoadsTell(first, marks)
    requires m.Load? ==> Unswapped(marks) || m.config == LastPublished(first, marks)
    ensures LoadsTell(first, marks + [m])
  {
    var longer := marks + [m];
    forall a: nat | a < |longer| && longer[a].Load? ensures LoadTells(first, longer, a) {
      if a < |marks| {
        assert longer[..a] == marks[..a] && LoadTells(first, marks, a);
      } else {
        assert longer[..a] == marks;
      }
    }
  }

  lemma BasisToldGrows(first: ProxyConfig, marks: seq<Mark>, m: Mark, basis: Basis, basis': Basis)
    requires BasisTold(first, marks, basis)
    requires m.Publish? ==> basis'.config == m.config
    requires m.Rebuild? ==> Last(marks, Loads).Some? && basis'.config == marks[Last(marks, Loads).value].config
    requires !m.Publish? && !m.Rebuild? ==> basis' == basis
    ensures BasisTold(first, marks + [m], basis')
  {
    LastGrows(marks, m, PublishesEither);
    assert (marks + [m])[..|marks|] == marks;
    var last := Last(marks, PublishesEither);
    if last.Some? {
      assert (marks + [m])[..last.value] == marks[..last.value];
    }
  }

  /** What a step does, in terms of its mark alone. */
  lemma StepMarked(l: World, step: Step, basis: Basis)
    requires Enabled(l, step)
    ensures var l', m, basis' := Apply(l, step), MarkOf(l, step), NextBasis(l, step, basis);
      && (Ahead(l') <==> m.Publish? || (Ahead(l) && !m.Swap?))
      && Intended(l') == (if m.Publish? then m.config else Intended(l))
      && (m.Load? ==> Ahead(l) || m.config == Intended(l))
      && (m.Rebuild? ==> l.discovery.Snapshot?)
      && (l'.discovery.Snapshot? ==>
            if m.Load? then l'.discovery.seen == m.config
            else l.discovery.Snapshot? && l'.discovery.seen == l.discovery.seen)
      && (if m.Publish? then basis'.config == m.config
          else if m.Rebuild? then basis'.config == l.discovery.seen
          else basis' == basis)
  {
  }

  lemma StepTold(l: World, step: Step, first: ProxyConfig, marks: seq<Mark>, basis: Basis)
    requires Enabled(l, step) && Told(l, first, marks, basis)
    ensures Told(Apply(l, step), first, marks + [MarkOf(l, step)], NextBasis(l, step, basis))
  {
    var m := MarkOf(l, step);
    StepMarked(l, step, basis);
    hide Apply, MarkOf, NextBasis, Ahead, Intended, LoadsTell, BasisTold, Unswapped, Last, Enabled;
    LastGrows(marks, m, Publishes);
    LastGrows(marks, m, Loads);
    UnswappedGrows(marks, m);
    LoadsTellGrows(first, marks, m);
    BasisToldGrows(first, marks, m, basis, NextBasis(l, step, basis));
  }

  lemma {:induction false} RunTold(l: World, steps: seq<Step>, first: ProxyConfig, marks: seq<Mark>, basis: Basis)
    requires CanRun(l, steps) && Told(l, first, marks, basis)
    ensures Told(Run(l, steps), first, marks + Marks(l, steps), LastBasis(l, steps, basis))
    decreases |steps|
  {
    hide Told, MarkOf, NextBasis, Apply, Enabled;
    if steps == [] {
      assert marks + [] == marks;
    } else {
      StepTold(l, steps[0], first, marks, basis);
      RunTold(Apply(l, steps[0]), steps[1..], first, marks + [MarkOf(l, steps[0])], NextBasis(l, steps[0], basis));
      assert marks + Marks(l, steps) == marks + [MarkOf(l, steps[0])] + Marks(Apply(l, steps[0]), steps[1..]);
    }
  }

  /** A rebuild has loaded what was last published unless a reload was ahead or has published since. */
  lemma RebuildDiffersIff(first: ProxyConfig, marks: seq<Mark>, b: nat)
    requires LoadsTell(first, marks) && b < |marks| && marks[b].Rebuild? && Last(marks[..b], Loads).Some?
    ensures marks[Last(marks[..b], Loads).value].config != LastPublished(first, marks[..b]) <==> Overtaken(marks, b)
  {
    var a, publish := Last(marks[..b], Loads).value, Last(marks[..b], Publishes);
    assert LoadTells(first, marks, a);
    assert marks[..b][..a] == marks[..a];
    if publish.None? {
      assert Last(marks[..a], Publishes).None?;
    } else if publish.value < a {
      LastIs(marks[..a], Publishes, publish.value);
      assert NoSwapBetween(marks, publish.value, a) <==> NoSwapBetween(marks[..a], publish.value, a);
    }
  }

  lemma SamePublish(marks: seq<Mark>, b: nat)
    requires Last(marks, PublishesEither) == Some(b) && marks[b].Rebuild?
    ensures Last(marks, Publishes) == Last(marks[..b], Publishes)
  {
    var publish := Last(marks[..b], Publishes);
    if publish.Some? {
      LastIs(marks, Publishes, publish.value);
    }
  }

  lemma BasisIntendedIff(first: ProxyConfig, marks: seq<Mark>, basis: Basis)
    requires LoadsTell(first, marks) && BasisTold(first, marks, basis)
    ensures basis.config == LastPublished(first, marks) <==> !Outdated(marks)
  {
    var last := Last(marks, PublishesEither);
    if last.Some? {
      var b := last.value;
      if marks[b].Rebuild? {
        RebuildDiffersIff(first, marks, b);
        SamePublish(marks, b);
      } else {
        LastIs(marks, Publishes, b);
      }
    }
  }

  /** With the reload task idle, the router was built from the published configuration exactly when the
      last publication was not a rebuild whose time from load to publication overlaps that of a reload, the
      last to publish, from its router to its swap, with another configuration. */
  lemma AgreesWhenIdleIff(config: ProxyConfig, steps: seq<Step>)
    requires CanRun(Start(config), steps) && Run(Start(config), steps).reload.NoReload?
    ensures LastBasis(Start(config), steps, FirstBasis(config)).config == Run(Start(config), steps).p.config
       <==> !Outdated(Marks(Start(config), steps))
  {
    var marks := Marks(Start(config), steps);
    RunTold(Start(config), steps, config, [], FirstBasis(config));
    assert [] + marks == marks;
    hide LoadsTell, BasisTold, Outdated, LastPublished, Start, Run, LastBasis, Marks;
    BasisIntendedIff(config, marks, LastBasis(Start(config), steps, FirstBasis(config)));
  }

  /** It can be outdated: a rebuild that has seen the configuration before a whole reload goes by publishes
      a router of the old configuration, and both tasks go idle. */
  lemma OutdatedRebuild(l: World, c: ProxyConfig, pagesExist: bool, pool: string, url: Url) returns (steps: seq<Step>)
    requires l.reload.NoReload? && l.discovery.NoEvent? && Acceptable(c, pagesExist)
    ensures CanRun(l, steps)
    ensures var l', found := Run(l, steps), l.found[pool := [url]];
      && l'.reload.NoReload? && l'.discovery.NoEvent?
      && l'.p.config == c && l'.p.router == Entries(l.p.config, found)
  {
    AcceptedIff(c, pagesExist);
    var look := [Notice(pool, url), DiscoveryStep("")];
    RunTwo(l, look[0], look[1]);
    var seen := Run(l, look);
    var attempt := Attempt(Some(c), pagesExist);
    RunOne(seen, attempt);
    RunJoined(l, look, [attempt]);
    var pass := PassAlone(Apply(seen, attempt), c);
    RunJoined(l, look + [attempt], pass);
    var reloaded := Run(Apply(seen, attempt), pass);
    RunOne(reloaded, DiscoveryStep(""));
    RunJoined(l, look + [attempt] + pass, [DiscoveryStep("")]);
    var published := Apply(reloaded, DiscoveryStep(""));
    var add := AddFoundAlone(published, Proxy.FoundKeys(published.found));
    RunJoined(l, look + [attempt] + pass + [DiscoveryStep("")], add);
    steps := look + [attempt] + pass + [DiscoveryStep("")] + add;
  }

  // ----- a reload drops what was discovered

  /** Discovery has nothing listed for any of these pools. */
  ghost predicate NothingListed(pools: seq<PoolRef>, found: Discovered) {
    forall pool :: pool in pools ==> UrlsFor(pool.name, found) == []
  }

  lemma NoExtrasIff(urls: seq<Url>)
    ensures Extras(urls) == [] <==> urls == []
  {
  }

  lemma NothingListedSplit(front: seq<PoolRef>, last: PoolRef, found: Discovered)
    ensures NothingListed(front + [last], found) <==> NothingListed(front, found) && UrlsFor(last.name, found) == []
  {
    assert last in front + [last];
    forall pool | pool in front ensures pool in front + [last] {
    }
  }

  lemma {:induction false} NothingAddedIff(pools: seq<PoolRef>, found: Discovered)
    ensures Added(pools, found) == [] <==> NothingListed(pools, found)
  {
    if pools == [] {
    } else {
      var front, last := pools[..|pools| - 1], pools[|pools| - 1];
      NothingAddedIff(front, found);
      NoExtrasIff(UrlsFor(last.name, found));
      assert pools == front + [last];
      NothingListedSplit(front, last, found);
    }
  }

  lemma {:induction false} SameWithNothingAdded(pools: seq<PoolRef>, found: Discovered)
    requires Added(pools, found) == []
    ensures Candidates(pools, found) == PlainCandidates(pools)
  {
    if pools == [] {
    } else {
      SameWithNothingAdded(pools[..|pools| - 1], found);
    }
  }

  lemma SameCandidatesIff(pools: seq<PoolRef>, found: Discovered)
    ensures Candidates(pools, found) == PlainCandidates(pools)
       <==> NothingListed(pools, found)
  {
    NothingAddedIff(pools, found);
    if Added(pools, found) == [] {
      SameWithNothingAdded(pools, found);
    } else {
      DiscoveryAddsOnly(pools, found);
      assert Added(pools, found)[0] in multiset(Added(pools, found));
      assert multiset(Candidates(pools, found)) != multiset(PlainCandidates(pools));
    }
  }

  /** A router without discoveries has all the candidates of one with them exactly when nothing is listed
      for any of its pools. */
  lemma ReloadDropsIff(config: ProxyConfig, found: Discovered)
    ensures PlainEntries(config) == Entries(config, found)
       <==> forall route :: route in config.routes ==> NothingListed(route.pools, found)
  {
    forall i | 0 <= i < |config.routes|
      ensures PlainEntries(config)[i] == Entries(config, found)[i]
         <==> NothingListed(config.routes[i].pools, found)
    {
      SameCandidatesIff(config.routes[i].pools, found);
    }
  }

  lemma {:induction false} StillWithout(l: World, steps: seq<Step>, basis: Basis)
    requires CanRun(l, steps) && basis.found == map[]
    requires forall step :: step in steps ==> !step.DiscoveryStep?
    ensures LastBasis(l, steps, basis).found == map[]
    decreases |steps|
  {
    if steps == [] {
    } else {
      assert steps[0] in steps;
      StillWithout(Apply(l, steps[0]), steps[1..], NextBasis(l, steps[0], basis));
    }
  }

  /** From the publication of a reload until discovery acts again, the router holds no discovered
      candidate, whatever it held before. */
  lemma DroppedUntilRebuild(l: World, key: string, steps: seq<Step>)
    requires l.reload.Validated? && CanRun(Apply(l, ReloadStep(key)), steps)
    requires forall step :: step in steps ==> !step.DiscoveryStep?
    ensures var l', basis := Apply(l, ReloadStep(key)), FirstBasis(l.reload.config);
      SameRouter(Run(l', steps).p.router, PlainEntries(LastBasis(l', steps, basis).config))
  {
    var l', basis := Apply(l, ReloadStep(key)), FirstBasis(l.reload.config);
    DiscoveryPreservesRouting(l.reload.config, map[], "", "");
    RouterFollowsBasis(l', steps, basis);
    StillWithout(l', steps, basis);
    DiscoveryPreservesRouting(LastBasis(l', steps, basis).config, map[], "", "");
  }
}
