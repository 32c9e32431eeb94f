/** Requests as tasks of their own: src/server.rs handle_request in stages, many requests at once, beside
    the reload task, the discovery task and cleanup. A request keeps the route entry it was matched to,
    reads origin states one at a time, and is sent to an origin long before its outcome is recorded. */
module Requests {
  import opened Primitives
  import opened Config
  import opened RateLimit
  import opened Balance
  import opened Route
  import opened Weighted
  import opened Live
  import Origin
  import RR = RoundRobin
  import Proxy

  /** How far a request has got. `view` is what it has read of the states, `due` what it has yet to read. */
  datatype Flight =
    | Matched(e: Entry)
    | Allowed(e: Entry)
    | Reading(e: Entry, view: StateTable, due: set<string>)
    | Sent(key: string)
    | Answered

  datatype Traffic = Traffic(l: World, flights: map<nat, Flight>)

  /** `tickets` is what the balancer hands out. A request may hold a router already replaced, so this need
      not be the counter of the published one. */
  datatype Move =
    | Background(step: Step)
    | Arrive(id: nat, host: string, path: string)
    | Limit(id: nat, ip: IpAddr, now: nat)
    | Look(id: nat)
    | Read(id: nat, key: string)
    | Select(id: nat, tickets: u64, unit: Proxy.Unit)
    | Finish(id: nat, nanos: nat, outcome: Proxy.Outcome)

  predicate CanMove(t: Traffic, m: Move) {
    match m
    case Background(step) => !step.Check? && !step.Record? && Enabled(t.l, step)
    case Arrive(id, _, _) => id !in t.flights
    case Limit(id, _, _) => id in t.flights && t.flights[id].Matched?
    case Look(id) => id in t.flights && t.flights[id].Allowed?
    case Read(id, key) => id in t.flights && t.flights[id].Reading? && key in t.flights[id].due
    case Select(id, _, _) => id in t.flights && t.flights[id].Reading? && t.flights[id].due == {}
    case Finish(id, _, _) => id in t.flights && t.flights[id].Sent?
  }

  function KeysOf(candidates: seq<Endpoint>): set<string> {
    set i | 0 <= i < |candidates| :: candidates[i].urlKey
  }

  function SelectFrom(e: Entry, view: StateTable, tickets: u64, unit: Proxy.Unit): Flight {
    var turn := e.(tickets := tickets);
    Proxy.ChoiceSound(turn, view, unit);
    var chosen := Proxy.Choose(turn, view, unit);
    if chosen.None? then Answered else Sent(e.candidates[chosen.value].urlKey)
  }

  function Do(t: Traffic, m: Move): Traffic
    requires CanMove(t, m)
  {
    match m
    case Background(step) => t.(l := Apply(t.l, step))
    case Arrive(id, host, path) =>
      var i := MatchIndex(t.l.p.router, host, path);
      t.(flights := t.flights[id := if i.None? then Answered else Matched(t.l.p.router[i.value])])
    case Limit(id, ip, now) =>
      var e := t.flights[id].e;
      var (p, allowed) := Proxy.Admit(t.l.p, e.key, ip, now);
      Traffic(t.l.(p := p), t.flights[id := if allowed then Allowed(e) else Answered])
    case Look(id) =>
      var e := t.flights[id].e;
      t.(flights := t.flights[id := Reading(e, map[], KeysOf(e.candidates))])
    case Read(id, key) =>
      var f := t.flights[id];
      var view := if key in t.l.p.states then f.view[key := t.l.p.states[key]] else f.view;
      t.(flights := t.flights[id := Reading(f.e, view, f.due - {key})])
    case Select(id, tickets, unit) =>
      var f := t.flights[id];
      t.(flights := t.flights[id := SelectFrom(f.e, f.view, tickets, unit)])
    case Finish(id, nanos, outcome) =>
      Traffic(t.l.(p := Proxy.RecordAt(t.l.p, t.flights[id].key, nanos, outcome)), t.flights[id := Answered])
  }

  predicate CanGo(t: Traffic, moves: seq<Move>)
    decreases |moves|
  {
    moves == [] || (CanMove(t, moves[0]) && CanGo(Do(t, moves[0]), moves[1..]))
  }

  function Go(t: Traffic, moves: seq<Move>): Traffic
    requires CanGo(t, moves)
    decreases |moves|
  {
    if moves == [] then t else Go(Do(t, moves[0]), moves[1..])
  }

  /** The origins that a run sends requests to. */
  function SentIn(t: Traffic, moves: seq<Move>): set<string>
    requires CanGo(t, moves)
    decreases |moves|
  {
    if moves == [] then {}
    else
      var t' := Do(t, moves[0]);
      (if moves[0].Select? && t'.flights[moves[0].id].Sent? then {t'.flights[moves[0].id].key} else {})
      + SentIn(t', moves[1..])
  }

  // ----- moves and steps

  function ShadowOf(t: Traffic, m: Move): seq<Step>
    requires CanMove(t, m)
  {
    match m
    case Background(step) => [step]
    case Limit(id, ip, now) => [Check(t.flights[id].e.key, ip, now)]
    case Finish(id, nanos, outcome) => [Record(t.flights[id].key, nanos, outcome)]
    case _ => []
  }

  /** What a run of requests does to the world, step by step. */
  function Shadow(t: Traffic, moves: seq<Move>): seq<Step>
    requires CanGo(t, moves)
    decreases |moves|
  {
    if moves == [] then [] else ShadowOf(t, moves[0]) + Shadow(Do(t, moves[0]), moves[1..])
  }

  lemma MoveIsShadow(t: Traffic, m: Move)
    requires CanMove(t, m)
    ensures CanRun(t.l, ShadowOf(t, m)) && Run(t.l, ShadowOf(t, m)) == Do(t, m).l
  {
    if ShadowOf(t, m) == [] {
    } else {
      RunOne(t.l, ShadowOf(t, m)[0]);
      assert ShadowOf(t, m) == [ShadowOf(t, m)[0]];
    }
  }

  /** Every run of requests is a run of steps: what holds in all of those holds here. */
  lemma {:induction false} ShadowRuns(t: Traffic, moves: seq<Move>)
    requires CanGo(t, moves)
    ensures CanRun(t.l, Shadow(t, moves)) && Run(t.l, Shadow(t, moves)) == Go(t, moves).l
    decreases |moves|
  {
    if moves == [] {
    } else {
      hide Do, ShadowOf, CanMove;
      MoveIsShadow(t, moves[0]);
      ShadowRuns(Do(t, moves[0]), moves[1..]);
      RunJoined(t.l, ShadowOf(t, moves[0]), Shadow(Do(t, moves[0]), moves[1..]));
    }
  }

  /** A request for this host and path is matched to a route with this key. */
  predicate Asks(router: seq<Entry>, host: string, path: string, key: string) {
    var m := MatchIndex(router, host, path);
    m.Some? && router[m.value].key == key
  }

  predicate GenuineStep(l: World, step: Step, host: string, path: string, key: string) {
    !step.Record? && (step.Check? ==> step.limiter == key && Asks(l.p.router, host, path, key))
  }

  /** Every check is one that a request for this host and path makes when it arrives at that moment. */
  ghost predicate Genuine(l: World, steps: seq<Step>, host: string, path: string, key: string)
    requires CanRun(l, steps)
    decreases |steps|
  {
    steps == [] || (GenuineStep(l, steps[0], host, path, key)
                    && Genuine(Apply(l, steps[0]), steps[1..], host, path, key))
  }

  lemma {:induction false} GenuineJoined(l: World, a: seq<Step>, b: seq<Step>, host: string, path: string, key: string)
    requires CanRun(l, a) && CanRun(Run(l, a), b)
    requires Genuine(l, a, host, path, key) && Genuine(Run(l, a), b, host, path, key)
    ensures CanRun(l, a + b) && Genuine(l, a + b, host, path, key)
    decreases |a|
  {
    if a == [] {
      assert a + b == b;
    } else {
      hide GenuineStep, Apply, Enabled;
      assert (a + b)[1..] == a[1..] + b;
      GenuineJoined(Apply(l, a[0]), a[1..], b, host, path, key);
    }
  }

  lemma {:induction false} GenuineWithoutChecks(l: World, steps: seq<Step>, host: string, path: string, key: string)
    requires CanRun(l, steps) && forall step :: step in steps ==> !step.Check? && !step.Record?
    ensures Genuine(l, steps, host, path, key)
    decreases |steps|
  {
    if steps == [] {
    } else {
      assert steps[0] in steps;
      GenuineWithoutChecks(Apply(l, steps[0]), steps[1..], host, path, key);
    }
  }

  /** A request that arrives and is checked. */
  lemma CheckLifts(t: Traffic, check: Step, host: string, path: string, id: nat)
    requires check.Check? && id !in t.flights && Asks(t.l.p.router, host, path, check.limiter)
    ensures var arrive, limit := Arrive(id, host, path), Limit(id, check.ip, check.at);
      && CanMove(t, arrive) && ShadowOf(t, arrive) == []
      && CanMove(Do(t, arrive), limit) && ShadowOf(Do(t, arrive), limit) == [check]
      && Do(Do(t, arrive), limit).l == Apply(t.l, check)
      && Do(Do(t, arrive), limit).flights.Keys == t.flights.Keys + {id}
  {
  }

  lemma ShadowFirst(t: Traffic, m: Move, rest: seq<Move>)
    requires CanMove(t, m) && CanGo(Do(t, m), rest)
    ensures CanGo(t, [m] + rest) && Shadow(t, [m] + rest) == ShadowOf(t, m) + Shadow(Do(t, m), rest)
  {
    assert ([m] + rest)[1..] == rest;
  }

  /** Steps whose checks are genuine are what some requests do. */
  lemma {:induction false} Lifted(t: Traffic, steps: seq<Step>, host: string, path: string, key: string, id: nat)
    returns (moves: seq<Move>)
    requires CanRun(t.l, steps) && Genuine(t.l, steps, host, path, key)
    requires forall other :: other in t.flights ==> other < id
    ensures CanGo(t, moves) && Shadow(t, moves) == steps
    decreases |steps|
  {
    if steps == [] {
      moves := [];
    } else if steps[0].Check? {
      var arrive, limit := Arrive(id, host, path), Limit(id, steps[0].ip, steps[0].at);
      CheckLifts(t, steps[0], host, path, id);
      hide Do, ShadowOf, CanMove, Asks;
      var t1 := Do(t, arrive);
      var t2 := Do(t1, limit);
      var rest := Lifted(t2, steps[1..], host, path, key, id + 1);
      ShadowFirst(t1, limit, rest);
      ShadowFirst(t, arrive, [limit] + rest);
      moves := [arrive] + ([limit] + rest);
      assert [] + ([steps[0]] + steps[1..]) == steps;
    } else {
      var m := Background(steps[0]);
      var rest := Lifted(Do(t, m), steps[1..], host, path, key, id);
      ShadowFirst(t, m, rest);
      moves := [m] + rest;
      assert [steps[0]] + steps[1..] == steps;
    }
  }

  // ----- an unhealthy origin

  ghost predicate EntryKeyed(e: Entry) {
    forall c :: c in e.candidates ==> c.urlKey == c.url.text
  }

  /** The candidates that a flight holds are keyed by their URLs. */
  ghost predicate Sound(f: Flight) {
    f.Matched? || f.Allowed? || f.Reading? ==> EntryKeyed(f.e)
  }

  ghost predicate AllSound(t: Traffic) {
    Proxy.KeyedByUrl(t.l.p.router) && forall id :: id in t.flights ==> Sound(t.flights[id])
  }

  /** What the request has read lets its balancer choose `key`. */
  ghost predicate MaySend(e: Entry, view: StateTable, i: nat, key: string) {
    i < |e.candidates| && e.candidates[i].urlKey == key && Proxy.MayChoose(e, i, view)
  }

  /** The request has been sent to `key`, or may still be because of what it has read already. */
  ghost predicate UnderWayTo(f: Flight, key: string) {
    || (f.Sent? && f.key == key)
    || (f.Reading? && key !in f.due && exists i :: MaySend(f.e, f.view, i, key))
  }

  ghost predicate NoneUnderWay(t: Traffic, key: string) {
    forall id :: id in t.flights ==> !UnderWayTo(t.flights[id], key)
  }

  lemma StepKeepsKeyed(l: World, step: Step)
    requires Proxy.KeyedByUrl(l.p.router) && Enabled(l, step)
    ensures Proxy.KeyedByUrl(Apply(l, step).p.router)
  {
    if step.ReloadStep? && l.reload.Validated? {
      Proxy.BuiltRoutersKeyed(l.reload.config, map[]);
    } else if step.DiscoveryStep? && l.discovery.Snapshot? {
      Proxy.BuiltRoutersKeyed(l.discovery.seen, l.found);
    }
  }

  lemma MoveKeepsSound(t: Traffic, m: Move)
    requires AllSound(t) && CanMove(t, m)
    ensures AllSound(Do(t, m))
  {
    match m {
      case Background(step) => StepKeepsKeyed(t.l, step);
      case Limit(id, ip, now) => assert Proxy.Admit(t.l.p, t.flights[id].e.key, ip, now).0.router == t.l.p.router;
      case Finish(id, nanos, outcome) =>
        assert Proxy.RecordAt(t.l.p, t.flights[id].key, nanos, outcome).router == t.l.p.router;
      case _ =>
    }
  }

  lemma UnhealthyNotSelected(e: Entry, view: StateTable, tickets: u64, unit: Proxy.Unit, key: string)
    requires forall i :: !MaySend(e, view, i, key)
    ensures !UnderWayTo(SelectFrom(e, view, tickets, unit), key)
  {
    var turn := e.(tickets := tickets);
    Proxy.ChoiceSound(turn, view, unit);
    var chosen := Proxy.Choose(turn, view, unit);
    if chosen.Some? {
      assert Proxy.MayChoose(e, chosen.value, view) == Proxy.MayChoose(turn, chosen.value, view);
      assert !MaySend(e, view, chosen.value, key);
    }
  }

  /** Reading that it is unhealthy settles it, and reading of others does not unsettle it. */
  lemma ReadSpares(e: Entry, view: StateTable, view': StateTable, states: StateTable, other: string, key: string)
    requires EntryKeyed(e) && KnownUnhealthy(key, states)
    requires view' == if other in states then view[other := states[other]] else view
    requires other == key || forall i :: !MaySend(e, view, i, key)
    ensures forall i :: !MaySend(e, view', i, key)
  {
    forall i: nat | i < |e.candidates| && e.candidates[i].urlKey == key ensures !Proxy.MayChoose(e, i, view') {
      assert e.candidates[i] in e.candidates;
      if other != key {
        assert !MaySend(e, view, i, key);
      }
    }
  }

  lemma AdmitKeepsStates(p: Proxy.State, key: string, ip: IpAddr, now: nat)
    ensures Proxy.Admit(p, key, ip, now).0.states == p.states
  {
  }

  lemma StepKeepsStates(l: World, step: Step, key: string)
    requires !step.Check? && !step.Record? && Enabled(l, step) && key in l.p.states
    ensures key in Apply(l, step).p.states && Apply(l, step).p.states[key] == l.p.states[key]
  {
  }

  lemma LooksFirst(e: Entry, key: string)
    ensures !UnderWayTo(Reading(e, map[], KeysOf(e.candidates)), key)
  {
    forall i | MaySend(e, map[], i, key) ensures key in KeysOf(e.candidates) {
    }
  }

  /** A move sends nothing to an unhealthy origin that no request is under way to, and leaves it alone. */
  lemma MoveSparesUnhealthy(t: Traffic, m: Move, key: string)
    requires AllSound(t) && NoneUnderWay(t, key) && KnownUnhealthy(key, t.l.p.states) && CanMove(t, m)
    ensures NoneUnderWay(Do(t, m), key)
    ensures key in Do(t, m).l.p.states && Do(t, m).l.p.states[key] == t.l.p.states[key]
  {
    hide Apply, Enabled, SelectFrom, Proxy.Admit;
    match m {
      case Background(step) => StepKeepsStates(t.l, step, key);
      case Select(id, tickets, unit) =>
        var f := t.flights[id];
        assert Sound(f) && !UnderWayTo(f, key);
        UnhealthyNotSelected(f.e, f.view, tickets, unit, key);
      case Limit(id, ip, now) =>
        AdmitKeepsStates(t.l.p, t.flights[id].e.key, ip, now);
      case Finish(id, nanos, outcome) => assert !UnderWayTo(t.flights[id], key);
      case Read(id, other) =>
        var f := t.flights[id];
        assert Sound(f) && !UnderWayTo(f, key);
        if other == key || key !in f.due {
          ReadSpares(f.e, f.view, Do(t, m).flights[id].view, t.l.p.states, other, key);
        }
      case Look(id) => LooksFirst(t.flights[id].e, key);
      case _ =>
    }
  }

  /** In every interleaving of any number of requests with reloads, discovery and cleanup: an unhealthy origin
      that no request is under way to is sent nothing, and its counters, latency and flag never change. */
  lemma {:induction false} UnhealthyAbsorbs(t: Traffic, moves: seq<Move>, key: string)
    requires AllSound(t) && NoneUnderWay(t, key) && KnownUnhealthy(key, t.l.p.states) && CanGo(t, moves)
    ensures key !in SentIn(t, moves) && NoneUnderWay(Go(t, moves), key)
    ensures key in Go(t, moves).l.p.states && Go(t, moves).l.p.states[key] == t.l.p.states[key]
    decreases |moves|
  {
    if moves == [] {
    } else {
      MoveKeepsSound(t, moves[0]);
      MoveSparesUnhealthy(t, moves[0], key);
      assert moves[0].Select? ==> !UnderWayTo(Do(t, moves[0]).flights[moves[0].id], key);
      UnhealthyAbsorbs(Do(t, moves[0]), moves[1..], key);
    }
  }

  function Begin(config: ProxyConfig): Traffic {
    Traffic(Start(config), map[])
  }

  lemma {:induction false} RunKeepsSound(t: Traffic, moves: seq<Move>)
    requires AllSound(t) && CanGo(t, moves)
    ensures AllSound(Go(t, moves))
    decreases |moves|
  {
    if moves == [] {
    } else {
      MoveKeepsSound(t, moves[0]);
      RunKeepsSound(Do(t, moves[0]), moves[1..]);
    }
  }

  /** The same from any point of any run from start-up. */
  lemma UnhealthyAbsorbsFromStart(config: ProxyConfig, before: seq<Move>, after: seq<Move>, key: string)
    requires CanGo(Begin(config), before) && CanGo(Go(Begin(config), before), after)
    requires var t := Go(Begin(config), before); NoneUnderWay(t, key) && KnownUnhealthy(key, t.l.p.states)
    ensures var t := Go(Begin(config), before);
      && key !in SentIn(t, after)
      && key in Go(t, after).l.p.states && Go(t, after).l.p.states[key] == t.l.p.states[key]
  {
    Proxy.BuiltRoutersKeyed(config, map[]);
    RunKeepsSound(Begin(config), before);
    UnhealthyAbsorbs(Go(Begin(config), before), after, key);
  }

  // ----- one request alone

  lemma GoFirst(t: Traffic, m: Move, rest: seq<Move>)
    requires CanMove(t, m) && CanGo(Do(t, m), rest)
    ensures CanGo(t, [m] + rest) && Go(t, [m] + rest) == Go(Do(t, m), rest)
  {
    assert ([m] + rest)[1..] == rest;
  }

  lemma GoOne(t: Traffic, m: Move)
    requires CanMove(t, m)
    ensures CanGo(t, [m]) && Go(t, [m]) == Do(t, m)
  {
    assert CanGo(Do(t, m), []) && [m][1..] == [];
  }

  lemma {:induction false} GoJoined(t: Traffic, a: seq<Move>, b: seq<Move>)
    requires CanGo(t, a) && CanGo(Go(t, a), b)
    ensures CanGo(t, a + b) && Go(t, a + b) == Go(Go(t, a), b)
    decreases |a|
  {
    if a == [] {
      assert a + b == b;
    } else {
      assert (a + b)[1..] == a[1..] + b;
      GoJoined(Do(t, a[0]), a[1..], b);
    }
  }

  /** What a table says of some keys. */
  function Restricted(table: StateTable, keys: set<string>): StateTable {
    map key | key in keys && key in table :: table[key]
  }

  lemma RestrictedOneMore(table: StateTable, view: StateTable, key: string, due: set<string>)
    requires key in due
    ensures (if key in table then view[key := table[key]] else view) + Restricted(table, due - {key})
         == view + Restricted(table, due)
  {
  }

  lemma {:induction false} ReadAlone(t: Traffic, id: nat, e: Entry, view: StateTable, due: set<string>)
    returns (moves: seq<Move>)
    requires id in t.flights && t.flights[id] == Reading(e, view, due)
    ensures CanGo(t, moves)
    ensures Go(t, moves) == t.(flights := t.flights[id := Reading(e, view + Restricted(t.l.p.states, due), {})])
    decreases due
  {
    if due == {} {
      moves := [];
      assert view + Restricted(t.l.p.states, due) == view;
      assert t.flights[id := t.flights[id]] == t.flights;
    } else {
      hide Restricted;
      var key :| key in due;
      var t' := Do(t, Read(id, key));
      var view' := t'.flights[id].view;
      var rest := ReadAlone(t', id, e, view', due - {key});
      GoFirst(t, Read(id, key), rest);
      moves := [Read(id, key)] + rest;
      RestrictedOneMore(t.l.p.states, view, key, due);
      assert t'.flights[id := Go(t, moves).flights[id]] == t.flights[id := Go(t, moves).flights[id]];
    }
  }

  /** A choice depends only on the states of the candidates. */
  lemma ChoiceIsLocal(e: Entry, table: StateTable, unit: Proxy.Unit)
    requires EntryKeyed(e)
    ensures Proxy.Choose(e, Restricted(table, KeysOf(e.candidates)), unit) == Proxy.Choose(e, table, unit)
  {
    var view := Restricted(table, KeysOf(e.candidates));
    forall i | 0 <= i < |e.candidates|
      ensures RR.Up(e.candidates, view)[i] == RR.Up(e.candidates, table)[i]
      ensures LatencyWeights(e.candidates, view)[i] == LatencyWeights(e.candidates, table)[i]
      ensures MetricsWeights(e.candidates, view)[i] == MetricsWeights(e.candidates, table)[i]
    {
      assert e.candidates[i] in e.candidates && e.candidates[i].urlKey in KeysOf(e.candidates);
    }
    assert RR.Up(e.candidates, view) == RR.Up(e.candidates, table);
    assert LatencyWeights(e.candidates, view) == LatencyWeights(e.candidates, table);
    assert MetricsWeights(e.candidates, view) == MetricsWeights(e.candidates, table);
  }

  /** Selection from beginning to end with nothing else moving. */
  lemma SelectAlone(t: Traffic, id: nat, unit: Proxy.Unit) returns (moves: seq<Move>)
    requires id in t.flights && t.flights[id].Allowed? && EntryKeyed(t.flights[id].e)
    ensures CanGo(t, moves)
    ensures var e := t.flights[id].e;
      Go(t, moves) == t.(flights := t.flights[id := SelectFrom(e, t.l.p.states, e.tickets, unit)])
  {
    var e := t.flights[id].e;
    var t1 := Do(t, Look(id));
    var view := Restricted(t.l.p.states, KeysOf(e.candidates));
    var looks := ReadAlone(t1, id, e, map[], KeysOf(e.candidates));
    var t2 := Go(t1, looks);
    assert map[] + view == view;
    assert t2.flights[id] == Reading(e, view, {});
    var select := Select(id, e.tickets, unit);
    GoOne(t2, select);
    GoJoined(t1, looks, [select]);
    GoFirst(t, Look(id), looks + [select]);
    moves := [Look(id)] + (looks + [select]);
    assert e.(tickets := e.tickets) == e;
    ChoiceIsLocal(e, t.l.p.states, unit);
    assert Do(t2, select).flights == t.flights[id := SelectFrom(e, t.l.p.states, e.tickets, unit)];
  }

  /** The rest of a request that has passed its limiter. */
  lemma AllowedAlone(t: Traffic, id: nat, i: nat, r: Proxy.Request) returns (moves: seq<Move>)
    requires i < |t.l.p.router| && Proxy.KeyedByUrl(t.l.p.router)
    requires id in t.flights && t.flights[id] == Allowed(t.l.p.router[i])
    ensures CanGo(t, moves)
    ensures var e := t.l.p.router[i];
      var p := t.l.p.(router := t.l.p.router[i := Proxy.DrawTicket(e)]);
      var f := SelectFrom(e, p.states, e.tickets, r.unit);
      Go(t, moves) == Traffic(t.l.(p := if f.Sent? then Proxy.RecordAt(p, f.key, r.nanos, r.outcome) else p),
                              t.flights[id := Answered])
  {
    var e := t.l.p.router[i];
    var select := SelectAlone(t, id, r.unit);
    var t1 := Go(t, select);
    var draw := Background(Ticket(i));
    var t2 := Do(t1, draw);
    GoOne(t1, draw);
    GoJoined(t, select, [draw]);
    moves := select + [draw];
    if t2.flights[id].Sent? {
      var finish := Finish(id, r.nanos, r.outcome);
      GoOne(t2, finish);
      GoJoined(t, select + [draw], [finish]);
      moves := select + [draw] + [finish];
    }
  }

  /** A request that nothing interrupts does what serving it does, its ticket included. */
  lemma RequestAlone(t: Traffic, id: nat, r: Proxy.Request) returns (moves: seq<Move>)
    requires id !in t.flights && Proxy.KeyedByUrl(t.l.p.router)
    ensures CanGo(t, moves)
    ensures Go(t, moves) == Traffic(t.l.(p := Proxy.Serve(t.l.p, r).0), t.flights[id := Answered])
  {
    var arrive := Arrive(id, r.host, r.path);
    var t1 := Do(t, arrive);
    var m := MatchIndex(t.l.p.router, r.host, r.path);
    if m.None? {
      moves := [arrive];
      GoOne(t, arrive);
    } else {
      var e := t.l.p.router[m.value];
      var limit := Limit(id, r.ip, r.now);
      var t2 := Do(t1, limit);
      if t2.flights[id].Answered? {
        GoOne(t1, limit);
        moves := [arrive] + [limit];
        GoFirst(t, arrive, [limit]);
        assert t2.flights == t.flights[id := Answered];
      } else {
        var rest := AllowedAlone(t2, id, m.value, r);
        GoFirst(t1, limit, rest);
        GoFirst(t, arrive, [limit] + rest);
        moves := [arrive] + ([limit] + rest);
        assert t2.flights[id := Answered] == t.flights[id := Answered];
      }
    }
  }

  // ----- when an unhealthy origin can be reached

  ghost predicate Untouched(t: Traffic, moves: seq<Move>, key: string)
    requires CanGo(t, moves) && key in t.l.p.states
  {
    && key !in SentIn(t, moves)
    && key in Go(t, moves).l.p.states && Go(t, moves).l.p.states[key] == t.l.p.states[key]
  }

  /** The ticket with a candidate's own number chooses it if it is up. */
  lemma TicketChooses(up: seq<bool>, i: nat)
    requires i < |up| && up[i]
    ensures RR.Pick(up, i) == Some(i)
  {
    RR.SmallMod(i, |up|);
  }

  lemma QuotientTimes(part: real, total: real)
    requires 0.0 <= part < total
    ensures 0.0 <= part / total < 1.0 && (part / total) * total == part
  {
  }

  /** Some draw chooses a candidate of positive weight. */
  lemma DrawChooses(weights: seq<real>, i: nat) returns (unit: Proxy.Unit)
    requires NonNegative(weights) && i < |weights| && weights[i] > 0.0
    ensures Draw(weights, unit) == Some(i)
  {
    var total := Total(weights);
    PrefixGrows(weights, 0, i);
    PrefixGrows(weights, i + 1, |weights|);
    QuotientTimes(Prefix(weights, i), total);
    unit := Prefix(weights, i) / total;
    assert Hits(weights, unit, i) by {
      assert unit * total == Prefix(weights, i);
    }
    DrawIff(weights, unit);
  }

  /** Whatever the balancer may choose, some ticket or draw makes it choose. */
  lemma CanSend(e: Entry, view: StateTable, i: nat, key: string) returns (tickets: u64, unit: Proxy.Unit)
    requires MaySend(e, view, i, key) && |e.candidates| <= 0x1_0000_0000_0000_0000
    ensures SelectFrom(e, view, tickets, unit) == Sent(key)
  {
    tickets, unit := i, 0.0;
    match e.algorithm {
      case RoundRobin => TicketChooses(RR.Up(e.candidates, view), i);
      case WeightedLatency =>
        LatencyWeightsSound(e.candidates, view);
        unit := DrawChooses(LatencyWeights(e.candidates, view), i);
      case WeightedMetrics =>
        MetricsWeightsSound(e.candidates, view);
        unit := DrawChooses(MetricsWeights(e.candidates, view), i);
    }
    assert Proxy.Choose(e.(tickets := tickets), view, unit) == Some(i);
  }

  lemma {:induction false} SentJoined(t: Traffic, a: seq<Move>, b: seq<Move>)
    requires CanGo(t, a) && CanGo(Go(t, a), b)
    ensures CanGo(t, a + b) && SentIn(t, a + b) == SentIn(t, a) + SentIn(Go(t, a), b)
    decreases |a|
  {
    if a == [] {
      assert a + b == b;
    } else {
      hide Do, CanMove;
      assert (a + b)[1..] == a[1..] + b;
      SentJoined(Do(t, a[0]), a[1..], b);
    }
  }

  /** The balancer may choose `key` as long as what has been read of it stays. */
  lemma StillMaySend(e: Entry, view: StateTable, more: StateTable, i: nat, key: string)
    requires EntryKeyed(e) && MaySend(e, view, i, key) && key !in more
    ensures MaySend(e, view + more, i, key)
  {
    assert e.candidates[i] in e.candidates;
  }

  lemma SendsOn(t: Traffic, id: nat, key: string) returns (moves: seq<Move>)
    requires id in t.flights && t.flights[id].Reading? && UnderWayTo(t.flights[id], key)
    requires EntryKeyed(t.flights[id].e) && |t.flights[id].e.candidates| <= 0x1_0000_0000_0000_0000
    ensures CanGo(t, moves) && key in SentIn(t, moves)
  {
    var f := t.flights[id];
    var i: nat :| MaySend(f.e, f.view, i, key);
    var looks := ReadAlone(t, id, f.e, f.view, f.due);
    var t1 := Go(t, looks);
    var view := f.view + Restricted(t.l.p.states, f.due);
    StillMaySend(f.e, f.view, Restricted(t.l.p.states, f.due), i, key);
    var tickets, unit := CanSend(f.e, view, i, key);
    var select := Select(id, tickets, unit);
    GoOne(t1, select);
    assert SentIn(t1, [select]) == {key} + SentIn(Do(t1, select), []) by {
      assert [select][1..] == [];
    }
    SentJoined(t, looks, [select]);
    moves := looks + [select];
  }

  lemma TotalMoves(n: u64)
    ensures Succ64(n) != n
  {
  }

  /** Recording an outcome leaves a trace. */
  lemma FinishTouches(t: Traffic, id: nat)
    requires id in t.flights && t.flights[id].Sent? && t.flights[id].key in t.l.p.states
    ensures CanGo(t, [Finish(id, 0, Proxy.Failed)])
    ensures var key := t.flights[id].key;
      !Untouched(t, [Finish(id, 0, Proxy.Failed)], key)
  {
    var finish := Finish(id, 0, Proxy.Failed);
    var key := t.flights[id].key;
    GoOne(t, finish);
    TotalMoves(t.l.p.states[key].totalRequests);
    assert Do(t, finish).l.p.states[key].totalRequests == Succ64(t.l.p.states[key].totalRequests);
  }

  /** An unhealthy origin is sent nothing and stays as it is in every run exactly when no request is under way
      to it. */
  lemma UnhealthyAbsorbsIff(t: Traffic, key: string)
    requires AllSound(t) && KnownUnhealthy(key, t.l.p.states)
    requires forall id :: id in t.flights && t.flights[id].Reading? ==>
               |t.flights[id].e.candidates| <= 0x1_0000_0000_0000_0000
    ensures (forall moves :: CanGo(t, moves) ==> Untouched(t, moves, key)) <==> NoneUnderWay(t, key)
  {
    if NoneUnderWay(t, key) {
      forall moves | CanGo(t, moves) ensures Untouched(t, moves, key) {
        UnhealthyAbsorbs(t, moves, key);
      }
    } else {
      var id :| id in t.flights && UnderWayTo(t.flights[id], key);
      if t.flights[id].Sent? {
        FinishTouches(t, id);
      } else {
        assert Sound(t.flights[id]);
        var moves := SendsOn(t, id, key);
        assert !Untouched(t, moves, key);
      }
    }
  }

  // ----- requests already sent

  const ORIGIN: string := "http://origin/"

  function OneRoute(): ProxyConfig {
    SimpleConfig([SimpleRoute(None, None, None)])
  }

  /** One open route to one origin, with the passive settings of `OneRoute`. */
  ghost predicate Plain(t: Traffic) {
    var p := t.l.p;
    && |p.router| == 1 && p.router[0] == PlainEntries(OneRoute())[0]
    && p.limiters == map[] && p.global.None? && p.passive == OneRoute().passive
    && ORIGIN in p.states
  }

  lemma OneCandidate()
    ensures var e := PlainEntries(OneRoute())[0];
      && |e.candidates| == 1 && e.candidates[0].urlKey == e.candidates[0].url.text == ORIGIN
      && e.algorithm.RoundRobin? && e.matchHost.None? && e.matchPath.None?
  {
    var pools := OneRoute().routes[0].pools;
    assert pools[..0] == [] && pools[0].origins[..0] == [];
    assert Statics(pools[0].origins) == [EndpointAt(Url("http", ORIGIN), None, None)];
    assert PlainCandidates(pools) == PlainCandidates([]) + Statics(pools[0].origins);
  }

  /** A request as far as its sending. */
  lemma SendAlone(t: Traffic, id: nat) returns (moves: seq<Move>)
    requires Plain(t) && t.l.p.states[ORIGIN].healthy && id !in t.flights
    ensures CanGo(t, moves) && Go(t, moves) == t.(flights := t.flights[id := Sent(ORIGIN)])
  {
    OneCandidate();
    var e := t.l.p.router[0];
    var arrive, limit := Arrive(id, "", ""), Limit(id, V4(0), 0);
    assert MatchFrom(t.l.p.router, "", "", 0) == Some(0);
    var t1 := Do(t, arrive);
    var t2 := Do(t1, limit);
    assert t2.flights[id] == Allowed(e);
    var select := SelectAlone(t2, id, 0.0);
    Proxy.ChoiceSound(e, t.l.p.states, 0.0);
    assert Proxy.MayChoose(e, 0, t.l.p.states);
    assert SelectFrom(e, t.l.p.states, e.tickets, 0.0) == Sent(ORIGIN) by {
      assert e.(tickets := e.tickets) == e;
    }
    GoFirst(t1, limit, select);
    GoFirst(t, arrive, [limit] + select);
    moves := [arrive] + ([limit] + select);
    assert t2.flights[id := Sent(ORIGIN)] == t.flights[id := Sent(ORIGIN)];
  }

  /** One request that is sent and fails. */
  lemma FailAlone(t: Traffic, id: nat) returns (moves: seq<Move>)
    requires Plain(t) && t.l.p.states[ORIGIN].healthy && id !in t.flights
    ensures CanGo(t, moves)
    ensures Go(t, moves)
         == Traffic(t.l.(p := Proxy.RecordAt(t.l.p, ORIGIN, 0, Proxy.Failed)), t.flights[id := Answered])
  {
    var send := SendAlone(t, id);
    var finish := Finish(id, 0, Proxy.Failed);
    GoOne(Go(t, send), finish);
    GoJoined(t, send, [finish]);
    moves := send + [finish];
  }

  lemma FailureCounts(p: Proxy.State)
    requires ORIGIN in p.states && p.passive == OneRoute().passive
    requires p.states[ORIGIN].consecutiveFailures < 5 && p.states[ORIGIN].healthy
    ensures var p' := Proxy.RecordAt(p, ORIGIN, 0, Proxy.Failed);
      && p' == p.(states := p'.states) && ORIGIN in p'.states
      && p'.states[ORIGIN].consecutiveFailures == p.states[ORIGIN].consecutiveFailures + 1
      && (p'.states[ORIGIN].healthy <==> p'.states[ORIGIN].consecutiveFailures < 5)
      && p'.states[ORIGIN].consecutiveSuccesses == 0
  {
  }

  /** `n` of them, the last of which may be the fifth in a row. */
  lemma {:induction false} FailMany(t: Traffic, first: nat, n: nat) returns (moves: seq<Move>)
    requires Plain(t) && forall id :: id in t.flights ==> id < first
    requires t.l.p.states[ORIGIN].consecutiveFailures + n <= 5
    requires t.l.p.states[ORIGIN].healthy <==> t.l.p.states[ORIGIN].consecutiveFailures < 5
    ensures CanGo(t, moves)
    ensures var t', before := Go(t, moves), t.l.p.states[ORIGIN];
      && Plain(t') && t'.l.p.states[ORIGIN].consecutiveFailures == before.consecutiveFailures + n
      && (t'.l.p.states[ORIGIN].healthy <==> t'.l.p.states[ORIGIN].consecutiveFailures < 5)
      && (n > 0 ==> t'.l.p.states[ORIGIN].consecutiveSuccesses == 0)
      && (n == 0 ==> t' == t)
      && forall id :: id in t.flights ==> id in t'.flights && t'.flights[id] == t.flights[id]
    decreases n
  {
    if n == 0 {
      moves := [];
    } else {
      hide Proxy.RecordAt, Go;
      var fail := FailAlone(t, first);
      FailureCounts(t.l.p);
      var t1 := Go(t, fail);
      var rest := FailMany(t1, first + 1, n - 1);
      GoJoined(t, fail, rest);
      moves := fail + rest;
    }
  }

  lemma StartPlain()
    ensures Plain(Begin(OneRoute())) && Begin(OneRoute()).l.p.states[ORIGIN] == Origin.NEW
  {
    var routes := OneRoute().routes;
    assert routes[..0] == [] && routes[0].pools[..0] == [] && routes[0].pools[0].origins[..0] == [];
    assert Proxy.KeysOfOrigins(routes[0].pools[0].origins) == {ORIGIN};
    assert Proxy.KeysOfPools(routes[0].pools) == Proxy.KeysOfPools([]) + {ORIGIN};
    assert Proxy.KeysOfRoutes(routes) == Proxy.KeysOfRoutes([]) + {ORIGIN};
    assert Proxy.LimiterTable(routes, 1) == Proxy.LimiterTable(routes, 0);
  }

  /** Without the condition on requests under way it fails: an origin goes unhealthy while two requests are
      on their way to it, both succeed, and it is healthy again. */
  lemma RevivedInFlight() returns (before: seq<Move>, after: seq<Move>)
    ensures CanGo(Begin(OneRoute()), before) && CanGo(Go(Begin(OneRoute()), before), after)
    ensures KnownUnhealthy(ORIGIN, Go(Begin(OneRoute()), before).l.p.states)
    ensures after == [Finish(0, 0, Proxy.Responded(200)), Finish(1, 0, Proxy.Responded(200))]
    ensures KnownHealthy(ORIGIN, Go(Go(Begin(OneRoute()), before), after).l.p.states)
  {
    var t := Begin(OneRoute());
    StartPlain();
    var first := SendAlone(t, 0);
    var t1 := Go(t, first);
    var second := SendAlone(t1, 1);
    var t2 := Go(t1, second);
    var failures := FailMany(t2, 2, 5);
    GoJoined(t1, second, failures);
    GoJoined(t, first, second + failures);
    before := first + (second + failures);
    var t3 := Go(t2, failures);
    assert t3.flights[0] == t3.flights[1] == Sent(ORIGIN);
    var finish0, finish1 := Finish(0, 0, Proxy.Responded(200)), Finish(1, 0, Proxy.Responded(200));
    GoOne(Do(t3, finish0), finish1);
    GoFirst(t3, finish0, [finish1]);
    after := [finish0] + [finish1];
  }
}
