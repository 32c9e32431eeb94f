/** What an origin's counters, latency and flag say about the traffic it was sent. */
module Outcomes {
  import opened Primitives
  import opened Config
  import opened Route
  import opened Proxy
  import Origin

  /** No response, or one whose status says that the server failed. */
  predicate WentWrong(outcome: Outcome) {
    match outcome
    case Responded(status) => 500 <= status <= 599
    case Failed => true
  }

  /** The threshold an outcome is held to: two successes or five failures unless passive tracking is on. */
  function ThresholdFor(passive: PassiveHealth, success: bool): u32 {
    if passive.enabled then (if success then passive.successThreshold else passive.failureThreshold)
    else if success then 2
    else 5
  }

  /** What one outcome leaves, by its status. */
  lemma OutcomeLeaves(v: Origin.Stats, passive: PassiveHealth, nanos: nat, outcome: Outcome)
    ensures var v' := RecordOutcome(v, passive, nanos, outcome);
      && v'.totalRequests == (v.totalRequests + 1) % 0x1_0000_0000_0000_0000
      && v'.ewmaLatencyNs
         == (nanos % 0x1_0000_0000_0000_0000 + 9 * v.ewmaLatencyNs) % 0x1_0000_0000_0000_0000 / 10
    ensures outcome.Responded? && (outcome.status < 500 || outcome.status > 599) ==>
      var v' := RecordOutcome(v, passive, nanos, outcome);
      && v'.consecutiveFailures == 0 && v'.totalFailures == v.totalFailures
      && v'.consecutiveSuccesses == (v.consecutiveSuccesses + 1) % 0x1_0000_0000
      && (v'.healthy <==>
            v.healthy || v'.consecutiveSuccesses >= if passive.enabled then passive.successThreshold else 2)
    ensures outcome.Failed? || 500 <= outcome.status <= 599 ==>
      var v' := RecordOutcome(v, passive, nanos, outcome);
      && v'.consecutiveSuccesses == 0
      && v'.totalFailures == (v.totalFailures + 1) % 0x1_0000_0000_0000_0000
      && v'.consecutiveFailures == (v.consecutiveFailures + 1) % 0x1_0000_0000
      && (v'.healthy <==>
            v.healthy && v'.consecutiveFailures < if passive.enabled then passive.failureThreshold else 5)
  {
  }

  /** What the request that an event sends to `key`, if it does, reports of that origin. */
  function ReportAt(s: System, e: Event, key: string): seq<Origin.Report> {
    if key in SentTo(s, e) then
      var success := !WentWrong(e.request.outcome);
      [Origin.Report(success, ThresholdFor(s.proxy.passive, success))]
    else []
  }

  /** The latency of that request, as a 64-bit sample. */
  function SampleAt(s: System, e: Event, key: string): seq<u64> {
    if key in SentTo(s, e) then [e.request.nanos % 0x1_0000_0000_0000_0000] else []
  }

  /** The reports and latencies of all requests that a run sends to `key`, in order. */
  function ReportsAt(s: System, events: seq<Event>, key: string): seq<Origin.Report>
    decreases |events|
  {
    if events == [] then [] else ReportAt(s, events[0], key) + ReportsAt(Step(s, events[0]), events[1..], key)
  }

  function SamplesAt(s: System, events: seq<Event>, key: string): seq<u64>
    decreases |events|
  {
    if events == [] then [] else SampleAt(s, events[0], key) + SamplesAt(Step(s, events[0]), events[1..], key)
  }

  /** How many requests a run sends to `key`, and how many of these go wrong. */
  function SendsTo(s: System, events: seq<Event>, key: string): nat
    decreases |events|
  {
    if events == [] then 0
    else (if key in SentTo(s, events[0]) then 1 else 0) + SendsTo(Step(s, events[0]), events[1..], key)
  }

  function WrongAt(s: System, events: seq<Event>, key: string): nat
    decreases |events|
  {
    if events == [] then 0
    else (if key in SentTo(s, events[0]) && WentWrong(events[0].request.outcome) then 1 else 0)
         + WrongAt(Step(s, events[0]), events[1..], key)
  }

  function FailuresIn(h: seq<Origin.Report>): nat {
    if h == [] then 0 else FailuresIn(h[..|h| - 1]) + if h[|h| - 1].success then 0 else 1
  }

  lemma {:induction false} FailuresJoined(a: seq<Origin.Report>, b: seq<Origin.Report>)
    ensures FailuresIn(a + b) == FailuresIn(a) + FailuresIn(b)
    decreases |b|
  {
    if b == [] {
      assert a + b == a;
    } else {
      FailuresJoined(a, b[..|b| - 1]);
      assert (a + b)[..|a + b| - 1] == a + b[..|b| - 1];
    }
  }

  lemma {:induction false} ReportsCount(s: System, events: seq<Event>, key: string)
    ensures |ReportsAt(s, events, key)| == SendsTo(s, events, key)
    ensures FailuresIn(ReportsAt(s, events, key)) == WrongAt(s, events, key)
    decreases |events|
  {
    if events == [] {
    } else {
      var one := ReportAt(s, events[0], key);
      ReportsCount(Step(s, events[0]), events[1..], key);
      FailuresJoined(one, ReportsAt(Step(s, events[0]), events[1..], key));
      assert FailuresIn([]) == 0 && (one != [] ==> one[..|one| - 1] == []);
    }
  }

  /** The state is what these reports and samples make of a new origin. */
  ghost predicate Reflects(v: Origin.Stats, h: seq<Origin.Report>, samples: seq<u64>) {
    var after := Origin.After(h, |h|);
    && v.consecutiveSuccesses == after.consecutiveSuccesses
    && v.consecutiveFailures == after.consecutiveFailures
    && v.healthy == after.healthy
    && v.totalRequests == |h| % 0x1_0000_0000_0000_0000
    && v.totalFailures == FailuresIn(h) % 0x1_0000_0000_0000_0000
    && v.ewmaLatencyNs == Origin.Ewma(0, samples, |samples|)
  }

  /** A key that has a state has the one that its reports make; one that has none has no reports. */
  ghost predicate Accounts(p: State, key: string, h: seq<Origin.Report>, samples: seq<u64>) {
    if key in p.states then Reflects(p.states[key], h, samples) else h == [] && samples == []
  }

  lemma RecordingReflects(v: Origin.Stats, passive: PassiveHealth, h: seq<Origin.Report>, samples: seq<u64>,
                          nanos: nat, outcome: Outcome)
    requires Reflects(v, h, samples)
    ensures var x := Origin.Report(!WentWrong(outcome), ThresholdFor(passive, !WentWrong(outcome)));
      Reflects(RecordOutcome(v, passive, nanos, outcome), h + [x], samples + [nanos % 0x1_0000_0000_0000_0000])
  {
    var x := Origin.Report(!WentWrong(outcome), ThresholdFor(passive, !WentWrong(outcome)));
    var sample: u64 := nanos % 0x1_0000_0000_0000_0000;
    Origin.AfterOfPrefix(h, x, |h|);
    Origin.EwmaOfPrefix(0, samples, samples + [sample], |samples|);
    WrapSucc64(|h|);
    WrapSucc64(FailuresIn(h));
    assert (h + [x])[..|h|] == h;
  }

  lemma NewReflects()
    ensures Reflects(Origin.NEW, [], [])
  {
  }

  /** Serving a request changes one origin at most: the one it was sent to, by its outcome. */
  lemma ServeRecords(p: State, r: Request, key: string)
    ensures var (p', answer) := Serve(p, r);
      && p'.passive == p.passive && p'.states.Keys == p.states.Keys
      && (key in p.states ==>
            p'.states[key] ==
            if answer.Forwarded? && p.router[answer.route].candidates[answer.candidate].urlKey == key
            then RecordOutcome(p.states[key], p.passive, r.nanos, r.outcome)
            else p.states[key])
  {
  }

  /** A request sent to a candidate without a state leaves no record at all, and only a weighted balancer
      sends one there. */
  lemma StatelessUnrecorded(p: State, r: Request)
    requires Serve(p, r).1.Forwarded?
    requires p.router[Serve(p, r).1.route].candidates[Serve(p, r).1.candidate].urlKey !in p.states
    ensures Serve(p, r).0.states == p.states
    ensures !p.router[Serve(p, r).1.route].algorithm.RoundRobin?
  {
    var e := p.router[Serve(p, r).1.route];
    ChoiceSound(e, p.states, r.unit);
  }

  /** Every candidate and every configured origin has a state. */
  ghost predicate Supplied(p: State) {
    KeysOfRoutes(p.config.routes) <= p.states.Keys && RouterWithin(p.router, p.states.Keys)
  }

  lemma StartSupplied(config: ProxyConfig)
    ensures Supplied(Fresh(config))
  {
    RoutersHaveKeys(config, map[]);
    WithinMore(PlainEntries(config), KeysOfRoutes(config.routes), Fresh(config).states.Keys);
  }

  lemma ServeKeepsSupply(p: State, r: Request)
    requires Supplied(p)
    ensures Supplied(Serve(p, r).0)
  {
    var p' := Serve(p, r).0;
    ServeKeepsCandidates(p, r);
    ServeRecords(p, r, "");
    forall i | 0 <= i < |p'.router| ensures CandidatesWithin(p'.router[i].candidates, p'.states.Keys) {
      assert CandidatesWithin(p.router[i].candidates, p.states.Keys);
    }
  }

  lemma StepKeepsSupply(s: System, e: Event)
    requires Supplied(s.proxy)
    ensures Supplied(Step(s, e).proxy)
  {
    hide Serve;
    match e {
      case Arrives(request) => ServeKeepsSupply(s.proxy, request);
      case Reloads(config) =>
        RoutersHaveKeys(config, map[]);
        WithinMore(PlainEntries(config), KeysOfRoutes(config.routes), Step(s, e).proxy.states.Keys);
      case Discovers(pool, url) =>
        var config, found := s.proxy.config, Step(s, e).found;
        RoutersHaveKeys(config, found);
        WithinMore(Entries(config, found), KeysOfRoutes(config.routes) + FoundKeys(found),
                   Step(s, e).proxy.states.Keys);
    }
  }

  lemma SentHasState(s: System, e: Event, key: string)
    requires Supplied(s.proxy) && key in SentTo(s, e)
    ensures key in s.proxy.states
  {
    var answer := Serve(s.proxy, e.request).1;
    var candidates := s.proxy.router[answer.route].candidates;
    assert CandidatesWithin(candidates, s.proxy.states.Keys);
    assert candidates[answer.candidate] in candidates;
  }

  lemma StepAccounts(s: System, e: Event, key: string, h: seq<Origin.Report>, samples: seq<u64>)
    requires Supplied(s.proxy) && Accounts(s.proxy, key, h, samples)
    ensures Accounts(Step(s, e).proxy, key, h + ReportAt(s, e, key), samples + SampleAt(s, e, key))
  {
    hide Reflects, RecordOutcome, Serve, Supplied;
    if e.Arrives? {
      ServeRecords(s.proxy, e.request, key);
    }
    if key in SentTo(s, e) {
      SentHasState(s, e, key);
      RecordingReflects(s.proxy.states[key], s.proxy.passive, h, samples, e.request.nanos, e.request.outcome);
    } else {
      assert h + [] == h && samples + [] == samples;
      NewReflects();
    }
  }

  lemma {:induction false} RunAccounts(s: System, events: seq<Event>, key: string, h: seq<Origin.Report>,
                                       samples: seq<u64>)
    requires Supplied(s.proxy) && Accounts(s.proxy, key, h, samples)
    ensures Accounts(Run(s, events).proxy, key, h + ReportsAt(s, events, key), samples + SamplesAt(s, events, key))
    decreases |events|
  {
    hide Accounts, Step, ReportAt, SampleAt, Supplied;
    if events == [] {
      assert h + [] == h && samples + [] == samples;
    } else {
      var e, s', rest := events[0], Step(s, events[0]), events[1..];
      StepKeepsSupply(s, e);
      StepAccounts(s, e, key, h, samples);
      RunAccounts(s', rest, key, h + ReportAt(s, e, key), samples + SampleAt(s, e, key));
      assert h + ReportsAt(s, events, key) == h + ReportAt(s, e, key) + ReportsAt(s', rest, key);
      assert samples + SamplesAt(s, events, key) == samples + SampleAt(s, e, key) + SamplesAt(s', rest, key);
    }
  }

  lemma FromStart(config: ProxyConfig, events: seq<Event>, key: string)
    ensures var s := System(Fresh(config), map[]);
      Accounts(Run(s, events).proxy, key, ReportsAt(s, events, key), SamplesAt(s, events, key))
  {
    var s := System(Fresh(config), map[]);
    NewReflects();
    StartSupplied(config);
    RunAccounts(s, events, key, [], []);
    assert [] + ReportsAt(s, events, key) == ReportsAt(s, events, key);
    assert [] + SamplesAt(s, events, key) == SamplesAt(s, events, key);
  }

  /** From start-up, through any requests, discoveries and reloads, for every key: each request sent to
      an origin is counted on it once, and so is each failure, and its latency is the average over just
      those requests. A key without a state has been sent nothing. */
  lemma TrafficIsCounted(config: ProxyConfig, events: seq<Event>, key: string)
    ensures var s := System(Fresh(config), map[]);
      var samples, final := SamplesAt(s, events, key), Run(s, events).proxy.states;
      if key in final then
        && final[key].totalRequests == SendsTo(s, events, key) % 0x1_0000_0000_0000_0000
        && final[key].totalFailures == WrongAt(s, events, key) % 0x1_0000_0000_0000_0000
        && final[key].ewmaLatencyNs == Origin.Ewma(0, samples, |samples|)
      else SendsTo(s, events, key) == 0 && samples == []
  {
    FromStart(config, events, key);
    ReportsCount(System(Fresh(config), map[]), events, key);
  }

  /** The flag of every origin is decided by the last completed run among the reports of those requests,
      each held to the threshold in force when it was recorded. */
  lemma TrafficDecidesFlag(config: ProxyConfig, events: seq<Event>, key: string)
    requires key in Run(System(Fresh(config), map[]), events).proxy.states
    ensures var s := System(Fresh(config), map[]);
      var h := ReportsAt(s, events, key);
      Run(s, events).proxy.states[key].healthy <==> Origin.LastRunIsSuccess(h, |h|)
  {
    FromStart(config, events, key);
    Origin.FlagFromHistory(ReportsAt(System(Fresh(config), map[]), events, key));
  }
}
