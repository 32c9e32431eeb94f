/** What an origin's counters, latency and flag say of the requests that were sent to it, when any number
    of them are under way at once. */
module Recordings {
  import opened Primitives
  import opened Config
  import opened Live
  import opened Requests
  import opened Outcomes
  import Origin
  import Proxy

  /** The move records the outcome of a request on `key`. */
  predicate RecordsOn(t: Traffic, m: Move, key: string)
    requires CanMove(t, m)
  {
    m.Finish? && t.flights[m.id].key == key && key in t.l.p.states
  }

  function ReportOf(t: Traffic, m: Move, key: string): seq<Origin.Report>
    requires CanMove(t, m)
  {
    if RecordsOn(t, m, key) then
      var success := !WentWrong(m.outcome);
      [Origin.Report(success, ThresholdFor(t.l.p.passive, success))]
    else []
  }

  function SampleOf(t: Traffic, m: Move, key: string): seq<u64>
    requires CanMove(t, m)
  {
    if RecordsOn(t, m, key) then [m.nanos % 0x1_0000_0000_0000_0000] else []
  }

  /** The outcomes and latencies recorded on `key` in a run, in the order in which they are recorded. */
  function ReportsIn(t: Traffic, moves: seq<Move>, key: string): seq<Origin.Report>
    requires CanGo(t, moves)
    decreases |moves|
  {
    if moves == [] then [] else ReportOf(t, moves[0], key) + ReportsIn(Do(t, moves[0]), moves[1..], key)
  }

  function SamplesIn(t: Traffic, moves: seq<Move>, key: string): seq<u64>
    requires CanGo(t, moves)
    decreases |moves|
  {
    if moves == [] then [] else SampleOf(t, moves[0], key) + SamplesIn(Do(t, moves[0]), moves[1..], key)
  }

  /** How many recordings on `key` there are in a run, and how many of them are of requests that went wrong. */
  function RecordedOn(t: Traffic, moves: seq<Move>, key: string): nat
    requires CanGo(t, moves)
    decreases |moves|
  {
    if moves == [] then 0
    else (if RecordsOn(t, moves[0], key) then 1 else 0) + RecordedOn(Do(t, moves[0]), moves[1..], key)
  }

  function WrongOn(t: Traffic, moves: seq<Move>, key: string): nat
    requires CanGo(t, moves)
    decreases |moves|
  {
    if moves == [] then 0
    else (if RecordsOn(t, moves[0], key) && WentWrong(moves[0].outcome) then 1 else 0)
         + WrongOn(Do(t, moves[0]), moves[1..], key)
  }

  lemma {:induction false} ReportsCounted(t: Traffic, moves: seq<Move>, key: string)
    requires CanGo(t, moves)
    ensures |ReportsIn(t, moves, key)| == RecordedOn(t, moves, key)
    ensures FailuresIn(ReportsIn(t, moves, key)) == WrongOn(t, moves, key)
    decreases |moves|
  {
    if moves == [] {
    } else {
      hide Do, CanMove;
      var one := ReportOf(t, moves[0], key);
      ReportsCounted(Do(t, moves[0]), moves[1..], key);
      FailuresJoined(one, ReportsIn(Do(t, moves[0]), moves[1..], key));
      assert FailuresIn([]) == 0 && (one != [] ==> one[..|one| - 1] == []);
    }
  }

  lemma StepKeepsOrAdds(l: World, step: Step, key: string)
    requires !step.Check? && !step.Record? && Enabled(l, step)
    ensures var p, p' := l.p, Apply(l, step).p;
      if key in p.states then key in p'.states && p'.states[key] == p.states[key]
      else key in p'.states ==> p'.states[key] == Origin.NEW
  {
  }

  /** No other move changes a state that is there, and a state that comes is new. */
  lemma OtherMovesKeep(t: Traffic, m: Move, key: string)
    requires CanMove(t, m) && !RecordsOn(t, m, key)
    ensures var p, p' := t.l.p, Do(t, m).l.p;
      if key in p.states then key in p'.states && p'.states[key] == p.states[key]
      else key in p'.states ==> p'.states[key] == Origin.NEW
  {
    hide Apply, Enabled, SelectFrom, Proxy.Admit;
    match m {
      case Background(step) => StepKeepsOrAdds(t.l, step, key);
      case Limit(id, ip, now) => AdmitKeepsStates(t.l.p, t.flights[id].e.key, ip, now);
      case _ =>
    }
  }

  lemma MoveAccounts(t: Traffic, m: Move, key: string, h: seq<Origin.Report>, samples: seq<u64>)
    requires CanMove(t, m) && Accounts(t.l.p, key, h, samples)
    ensures Accounts(Do(t, m).l.p, key, h + ReportOf(t, m, key), samples + SampleOf(t, m, key))
  {
    hide Reflects, Apply, Enabled;
    if RecordsOn(t, m, key) {
      hide Proxy.RecordOutcome;
      RecordingReflects(t.l.p.states[key], t.l.p.passive, h, samples, m.nanos, m.outcome);
    } else {
      OtherMovesKeep(t, m, key);
      NewReflects();
      assert h + [] == h && samples + [] == samples;
    }
  }

  lemma {:induction false} RunAccounts(t: Traffic, moves: seq<Move>, key: string, h: seq<Origin.Report>,
                                       samples: seq<u64>)
    requires CanGo(t, moves) && Accounts(t.l.p, key, h, samples)
    ensures Accounts(Go(t, moves).l.p, key, h + ReportsIn(t, moves, key), samples + SamplesIn(t, moves, key))
    decreases |moves|
  {
    hide Accounts, Do, CanMove, ReportOf, SampleOf;
    if moves == [] {
      assert h + [] == h && samples + [] == samples;
    } else {
      var m, t', rest := moves[0], Do(t, moves[0]), moves[1..];
      MoveAccounts(t, m, key, h, samples);
      RunAccounts(t', rest, key, h + ReportOf(t, m, key), samples + SampleOf(t, m, key));
      assert h + ReportsIn(t, moves, key) == h + ReportOf(t, m, key) + ReportsIn(t', rest, key);
      assert samples + SamplesIn(t, moves, key) == samples + SampleOf(t, m, key) + SamplesIn(t', rest, key);
    }
  }

  lemma FromStart(config: ProxyConfig, moves: seq<Move>, key: string)
    requires CanGo(Begin(config), moves)
    ensures var t := Begin(config);
      Accounts(Go(t, moves).l.p, key, ReportsIn(t, moves, key), SamplesIn(t, moves, key))
  {
    var t := Begin(config);
    NewReflects();
    RunAccounts(t, moves, key, [], []);
    assert [] + ReportsIn(t, moves, key) == ReportsIn(t, moves, key);
    assert [] + SamplesIn(t, moves, key) == SamplesIn(t, moves, key);
  }

  /** From start-up, in every interleaving of any number of requests with reloads, discovery and cleanup, for
      every key: the totals count each recorded outcome and each failure once, the latency is the average
      over just those requests, and the flag is decided by the last completed run among the outcomes in the
      order in which they were recorded, each held to the threshold in force then. */
  lemma RecordedWhenInterleaved(config: ProxyConfig, moves: seq<Move>, key: string)
    requires CanGo(Begin(config), moves)
    ensures var t := Begin(config);
      var h, samples, final := ReportsIn(t, moves, key), SamplesIn(t, moves, key), Go(t, moves).l.p.states;
      if key in final then
        && final[key].totalRequests == RecordedOn(t, moves, key) % 0x1_0000_0000_0000_0000
        && final[key].totalFailures == WrongOn(t, moves, key) % 0x1_0000_0000_0000_0000
        && final[key].ewmaLatencyNs == Origin.Ewma(0, samples, |samples|)
        && (final[key].healthy <==> Origin.LastRunIsSuccess(h, |h|))
      else h == [] && samples == []
  {
    FromStart(config, moves, key);
    ReportsCounted(Begin(config), moves, key);
    Origin.FlagFromHistory(ReportsIn(Begin(config), moves, key));
  }

  // ----- nothing is lost

  function InFlight(t: Traffic, key: string): set<nat> {
    set id | id in t.flights && t.flights[id] == Sent(key)
  }

  /** The move sends a request to `key`. */
  predicate Sends(t: Traffic, m: Move, key: string)
    requires CanMove(t, m)
  {
    m.Select? && Do(t, m).flights[m.id] == Sent(key)
  }

  function TimesSent(t: Traffic, moves: seq<Move>, key: string): nat
    requires CanGo(t, moves)
    decreases |moves|
  {
    if moves == [] then 0
    else (if Sends(t, moves[0], key) then 1 else 0) + TimesSent(Do(t, moves[0]), moves[1..], key)
  }

  lemma OneDiffers(a: set<nat>, b: set<nat>, id: nat)
    requires a - {id} == b - {id}
    ensures |b| + (if id in a then 1 else 0) == |a| + if id in b then 1 else 0
  {
    assert |a - {id}| == |a| - if id in a then 1 else 0;
    assert |b - {id}| == |b| - if id in b then 1 else 0;
  }

  /** Who is under way to `key` when one flight changes. */
  lemma FlightChanges(t: Traffic, t': Traffic, id: nat, key: string)
    requires forall other :: other in t.flights && other != id ==>
               other in t'.flights && t'.flights[other] == t.flights[other]
    requires forall other :: other in t'.flights && other != id ==> other in t.flights
    ensures |InFlight(t', key)| + (if id in InFlight(t, key) then 1 else 0)
         == |InFlight(t, key)| + if id in InFlight(t', key) then 1 else 0
  {
    var a, b := InFlight(t, key), InFlight(t', key);
    assert a - {id} == b - {id};
    OneDiffers(a, b, id);
  }

  lemma MoveMovesFlights(t: Traffic, m: Move, key: string)
    requires CanMove(t, m) && key in t.l.p.states
    ensures |InFlight(Do(t, m), key)| + (if RecordsOn(t, m, key) then 1 else 0)
         == |InFlight(t, key)| + if Sends(t, m, key) then 1 else 0
  {
    hide Apply, Enabled, SelectFrom, Proxy.Admit, Proxy.RecordAt;
    if m.Background? {
      assert InFlight(Do(t, m), key) == InFlight(t, key);
    } else {
      FlightChanges(t, Do(t, m), m.id, key);
    }
  }

  lemma MoveBalances(t: Traffic, m: Move, key: string)
    requires CanMove(t, m) && key in t.l.p.states
    ensures key in Do(t, m).l.p.states
    ensures |InFlight(Do(t, m), key)| + |ReportOf(t, m, key)|
         == |InFlight(t, key)| + if Sends(t, m, key) then 1 else 0
  {
    MoveMovesFlights(t, m, key);
    if !RecordsOn(t, m, key) {
      OtherMovesKeep(t, m, key);
    }
    hide Do, CanMove, Sends, InFlight;
  }

  /** An origin with a state: every request sent to it is recorded on it once or still under way. */
  lemma {:induction false} RunBalances(t: Traffic, moves: seq<Move>, key: string)
    requires CanGo(t, moves) && key in t.l.p.states
    ensures |InFlight(Go(t, moves), key)| + |ReportsIn(t, moves, key)| == |InFlight(t, key)| + TimesSent(t, moves, key)
    decreases |moves|
  {
    if moves == [] {
    } else {
      MoveBalances(t, moves[0], key);
      hide Do, CanMove, ReportOf, InFlight, Sends;
      RunBalances(Do(t, moves[0]), moves[1..], key);
    }
  }

  lemma ConfiguredStays(config: ProxyConfig, moves: seq<Move>, key: string)
    requires CanGo(Begin(config), moves) && key in Proxy.KeysOfRoutes(config.routes)
    ensures key in Begin(config).l.p.states && key in Go(Begin(config), moves).l.p.states
    ensures InFlight(Begin(config), key) == {}
  {
    var t := Begin(config);
    ShadowRuns(t, moves);
    hide Apply, Do, CanMove, Enabled;
    StatesOnlyGrow(t.l, Shadow(t, moves));
  }

  /** So for an origin of the start-up configuration the total counts the requests sent to it, but for those
      still under way. */
  lemma EachSentRequestCounts(config: ProxyConfig, moves: seq<Move>, key: string)
    requires CanGo(Begin(config), moves) && key in Proxy.KeysOfRoutes(config.routes)
    ensures var t := Begin(config);
      var final, sent := Go(t, moves), TimesSent(t, moves, key);
      && key in final.l.p.states && |InFlight(final, key)| <= sent
      && final.l.p.states[key].totalRequests == (sent - |InFlight(final, key)|) % 0x1_0000_0000_0000_0000
  {
    hide Apply, Do, CanMove, Enabled, InFlight, Shadow, Begin, Go, CanGo, Proxy.KeysOfRoutes;
    var t := Begin(config);
    ConfiguredStays(config, moves, key);
    FromStart(config, moves, key);
    RunBalances(t, moves, key);
  }
}
