/** What a route's configured algorithm means for its candidates: which draws and tickets choose whom. */
module Shares {
  import opened Primitives
  import opened Config
  import opened Balance
  import opened Route
  import opened Weighted
  import opened Proxy
  import RR = RoundRobin

  // ----- draws

  ghost predicate ChosenIn(e: Entry, table: StateTable, i: nat, lo: real, hi: real) {
    forall unit: Unit :: Choose(e, table, unit) == Some(i) <==> lo <= unit < hi
  }

  /** The draws from zero to one, cut into one interval for each candidate in order: the draws in an interval,
      and no others, choose its candidate. */
  ghost predicate Splits(e: Entry, table: StateTable, cuts: seq<real>) {
    && |cuts| == |e.candidates| + 1 && cuts[0] == 0.0 && cuts[|e.candidates|] == 1.0
    && forall i: nat :: i < |e.candidates| ==> ChosenIn(e, table, i, cuts[i], cuts[i + 1])
  }

  /** What a candidate is due before latency is considered: nothing if it is known to be unhealthy, and
      otherwise its weight, which is one unless the user sets it. */
  function Due(c: Endpoint, table: StateTable): real {
    if c.url.text in table && !table[c.url.text].healthy then 0.0
    else match c.weight { case Some(w) => w as real case None => 1.0 }
  }

  /** The measured latency; an unmeasured one, and that of a candidate without a state, is zero. */
  function LatencyOf(c: Endpoint, table: StateTable): nat {
    if c.url.text in table then table[c.url.text].ewmaLatencyNs else 0
  }

  ghost predicate SomeDue(e: Entry, table: StateTable) {
    exists i :: 0 <= i < |e.candidates| && Due(e.candidates[i], table) > 0.0
  }

  lemma DueIffEligible(c: Endpoint, table: StateTable)
    ensures Due(c, table) > 0.0 <==> Eligible(c, table)
    ensures !KnownUnhealthy(c.url.text, table) ==> Due(c, table) == UserWeight(c)
  {
  }

  lemma LatencyWeightOf(c: Endpoint, table: StateTable)
    ensures LatencyWeight(c, table) * (LatencyOf(c, table) as real + 1.0) == Due(c, table)
  {
    if !KnownUnhealthy(c.url.text, table) {
      LatencyWeightIs(c, table);
    }
  }

  lemma MetricsWeightOf(c: Endpoint, table: StateTable)
    ensures MetricsWeight(c, table) == 1000.0 * Due(c, table)
  {
  }

  /** Dividing by the total keeps a weight in proportion. */
  lemma Proportion(length: real, total: real, weight: real, per: real, due: real) returns (scale: real)
    requires total > 0.0 && length * total == weight && weight * per == due
    ensures scale == 1.0 / total && scale > 0.0 && length * per == scale * due
  {
    scale := 1.0 / total;
    assert scale * total == 1.0;
    assert scale * weight == length * (scale * total);
    assert scale * due == (scale * weight) * per;
  }

  lemma TotalDue(e: Entry, table: StateTable, weights: seq<real>)
    requires NonNegative(weights) && |weights| == |e.candidates| && SomeDue(e, table)
    requires forall i :: 0 <= i < |weights| ==> (weights[i] > 0.0 <==> Eligible(e.candidates[i], table))
    ensures Total(weights) > 0.0
  {
    TotalPositiveIff(weights, |weights|);
    var i :| 0 <= i < |e.candidates| && Due(e.candidates[i], table) > 0.0;
    DueIffEligible(e.candidates[i], table);
  }

  ghost predicate InProportion(length: real, per: real, scale: real, due: real) {
    length * per == scale * due
  }

  lemma LatencyPart(c: Endpoint, table: StateTable, length: real, total: real)
    requires total > 0.0 && IsPart(length, total, LatencyWeight(c, table))
    ensures InProportion(length, LatencyOf(c, table) as real + 1.0, 1.0 / total, Due(c, table))
  {
    LatencyWeightOf(c, table);
    hide LatencyWeight, LatencyOf, Due;
    var scale := Proportion(length, total, LatencyWeight(c, table), LatencyOf(c, table) as real + 1.0, Due(c, table));
  }

  lemma MetricsPart(c: Endpoint, table: StateTable, length: real, total: real)
    requires total > 0.0 && IsPart(length, total, MetricsWeight(c, table))
    ensures InProportion(length, 1.0, 1000.0 * (1.0 / total), Due(c, table))
  {
    MetricsWeightOf(c, table);
    hide MetricsWeight, Due;
    var scale := Proportion(length, total, MetricsWeight(c, table), 1.0, 1000.0 * Due(c, table));
  }

  lemma OneOver(total: real)
    requires total > 0.0
    ensures 1.0 / total > 0.0
  {
  }

  /** By latency: the draws that choose a candidate are in proportion to its weight over its latency plus
      one, and an unhealthy one gets none. */
  lemma LatencyShares(e: Entry, table: StateTable) returns (cuts: seq<real>, scale: real)
    requires e.algorithm == WeightedLatency && SomeDue(e, table)
    ensures Splits(e, table, cuts) && scale > 0.0
    ensures forall i: nat :: i < |e.candidates| ==>
              InProportion(cuts[i + 1] - cuts[i], LatencyOf(e.candidates[i], table) as real + 1.0,
                           scale, Due(e.candidates[i], table))
  {
    hide LatencyWeight, Due, Total, Draw, LatencyOf, InProportion, IsPart;
    var weights := LatencyWeights(e.candidates, table);
    LatencyWeightsSound(e.candidates, table);
    TotalDue(e, table, weights);
    cuts := DrawSplits(weights);
    scale := 1.0 / Total(weights);
    OneOver(Total(weights));
    forall i: nat | i < |e.candidates| ensures ChosenIn(e, table, i, cuts[i], cuts[i + 1]) {
      assert ChosenFrom(weights, i, cuts[i], cuts[i + 1]);
      forall unit: Unit ensures Choose(e, table, unit) == Draw(weights, unit) {
      }
    }
    forall i: nat | i < |e.candidates|
      ensures InProportion(cuts[i + 1] - cuts[i], LatencyOf(e.candidates[i], table) as real + 1.0,
                           scale, Due(e.candidates[i], table))
    {
      var c := e.candidates[i];
      LatencyPart(c, table, cuts[i + 1] - cuts[i], Total(weights));
    }
  }

  /** By metrics: in proportion to the weight alone. */
  lemma MetricsShares(e: Entry, table: StateTable) returns (cuts: seq<real>, scale: real)
    requires e.algorithm == WeightedMetrics && SomeDue(e, table)
    ensures Splits(e, table, cuts) && scale > 0.0
    ensures forall i: nat :: i < |e.candidates| ==>
              InProportion(cuts[i + 1] - cuts[i], 1.0, scale, Due(e.candidates[i], table))
  {
    hide MetricsWeight, Due, Total, Draw, InProportion, IsPart;
    var weights := MetricsWeights(e.candidates, table);
    MetricsWeightsSound(e.candidates, table);
    TotalDue(e, table, weights);
    cuts := DrawSplits(weights);
    scale := 1000.0 * (1.0 / Total(weights));
    OneOver(Total(weights));
    forall i: nat | i < |e.candidates| ensures ChosenIn(e, table, i, cuts[i], cuts[i + 1]) {
      assert ChosenFrom(weights, i, cuts[i], cuts[i + 1]);
      forall unit: Unit ensures Choose(e, table, unit) == Draw(weights, unit) {
      }
    }
    forall i: nat | i < |e.candidates|
      ensures InProportion(cuts[i + 1] - cuts[i], 1.0, scale, Due(e.candidates[i], table))
    {
      var c := e.candidates[i];
      MetricsPart(c, table, cuts[i + 1] - cuts[i], Total(weights));
    }
  }

  // ----- tickets

  /** The position `d` places on from where the ticket points, going round. */
  function Place(e: Entry, d: nat): (i: nat)
    requires e.candidates != []
    ensures i < |e.candidates|
  {
    (e.tickets + d) % |e.candidates|
  }

  ghost predicate HealthyAt(e: Entry, table: StateTable, i: nat)
    requires i < |e.candidates|
  {
    var key := e.candidates[i].urlKey;
    key in table && table[key].healthy
  }

  /** The candidate there is the first whose state is healthy. */
  ghost predicate FirstUp(e: Entry, table: StateTable, d: nat)
    requires e.candidates != []
  {
    HealthyAt(e, table, Place(e, d)) && forall before: nat :: before < d ==> !HealthyAt(e, table, Place(e, before))
  }

  lemma PlaceIsAhead(e: Entry, d: nat)
    requires d < |e.candidates|
    ensures Place(e, d) == RR.Ahead(|e.candidates|, e.tickets % |e.candidates|, d)
  {
    var n := |e.candidates|;
    RR.ModAdds(e.tickets, d, n);
    RR.AheadIsMod(n, e.tickets % n, d);
  }

  /** In turn: the first healthy candidate from where the ticket points on, going round once, is chosen. */
  lemma TurnIff(e: Entry, table: StateTable, unit: Unit, i: nat)
    requires e.algorithm == LbAlgorithm.RoundRobin && i < |e.candidates|
    ensures Choose(e, table, unit) == Some(i)
       <==> exists d: nat :: d < |e.candidates| && Place(e, d) == i && FirstUp(e, table, d)
  {
    var n, up := |e.candidates|, RR.Up(e.candidates, table);
    var start := e.tickets % n;
    forall d: nat | d < n
      ensures Place(e, d) == RR.Ahead(n, start, d)
      ensures up[Place(e, d)] == HealthyAt(e, table, Place(e, d))
    {
      PlaceIsAhead(e, d);
    }
    if d: nat :| d < n && Place(e, d) == i && FirstUp(e, table, d) {
      RR.ScanReaches(up, start, 0, d);
    }
    if Choose(e, table, unit) == Some(i) {
      var d := RR.ScanStops(up, start, 0);
      assert FirstUp(e, table, d);
    }
  }

  // ----- one request

  /** In turn, no candidate has a healthy state; by weight, none is due anything. */
  ghost predicate NoneToChoose(e: Entry, table: StateTable) {
    forall i: nat :: i < |e.candidates| ==>
      if e.algorithm == LbAlgorithm.RoundRobin then !HealthyAt(e, table, i) else Due(e.candidates[i], table) == 0.0
  }

  lemma NoneIff(e: Entry, table: StateTable)
    ensures NoneToChoose(e, table) <==> forall i: nat :: i < |e.candidates| ==> !MayChoose(e, i, table)
  {
    forall i: nat | i < |e.candidates|
      ensures MayChoose(e, i, table) <==>
        if e.algorithm == LbAlgorithm.RoundRobin then HealthyAt(e, table, i) else Due(e.candidates[i], table) != 0.0
    {
      DueIffEligible(e.candidates[i], table);
    }
  }

  /** Which answer a request gets. */
  lemma ServeAnswers(p: State, r: Request)
    ensures var answer := Serve(p, r).1;
      match answer {
        case NotFound => forall i :: 0 <= i < |p.router| ==> !Takes(p.router[i], r.host, r.path)
        case RateLimited => exists k: nat :: FirstToTake(p.router, r.host, r.path, 0, k)
        case BadGateway =>
          exists k: nat :: FirstToTake(p.router, r.host, r.path, 0, k) && NoneToChoose(p.router[k], p.states)
        case Forwarded(k, i, outcome) =>
          && FirstToTake(p.router, r.host, r.path, 0, k) && outcome == r.outcome
          && Choose(p.router[k], p.states, r.unit) == Some(i)
      }
    ensures (forall i :: 0 <= i < |p.router| ==> !Takes(p.router[i], r.host, r.path)) ==> Serve(p, r).1.NotFound?
    ensures forall k: nat :: FirstToTake(p.router, r.host, r.path, 0, k) && NoneToChoose(p.router[k], p.states) ==>
              Serve(p, r).1.RateLimited? || Serve(p, r).1.BadGateway?
  {
    MatchIsFirst(p.router, r.host, r.path, 0);
    var m := MatchIndex(p.router, r.host, r.path);
    if m.Some? {
      assert FirstToTake(p.router, r.host, r.path, 0, m.value);
      ChoiceSound(p.router[m.value], p.states, r.unit);
      NoneIff(p.router[m.value], p.states);
    }
  }

  /** A request that its limiter lets through takes one turn of its own route, if that takes turns and has
      candidates, and no other request takes any. */
  lemma ServeTakesTurn(p: State, r: Request)
    ensures var (p', answer), m := Serve(p, r), MatchIndex(p.router, r.host, r.path);
      && |p'.router| == |p.router|
      && forall i :: 0 <= i < |p.router| ==>
           var turn := m == Some(i) && !answer.RateLimited?
                       && p.router[i].algorithm == LbAlgorithm.RoundRobin && p.router[i].candidates != [];
           p'.router[i] == p.router[i].(tickets := if turn then (p.router[i].tickets + 1) % 0x1_0000_0000_0000_0000
                                                   else p.router[i].tickets)
  {
    hide MatchFrom, Choose, RecordOutcome;
  }
}
