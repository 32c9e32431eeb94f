/** The two weighted balancers: src/balance/weighted.rs. Weights and draws are exact. */
module Weighted {
  import opened Primitives
  import opened Origin
  import opened Balance

  /** The sum of the first `k` weights. */
  function Prefix(weights: seq<real>, k: nat): real
    requires k <= |weights|
  {
    if k == 0 then 0.0 else Prefix(weights, k - 1) + weights[k - 1]
  }

  function Total(weights: seq<real>): real {
    Prefix(weights, |weights|)
  }

  ghost predicate NonNegative(weights: seq<real>) {
    forall i :: 0 <= i < |weights| ==> weights[i] >= 0.0
  }

  /** Point `at` lies in the half-open interval of index `i`, which is `weights[i]` long. */
  ghost predicate InInterval(weights: seq<real>, i: nat, at: real)
    requires i < |weights|
  {
    Prefix(weights, i) <= at < Prefix(weights, i) + weights[i]
  }

  lemma ShortOf(unit: real, total: real)
    requires 0.0 <= unit < 1.0 && total > 0.0
    ensures 0.0 <= unit * total < total
  {
  }

  /** The point a unit draw picks on a line of length `total`. */
  function Point(unit: real, total: real): (at: real)
    requires 0.0 <= unit < 1.0 && total > 0.0
    ensures 0.0 <= at < total
  {
    ShortOf(unit, total);
    unit * total
  }

  lemma {:induction false} PrefixGrows(weights: seq<real>, i: nat, j: nat)
    requires NonNegative(weights) && i <= j <= |weights|
    ensures Prefix(weights, i) <= Prefix(weights, j)
    decreases j - i
  {
    if i == j {
    } else {
      PrefixGrows(weights, i, j - 1);
    }
  }

  lemma {:induction false} IntervalsDisjoint(weights: seq<real>, i: nat, at: real)
    requires NonNegative(weights) && i < |weights| && InInterval(weights, i, at)
    ensures forall j: nat :: j < |weights| && InInterval(weights, j, at) ==> j == i
  {
    forall j: nat | j < |weights| && j != i ensures !InInterval(weights, j, at) {
      if j < i {
        PrefixGrows(weights, j + 1, i);
      } else {
        PrefixGrows(weights, i + 1, j);
      }
    }
  }

  /** The draw, stretched to the total, lies in the half-open interval of index `i`. */
  ghost predicate Hits(weights: seq<real>, unit: real, i: nat)
    requires i < |weights|
  {
    Prefix(weights, i) <= unit * Total(weights) < Prefix(weights, i) + weights[i]
  }

  lemma HitsIff(weights: seq<real>, unit: real, i: nat)
    requires i < |weights| && 0.0 <= unit < 1.0 && Total(weights) > 0.0
    ensures Hits(weights, unit, i) <==> InInterval(weights, i, Point(unit, Total(weights)))
  {
  }

  lemma HitsOnly(weights: seq<real>, unit: real, index: nat)
    requires NonNegative(weights) && 0.0 <= unit < 1.0 && Total(weights) > 0.0
    requires index < |weights| && InInterval(weights, index, Point(unit, Total(weights)))
    ensures forall i: nat :: i < |weights| ==> (Hits(weights, unit, i) <==> i == index)
  {
    hide Point, Hits;
    IntervalsDisjoint(weights, index, Point(unit, Total(weights)));
    forall i: nat | i < |weights| ensures Hits(weights, unit, i) <==> i == index {
      HitsIff(weights, unit, i);
    }
  }

  /** `unit` is the draw from `[0, 1)`, and `fallback` the draw from the indices that is used when
      there is nothing to share out. */
  method WeightedRandomSelect(weights: seq<real>, unit: real, fallback: nat) returns (index: nat)
    requires weights != [] && NonNegative(weights)
    requires 0.0 <= unit < 1.0 && fallback < |weights|
    ensures index < |weights|
    ensures Total(weights) > 0.0 ==> forall i: nat :: i < |weights| ==> (Hits(weights, unit, i) <==> i == index)
    ensures Total(weights) <= 0.0 ==> index == fallback
  {
    hide Point, Hits;
    var total := 0.0;
    for i := 0 to |weights|
      invariant total == Prefix(weights, i)
    {
      total := total + weights[i];
    }
    if total <= 0.0 {
      return fallback;
    }
    var random := Point(unit, total);
    // The answer if the scan ran to the end. It never does: the weights add up to more than any draw.
    index := |weights| - 1;
    var cumulative := 0.0;
    for i := 0 to |weights|
      invariant cumulative == Prefix(weights, i) <= random
    {
      cumulative := cumulative + weights[i];
      if cumulative > random {
        HitsOnly(weights, unit, i);
        return i;
      }
    }
  }

  function IndexBelow(weights: seq<real>, at: real, k: nat): (index: nat)
    requires NonNegative(weights) && k <= |weights| && 0.0 <= at < Prefix(weights, k)
    ensures index < |weights| && InInterval(weights, index, at)
  {
    if Prefix(weights, k - 1) <= at then k - 1 else IndexBelow(weights, at, k - 1)
  }

  /** The index whose interval holds `at`. */
  function IndexAt(weights: seq<real>, at: real): (index: nat)
    requires NonNegative(weights) && 0.0 <= at < Total(weights)
    ensures index < |weights| && InInterval(weights, index, at)
  {
    IndexBelow(weights, at, |weights|)
  }

  lemma {:induction false} TotalPositiveIff(weights: seq<real>, k: nat)
    requires NonNegative(weights) && k <= |weights|
    ensures Prefix(weights, k) >= 0.0
    ensures Prefix(weights, k) > 0.0 <==> exists i :: 0 <= i < k && weights[i] > 0.0
  {
    if k == 0 {
    } else {
      TotalPositiveIff(weights, k - 1);
    }
  }

  // ----- the weights

  function Scaled(base: real, weight: Option<u32>): real {
    match weight
    case Some(w) => base * w as real
    case None => base
  }

  function Reciprocal(x: real): (r: real)
    requires x > 0.0
    ensures r > 0.0
  {
    1.0 / x
  }

  function LatencyBase(latencyNs: u64): (base: real)
    ensures base > 0.0
  {
    if latencyNs == 0 then 1.0 else Reciprocal(latencyNs as real + 1.0)
  }

  const METRICS_BASE: real := 1000.0

  function LatencyWeight(origin: Endpoint, table: StateTable): real {
    if origin.url.text !in table then Scaled(1.0, origin.weight)
    else if !table[origin.url.text].healthy then 0.0
    else Scaled(LatencyBase(table[origin.url.text].ewmaLatencyNs), origin.weight)
  }

  function MetricsWeight(origin: Endpoint, table: StateTable): real {
    if KnownUnhealthy(origin.url.text, table) then 0.0 else Scaled(METRICS_BASE, origin.weight)
  }

  function LatencyWeights(candidates: seq<Endpoint>, table: StateTable): (weights: seq<real>)
    ensures |weights| == |candidates|
  {
    seq(|candidates|, i requires 0 <= i < |candidates| => LatencyWeight(candidates[i], table))
  }

  function MetricsWeights(candidates: seq<Endpoint>, table: StateTable): (weights: seq<real>)
    ensures |weights| == |candidates|
  {
    seq(|candidates|, i requires 0 <= i < |candidates| => MetricsWeight(candidates[i], table))
  }

  /** May be given traffic: not known to be unhealthy, and not weighted out by the user. A candidate
      that has no state at all qualifies. */
  predicate Eligible(origin: Endpoint, table: StateTable) {
    !KnownUnhealthy(origin.url.text, table) && origin.weight != Some(0)
  }

  lemma ScaledPositiveIff(base: real, weight: Option<u32>)
    requires base > 0.0
    ensures Scaled(base, weight) >= 0.0
    ensures Scaled(base, weight) > 0.0 <==> weight != Some(0)
  {
  }

  lemma WeightPositiveIff(origin: Endpoint, table: StateTable)
    ensures LatencyWeight(origin, table) >= 0.0 && MetricsWeight(origin, table) >= 0.0
    ensures LatencyWeight(origin, table) > 0.0 <==> Eligible(origin, table)
    ensures MetricsWeight(origin, table) > 0.0 <==> Eligible(origin, table)
  {
    var key := origin.url.text;
    ScaledPositiveIff(METRICS_BASE, origin.weight);
    if key in table {
      ScaledPositiveIff(LatencyBase(table[key].ewmaLatencyNs), origin.weight);
    } else {
      ScaledPositiveIff(1.0, origin.weight);
    }
  }

  function UserWeight(origin: Endpoint): real {
    if origin.weight.Some? then origin.weight.value as real else 1.0
  }

  lemma ReciprocalTimes(x: real)
    requires x > 0.0
    ensures Reciprocal(x) * x == 1.0
  {
  }

  lemma Commute(r: real, w: real, x: real)
    requires r * x == 1.0
    ensures (r * w) * x == w
  {
    calc {
      (r * w) * x;
      (r * x) * w;
      w;
    }
  }

  /** Among healthy candidates a latency weight is the user weight over the latency plus one, an
      unmeasured latency counting as zero and a candidate without a state as unmeasured. */
  lemma LatencyWeightIs(origin: Endpoint, table: StateTable)
    requires !KnownUnhealthy(origin.url.text, table)
    ensures var latency := if origin.url.text in table then table[origin.url.text].ewmaLatencyNs else 0;
      LatencyWeight(origin, table) * (latency as real + 1.0) == UserWeight(origin)
  {
    if origin.url.text in table && table[origin.url.text].ewmaLatencyNs != 0 {
      var x := table[origin.url.text].ewmaLatencyNs as real + 1.0;
      ReciprocalTimes(x);
      assert LatencyWeight(origin, table) == Reciprocal(x) * UserWeight(origin);
      Commute(Reciprocal(x), UserWeight(origin), x);
    }
  }

  lemma LatencyWeightsSound(candidates: seq<Endpoint>, table: StateTable)
    ensures NonNegative(LatencyWeights(candidates, table))
    ensures forall i :: 0 <= i < |candidates| ==>
              (LatencyWeights(candidates, table)[i] > 0.0 <==> Eligible(candidates[i], table))
  {
    forall i | 0 <= i < |candidates|
      ensures LatencyWeights(candidates, table)[i] >= 0.0
      ensures LatencyWeights(candidates, table)[i] > 0.0 <==> Eligible(candidates[i], table)
    {
      WeightPositiveIff(candidates[i], table);
    }
  }

  lemma MetricsWeightsSound(candidates: seq<Endpoint>, table: StateTable)
    ensures NonNegative(MetricsWeights(candidates, table))
    ensures forall i :: 0 <= i < |candidates| ==>
              (MetricsWeights(candidates, table)[i] > 0.0 <==> Eligible(candidates[i], table))
  {
    forall i | 0 <= i < |candidates|
      ensures MetricsWeights(candidates, table)[i] >= 0.0
      ensures MetricsWeights(candidates, table)[i] > 0.0 <==> Eligible(candidates[i], table)
    {
      WeightPositiveIff(candidates[i], table);
    }
  }

  /** The metrics balancer never looks at latency: tables that agree on which origins are known to
      be unhealthy give the same weights. */
  lemma MetricsIgnoresLatency(candidates: seq<Endpoint>, one: StateTable, other: StateTable)
    requires forall i :: 0 <= i < |candidates| ==>
               (KnownUnhealthy(candidates[i].url.text, one) <==> KnownUnhealthy(candidates[i].url.text, other))
    ensures MetricsWeights(candidates, one) == MetricsWeights(candidates, other)
  {
    forall i | 0 <= i < |candidates|
      ensures MetricsWeights(candidates, one)[i] == MetricsWeights(candidates, other)[i]
    {
      assert KnownUnhealthy(candidates[i].url.text, one) <==> KnownUnhealthy(candidates[i].url.text, other);
    }
  }

  // ----- selection

  /** The choice a draw makes from these weights. */
  function Draw(weights: seq<real>, unit: real): Option<nat>
    requires NonNegative(weights) && 0.0 <= unit < 1.0
  {
    if weights == [] || Total(weights) <= 0.0 then None
    else Some(IndexAt(weights, Point(unit, Total(weights))))
  }

  /** A draw chooses index `i` exactly when it lands, stretched to the total, in the interval of `i`, which
      is `weights[i]` long; it chooses something exactly when some weight is positive. */
  lemma DrawIff(weights: seq<real>, unit: real)
    requires NonNegative(weights) && 0.0 <= unit < 1.0
    ensures Draw(weights, unit).Some? <==> exists i :: 0 <= i < |weights| && weights[i] > 0.0
    ensures forall i: nat :: i < |weights| ==>
              (Draw(weights, unit) == Some(i) <==> Total(weights) > 0.0 && Hits(weights, unit, i))
    ensures Draw(weights, unit).Some? ==>
              Draw(weights, unit).value < |weights| && weights[Draw(weights, unit).value] > 0.0
  {
    hide Point, Hits;
    TotalPositiveIff(weights, |weights|);
    if Draw(weights, unit).Some? {
      HitsOnly(weights, unit, Draw(weights, unit).value);
    } else {
      assert forall i: nat :: i < |weights| ==> weights[i] <= 0.0;
    }
  }

  lemma Scales(x: real, y: real, total: real)
    requires total > 0.0
    ensures x <= y <==> x * total <= y * total
  {
  }

  lemma Quotient(part: real, total: real)
    requires total > 0.0
    ensures (part / total) * total == part
  {
  }

  lemma Ends(total: real)
    requires total > 0.0
    ensures 0.0 / total == 0.0 && total / total == 1.0
  {
    Quotient(0.0, total);
    Quotient(total, total);
    Scales(0.0 / total, 0.0, total);
    Scales(0.0, 0.0 / total, total);
    Scales(total / total, 1.0, total);
    Scales(1.0, total / total, total);
  }

  /** Where the share of index `i` begins when the total is scaled to one. */
  function Cut(weights: seq<real>, i: nat): real
    requires i <= |weights| && Total(weights) > 0.0
  {
    Prefix(weights, i) / Total(weights)
  }

  function Cuts(weights: seq<real>): (cuts: seq<real>)
    requires Total(weights) > 0.0
    ensures |cuts| == |weights| + 1
    ensures forall i: nat :: i <= |weights| ==> cuts[i] == Cut(weights, i)
  {
    seq(|weights| + 1, i requires 0 <= i <= |weights| => Cut(weights, i))
  }

  lemma CutAt(weights: seq<real>, i: nat)
    requires i <= |weights| && Total(weights) > 0.0
    ensures Cut(weights, i) * Total(weights) == Prefix(weights, i)
    ensures i == 0 ==> Cut(weights, i) == 0.0
    ensures i == |weights| ==> Cut(weights, i) == 1.0
  {
    Quotient(Prefix(weights, i), Total(weights));
    Ends(Total(weights));
  }

  /** Scaling by a positive total keeps order and lengths. */
  lemma Stretched(lo: real, hi: real, p: real, q: real, unit: real, total: real)
    requires total > 0.0 && lo * total == p && hi * total == q
    ensures p <= unit * total < q <==> lo <= unit < hi
    ensures (hi - lo) * total == q - p
  {
    Scales(lo, unit, total);
    Scales(hi, unit, total);
  }

  lemma PrefixAfter(weights: seq<real>, i: nat)
    requires i < |weights|
    ensures Prefix(weights, i + 1) == Prefix(weights, i) + weights[i]
  {
  }

  /** Out of a total scaled to one, `length` is what `weight` is out of `total`. */
  ghost predicate IsPart(length: real, total: real, weight: real) {
    length * total == weight
  }

  lemma CutsAround(weights: seq<real>, i: nat)
    requires Total(weights) > 0.0 && i < |weights|
    ensures IsPart(Cut(weights, i + 1) - Cut(weights, i), Total(weights), weights[i])
    ensures forall unit :: Hits(weights, unit, i) <==> Cut(weights, i) <= unit < Cut(weights, i + 1)
  {
    CutAt(weights, i);
    CutAt(weights, i + 1);
    PrefixAfter(weights, i);
    hide Cut, Prefix, Total;
    var total, lo, hi := Total(weights), Cut(weights, i), Cut(weights, i + 1);
    Stretched(lo, hi, Prefix(weights, i), Prefix(weights, i + 1), 0.0, total);
    forall unit ensures Hits(weights, unit, i) <==> lo <= unit < hi {
      Stretched(lo, hi, Prefix(weights, i), Prefix(weights, i + 1), unit, total);
    }
  }

  /** The draws that choose index `i` are those from `lo` up to `hi`. */
  ghost predicate ChosenFrom(weights: seq<real>, i: nat, lo: real, hi: real)
    requires NonNegative(weights)
  {
    forall unit | 0.0 <= unit < 1.0 :: Draw(weights, unit) == Some(i) <==> lo <= unit < hi
  }

  /** The draws that choose index `i` form an interval as long as its share of the total, and these intervals
      split the draws from zero to one in order. */
  lemma DrawSplits(weights: seq<real>) returns (cuts: seq<real>)
    requires NonNegative(weights) && Total(weights) > 0.0
    ensures |cuts| == |weights| + 1 && cuts[0] == 0.0 && cuts[|weights|] == 1.0
    ensures forall i: nat :: i < |weights| ==>
              IsPart(cuts[i + 1] - cuts[i], Total(weights), weights[i]) && ChosenFrom(weights, i, cuts[i], cuts[i + 1])
  {
    cuts := Cuts(weights);
    CutAt(weights, 0);
    CutAt(weights, |weights|);
    hide Cut, Draw, Hits, Total, IsPart;
    forall i: nat | i < |weights|
      ensures IsPart(cuts[i + 1] - cuts[i], Total(weights), weights[i]) && ChosenFrom(weights, i, cuts[i], cuts[i + 1])
    {
      CutsAround(weights, i);
      forall unit | 0.0 <= unit < 1.0 ensures Draw(weights, unit) == Some(i) <==> Hits(weights, unit, i) {
        DrawIff(weights, unit);
      }
    }
  }

  /** From the index that the scan returned to the choice the balancer makes. */
  method SelectByWeight(weights: seq<real>, unit: real, fallback: nat) returns (chosen: Option<nat>)
    requires weights != [] && NonNegative(weights)
    requires 0.0 <= unit < 1.0 && fallback < |weights|
    ensures chosen == Draw(weights, unit)
  {
    var idx := WeightedRandomSelect(weights, unit, fallback);
    TotalPositiveIff(weights, |weights|);
    if weights[idx] > 0.0 {
      chosen := Some(idx);
      DrawIff(weights, unit);
    } else {
      chosen := None;
      DrawIff(weights, unit);
    }
  }

  method SelectByLatency(candidates: seq<Endpoint>, states: map<string, OriginState>, ghost table: StateTable,
                         unit: real, fallback: nat)
    returns (chosen: Option<nat>)
    requires Mirrors(states, table)
    requires 0.0 <= unit < 1.0 && (candidates != [] ==> fallback < |candidates|)
    ensures NonNegative(LatencyWeights(candidates, table))
    ensures chosen == Draw(LatencyWeights(candidates, table), unit)
  {
    LatencyWeightsSound(candidates, table);
    if candidates == [] {
      return None;
    }
    var weights: seq<real> := [];
    for i := 0 to |candidates|
      invariant weights == LatencyWeights(candidates, table)[..i]
    {
      var origin := candidates[i];
      var baseWeight := 1.0;
      if origin.url.text in states {
        var state := states[origin.url.text];
        assert state.Value() == table[origin.url.text];
        if !state.healthy {
          weights := weights + [0.0];
          continue;
        }
        baseWeight := LatencyBase(state.ewmaLatencyNs);
      }
      weights := weights + [Scaled(baseWeight, origin.weight)];
    }
    assert weights == LatencyWeights(candidates, table);
    chosen := SelectByWeight(weights, unit, fallback);
  }

  method SelectByMetrics(candidates: seq<Endpoint>, states: map<string, OriginState>, ghost table: StateTable,
                         unit: real, fallback: nat)
    returns (chosen: Option<nat>)
    requires Mirrors(states, table)
    requires 0.0 <= unit < 1.0 && (candidates != [] ==> fallback < |candidates|)
    ensures NonNegative(MetricsWeights(candidates, table))
    ensures chosen == Draw(MetricsWeights(candidates, table), unit)
  {
    MetricsWeightsSound(candidates, table);
    if candidates == [] {
      return None;
    }
    var weights: seq<real> := [];
    for i := 0 to |candidates|
      invariant weights == MetricsWeights(candidates, table)[..i]
    {
      var origin := candidates[i];
      var baseWeight := 1000.0;
      if origin.url.text in states {
        var state := states[origin.url.text];
        assert state.Value() == table[origin.url.text];
        if !state.healthy {
          weights := weights + [0.0];
          continue;
        }
        var pressure := 0.0;
        var metricsWeight := if 1000.0 - pressure > 0.0 then 1000.0 - pressure else 0.0;
        if metricsWeight < 100.0 && state.ewmaLatencyNs > 0 {
          baseWeight := metricsWeight * LatencyBase(state.ewmaLatencyNs);
        } else {
          baseWeight := metricsWeight;
        }
      }
      weights := weights + [Scaled(baseWeight, origin.weight)];
    }
    assert weights == MetricsWeights(candidates, table);
    chosen := SelectByWeight(weights, unit, fallback);
  }

  /** Both weighted balancers choose something exactly when some candidate is eligible, and what they
      choose is eligible: never an origin known to be unhealthy. */
  lemma WeightedChoice(candidates: seq<Endpoint>, table: StateTable, unit: real)
    requires 0.0 <= unit < 1.0
    ensures NonNegative(LatencyWeights(candidates, table)) && NonNegative(MetricsWeights(candidates, table))
    ensures forall chosen :: chosen in {Draw(LatencyWeights(candidates, table), unit),
                                        Draw(MetricsWeights(candidates, table), unit)} ==>
      && (chosen.Some? <==> exists i :: 0 <= i < |candidates| && Eligible(candidates[i], table))
      && (chosen.Some? ==> chosen.value < |candidates| && Eligible(candidates[chosen.value], table))
  {
    LatencyWeightsSound(candidates, table);
    MetricsWeightsSound(candidates, table);
    DrawIff(LatencyWeights(candidates, table), unit);
    DrawIff(MetricsWeights(candidates, table), unit);
  }
}
