/** `record_latency` run by many threads at once, one atomic operation a step. The source uses
    relaxed ordering; steps here take effect in one order that all threads agree on. */
module LatencyInterleaving {
  import opened Primitives
  import opened Origin

  /** Where one call of `record_latency` stands. */
  datatype Call =
    | Started(sample: u64)
    | Loaded(sample: u64, seen: u64)
    | Finished(sample: u64)

  /** `order` lists the calls in the order of their successful exchanges; the program keeps no
      such list. */
  datatype State = State(shared: u64, calls: map<nat, Call>, order: seq<nat>)

  datatype Step =
    | Begin(id: nat, sample: u64)
    | Load(id: nat)
    | ExchangeSucceeds(id: nat)
    | ExchangeFails(id: nat)

  /** A weak exchange may fail whatever it finds, and succeeds only if it finds what was seen. */
  predicate Enabled(s: State, step: Step) {
    match step
    case Begin(id, _) => id !in s.calls
    case Load(id) => id in s.calls && s.calls[id].Started?
    case ExchangeSucceeds(id) => id in s.calls && s.calls[id].Loaded? && s.calls[id].seen == s.shared
    case ExchangeFails(id) => id in s.calls && s.calls[id].Loaded?
  }

  function Apply(s: State, step: Step): State
    requires Enabled(s, step)
  {
    match step
    case Begin(id, sample) => s.(calls := s.calls[id := Started(sample)])
    case Load(id) => s.(calls := s.calls[id := Loaded(s.calls[id].sample, s.shared)])
    case ExchangeSucceeds(id) =>
      State(EwmaStep(s.calls[id].seen, s.calls[id].sample),
            s.calls[id := Finished(s.calls[id].sample)],
            s.order + [id])
    case ExchangeFails(id) => s.(calls := s.calls[id := Loaded(s.calls[id].sample, s.shared)])
  }

  predicate CanRun(s: State, steps: seq<Step>)
    decreases |steps|
  {
    steps == [] || (Enabled(s, steps[0]) && CanRun(Apply(s, steps[0]), steps[1..]))
  }

  function Run(s: State, steps: seq<Step>): State
    requires CanRun(s, steps)
    decreases |steps|
  {
    if steps == [] then s else Run(Apply(s, steps[0]), steps[1..])
  }

  /** The completed calls are those in `order`, each once. */
  ghost predicate EachOnce(s: State) {
    && (forall id :: id in s.order <==> id in s.calls && s.calls[id].Finished?)
    && (forall i, j :: 0 <= i < j < |s.order| ==> s.order[i] != s.order[j])
  }

  ghost function Samples(s: State): seq<u64>
    requires EachOnce(s)
  {
    seq(|s.order|, i requires 0 <= i < |s.order| => assert s.order[i] in s.order; s.calls[s.order[i]].sample)
  }

  ghost predicate Linearised(start: u64, s: State) {
    EachOnce(s) && s.shared == Ewma(start, Samples(s), |s.order|)
  }

  lemma StepKeepsOnce(s: State, step: Step)
    requires EachOnce(s) && Enabled(s, step)
    ensures EachOnce(Apply(s, step))
    ensures var s' := Apply(s, step);
      Samples(s') == Samples(s) + if step.ExchangeSucceeds? then [s.calls[step.id].sample] else []
  {
    var s' := Apply(s, step);
    if step.ExchangeSucceeds? {
      assert step.id !in s.order;
    }
    forall i | 0 <= i < |s.order| ensures s'.calls[s.order[i]].sample == s.calls[s.order[i]].sample {
      assert s.order[i] in s.order;
    }
  }

  lemma StepLinearised(start: u64, s: State, step: Step)
    requires Linearised(start, s) && Enabled(s, step)
    ensures Linearised(start, Apply(s, step))
  {
    StepKeepsOnce(s, step);
    EwmaOfPrefix(start, Samples(s), Samples(Apply(s, step)), |s.order|);
  }

  /** In every interleaving, spurious failures and reappearing values included, the shared average is
      the fold of the update over the completed calls, each exactly once, in the order of their
      successful exchanges. */
  lemma {:induction false} Linearisable(start: u64, s: State, steps: seq<Step>)
    requires Linearised(start, s) && CanRun(s, steps)
    ensures Linearised(start, Run(s, steps))
    decreases |steps|
  {
    if steps == [] {
    } else {
      StepLinearised(start, s, steps[0]);
      Linearisable(start, Apply(s, steps[0]), steps[1..]);
    }
  }

  /** A call that has completed stays where it is in the order, so a call that begins later comes
      after it. */
  lemma {:induction false} OrderOnlyGrows(s: State, steps: seq<Step>)
    requires CanRun(s, steps)
    ensures s.order <= Run(s, steps).order
    decreases |steps|
  {
    if steps == [] {
    } else {
      OrderOnlyGrows(Apply(s, steps[0]), steps[1..]);
    }
  }

  ghost predicate SafeSamples(s: State) {
    forall id :: id in s.calls ==> s.calls[id].sample <= SAFE_SAMPLE
  }

  lemma {:induction false} SamplesStaySafe(s: State, steps: seq<Step>)
    requires SafeSamples(s) && CanRun(s, steps)
    requires forall step :: step in steps && step.Begin? ==> step.sample <= SAFE_SAMPLE
    ensures SafeSamples(Run(s, steps))
    decreases |steps|
  {
    if steps == [] {
    } else {
      SamplesStaySafe(Apply(s, steps[0]), steps[1..]);
    }
  }

  /** From a new origin, with samples that cannot overflow, the shared average is within 9 ns of the
      exact average of the completed calls in their order, at every point of every interleaving. */
  lemma AccurateWhenInterleaved(steps: seq<Step>)
    requires CanRun(State(0, map[], []), steps)
    requires forall step :: step in steps && step.Begin? ==> step.sample <= SAFE_SAMPLE
    ensures var s := Run(State(0, map[], []), steps);
      && EachOnce(s)
      && 0.0 <= ExactEwma(0, Samples(s), |s.order|) - s.shared as real < 9.0
  {
    var s0 := State(0, map[], []);
    Linearisable(0, s0, steps);
    SamplesStaySafe(s0, steps);
    var s := Run(s0, steps);
    forall k: nat | k < |s.order| ensures Samples(s)[k] <= SAFE_SAMPLE {
      assert s.order[k] in s.order;
    }
    EwmaAccurate(Samples(s), SAFE_SAMPLE, |s.order|);
    assert Tracks(0, Samples(s), |s.order|);
  }
}

/** `record_success_with_threshold` and `record_failure_with_threshold` run by many threads at once,
    one atomic operation a step, in the same memory model. */
module HealthInterleaving {
  import opened Primitives
  import opened Origin

  /** Where one call stands; `n` is the count its own increment returned. */
  datatype Pc =
    | Begun
    | Counted(n: u32)
    | Cleared(n: u32)
    | Totalled(n: u32)
    | Done(n: u32)

  datatype Call = Call(success: bool, threshold: u32, pc: Pc)

  datatype State = State(stats: Stats, calls: map<nat, Call>)

  datatype Step =
    | Begin(id: nat, success: bool, threshold: u32)
    | Advance(id: nat)

  predicate Enabled(s: State, step: Step) {
    match step
    case Begin(id, _, _) => id !in s.calls
    case Advance(id) => id in s.calls && !s.calls[id].pc.Done?
  }

  function AdvanceCall(v: Stats, c: Call): (Stats, Pc)
    requires !c.pc.Done?
  {
    match c.pc
    case Begun =>
      if c.success then
        var n := Succ32(v.consecutiveSuccesses); (v.(consecutiveSuccesses := n), Counted(n))
      else
        var n := Succ32(v.consecutiveFailures); (v.(consecutiveFailures := n), Counted(n))
    case Counted(n) =>
      (if c.success then v.(consecutiveFailures := 0) else v.(consecutiveSuccesses := 0), Cleared(n))
    case Cleared(n) =>
      if c.success then (if n >= c.threshold then v.(healthy := true) else v, Done(n))
      else (v.(totalFailures := Succ64(v.totalFailures)), Totalled(n))
    case Totalled(n) =>
      (if n >= c.threshold then v.(healthy := false) else v, Done(n))
  }

  function Apply(s: State, step: Step): State
    requires Enabled(s, step)
  {
    match step
    case Begin(id, success, threshold) => s.(calls := s.calls[id := Call(success, threshold, Begun)])
    case Advance(id) =>
      var (v, pc) := AdvanceCall(s.stats, s.calls[id]);
      State(v, s.calls[id := s.calls[id].(pc := pc)])
  }

  predicate CanRun(s: State, steps: seq<Step>)
    decreases |steps|
  {
    steps == [] || (Enabled(s, steps[0]) && CanRun(Apply(s, steps[0]), steps[1..]))
  }

  function Run(s: State, steps: seq<Step>): State
    requires CanRun(s, steps)
    decreases |steps|
  {
    if steps == [] then s else Run(Apply(s, steps[0]), steps[1..])
  }

  lemma RunFirst(s: State, step: Step, rest: seq<Step>)
    requires Enabled(s, step) && CanRun(Apply(s, step), rest)
    ensures CanRun(s, [step] + rest) && Run(s, [step] + rest) == Run(Apply(s, step), rest)
  {
    assert ([step] + rest)[1..] == rest;
  }

  lemma {:induction false} RunJoined(s: State, a: seq<Step>, b: seq<Step>)
    requires CanRun(s, a) && CanRun(Run(s, a), b)
    ensures CanRun(s, a + b) && Run(s, a + b) == Run(Run(s, a), b)
    decreases |a|
  {
    if a == [] {
      assert a + b == b;
    } else {
      assert (a + b)[1..] == a[1..] + b;
      RunJoined(Apply(s, a[0]), a[1..], b);
    }
  }

  const START: State := State(NEW, map[])

  ghost predicate Quiet(s: State) {
    forall id :: id in s.calls ==> s.calls[id].pc.Done?
  }

  // ----- the counters

  /** A call sits between its increment and its reset of the other counter. */
  ghost predicate SomeBetween(s: State) {
    exists id :: id in s.calls && s.calls[id].pc.Counted?
  }

  function FailuresTotalled(calls: map<nat, Call>): set<nat> {
    set id | id in calls && !calls[id].success && (calls[id].pc.Totalled? || calls[id].pc.Done?)
  }

  ghost predicate NeverBoth(s: State) {
    s.stats.consecutiveSuccesses != 0 && s.stats.consecutiveFailures != 0 ==> SomeBetween(s)
  }

  ghost predicate TotalCounts(s: State) {
    s.stats.totalFailures == |FailuresTotalled(s.calls)| % 0x1_0000_0000_0000_0000
  }

  lemma StepKeepsNeverBoth(s: State, step: Step)
    requires NeverBoth(s) && Enabled(s, step)
    ensures NeverBoth(Apply(s, step))
  {
    var s' := Apply(s, step);
    if s'.stats.consecutiveSuccesses != 0 && s'.stats.consecutiveFailures != 0 {
      if step.Advance? && s.calls[step.id].pc.Begun? {
        assert s'.calls[step.id].pc.Counted?;
      } else {
        var id :| id in s.calls && s.calls[id].pc.Counted?;
        assert s'.calls[id].pc.Counted?;
      }
    }
  }

  /** The one step that touches the total: a failure call past its reset. */
  predicate AddsToTotal(s: State, step: Step)
    requires Enabled(s, step)
  {
    step.Advance? && s.calls[step.id].pc.Cleared? && !s.calls[step.id].success
  }

  lemma AddingStep(s: State, step: Step)
    requires Enabled(s, step) && AddsToTotal(s, step)
    ensures var s' := Apply(s, step);
      && s'.stats.totalFailures == Succ64(s.stats.totalFailures)
      && |FailuresTotalled(s'.calls)| == |FailuresTotalled(s.calls)| + 1
  {
    assert FailuresTotalled(Apply(s, step).calls) == FailuresTotalled(s.calls) + {step.id};
    assert step.id !in FailuresTotalled(s.calls);
  }

  lemma OtherStep(s: State, step: Step)
    requires Enabled(s, step) && !AddsToTotal(s, step)
    ensures var s' := Apply(s, step);
      && s'.stats.totalFailures == s.stats.totalFailures
      && FailuresTotalled(s'.calls) == FailuresTotalled(s.calls)
  {
  }

  lemma StepKeepsTotal(s: State, step: Step)
    requires TotalCounts(s) && Enabled(s, step)
    ensures TotalCounts(Apply(s, step))
  {
    if AddsToTotal(s, step) {
      AddingStep(s, step);
      WrapSucc64(|FailuresTotalled(s.calls)|);
    } else {
      OtherStep(s, step);
    }
  }

  lemma {:induction false} CountersHold(s: State, steps: seq<Step>)
    requires NeverBoth(s) && TotalCounts(s) && CanRun(s, steps)
    ensures NeverBoth(Run(s, steps)) && TotalCounts(Run(s, steps))
    decreases |steps|
  {
    if steps == [] {
    } else {
      StepKeepsNeverBoth(s, steps[0]);
      StepKeepsTotal(s, steps[0]);
      CountersHold(Apply(s, steps[0]), steps[1..]);
    }
  }

  /** Both consecutive counters are nonzero only while some call is between its increment and its
      reset; when no call is in flight, one is zero and the total counts the failure calls. */
  lemma CountersWhenInterleaved(steps: seq<Step>)
    requires CanRun(START, steps)
    ensures var s := Run(START, steps);
      && (s.stats.consecutiveSuccesses != 0 && s.stats.consecutiveFailures != 0 ==> SomeBetween(s))
      && (Quiet(s) ==>
            && (s.stats.consecutiveSuccesses == 0 || s.stats.consecutiveFailures == 0)
            && s.stats.totalFailures
               == |set id | id in s.calls && !s.calls[id].success| % 0x1_0000_0000_0000_0000)
  {
    assert FailuresTotalled(START.calls) == {};
    CountersHold(START, steps);
    var s := Run(START, steps);
    if Quiet(s) {
      assert FailuresTotalled(s.calls) == set id | id in s.calls && !s.calls[id].success;
    }
  }

  // ----- the flag

  lemma {:induction false} PrefixRuns(s: State, steps: seq<Step>, k: nat)
    requires CanRun(s, steps) && k <= |steps|
    ensures CanRun(s, steps[..k])
    ensures k < |steps| ==>
      Enabled(Run(s, steps[..k]), steps[k]) && CanRun(s, steps[..k + 1])
      && Run(s, steps[..k + 1]) == Apply(Run(s, steps[..k]), steps[k])
    decreases k
  {
    if k == 0 {
      if steps != [] {
        assert steps[..1][1..] == [] && CanRun(Apply(s, steps[0]), []);
      }
    } else {
      PrefixRuns(Apply(s, steps[0]), steps[1..], k - 1);
      assert steps[..k][1..] == steps[1..][..k - 1];
      if k < |steps| {
        assert steps[..k + 1][1..] == steps[1..][..k];
      }
    }
  }

  /** The state of a run from the start after its first `k` steps. */
  function At(steps: seq<Step>, k: nat): State
    requires CanRun(START, steps) && k <= |steps|
  {
    PrefixRuns(START, steps, k);
    Run(START, steps[..k])
  }

  /** What a step writes to the flag, if it does: a call writes as its last step, and only if the number
      its own increment gave it reaches its threshold. */
  function Writes(s: State, step: Step): Option<bool>
    requires Enabled(s, step)
  {
    if step.Begin? then None
    else
      var c := s.calls[step.id];
      if c.pc.Cleared? && c.success && c.pc.n >= c.threshold then Some(true)
      else if c.pc.Totalled? && c.pc.n >= c.threshold then Some(false)
      else None
  }

  ghost predicate WritesAt(steps: seq<Step>, k: nat, v: bool)
    requires CanRun(START, steps) && k < |steps|
  {
    PrefixRuns(START, steps, k);
    Writes(At(steps, k), steps[k]) == Some(v)
  }

  ghost predicate WrittenOver(steps: seq<Step>, j: nat, k: nat)
    requires CanRun(START, steps) && k <= |steps|
  {
    exists m: nat :: j < m < k && WritesAt(steps, m, true)
  }

  /** Of the first `k` steps, every one that clears the flag is followed by one that sets it. */
  ghost predicate LastWriteSets(steps: seq<Step>, k: nat)
    requires CanRun(START, steps) && k <= |steps|
  {
    forall j: nat :: j < k && WritesAt(steps, j, false) ==> WrittenOver(steps, j, k)
  }

  lemma {:induction false} FlagIsLastWrite(steps: seq<Step>, k: nat)
    requires CanRun(START, steps) && k <= |steps|
    ensures At(steps, k).stats.healthy <==> LastWriteSets(steps, k)
  {
    if k == 0 {
    } else {
      FlagIsLastWrite(steps, k - 1);
      PrefixRuns(START, steps, k - 1);
      assert At(steps, k).stats.healthy == match Writes(At(steps, k - 1), steps[k - 1])
        case Some(v) => v
        case None => At(steps, k - 1).stats.healthy;
      if WritesAt(steps, k - 1, true) {
        assert forall j: nat :: j < k - 1 ==> WrittenOver(steps, j, k);
      } else if WritesAt(steps, k - 1, false) {
        assert !WrittenOver(steps, k - 1, k);
      } else {
        assert forall j: nat :: j < k - 1 ==> (WrittenOver(steps, j, k) <==> WrittenOver(steps, j, k - 1));
      }
    }
  }

  function NextRun(s: State, step: Step, v: bool, before: nat): nat
    requires Enabled(s, step)
  {
    if step.Begin? then before
    else
      var c := s.calls[step.id];
      if c.pc.Begun? && c.success == v then before + 1 else if c.pc.Counted? && c.success != v then 0 else before
  }

  /** How often calls of kind `v` have counted themselves since a call of the other kind last reset their
      counter. */
  function RunLength(steps: seq<Step>, k: nat, v: bool): nat
    requires CanRun(START, steps) && k <= |steps|
  {
    if k == 0 then 0
    else
      PrefixRuns(START, steps, k - 1);
      NextRun(At(steps, k - 1), steps[k - 1], v, RunLength(steps, k - 1, v))
  }

  ghost predicate CountsRuns(s: State, successes: nat, failures: nat) {
    && s.stats.consecutiveSuccesses == successes % 0x1_0000_0000
    && s.stats.consecutiveFailures == failures % 0x1_0000_0000
  }

  lemma StepCountsRuns(s: State, step: Step, successes: nat, failures: nat)
    requires Enabled(s, step) && CountsRuns(s, successes, failures)
    ensures CountsRuns(Apply(s, step), NextRun(s, step, true, successes), NextRun(s, step, false, failures))
  {
    WrapSucc32(successes);
    WrapSucc32(failures);
  }

  lemma {:induction false} CountersAreRuns(steps: seq<Step>, k: nat)
    requires CanRun(START, steps) && k <= |steps|
    ensures CountsRuns(At(steps, k), RunLength(steps, k, true), RunLength(steps, k, false))
  {
    if k == 0 {
    } else {
      hide CountsRuns, NextRun, Apply;
      CountersAreRuns(steps, k - 1);
      PrefixRuns(START, steps, k - 1);
      StepCountsRuns(At(steps, k - 1), steps[k - 1], RunLength(steps, k - 1, true), RunLength(steps, k - 1, false));
    }
  }

  /** Step `j` was the increment of this call, and the call holds the length of the run it then extended. */
  ghost predicate CountedBy(steps: seq<Step>, j: nat, id: nat, c: Call)
    requires CanRun(START, steps) && j < |steps|
  {
    && steps[j] == Advance(id) && id in At(steps, j).calls
    && At(steps, j).calls[id] == c.(pc := Begun)
    && !c.pc.Begun? && c.pc.n == RunLength(steps, j + 1, c.success) % 0x1_0000_0000
  }

  lemma {:induction false} CallsHoldRuns(steps: seq<Step>, k: nat, id: nat)
    requires CanRun(START, steps) && k <= |steps|
    requires id in At(steps, k).calls && !At(steps, k).calls[id].pc.Begun?
    ensures exists j: nat :: j < k && CountedBy(steps, j, id, At(steps, k).calls[id])
  {
    if k == 0 {
    } else {
      PrefixRuns(START, steps, k - 1);
      var before := At(steps, k - 1);
      var c := At(steps, k).calls[id];
      if steps[k - 1] == Advance(id) && before.calls[id].pc.Begun? {
        CountersAreRuns(steps, k);
        assert CountedBy(steps, k - 1, id, c);
      } else {
        CallsHoldRuns(steps, k - 1, id);
        var j: nat :| j < k - 1 && CountedBy(steps, j, id, before.calls[id]);
        assert CountedBy(steps, j, id, c);
      }
    }
  }

  /** In every interleaving of successes and failures with any thresholds: the flag is what was last
      written to it; and a call writes exactly if the run that its own increment extended was as long, in
      32 bits, as its threshold. What the counters have been through since then does not matter. */
  lemma FlagWhenInterleaved(steps: seq<Step>)
    requires CanRun(START, steps)
    ensures Run(START, steps).stats.healthy <==> LastWriteSets(steps, |steps|)
    ensures CountsRuns(Run(START, steps), RunLength(steps, |steps|, true), RunLength(steps, |steps|, false))
    ensures forall id :: id in Run(START, steps).calls && !Run(START, steps).calls[id].pc.Begun? ==>
              exists j: nat :: j < |steps| && CountedBy(steps, j, id, Run(START, steps).calls[id])
  {
    assert steps[..|steps|] == steps;
    FlagIsLastWrite(steps, |steps|);
    CountersAreRuns(steps, |steps|);
    forall id | id in Run(START, steps).calls && !Run(START, steps).calls[id].pc.Begun?
      ensures exists j: nat :: j < |steps| && CountedBy(steps, j, id, Run(START, steps).calls[id])
    {
      CallsHoldRuns(steps, |steps|, id);
    }
  }
}
