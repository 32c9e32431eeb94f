/** What the schedule of health calls decides, and what it does not: src/balance/mod.rs, many calls of
    `record_success_with_threshold` and `record_failure_with_threshold` at once, each with a threshold of
    its own. */
module Schedules {
  import opened Primitives
  import opened Origin
  import opened HealthInterleaving

  // ----- calls one after the other

  /** The state of an origin after one more report. */
  function RecordedOne(v: Stats, x: Report): Stats {
    if x.success then v.RecordSuccess(x.threshold) else v.RecordFailure(x.threshold)
  }

  function Recorded(v: Stats, h: seq<Report>): Stats {
    if h == [] then v else RecordedOne(Recorded(v, h[..|h| - 1]), h[|h| - 1])
  }

  lemma {:induction false} RecordedIsAfter(h: seq<Report>)
    ensures Recorded(NEW, h) == After(h, |h|)
  {
    if h == [] {
    } else {
      var front := h[..|h| - 1];
      RecordedIsAfter(front);
      AfterOfPrefix(front, h[|h| - 1], |front|);
      assert front + [h[|h| - 1]] == h;
    }
  }

  ghost predicate DoneAs(s: State, id: nat, x: Report) {
    id in s.calls && s.calls[id].success == x.success && s.calls[id].threshold == x.threshold && s.calls[id].pc.Done?
  }

  /** One call from beginning to end with no other moving does what the sequential operation does. */
  lemma CallAlone(s: State, id: nat, x: Report) returns (steps: seq<Step>)
    requires id !in s.calls
    ensures CanRun(s, steps)
    ensures var s' := Run(s, steps);
      && s'.stats == RecordedOne(s.stats, x) && DoneAs(s', id, x)
      && s'.calls.Keys == s.calls.Keys + {id}
      && (forall other :: other in s.calls ==> s'.calls[other] == s.calls[other])
  {
    var step := Advance(id);
    var begin := Begin(id, x.success, x.threshold);
    var s1 := Apply(s, begin);
    var s2 := Apply(s1, step);
    var s3 := Apply(s2, step);
    var s4 := Apply(s3, step);
    var last: seq<Step>, final: State := [], s4;
    if !x.success {
      final := Apply(s4, step);
      assert CanRun(final, []) && Run(final, []) == final;
      RunFirst(s4, step, []);
      last := [step] + [];
    } else {
      assert CanRun(s4, []) && Run(s4, []) == s4;
    }
    RunFirst(s3, step, last);
    RunFirst(s2, step, [step] + last);
    RunFirst(s1, step, [step] + ([step] + last));
    RunFirst(s, begin, [step] + ([step] + ([step] + last)));
    steps := [begin] + ([step] + ([step] + ([step] + last)));
  }

  // ----- many calls in some order

  /** `h` lists the calls: call `id` reports `h[id]`. */
  ghost predicate InRange(h: seq<Report>, order: seq<nat>) {
    forall i :: 0 <= i < |order| ==> order[i] < |h|
  }

  /** The reports in the order of these calls. */
  function Along(h: seq<Report>, order: seq<nat>): (along: seq<Report>)
    requires InRange(h, order)
    ensures |along| == |order| && forall i :: 0 <= i < |order| ==> along[i] == h[order[i]]
  {
    seq(|order|, i requires 0 <= i < |order| => h[order[i]])
  }

  ghost predicate Distinct(order: seq<nat>) {
    forall id :: multiset(order)[id] <= 1
  }

  function Below(n: nat): (ids: set<nat>)
    ensures |ids| == n && forall id: nat :: id in ids <==> id < n
  {
    if n == 0 then {} else Below(n - 1) + {n - 1}
  }

  /** Each call once. */
  ghost predicate Covers(h: seq<Report>, order: seq<nat>) {
    multiset(order) == multiset(Below(|h|))
  }

  lemma CoversWell(h: seq<Report>, order: seq<nat>)
    requires Covers(h, order)
    ensures InRange(h, order) && Distinct(order) && |order| == |h| && forall id: nat :: id < |h| ==> id in order
  {
    assert |multiset(order)| == |order| && |multiset(Below(|h|))| == |h|;
    forall i | 0 <= i < |order| ensures order[i] < |h| {
      assert order[i] in multiset(order);
    }
    forall id: nat | id < |h| ensures id in order {
      assert id in multiset(order);
    }
  }

  lemma PartsDistinct(a: seq<nat>, b: seq<nat>)
    requires Distinct(a + b)
    ensures Distinct(a) && Distinct(b) && forall id :: id in a ==> id !in b
  {
    assert multiset(a + b) == multiset(a) + multiset(b);
    forall id ensures multiset(a)[id] <= 1 && multiset(b)[id] <= 1 {
      assert multiset(a + b)[id] <= 1;
    }
    forall id | id in a ensures id !in b {
      assert id in multiset(a) && multiset(a + b)[id] <= 1;
      assert id in b ==> id in multiset(b);
    }
  }

  /** The calls in `order` are made, and no other. */
  ghost predicate Follow(s: State, s': State, h: seq<Report>, order: seq<nat>)
    requires InRange(h, order)
  {
    && s'.stats == Recorded(s.stats, Along(h, order))
    && (forall id :: id in s'.calls <==> id in s.calls || id in order)
    && (forall id :: id in s.calls ==> s'.calls[id] == s.calls[id])
    && (forall id :: id in order ==> DoneAs(s', id, h[id]))
  }

  lemma FollowOneMore(s: State, s1: State, s2: State, h: seq<Report>, front: seq<nat>, last: nat)
    requires InRange(h, front) && last < |h| && last !in front && last !in s1.calls
    requires Follow(s, s1, h, front)
    requires s2.stats == RecordedOne(s1.stats, h[last]) && DoneAs(s2, last, h[last])
    requires s2.calls.Keys == s1.calls.Keys + {last}
    requires forall other :: other in s1.calls ==> s2.calls[other] == s1.calls[other]
    ensures InRange(h, front + [last]) && Follow(s, s2, h, front + [last])
  {
    var order := front + [last];
    assert Along(h, order)[..|order| - 1] == Along(h, front);
    forall id | id in order ensures DoneAs(s2, id, h[id]) {
      if id != last {
        assert id in front && DoneAs(s1, id, h[id]);
      }
    }
  }

  lemma {:induction false} CallsInOrder(s: State, h: seq<Report>, order: seq<nat>) returns (steps: seq<Step>)
    requires InRange(h, order) && Distinct(order) && forall id :: id in order ==> id !in s.calls
    ensures CanRun(s, steps) && Follow(s, Run(s, steps), h, order)
    decreases |order|
  {
    if order == [] {
      steps := [];
    } else {
      var front, last := order[..|order| - 1], order[|order| - 1];
      assert order == front + [last];
      PartsDistinct(front, [last]);
      var begun := CallsInOrder(s, h, front);
      var s1 := Run(s, begun);
      var more := CallAlone(s1, last, h[last]);
      RunJoined(s, begun, more);
      steps := begun + more;
      FollowOneMore(s, s1, Run(s1, more), h, front, last);
    }
  }

  /** All calls of `h` and no other are complete. */
  ghost predicate Finishes(steps: seq<Step>, h: seq<Report>) {
    && CanRun(START, steps)
    && (forall id :: id in Run(START, steps).calls ==> id < |h|)
    && forall id: nat :: id < |h| ==> DoneAs(Run(START, steps), id, h[id])
  }

  /** The calls of `h` one after the other. */
  lemma Sequential(h: seq<Report>, order: seq<nat>) returns (steps: seq<Step>)
    requires Covers(h, order)
    ensures InRange(h, order) && |order| == |h| && Finishes(steps, h)
    ensures Run(START, steps).stats.healthy <==> LastRunIsSuccess(Along(h, order), |h|)
  {
    CoversWell(h, order);
    steps := CallsInOrder(START, h, order);
    RecordedIsAfter(Along(h, order));
    FlagFromHistory(Along(h, order));
  }

  lemma {:induction false} Enumerated(ids: set<nat>) returns (order: seq<nat>)
    ensures multiset(order) == multiset(ids) && |order| == |ids|
    decreases ids
  {
    if ids == {} {
      order := [];
    } else {
      var id :| id in ids;
      var rest := Enumerated(ids - {id});
      order := rest + [id];
      assert multiset(order) == multiset(rest) + multiset{id};
    }
  }

  /** The calls of one kind. */
  function Of(h: seq<Report>, kind: bool): set<nat> {
    set id: nat | id < |h| && h[id].success == kind
  }

  function Threshold(x: Report): nat {
    AtLeastOne(x.threshold)
  }

  /** The failures whose threshold is `k` at most. */
  function UpTo(h: seq<Report>, k: nat): set<nat> {
    set id: nat | id < |h| && !h[id].success && Threshold(h[id]) <= k
  }

  lemma BothKinds(h: seq<Report>)
    ensures multiset(Below(|h|)) == multiset(Of(h, true)) + multiset(Of(h, false))
  {
    assert Below(|h|) == Of(h, true) + Of(h, false);
    assert Of(h, true) !! Of(h, false);
  }

  lemma WithoutOne(ids: set<nat>, id: nat)
    requires id in ids
    ensures multiset(ids) == multiset(ids - {id}) + multiset{id}
    ensures |ids| == |ids - {id}| + 1
  {
  }

  // ----- a late success

  lemma BeginAndCount(s: State, id: nat, st: u32) returns (steps: seq<Step>)
    requires id !in s.calls
    ensures CanRun(s, steps)
    ensures var n := Succ32(s.stats.consecutiveSuccesses);
      Run(s, steps) == State(s.stats.(consecutiveSuccesses := n), s.calls[id := Call(true, st, Counted(n))])
  {
    var s1 := Apply(s, Begin(id, true, st));
    var s2 := Apply(s1, Advance(id));
    assert CanRun(s2, []) && Run(s2, []) == s2;
    RunFirst(s1, Advance(id), []);
    RunFirst(s, Begin(id, true, st), [Advance(id)] + []);
    steps := [Begin(id, true, st)] + ([Advance(id)] + []);
    assert s1.calls[id := s2.calls[id]] == s.calls[id := s2.calls[id]];
  }

  lemma FinishLate(s: State, id: nat) returns (steps: seq<Step>)
    requires id in s.calls && s.calls[id].success && s.calls[id].pc.Counted?
    requires s.calls[id].pc.n >= s.calls[id].threshold
    ensures steps == [Advance(id), Advance(id)] && CanRun(s, steps)
    ensures var s' := Run(s, steps);
      && s'.stats.healthy && s'.stats.consecutiveFailures == 0
      && s'.calls == s.calls[id := s.calls[id].(pc := Done(s.calls[id].pc.n))]
  {
    var s1 := Apply(s, Advance(id));
    var s2 := Apply(s1, Advance(id));
    steps := [Advance(id), Advance(id)];
    assert CanRun(s2, []) && Run(s2, []) == s2;
    RunFirst(s1, Advance(id), []);
    RunFirst(s, Advance(id), [Advance(id)] + []);
    assert steps == [Advance(id)] + ([Advance(id)] + []);
  }

  ghost predicate AllSucceed(h: seq<Report>) {
    forall i :: 0 <= i < |h| ==> h[i].success
  }

  lemma {:induction false} RecordedSuccesses(h: seq<Report>)
    requires AllSucceed(h) && |h| < 0x1_0000_0000
    ensures Recorded(NEW, h).consecutiveFailures == 0 && Recorded(NEW, h).consecutiveSuccesses == |h|
  {
    if h == [] {
    } else {
      RecordedSuccesses(h[..|h| - 1]);
    }
  }

  /** The origin when the successes `first` are complete and one more has counted itself. */
  function Waiting(h: seq<Report>, first: seq<nat>): Stats
    requires InRange(h, first)
  {
    var v := Recorded(NEW, Along(h, first));
    v.(consecutiveSuccesses := Succ32(v.consecutiveSuccesses))
  }

  ghost predicate LateOrder(h: seq<Report>, first: seq<nat>, late: nat, rest: seq<nat>) {
    && Covers(h, first + ([late] + rest)) && InRange(h, first) && InRange(h, rest)
    && late < |h| && h[late].success && AllSucceed(Along(h, first)) && |first| + 1 == Threshold(h[late])
  }

  /** The successes `first` are complete, `late` has counted itself, and after that `rest` are complete. */
  ghost predicate LateWaits(s: State, h: seq<Report>, first: seq<nat>, late: nat, rest: seq<nat>)
    requires LateOrder(h, first, late, rest)
  {
    && s.stats == Recorded(Waiting(h, first), Along(h, rest))
    && late in s.calls && s.calls[late] == Call(true, h[late].threshold, Counted(Threshold(h[late])))
    && (forall id :: id in s.calls ==> id < |h|)
    && (forall id: nat :: id < |h| && id != late ==> DoneAs(s, id, h[id]))
  }

  lemma LateOrdered(h: seq<Report>, first: seq<nat>, late: nat, rest: seq<nat>)
    requires Covers(h, first + ([late] + rest)) && late < |h| && h[late].success
    requires |first| + 1 == Threshold(h[late])
    requires forall i :: 0 <= i < |first| ==> first[i] < |h| && h[first[i]].success
    ensures LateOrder(h, first, late, rest)
  {
    var order := first + ([late] + rest);
    CoversWell(h, order);
    forall i | 0 <= i < |rest| ensures rest[i] < |h| {
      assert order[|first| + 1 + i] == rest[i];
    }
  }

  lemma LateSettled(h: seq<Report>, first: seq<nat>, late: nat, rest: seq<nat>, s1: State, s2: State, s3: State)
    requires Covers(h, first + ([late] + rest)) && late < |h| && InRange(h, first) && InRange(h, rest)
    requires late !in first && late !in rest && forall id :: id in first ==> id !in rest
    requires Follow(START, s1, h, first) && Follow(s2, s3, h, rest)
    requires s2.calls.Keys == s1.calls.Keys + {late} && forall id :: id in s1.calls ==> s2.calls[id] == s1.calls[id]
    ensures forall id: nat :: id < |h| && id != late ==> DoneAs(s3, id, h[id])
    ensures forall id :: id in s3.calls ==> id < |h|
    ensures late in s3.calls && s3.calls[late] == s2.calls[late]
  {
    CoversWell(h, first + ([late] + rest));
    forall id: nat | id < |h| && id != late ensures DoneAs(s3, id, h[id]) {
      assert id in first + ([late] + rest);
      if id in first {
        assert DoneAs(s1, id, h[id]);
      }
    }
  }

  lemma LateBegins(h: seq<Report>, first: seq<nat>, late: nat, rest: seq<nat>) returns (before: seq<Step>)
    requires LateOrder(h, first, late, rest)
    ensures CanRun(START, before) && LateWaits(Run(START, before), h, first, late, rest)
  {
    hide Run, CanRun, Covers, Recorded;
    CoversWell(h, first + ([late] + rest));
    PartsDistinct(first, [late] + rest);
    PartsDistinct([late], rest);
    var begun := CallsInOrder(START, h, first);
    var s1 := Run(START, begun);
    RecordedSuccesses(Along(h, first));
    var count := BeginAndCount(s1, late, h[late].threshold);
    var s2 := Run(s1, count);
    var others := CallsInOrder(s2, h, rest);
    LateSettled(h, first, late, rest, s1, s2, Run(s2, others));
    RunJoined(s1, count, others);
    RunJoined(START, begun, count + others);
    before := begun + (count + others);
  }

  /** A success that has counted up to its threshold pauses while all other calls complete in any order; then
      it goes on, and has the last word. */
  lemma LateRun(h: seq<Report>, first: seq<nat>, late: nat, rest: seq<nat>)
    returns (before: seq<Step>, after: seq<Step>)
    requires LateOrder(h, first, late, rest)
    ensures CanRun(START, before) && LateWaits(Run(START, before), h, first, late, rest)
    ensures after == [Advance(late), Advance(late)] && CanRun(Run(START, before), after)
    ensures var s' := Run(Run(START, before), after); s'.stats.healthy && s'.stats.consecutiveFailures == 0
    ensures CanRun(START, before + after) && Run(START, before + after) == Run(Run(START, before), after)
    ensures Finishes(before + after, h)
  {
    hide Run, CanRun, Covers;
    before := LateBegins(h, first, late, rest);
    var s := Run(START, before);
    after := FinishLate(s, late);
    RunJoined(START, before, after);
    forall id: nat | id < |h| ensures DoneAs(Run(s, after), id, h[id]) {
      assert id != late ==> DoneAs(s, id, h[id]);
    }
  }

  function Repeat(x: Report, n: nat): (h: seq<Report>)
    ensures |h| == n && forall i :: 0 <= i < n ==> h[i] == x
  {
    seq(n, _ => x)
  }

  function Range(lo: nat, n: nat): (order: seq<nat>)
    ensures |order| == n && forall i :: 0 <= i < n ==> order[i] == lo + i
  {
    seq(n, i requires 0 <= i < n => lo + i)
  }

  lemma {:induction false} RangeCovers(n: nat)
    ensures multiset(Range(0, n)) == multiset(Below(n))
  {
    if n == 0 {
    } else {
      RangeCovers(n - 1);
      assert Range(0, n) == Range(0, n - 1) + [n - 1];
    }
  }

  lemma {:induction false} RecordedFailures(v: Stats, ft: u32, n: nat)
    requires v.consecutiveFailures == 0
    ensures var v' := Recorded(v, Repeat(Report(false, ft), n));
      v'.consecutiveFailures == n % 0x1_0000_0000 && (n >= AtLeastOne(ft) ==> !v'.healthy)
  {
    if n == 0 {
    } else {
      RecordedFailures(v, ft, n - 1);
      assert Repeat(Report(false, ft), n)[..n - 1] == Repeat(Report(false, ft), n - 1);
      WrapSucc32(n - 1);
    }
  }

  /** As many successes as mark an origin healthy and failures as mark it unhealthy. */
  function Mixed(st: u32, ft: u32): seq<Report> {
    Repeat(Report(true, st), AtLeastOne(st)) + Repeat(Report(false, ft), AtLeastOne(ft))
  }

  lemma RangesCover(h: seq<Report>, a: nat, b: nat)
    requires |h| == a + 1 + b
    ensures Covers(h, Range(0, a) + ([a] + Range(a + 1, b)))
  {
    assert Range(0, a) + ([a] + Range(a + 1, b)) == Range(0, |h|);
    RangeCovers(|h|);
  }

  lemma MixedOrder(st: u32, ft: u32)
    ensures var h, a, b := Mixed(st, ft), AtLeastOne(st), AtLeastOne(ft);
      var first, rest := Range(0, a - 1), Range(a, b);
      && LateOrder(h, first, a - 1, rest)
      && !Recorded(Waiting(h, first), Along(h, rest)).healthy
  {
    hide Recorded;
    var h, a, b := Mixed(st, ft), AtLeastOne(st), AtLeastOne(ft);
    var first, rest := Range(0, a - 1), Range(a, b);
    RangesCover(h, a - 1, b);
    hide Covers;
    LateOrdered(h, first, a - 1, rest);
    RecordedSuccesses(Along(h, first));
    assert Along(h, rest) == Repeat(Report(false, ft), b);
    RecordedFailures(Waiting(h, first), ft, b);
  }

  /** The flag is not a function of the order in which calls end: for every pair of thresholds, a success
      that has counted itself may pause while threshold-many failures begin, complete and mark the origin
      unhealthy; when it goes on it clears their count and marks the origin healthy, and all is quiet. */
  lemma LateSuccess(st: u32, ft: u32) returns (before: seq<Step>, after: seq<Step>)
    ensures CanRun(START, before) && CanRun(Run(START, before), after)
    ensures var s, late, all := Run(START, before), AtLeastOne(st) - 1, AtLeastOne(st) + AtLeastOne(ft);
      && !s.stats.healthy && late in s.calls && s.calls[late] == Call(true, st, Counted(late + 1))
      && (forall id: nat :: id < late ==> DoneAs(s, id, Report(true, st)))
      && (forall id: nat :: late < id < all ==> DoneAs(s, id, Report(false, ft)))
      && after == [Advance(late), Advance(late)]
    ensures var s := Run(Run(START, before), after);
      Quiet(s) && s.stats.healthy && s.stats.consecutiveFailures == 0
  {
    hide Run, CanRun, Covers, Recorded;
    var a, b := AtLeastOne(st), AtLeastOne(ft);
    var h, first, rest := Mixed(st, ft), Range(0, a - 1), Range(a, b);
    MixedOrder(st, ft);
    before, after := LateRun(h, first, a - 1, rest);
    var s := Run(START, before);
    forall id: nat | id < a - 1 ensures DoneAs(s, id, Report(true, st)) {
      assert DoneAs(s, id, h[id]);
    }
    forall id: nat | a <= id < a + b ensures DoneAs(s, id, Report(false, ft)) {
      assert DoneAs(s, id, h[id]);
    }
    forall id | id in Run(START, before + after).calls ensures Run(START, before + after).calls[id].pc.Done? {
      assert DoneAs(Run(START, before + after), id, h[id]);
    }
  }

  // ----- what the schedule cannot change

  function CountedIds(calls: map<nat, Call>, kind: bool): set<nat> {
    set id | id in calls && calls[id].success == kind && !calls[id].pc.Begun?
  }

  /** Counted failures whose threshold is `k` at most. */
  function CountedUpTo(calls: map<nat, Call>, k: nat): set<nat> {
    set id | id in calls && !calls[id].success && !calls[id].pc.Begun? && AtLeastOne(calls[id].threshold) <= k
  }

  /** Successes that have reset the count of failures. */
  function ResetIds(calls: map<nat, Call>): set<nat> {
    set id | id in calls && calls[id].success && !calls[id].pc.Begun? && !calls[id].pc.Counted?
  }

  ghost predicate ReachedBy(s: State, id: nat, kind: bool) {
    id in s.calls && s.calls[id].success == kind && !s.calls[id].pc.Begun? && s.calls[id].pc.n >= s.calls[id].threshold
  }

  /** A call holds no more than the number of calls of its kind that have counted themselves. */
  ghost predicate HoldsAtMost(s: State) {
    && s.stats.consecutiveSuccesses <= |CountedIds(s.calls, true)|
    && s.stats.consecutiveFailures <= |CountedIds(s.calls, false)|
    && forall id :: id in s.calls && !s.calls[id].pc.Begun? ==>
         s.calls[id].pc.n <= |CountedIds(s.calls, s.calls[id].success)|
  }

  lemma CountedGrows(s: State, step: Step, kind: bool)
    requires Enabled(s, step)
    ensures |CountedIds(Apply(s, step).calls, kind)| == |CountedIds(s.calls, kind)|
         + if step.Advance? && s.calls[step.id].pc.Begun? && s.calls[step.id].success == kind then 1 else 0
  {
    var calls' := Apply(s, step).calls;
    if step.Advance? && s.calls[step.id].pc.Begun? && s.calls[step.id].success == kind {
      assert CountedIds(calls', kind) == CountedIds(s.calls, kind) + {step.id};
      assert step.id !in CountedIds(s.calls, kind);
    } else {
      assert CountedIds(calls', kind) == CountedIds(s.calls, kind);
    }
  }

  /** The step counts a failure whose threshold is `k` at most. */
  predicate CountsUpTo(s: State, step: Step, k: nat)
    requires Enabled(s, step)
  {
    && step.Advance? && s.calls[step.id].pc.Begun? && !s.calls[step.id].success
    && AtLeastOne(s.calls[step.id].threshold) <= k
  }

  lemma CountedUpToGrows(s: State, step: Step, k: nat)
    requires Enabled(s, step)
    ensures |CountedUpTo(Apply(s, step).calls, k)|
         == |CountedUpTo(s.calls, k)| + if CountsUpTo(s, step, k) then 1 else 0
  {
    var calls' := Apply(s, step).calls;
    if CountsUpTo(s, step, k) {
      assert CountedUpTo(calls', k) == CountedUpTo(s.calls, k) + {step.id};
      assert step.id !in CountedUpTo(s.calls, k);
    } else {
      assert CountedUpTo(calls', k) == CountedUpTo(s.calls, k);
    }
  }

  lemma ResetGrows(s: State, step: Step)
    requires Enabled(s, step)
    ensures |ResetIds(Apply(s, step).calls)| == |ResetIds(s.calls)|
         + if step.Advance? && s.calls[step.id].pc.Counted? && s.calls[step.id].success then 1 else 0
  {
    var calls' := Apply(s, step).calls;
    if step.Advance? && s.calls[step.id].pc.Counted? && s.calls[step.id].success {
      assert ResetIds(calls') == ResetIds(s.calls) + {step.id};
      assert step.id !in ResetIds(s.calls);
    } else {
      assert ResetIds(calls') == ResetIds(s.calls);
    }
  }

  lemma StepHoldsAtMost(s: State, step: Step)
    requires Enabled(s, step) && HoldsAtMost(s)
    ensures HoldsAtMost(Apply(s, step))
  {
    CountedGrows(s, step, true);
    CountedGrows(s, step, false);
  }

  function Lesser(x: nat, y: nat): nat {
    if x <= y then x else y
  }

  /** Between two resets fewer than `k` failures with a threshold of `k` at most count themselves, or some
      failure reaches its threshold. */
  ghost predicate ShortStretches(s: State, k: nat)
    requires k > 0
  {
    || (s.stats.consecutiveFailures < 0xFFFF_FFFF
        && |CountedUpTo(s.calls, k)| <= |ResetIds(s.calls)| * (k - 1) + Lesser(s.stats.consecutiveFailures, k - 1))
    || exists id :: ReachedBy(s, id, false)
  }

  lemma OneMoreStretch(n: nat, resets: nat, some: nat, k: nat)
    requires k > 0 && some < k && n <= resets * (k - 1) + some
    ensures n <= (resets + 1) * (k - 1)
  {
    assert (resets + 1) * (k - 1) == resets * (k - 1) + (k - 1);
  }

  lemma StepShortStretches(s: State, step: Step, k: nat)
    requires k > 0 && Enabled(s, step) && ShortStretches(s, k)
    ensures ShortStretches(Apply(s, step), k)
  {
    var s' := Apply(s, step);
    CountedUpToGrows(s, step, k);
    ResetGrows(s, step);
    if id :| ReachedBy(s, id, false) {
      assert ReachedBy(s', id, false);
    } else if step.Advance? {
      var c := s.calls[step.id];
      if c.pc.Begun? && !c.success {
        assert ReachedBy(s', step.id, false) <==> s.stats.consecutiveFailures + 1 >= c.threshold;
      } else if c.pc.Counted? && c.success {
        OneMoreStretch(|CountedUpTo(s.calls, k)|, |ResetIds(s.calls)|, Lesser(s.stats.consecutiveFailures, k - 1), k);
      }
    }
  }

  ghost predicate Wrote(s: State, id: nat, kind: bool) {
    ReachedBy(s, id, kind) && s.calls[id].pc.Done?
  }

  /** The flag is off only if a failure has written it, and then it is unless a success has, too. */
  ghost predicate OffIfWritten(s: State) {
    && (!s.stats.healthy ==> exists id :: Wrote(s, id, false))
    && ((exists id :: Wrote(s, id, true)) || ((exists id :: Wrote(s, id, false)) ==> !s.stats.healthy))
  }

  /** Only failures have totals to count. */
  ghost predicate WellPlaced(s: State) {
    forall id :: id in s.calls && s.calls[id].pc.Totalled? ==> !s.calls[id].success
  }

  lemma StepOffIfWritten(s: State, step: Step)
    requires Enabled(s, step) && OffIfWritten(s) && WellPlaced(s)
    ensures OffIfWritten(Apply(s, step))
  {
    var s' := Apply(s, step);
    forall id, kind | id != step.id ensures Wrote(s', id, kind) == Wrote(s, id, kind) {
    }
    assert !Wrote(s, step.id, true) && !Wrote(s, step.id, false);
    if Wrote(s', step.id, false) {
      assert !s'.stats.healthy;
    } else if !Wrote(s', step.id, true) {
      assert s'.stats.healthy == s.stats.healthy;
    }
  }

  ghost predicate Books(s: State, k: nat)
    requires k > 0
  {
    HoldsAtMost(s) && ShortStretches(s, k) && OffIfWritten(s) && WellPlaced(s)
  }

  lemma {:induction false} BooksHold(s: State, steps: seq<Step>, k: nat)
    requires k > 0 && Books(s, k) && CanRun(s, steps)
    ensures Books(Run(s, steps), k)
    decreases |steps|
  {
    if steps == [] {
    } else {
      StepHoldsAtMost(s, steps[0]);
      StepShortStretches(s, steps[0], k);
      StepOffIfWritten(s, steps[0]);
      BooksHold(Apply(s, steps[0]), steps[1..], k);
    }
  }

  lemma BooksFromStart(steps: seq<Step>, k: nat)
    requires k > 0 && CanRun(START, steps)
    ensures Books(Run(START, steps), k)
  {
    assert CountedIds(START.calls, true) == {} && CountedIds(START.calls, false) == {};
    assert CountedUpTo(START.calls, k) == {} && ResetIds(START.calls) == {};
    BooksHold(START, steps, k);
  }

  /** An unhealthy origin has seen a failure whose threshold is no more than the number of failures. */
  lemma OffNeedsFailures(s: State)
    requires HoldsAtMost(s) && OffIfWritten(s) && !s.stats.healthy
    ensures exists id :: Wrote(s, id, false) && AtLeastOne(s.calls[id].threshold) <= |CountedIds(s.calls, false)|
  {
    var id :| Wrote(s, id, false);
    assert id in CountedIds(s.calls, false);
  }

  /** A healthy origin at quiescence has seen a success whose threshold is no more than the number of
      successes, or few failures of low threshold. */
  lemma OnNeedsRoom(s: State, k: nat)
    requires k > 0 && Books(s, k) && Quiet(s) && s.stats.healthy
    ensures || (exists id :: Wrote(s, id, true) && AtLeastOne(s.calls[id].threshold) <= |CountedIds(s.calls, true)|)
            || |CountedUpTo(s.calls, k)| <= (|ResetIds(s.calls)| + 1) * (k - 1)
  {
    if id :| ReachedBy(s, id, false) {
      assert Wrote(s, id, false);
      var late :| Wrote(s, late, true);
      assert late in CountedIds(s.calls, true);
    } else {
      OneMoreStretch(|CountedUpTo(s.calls, k)|, |ResetIds(s.calls)|, Lesser(s.stats.consecutiveFailures, k - 1), k);
    }
  }

  // ----- failures only

  /** No concurrent failure is lost: failures alone, with thresholds of their own, however they interleave,
      mark a new origin unhealthy if for some `k` there are `k` with thresholds of `k` at most, and only if
      the threshold of one is no more than their number. */
  lemma ConcurrentFailuresMark(steps: seq<Step>)
    requires CanRun(START, steps) && Quiet(Run(START, steps))
    requires forall id :: id in Run(START, steps).calls ==> !Run(START, steps).calls[id].success
    ensures var s := Run(START, steps);
      && ((exists k: nat :: k > 0 && |CountedUpTo(s.calls, k)| >= k) ==> !s.stats.healthy)
      && (!s.stats.healthy ==> exists id :: id in s.calls && AtLeastOne(s.calls[id].threshold) <= |s.calls|)
  {
    var s := Run(START, steps);
    assert ResetIds(s.calls) == {} && CountedIds(s.calls, true) == {};
    assert CountedIds(s.calls, false) == s.calls.Keys;
    forall k: nat | k > 0 && |CountedUpTo(s.calls, k)| >= k ensures !s.stats.healthy {
      BooksFromStart(steps, k);
      if s.stats.healthy {
        OnNeedsRoom(s, k);
      }
    }
    BooksFromStart(steps, 1);
    if !s.stats.healthy {
      OffNeedsFailures(s);
    }
  }

  /** With one threshold for all of them: exactly when there are at least that many. */
  lemma UniformFailuresMark(steps: seq<Step>, threshold: u32)
    requires CanRun(START, steps) && Quiet(Run(START, steps))
    requires forall id :: id in Run(START, steps).calls ==>
               !Run(START, steps).calls[id].success && Run(START, steps).calls[id].threshold == threshold
    ensures var s := Run(START, steps); !s.stats.healthy <==> |s.calls| >= AtLeastOne(threshold)
  {
    ConcurrentFailuresMark(steps);
    var s, k := Run(START, steps), AtLeastOne(threshold);
    assert CountedUpTo(s.calls, k) == s.calls.Keys;
  }

  // ----- which flags a schedule can bring about

  lemma FinishedIds(steps: seq<Step>, h: seq<Report>, k: nat)
    requires Finishes(steps, h)
    ensures var s := Run(START, steps);
      && Quiet(s)
      && CountedIds(s.calls, true) == ResetIds(s.calls) == Of(h, true)
      && CountedIds(s.calls, false) == Of(h, false) && CountedUpTo(s.calls, k) == UpTo(h, k)
      && forall id: nat :: id < |h| ==>
           id in s.calls && s.calls[id].success == h[id].success && s.calls[id].threshold == h[id].threshold
  {
    var s := Run(START, steps);
    forall id: nat | id < |h|
      ensures id in s.calls && s.calls[id].success == h[id].success && s.calls[id].threshold == h[id].threshold
    {
      assert DoneAs(s, id, h[id]);
    }
    forall id | id in s.calls ensures s.calls[id].pc.Done? {
      assert DoneAs(s, id, h[id]);
    }
    assert forall kind :: CountedIds(s.calls, kind) == Of(h, kind);
    assert ResetIds(s.calls) == Of(h, true);
    assert CountedUpTo(s.calls, k) == UpTo(h, k);
  }

  /** A failure whose threshold is no more than the number of failures. */
  ghost predicate CanClear(h: seq<Report>, id: nat) {
    id < |h| && !h[id].success && Threshold(h[id]) <= |Of(h, false)|
  }

  /** A success whose threshold is no more than the number of successes. */
  ghost predicate CanSet(h: seq<Report>, id: nat) {
    id < |h| && h[id].success && Threshold(h[id]) <= |Of(h, true)|
  }

  ghost predicate RoomAt(h: seq<Report>, k: nat)
    requires k > 0
  {
    |UpTo(h, k)| <= (|Of(h, true)| + 1) * (k - 1)
  }

  /** The failures can be spread between the successes so that none reaches its threshold. */
  ghost predicate Room(h: seq<Report>) {
    forall k: nat :: k > 0 ==> RoomAt(h, k)
  }

  ghost predicate EndsUnhealthy(steps: seq<Step>, h: seq<Report>) {
    Finishes(steps, h) && !Run(START, steps).stats.healthy
  }

  ghost predicate EndsHealthy(steps: seq<Step>, h: seq<Report>) {
    Finishes(steps, h) && Run(START, steps).stats.healthy
  }

  lemma SplitAt(order: seq<nat>, p: nat, id: nat)
    requires p <= |order|
    ensures multiset(order[..p]) + multiset(order[p..]) == multiset(order)
    ensures multiset(order[..p] + ([id] + order[p..])) == multiset(order) + multiset{id}
  {
    assert order == order[..p] + order[p..];
    assert multiset([id] + order[p..]) == multiset{id} + multiset(order[p..]);
  }

  /** All calls of a kind but `id`, and how many of them there are. */
  lemma OthersOf(h: seq<Report>, kind: bool, id: nat) returns (others: seq<nat>)
    requires id in Of(h, kind)
    ensures multiset(others) + multiset{id} == multiset(Of(h, kind)) && |others| + 1 == |Of(h, kind)|
    ensures forall i :: 0 <= i < |others| ==> others[i] < |h| && h[others[i]].success == kind
  {
    others := Enumerated(Of(h, kind) - {id});
    WithoutOne(Of(h, kind), id);
    forall i | 0 <= i < |others| ensures others[i] < |h| && h[others[i]].success == kind {
      assert others[i] in multiset(others);
    }
  }

  lemma FailuresAround(h: seq<Report>, last: nat) returns (fails: seq<nat>)
    requires CanClear(h, last)
    ensures multiset(fails) == multiset(Of(h, false)) && |fails| == |Of(h, false)|
    ensures fails[Threshold(h[last]) - 1] == last
  {
    var others := OthersOf(h, false, last);
    var p := Threshold(h[last]) - 1;
    SplitAt(others, p, last);
    fails := others[..p] + ([last] + others[p..]);
  }

  lemma FailuresHaveLastWord(h: seq<Report>, successes: seq<nat>, fails: seq<nat>, t: nat)
    requires InRange(h, successes + fails) && |successes + fails| == |h| && 0 < t <= |fails|
    requires multiset(fails) == multiset(Of(h, false)) && fails[t - 1] < |h| && Threshold(h[fails[t - 1]]) == t
    ensures !LastRunIsSuccess(Along(h, successes + fails), |h|)
  {
    var w := Along(h, successes + fails);
    forall p | |successes| <= p < |w| ensures !w[p].success {
      var id := fails[p - |successes|];
      assert id in multiset(fails) && (successes + fails)[p] == id;
    }
    var j := |successes| + t;
    assert w[j - 1] == h[fails[t - 1]];
    assert Completes(w, j, false);
    forall m: nat | j < m <= |w| ensures !Completes(w, m, true) {
      assert !w[m - 1].success;
    }
  }

  /** Successes first, and failures so that `last` is the one that completes its run. */
  lemma FailuresLast(h: seq<Report>, last: nat) returns (steps: seq<Step>)
    requires CanClear(h, last)
    ensures EndsUnhealthy(steps, h)
  {
    hide LastRunIsSuccess;
    var successes := Enumerated(Of(h, true));
    var fails := FailuresAround(h, last);
    assert Covers(h, successes + fails) by {
      BothKinds(h);
    }
    hide Covers, Of;
    steps := Sequential(h, successes + fails);
    FailuresHaveLastWord(h, successes, fails, Threshold(h[last]));
  }

  /** Some schedule leaves the origin unhealthy exactly if the threshold of some failure is no more than
      the number of failures. */
  lemma UnhealthyPossibleIff(h: seq<Report>)
    ensures (exists steps :: EndsUnhealthy(steps, h)) <==> exists id :: CanClear(h, id)
  {
    if id :| CanClear(h, id) {
      var steps := FailuresLast(h, id);
    }
    if steps :| EndsUnhealthy(steps, h) {
      BooksFromStart(steps, 1);
      FinishedIds(steps, h, 1);
      OffNeedsFailures(Run(START, steps));
      var id :| Wrote(Run(START, steps), id, false)
        && AtLeastOne(Run(START, steps).calls[id].threshold) <= |CountedIds(Run(START, steps).calls, false)|;
      assert CanClear(h, id);
    }
  }

  lemma SuccessesAround(h: seq<Report>, late: nat) returns (first: seq<nat>, more: seq<nat>)
    requires CanSet(h, late)
    ensures multiset(first) + multiset(more) + multiset{late} == multiset(Of(h, true))
    ensures |first| + 1 == Threshold(h[late])
    ensures forall i :: 0 <= i < |first| ==> first[i] < |h| && h[first[i]].success
  {
    var others := OthersOf(h, true, late);
    var p := Threshold(h[late]) - 1;
    SplitAt(others, p, late);
    first, more := others[..p], others[p..];
  }

  lemma LateHealthy(h: seq<Report>, late: nat) returns (steps: seq<Step>)
    requires CanSet(h, late)
    ensures EndsHealthy(steps, h)
  {
    hide Run, CanRun, LateOrder, LateWaits;
    var first, more := SuccessesAround(h, late);
    var failures := Enumerated(Of(h, false));
    var rest := more + failures;
    assert Covers(h, first + ([late] + rest)) by {
      BothKinds(h);
      assert multiset(first + ([late] + rest)) == multiset(first) + (multiset{late} + multiset(rest));
    }
    LateOrdered(h, first, late, rest);
    var before, after := LateRun(h, first, late, rest);
    steps := before + after;
  }

  // ----- spreading failures

  function Together(segments: seq<seq<nat>>): multiset<nat> {
    if segments == [] then multiset{} else multiset(segments[0]) + Together(segments[1..])
  }

  lemma {:induction false} TogetherAppend(segments: seq<seq<nat>>, i: nat, id: nat)
    requires i < |segments|
    ensures Together(segments[i := segments[i] + [id]]) == Together(segments) + multiset{id}
    decreases i
  {
    var longer := segments[i := segments[i] + [id]];
    if i == 0 {
      assert longer[1..] == segments[1..];
    } else {
      TogetherAppend(segments[1..], i - 1, id);
      assert longer[1..] == segments[1..][i - 1 := segments[1..][i - 1] + [id]];
    }
  }

  function Empties(m: nat): seq<seq<nat>> {
    seq(m, _ => [])
  }

  lemma {:induction false} TogetherEmpty(m: nat)
    ensures Together(Empties(m)) == multiset{}
  {
    if m == 0 {
    } else {
      TogetherEmpty(m - 1);
      assert Empties(m)[1..] == Empties(m - 1);
    }
  }

  lemma {:induction false} HighestOf(h: seq<Report>, ids: set<nat>) returns (top: nat)
    requires ids != {} && forall id :: id in ids ==> id < |h|
    ensures top in ids && forall id :: id in ids ==> Threshold(h[id]) <= Threshold(h[top])
    decreases ids
  {
    top :| top in ids;
    var rest := ids - {top};
    if rest == {} {
      assert ids == {top};
    } else {
      var other := HighestOf(h, rest);
      if Threshold(h[other]) > Threshold(h[top]) {
        assert forall id :: id in ids ==> id in rest || id == top;
        top := other;
      } else {
        assert forall id :: id in ids ==> id in rest || id == top;
      }
    }
  }

  ghost predicate StaysBelow(h: seq<Report>, segment: seq<nat>) {
    forall p :: 0 <= p < |segment| ==> segment[p] < |h| && p + 1 < Threshold(h[segment[p]])
  }

  /** The first `r` segments hold `q + 1` calls, the others `q`, and no call reaches its threshold. */
  ghost predicate Level(h: seq<Report>, segments: seq<seq<nat>>, q: nat, r: nat) {
    forall i :: 0 <= i < |segments| ==>
      |segments[i]| == (if i < r then q + 1 else q) && StaysBelow(h, segments[i])
  }

  function Low(h: seq<Report>, ids: set<nat>, k: nat): set<nat> {
    set id | id in ids && id < |h| && Threshold(h[id]) <= k
  }

  ghost predicate LowRoom(h: seq<Report>, ids: set<nat>, m: nat) {
    forall k: nat :: k > 0 ==> |Low(h, ids, k)| <= m * (k - 1)
  }

  lemma {:induction false} SubsetSize(a: set<nat>, b: set<nat>)
    requires a <= b
    ensures |a| <= |b|
    decreases a
  {
    if a == {} {
    } else {
      var x :| x in a;
      SubsetSize(a - {x}, b - {x});
    }
  }

  lemma LowRoomShrinks(h: seq<Report>, ids: set<nat>, m: nat, id: nat)
    requires LowRoom(h, ids, m)
    ensures LowRoom(h, ids - {id}, m)
  {
    forall k: nat | k > 0 ensures |Low(h, ids - {id}, k)| <= m * (k - 1) {
      SubsetSize(Low(h, ids - {id}, k), Low(h, ids, k));
    }
  }

  lemma {:induction false} Scaled(a: nat, b: nat, m: nat)
    requires a <= b
    ensures a * m <= b * m
  {
    if a == b {
    } else {
      Scaled(a, b - 1, m);
      assert b * m == (b - 1) * m + m;
    }
  }

  /** There is room in the shortest segment for the call of the highest threshold. */
  lemma RoomForHighest(q: nat, r: nat, m: nat, t: nat)
    requires t > 0 && q * m + r + 1 <= m * (t - 1)
    ensures q + 1 < t
  {
    assert m * (t - 1) == (t - 1) * m;
    if q + 1 >= t {
      Scaled(t - 1, q, m);
    }
  }

  lemma NextPlace(q: nat, r: nat, m: nat) returns (q': nat, r': nat)
    requires r < m
    ensures q' * m + r' == q * m + r + 1
    ensures (q', r') == if r + 1 < m then (q, r + 1) else (q + 1, 0)
  {
    q', r' := if r + 1 < m then q else q + 1, if r + 1 < m then r + 1 else 0;
    assert (q + 1) * m == q * m + m;
  }

  lemma LevelAppend(h: seq<Report>, segments: seq<seq<nat>>, q: nat, r: nat, id: nat)
    requires Level(h, segments, q, r) && r < |segments| && id < |h| && q + 1 < Threshold(h[id])
    ensures var longer := segments[r := segments[r] + [id]];
      if r + 1 < |segments| then Level(h, longer, q, r + 1) else Level(h, longer, q + 1, 0)
  {
  }

  /** Calls by falling threshold go to the segments in turn, so each lands after few others. */
  lemma {:induction false} Spread(h: seq<Report>, ids: set<nat>, m: nat)
    returns (segments: seq<seq<nat>>, q: nat, r: nat)
    requires m > 0 && LowRoom(h, ids, m) && forall id :: id in ids ==> id < |h|
    ensures |segments| == m && r < m && |ids| == q * m + r
    ensures Level(h, segments, q, r) && Together(segments) == multiset(ids)
    decreases ids
  {
    if ids == {} {
      segments, q, r := Empties(m), 0, 0;
      TogetherEmpty(m);
    } else {
      var top := HighestOf(h, ids);
      LowRoomShrinks(h, ids, m, top);
      var fewer, q', r' := Spread(h, ids - {top}, m);
      WithoutOne(ids, top);
      assert Low(h, ids, Threshold(h[top])) == ids;
      RoomForHighest(q', r', m, Threshold(h[top]));
      segments := fewer[r' := fewer[r'] + [top]];
      TogetherAppend(fewer, r', top);
      q, r := NextPlace(q', r', m);
      LevelAppend(h, fewer, q', r', top);
    }
  }

  /** Segment, success, segment, and so on. */
  function Weave(segments: seq<seq<nat>>, successes: seq<nat>): seq<nat>
    requires |segments| == |successes| + 1
    decreases |successes|
  {
    if successes == [] then segments[0]
    else segments[0] + ([successes[0]] + Weave(segments[1..], successes[1..]))
  }

  lemma {:induction false} WeaveHolds(segments: seq<seq<nat>>, successes: seq<nat>)
    requires |segments| == |successes| + 1
    ensures multiset(Weave(segments, successes)) == Together(segments) + multiset(successes)
    decreases |successes|
  {
    if successes == [] {
      assert segments[1..] == [];
    } else {
      WeaveHolds(segments[1..], successes[1..]);
      assert successes == [successes[0]] + successes[1..];
      var rest := Weave(segments[1..], successes[1..]);
      assert multiset(segments[0] + ([successes[0]] + rest))
          == multiset(segments[0]) + (multiset{successes[0]} + multiset(rest));
    }
  }

  ghost predicate NeverCompletes(w: seq<Report>) {
    forall j: nat :: j <= |w| ==> !Completes(w, j, false)
  }

  lemma SegmentNeverCompletes(h: seq<Report>, segment: seq<nat>, w: seq<Report>)
    requires StaysBelow(h, segment) && |segment| <= |w| && forall p :: 0 <= p < |segment| ==> w[p] == h[segment[p]]
    ensures forall j: nat :: j <= |segment| ==> !Completes(w, j, false)
  {
    forall j: nat | 0 < j <= |segment| ensures !Completes(w, j, false) {
      assert j - 1 + 1 < Threshold(h[segment[j - 1]]);
    }
  }

  lemma AfterSuccess(front: seq<Report>, x: Report, rest: seq<Report>)
    requires x.success && NeverCompletes(rest)
    requires var w := front + ([x] + rest); forall j: nat :: j <= |front| ==> !Completes(w, j, false)
    ensures NeverCompletes(front + ([x] + rest))
  {
    var w := front + ([x] + rest);
    forall j: nat | |front| < j <= |w| ensures !Completes(w, j, false) {
      assert w[|front|] == x;
      if j > |front| + 1 {
        var j' := j - |front| - 1;
        assert !Completes(rest, j', false) && w[j - 1] == rest[j' - 1];
        var t := AtLeastOne(rest[j' - 1].threshold);
        if t <= j' {
          assert !EndsRun(rest, j', false, t);
          var i :| j' - t <= i < j' && rest[i].success;
          assert w[|front| + 1 + i].success;
        }
      }
    }
  }

  lemma {:induction false} WeaveNeverCompletes(h: seq<Report>, segments: seq<seq<nat>>, successes: seq<nat>)
    requires |segments| == |successes| + 1 && forall i :: 0 <= i < |segments| ==> StaysBelow(h, segments[i])
    requires forall i :: 0 <= i < |successes| ==> successes[i] < |h| && h[successes[i]].success
    ensures InRange(h, Weave(segments, successes)) && NeverCompletes(Along(h, Weave(segments, successes)))
    decreases |successes|
  {
    var w := Weave(segments, successes);
    var front := segments[0];
    assert InRange(h, front);
    if successes == [] {
      SegmentNeverCompletes(h, front, Along(h, w));
    } else {
      var rest := Weave(segments[1..], successes[1..]);
      WeaveNeverCompletes(h, segments[1..], successes[1..]);
      assert Along(h, w) == Along(h, front) + ([h[successes[0]]] + Along(h, rest));
      SegmentNeverCompletes(h, front, Along(h, w));
      AfterSuccess(Along(h, front), h[successes[0]], Along(h, rest));
    }
  }

  lemma SpreadHealthy(h: seq<Report>) returns (steps: seq<Step>)
    requires Room(h)
    ensures EndsHealthy(steps, h)
  {
    var successes := Enumerated(Of(h, true));
    forall k: nat | k > 0 ensures |Low(h, Of(h, false), k)| <= (|Of(h, true)| + 1) * (k - 1) {
      assert RoomAt(h, k);
      assert Low(h, Of(h, false), k) == UpTo(h, k);
    }
    var segments, q, r := Spread(h, Of(h, false), |Of(h, true)| + 1);
    WeaveHolds(segments, successes);
    BothKinds(h);
    var order := Weave(segments, successes);
    forall i | 0 <= i < |successes| ensures successes[i] < |h| && h[successes[i]].success {
      assert successes[i] in multiset(successes);
    }
    WeaveNeverCompletes(h, segments, successes);
    steps := Sequential(h, order);
    assert NeverCompletes(Along(h, order));
  }

  lemma HealthyNeeds(steps: seq<Step>, h: seq<Report>)
    requires EndsHealthy(steps, h)
    ensures (exists id :: CanSet(h, id)) || Room(h)
  {
    var s := Run(START, steps);
    if forall id :: !CanSet(h, id) {
      forall k: nat | k > 0 ensures RoomAt(h, k) {
        BooksFromStart(steps, k);
        FinishedIds(steps, h, k);
        OnNeedsRoom(s, k);
        if id :| Wrote(s, id, true) && AtLeastOne(s.calls[id].threshold) <= |CountedIds(s.calls, true)| {
          assert CanSet(h, id);
        }
      }
    }
  }

  /** Some schedule leaves the origin healthy exactly if the threshold of some success is no more than the
      number of successes, or the failures can be spread between the successes. */
  lemma HealthyPossibleIff(h: seq<Report>)
    ensures (exists steps :: EndsHealthy(steps, h)) <==> (exists id :: CanSet(h, id)) || Room(h)
  {
    if id :| CanSet(h, id) {
      var steps := LateHealthy(h, id);
    } else if Room(h) {
      var steps := SpreadHealthy(h);
    }
    if steps :| EndsHealthy(steps, h) {
      HealthyNeeds(steps, h);
    }
  }

  /** Every schedule of these calls ends with this flag. */
  ghost predicate AlwaysEnds(h: seq<Report>, flag: bool) {
    forall steps :: Finishes(steps, h) ==> Run(START, steps).stats.healthy == flag
  }

  /** The schedule does not decide the flag exactly if no failure can clear it, or no success can set it and
      the failures cannot be spread between the successes. */
  lemma ScheduleIrrelevantIff(h: seq<Report>)
    ensures (exists flag :: AlwaysEnds(h, flag))
       <==> (forall id :: !CanClear(h, id)) || ((forall id :: !CanSet(h, id)) && !Room(h))
  {
    UnhealthyPossibleIff(h);
    HealthyPossibleIff(h);
    if forall id :: !CanClear(h, id) {
      forall steps | Finishes(steps, h) ensures Run(START, steps).stats.healthy {
        assert !EndsUnhealthy(steps, h);
      }
      assert AlwaysEnds(h, true);
    } else if (forall id :: !CanSet(h, id)) && !Room(h) {
      forall steps | Finishes(steps, h) ensures !Run(START, steps).stats.healthy {
        assert !EndsHealthy(steps, h);
      }
      assert AlwaysEnds(h, false);
    } else {
      var off :| EndsUnhealthy(off, h);
      var on :| EndsHealthy(on, h);
      assert !AlwaysEnds(h, true) && !AlwaysEnds(h, false);
    }
  }

  // ----- one threshold for each kind

  ghost predicate Uniform(h: seq<Report>, st: u32, ft: u32) {
    forall i :: 0 <= i < |h| ==> h[i].threshold == if h[i].success then st else ft
  }

  lemma UniformRoomIff(h: seq<Report>, st: u32, ft: u32)
    requires Uniform(h, st, ft)
    ensures Room(h) <==> |Of(h, false)| <= (|Of(h, true)| + 1) * (AtLeastOne(ft) - 1)
  {
    var m, b := |Of(h, true)| + 1, AtLeastOne(ft);
    if Room(h) {
      assert RoomAt(h, b);
      assert UpTo(h, b) == Of(h, false);
    }
    if |Of(h, false)| <= m * (b - 1) {
      forall k: nat | k > 0 ensures RoomAt(h, k) {
        if k < b {
          assert UpTo(h, k) == {};
        } else {
          assert UpTo(h, k) == Of(h, false);
          Scaled(b - 1, k - 1, m);
          assert m * (b - 1) == (b - 1) * m && m * (k - 1) == (k - 1) * m;
        }
      }
    }
  }

  /** With `S` successes, `F` failures and thresholds `st` and `ft`: the schedule has no say exactly if
      `F < ft`, or `S < st` and `F > (S + 1) * (ft - 1)`, a threshold of zero acting as one. */
  lemma UniformIrrelevantIff(h: seq<Report>, st: u32, ft: u32)
    requires Uniform(h, st, ft)
    ensures var successes, failures := |Of(h, true)|, |Of(h, false)|;
      (exists flag :: AlwaysEnds(h, flag))
      <==> || failures < AtLeastOne(ft)
           || (successes < AtLeastOne(st) && failures > (successes + 1) * (AtLeastOne(ft) - 1))
  {
    ScheduleIrrelevantIff(h);
    UniformRoomIff(h, st, ft);
    if |Of(h, false)| >= AtLeastOne(ft) {
      var id :| id in Of(h, false);
      assert CanClear(h, id);
    }
    if |Of(h, true)| >= AtLeastOne(st) {
      var id :| id in Of(h, true);
      assert CanSet(h, id);
    }
  }

  // ----- no success beside a failure

  /** The calls in flight are all of one kind. */
  ghost predicate OneKind(s: State) {
    forall a, b :: a in s.calls && b in s.calls && !s.calls[a].pc.Done? && !s.calls[b].pc.Done? ==>
      s.calls[a].success == s.calls[b].success
  }

  ghost predicate NeverOverlap(s: State, steps: seq<Step>)
    requires CanRun(s, steps)
    decreases |steps|
  {
    OneKind(s) && (steps == [] || NeverOverlap(Apply(s, steps[0]), steps[1..]))
  }

  /** What a step reports, if it is the increment of a call. */
  function ReportOf(s: State, step: Step): seq<Report>
    requires Enabled(s, step)
  {
    if step.Advance? && s.calls[step.id].pc.Begun?
    then [Report(s.calls[step.id].success, s.calls[step.id].threshold)] else []
  }

  /** The reports of a run in the order of their increments. */
  function Reports(s: State, steps: seq<Step>): seq<Report>
    requires CanRun(s, steps)
    decreases |steps|
  {
    if steps == [] then [] else ReportOf(s, steps[0]) + Reports(Apply(s, steps[0]), steps[1..])
  }

  ghost predicate Pending(s: State, id: nat) {
    id in s.calls && !s.calls[id].pc.Begun? && !s.calls[id].pc.Done?
  }

  /** A pending call has still to write `kind` to the flag. */
  ghost predicate WillWrite(s: State, id: nat, kind: bool) {
    Pending(s, id) && s.calls[id].success == kind && s.calls[id].pc.n >= s.calls[id].threshold
  }

  ghost predicate CountedIs(s: State, kind: bool) {
    exists id :: id in s.calls && s.calls[id].pc.Counted? && s.calls[id].success == kind
  }

  /** What the calls in flight are still to do is all that separates the origin from the sequential one. */
  ghost predicate Catching(s: State, h: seq<Report>) {
    var q := After(h, |h|);
    && WellPlaced(s)
    && (forall id :: Pending(s, id) ==> h != [] && h[|h| - 1].success == s.calls[id].success)
    && (s.stats.consecutiveSuccesses == q.consecutiveSuccesses || CountedIs(s, false))
    && (s.stats.consecutiveFailures == q.consecutiveFailures || CountedIs(s, true))
    && (q.healthy <==>
          || (exists id :: WillWrite(s, id, true))
          || (s.stats.healthy && forall id :: !WillWrite(s, id, false)))
  }

  lemma OneMoreReport(h: seq<Report>, x: Report)
    ensures After(h + [x], |h| + 1) == RecordedOne(After(h, |h|), x)
  {
    AfterOfPrefix(h, x, |h|);
  }

  lemma OtherCountCleared(h: seq<Report>)
    requires h != []
    ensures h[|h| - 1].success ==> After(h, |h|).consecutiveFailures == 0
    ensures !h[|h| - 1].success ==> After(h, |h|).consecutiveSuccesses == 0
  {
  }

  lemma NoneOfOther(s: State, id: nat, kind: bool)
    requires OneKind(s) && id in s.calls && !s.calls[id].pc.Done? && s.calls[id].success == kind
    ensures var other := !kind; !CountedIs(s, other) && forall a :: !WillWrite(s, a, other)
  {
  }

  lemma IncrementCatches(s: State, id: nat, h: seq<Report>)
    requires Catching(s, h) && OneKind(s) && id in s.calls && s.calls[id].pc.Begun?
    ensures Catching(Apply(s, Advance(id)), h + ReportOf(s, Advance(id)))
  {
    var s', c := Apply(s, Advance(id)), s.calls[id];
    var x := Report(c.success, c.threshold);
    OneMoreReport(h, x);
    assert !CountedIs(s, !c.success);
    assert s'.calls[id].pc.Counted? && CountedIs(s', c.success);
    forall other, kind | other != id ensures WillWrite(s', other, kind) == WillWrite(s, other, kind) {
    }
    NoneOfOther(s, id, c.success);
    assert !WillWrite(s, id, c.success);
    assert WillWrite(s', id, c.success) <==> s'.calls[id].pc.n >= c.threshold;
  }

  lemma ResetCatches(s: State, id: nat, h: seq<Report>)
    requires Catching(s, h) && OneKind(s) && id in s.calls && s.calls[id].pc.Counted?
    ensures Catching(Apply(s, Advance(id)), h)
  {
    var s', c := Apply(s, Advance(id)), s.calls[id];
    assert Pending(s, id);
    OtherCountCleared(h);
    assert !CountedIs(s, !c.success);
    forall other, kind ensures WillWrite(s', other, kind) == WillWrite(s, other, kind) {
    }
    forall other ensures Pending(s', other) == Pending(s, other) {
    }
  }

  lemma LastStepsCatch(s: State, id: nat, h: seq<Report>)
    requires Catching(s, h) && OneKind(s) && id in s.calls && (s.calls[id].pc.Cleared? || s.calls[id].pc.Totalled?)
    ensures Catching(Apply(s, Advance(id)), h)
  {
    var s', c := Apply(s, Advance(id)), s.calls[id];
    forall kind ensures CountedIs(s', kind) == CountedIs(s, kind) {
      if other :| other in s.calls && s.calls[other].pc.Counted? && s.calls[other].success == kind {
        assert s'.calls[other].pc.Counted?;
      }
    }
    forall other, kind | other != id ensures WillWrite(s', other, kind) == WillWrite(s, other, kind) {
    }
    NoneOfOther(s, id, c.success);
    var other := !c.success;
    assert forall a :: !WillWrite(s, a, other) && !WillWrite(s', a, other);
    if c.pc.Cleared? && !c.success {
      assert WillWrite(s', id, false) == WillWrite(s, id, false);
    } else {
      assert !WillWrite(s', id, c.success);
      if c.pc.n >= c.threshold {
        assert WillWrite(s, id, c.success) && s'.stats.healthy == c.success;
      } else {
        assert !WillWrite(s, id, c.success) && s'.stats.healthy == s.stats.healthy;
      }
    }
  }

  lemma BeginCatches(s: State, step: Step, h: seq<Report>)
    requires Catching(s, h) && step.Begin? && Enabled(s, step)
    ensures Catching(Apply(s, step), h)
  {
    var s' := Apply(s, step);
    forall kind ensures CountedIs(s', kind) == CountedIs(s, kind) {
      if other :| other in s.calls && s.calls[other].pc.Counted? && s.calls[other].success == kind {
        assert s'.calls[other].pc.Counted?;
      }
    }
    forall other, kind ensures WillWrite(s', other, kind) == WillWrite(s, other, kind) {
    }
    forall other ensures Pending(s', other) == Pending(s, other) {
    }
  }

  lemma StepCatches(s: State, step: Step, h: seq<Report>)
    requires Catching(s, h) && OneKind(s) && Enabled(s, step)
    ensures Catching(Apply(s, step), h + ReportOf(s, step))
  {
    hide Catching, OneKind, Apply;
    assert h + [] == h;
    if step.Begin? {
      BeginCatches(s, step, h);
    } else if s.calls[step.id].pc.Begun? {
      IncrementCatches(s, step.id, h);
    } else if s.calls[step.id].pc.Counted? {
      ResetCatches(s, step.id, h);
    } else {
      LastStepsCatch(s, step.id, h);
    }
  }

  lemma {:induction false} RunCatches(s: State, steps: seq<Step>, h: seq<Report>)
    requires Catching(s, h) && CanRun(s, steps) && NeverOverlap(s, steps)
    ensures Catching(Run(s, steps), h + Reports(s, steps))
    decreases |steps|
  {
    hide Catching, Apply, Enabled, ReportOf, OneKind;
    if steps == [] {
      assert h + [] == h;
    } else {
      StepCatches(s, steps[0], h);
      RunCatches(Apply(s, steps[0]), steps[1..], h + ReportOf(s, steps[0]));
      assert h + Reports(s, steps) == h + ReportOf(s, steps[0]) + Reports(Apply(s, steps[0]), steps[1..]);
    }
  }

  /** If no success overlaps a failure, however successes overlap successes and failures failures, then at
      quiescence the origin is as after the same reports one by one in the order of their increments: so
      the flag is decided by the last completed run among them. */
  lemma NoOverlapIsSequential(steps: seq<Step>)
    requires CanRun(START, steps) && NeverOverlap(START, steps) && Quiet(Run(START, steps))
    ensures var s, h := Run(START, steps), Reports(START, steps);
      && s.stats.consecutiveSuccesses == After(h, |h|).consecutiveSuccesses
      && s.stats.consecutiveFailures == After(h, |h|).consecutiveFailures
      && s.stats.healthy == After(h, |h|).healthy
      && (s.stats.healthy <==> LastRunIsSuccess(h, |h|))
  {
    assert Catching(START, []);
    RunCatches(START, steps, []);
    var h := Reports(START, steps);
    assert [] + h == h;
    FlagFromHistory(h);
  }
}
