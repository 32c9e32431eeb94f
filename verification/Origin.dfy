/** The counters of one origin server: src/balance/mod.rs, one call at a time. Counter arithmetic
    wraps, as it does in a release build. */
module Origin {
  import opened Primitives

  /** One update of the moving average, in 64-bit wrapping arithmetic. */
  function EwmaStep(prior: u64, sample: u64): u64 {
    (sample + 9 * prior) % 0x1_0000_0000_0000_0000 / 10
  }

  /** What the atomic fields of an origin hold between two calls. */
  datatype Stats = Stats(ewmaLatencyNs: u64, consecutiveSuccesses: u32, consecutiveFailures: u32,
                         totalRequests: u64, totalFailures: u64, healthy: bool)
  {
    function RecordLatency(nanos: nat): Stats {
      this.(ewmaLatencyNs := EwmaStep(ewmaLatencyNs, nanos % 0x1_0000_0000_0000_0000))
    }

    function RecordSuccess(threshold: u32): Stats {
      var successes := Succ32(consecutiveSuccesses);
      this.(consecutiveSuccesses := successes, consecutiveFailures := 0,
            healthy := successes >= threshold || healthy)
    }

    function RecordFailure(threshold: u32): Stats {
      var failures := Succ32(consecutiveFailures);
      this.(consecutiveFailures := failures, consecutiveSuccesses := 0,
            totalFailures := Succ64(totalFailures),
            healthy := !(failures >= threshold) && healthy)
    }

    function IncrementRequests(): Stats {
      this.(totalRequests := Succ64(totalRequests))
    }
  }

  const NEW: Stats := Stats(0, 0, 0, 0, 0, true)

  /** Thresholds used when no configured ones apply. */
  const DEFAULT_SUCCESS_THRESHOLD: u32 := 2
  const DEFAULT_FAILURE_THRESHOLD: u32 := 5

  class OriginState {
    var ewmaLatencyNs: u64
    var consecutiveSuccesses: u32
    var consecutiveFailures: u32
    var totalRequests: u64
    var totalFailures: u64
    var healthy: bool

    function Value(): Stats
      reads this
    {
      Stats(ewmaLatencyNs, consecutiveSuccesses, consecutiveFailures, totalRequests, totalFailures, healthy)
    }

    constructor ()
      ensures Value() == NEW
    {
      ewmaLatencyNs, consecutiveSuccesses, consecutiveFailures := 0, 0, 0;
      totalRequests, totalFailures, healthy := 0, 0, true;
    }

    /** `spurious` is how often the weak compare-exchange fails although the value is unchanged. */
    method RecordLatency(nanos: nat, spurious: nat)
      modifies this
      ensures Value() == old(Value()).RecordLatency(nanos)
    {
      var sample: u64 := nanos % 0x1_0000_0000_0000_0000;
      var seen := ewmaLatencyNs;
      var failuresLeft := spurious;
      while true
        invariant Value() == old(Value()) && seen == ewmaLatencyNs
        decreases failuresLeft
      {
        var next := EwmaStep(seen, sample);
        if ewmaLatencyNs == seen && failuresLeft == 0 {
          ewmaLatencyNs := next;
          break;
        }
        seen := ewmaLatencyNs;
        failuresLeft := failuresLeft - 1;
      }
    }

    method RecordSuccessWithThreshold(threshold: u32)
      modifies this
      ensures Value() == old(Value()).RecordSuccess(threshold)
    {
      consecutiveSuccesses := Succ32(consecutiveSuccesses);
      var successes := consecutiveSuccesses;
      consecutiveFailures := 0;
      if successes >= threshold {
        healthy := true;
      }
    }

    method RecordFailureWithThreshold(threshold: u32)
      modifies this
      ensures Value() == old(Value()).RecordFailure(threshold)
    {
      consecutiveFailures := Succ32(consecutiveFailures);
      var failures := consecutiveFailures;
      consecutiveSuccesses := 0;
      totalFailures := Succ64(totalFailures);
      if failures >= threshold {
        healthy := false;
      }
    }

    method RecordSuccess()
      modifies this
      ensures Value() == old(Value()).RecordSuccess(2)
    {
      RecordSuccessWithThreshold(DEFAULT_SUCCESS_THRESHOLD);
    }

    method RecordFailure()
      modifies this
      ensures Value() == old(Value()).RecordFailure(5)
    {
      RecordFailureWithThreshold(DEFAULT_FAILURE_THRESHOLD);
    }

    method IncrementRequests()
      modifies this
      ensures Value() == old(Value()).IncrementRequests()
    {
      totalRequests := Succ64(totalRequests);
    }
  }

  // ----- the health flag and the history of outcomes

  /** One recorded outcome and the threshold it was recorded with. */
  datatype Report = Report(success: bool, threshold: u32)

  /** The origin after the first `k` reports of `h`. */
  function After(h: seq<Report>, k: nat): Stats
    requires k <= |h|
  {
    if k == 0 then NEW
    else
      var s := After(h, k - 1);
      if h[k - 1].success then s.RecordSuccess(h[k - 1].threshold) else s.RecordFailure(h[k - 1].threshold)
  }

  lemma {:induction false} AfterOfPrefix(h: seq<Report>, x: Report, k: nat)
    requires k <= |h|
    ensures After(h + [x], k) == After(h, k)
  {
    if k == 0 {
    } else {
      AfterOfPrefix(h, x, k - 1);
    }
  }

  /** The same with counters that never wrap. */
  datatype Ideal = Ideal(successes: nat, failures: nat, healthy: bool)

  function IdealAfter(h: seq<Report>, k: nat): Ideal
    requires k <= |h|
  {
    if k == 0 then Ideal(0, 0, true)
    else
      var s, t := IdealAfter(h, k - 1), h[k - 1].threshold;
      if h[k - 1].success then Ideal(s.successes + 1, 0, s.successes + 1 >= t || s.healthy)
      else Ideal(0, s.failures + 1, !(s.failures + 1 >= t) && s.healthy)
  }

  /** Reports `k - n`, ..., `k - 1` exist and are all successes, or all failures. */
  ghost predicate EndsRun(h: seq<Report>, k: nat, v: bool, n: nat)
    requires k <= |h|
  {
    n <= k && forall j :: k - n <= j < k ==> h[j].success == v
  }

  function AtLeastOne(threshold: u32): nat {
    if threshold == 0 then 1 else threshold
  }

  /** Report `k - 1` completes a run as long as its own threshold. */
  ghost predicate Completes(h: seq<Report>, k: nat, v: bool)
    requires k <= |h|
  {
    k > 0 && EndsRun(h, k, v, AtLeastOne(h[k - 1].threshold))
  }

  /** Every completed run of failures is followed by a completed run of successes. */
  ghost predicate LastRunIsSuccess(h: seq<Report>, k: nat)
    requires k <= |h|
  {
    forall j: nat :: j <= k && Completes(h, j, false) ==> exists m: nat :: j < m <= k && Completes(h, m, true)
  }

  lemma {:induction false} IdealCounts(h: seq<Report>, k: nat, n: nat)
    requires k <= |h| && n > 0
    ensures IdealAfter(h, k).successes >= n <==> EndsRun(h, k, true, n)
    ensures IdealAfter(h, k).failures >= n <==> EndsRun(h, k, false, n)
  {
    if k == 0 {
    } else {
      if n == 1 {
        assert EndsRun(h, k, true, n) <==> h[k - 1].success;
        assert EndsRun(h, k, false, n) <==> !h[k - 1].success;
      } else {
        IdealCounts(h, k - 1, n - 1);
        assert EndsRun(h, k, true, n) <==> EndsRun(h, k - 1, true, n - 1) && h[k - 1].success;
        assert EndsRun(h, k, false, n) <==> EndsRun(h, k - 1, false, n - 1) && !h[k - 1].success;
      }
    }
  }

  lemma {:induction false} IdealFlag(h: seq<Report>, k: nat)
    requires k <= |h|
    ensures IdealAfter(h, k).healthy <==> LastRunIsSuccess(h, k)
  {
    if k == 0 {
    } else {
      IdealFlag(h, k - 1);
      IdealCounts(h, k, AtLeastOne(h[k - 1].threshold));
      if Completes(h, k, true) {
        assert h[k - 1].success && !Completes(h, k, false);
        assert LastRunIsSuccess(h, k);
      } else if Completes(h, k, false) {
        assert !h[k - 1].success && !LastRunIsSuccess(h, k);
      } else {
        assert LastRunIsSuccess(h, k) <==> LastRunIsSuccess(h, k - 1);
      }
    }
  }

  /** Wrapping the 32-bit counters never shows in the flag: a count that is about to wrap has passed
      every threshold there is. */
  lemma {:induction false} WrapNeverShows(h: seq<Report>, k: nat)
    requires k <= |h|
    ensures var s, i := After(h, k), IdealAfter(h, k);
      && s.healthy == i.healthy
      && s.consecutiveSuccesses == i.successes % 0x1_0000_0000
      && s.consecutiveFailures == i.failures % 0x1_0000_0000
      && (i.successes >= 0xFFFF_FFFF ==> s.healthy)
      && (i.failures >= 0xFFFF_FFFF ==> !s.healthy)
  {
    if k == 0 {
    } else {
      WrapNeverShows(h, k - 1);
      var i := IdealAfter(h, k - 1);
      WrapSucc32(i.successes);
      WrapSucc32(i.failures);
    }
  }

  /** The flag is decided by the most recent completed run, each outcome being held to the threshold it
      was recorded with; a threshold of zero acts as one. */
  lemma FlagFromHistory(h: seq<Report>)
    ensures After(h, |h|).healthy <==> LastRunIsSuccess(h, |h|)
  {
    WrapNeverShows(h, |h|);
    IdealFlag(h, |h|);
  }

  /** In particular when the thresholds stay the same. */
  lemma FlagWithFixedThresholds(st: u32, ft: u32, h: seq<Report>)
    requires forall i :: 0 <= i < |h| ==> h[i].threshold == if h[i].success then st else ft
    ensures After(h, |h|).healthy <==>
      forall j: nat :: j <= |h| && EndsRun(h, j, false, AtLeastOne(ft)) ==>
        exists m: nat :: j < m <= |h| && EndsRun(h, m, true, AtLeastOne(st))
  {
    FlagFromHistory(h);
    forall j: nat | j <= |h|
      ensures Completes(h, j, false) <==> EndsRun(h, j, false, AtLeastOne(ft))
      ensures Completes(h, j, true) <==> EndsRun(h, j, true, AtLeastOne(st))
    {
      assert j > 0 ==> (EndsRun(h, j, false, AtLeastOne(ft)) ==> !h[j - 1].success);
      assert j > 0 ==> (EndsRun(h, j, true, AtLeastOne(st)) ==> h[j - 1].success);
    }
  }

  // ----- the moving average

  /** The average after the first `k` samples, starting from `start`. */
  function Ewma(start: u64, samples: seq<u64>, k: nat): u64
    requires k <= |samples|
  {
    if k == 0 then start else EwmaStep(Ewma(start, samples, k - 1), samples[k - 1])
  }

  /** The average depends on no later samples. */
  lemma {:induction false} EwmaOfPrefix(start: u64, samples: seq<u64>, longer: seq<u64>, k: nat)
    requires k <= |samples| <= |longer| && samples == longer[..|samples|]
    ensures Ewma(start, samples, k) == Ewma(start, longer, k)
  {
    if k == 0 {
    } else {
      EwmaOfPrefix(start, samples, longer, k - 1);
    }
  }

  /** The same recurrence without rounding and without a word size. */
  function ExactEwma(start: u64, samples: seq<u64>, k: nat): real
    requires k <= |samples|
  {
    if k == 0 then start as real
    else (samples[k - 1] as real + 9.0 * ExactEwma(start, samples, k - 1)) / 10.0
  }

  ghost predicate Tracks(start: u64, samples: seq<u64>, k: nat)
    requires k <= |samples|
  {
    0.0 <= ExactEwma(start, samples, k) - Ewma(start, samples, k) as real < 9.0
  }

  /** The sum formed for sample `k` fits 64 bits. */
  ghost predicate FitsWord(start: u64, samples: seq<u64>, k: nat)
    requires k < |samples|
  {
    samples[k] + 9 * Ewma(start, samples, k) < 0x1_0000_0000_0000_0000
  }

  lemma RoundedGap(prior: nat, sample: nat, exact: real, next: nat)
    requires 0.0 <= exact - prior as real < 9.0
    requires 10 * next <= sample + 9 * prior <= 10 * next + 9
    ensures 0.0 <= (sample as real + 9.0 * exact) / 10.0 - next as real < 9.0
  {
    assert 10.0 * next as real <= sample as real + 9.0 * prior as real <= 10.0 * next as real + 9.0;
  }

  lemma WrappedGap(prior: nat, sample: nat, exact: real, next: nat)
    requires prior as real <= exact
    requires 10 * next + 100 <= sample + 9 * prior
    ensures (sample as real + 9.0 * exact) / 10.0 - next as real >= 10.0
  {
    assert 10.0 * next as real + 100.0 <= sample as real + 9.0 * prior as real;
  }

  lemma StepByWord(prior: u64, sample: u64)
    ensures sample + 9 * prior < 0x1_0000_0000_0000_0000 ==>
      10 * EwmaStep(prior, sample) <= sample + 9 * prior <= 10 * EwmaStep(prior, sample) + 9
    ensures sample + 9 * prior >= 0x1_0000_0000_0000_0000 ==>
      10 * EwmaStep(prior, sample) + 100 <= sample + 9 * prior
  {
  }

  lemma TracksStep(start: u64, samples: seq<u64>, k: nat)
    requires k < |samples| && Tracks(start, samples, k)
    ensures Tracks(start, samples, k + 1) <==> FitsWord(start, samples, k)
  {
    var prior, next := Ewma(start, samples, k), Ewma(start, samples, k + 1);
    StepByWord(prior, samples[k]);
    if FitsWord(start, samples, k) {
      RoundedGap(prior, samples[k], ExactEwma(start, samples, k), next);
    } else {
      WrappedGap(prior, samples[k], ExactEwma(start, samples, k), next);
    }
  }

  /** The integer average stays below the exact one by less than 9 ns at every sample exactly as
      long as no sum overflows. */
  lemma {:induction false} EwmaTracksIff(start: u64, samples: seq<u64>, n: nat)
    requires n <= |samples|
    ensures (forall k: nat :: k <= n ==> Tracks(start, samples, k))
       <==> (forall k: nat :: k < n ==> FitsWord(start, samples, k))
  {
    if n == 0 {
    } else {
      EwmaTracksIff(start, samples, n - 1);
      if forall k: nat :: k <= n - 1 ==> Tracks(start, samples, k) {
        TracksStep(start, samples, n - 1);
      }
    }
  }

  /** Samples up to here, (2^64 + 80) / 10 rounded down, never overflow a sum that starts from nothing. */
  const SAFE_SAMPLE: u64 := 1_844_674_407_370_955_169

  /** The average stays 9 below any bound on the samples, rounding down each time. */
  ghost predicate StaysBelow(average: u64, bound: u64) {
    average + 9 <= bound || average == 0
  }

  lemma SafeStep(prior: u64, sample: u64, bound: u64)
    requires StaysBelow(prior, bound) && sample <= bound <= SAFE_SAMPLE
    ensures sample + 9 * prior < 0x1_0000_0000_0000_0000
    ensures StaysBelow(EwmaStep(prior, sample), bound)
  {
    StepByWord(prior, sample);
  }

  /** With safe samples, from a new origin: no overflow, never above a bound on the samples so far, and
      even 9 below it, and within 9 ns of the exact average. */
  lemma {:induction false} EwmaAccurate(samples: seq<u64>, bound: u64, n: nat)
    requires n <= |samples| && bound <= SAFE_SAMPLE
    requires forall k: nat :: k < n ==> samples[k] <= bound
    ensures forall k: nat :: k < n ==> FitsWord(0, samples, k)
    ensures Ewma(0, samples, n) <= bound && StaysBelow(Ewma(0, samples, n), bound)
    ensures Tracks(0, samples, n)
  {
    if n == 0 {
    } else {
      EwmaAccurate(samples, bound, n - 1);
      SafeStep(Ewma(0, samples, n - 1), samples[n - 1], bound);
      assert FitsWord(0, samples, n - 1);
      TracksStep(0, samples, n - 1);
    }
  }

  ghost predicate AllFit(samples: seq<u64>) {
    forall k: nat :: k < |samples| ==> FitsWord(0, samples, k)
  }

  ghost predicate AtMost(samples: seq<u64>, bound: u64) {
    forall k: nat :: k < |samples| ==> samples[k] <= bound
  }

  lemma FitsLonger(samples: seq<u64>, x: u64)
    requires AllFit(samples)
    ensures forall k: nat :: k < |samples| ==> FitsWord(0, samples + [x], k)
    ensures Ewma(0, samples + [x], |samples|) == Ewma(0, samples, |samples|)
  {
    EwmaOfPrefix(0, samples, samples + [x], |samples|);
    forall k: nat | k < |samples| ensures FitsWord(0, samples + [x], k) {
      EwmaOfPrefix(0, samples, samples + [x], k);
      assert FitsWord(0, samples, k);
    }
  }

  lemma ClimbStep(average: u64, bound: u64)
    requires bound > SAFE_SAMPLE && bound + 9 * average < 0x1_0000_0000_0000_0000
    ensures average < EwmaStep(average, bound) <= bound
  {
    assert average + 10 <= bound;
    StepByWord(average, bound);
  }

  lemma FitsOneMore(samples: seq<u64>, x: u64)
    requires AllFit(samples)
    ensures AllFit(samples + [x]) <==> x + 9 * Ewma(0, samples, |samples|) < 0x1_0000_0000_0000_0000
    ensures Ewma(0, samples + [x], |samples| + 1) == EwmaStep(Ewma(0, samples, |samples|), x)
  {
    hide EwmaStep;
    FitsLonger(samples, x);
    assert FitsWord(0, samples + [x], |samples|) <==> x + 9 * Ewma(0, samples, |samples|) < 0x1_0000_0000_0000_0000;
  }

  /** The largest sample, repeated, drives the average up until the sum overflows. */
  lemma {:induction false} Climbs(bound: u64, samples: seq<u64>) returns (longer: seq<u64>)
    requires bound > SAFE_SAMPLE && AtMost(samples, bound) && AllFit(samples)
    requires Ewma(0, samples, |samples|) <= bound
    ensures AtMost(longer, bound) && !AllFit(longer)
    decreases bound - Ewma(0, samples, |samples|)
  {
    hide EwmaStep, Ewma, AllFit;
    var average: nat := Ewma(0, samples, |samples|);
    longer := samples + [bound];
    FitsOneMore(samples, bound);
    if bound + 9 * average >= 0x1_0000_0000_0000_0000 {
    } else {
      ClimbStep(average, bound);
      longer := Climbs(bound, longer);
    }
  }

  /** From a new origin, samples up to a bound can never overflow exactly when the bound is safe. */
  lemma SafeSamplesIff(bound: u64)
    ensures (forall samples: seq<u64> :: AtMost(samples, bound) ==> AllFit(samples)) <==> bound <= SAFE_SAMPLE
  {
    if bound <= SAFE_SAMPLE {
      forall samples: seq<u64> | AtMost(samples, bound) ensures AllFit(samples) {
        EwmaAccurate(samples, bound, |samples|);
      }
    } else {
      assert Ewma(0, [], 0) == 0;
      var samples := Climbs(bound, []);
      assert AtMost(samples, bound) && !AllFit(samples);
    }
  }

  /** Without the bound the average can fall to nothing: two samples near the top of the range. */
  lemma EwmaCanWrap()
    ensures var samples: seq<u64> := [0xFFFF_FFFF_FFFF_FFFF, 0x1999_9999_9999_999F];
      && !FitsWord(0, samples, 1)
      && Ewma(0, samples, 2) == 0
  {
    var samples: seq<u64> := [0xFFFF_FFFF_FFFF_FFFF, 0x1999_9999_9999_999F];
    assert Ewma(0, samples, 0) == 0;
    assert Ewma(0, samples, 1) == 0x1999_9999_9999_9999;
  }
}
