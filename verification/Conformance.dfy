/** What one bucket promises over a whole sequence of requests. */
module Conformance {
  import opened Primitives
  import opened RateLimit

  ghost predicate Ordered(times: seq<nat>) {
    forall i, j :: 0 <= i <= j < |times| ==> times[i] <= times[j]
  }

  /** The bucket after the first `k` requests. */
  function After(b: Bucket, times: seq<nat>, k: nat): Bucket
    requires k <= |times|
  {
    if k == 0 then b else Consume(After(b, times, k - 1), times[k - 1]).0
  }

  predicate Admits(b: Bucket, times: seq<nat>, k: nat)
    requires k < |times|
  {
    Consume(After(b, times, k), times[k]).1
  }

  function Answers(b: Bucket, times: seq<nat>): (d: seq<bool>)
    ensures |d| == |times|
    ensures forall k :: 0 <= k < |times| ==> d[k] == Admits(b, times, k)
  {
    seq(|times|, k requires 0 <= k < |times| => Admits(b, times, k))
  }

  /** How many of the requests `i`, ..., `j - 1` the decisions `d` admit. */
  function Count(d: seq<bool>, i: nat, j: nat): nat
    requires i <= j <= |d|
    decreases j - i
  {
    if i == j then 0 else Count(d, i, j - 1) + if d[j - 1] then 1 else 0
  }

  /** What an account holds when request `k` arrives, if it starts full, refills at `rate` up to
      `burst`, and pays one token for each earlier request that `d` admits. */
  function Held(rate: u32, burst: u32, times: seq<nat>, d: seq<bool>, k: nat): int
    requires |d| == |times| && k < |times|
  {
    if k == 0 then Whole(burst)
    else
      var left := Held(rate, burst, times, d, k - 1) - if d[k - 1] then NANOS else 0;
      Min(left + Earned(rate, Elapsed(times[k], times[k - 1])), Whole(burst))
  }

  ghost predicate AffordsAt(rate: u32, burst: u32, times: seq<nat>, d: seq<bool>, k: nat)
    requires |d| == |times| && k < |times|
  {
    d[k] ==> Held(rate, burst, times, d, k) >= NANOS
  }

  /** A policy that never spends a token it does not hold. It may refuse whenever it likes. */
  ghost predicate Affordable(rate: u32, burst: u32, times: seq<nat>, d: seq<bool>)
    requires |d| == |times|
  {
    forall k :: 0 <= k < |times| ==> AffordsAt(rate, burst, times, d, k)
  }

  /** Admitting request `k` keeps requests `i`, ..., `k` within `burst + rate * (t_k - t_i)`. */
  ghost predicate Fits(rate: u32, burst: u32, times: seq<nat>, d: seq<bool>, i: nat, k: nat)
    requires |d| == |times| && i <= k < |times|
  {
    Whole(Count(d, i, k) + 1) <= Whole(burst) + Earned(rate, Elapsed(times[k], times[i]))
  }

  lemma {:induction false} HeldAtMost(rate: u32, burst: u32, times: seq<nat>, d: seq<bool>, i: nat, k: nat)
    requires |d| == |times| && i <= k < |times| && Ordered(times)
    ensures Held(rate, burst, times, d, k)
         <= Whole(burst) + Earned(rate, Elapsed(times[k], times[i])) - Whole(Count(d, i, k))
  {
    if i == k {
    } else {
      HeldAtMost(rate, burst, times, d, i, k - 1);
      EarnedAdds(rate, Elapsed(times[k - 1], times[i]), Elapsed(times[k], times[k - 1]));
    }
  }

  lemma {:induction false} HeldAttained(rate: u32, burst: u32, times: seq<nat>, d: seq<bool>, k: nat) returns (i: nat)
    requires |d| == |times| && k < |times| && Ordered(times)
    ensures i <= k
    ensures Held(rate, burst, times, d, k)
         == Whole(burst) + Earned(rate, Elapsed(times[k], times[i])) - Whole(Count(d, i, k))
  {
    if Held(rate, burst, times, d, k) == Whole(burst) {
      i := k;
    } else {
      i := HeldAttained(rate, burst, times, d, k - 1);
      EarnedAdds(rate, Elapsed(times[k - 1], times[i]), Elapsed(times[k], times[k - 1]));
    }
  }

  /** The account can pay for request `k` exactly when every window ending there has room. */
  lemma {:induction false} PaysIffFits(rate: u32, burst: u32, times: seq<nat>, d: seq<bool>, k: nat)
    requires |d| == |times| && k < |times| && Ordered(times)
    ensures Held(rate, burst, times, d, k) >= NANOS
       <==> forall i :: 0 <= i <= k ==> Fits(rate, burst, times, d, i, k)
  {
    forall i | 0 <= i <= k && Held(rate, burst, times, d, k) >= NANOS
      ensures Fits(rate, burst, times, d, i, k)
    {
      HeldAtMost(rate, burst, times, d, i, k);
    }
    var i := HeldAttained(rate, burst, times, d, k);
    assert Fits(rate, burst, times, d, i, k) ==> Held(rate, burst, times, d, k) >= NANOS;
  }

  /** A bucket that starts full holds just what an account paying for its own answers holds. */
  lemma {:induction false} BucketHolds(rate: u32, burst: u32, start: nat, times: seq<nat>, k: nat)
    requires k < |times| && Ordered(times)
    ensures var b := Full(rate, burst, start);
      && After(b, times, k).maxTokens == Whole(burst) && After(b, times, k).refillRate == rate
      && Refilled(After(b, times, k), times[k]) == Held(rate, burst, times, Answers(b, times), k)
  {
    if k == 0 {
    } else {
      BucketHolds(rate, burst, start, times, k - 1);
      var b := Full(rate, burst, start);
      assert After(b, times, k) == Consume(After(b, times, k - 1), times[k - 1]).0;
      assert Answers(b, times)[k - 1] == Admits(b, times, k - 1);
    }
  }

  ghost predicate GreedyAt(rate: u32, burst: u32, times: seq<nat>, d: seq<bool>, k: nat)
    requires |d| == |times| && k < |times|
  {
    d[k] <==> Held(rate, burst, times, d, k) >= NANOS
  }

  /** Admits whatever it can pay for. */
  ghost predicate Greedy(rate: u32, burst: u32, times: seq<nat>, d: seq<bool>)
    requires |d| == |times|
  {
    forall k :: 0 <= k < |times| ==> GreedyAt(rate, burst, times, d, k)
  }

  /** A bucket that starts full is greedy, and so affordable. */
  lemma {:induction false} BucketIsGreedy(rate: u32, burst: u32, start: nat, times: seq<nat>)
    requires Ordered(times)
    ensures Affordable(rate, burst, times, Answers(Full(rate, burst, start), times))
    ensures Greedy(rate, burst, times, Answers(Full(rate, burst, start), times))
  {
    forall k | 0 <= k < |times|
      ensures GreedyAt(rate, burst, times, Answers(Full(rate, burst, start), times), k)
      ensures AffordsAt(rate, burst, times, Answers(Full(rate, burst, start), times), k)
    {
      BucketHolds(rate, burst, start, times, k);
    }
  }

  /** Each answer of a bucket, from the answers before it: admitted exactly when every window that
      ends at this request still has room for it. */
  lemma {:induction false} ExactAnswer(rate: u32, burst: u32, start: nat, times: seq<nat>, k: nat)
    requires k < |times| && Ordered(times)
    ensures var d := Answers(Full(rate, burst, start), times);
      d[k] <==> forall i :: 0 <= i <= k ==> Fits(rate, burst, times, d, i, k)
  {
    BucketIsGreedy(rate, burst, start, times);
    assert GreedyAt(rate, burst, times, Answers(Full(rate, burst, start), times), k);
    PaysIffFits(rate, burst, times, Answers(Full(rate, burst, start), times), k);
  }

  lemma {:induction false} CountAll(d: seq<bool>, i: nat, j: nat)
    requires i <= j <= |d|
    requires forall m :: i <= m < j ==> d[m]
    ensures Count(d, i, j) == j - i
    decreases j - i
  {
    if i == j {
    } else {
      CountAll(d, i, j - 1);
    }
  }

  /** Requests `i`, ..., `j` are no more than a full bucket and the time they take can pay for, at a billion
      nanoseconds to the second. */
  ghost predicate Conforms(rate: u32, burst: u32, times: seq<nat>, i: nat, j: nat)
    requires i <= j < |times| && times[i] <= times[j]
  {
    (j - i + 1) * 1_000_000_000 <= burst * 1_000_000_000 + rate * (times[j] - times[i])
  }

  lemma ConformsIff(rate: u32, burst: u32, times: seq<nat>, i: nat, j: nat)
    requires i <= j < |times| && Ordered(times)
    ensures Conforms(rate, burst, times, i, j)
       <==> Whole(j - i + 1) <= Whole(burst) + Earned(rate, Elapsed(times[j], times[i]))
  {
    EarnedIsProduct(rate, times[j] - times[i]);
  }

  /** Exact conformance: a whole sequence is admitted if and only if it conforms. */
  lemma {:induction false} ExactConformance(rate: u32, burst: u32, start: nat, times: seq<nat>)
    requires Ordered(times)
    ensures (forall k :: 0 <= k < |times| ==> Admits(Full(rate, burst, start), times, k))
       <==> (forall i, j :: 0 <= i <= j < |times| ==> Conforms(rate, burst, times, i, j))
  {
    var d := Answers(Full(rate, burst, start), times);
    if forall k :: 0 <= k < |times| ==> Admits(Full(rate, burst, start), times, k) {
      forall i, j | 0 <= i <= j < |times| ensures Conforms(rate, burst, times, i, j) {
        ExactAnswer(rate, burst, start, times, j);
        assert Fits(rate, burst, times, d, i, j);
        CountAll(d, i, j);
        ConformsIff(rate, burst, times, i, j);
      }
    }
    if forall i, j :: 0 <= i <= j < |times| ==> Conforms(rate, burst, times, i, j) {
      for k := 0 to |times|
        invariant forall m :: 0 <= m < k ==> d[m]
      {
        forall i | 0 <= i <= k ensures Fits(rate, burst, times, d, i, k) {
          CountAll(d, i, k);
          assert Conforms(rate, burst, times, i, k);
          ConformsIff(rate, burst, times, i, k);
        }
        ExactAnswer(rate, burst, start, times, k);
      }
    }
  }

  /** Spending only held tokens is the same as keeping every window within its bound. */
  lemma {:induction false} AffordableIffWindows(rate: u32, burst: u32, times: seq<nat>, d: seq<bool>)
    requires |d| == |times| && Ordered(times)
    ensures Affordable(rate, burst, times, d)
       <==> forall i, k :: 0 <= i <= k < |times| && d[k] ==> Fits(rate, burst, times, d, i, k)
  {
    forall k | 0 <= k < |times|
      ensures AffordsAt(rate, burst, times, d, k)
         <==> (d[k] ==> forall i :: 0 <= i <= k ==> Fits(rate, burst, times, d, i, k))
    {
      PaysIffFits(rate, burst, times, d, k);
    }
  }

  lemma RivalStaysBehind(rate: u32, burst: u32, times: seq<nat>, d: seq<bool>, rival: seq<bool>, k: nat)
    requires |d| == |rival| == |times| && k < |times|
    requires Greedy(rate, burst, times, d) && Affordable(rate, burst, times, rival)
    requires Count(rival, 0, k) <= Count(d, 0, k)
    requires Held(rate, burst, times, rival, k)
          <= Held(rate, burst, times, d, k) + Whole(Count(d, 0, k) - Count(rival, 0, k))
    ensures Count(rival, 0, k + 1) <= Count(d, 0, k + 1)
  {
    assert GreedyAt(rate, burst, times, d, k) && AffordsAt(rate, burst, times, rival, k);
  }

  /** A rival is never richer than a greedy policy by more than the requests it has fallen behind. */
  lemma {:induction false} RivalBehind(rate: u32, burst: u32, times: seq<nat>, d: seq<bool>, rival: seq<bool>, k: nat)
    requires |d| == |rival| == |times| && k < |times|
    requires Greedy(rate, burst, times, d) && Affordable(rate, burst, times, rival)
    ensures Count(rival, 0, k) <= Count(d, 0, k)
    ensures Held(rate, burst, times, rival, k)
         <= Held(rate, burst, times, d, k) + Whole(Count(d, 0, k) - Count(rival, 0, k))
  {
    if k == 0 {
    } else {
      RivalBehind(rate, burst, times, d, rival, k - 1);
      RivalStaysBehind(rate, burst, times, d, rival, k - 1);
    }
  }

  lemma {:induction false} GreedyLeads(rate: u32, burst: u32, times: seq<nat>, d: seq<bool>, rival: seq<bool>, k: nat)
    requires |d| == |rival| == |times| && k <= |times|
    requires Greedy(rate, burst, times, d) && Affordable(rate, burst, times, rival)
    ensures Count(rival, 0, k) <= Count(d, 0, k)
  {
    if k > 0 {
      RivalBehind(rate, burst, times, d, rival, k - 1);
      RivalStaysBehind(rate, burst, times, d, rival, k - 1);
    }
  }

  /** Greedy optimality: the bucket spends only what it holds, and no policy that does so has
      admitted more at any point of the sequence. */
  lemma {:induction false} GreedyOptimal(rate: u32, burst: u32, start: nat, times: seq<nat>, rival: seq<bool>, k: nat)
    requires |rival| == |times| && k <= |times| && Ordered(times)
    requires Affordable(rate, burst, times, rival)
    ensures Affordable(rate, burst, times, Answers(Full(rate, burst, start), times))
    ensures Count(rival, 0, k) <= Count(Answers(Full(rate, burst, start), times), 0, k)
  {
    BucketIsGreedy(rate, burst, start, times);
    GreedyLeads(rate, burst, times, Answers(Full(rate, burst, start), times), rival, k);
  }

  /** Admissions among the first `k` requests that arrive in the window `[lo, hi]`. */
  function CountIn(times: seq<nat>, d: seq<bool>, k: nat, lo: nat, hi: nat): nat
    requires |d| == |times| && k <= |times|
  {
    if k == 0 then 0
    else CountIn(times, d, k - 1, lo, hi) + if d[k - 1] && lo <= times[k - 1] <= hi then 1 else 0
  }

  lemma {:induction false} NoneBefore(times: seq<nat>, d: seq<bool>, k: nat, lo: nat, hi: nat)
    requires |d| == |times| && k <= |times|
    requires forall m :: 0 <= m < k ==> times[m] < lo
    ensures CountIn(times, d, k, lo, hi) == 0
  {
    if k == 0 {
    } else {
      NoneBefore(times, d, k - 1, lo, hi);
    }
  }

  /** Everything counted in a window lies between its first request and its last. */
  lemma {:induction false} CountsBack(times: seq<nat>, d: seq<bool>, k: nat, lo: nat, hi: nat) returns (i: nat)
    requires |d| == |times| && 0 < k <= |times| && Ordered(times)
    requires lo <= times[k - 1]
    ensures i < k && lo <= times[i]
    ensures CountIn(times, d, k, lo, hi) <= Count(d, i, k)
  {
    if k == 1 || times[k - 2] < lo {
      i := k - 1;
      NoneBefore(times, d, k - 1, lo, hi);
    } else {
      i := CountsBack(times, d, k - 1, lo, hi);
    }
  }

  lemma {:induction false} AllInWindow(times: seq<nat>, d: seq<bool>, k: nat, lo: nat, hi: nat)
    requires |d| == |times| && k <= |times|
    requires forall m :: 0 <= m < k ==> d[m] && lo <= times[m] <= hi
    ensures CountIn(times, d, k, lo, hi) == k
  {
    if k == 0 {
    } else {
      AllInWindow(times, d, k - 1, lo, hi);
    }
  }

  /** Any affordable policy admits at most `burst + rate * (hi - lo)` requests in `[lo, hi]`. */
  lemma {:induction false} AffordableWindow(rate: u32, burst: u32, times: seq<nat>, d: seq<bool>, k: nat,
                                            lo: nat, hi: nat)
    requires |d| == |times| && Ordered(times) && k <= |times| && lo <= hi
    requires Affordable(rate, burst, times, d)
    ensures Whole(CountIn(times, d, k, lo, hi)) <= Whole(burst) + Earned(rate, hi - lo)
  {
    if k == 0 {
    } else {
      if d[k - 1] && lo <= times[k - 1] <= hi {
        var i := CountsBack(times, d, k, lo, hi);
        assert AffordsAt(rate, burst, times, d, k - 1);
        HeldAtMost(rate, burst, times, d, i, k - 1);
        EarnedGrows(rate, Elapsed(times[k - 1], times[i]), hi - lo);
      } else {
        AffordableWindow(rate, burst, times, d, k - 1, lo, hi);
      }
    }
  }

  /** The window bound of a bucket that starts full. */
  lemma WindowBound(rate: u32, burst: u32, start: nat, times: seq<nat>, lo: nat, hi: nat)
    requires Ordered(times) && lo <= hi
    ensures var d := Answers(Full(rate, burst, start), times);
      CountIn(times, d, |times|, lo, hi) * 1_000_000_000 <= burst * 1_000_000_000 + rate * (hi - lo)
  {
    BucketIsGreedy(rate, burst, start, times);
    AffordableWindow(rate, burst, times, Answers(Full(rate, burst, start), times), |times|, lo, hi);
    EarnedIsProduct(rate, hi - lo);
  }
}
