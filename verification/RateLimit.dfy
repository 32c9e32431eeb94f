/** Token buckets and the per-address limiter of src/middleware/ratelimit.rs.

    Time is a count of nanoseconds, and a token count is held in billionths of a token, so that
    the refill `elapsed * rate` is exact. */
module RateLimit {
  import opened Primitives

  /** `n` whole tokens, in billionths; also `n` seconds, in nanoseconds. */
  function Whole(n: int): int {
    n * 1_000_000_000
  }

  const NANOS: nat := Whole(1)

  type u128 = n: nat | n < 0x1_0000_0000_0000_0000_0000_0000_0000_0000

  datatype IpAddr = V4(bits4: u32) | V6(bits6: u128)

  /** The value a bucket holds between two calls. */
  datatype Bucket = Bucket(tokens: nat, maxTokens: nat, refillRate: nat, lastRefill: nat, lastUsed: nat)

  function Full(rate: u32, burst: u32, now: nat): Bucket {
    Bucket(Whole(burst), Whole(burst), rate, now, now)
  }

  /** Time from `since` to `now`; a clock that reads earlier counts as no time at all. */
  function Elapsed(now: nat, since: nat): nat {
    if now >= since then now - since else 0
  }

  function Min(x: int, y: int): int {
    if x <= y then x else y
  }

  /** Billionths of a token earned in `span` nanoseconds: `rate * span`, as repeated addition. */
  function Earned(rate: nat, span: nat): nat {
    if span == 0 then 0 else Earned(rate, span - 1) + rate
  }

  lemma {:induction false} EarnedIsProduct(rate: nat, span: nat)
    ensures Earned(rate, span) == rate * span
  {
    if span == 0 {
    } else {
      EarnedIsProduct(rate, span - 1);
    }
  }

  lemma {:induction false} EarnedAdds(rate: nat, first: nat, second: nat)
    ensures Earned(rate, first + second) == Earned(rate, first) + Earned(rate, second)
  {
    if second == 0 {
    } else {
      EarnedAdds(rate, first, second - 1);
    }
  }

  lemma EarnedGrows(rate: nat, shorter: nat, longer: nat)
    requires shorter <= longer
    ensures Earned(rate, shorter) <= Earned(rate, longer)
  {
    EarnedAdds(rate, shorter, longer - shorter);
  }

  function Refilled(b: Bucket, now: nat): nat {
    Min(b.tokens + Earned(b.refillRate, Elapsed(now, b.lastRefill)), b.maxTokens)
  }

  function Consume(b: Bucket, now: nat): (Bucket, bool) {
    var filled := Refilled(b, now);
    var b' := b.(lastRefill := now, lastUsed := now);
    if filled >= NANOS then (b'.(tokens := filled - NANOS), true) else (b'.(tokens := filled), false)
  }

  predicate Stale(b: Bucket, maxIdle: nat, now: nat) {
    Elapsed(now, b.lastUsed) > maxIdle
  }

  /** A clock that reads earlier than the bucket's earns nothing, takes nothing, and makes nothing stale. */
  lemma BackwardsEarnsNothing(b: Bucket, maxIdle: nat, now: nat)
    requires now <= b.lastRefill && now <= b.lastUsed && b.tokens <= b.maxTokens
    ensures Refilled(b, now) == b.tokens && !Stale(b, maxIdle, now)
    ensures Consume(b, now) == Consume(b.(lastRefill := now, lastUsed := now), now)
  {
  }

  /** A bucket as the program holds it: `TryConsume` updates three fields in place. */
  class TokenBucket {
    var tokens: nat
    const maxTokens: nat
    const refillRate: nat
    var lastRefill: nat
    var lastUsed: nat

    function Value(): Bucket
      reads this
    {
      Bucket(tokens, maxTokens, refillRate, lastRefill, lastUsed)
    }

    constructor (rate: u32, burst: u32, now: nat)
      ensures Value() == Full(rate, burst, now)
    {
      tokens := Whole(burst);
      maxTokens := Whole(burst);
      refillRate := rate;
      lastRefill := now;
      lastUsed := now;
    }

    method TryConsume(now: nat) returns (allowed: bool)
      modifies this
      ensures (Value(), allowed) == Consume(old(Value()), now)
    {
      EarnedIsProduct(refillRate, Elapsed(now, lastRefill));
      var tokensToAdd := refillRate * Elapsed(now, lastRefill);
      tokens := Min(tokens + tokensToAdd, maxTokens);
      lastRefill := now;
      lastUsed := now;
      if tokens >= NANOS {
        tokens := tokens - NANOS;
        allowed := true;
      } else {
        allowed := false;
      }
    }

    method IsStale(maxIdle: nat, now: nat) returns (stale: bool)
      ensures stale <==> Stale(Value(), maxIdle, now)
    {
      stale := Elapsed(now, lastUsed) > maxIdle;
    }
  }

  /** The value of a whole limiter: one bucket for each address seen and not evicted. */
  datatype Limiter = Limiter(rate: u32, burst: u32, buckets: map<IpAddr, Bucket>) {

    /** The bucket that answers the next request of `ip`. */
    function BucketFor(ip: IpAddr, now: nat): Bucket {
      if ip in buckets then buckets[ip] else Full(rate, burst, now)
    }

    function Check(ip: IpAddr, now: nat): (Limiter, bool) {
      var (b, allowed) := Consume(BucketFor(ip, now), now);
      (this.(buckets := buckets[ip := b]), allowed)
    }

    /** Eviction of the stale buckets among the addresses visited. The program's map is sharded
        and a pass locks one shard at a time, so one pass is several of these. */
    function Cleanup(visited: set<IpAddr>, maxIdle: nat, now: nat): Limiter {
      this.(buckets := map ip | ip in buckets && !(ip in visited && Stale(buckets[ip], maxIdle, now)) :: buckets[ip])
    }
  }

  function NewLimiter(rate: u32, burst: u32): Limiter {
    Limiter(rate, burst, map[])
  }

  /** A limiter as the program holds it: a map of buckets that are updated in place. */
  class RateLimiter {
    var buckets: map<IpAddr, TokenBucket>
    const rate: u32
    const burst: u32
    ghost var Contents: map<IpAddr, Bucket>
    ghost var Repr: set<object>

    /** No two addresses share a bucket, and `Contents` holds what the buckets hold. */
    ghost predicate Valid()
      reads this, Repr
      ensures Valid() ==> this in Repr
    {
      && this in Repr
      && buckets.Keys == Contents.Keys
      && (forall ip :: ip in buckets ==> buckets[ip] in Repr && buckets[ip].Value() == Contents[ip])
      && (forall ip, ip' :: ip in buckets && ip' in buckets && ip != ip' ==> buckets[ip] != buckets[ip'])
    }

    ghost function Value(): Limiter
      reads this
    {
      Limiter(rate, burst, Contents)
    }

    constructor (rate: u32, burst: u32)
      ensures Valid() && fresh(Repr)
      ensures Value() == NewLimiter(rate, burst)
    {
      this.rate := rate;
      this.burst := burst;
      this.buckets := map[];
      this.Contents := map[];
      this.Repr := {this};
    }

    method Check(ip: IpAddr, now: nat) returns (allowed: bool)
      requires Valid()
      modifies Repr
      ensures Valid() && fresh(Repr - old(Repr))
      ensures (Value(), allowed) == old(Value()).Check(ip, now)
    {
      if ip in buckets {
        allowed := buckets[ip].TryConsume(now);
      } else {
        var bucket := new TokenBucket(rate, burst, now);
        allowed := bucket.TryConsume(now);
        buckets := buckets[ip := bucket];
        Repr := Repr + {bucket};
      }
      Contents := Contents[ip := buckets[ip].Value()];
    }

    /** The buckets that are not stale, found by asking each in turn. */
    method Retained(maxIdle: nat, now: nat) returns (kept: map<IpAddr, TokenBucket>)
      ensures kept == map ip | ip in buckets && !Stale(buckets[ip].Value(), maxIdle, now) :: buckets[ip]
    {
      kept := map[];
      var due := buckets.Keys;
      while due != {}
        invariant due <= buckets.Keys && kept.Keys <= buckets.Keys - due
        invariant forall ip :: ip in buckets.Keys - due ==> (ip in kept <==> !Stale(buckets[ip].Value(), maxIdle, now))
        invariant forall ip :: ip in kept ==> kept[ip] == buckets[ip]
        decreases due
      {
        var ip :| ip in due;
        var stale := buckets[ip].IsStale(maxIdle, now);
        if !stale {
          kept := kept[ip := buckets[ip]];
        }
        due := due - {ip};
      }
    }

    method CleanupStale(maxIdle: nat, now: nat)
      requires Valid()
      modifies this
      ensures Valid() && Repr == old(Repr)
      ensures Value() == old(Value()).Cleanup(old(buckets.Keys), maxIdle, now)
    {
      var kept := Retained(maxIdle, now);
      Contents := Value().Cleanup(buckets.Keys, maxIdle, now).buckets;
      buckets := kept;
    }
  }
}
