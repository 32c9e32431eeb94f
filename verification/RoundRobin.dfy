/** The round-robin balancer: src/balance/round_robin.rs. */
module RoundRobin {
  import opened Primitives
  import opened Origin
  import opened Balance

  /** Which candidates may be chosen: those with a state that is healthy. */
  function Up(candidates: seq<Endpoint>, table: StateTable): (up: seq<bool>)
    ensures |up| == |candidates|
    ensures forall i :: 0 <= i < |candidates| ==> up[i] == KnownHealthy(candidates[i].urlKey, table)
  {
    seq(|candidates|, i requires 0 <= i < |candidates| => KnownHealthy(candidates[i].urlKey, table))
  }

  /** Position `steps` places after `start`, going round once at most. */
  function Ahead(n: nat, start: nat, steps: nat): nat
    requires start < n && steps <= n
  {
    if start + steps < n then start + steps else start + steps - n
  }

  /** The first position that is up, scanning `n - tried` places from `start + tried`. */
  function Scan(up: seq<bool>, start: nat, tried: nat): Option<nat>
    requires start < |up| && tried <= |up|
    decreases |up| - tried
  {
    if tried == |up| then None
    else if up[Ahead(|up|, start, tried)] then Some(Ahead(|up|, start, tried))
    else Scan(up, start, tried + 1)
  }

  /** The position chosen by the holder of `ticket`. */
  function Pick(up: seq<bool>, ticket: nat): Option<nat> {
    if up == [] then None else Scan(up, ticket % |up|, 0)
  }

  lemma SmallMod(x: nat, n: nat)
    requires x < n
    ensures x % n == x
  {
  }

  lemma OneMore(q: nat, n: nat)
    ensures (q + 1) * n == q * n + n
  {
  }

  lemma {:induction false} Multiples(a: nat, b: nat, n: nat)
    requires a < b
    ensures a * n + n <= b * n
  {
    OneMore(b - 1, n);
    if a == b - 1 {
    } else {
      Multiples(a, b - 1, n);
    }
  }

  lemma DivModUnique(x: nat, n: nat, q: nat, r: nat)
    requires r < n && x == q * n + r
    ensures x / n == q && x % n == r
  {
    if x / n < q {
      Multiples(x / n, q, n);
    } else if x / n > q {
      Multiples(q, x / n, n);
    }
  }

  lemma ModMinus(x: nat, n: nat)
    requires n > 0 && x >= n
    ensures x % n == (x - n) % n
    ensures x / n == (x - n) / n + 1
  {
    var q, r := (x - n) / n, (x - n) % n;
    OneMore(q, n);
    DivModUnique(x, n, q + 1, r);
  }

  lemma AheadIsMod(n: nat, start: nat, steps: nat)
    requires start < n && steps < n
    ensures (start + steps) % n == Ahead(n, start, steps)
  {
    if start + steps < n {
      SmallMod(start + steps, n);
    } else {
      SmallMod(start + steps - n, n);
      ModMinus(start + steps, n);
    }
  }

  class RoundRobinBalancer {
    var counter: u64

    constructor ()
      ensures counter == 0
    {
      counter := 0;
    }

    /** The position of the chosen candidate. `table` is what `states` holds. */
    method SelectOrigin(candidates: seq<Endpoint>, states: map<string, OriginState>, ghost table: StateTable)
      returns (chosen: Option<nat>)
      requires Mirrors(states, table)
      modifies this
      ensures chosen == Pick(Up(candidates, table), old(counter))
      ensures counter == if candidates == [] then old(counter) else Succ64(old(counter))
    {
      if candidates == [] {
        return None;
      }
      var count := |candidates|;
      var startIdx := counter % count;
      counter := Succ64(counter);
      ghost var up := Up(candidates, table);
      for i := 0 to count
        invariant counter == Succ64(old(counter))
        invariant Scan(up, startIdx, 0) == Scan(up, startIdx, i)
      {
        AheadIsMod(count, startIdx, i);
        var idx := (startIdx + i) % count;
        var origin := candidates[idx];
        if origin.urlKey in states && states[origin.urlKey].healthy {
          assert states[origin.urlKey].Value() == table[origin.urlKey];
          return Some(idx);
        }
        assert !up[idx] by {
          if origin.urlKey in states {
            assert states[origin.urlKey].Value() == table[origin.urlKey];
          }
        }
      }
      return None;
    }
  }

  // ----- what a ticket chooses

  /** How far a scan from `start` goes before it reaches `i`. */
  function Distance(n: nat, start: nat, i: nat): nat
    requires start < n && i < n
  {
    if start <= i then i - start else i + n - start
  }

  /** The position `e` places before `i`, going round, is down. */
  predicate DownAt(up: seq<bool>, i: nat, e: nat)
    requires i < |up| && e < |up|
  {
    !up[if e <= i then i - e else i + |up| - e]
  }

  /** How many places straight before `i`, counting from place `d + 1` back, are down. */
  function DownRun(up: seq<bool>, i: nat, d: nat): (r: nat)
    requires i < |up| && d < |up|
    ensures d + r < |up|
    ensures forall e: nat :: d < e <= d + r ==> DownAt(up, i, e)
    ensures d + r + 1 < |up| ==> !DownAt(up, i, d + r + 1)
    decreases |up| - d
  {
    if d + 1 == |up| || !DownAt(up, i, d + 1) then 0 else 1 + DownRun(up, i, d + 1)
  }

  /** The length of the run of down positions cyclically before `i`. */
  function DownBefore(up: seq<bool>, i: nat): (r: nat)
    requires i < |up|
    ensures r < |up|
  {
    DownRun(up, i, 0)
  }

  lemma {:induction false} ScanMisses(up: seq<bool>, start: nat, tried: nat, i: nat)
    requires start < |up| && tried <= |up| && i < |up|
    ensures !up[i] ==> Scan(up, start, tried) != Some(i)
    decreases |up| - tried
  {
    if tried == |up| {
    } else {
      ScanMisses(up, start, tried + 1, i);
    }
  }

  lemma {:induction false} ScanFinds(up: seq<bool>, start: nat, tried: nat, i: nat)
    requires start < |up| && i < |up| && tried <= Distance(|up|, start, i)
    ensures Scan(up, start, tried) == Some(i)
       <==> up[i] && forall e: nat :: 0 < e <= Distance(|up|, start, i) - tried ==> DownAt(up, i, e)
    decreases |up| - tried
  {
    var n, d := |up|, Distance(|up|, start, i);
    if tried < d {
      ScanFinds(up, start, tried + 1, i);
      assert up[Ahead(n, start, tried)] <==> !DownAt(up, i, d - tried);
    } else {
      assert Ahead(n, start, d) == i;
      ScanMisses(up, start, tried + 1, i);
    }
  }

  /** A scan from `start` chooses `i` exactly when `i` is up and `start` is `i` or within the run of
      down positions before it. */
  lemma ScanIff(up: seq<bool>, start: nat, i: nat)
    requires start < |up| && i < |up|
    ensures Scan(up, start, 0) == Some(i) <==> up[i] && Distance(|up|, start, i) <= DownBefore(up, i)
  {
    ScanFinds(up, start, 0, i);
    var d, r := Distance(|up|, start, i), DownRun(up, i, 0);
    if d > r {
      assert !DownAt(up, i, r + 1);
    }
  }

  lemma {:induction false} ScanSound(up: seq<bool>, start: nat, tried: nat)
    requires start < |up| && tried <= |up|
    ensures var found := Scan(up, start, tried);
      if found.Some? then found.value < |up| && up[found.value]
      else forall e: nat :: tried <= e < |up| ==> !up[Ahead(|up|, start, e)]
    decreases |up| - tried
  {
    if tried == |up| {
    } else {
      ScanSound(up, start, tried + 1);
    }
  }

  /** A ticket chooses some position that is up, unless none is. */
  lemma PickSound(up: seq<bool>, ticket: nat)
    ensures Pick(up, ticket).Some? <==> exists i :: 0 <= i < |up| && up[i]
    ensures Pick(up, ticket).Some? ==> Pick(up, ticket).value < |up| && up[Pick(up, ticket).value]
  {
    if up != [] {
      ScanSound(up, ticket % |up|, 0);
      forall i: nat | i < |up| && up[i] ensures Pick(up, ticket).Some? {
        var start := ticket % |up|;
        assert up[Ahead(|up|, start, Distance(|up|, start, i))];
      }
    }
  }

  /** A scan stops at the first position that is up. */
  lemma {:induction false} ScanReaches(up: seq<bool>, start: nat, tried: nat, d: nat)
    requires start < |up| && tried <= d < |up|
    requires up[Ahead(|up|, start, d)] && forall e: nat :: tried <= e < d ==> !up[Ahead(|up|, start, e)]
    ensures Scan(up, start, tried) == Some(Ahead(|up|, start, d))
    decreases d - tried
  {
    if tried == d {
    } else {
      ScanReaches(up, start, tried + 1, d);
    }
  }

  lemma {:induction false} ScanStops(up: seq<bool>, start: nat, tried: nat) returns (d: nat)
    requires start < |up| && tried <= |up| && Scan(up, start, tried).Some?
    ensures tried <= d < |up| && Scan(up, start, tried) == Some(Ahead(|up|, start, d))
    ensures up[Ahead(|up|, start, d)] && forall e: nat :: tried <= e < d ==> !up[Ahead(|up|, start, e)]
    decreases |up| - tried
  {
    if up[Ahead(|up|, start, tried)] {
      d := tried;
    } else {
      d := ScanStops(up, start, tried + 1);
    }
  }

  lemma ModAdds(x: nat, y: nat, n: nat)
    requires n > 0
    ensures (x + y) % n == (x % n + y) % n
  {
    var q, r := x / n, x % n;
    var q', r' := (r + y) / n, (r + y) % n;
    assert x + y == (q + q') * n + r';
    DivModUnique(x + y, n, q + q', r');
  }

  // ----- shares

  function Next(n: nat, start: nat): nat
    requires start < n
  {
    if start + 1 == n then 0 else start + 1
  }

  /** How many of `k` scans from successive starts choose `i`. */
  function Chosen(up: seq<bool>, i: nat, start: nat, k: nat): nat
    requires start < |up|
    decreases k
  {
    if k == 0 then 0
    else (if Scan(up, start, 0) == Some(i) then 1 else 0) + Chosen(up, i, Next(|up|, start), k - 1)
  }

  /** The start after `k` more tickets. */
  function Later(n: nat, start: nat, k: nat): nat
    requires start < n
    decreases k
  {
    if k == 0 then start else Later(n, Next(n, start), k - 1)
  }

  lemma {:induction false} LaterInRange(n: nat, start: nat, k: nat)
    requires start < n
    ensures Later(n, start, k) < n
    ensures k <= n ==> Later(n, start, k) == Ahead(n, start, k)
    decreases k
  {
    if k == 0 {
    } else {
      LaterInRange(n, Next(n, start), k - 1);
    }
  }

  lemma {:induction false} ChosenSplits(up: seq<bool>, i: nat, start: nat, a: nat, b: nat)
    requires start < |up|
    ensures Later(|up|, start, a) < |up|
    ensures Chosen(up, i, start, a + b) == Chosen(up, i, start, a) + Chosen(up, i, Later(|up|, start, a), b)
    decreases a
  {
    if a == 0 {
    } else {
      ChosenSplits(up, i, Next(|up|, start), a - 1, b);
    }
  }

  /** Scans from ever closer starts: those nearer than the run before `i` choose it. */
  lemma {:induction false} ChosenOnApproach(up: seq<bool>, i: nat, start: nat, k: nat)
    requires start < |up| && i < |up| && up[i]
    requires k <= Distance(|up|, start, i) + 1
    ensures var d, r := Distance(|up|, start, i), DownBefore(up, i);
      Chosen(up, i, start, k) == if r >= d then k else if r + k > d then r + k - d else 0
    decreases k
  {
    if k == 0 {
    } else {
      ScanIff(up, start, i);
      if k > 1 {
        ChosenOnApproach(up, i, Next(|up|, start), k - 1);
      }
    }
  }

  /** Over one full round a position that is up is chosen once for itself and once for each down
      position in the run before it. */
  lemma RoundShare(up: seq<bool>, i: nat, start: nat)
    requires start < |up| && i < |up| && up[i]
    ensures Chosen(up, i, start, |up|) == 1 + DownBefore(up, i)
  {
    var n, d := |up|, Distance(|up|, start, i);
    var past := Next(n, i);
    LaterInRange(n, start, d + 1);
    assert Later(n, start, d + 1) == past;
    ChosenSplits(up, i, start, d + 1, n - (d + 1));
    ChosenOnApproach(up, i, start, d + 1);
    ChosenOnApproach(up, i, past, n - (d + 1));
  }

  // ----- the same, by ticket number

  /** How many of the `k` tickets drawn from counter value `c` on choose `i`; the counter wraps. */
  function ChosenByTickets(up: seq<bool>, i: nat, c: u64, k: nat): nat
    decreases k
  {
    if k == 0 then 0
    else (if Pick(up, c) == Some(i) then 1 else 0) + ChosenByTickets(up, i, Succ64(c), k - 1)
  }

  lemma NextIsMod(n: nat, t: nat)
    requires n > 0
    ensures (t + 1) % n == Next(n, t % n)
  {
    var q, r := t / n, t % n;
    assert t == q * n + r;
    if r + 1 < n {
      DivModUnique(t + 1, n, q, r + 1);
    } else {
      assert t + 1 == (q + 1) * n + 0;
      DivModUnique(t + 1, n, q + 1, 0);
    }
  }

  lemma NextTicket(n: nat, c: u64)
    requires n > 0
    requires c + 1 < 0x1_0000_0000_0000_0000 || 0x1_0000_0000_0000_0000 % n == 0
    ensures Succ64(c) % n == Next(n, c % n)
  {
    NextIsMod(n, c);
    if c + 1 < 0x1_0000_0000_0000_0000 {
      assert Succ64(c) == c + 1;
    } else {
      assert Succ64(c) == 0;
      SmallMod(0, n);
    }
  }

  /** The residue moves on by one with each ticket; at the wrap, only if `n` divides 2^64. */
  lemma {:induction false} TicketsAreStarts(up: seq<bool>, i: nat, c: u64, k: nat)
    requires up != []
    requires c + k <= 0x1_0000_0000_0000_0000 || 0x1_0000_0000_0000_0000 % |up| == 0
    ensures ChosenByTickets(up, i, c, k) == Chosen(up, i, c % |up|, k)
    decreases k
  {
    if k == 0 {
    } else {
      if k > 1 {
        NextTicket(|up|, c);
        TicketsAreStarts(up, i, Succ64(c), k - 1);
      }
    }
  }

  /** The share of each position over any `n` consecutive selections without a counter wrap. */
  lemma {:induction false} RoundRobinShare(up: seq<bool>, i: nat, c: u64)
    requires i < |up| && up[i]
    requires c + |up| <= 0x1_0000_0000_0000_0000
    ensures ChosenByTickets(up, i, c, |up|) == 1 + DownBefore(up, i)
  {
    TicketsAreStarts(up, i, c, |up|);
    RoundShare(up, i, c % |up|);
  }

  lemma {:induction false} ChosenGrows(up: seq<bool>, i: nat, start: nat, k: nat, more: nat)
    requires start < |up| && k <= more
    ensures Chosen(up, i, start, k) <= Chosen(up, i, start, more)
    decreases k
  {
    if k == 0 {
    } else {
      ChosenGrows(up, i, Next(|up|, start), k - 1, more - 1);
    }
  }

  lemma AnotherRound(up: seq<bool>, i: nat, start: nat, k: nat)
    requires start < |up| && i < |up| && up[i] && k >= |up|
    ensures Chosen(up, i, start, k) == 1 + DownBefore(up, i) + Chosen(up, i, start, k - |up|)
  {
    RoundShare(up, i, start);
    LaterInRange(|up|, start, |up|);
    ChosenSplits(up, i, start, |up|, k - |up|);
  }

  /** The full rounds in `k` selections give exact shares, and a partial round adds no more than one
      round would. */
  lemma {:induction false} LongShare(up: seq<bool>, i: nat, start: nat, k: nat)
    requires start < |up| && i < |up| && up[i]
    ensures var share := 1 + DownBefore(up, i);
      (k / |up|) * share <= Chosen(up, i, start, k)
      <= (k / |up|) * share + if k % |up| == 0 then 0 else share
    decreases k
  {
    var n, share := |up|, 1 + DownBefore(up, i);
    RoundShare(up, i, start);
    if k < n {
      DivModUnique(k, n, 0, k);
      ChosenGrows(up, i, start, k, n);
    } else {
      LongShare(up, i, start, k - n);
      AnotherRound(up, i, start, k);
      ModMinus(k, n);
      OneMore((k - n) / n, share);
    }
  }

  /** With every candidate up, any `k` selections give each position `k / n`, rounded down or up. */
  lemma {:induction false} FairWhenAllUp(up: seq<bool>, i: nat, c: u64, k: nat)
    requires i < |up| && c + k <= 0x1_0000_0000_0000_0000
    requires forall j :: 0 <= j < |up| ==> up[j]
    ensures k / |up| <= ChosenByTickets(up, i, c, k) <= k / |up| + if k % |up| == 0 then 0 else 1
  {
    assert DownBefore(up, i) == 0 by {
      assert |up| > 1 ==> !DownAt(up, i, 1);
    }
    TicketsAreStarts(up, i, c, k);
    LongShare(up, i, c % |up|, k);
  }

  ghost predicate FairRound(up: seq<bool>, c: u64) {
    forall i: nat :: i < |up| && up[i] ==> ChosenByTickets(up, i, c, |up|) == 1 + DownBefore(up, i)
  }

  lemma AllUpIsFair(up: seq<bool>, i: nat, start: nat)
    requires start < |up| && i < |up|
    requires forall j :: 0 <= j < |up| ==> up[j]
    ensures DownBefore(up, i) == 0
    ensures Scan(up, i, 0) == Some(i)
    ensures start <= i && i + 1 < |up| ==> Chosen(up, i, start, |up| - 1 - start) >= 1
  {
    assert |up| > 1 ==> !DownAt(up, i, 1);
    ScanIff(up, i, i);
    if start <= i && i + 1 < |up| {
      ChosenOnApproach(up, i, start, i - start + 1);
      ChosenGrows(up, i, start, i - start + 1, |up| - 1 - start);
    }
  }

  /** Otherwise the last ticket before the wrap lands on a position that is about to come again. */
  lemma UnfairWrap(n: nat)
    requires 0 < n < 0x1_0000_0000_0000_0000 && 0x1_0000_0000_0000_0000 % n != 0
    ensures !FairRound(seq(n, _ => true), 0xFFFF_FFFF_FFFF_FFFF)
  {
    var up: seq<bool>, last: u64 := seq(n, _ => true), 0xFFFF_FFFF_FFFF_FFFF;
    var i := last % n;
    assert i + 1 < n by {
      NextIsMod(n, last);
    }
    SmallMod(0, n);
    AllUpIsFair(up, i, 0);
    TicketsAreStarts(up, i, 0, n - 1);
    assert ChosenByTickets(up, i, last, n) == 1 + ChosenByTickets(up, i, 0, n - 1);
  }

  /** The wrap of the 64-bit counter keeps the shares exactly when the number of candidates divides
      2^64. */
  lemma FairAcrossWrapIff(n: nat)
    requires 0 < n < 0x1_0000_0000_0000_0000
    ensures (forall up: seq<bool>, c: u64 :: |up| == n ==> FairRound(up, c))
       <==> 0x1_0000_0000_0000_0000 % n == 0
  {
    if 0x1_0000_0000_0000_0000 % n == 0 {
      forall up: seq<bool>, c: u64 | |up| == n ensures FairRound(up, c) {
        forall i: nat | i < |up| && up[i]
          ensures ChosenByTickets(up, i, c, |up|) == 1 + DownBefore(up, i)
        {
          TicketsAreStarts(up, i, c, n);
          RoundShare(up, i, c % n);
        }
      }
    } else {
      UnfairWrap(n);
      assert !FairRound(seq(n, _ => true), 0xFFFF_FFFF_FFFF_FFFF);
    }
  }
}
