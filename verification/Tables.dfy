/** The two shared tables of src/state.rs that are updated in place. */
module Tables {
  import opened Primitives
  import opened RateLimit
  import opened Origin
  import opened Balance
  import opened Config
  import opened Proxy

  method RecordOn(state: OriginState, passive: PassiveHealth, nanos: nat, spurious: nat, outcome: Outcome)
    modifies state
    ensures state.Value() == RecordOutcome(old(state.Value()), passive, nanos, outcome)
  {
    state.IncrementRequests();
    state.RecordLatency(nanos, spurious);
    if passive.enabled {
      match outcome {
        case Responded(status) =>
          if 500 <= status < 600 {
            state.RecordFailureWithThreshold(passive.failureThreshold);
          } else {
            state.RecordSuccessWithThreshold(passive.successThreshold);
          }
        case Failed => state.RecordFailureWithThreshold(passive.failureThreshold);
      }
    } else {
      match outcome {
        case Responded(status) =>
          if 500 <= status < 600 {
            state.RecordFailure();
          } else {
            state.RecordSuccess();
          }
        case Failed => state.RecordFailure();
      }
    }
  }

  /** Origin states by key. States are added and updated, never removed. */
  class OriginMap {
    var states: map<string, OriginState>
    ghost var Contents: StateTable
    ghost var Repr: set<object>

    ghost predicate Valid()
      reads this, Repr
      ensures Valid() ==> this in Repr
    {
      && this in Repr
      && (forall key :: key in states ==> states[key] in Repr)
      && Mirrors(states, Contents)
      && (forall a, b :: a in states && b in states && a != b ==> states[a] != states[b])
    }

    constructor ()
      ensures Valid() && fresh(Repr) && Contents == map[]
    {
      states := map[];
      Contents := map[];
      Repr := {this};
    }

    /** The state under `key`, after adding a new one if there was none. */
    method OrDefault(key: string)
      requires Valid()
      modifies this
      ensures Valid() && fresh(Repr - old(Repr))
      ensures Contents == AddStates(old(Contents), {key})
    {
      if key !in states {
        var state := new OriginState();
        states := states[key := state];
        Contents := Contents[key := NEW];
        Repr := Repr + {state};
      }
      assert Contents == AddStates(old(Contents), {key});
    }

    /** What a finished request leaves on the origin it was sent to, if that origin has a state. */
    method Record(key: string, passive: PassiveHealth, nanos: nat, spurious: nat, outcome: Outcome)
      requires Valid()
      modifies Repr
      ensures Valid() && Repr == old(Repr)
      ensures Contents == if key in old(Contents)
        then old(Contents)[key := RecordOutcome(old(Contents)[key], passive, nanos, outcome)]
        else old(Contents)
    {
      if key in states {
        var state := states[key];
        RecordOn(state, passive, nanos, spurious, outcome);
        Contents := Contents[key := state.Value()];
      }
    }
  }

  /** No two entries share an object. */
  ghost predicate Apart(parts: map<string, set<object>>) {
    forall a, b :: a in parts && b in parts && a != b ==> parts[a] !! parts[b]
  }

  lemma StillApart(parts: map<string, set<object>>, key: string, part: set<object>)
    requires Apart(parts - {key})
    requires forall other :: other in parts && other != key ==> parts[other] !! part
    ensures Apart(parts[key := part])
  {
    forall a, b | a in parts && b in parts && a != b && a != key && b != key ensures parts[a] !! parts[b] {
      assert (parts - {key})[a] !! (parts - {key})[b];
    }
  }

  /** Route limiters by route key. */
  class LimiterMap {
    var limiters: map<string, RateLimiter>
    ghost var Contents: map<string, Limiter>
    ghost var Parts: map<string, set<object>>
    ghost var Repr: set<object>

    /** The limiter under `key` is whole, consists of `Parts[key]` and is worth `Contents[key]`. */
    ghost predicate Holds(key: string)
      requires key in limiters && key in Contents && key in Parts
      reads this, Repr
    {
      && limiters[key] in Parts[key] && Parts[key] <= Repr && this !in Parts[key]
      && limiters[key].Repr == Parts[key] && limiters[key].Valid() && limiters[key].Value() == Contents[key]
    }

    /** Limiters are whole and share nothing. */
    ghost predicate Valid()
      reads this, Repr
      ensures Valid() ==> this in Repr && limiters.Keys == Contents.Keys
    {
      && this in Repr
      && limiters.Keys == Contents.Keys == Parts.Keys
      && (forall key :: key in limiters ==> Holds(key))
      && Apart(Parts)
    }

    constructor ()
      ensures Valid() && fresh(Repr) && Contents == map[]
    {
      limiters := map[];
      Contents := map[];
      Parts := map[];
      Repr := {this};
    }

    /** Everything but the entry under `key` is as it should be, and what is there now is whole. */
    ghost predicate ValidBut(key: string)
      reads this, Repr, if key in limiters then {limiters[key]} + limiters[key].Repr else {}
    {
      && this in Repr && key in limiters
      && limiters.Keys == Contents.Keys + {key} && Contents.Keys == Parts.Keys
      && (forall other :: other in Contents && other != key ==> Holds(other))
      && Apart(Parts - {key})
      && limiters[key] in limiters[key].Repr && this !in limiters[key].Repr && limiters[key].Valid()
      && (forall other :: other in Parts && other != key ==> Parts[other] !! limiters[key].Repr)
    }

    /** An entry that nothing touched is still whole. */
    twostate lemma StillHolds(other: string)
      requires old(other in limiters && other in Contents && other in Parts && Holds(other))
      requires other in limiters && other in Contents && other in Parts && old(Repr) <= Repr
      requires limiters[other] == old(limiters[other]) && Contents[other] == old(Contents[other])
      requires Parts[other] == old(Parts[other])
      requires forall o :: o in old(Parts[other]) ==> unchanged(o)
      ensures Holds(other)
    {
    }

    /** Nothing but the ghost record of entries moved, so every other entry is still whole. */
    twostate lemma OthersStillHold(key: string)
      requires old(ValidBut(key)) && old(Repr) <= Repr && limiters == old(limiters)
      requires key in limiters && Contents == old(Contents)[key := limiters[key].Value()]
      requires Parts == old(Parts)[key := limiters[key].Repr]
      requires forall o :: o in old(Repr) && o != this ==> unchanged(o)
      ensures forall other :: other in limiters && other != key ==> Holds(other)
    {
      forall other | other in limiters && other != key ensures Holds(other) {
        assert old(Holds(other));
        StillHolds(other);
      }
    }

    lemma NewHolds(key: string)
      requires key in limiters && limiters[key].Valid() && limiters[key] in limiters[key].Repr
      requires limiters[key].Repr <= Repr && this !in limiters[key].Repr
      requires key in Contents && Contents[key] == limiters[key].Value()
      requires key in Parts && Parts[key] == limiters[key].Repr
      ensures Holds(key)
    {
    }

    ghost method Adopt(key: string)
      requires ValidBut(key)
      modifies this`Contents, this`Parts, this`Repr
      ensures Valid() && Repr == old(Repr) + limiters[key].Repr
      ensures Contents == old(Contents)[key := limiters[key].Value()]
    {
      Contents := Contents[key := limiters[key].Value()];
      Parts := Parts[key := limiters[key].Repr];
      Repr := Repr + limiters[key].Repr;
      OthersStillHold(key);
      NewHolds(key);
      StillApart(old(Parts), key, limiters[key].Repr);
    }

    method Check(key: string, ip: IpAddr, now: nat) returns (allowed: bool)
      requires Valid() && key in limiters
      modifies Repr
      ensures Valid() && fresh(Repr - old(Repr))
      ensures Contents == old(Contents)[key := old(Contents)[key].Check(ip, now).0]
      ensures allowed == old(Contents)[key].Check(ip, now).1
    {
      assert Holds(key);
      allowed := limiters[key].Check(ip, now);
      forall other | other in limiters && other != key ensures Holds(other) {
        assert old(Holds(other)) && Parts[other] !! Parts[key];
      }
      Adopt(key);
    }

    method Clear()
      requires Valid()
      modifies this
      ensures Valid() && Repr == old(Repr) && Contents == map[]
    {
      limiters := map[];
      Contents := map[];
      Parts := map[];
    }

    method Insert(key: string, rate: u32, burst: u32)
      requires Valid()
      modifies this
      ensures Valid() && fresh(Repr - old(Repr))
      ensures Contents == old(Contents)[key := NewLimiter(rate, burst)]
    {
      var l := new RateLimiter(rate, burst);
      limiters := limiters[key := l];
      forall other | other in Contents && other != key ensures Holds(other) {
        assert old(Holds(other));
      }
      Adopt(key);
    }
  }
}
