/** One caller's view of `rate_limit`: the compare-and-swap loop on a real
    field, with everybody else's reservations arriving between its load and
    its attempts. */
module TokenBucket {
  import opened Arith
  import opened SlotSchedule

  /** What happens to the bucket just before one attempt: other callers (given
      by their clock readings) reserve, and the attempt may fail spuriously. */
  datatype Interference = Interference(rivals: seq<nat>, spurious: bool)

  /** The rivals that reserve just before attempt k; none once `env` is used up. */
  function Before(env: seq<Interference>, k: nat): Interference {
    if k < |env| then env[k] else Interference([], false)
  }

  /** Clock readings of all rivals that reserved before the n-th attempt ended. */
  function Rivals(env: seq<Interference>, n: nat): seq<nat> {
    if n == 0 then [] else Rivals(env, n - 1) + Before(env, n - 1).rivals
  }

  /** Does anything come between the caller's latest load and its attempt k, or make that attempt fail? */
  predicate Disturbed(env: seq<Interference>, k: nat) {
    Before(env, k).rivals != [] || Before(env, k).spurious
  }

  /** Every reservation moves the bucket, so a rival cannot go unnoticed. */
  lemma {:induction false} NextSlotAdvances(first: nat, gap: nat, snaps: seq<nat>)
    ensures NextSlot(first, gap, snaps) >= first && (snaps == [] ==> NextSlot(first, gap, snaps) == first)
    ensures gap > 0 && snaps != [] ==> NextSlot(first, gap, snaps) > first
    decreases |snaps|
  {
    if snaps != [] {
      NextSlotAdvances(first, gap, snaps[..|snaps| - 1]);
    }
  }

  /** A caller served behind `snaps`. */
  lemma ServedLast(first: nat, gap: nat, snaps: seq<nat>, snapshot: nat)
    ensures Slot(first, gap, snaps + [snapshot], |snaps|) == Max(snapshot, NextSlot(first, gap, snaps))
    ensures NextSlot(first, gap, snaps + [snapshot]) == Max(snapshot, NextSlot(first, gap, snaps)) + gap
  {
    assert (snaps + [snapshot])[..|snaps|] == snaps;
  }

  class Bucket {
    var nextSlotUs: nat
    const rateRps: nat

    constructor (rateRps: nat)
      requires rateRps > 0
      ensures nextSlotUs == 0 && this.rateRps == rateRps
    {
      this.nextSlotUs := 0;
      this.rateRps := rateRps;
    }

    /** Stores `desired` only over `expected`; reports the value it found. */
    method CompareExchangeWeak(expected: nat, desired: nat, spurious: bool) returns (ok: bool, found: nat)
      modifies this`nextSlotUs
      ensures found == old(nextSlotUs)
      ensures ok == (!spurious && found == expected)
      ensures nextSlotUs == if ok then desired else found
    {
      found := nextSlotUs;
      ok := !spurious && found == expected;
      if ok {
        nextSlotUs := desired;
      }
    }

    /** The other callers' reservations, one after the other. */
    method Serve(rivals: seq<nat>)
      requires rateRps > 0
      modifies this`nextSlotUs
      ensures nextSlotUs == NextSlot(old(nextSlotUs), Interval(rateRps), rivals)
    {
      for i := 0 to |rivals|
        invariant nextSlotUs == NextSlot(old(nextSlotUs), Interval(rateRps), rivals[..i])
      {
        NextSlotStep(old(nextSlotUs), Interval(rateRps), rivals, i);
        nextSlotUs := Max(rivals[i], nextSlotUs) + Interval(rateRps);
      }
      assert rivals[..|rivals|] == rivals;
    }

    /** The caller is served exactly as if it had queued behind the rivals that
        got in before its last attempt.  It makes one attempt after another
        until the first undisturbed one, and it waits for exactly the distance
        from its clock reading to its slot. */
    method RateLimit(snapshot: nat, env: seq<Interference>) returns (slot: nat, waitUs: nat, attempts: nat)
      requires rateRps > 0
      modifies this`nextSlotUs
      ensures 1 <= attempts <= |env| + 1
      ensures forall k | 0 <= k < attempts - 1 :: Disturbed(env, k)
      ensures Interval(rateRps) > 0 ==> !Disturbed(env, attempts - 1)
      ensures var before := Rivals(env, attempts);
        && slot == Slot(old(nextSlotUs), Interval(rateRps), before + [snapshot], |before|)
        && nextSlotUs == NextSlot(old(nextSlotUs), Interval(rateRps), before + [snapshot])
      ensures slot >= snapshot && waitUs == slot - snapshot
    {
      hide NextSlot, Interval;
      ghost var first, gap := nextSlotUs, Interval(rateRps);
      var previous := nextSlotUs;
      attempts := 0;
      NextSlotAdvances(first, gap, []);
      while true
        invariant attempts <= |env|
        invariant forall k | 0 <= k < attempts :: Disturbed(env, k)
        invariant previous == nextSlotUs == NextSlot(first, gap, Rivals(env, attempts))
        decreases |env| - attempts
      {
        var here := Before(env, attempts);
        ghost var seen := Rivals(env, attempts + 1);
        Serve(here.rivals);
        NextSlotAdvances(previous, gap, here.rivals);
        NextSlotConcat(first, gap, Rivals(env, attempts), here.rivals);
        var candidate := Max(snapshot, previous);
        var ok, found := CompareExchangeWeak(previous, candidate + Interval(rateRps), here.spurious);
        attempts := attempts + 1;
        if ok {
          slot := candidate;
          ServedLast(first, gap, seen, snapshot);
          break;
        }
        previous := found;
      }
      waitUs := if slot > snapshot then slot - snapshot else 0;
    }
  }
}
