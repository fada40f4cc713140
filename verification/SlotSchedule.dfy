/** The schedule a token bucket promises, stated without threads: callers are
    served one after the other, each gets the first free slot that is not in
    its past, and the next slot lies one interval later.  RateLimiter.dfy shows
    that the lock-free code produces exactly such schedules. */
module SlotSchedule {
  import opened Arith

  const MICROS_PER_SECOND: nat := 1_000_000

  /** The truncating division of `rate_limit`. */
  function Interval(rateRps: nat): nat
    requires rateRps > 0
  {
    MICROS_PER_SECOND / rateRps
  }

  /** Value of `next_slot_us` once the callers with clock readings `snaps`
      were served in that order. */
  function NextSlot(first: nat, gap: nat, snaps: seq<nat>): nat {
    if snaps == [] then first
    else Max(snaps[|snaps| - 1], NextSlot(first, gap, snaps[..|snaps| - 1])) + gap
  }

  /** Slot of the k-th caller. */
  function Slot(first: nat, gap: nat, snaps: seq<nat>, k: nat): nat
    requires k < |snaps|
  {
    Max(snaps[k], NextSlot(first, gap, snaps[..k]))
  }

  lemma NextSlotStep(first: nat, gap: nat, snaps: seq<nat>, k: nat)
    requires k < |snaps|
    ensures NextSlot(first, gap, snaps[..k + 1]) == Slot(first, gap, snaps, k) + gap
  {
    assert snaps[..k + 1][..k] == snaps[..k];
  }

  lemma NextSlotConcat(first: nat, gap: nat, a: seq<nat>, b: seq<nat>)
    ensures NextSlot(first, gap, a + b) == NextSlot(NextSlot(first, gap, a), gap, b)
    decreases |b|
  {
    if b == [] {
      assert a + b == a;
    } else {
      var front := b[..|b| - 1];
      assert (a + b)[..|a + b| - 1] == a + front;
      NextSlotConcat(first, gap, a, front);
    }
  }

  /** The slot of a caller is the first moment that is neither before its clock
      reading nor less than one interval after the slot before it. */
  lemma SlotIsFirstFree(first: nat, gap: nat, snaps: seq<nat>, k: nat)
    requires k < |snaps|
    ensures var slot := Slot(first, gap, snaps, k);
      var free := if k == 0 then first else Slot(first, gap, snaps, k - 1) + gap;
      slot >= snaps[k] && slot >= free && (slot == snaps[k] || slot == free)
  {
    if k > 0 { NextSlotStep(first, gap, snaps, k - 1); }
  }

  /** Two slots are as many intervals apart as there are reservations between them. */
  lemma {:induction false} Spacing(first: nat, gap: nat, snaps: seq<nat>, i: nat, j: nat)
    requires i <= j < |snaps|
    ensures Slot(first, gap, snaps, j) >= Slot(first, gap, snaps, i) + (j - i) * gap
    decreases j
  {
    if i < j {
      Spacing(first, gap, snaps, i, j - 1);
      NextSlotStep(first, gap, snaps, j - 1);
      assert (j - i) * gap == (j - 1 - i) * gap + gap;
    }
  }

  /** A slot is never later than the demand before it explains: nothing is
      scheduled past the latest clock reading plus one interval a reservation. */
  lemma {:induction false} WorkConserving(first: nat, gap: nat, snaps: seq<nat>, latest: nat)
    requires first <= latest
    requires forall k | 0 <= k < |snaps| :: snaps[k] <= latest
    ensures NextSlot(first, gap, snaps) <= latest + |snaps| * gap
    decreases |snaps|
  {
    if snaps != [] {
      var n := |snaps| - 1;
      WorkConserving(first, gap, snaps[..n], latest);
      assert n * gap + gap == |snaps| * gap;
    }
  }

  /** The callers whose slot lies in [from, from + width). */
  ghost function SlotsWithin(first: nat, gap: nat, snaps: seq<nat>, from: nat, width: nat): set<nat> {
    set k: nat | k < |snaps| && from <= Slot(first, gap, snaps, k) < from + width
  }

  /** In a half-open window there is room for ceil(width / gap) slots at most. */
  lemma WindowBound(first: nat, gap: nat, snaps: seq<nat>, from: nat, width: nat)
    requires gap > 0
    ensures |SlotsWithin(first, gap, snaps, from, width)| <= CeilDiv(width, gap)
  {
    var s := SlotsWithin(first, gap, snaps, from, width);
    if s != {} {
      var i := LeastElement(s);
      var room := CeilDiv(width, gap);
      forall k | k in s ensures i <= k < i + room {
        Spacing(first, gap, snaps, i, k);
        MultipleBelow(k - i, gap, width);
      }
      CardinalityOfRange(s, i, i + room);
    }
  }

  /** What the truncated interval costs.  For rates up to 1000 per second a
      one-second window holds `rateRps` slots when the rate divides a million
      and one more when it does not. */
  lemma PerSecondRoom(rateRps: nat)
    requires 0 < rateRps <= 1000
    ensures Interval(rateRps) > 0
    ensures CeilDiv(MICROS_PER_SECOND, Interval(rateRps))
         == if MICROS_PER_SECOND % rateRps == 0 then rateRps else rateRps + 1
  {
    IntervalLong(rateRps);
    var m, q, rest := MICROS_PER_SECOND, Interval(rateRps), MICROS_PER_SECOND % rateRps;
    assert m == q * rateRps + rest;
    if rest == 0 {
      assert (rateRps - 1) * q == q * rateRps - q;
      CeilDivUnique(m, q, rateRps);
    } else {
      assert (rateRps + 1) * q == q * rateRps + q;
      CeilDivUnique(m, q, rateRps + 1);
    }
  }

  lemma IntervalLong(rateRps: nat)
    requires 0 < rateRps <= 1000
    ensures Interval(rateRps) >= rateRps
  {
    var q := Interval(rateRps);
    MulOrder(rateRps, 1000, rateRps);
    assert MICROS_PER_SECOND < (q + 1) * rateRps by {
      assert MICROS_PER_SECOND == q * rateRps + MICROS_PER_SECOND % rateRps;
    }
    MulOrder(if q < rateRps then q + 1 else rateRps, rateRps, rateRps);
  }
}
