/** What a call can count on, whatever the others do meanwhile: it reserves the
    next slot when undisturbed, and it leaves `rate_limit` exactly when due. */
module RateLimiterProgress {
  import opened Arith
  import opened SlotSchedule
  import opened RateLimiter
  import opened RateLimiterGuarantees

  predicate Concerns(e: Event, c: nat) {
    match e
    case Tick(_) => false
    case Begin => false
    case Load(i, _) => i == c
    case CasSucceed(i) => i == c
    case CasFail(i, _) => i == c
    case CasSpurious(i) => i == c
    case Depart(i) => i == c
    case Wake(i) => i == c
  }

  /** Any run of the clock and the other calls. */
  ghost predicate Others(es: seq<Event>, c: nat) {
    forall i | 0 <= i < |es| :: !Concerns(es[i], c)
  }

  function Elapsed(es: seq<Event>): nat {
    if es == [] then 0
    else Elapsed(es[..|es| - 1]) + if es[|es| - 1].Tick? then es[|es| - 1].d else 0
  }

  lemma OtherStep(gap: nat, s: State, e: Event, c: nat)
    requires c < |s.calls| && !Concerns(e, c)
    ensures var t := Step(gap, s, e);
      c < |t.calls| && t.calls[c] == s.calls[c] && t.now == s.now + if e.Tick? then e.d else 0
  {}

  lemma {:induction false} OthersLeaveAlone(gap: nat, s: State, es: seq<Event>, c: nat)
    requires c < |s.calls| && Others(es, c)
    ensures var t := Exec(gap, s, es);
      c < |t.calls| && t.calls[c] == s.calls[c] && t.now == s.now + Elapsed(es)
    decreases |es|
  {
    hide Step;
    if es != [] {
      var front := es[..|es| - 1];
      assert Others(front, c);
      OthersLeaveAlone(gap, s, front, c);
      OtherStep(gap, Exec(gap, s, front), es[|es| - 1], c);
    }
  }

  lemma GrantStays(gap: nat, s: State, es: seq<Event>, k: nat)
    requires k < |s.grants|
    ensures k < |Exec(gap, s, es).grants| && Exec(gap, s, es).grants[k] == s.grants[k]
  {
    RecordsOnlyGrow(gap, s, es);
    var t := Exec(gap, s, es);
    assert t.grants[k] == t.grants[..|s.grants|][k];
  }

  // ---- Reserving ----

  /** A call that nobody disturbs between its load and its exchange gets the
      later of its clock reading and the bucket's value, and moves the bucket
      one interval past its slot. */
  lemma UndisturbedReserves(gap: nat, first: nat, now: nat, before: seq<Event>)
    requires gap > 0
    ensures var s := Exec(gap, Init(first, now), before);
      var c, m := |s.calls|, |s.grants|;
      var t := Step(gap, Step(gap, Step(gap, s, Begin), Load(c, m)), CasSucceed(c));
      && |s.history| == m + 1 && |t.grants| == m + 1 && |t.calls| == c + 1
      && t.calls[c] == Call(s.now, 0, Reserved(m))
      && t.grants[m] == Grant(c, Max(s.now, s.history[m]))
      && t.history == s.history + [t.grants[m].slot + gap]
  {
    hide Exec;
    ReachableInv(gap, first, now, before);
  }

  // ---- Leaving ----

  /** The call departs, others run, and its spin is checked; then others run
      again, and its nap is checked. */
  function AfterSpin(gap: nat, s: State, c: nat, spin: seq<Event>): State {
    Step(gap, Exec(gap, Step(gap, s, Depart(c)), spin), Wake(c))
  }

  function AfterNap(gap: nat, s: State, c: nat, spin: seq<Event>, nap: seq<Event>): State {
    Step(gap, Exec(gap, AfterSpin(gap, s, c, spin), nap), Wake(c))
  }

  ghost predicate ReservedCall(s: State, c: nat) {
    && c < |s.calls| && s.calls[c].phase.Reserved? && s.calls[c].phase.rank < |s.grants|
    && s.calls[c].snap <= s.now
  }

  lemma ReachableReserved(gap: nat, first: nat, now: nat, before: seq<Event>, c: nat)
    requires gap > 0
    requires var s := Exec(gap, Init(first, now), before); c < |s.calls| && s.calls[c].phase.Reserved?
    ensures ReservedCall(Exec(gap, Init(first, now), before), c)
  {
    var s := Exec(gap, Init(first, now), before);
    ReachableInv(gap, first, now, before);
    assert CallOk(s, c);
  }

  /** Distance from the clock reading to the slot. */
  function Wait(s: State, c: nat): int
    requires c < |s.calls| && s.calls[c].phase.Reserved? && s.calls[c].phase.rank < |s.grants|
  {
    s.grants[s.calls[c].phase.rank].slot - s.calls[c].snap
  }

  lemma DepartEffect(gap: nat, s: State, c: nat)
    requires ReservedCall(s, c)
    ensures var t, rank := Step(gap, s, Depart(c)), s.calls[c].phase.rank;
      && t.grants == s.grants && t.now == s.now && |t.calls| == |s.calls|
      && t.calls[c] == s.calls[c].(phase := if Wait(s, c) <= 0 then Released(rank, s.now) else Spinning(rank, s.now))
  {}

  lemma SpinEffect(gap: nat, s: State, c: nat, spin: seq<Event>)
    requires ReservedCall(s, c) && Others(spin, c) && Wait(s, c) > 0
    ensures var t, rank, due := AfterSpin(gap, s, c, spin), s.calls[c].phase.rank, s.now + Elapsed(spin);
      && c < |t.calls| && rank < |t.grants| && t.grants[rank] == s.grants[rank] && t.now == due
      && t.calls[c] == s.calls[c].(phase :=
           if Elapsed(spin) < (if Wait(s, c) <= 20 then Wait(s, c) else 20) then Spinning(rank, s.now)
           else if Wait(s, c) <= 20 then Released(rank, due)
           else Napping(rank, due + (Wait(s, c) - 20)))
  {
    hide Exec;
    DepartEffect(gap, s, c);
    OthersLeaveAlone(gap, Step(gap, s, Depart(c)), spin, c);
    GrantStays(gap, Step(gap, s, Depart(c)), spin, s.calls[c].phase.rank);
  }

  lemma NapEffect(gap: nat, s: State, c: nat, rank: nat, wakeAt: nat, nap: seq<Event>)
    requires c < |s.calls| && s.calls[c].phase == Napping(rank, wakeAt) && Others(nap, c)
    ensures var t := Step(gap, Exec(gap, s, nap), Wake(c));
      && c < |t.calls|
      && t.calls[c].phase == if s.now + Elapsed(nap) < wakeAt then Napping(rank, wakeAt)
                             else Released(rank, s.now + Elapsed(nap))
  {
    hide Exec;
    OthersLeaveAlone(gap, s, nap, c);
  }

  /** From every reachable state, with any events of the others in between: a
      call whose slot is not ahead of its clock reading leaves at once; one that
      waits up to 20 microseconds leaves at the first wake that long after its
      departure; one that waits longer leaves at the first wake 20 microseconds
      of spin and the remaining nap later.  Before that a wake changes nothing. */
  lemma LeavesWhenDue(gap: nat, first: nat, now: nat, before: seq<Event>, s: State, c: nat,
                      spin: seq<Event>, nap: seq<Event>)
    requires gap > 0 && s == Exec(gap, Init(first, now), before)
    requires c < |s.calls| && s.calls[c].phase.Reserved? && Others(spin, c) && Others(nap, c)
    ensures s.calls[c].phase.rank < |s.grants|
    ensures var rank, wait, d := s.calls[c].phase.rank, Wait(s, c), s.now;
      var departed := Step(gap, s, Depart(c));
      var spun, napped := AfterSpin(gap, s, c, spin), AfterNap(gap, s, c, spin, nap);
      var spinDone, allDone := Elapsed(spin), Elapsed(spin) + Elapsed(nap);
      && c < |departed.calls| && c < |spun.calls| && c < |napped.calls|
      && (wait <= 0 ==> departed.calls[c].phase == Released(rank, d))
      && (0 < wait <= 20 ==>
           spun.calls[c].phase == if spinDone < wait then Spinning(rank, d) else Released(rank, d + spinDone))
      && (wait > 20 && spinDone < 20 ==> spun.calls[c].phase == Spinning(rank, d))
      && (wait > 20 && spinDone >= 20 ==>
           napped.calls[c].phase == if allDone < spinDone + (wait - 20)
                                    then Napping(rank, d + spinDone + (wait - 20))
                                    else Released(rank, d + allDone))
  {
    hide Exec, Step;
    ReachableReserved(gap, first, now, before, c);
    DepartEffect(gap, s, c);
    CallsStay(gap, s, c, spin, nap);
    if Wait(s, c) > 0 {
      SpinEffect(gap, s, c, spin);
      if Wait(s, c) > 20 && Elapsed(spin) >= 20 {
        NapEffect(gap, AfterSpin(gap, s, c, spin), c, s.calls[c].phase.rank,
                  s.now + Elapsed(spin) + (Wait(s, c) - 20), nap);
      }
    }
  }

  lemma CallsStay(gap: nat, s: State, c: nat, spin: seq<Event>, nap: seq<Event>)
    requires c < |s.calls|
    ensures c < |AfterSpin(gap, s, c, spin).calls| && c < |AfterNap(gap, s, c, spin, nap).calls|
  {
    hide Exec, Step;
    StepExtends(gap, s, Depart(c));
    RecordsOnlyGrow(gap, Step(gap, s, Depart(c)), spin);
    StepExtends(gap, Exec(gap, Step(gap, s, Depart(c)), spin), Wake(c));
    RecordsOnlyGrow(gap, AfterSpin(gap, s, c, spin), nap);
    StepExtends(gap, Exec(gap, AfterSpin(gap, s, c, spin), nap), Wake(c));
  }

  /** With its wakes delivered when due, the call leaves exactly its wait after its departure. */
  lemma LeavesOnTime(gap: nat, first: nat, now: nat, before: seq<Event>, s: State, c: nat,
                     spin: seq<Event>, nap: seq<Event>)
    requires gap > 0 && s == Exec(gap, Init(first, now), before)
    requires c < |s.calls| && s.calls[c].phase.Reserved? && Others(spin, c) && Others(nap, c)
    ensures s.calls[c].phase.rank < |s.grants|
    ensures var rank, wait := s.calls[c].phase.rank, Wait(s, c);
      var spun, napped := AfterSpin(gap, s, c, spin), AfterNap(gap, s, c, spin, nap);
      && (0 < wait <= 20 && Elapsed(spin) == wait ==>
           c < |spun.calls| && spun.calls[c].phase == Released(rank, s.now + wait))
      && (wait > 20 && Elapsed(spin) == 20 && Elapsed(nap) == wait - 20 ==>
           c < |napped.calls| && napped.calls[c].phase == Released(rank, s.now + wait))
  {
    hide Exec, Step;
    LeavesWhenDue(gap, first, now, before, s, c, spin, nap);
  }

  // ---- Counting lost races ----

  /** Races call c lost on the way: its non-spurious failures that took place. */
  function Losses(gap: nat, s: State, es: seq<Event>, c: nat): nat {
    if es == [] then 0
    else
      var e := es[|es| - 1];
      Losses(gap, s, es[..|es| - 1], c)
        + if e.CasFail? && e.c == c && Enabled(Exec(gap, s, es[..|es| - 1]), e) then 1 else 0
  }

  lemma StepCounts(gap: nat, s: State, e: Event, c: nat)
    ensures var t := Step(gap, s, e);
      && |s.calls| <= |t.calls|
      && (c < |t.calls| ==>
           t.calls[c].failures == (if c < |s.calls| then s.calls[c].failures else 0)
                                  + if e.CasFail? && e.c == c && Enabled(s, e) then 1 else 0)
  {}

  /** The failures counted in a call are exactly the races it lost. */
  lemma {:induction false} FailuresCounted(gap: nat, first: nat, now: nat, es: seq<Event>, c: nat)
    ensures var s := Exec(gap, Init(first, now), es);
      Losses(gap, Init(first, now), es, c) == if c < |s.calls| then s.calls[c].failures else 0
    decreases |es|
  {
    hide Step;
    if es != [] {
      FailuresCounted(gap, first, now, es[..|es| - 1], c);
      StepCounts(gap, Exec(gap, Init(first, now), es[..|es| - 1]), es[|es| - 1], c);
    }
  }
}
