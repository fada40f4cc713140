/** The lock-free `rate_limit` as a step system.  Any number of calls run at
    once; each reads the clock, loads `next_slot_us`, races for it with a weak
    compare-and-swap and then waits for its slot.  A plain load, and the load a
    failed compare-and-swap makes, may return any value the thread has not yet
    moved past in the atomic's modification order; only a successful
    compare-and-swap is certain to have seen the newest one. */
module RateLimiter {
  import opened Arith
  import opened SlotSchedule

  const SPIN_THRESHOLD_US: nat := 20

  datatype Phase =
    | Snapped
    | Contending(view: nat, expected: nat)
    | Reserved(rank: nat)
    | Spinning(rank: nat, since: nat)
    | Napping(rank: nat, wakeAt: nat)
    | Released(rank: nat, at: nat)
  {
    predicate Settled() { !Snapped? && !Contending? }
  }

  datatype Call = Call(snap: nat, failures: nat, phase: Phase)

  /** One successful compare-and-swap: which call made it and the slot it reserved. */
  datatype Grant = Grant(call: nat, slot: nat)

  /** `history` is the modification order of `next_slot_us`, oldest first. */
  datatype State = State(now: nat, history: seq<nat>, grants: seq<Grant>, calls: seq<Call>)

  datatype Event =
    | Tick(d: nat)
    | Begin
    | Load(c: nat, pos: nat)
    | CasSucceed(c: nat)
    | CasFail(c: nat, pos: nat)
    | CasSpurious(c: nat)
    | Depart(c: nat)
    | Wake(c: nat)

  function Init(first: nat, now: nat): State {
    State(now, [first], [], [])
  }

  function Newest(s: State): nat
    requires s.history != []
  {
    s.history[|s.history| - 1]
  }

  predicate Enabled(s: State, e: Event) {
    match e
    case Tick(_) => true
    case Begin => true
    case Load(c, pos) => c < |s.calls| && s.calls[c].phase.Snapped? && pos < |s.history|
    case CasSucceed(c) =>
      c < |s.calls| && s.calls[c].phase.Contending? && s.history != [] && s.calls[c].phase.expected == Newest(s)
    case CasFail(c, pos) =>
      && c < |s.calls| && s.calls[c].phase.Contending?
      && s.calls[c].phase.view <= pos < |s.history|
      && s.history[pos] != s.calls[c].phase.expected
    case CasSpurious(c) => c < |s.calls| && s.calls[c].phase.Contending?
    case Depart(c) => c < |s.calls| && s.calls[c].phase.Reserved? && s.calls[c].phase.rank < |s.grants|
    case Wake(c) =>
      && c < |s.calls|
      && match s.calls[c].phase
         case Spinning(rank, since) =>
           rank < |s.grants| && s.calls[c].snap <= s.grants[rank].slot
           && s.now >= since + SpinTime(s.grants[rank].slot - s.calls[c].snap)
         case Napping(_, wakeAt) => s.now >= wakeAt
         case _ => false
  }

  /** How long `precise_sleep_us` spins before it either returns or naps. */
  function SpinTime(wait: nat): nat {
    if wait <= SPIN_THRESHOLD_US then wait else SPIN_THRESHOLD_US
  }

  function WithPhase(s: State, c: nat, phase: Phase): State
    requires c < |s.calls|
  {
    s.(calls := s.calls[c := s.calls[c].(phase := phase)])
  }

  /** One step; an event that is not enabled changes nothing. */
  function Step(gap: nat, s: State, e: Event): State {
    if !Enabled(s, e) then s else
    match e
    case Tick(d) => s.(now := s.now + d)
    case Begin => s.(calls := s.calls + [Call(s.now, 0, Snapped)])
    case Load(c, pos) => WithPhase(s, c, Contending(pos, s.history[pos]))
    case CasSucceed(c) =>
      var slot := Max(s.calls[c].snap, s.calls[c].phase.expected);
      WithPhase(s, c, Reserved(|s.grants|)).(history := s.history + [slot + gap], grants := s.grants + [Grant(c, slot)])
    case CasFail(c, pos) =>
      s.(calls := s.calls[c := Call(s.calls[c].snap, s.calls[c].failures + 1, Contending(pos, s.history[pos]))])
    case CasSpurious(_) => s
    case Depart(c) =>
      var rank := s.calls[c].phase.rank;
      if s.grants[rank].slot > s.calls[c].snap
      then WithPhase(s, c, Spinning(rank, s.now))
      else WithPhase(s, c, Released(rank, s.now))
    case Wake(c) =>
      match s.calls[c].phase
      case Spinning(rank, _) =>
        var wait := s.grants[rank].slot - s.calls[c].snap;
        if wait <= SPIN_THRESHOLD_US
        then WithPhase(s, c, Released(rank, s.now))
        else WithPhase(s, c, Napping(rank, s.now + (wait - SPIN_THRESHOLD_US)))
      case Napping(rank, _) => WithPhase(s, c, Released(rank, s.now))
      case _ => s
  }

  /** A whole run: every interleaving is some sequence of events. */
  function Exec(gap: nat, s: State, es: seq<Event>): State {
    if es == [] then s
    else Step(gap, Exec(gap, s, es[..|es| - 1]), es[|es| - 1])
  }

  // ---- Invariant ----

  ghost predicate GrantOk(gap: nat, s: State, k: nat)
    requires k < |s.grants| && |s.history| == |s.grants| + 1
  {
    var g := s.grants[k];
    && g.call < |s.calls|
    && s.calls[g.call].phase.Settled()
    && s.calls[g.call].phase.rank == k
    && g.slot == Max(s.calls[g.call].snap, s.history[k])
    && s.history[k + 1] == g.slot + gap
  }

  ghost predicate CallOk(s: State, i: nat)
    requires i < |s.calls| && |s.history| == |s.grants| + 1
  {
    var c := s.calls[i];
    && c.snap <= s.now
    && match c.phase
       case Snapped => c.failures == 0
       case Contending(view, expected) =>
         view < |s.history| && expected == s.history[view] && c.failures <= view
       case _ =>
         && c.phase.rank < |s.grants|
         && s.grants[c.phase.rank].call == i
         && c.failures <= c.phase.rank
         && WaitOk(s, c)
  }

  /** How far a settled call is on its way to its slot. */
  ghost predicate WaitOk(s: State, c: Call)
    requires c.phase.Settled() && c.phase.rank < |s.grants|
  {
    var slot := s.grants[c.phase.rank].slot;
    match c.phase
    case Spinning(_, since) => slot > c.snap && c.snap <= since <= s.now
    case Napping(_, wakeAt) => slot <= wakeAt
    case Released(_, at) => slot <= at <= s.now
    case _ => true
  }

  ghost predicate Inv(gap: nat, first: nat, s: State) {
    && |s.history| == |s.grants| + 1
    && s.history[0] == first
    && (forall k | 0 <= k < |s.grants| :: GrantOk(gap, s, k))
    && (forall i | 0 <= i < |s.calls| :: CallOk(s, i))
    && |s.grants| == Total(Settled01, s.calls)
    && 2 * Total(SettledFailures, s.calls) <= |s.grants| * (|s.grants| - 1)
  }

  // ---- Sums over calls ----

  function Settled01(c: Call): nat { if c.phase.Settled() then 1 else 0 }
  function SettledFailures(c: Call): nat { if c.phase.Settled() then c.failures else 0 }
  function Failures(c: Call): nat { c.failures }

  function Total(w: Call -> nat, cs: seq<Call>): nat {
    if cs == [] then 0 else Total(w, cs[..|cs| - 1]) + w(cs[|cs| - 1])
  }

  lemma {:induction false} TotalUpdate(w: Call -> nat, cs: seq<Call>, i: nat, c: Call)
    requires i < |cs|
    ensures Total(w, cs[i := c]) == Total(w, cs) - w(cs[i]) + w(c)
    decreases |cs|
  {
    var n := |cs| - 1;
    if i < n {
      assert cs[i := c][..n] == cs[..n][i := c];
      TotalUpdate(w, cs[..n], i, c);
    } else {
      assert cs[i := c][..n] == cs[..n];
    }
  }

  lemma TotalAppend(w: Call -> nat, cs: seq<Call>, c: Call)
    ensures Total(w, cs + [c]) == Total(w, cs) + w(c)
  {
    assert (cs + [c])[..|cs|] == cs;
  }

  // ---- The newest value cannot be mistaken for an old one ----

  lemma {:induction false} HistoryIncreases(gap: nat, first: nat, s: State, i: nat, j: nat)
    requires Inv(gap, first, s) && gap > 0 && i < j < |s.history|
    ensures s.history[i] < s.history[j]
    decreases j
  {
    assert GrantOk(gap, s, j - 1);
    if i < j - 1 {
      HistoryIncreases(gap, first, s, i, j - 1);
    }
  }

  /** No ABA: a compare-and-swap that succeeds on the value compared rests on
      the newest write, so nobody reserved between its load and its success. */
  lemma SuccessSawNewest(gap: nat, first: nat, s: State, c: nat)
    requires Inv(gap, first, s) && gap > 0 && Enabled(s, CasSucceed(c))
    ensures s.calls[c].phase.view == |s.grants|
  {
    var view := s.calls[c].phase.view;
    assert CallOk(s, c);
    if view < |s.grants| {
      HistoryIncreases(gap, first, s, view, |s.grants|);
    }
  }

  /** Each failure that is not spurious was caused by somebody else's success. */
  lemma FailureMovesView(gap: nat, first: nat, s: State, c: nat, pos: nat)
    requires Inv(gap, first, s) && Enabled(s, CasFail(c, pos))
    ensures s.calls[c].phase.view < pos
  {
    assert CallOk(s, c);
  }

  // ---- Preservation ----

  lemma InitInv(gap: nat, first: nat, now: nat)
    ensures Inv(gap, first, Init(first, now))
  {}

  lemma SetCallKeepsSums(gap: nat, s: State, i: nat, c: Call)
    requires i < |s.calls|
    requires c.phase.Settled() == s.calls[i].phase.Settled()
    requires c.phase.Settled() ==> c.failures == s.calls[i].failures
    ensures Total(Settled01, s.calls[i := c]) == Total(Settled01, s.calls)
    ensures Total(SettledFailures, s.calls[i := c]) == Total(SettledFailures, s.calls)
  {
    TotalUpdate(Settled01, s.calls, i, c);
    TotalUpdate(SettledFailures, s.calls, i, c);
  }

  /** A step that rewrites one call and leaves the atomic alone. */
  lemma LocalStepInv(gap: nat, first: nat, s: State, i: nat, c: Call)
    requires Inv(gap, first, s) && i < |s.calls|
    requires c.snap == s.calls[i].snap
    requires c.phase.Settled() == s.calls[i].phase.Settled()
    requires c.phase.Settled() ==> c.failures == s.calls[i].failures && c.phase.rank == s.calls[i].phase.rank
    requires CallOk(s.(calls := s.calls[i := c]), i)
    ensures Inv(gap, first, s.(calls := s.calls[i := c]))
  {
    var t := s.(calls := s.calls[i := c]);
    SetCallKeepsSums(gap, s, i, c);
    forall k | 0 <= k < |t.grants| ensures GrantOk(gap, t, k) {
      assert GrantOk(gap, s, k);
    }
    forall j | 0 <= j < |t.calls| ensures CallOk(t, j) {
      assert CallOk(s, j);
    }
  }

  lemma CasSucceedSums(gap: nat, first: nat, s: State, c: nat)
    requires Inv(gap, first, s) && gap > 0 && Enabled(s, CasSucceed(c))
    ensures var t := Step(gap, s, CasSucceed(c));
      && |t.grants| == Total(Settled01, t.calls)
      && 2 * Total(SettledFailures, t.calls) <= |t.grants| * (|t.grants| - 1)
  {
    var done := Step(gap, s, CasSucceed(c)).calls[c];
    var m := |s.grants|;
    assert CallOk(s, c);
    SuccessSawNewest(gap, first, s, c);
    TotalUpdate(Settled01, s.calls, c, done);
    TotalUpdate(SettledFailures, s.calls, c, done);
    assert (m + 1) * m == m * (m - 1) + 2 * m;
  }

  lemma CasSucceedRecords(gap: nat, first: nat, s: State, c: nat)
    requires Inv(gap, first, s) && Enabled(s, CasSucceed(c))
    requires s.calls[c].phase.view == |s.grants|
    ensures var t := Step(gap, s, CasSucceed(c));
      && (forall k | 0 <= k < |t.grants| :: GrantOk(gap, t, k))
      && (forall i | 0 <= i < |t.calls| :: CallOk(t, i))
  {
    var t := Step(gap, s, CasSucceed(c));
    assert CallOk(s, c);
    forall k | 0 <= k < |t.grants| ensures GrantOk(gap, t, k) {
      if k < |s.grants| {
        assert GrantOk(gap, s, k);
      }
    }
    forall j | 0 <= j < |t.calls| ensures CallOk(t, j) {
      assert CallOk(s, j);
    }
  }

  lemma CasSucceedInv(gap: nat, first: nat, s: State, c: nat)
    requires Inv(gap, first, s) && gap > 0 && Enabled(s, CasSucceed(c))
    ensures Inv(gap, first, Step(gap, s, CasSucceed(c)))
  {
    SuccessSawNewest(gap, first, s, c);
    CasSucceedSums(gap, first, s, c);
    CasSucceedRecords(gap, first, s, c);
  }

  lemma BeginInv(gap: nat, first: nat, s: State)
    requires Inv(gap, first, s)
    ensures Inv(gap, first, Step(gap, s, Begin))
  {
    var t := Step(gap, s, Begin);
    TotalAppend(Settled01, s.calls, t.calls[|s.calls|]);
    TotalAppend(SettledFailures, s.calls, t.calls[|s.calls|]);
    forall k | 0 <= k < |t.grants| ensures GrantOk(gap, t, k) {
      assert GrantOk(gap, s, k);
    }
    forall j | 0 <= j < |t.calls| ensures CallOk(t, j) {
      if j < |s.calls| { assert CallOk(s, j); }
    }
  }

  lemma TickInv(gap: nat, first: nat, s: State, d: nat)
    requires Inv(gap, first, s)
    ensures Inv(gap, first, Step(gap, s, Tick(d)))
  {
    var t := Step(gap, s, Tick(d));
    hide Total;
    assert forall k | 0 <= k < |t.grants| :: GrantOk(gap, s, k) ==> GrantOk(gap, t, k);
    assert forall j | 0 <= j < |t.calls| :: CallOk(s, j) ==> CallOk(t, j);
  }

  lemma DepartInv(gap: nat, first: nat, s: State, c: nat)
    requires Inv(gap, first, s) && Enabled(s, Depart(c))
    ensures Inv(gap, first, Step(gap, s, Depart(c)))
  {
    assert CallOk(s, c);
    assert GrantOk(gap, s, s.calls[c].phase.rank);
    LocalStepInv(gap, first, s, c, Step(gap, s, Depart(c)).calls[c]);
  }

  lemma WakeInv(gap: nat, first: nat, s: State, c: nat)
    requires Inv(gap, first, s) && Enabled(s, Wake(c))
    ensures Inv(gap, first, Step(gap, s, Wake(c)))
  {
    assert CallOk(s, c);
    LocalStepInv(gap, first, s, c, Step(gap, s, Wake(c)).calls[c]);
  }

  lemma LoadInv(gap: nat, first: nat, s: State, e: Event)
    requires Inv(gap, first, s) && (e.Load? || e.CasFail?) && Enabled(s, e)
    ensures Inv(gap, first, Step(gap, s, e))
  {
    assert CallOk(s, e.c);
    LocalStepInv(gap, first, s, e.c, Step(gap, s, e).calls[e.c]);
  }

  lemma StepInv(gap: nat, first: nat, s: State, e: Event)
    requires Inv(gap, first, s) && gap > 0
    ensures Inv(gap, first, Step(gap, s, e))
  {
    if Enabled(s, e) {
      hide Inv;
      match e
      case Tick(d) => TickInv(gap, first, s, d);
      case Begin => BeginInv(gap, first, s);
      case CasSucceed(c) => CasSucceedInv(gap, first, s, c);
      case CasSpurious(_) =>
      case Load(_, _) => LoadInv(gap, first, s, e);
      case CasFail(_, _) => LoadInv(gap, first, s, e);
      case Depart(c) => DepartInv(gap, first, s, c);
      case Wake(c) => WakeInv(gap, first, s, c);
    }
  }

  lemma {:induction false} ExecInv(gap: nat, first: nat, s: State, es: seq<Event>)
    requires Inv(gap, first, s) && gap > 0
    ensures Inv(gap, first, Exec(gap, s, es))
    decreases |es|
  {
    if es != [] {
      ExecInv(gap, first, s, es[..|es| - 1]);
      StepInv(gap, first, Exec(gap, s, es[..|es| - 1]), es[|es| - 1]);
    }
  }
}
