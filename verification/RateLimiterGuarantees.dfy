/** What the rate limiter guarantees, over every run of RateLimiter's step
    system: any number of calls, any interleaving, any stale load and any
    number of spurious failures. */
module RateLimiterGuarantees {
  import opened Arith
  import opened SlotSchedule
  import opened RateLimiter

  lemma ReachableInv(gap: nat, first: nat, now: nat, es: seq<Event>)
    requires gap > 0
    ensures Inv(gap, first, Exec(gap, Init(first, now), es))
  {
    InitInv(gap, first, now);
    ExecInv(gap, first, Init(first, now), es);
  }

  ghost predicate RanksName(s: State) {
    forall k | 0 <= k < |s.grants| :: s.grants[k].call < |s.calls|
  }

  /** Clock readings of the granted calls, in compare-and-swap order. */
  ghost function Snaps(s: State): seq<nat>
    requires RanksName(s)
  {
    seq(|s.grants|, k requires 0 <= k < |s.grants| => s.calls[s.grants[k].call].snap)
  }

  lemma InvNames(gap: nat, first: nat, s: State)
    requires Inv(gap, first, s)
    ensures RanksName(s)
  {
    forall k | 0 <= k < |s.grants| ensures s.grants[k].call < |s.calls| {
      assert GrantOk(gap, s, k);
    }
  }

  // ---- Refinement of the sequential schedule ----

  lemma {:induction false} HistoryIsSchedule(gap: nat, first: nat, s: State, k: nat)
    requires Inv(gap, first, s) && RanksName(s) && k <= |s.grants|
    ensures s.history[k] == NextSlot(first, gap, Snaps(s)[..k])
    decreases k
  {
    if k > 0 {
      HistoryIsSchedule(gap, first, s, k - 1);
      assert GrantOk(gap, s, k - 1);
      NextSlotStep(first, gap, Snaps(s), k - 1);
    }
  }

  lemma InvFollowsSchedule(gap: nat, first: nat, s: State)
    requires Inv(gap, first, s)
    ensures RanksName(s)
    ensures forall k | 0 <= k < |s.grants| :: s.grants[k].slot == Slot(first, gap, Snaps(s), k)
  {
    InvNames(gap, first, s);
    forall k | 0 <= k < |s.grants| ensures s.grants[k].slot == Slot(first, gap, Snaps(s), k) {
      assert GrantOk(gap, s, k);
      HistoryIsSchedule(gap, first, s, k);
    }
  }

  /** Linearisation: in compare-and-swap order the calls receive exactly the
      slots of the one-at-a-time schedule. */
  lemma GrantsFollowSchedule(gap: nat, first: nat, now: nat, es: seq<Event>)
    requires gap > 0
    ensures var s := Exec(gap, Init(first, now), es);
      && RanksName(s)
      && (forall k | 0 <= k < |s.grants| :: s.grants[k].slot == Slot(first, gap, Snaps(s), k))
  {
    ReachableInv(gap, first, now, es);
    InvFollowsSchedule(gap, first, Exec(gap, Init(first, now), es));
  }

  // ---- Spacing and rate ----

  lemma InvSpaced(gap: nat, first: nat, s: State, i: nat, j: nat)
    requires Inv(gap, first, s) && i < j < |s.grants|
    ensures s.grants[j].slot >= s.grants[i].slot + (j - i) * gap
  {
    InvFollowsSchedule(gap, first, s);
    Spacing(first, gap, Snaps(s), i, j);
  }

  /** Slots come out in order, at least one interval apart for every reservation between them. */
  lemma SlotsSpaced(gap: nat, first: nat, now: nat, es: seq<Event>, i: nat, j: nat)
    requires gap > 0
    requires i < j < |Exec(gap, Init(first, now), es).grants|
    ensures var g := Exec(gap, Init(first, now), es).grants;
      g[j].slot >= g[i].slot + (j - i) * gap
  {
    ReachableInv(gap, first, now, es);
    InvSpaced(gap, first, Exec(gap, Init(first, now), es), i, j);
  }

  ghost function GrantsWithin(s: State, from: nat, width: nat): set<nat> {
    set k: nat | k < |s.grants| && from <= s.grants[k].slot < from + width
  }

  lemma GrantsPerWindow(gap: nat, first: nat, now: nat, es: seq<Event>, from: nat, width: nat)
    requires gap > 0
    ensures |GrantsWithin(Exec(gap, Init(first, now), es), from, width)| <= CeilDiv(width, gap)
  {
    var s := Exec(gap, Init(first, now), es);
    GrantsFollowSchedule(gap, first, now, es);
    assert GrantsWithin(s, from, width) == SlotsWithin(first, gap, Snaps(s), from, width);
    WindowBound(first, gap, Snaps(s), from, width);
  }

  /** A bucket configured for `rateRps` (up to 1000) never puts more than
      `rateRps + 1` slots into one second, and not more than `rateRps` when
      the rate divides a million. */
  lemma GrantsPerSecond(rateRps: nat, first: nat, now: nat, es: seq<Event>, from: nat)
    requires 0 < rateRps <= 1000
    ensures |GrantsWithin(Exec(Interval(rateRps), Init(first, now), es), from, MICROS_PER_SECOND)|
         <= if MICROS_PER_SECOND % rateRps == 0 then rateRps else rateRps + 1
  {
    PerSecondRoom(rateRps);
    GrantsPerWindow(Interval(rateRps), first, now, es, from, MICROS_PER_SECOND);
  }

  datatype RestClass = Trade | OrderQuery | Meta

  function ConfiguredRate(c: RestClass): nat {
    match c case Trade => 12 case OrderQuery => 3 case Meta => 5
  }

  /** The configured buckets: orders and order queries may exceed their nominal
      rate by one request in a second, the META bucket never does. */
  lemma ConfiguredPerSecond(c: RestClass, first: nat, now: nat, es: seq<Event>, from: nat)
    ensures |GrantsWithin(Exec(Interval(ConfiguredRate(c)), Init(first, now), es), from, MICROS_PER_SECOND)|
         <= match c case Trade => 13 case OrderQuery => 4 case Meta => 5
  {
    GrantsPerSecond(ConfiguredRate(c), first, now, es, from);
  }

  // ---- Nobody is let through early ----

  ghost function ReleasedBy(s: State, t: nat): set<nat> {
    set i: nat | i < |s.calls| && s.calls[i].phase.Released? && s.calls[i].phase.at <= t
  }

  /** A call that has left `rate_limit` left it at or after its slot. */
  lemma NoEarlyRelease(gap: nat, first: nat, now: nat, es: seq<Event>, i: nat)
    requires gap > 0
    requires var s := Exec(gap, Init(first, now), es); i < |s.calls| && s.calls[i].phase.Released?
    ensures var s := Exec(gap, Init(first, now), es);
      var p := s.calls[i].phase;
      && p.rank < |s.grants| && s.grants[p.rank].call == i
      && s.calls[i].snap <= s.grants[p.rank].slot <= p.at <= s.now
  {
    ReachableInv(gap, first, now, es);
    var s := Exec(gap, Init(first, now), es);
    assert CallOk(s, i);
    assert GrantOk(gap, s, s.calls[i].phase.rank);
  }

  lemma {:induction false} InjectionCardinality(a: set<nat>, b: set<nat>, f: nat -> nat)
    requires forall x | x in a :: f(x) in b
    requires forall x, y | x in a && y in a && f(x) == f(y) :: x == y
    ensures |a| <= |b|
    decreases a
  {
    if a != {} {
      var x :| x in a;
      InjectionCardinality(a - {x}, b - {f(x)}, f);
    }
  }

  ghost function Below(n: nat): (s: set<nat>)
    ensures |s| == n && forall k: nat :: k in s <==> k < n
  {
    if n == 0 then {} else Below(n - 1) + {n - 1}
  }

  ghost function RankOf(s: State, i: nat): nat {
    if i < |s.calls| && s.calls[i].phase.Settled() then s.calls[i].phase.rank else 0
  }

  /** By time t at most floor((t - t0) / interval) + 1 calls have been let
      through, t0 being the first slot handed out. */
  lemma ReleaseRate(gap: nat, first: nat, now: nat, es: seq<Event>, t: nat, s: State)
    requires gap > 0 && s == Exec(gap, Init(first, now), es)
    requires |s.grants| > 0 && t >= s.grants[0].slot
    ensures |ReleasedBy(s, t)| <= (t - s.grants[0].slot) / gap + 1
  {
    ReachableInv(gap, first, now, es);
    var room := (t - s.grants[0].slot) / gap + 1;
    forall i | i in ReleasedBy(s, t)
      ensures RankOf(s, i) in Below(room) && RankOf(s, i) < |s.grants| && s.grants[RankOf(s, i)].call == i
    {
      ReleasedRank(gap, first, s, t, i);
    }
    hide Inv, Exec;
    InjectionCardinality(ReleasedBy(s, t), Below(room), i => RankOf(s, i));
  }

  lemma ReleasedRank(gap: nat, first: nat, s: State, t: nat, i: nat)
    requires gap > 0 && Inv(gap, first, s) && i in ReleasedBy(s, t) && |s.grants| > 0 && t >= s.grants[0].slot
    ensures RankOf(s, i) < |s.grants| && s.grants[RankOf(s, i)].call == i
    ensures RankOf(s, i) < (t - s.grants[0].slot) / gap + 1
  {
    assert CallOk(s, i);
    var k := RankOf(s, i);
    if k > 0 {
      InvSpaced(gap, first, s, 0, k);
      QuotientAtLeast(t - s.grants[0].slot, k, gap);
    }
  }

  lemma QuotientAtLeast(x: nat, k: nat, gap: nat)
    requires gap > 0 && k * gap <= x
    ensures k <= x / gap
  {
    assert x == (x / gap) * gap + x % gap;
    MulOrder(if k <= x / gap then k else x / gap + 1, k, gap);
  }

  // ---- Progress ----

  lemma {:induction false} PendingBound(cs: seq<Call>, m: nat)
    requires forall i | 0 <= i < |cs| :: !cs[i].phase.Settled() ==> cs[i].failures <= m
    ensures Total(Settled01, cs) <= |cs|
    ensures Total(Failures, cs) <= Total(SettledFailures, cs) + (|cs| - Total(Settled01, cs)) * m
    decreases |cs|
  {
    if cs != [] {
      var front := cs[..|cs| - 1];
      PendingBound(front, m);
      var pending := |front| - Total(Settled01, front);
      assert (pending + 1) * m == pending * m + m;
    }
  }

  /** N calls, finished or not, lose the race at most N(N-1)/2 times in all
      (spurious failures aside, which nothing bounds). */
  lemma ContentionBound(gap: nat, first: nat, now: nat, es: seq<Event>)
    requires gap > 0
    ensures var cs := Exec(gap, Init(first, now), es).calls;
      2 * Total(Failures, cs) <= |cs| * (|cs| - 1)
  {
    hide Inv;
    ReachableInv(gap, first, now, es);
    FewFailures(gap, first, Exec(gap, Init(first, now), es));
  }

  lemma FewFailures(gap: nat, first: nat, s: State)
    requires Inv(gap, first, s)
    ensures 2 * Total(Failures, s.calls) <= |s.calls| * (|s.calls| - 1)
  {
    hide GrantOk, Total;
    var n, m := |s.calls|, |s.grants|;
    forall i | 0 <= i < n ensures !s.calls[i].phase.Settled() ==> s.calls[i].failures <= m {
      assert CallOk(s, i);
    }
    PendingBound(s.calls, m);
    TriangleSplit(m, n - m);
  }

  lemma TriangleSplit(m: nat, p: nat)
    ensures m * (m - 1) + 2 * (p * m) <= (m + p) * (m + p - 1)
  {
    assert (m + p) * (m + p - 1) == m * (m - 1) + 2 * (p * m) + p * (p - 1);
    assert p * (p - 1) >= 0;
  }

  /** Left to itself, a contending call reserves within two attempts. */
  lemma SoloCompletes(gap: nat, first: nat, now: nat, es: seq<Event>, c: nat)
    requires gap > 0
    requires var s := Exec(gap, Init(first, now), es); c < |s.calls| && s.calls[c].phase.Contending?
    ensures var s := Exec(gap, Init(first, now), es);
      var t := Step(gap, Step(gap, s, CasFail(c, |s.grants|)), CasSucceed(c));
      c < |t.calls| && t.calls[c].phase == Reserved(|s.grants|)
  {
    hide Inv, Exec;
    ReachableInv(gap, first, now, es);
    SoloAttempts(gap, first, Exec(gap, Init(first, now), es), c);
  }

  lemma SoloAttempts(gap: nat, first: nat, s: State, c: nat)
    requires Inv(gap, first, s) && c < |s.calls| && s.calls[c].phase.Contending?
    ensures var t := Step(gap, Step(gap, s, CasFail(c, |s.grants|)), CasSucceed(c));
      c < |t.calls| && t.calls[c].phase == Reserved(|s.grants|)
  {
    hide GrantOk, Total;
    assert CallOk(s, c);
    assert Enabled(Step(gap, s, CasFail(c, |s.grants|)), CasSucceed(c));
  }

  // ---- Later runs ----

  ghost predicate Extends(s: State, t: State) {
    && |s.history| <= |t.history| && t.history[..|s.history|] == s.history
    && |s.grants| <= |t.grants| && t.grants[..|s.grants|] == s.grants
    && |s.calls| <= |t.calls|
    && forall i | 0 <= i < |s.calls| :: s.calls[i].snap == t.calls[i].snap
  }

  lemma StepExtends(gap: nat, s: State, e: Event)
    ensures Extends(s, Step(gap, s, e))
  {}

  /** Neither the atomic's past, nor a grant, nor a clock reading is ever revised. */
  lemma {:induction false} RecordsOnlyGrow(gap: nat, s: State, es: seq<Event>)
    ensures Extends(s, Exec(gap, s, es))
    decreases |es|
  {
    if es != [] {
      hide Step;
      var front := es[..|es| - 1];
      RecordsOnlyGrow(gap, s, front);
      StepExtends(gap, Exec(gap, s, front), es[|es| - 1]);
      ExtendsTransitive(s, Exec(gap, s, front), Exec(gap, s, es));
    }
  }

  lemma ExtendsTransitive(s: State, t: State, u: State)
    requires Extends(s, t) && Extends(t, u)
    ensures Extends(s, u)
  {
    assert u.history[..|s.history|] == u.history[..|t.history|][..|s.history|];
    assert u.grants[..|s.grants|] == u.grants[..|t.grants|][..|s.grants|];
  }

  lemma ExecConcat(gap: nat, s: State, a: seq<Event>, b: seq<Event>)
    ensures Exec(gap, s, a + b) == Exec(gap, Exec(gap, s, a), b)
    decreases |b|
  {
    if b == [] {
      assert a + b == a;
    } else {
      assert (a + b)[..|a + b| - 1] == a + b[..|b| - 1];
      ExecConcat(gap, s, a, b[..|b| - 1]);
    }
  }

  /** Work conservation: if everything known so far, and every clock reading
      granted afterwards, is no later than `latest`, then k further grants
      push the bucket at most k intervals past `latest`. */
  lemma BacklogBound(gap: nat, first: nat, now: nat, before: seq<Event>, after: seq<Event>,
                     latest: nat, s: State, t: State)
    requires gap > 0 && s == Exec(gap, Init(first, now), before) && t == Exec(gap, s, after)
    requires s.history != [] && Newest(s) <= latest
    requires RanksName(t) && forall k | |s.grants| <= k < |t.grants| :: t.calls[t.grants[k].call].snap <= latest
    ensures |s.grants| <= |t.grants| && t.history != []
    ensures Newest(t) <= latest + (|t.grants| - |s.grants|) * gap
  {
    hide Inv, Exec, Extends;
    ReachableInv(gap, first, now, before);
    ExecInv(gap, first, s, after);
    RecordsOnlyGrow(gap, s, after);
    KeepsNewest(gap, first, s, t);
    InvBacklog(gap, first, t, |s.grants|, latest);
  }

  lemma KeepsNewest(gap: nat, first: nat, s: State, t: State)
    requires Inv(gap, first, s) && Inv(gap, first, t) && Extends(s, t)
    ensures |s.grants| <= |t.grants| && t.history[|s.grants|] == Newest(s)
  {
    assert t.history[|s.grants|] == t.history[..|s.history|][|s.grants|];
  }

  lemma InvBacklog(gap: nat, first: nat, t: State, m: nat, latest: nat)
    requires Inv(gap, first, t) && RanksName(t) && m <= |t.grants| && t.history[m] <= latest
    requires forall k | m <= k < |t.grants| :: t.calls[t.grants[k].call].snap <= latest
    ensures Newest(t) <= latest + (|t.grants| - m) * gap
  {
    hide GrantOk, CallOk, Total, NextSlot;
    HistoryIsSchedule(gap, first, t, m);
    HistoryIsSchedule(gap, first, t, |t.grants|);
    ScheduleBacklog(first, gap, Snaps(t), m, latest);
    assert Snaps(t)[..|t.grants|] == Snaps(t);
  }

  lemma ScheduleBacklog(first: nat, gap: nat, snaps: seq<nat>, m: nat, latest: nat)
    requires m <= |snaps| && NextSlot(first, gap, snaps[..m]) <= latest
    requires forall k | m <= k < |snaps| :: snaps[k] <= latest
    ensures NextSlot(first, gap, snaps) <= latest + (|snaps| - m) * gap
  {
    hide NextSlot;
    assert snaps == snaps[..m] + snaps[m..];
    NextSlotConcat(first, gap, snaps[..m], snaps[m..]);
    WorkConserving(NextSlot(first, gap, snaps[..m]), gap, snaps[m..], latest);
  }

  /** Real-time order: a call that begins after another one has reserved gets a later slot. */
  lemma LaterCallLaterSlot(gap: nat, first: nat, now: nat, before: seq<Event>, after: seq<Event>,
                           s: State, t: State, i: nat, j: nat)
    requires gap > 0 && s == Exec(gap, Init(first, now), before) && t == Exec(gap, s, after)
    requires i < |s.calls| && s.calls[i].phase.Settled()
    requires |s.calls| <= j < |t.calls| && t.calls[j].phase.Settled()
    ensures s.calls[i].phase.rank < t.calls[j].phase.rank < |t.grants|
    ensures t.grants[t.calls[j].phase.rank].slot >= t.grants[s.calls[i].phase.rank].slot + gap
  {
    hide Inv, Exec, Extends;
    ReachableInv(gap, first, now, before);
    ExecInv(gap, first, s, after);
    RecordsOnlyGrow(gap, s, after);
    LaterRank(gap, first, s, t, i, j);
    var a, b := s.calls[i].phase.rank, t.calls[j].phase.rank;
    InvSpaced(gap, first, t, a, b);
    MulOrder(1, b - a, gap);
  }

  lemma LaterRank(gap: nat, first: nat, s: State, t: State, i: nat, j: nat)
    requires Inv(gap, first, s) && Inv(gap, first, t)
    requires Extends(s, t)
    requires i < |s.calls| <= j < |t.calls|
    requires s.calls[i].phase.Settled() && t.calls[j].phase.Settled()
    ensures s.calls[i].phase.rank < |s.grants| <= t.calls[j].phase.rank < |t.grants|
  {
    InvNames(gap, first, s);
    assert CallOk(s, i) && CallOk(t, j);
    forall k | 0 <= k < |s.grants| ensures t.grants[k] == s.grants[k] {
      assert t.grants[..|s.grants|][k] == s.grants[k];
    }
  }

  // ---- The bound is attained ----

  /** n calls that begin at the same instant and reserve one after the other. */
  function Burst(n: nat): seq<Event> {
    if n == 0 then []
    else Burst(n - 1) + [Begin, Load(n - 1, n - 1), CasSucceed(n - 1)]
  }

  lemma ExecThree(gap: nat, s: State, a: Event, b: Event, c: Event)
    ensures Exec(gap, s, [a, b, c]) == Step(gap, Step(gap, Step(gap, s, a), b), c)
  {
    assert [a, b, c][..2] == [a, b] && [a, b][..1] == [a] && [a][..0] == [];
    assert Exec(gap, s, []) == s;
    assert Exec(gap, s, [a]) == Step(gap, s, a);
    assert Exec(gap, s, [a, b]) == Step(gap, Step(gap, s, a), b);
  }

  ghost predicate BurstState(gap: nat, now: nat, n: nat, s: State) {
    && s.now == now && |s.calls| == n && |s.grants| == n && |s.history| == n + 1
    && Newest(s) == (if n == 0 then 0 else now + n * gap)
    && (forall k | 0 <= k < n :: s.grants[k].slot == now + k * gap)
  }

  lemma BurstRound(gap: nat, now: nat, n: nat, s: State)
    requires BurstState(gap, now, n, s)
    ensures BurstState(gap, now, n + 1, Step(gap, Step(gap, Step(gap, s, Begin), Load(n, n)), CasSucceed(n)))
  {
    var s2 := Step(gap, Step(gap, s, Begin), Load(n, n));
    assert s2.calls[n] == Call(now, 0, Contending(n, Newest(s)));
    assert n * gap + gap == (n + 1) * gap && n * gap >= 0;
  }

  lemma {:induction false} BurstSlots(gap: nat, now: nat, n: nat)
    requires gap > 0
    ensures BurstState(gap, now, n, Exec(gap, Init(0, now), Burst(n)))
  {
    if n > 0 {
      var m := n - 1;
      BurstSlots(gap, now, m);
      var s := Exec(gap, Init(0, now), Burst(m));
      ExecConcat(gap, Init(0, now), Burst(m), [Begin, Load(m, m), CasSucceed(m)]);
      ExecThree(gap, s, Begin, Load(m, m), CasSucceed(m));
      BurstRound(gap, now, m, s);
    }
  }

  /** The extra slot of GrantsPerSecond really occurs: some run reaches the bound. */
  lemma PerSecondBoundAttained(rateRps: nat, now: nat) returns (es: seq<Event>)
    requires 0 < rateRps <= 1000
    ensures |GrantsWithin(Exec(Interval(rateRps), Init(0, now), es), now, MICROS_PER_SECOND)|
         == if MICROS_PER_SECOND % rateRps == 0 then rateRps else rateRps + 1
  {
    PerSecondRoom(rateRps);
    var gap := Interval(rateRps);
    var n := CeilDiv(MICROS_PER_SECOND, gap);
    es := Burst(n);
    BurstSlots(gap, now, n);
    BurstFillsWindow(gap, now, n, MICROS_PER_SECOND, Exec(gap, Init(0, now), es));
  }

  lemma BurstFillsWindow(gap: nat, now: nat, n: nat, width: nat, s: State)
    requires gap > 0 && n == CeilDiv(width, gap) && BurstState(gap, now, n, s)
    ensures |GrantsWithin(s, now, width)| == n
  {
    CeilDivCovers(width, gap);
    forall k: nat | k < n ensures k in GrantsWithin(s, now, width) {
      MulOrder(k, n - 1, gap);
    }
    assert GrantsWithin(s, now, width) == Below(n);
  }
}
