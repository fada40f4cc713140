/** Generalised advantage estimation: the in-place backward pass of
    `compute_gae`, its closed form, and what it does at lambda = 1 and at
    episode ends.  Exact arithmetic over `real`. */
module Gae {
  import opened Reals

  datatype Rollout = Rollout(rewards: seq<real>, values: seq<real>, dones: seq<bool>, nextValues: seq<real>) {
    ghost predicate Shaped() {
      |values| == |rewards| && |dones| == |rewards| && |nextValues| == |rewards|
    }

    function Len(): nat { |rewards| }

    /** The `1 - dones[t]` factor. */
    function Live(t: nat): real
      requires t < |dones|
    {
      if dones[t] then 0.0 else 1.0
    }

    /** Value estimates as the recurrence sees them: `nextValues` counts only
        for its last entry. */
    ghost function V(t: nat): real
      requires Shaped() && t <= Len()
    {
      if t < Len() then values[t] else if t == 0 then 0.0 else nextValues[t - 1]
    }
  }

  function TdError(reward: real, gamma: real, nextValue: real, live: real, value: real): real {
    reward + gamma * nextValue * live - value
  }

  function Carry(delta: real, gamma: real, gaeLambda: real, live: real, lastGae: real): real {
    delta + gamma * gaeLambda * live * lastGae
  }

  /** The temporal-difference error of step t. */
  ghost function Delta(d: Rollout, gamma: real, t: nat): real
    requires d.Shaped() && t < d.Len()
  {
    TdError(d.rewards[t], gamma, d.V(t + 1), d.Live(t), d.values[t])
  }

  /** The recurrence the loop runs, from the far end. */
  ghost function Advantage(d: Rollout, gamma: real, gaeLambda: real, t: nat): real
    requires d.Shaped() && t <= d.Len()
    decreases d.Len() - t
  {
    if t == d.Len() then 0.0
    else Carry(Delta(d, gamma, t), gamma, gaeLambda, d.Live(t), Advantage(d, gamma, gaeLambda, t + 1))
  }

  lemma AdvantageEnds(d: Rollout, gamma: real, gaeLambda: real)
    requires d.Shaped()
    ensures Advantage(d, gamma, gaeLambda, d.Len()) == 0.0
  {}

  /** The recurrence as the loop writes it, with its choice of the next value. */
  lemma AdvantageLoop(d: Rollout, gamma: real, gaeLambda: real, t: nat)
    requires d.Shaped() && t < d.Len()
    ensures var next := if t == d.Len() - 1 then d.nextValues[t] else d.values[t + 1];
      Advantage(d, gamma, gaeLambda, t)
      == Carry(TdError(d.rewards[t], gamma, next, d.Live(t), d.values[t]), gamma, gaeLambda, d.Live(t),
               Advantage(d, gamma, gaeLambda, t + 1))
  {}

  method ComputeGae(d: Rollout, gamma: real, gaeLambda: real) returns (advantages: array<real>, returns_: array<real>)
    requires d.Shaped()
    ensures advantages.Length == returns_.Length == d.Len()
    ensures forall t | 0 <= t < d.Len() :: advantages[t] == Advantage(d, gamma, gaeLambda, t)
    ensures forall t | 0 <= t < d.Len() :: returns_[t] == Advantage(d, gamma, gaeLambda, t) + d.values[t]
  {
    hide TdError, Carry, Advantage;
    var n := |d.rewards|;
    advantages := new real[n](_ => 0.0);
    returns_ := new real[n](_ => 0.0);
    var lastGae := 0.0;
    AdvantageEnds(d, gamma, gaeLambda);
    for t := n downto 0
      invariant lastGae == Advantage(d, gamma, gaeLambda, t)
      invariant forall k | t <= k < n :: advantages[k] == Advantage(d, gamma, gaeLambda, k)
    {
      AdvantageLoop(d, gamma, gaeLambda, t);
      var nextValue := if t == n - 1 then d.nextValues[t] else d.values[t + 1];
      var delta := TdError(d.rewards[t], gamma, nextValue, d.Live(t), d.values[t]);
      lastGae := Carry(delta, gamma, gaeLambda, d.Live(t), lastGae);
      advantages[t] := lastGae;
    }
    for t := 0 to n
      invariant forall k | 0 <= k < n :: advantages[k] == Advantage(d, gamma, gaeLambda, k)
      invariant forall k | 0 <= k < t :: returns_[k] == advantages[k] + d.values[k]
    {
      returns_[t] := advantages[t] + d.values[t];
    }
  }

  // ---- Closed form ----

  ghost function Pow(x: real, n: nat): real {
    if n == 0 then 1.0 else Times(Pow(x, n - 1), x)
  }

  /** No episode ends in [t, k). */
  ghost predicate SameEpisode(d: Rollout, t: nat, k: nat)
    requires k <= |d.dones|
  {
    forall j | t <= j < k :: !d.dones[j]
  }

  /** x^(k-t) while the episode of step t lasts, 0 from its end on. */
  ghost function Weight(d: Rollout, x: real, t: nat, k: nat): real
    requires t <= k <= |d.dones|
  {
    if SameEpisode(d, t, k) then Pow(x, k - t) else 0.0
  }

  lemma WeightStep(d: Rollout, x: real, t: nat, k: nat)
    requires t <= k < |d.dones|
    ensures Weight(d, x, t, k + 1) == Times(Weight(d, x, t, k), Times(x, d.Live(k)))
  {
    assert SameEpisode(d, t, k + 1) <==> SameEpisode(d, t, k) && !d.dones[k];
  }

  /** Sum of weight(t, j) * f(j) for t <= j < k. */
  ghost function WeightedSum(d: Rollout, x: real, f: seq<real>, t: nat, k: nat): real
    requires t <= k <= |d.dones| && k <= |f|
    decreases k
  {
    if k == t then 0.0 else WeightedSum(d, x, f, t, k - 1) + Times(Weight(d, x, t, k - 1), f[k - 1])
  }

  ghost function Deltas(d: Rollout, gamma: real): seq<real>
    requires d.Shaped()
  {
    seq(d.Len(), t requires 0 <= t < d.Len() => Delta(d, gamma, t))
  }

  ghost predicate Recurs(d: Rollout, x: real, f: seq<real>, a: seq<real>, j: nat)
    requires j < |d.dones| == |f| && |a| == |f| + 1
  {
    a[j] == f[j] + Times(Times(x, d.Live(j)), a[j + 1])
  }

  lemma RecursAt(d: Rollout, x: real, f: seq<real>, a: seq<real>, j: nat)
    requires j < |d.dones| == |f| && |a| == |f| + 1 && Recurs(d, x, f, a, j)
    ensures a[j] == f[j] + Times(Times(x, d.Live(j)), a[j + 1])
  {}

  /** Any backward linear recurrence of this shape is a weighted sum. */
  lemma {:induction false} SolveRecurrence(d: Rollout, x: real, f: seq<real>, a: seq<real>, t: nat, k: nat)
    requires t <= k <= |d.dones| == |f| && |a| == |f| + 1
    requires forall j | 0 <= j < |f| :: Recurs(d, x, f, a, j)
    ensures a[t] == WeightedSum(d, x, f, t, k) + Times(Weight(d, x, t, k), a[k])
    decreases k
  {
    if k == t {
      assert Weight(d, x, t, t) == 1.0;
      TimesConstants(a[t]);
    } else {
      hide Times, Weight, SameEpisode, Pow, Recurs;
      var j := k - 1;
      SolveRecurrence(d, x, f, a, t, j);
      WeightStep(d, x, t, j);
      RecursAt(d, x, f, a, j);
      Unfold(Weight(d, x, t, j), f[j], Times(x, d.Live(j)), a[k]);
    }
  }

  /** One step of the recurrence pushed under the weight in front of it. */
  lemma Unfold(w: real, delta: real, factor: real, next: real)
    ensures Times(w, delta + Times(factor, next)) == Times(w, delta) + Times(Times(w, factor), next)
  {
    hide Times;
    TimesAdds(w, delta, Times(factor, next));
    TimesAssociative(w, factor, next);
  }

  lemma AdvantageStep(d: Rollout, gamma: real, gaeLambda: real, x: real, j: nat)
    requires d.Shaped() && j < d.Len() && x == gamma * gaeLambda
    ensures Advantage(d, gamma, gaeLambda, j)
         == Delta(d, gamma, j) + Times(Times(x, d.Live(j)), Advantage(d, gamma, gaeLambda, j + 1))
  {}

  /** The backward loop computes the discounted sum of the temporal-difference
      errors up to the end of the episode. */
  lemma ClosedForm(d: Rollout, gamma: real, gaeLambda: real, t: nat)
    requires d.Shaped() && t <= d.Len()
    ensures Advantage(d, gamma, gaeLambda, t) == WeightedSum(d, gamma * gaeLambda, Deltas(d, gamma), t, d.Len())
  {
    var a := seq(d.Len() + 1, j requires 0 <= j <= d.Len() => Advantage(d, gamma, gaeLambda, j));
    var x, f := gamma * gaeLambda, Deltas(d, gamma);
    forall j | 0 <= j < d.Len() ensures Recurs(d, x, f, a, j) {
      AdvantageStep(d, gamma, gaeLambda, x, j);
    }
    SolveRecurrence(d, x, f, a, t, d.Len());
  }

  /** At lambda = 0 an advantage is the one-step error. */
  lemma OneStep(d: Rollout, gamma: real, t: nat)
    requires d.Shaped() && t < d.Len()
    ensures var next := if t + 1 < d.Len() then d.values[t + 1] else d.nextValues[t];
      Advantage(d, gamma, 0.0, t) == d.rewards[t] + (if d.dones[t] then 0.0 else gamma * next) - d.values[t]
  {}

  // ---- lambda = 1 ----

  lemma TelescopeStep(d: Rollout, gamma: real, j: nat)
    requires d.Shaped() && j < d.Len()
    ensures Advantage(d, gamma, 1.0, j) + d.V(j)
         == d.rewards[j] + Times(Times(gamma, d.Live(j)), Advantage(d, gamma, 1.0, j + 1) + d.V(j + 1))
  {
    var live, a, v := d.Live(j), Advantage(d, gamma, 1.0, j + 1), d.V(j + 1);
    assert gamma * 1.0 * live * a == gamma * live * a;
    assert gamma * v * live == gamma * live * v;
    assert gamma * live * (a + v) == gamma * live * a + gamma * live * v;
  }

  /** At lambda = 1 the return of step t is the discounted reward of its
      episode plus the discounted bootstrap if the episode is still open. */
  lemma Telescopes(d: Rollout, gamma: real, t: nat)
    requires d.Shaped() && t < d.Len()
    ensures Advantage(d, gamma, 1.0, t) + d.values[t]
         == WeightedSum(d, gamma, d.rewards, t, d.Len())
          + Times(Weight(d, gamma, t, d.Len()), d.nextValues[d.Len() - 1])
  {
    hide TdError, Carry, WeightedSum, Weight;
    var a := seq(d.Len() + 1, j requires 0 <= j <= d.Len() => Advantage(d, gamma, 1.0, j) + d.V(j));
    forall j | 0 <= j < d.Len() ensures Recurs(d, gamma, d.rewards, a, j) {
      TelescopeStep(d, gamma, j);
    }
    SolveRecurrence(d, gamma, d.rewards, a, t, d.Len());
  }

  lemma WeightCongruent(d: Rollout, e: Rollout, x: real, t: nat, k: nat)
    requires d.dones == e.dones && t <= k <= |d.dones|
    ensures Weight(d, x, t, k) == Weight(e, x, t, k)
  {
    assert SameEpisode(d, t, k) == SameEpisode(e, t, k);
  }

  lemma {:induction false} WeightedSumCongruent(d: Rollout, e: Rollout, x: real, f: seq<real>, t: nat, k: nat)
    requires d.dones == e.dones && t <= k <= |d.dones| && k <= |f|
    ensures WeightedSum(d, x, f, t, k) == WeightedSum(e, x, f, t, k)
    decreases k
  {
    if k > t {
      hide Weight;
      WeightedSumCongruent(d, e, x, f, t, k - 1);
      WeightCongruent(d, e, x, t, k - 1);
    }
  }

  /** So at lambda = 1 no return depends on any intermediate value estimate. */
  lemma ReturnsIgnoreValues(d: Rollout, e: Rollout, gamma: real, t: nat)
    requires d.Shaped() && e.Shaped() && t < d.Len()
    requires d.rewards == e.rewards && d.dones == e.dones
    requires d.nextValues[d.Len() - 1] == e.nextValues[d.Len() - 1]
    ensures Advantage(d, gamma, 1.0, t) + d.values[t] == Advantage(e, gamma, 1.0, t) + e.values[t]
  {
    hide Advantage, WeightedSum;
    Telescopes(d, gamma, t);
    Telescopes(e, gamma, t);
    WeightedSumCongruent(d, e, gamma, d.rewards, t, d.Len());
    WeightCongruent(d, e, gamma, t, d.Len());
  }

  // ---- Episode ends ----

  lemma TerminalIgnoresFuture(reward: real, gamma: real, gaeLambda: real, value: real,
                              v: real, v': real, a: real, a': real)
    ensures Carry(TdError(reward, gamma, v, 0.0, value), gamma, gaeLambda, 0.0, a)
         == Carry(TdError(reward, gamma, v', 0.0, value), gamma, gaeLambda, 0.0, a')
  {}

  /** Nothing after an episode end reaches back over it: rollouts that agree up
      to and including a terminal step t have the same advantages there,
      whatever follows and however long it is. */
  lemma {:induction false} EpisodeEndCuts(d: Rollout, e: Rollout, gamma: real, gaeLambda: real, t: nat, i: nat)
    requires d.Shaped() && e.Shaped() && i <= t < d.Len() && t < e.Len() && d.dones[t]
    requires d.rewards[..t + 1] == e.rewards[..t + 1] && d.values[..t + 1] == e.values[..t + 1]
    requires d.dones[..t + 1] == e.dones[..t + 1]
    ensures Advantage(d, gamma, gaeLambda, i) == Advantage(e, gamma, gaeLambda, i)
    decreases t - i
  {
    hide TdError, Carry;
    assert forall k | i <= k <= t ::
      && d.rewards[k] == d.rewards[..t + 1][k] == e.rewards[k]
      && d.values[k] == d.values[..t + 1][k] == e.values[k]
      && d.dones[k] == d.dones[..t + 1][k] == e.dones[k];
    if i < t {
      EpisodeEndCuts(d, e, gamma, gaeLambda, t, i + 1);
    } else {
      TerminalIgnoresFuture(d.rewards[t], gamma, gaeLambda, d.values[t], d.V(t + 1), e.V(t + 1),
                            Advantage(d, gamma, gaeLambda, t + 1), Advantage(e, gamma, gaeLambda, t + 1));
    }
  }

  // ---- The rollout buffer ----

  class RolloutBuffer {
    var rewards: seq<real>
    var dones: seq<bool>
    var values: seq<real>
    var advantages: seq<real>
    var returns_: seq<real>

    /** Whether `advantages` and `returns_` hold arrays; they start out as lists. */
    var computed: bool

    ghost predicate Valid()
      reads this
    {
      |rewards| == |dones| == |values|
    }

    constructor ()
      ensures Valid() && rewards == [] && advantages == [] && returns_ == [] && !computed
    {
      rewards, dones, values, advantages, returns_, computed := [], [], [], [], [], false;
    }

    method Add(reward: real, done: bool, value: real)
      requires Valid()
      modifies `rewards, `dones, `values
      ensures Valid()
      ensures rewards == old(rewards) + [reward] && dones == old(dones) + [done] && values == old(values) + [value]
    {
      rewards, dones, values := rewards + [reward], dones + [done], values + [value];
    }

    /** The stored transitions as `compute_gae` receives them. */
    ghost function Data(lastValue: real): Rollout
      reads this
    {
      Rollout(rewards, values, dones, (values + [lastValue])[1..])
    }

    method ComputeReturnsAndAdvantages(lastValue: real, gamma: real, gaeLambda: real)
      requires Valid()
      modifies `advantages, `returns_, `computed
      ensures Valid() && Data(lastValue).Shaped() && computed
      ensures |advantages| == |returns_| == |rewards|
      ensures forall t | 0 <= t < |rewards| ::
                && advantages[t] == Advantage(Data(lastValue), gamma, gaeLambda, t)
                && returns_[t] == advantages[t] + values[t]
    {
      var padded := values + [lastValue];
      var a, r := ComputeGae(Rollout(rewards, values, dones, padded[1..]), gamma, gaeLambda);
      advantages := a[..];
      returns_ := r[..];
      computed := true;
    }

    /** Arrays cannot be cleared: after a computation the attempt raises an
        error (`ok` is false), the transitions already gone, the results still there. */
    method Clear() returns (ok: bool)
      modifies this
      ensures Valid() && rewards == [] && dones == [] && values == []
      ensures ok <==> !old(computed)
      ensures computed == old(computed)
      ensures advantages == if ok then [] else old(advantages)
      ensures returns_ == if ok then [] else old(returns_)
    {
      rewards, dones, values := [], [], [];
      if computed {
        return false;
      }
      advantages, returns_ := [], [];
      return true;
    }
  }

  /** The buffer passes the value list shifted by one, so the only bootstrap
      that enters is `lastValue`. */
  lemma BufferBootstraps(rewards: seq<real>, values: seq<real>, dones: seq<bool>, lastValue: real, gamma: real, t: nat)
    requires |values| == |rewards| == |dones| && t < |rewards|
    ensures var d := Rollout(rewards, values, dones, (values + [lastValue])[1..]);
      && d.Shaped()
      && Advantage(d, gamma, 1.0, t) + values[t]
      == WeightedSum(d, gamma, rewards, t, |rewards|) + Times(Weight(d, gamma, t, |rewards|), lastValue)
  {
    hide Advantage, WeightedSum, Weight;
    var d := Rollout(rewards, values, dones, (values + [lastValue])[1..]);
    Telescopes(d, gamma, t);
  }
}
