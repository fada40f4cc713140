/** The relative strength index: Wilder smoothing of the upward and downward
    price changes. */
module Rsi {
  import opened Wrappers
  import opened Reals
  import opened Indicators

  function Positive(x: real): real { if x > 0.0 then x else 0.0 }

  function Change(p: seq<real>, i: nat): real
    requires i + 1 < |p|
  {
    p[i + 1] - p[i]
  }

  /** The upward moves of a series, one entry for each adjacent pair. */
  function Ups(p: seq<real>): seq<real>
    requires p != []
  {
    seq(|p| - 1, i requires 0 <= i < |p| - 1 => Positive(Change(p, i)))
  }

  function Downs(p: seq<real>): seq<real>
    requires p != []
  {
    seq(|p| - 1, i requires 0 <= i < |p| - 1 => Positive(-Change(p, i)))
  }

  /** Wilder's average is the exponential smoothing with weight 1/period. */
  function Wilder(f: seq<real>, period: nat): real
    requires 1 <= period <= |f|
  {
    SeededSmooth(f, period, 1.0 / period as real)
  }

  function Strength(gain: real, loss: real): real
    requires gain >= 0.0 && loss >= 0.0
  {
    if loss == 0.0 then 100.0 else 100.0 - 100.0 / (1.0 + gain / loss)
  }

  function RsiOf(p: seq<real>, period: nat): real
    requires 1 <= period < |p|
  {
    WilderNonNegative(Ups(p), period);
    WilderNonNegative(Downs(p), period);
    Strength(Wilder(Ups(p), period), Wilder(Downs(p), period))
  }

  // ---- Signs ----

  function Ceiling(s: seq<real>): (m: real)
    ensures m >= 0.0 && forall i | 0 <= i < |s| :: s[i] <= m
  {
    if s == [] then 0.0
    else
      var m := Ceiling(s[..|s| - 1]);
      if s[|s| - 1] > m then s[|s| - 1] else m
  }

  lemma UnitFraction(period: nat)
    requires period >= 1
    ensures 0.0 < 1.0 / period as real <= 1.0
    ensures period > 1 ==> 1.0 / period as real < 1.0
  {}

  lemma WilderNonNegative(f: seq<real>, period: nat)
    requires 1 <= period <= |f| && forall i | 0 <= i < |f| :: f[i] >= 0.0
    ensures Wilder(f, period) >= 0.0
  {
    UnitFraction(period);
    SeededWithin(f, period, 1.0 / period as real, 0.0, Ceiling(f));
  }

  // ---- The loop ----

  lemma WilderStep(avg: real, x: real, n: real)
    requires n != 0.0
    ensures (avg * (n - 1.0) + x) / n == Blend(x, avg, 1.0 / n)
  {
    var r := 1.0 / n;
    assert r * n == 1.0;
    assert (avg * (n - 1.0) + x) / n == (avg * (n - 1.0) + x) * r;
    assert avg * (n - 1.0) * r == avg * (n * r) - avg * r;
  }

  /** One turn of the second loop. */
  method Update(avgGain: real, avgLoss: real, change: real, period: nat) returns (gain: real, loss: real)
    requires period >= 1
    ensures gain == Blend(Positive(change), avgGain, 1.0 / period as real)
    ensures loss == Blend(Positive(-change), avgLoss, 1.0 / period as real)
  {
    hide Blend;
    var n := period as real;
    WilderStep(avgGain, Positive(change), n);
    WilderStep(avgLoss, Positive(-change), n);
    if change > 0.0 {
      gain := (avgGain * (n - 1.0) + change) / n;
      loss := (avgLoss * (n - 1.0)) / n;
    } else {
      gain := (avgGain * (n - 1.0)) / n;
      loss := (avgLoss * (n - 1.0) - change) / n;
    }
  }

  method RelativeStrength(prices: seq<real>, period: nat) returns (r: Option<real>)
    ensures r == if 1 <= period < |prices| then Some(RsiOf(prices, period)) else None
  {
    hide Blend, Strength, Wilder, Average, SeededSmooth;
    if period == 0 || |prices| < period + 1 {
      return None;
    }
    var avgGain, avgLoss := FirstAverages(prices, period);
    ghost var ups, downs, m := Ups(prices), Downs(prices), 1.0 / period as real;
    SeededStart(ups, period, m);
    SeededStart(downs, period, m);
    for i := period + 1 to |prices|
      invariant avgGain == SeededSmooth(ups[..i - 1], period, m)
      invariant avgLoss == SeededSmooth(downs[..i - 1], period, m)
    {
      SeededStep(ups, period, m, i - 1);
      SeededStep(downs, period, m, i - 1);
      avgGain, avgLoss := Update(avgGain, avgLoss, Change(prices, i - 1), period);
    }
    assert ups[..|prices| - 1] == ups && downs[..|prices| - 1] == downs;
    WilderUnfolds(prices, period);
    WilderNonNegative(ups, period);
    WilderNonNegative(downs, period);
    StrengthUnfolds(avgGain, avgLoss);
    if avgLoss == 0.0 {
      return Some(100.0);
    }
    var rs := avgGain / avgLoss;
    return Some(100.0 - (100.0 / (1.0 + rs)));
  }

  lemma WilderUnfolds(p: seq<real>, period: nat)
    requires 1 <= period < |p|
    ensures Wilder(Ups(p), period) == SeededSmooth(Ups(p), period, 1.0 / period as real)
    ensures Wilder(Downs(p), period) == SeededSmooth(Downs(p), period, 1.0 / period as real)
  {}

  lemma StrengthUnfolds(gain: real, loss: real)
    requires gain >= 0.0 && loss >= 0.0
    ensures loss == 0.0 ==> Strength(gain, loss) == 100.0
    ensures loss != 0.0 ==> 1.0 + gain / loss >= 1.0 && Strength(gain, loss) == 100.0 - 100.0 / (1.0 + gain / loss)
  {
    if loss != 0.0 {
      var rs := gain / loss;
      assert rs * loss == gain;
      assert rs >= 0.0;
    }
  }

  method FirstAverages(prices: seq<real>, period: nat) returns (gain: real, loss: real)
    requires 1 <= period < |prices|
    ensures gain == Average(Ups(prices)[..period]) && loss == Average(Downs(prices)[..period])
  {
    ghost var ups, downs := Ups(prices), Downs(prices);
    gain, loss := 0.0, 0.0;
    for i := 1 to period + 1
      invariant gain == Sum(ups[..i - 1]) && loss == Sum(downs[..i - 1])
    {
      var change := Change(prices, i - 1);
      assert ups[..i][..i - 1] == ups[..i - 1] && downs[..i][..i - 1] == downs[..i - 1];
      if change > 0.0 {
        gain := gain + change;
      } else {
        loss := loss - change;
      }
    }
    gain, loss := gain / period as real, loss / period as real;
  }

  // ---- Range ----

  lemma StrengthRange(gain: real, loss: real)
    requires gain >= 0.0 && loss >= 0.0
    ensures 0.0 <= Strength(gain, loss) <= 100.0
  {
    if loss != 0.0 {
      var rs := gain / loss;
      assert rs >= 0.0;
      var share := 100.0 / (1.0 + rs);
      assert share * (1.0 + rs) == 100.0;
      assert 0.0 <= share <= 100.0;
    }
  }

  lemma RsiRange(p: seq<real>, period: nat)
    requires 1 <= period < |p|
    ensures 0.0 <= RsiOf(p, period) <= 100.0
  {
    WilderNonNegative(Ups(p), period);
    WilderNonNegative(Downs(p), period);
    StrengthRange(Wilder(Ups(p), period), Wilder(Downs(p), period));
  }

  // ---- Scaling ----

  function Scale(c: real, p: seq<real>): seq<real> {
    seq(|p|, i requires 0 <= i < |p| => c * p[i])
  }

  lemma ScaleIsMix(c: real, p: seq<real>)
    ensures Scale(c, p) == Mix(c, p, 0.0, p)
  {}

  lemma WilderScales(c: real, f: seq<real>, period: nat)
    requires 1 <= period <= |f|
    ensures Wilder(Scale(c, f), period) == c * Wilder(f, period)
  {
    hide SeededSmooth;
    ScaleIsMix(c, f);
    SeededLinear(c, f, 0.0, f, period, 1.0 / period as real);
  }

  lemma MovesScale(c: real, p: seq<real>)
    requires c > 0.0 && p != []
    ensures Ups(Scale(c, p)) == Scale(c, Ups(p))
    ensures Downs(Scale(c, p)) == Scale(c, Downs(p))
  {
    forall i | 0 <= i < |p| - 1
      ensures Ups(Scale(c, p))[i] == Scale(c, Ups(p))[i] && Downs(Scale(c, p))[i] == Scale(c, Downs(p))[i]
    {
      hide Positive;
      PositiveScales(c, Change(p, i), Change(Scale(c, p), i));
    }
  }

  lemma PositiveScales(c: real, x: real, x': real)
    requires c > 0.0 && x' == c * x
    ensures Positive(x') == c * Positive(x) && Positive(-x') == c * Positive(-x)
  {
    assert x > 0.0 ==> c * x > 0.0;
    assert x < 0.0 ==> c * -x > 0.0;
  }

  lemma StrengthScales(c: real, gain: real, loss: real, gain': real, loss': real)
    requires c > 0.0 && gain >= 0.0 && loss >= 0.0 && gain' == c * gain && loss' == c * loss
    ensures gain' >= 0.0 && loss' >= 0.0 && Strength(gain', loss') == Strength(gain, loss)
  {
    if loss != 0.0 {
      assert loss' > 0.0;
      var rs := gain / loss;
      assert gain == rs * loss;
      assert gain' == rs * loss';
      CancelFactor(rs, loss');
    }
  }

  lemma CancelFactor(r: real, d: real)
    requires d != 0.0
    ensures (r * d) / d == r
  {}

  /** The index does not depend on the unit prices are quoted in. */
  lemma RsiScaleInvariant(c: real, p: seq<real>, period: nat)
    requires c > 0.0 && 1 <= period < |p|
    ensures RsiOf(Scale(c, p), period) == RsiOf(p, period)
  {
    hide Wilder, Strength;
    MovesScale(c, p);
    WilderScales(c, Ups(p), period);
    WilderScales(c, Downs(p), period);
    WilderNonNegative(Ups(p), period);
    WilderNonNegative(Downs(p), period);
    StrengthScales(c, Wilder(Ups(p), period), Wilder(Downs(p), period),
                   Wilder(Scale(c, Ups(p)), period), Wilder(Scale(c, Downs(p)), period));
  }

  // ---- Symmetry ----

  lemma MirrorSwapsMoves(p: seq<real>)
    requires p != []
    ensures Ups(Scale(-1.0, p)) == Downs(p) && Downs(Scale(-1.0, p)) == Ups(p)
  {
    assert forall i | 0 <= i < |p| - 1 :: Change(Scale(-1.0, p), i) == -Change(p, i);
  }

  lemma StrengthSymmetric(gain: real, loss: real)
    requires gain >= 0.0 && loss >= 0.0
    ensures Strength(gain, loss) + Strength(loss, gain) == if gain == 0.0 && loss == 0.0 then 200.0 else 100.0
  {
    if gain > 0.0 && loss > 0.0 {
      var total := gain + loss;
      assert 100.0 / (1.0 + gain / loss) == 100.0 * loss / total by {
        assert (1.0 + gain / loss) * loss == total;
        assert 100.0 * loss / total * (1.0 + gain / loss) == 100.0;
      }
      assert 100.0 / (1.0 + loss / gain) == 100.0 * gain / total by {
        assert (1.0 + loss / gain) * gain == total;
        assert 100.0 * gain / total * (1.0 + loss / gain) == 100.0;
      }
      assert 100.0 * loss / total + 100.0 * gain / total == 100.0 * (gain + loss) / total;
    }
  }

  /** Nothing the index still remembers has moved.  With period 1 it remembers
      only the last change, otherwise all of them. */
  ghost predicate Flat(p: seq<real>, period: nat)
    requires 1 <= period < |p|
  {
    if period == 1 then p[|p| - 1] == p[|p| - 2]
    else forall i | 0 <= i < |p| - 1 :: p[i + 1] == p[i]
  }

  lemma {:induction false} SumZero(s: seq<real>)
    requires forall i | 0 <= i < |s| :: s[i] >= 0.0
    ensures Sum(s) >= 0.0
    ensures Sum(s) == 0.0 <==> forall i | 0 <= i < |s| :: s[i] == 0.0
    decreases |s|
  {
    if s != [] {
      SumZero(s[..|s| - 1]);
      assert forall i | 0 <= i < |s| - 1 :: s[..|s| - 1][i] == s[i];
    }
  }

  lemma BlendZero(x: real, b: real, m: real)
    requires 0.0 < m < 1.0 && x >= 0.0 && b >= 0.0
    ensures Blend(x, b, m) >= 0.0
    ensures Blend(x, b, m) == 0.0 <==> x == 0.0 && b == 0.0
  {
    assert Blend(x, b, m) == x * m + b * (1.0 - m);
    assert x * m >= 0.0 && b * (1.0 - m) >= 0.0;
    assert x > 0.0 ==> x * m > 0.0;
    assert b > 0.0 ==> b * (1.0 - m) > 0.0;
  }

  lemma {:induction false} SmoothedZero(seed: real, m: real, xs: seq<real>)
    requires 0.0 < m < 1.0 && seed >= 0.0 && forall i | 0 <= i < |xs| :: xs[i] >= 0.0
    ensures Smoothed(seed, m, xs) >= 0.0
    ensures Smoothed(seed, m, xs) == 0.0 <==> seed == 0.0 && forall i | 0 <= i < |xs| :: xs[i] == 0.0
    decreases |xs|
  {
    if xs != [] {
      hide Blend;
      var n := |xs| - 1;
      SmoothedZero(seed, m, xs[..n]);
      BlendZero(xs[n], Smoothed(seed, m, xs[..n]), m);
      assert forall i | 0 <= i < n :: xs[..n][i] == xs[i];
    }
  }

  lemma WilderZero(f: seq<real>, period: nat)
    requires 1 <= period <= |f| && forall i | 0 <= i < |f| :: f[i] >= 0.0
    ensures Wilder(f, period) == 0.0
       <==> if period == 1 then f[|f| - 1] == 0.0 else forall i | 0 <= i < |f| :: f[i] == 0.0
  {
    UnitFraction(period);
    SumZero(f[..period]);
    if period == 1 {
      if |f| > 1 { assert f[1..][|f| - 2] == f[|f| - 1]; }
    } else {
      var seed := Average(f[..period]);
      assert seed * period as real == Sum(f[..period]);
      SmoothedZero(seed, 1.0 / period as real, f[period..]);
      assert forall i | 0 <= i < period :: f[..period][i] == f[i];
      assert forall i | period <= i < |f| :: f[period..][i - period] == f[i];
    }
  }

  /** Mirroring the prices mirrors the index about 50, except on flat prices,
      where the guard for a zero loss makes both sides 100. */
  lemma RsiSymmetric(p: seq<real>, period: nat)
    requires 1 <= period < |p|
    ensures RsiOf(p, period) + RsiOf(Scale(-1.0, p), period) == 100.0 <==> !Flat(p, period)
  {
    var up, down := Ups(p), Downs(p);
    WilderNonNegative(up, period);
    WilderNonNegative(down, period);
    WilderZero(up, period);
    WilderZero(down, period);
    MirrorSwapsMoves(p);
    StrengthSymmetric(Wilder(up, period), Wilder(down, period));
    FlatMoves(p, period);
  }

  /** On flat prices the index is 100, and so is that of the mirrored prices. */
  lemma FlatIsHundred(p: seq<real>, period: nat)
    requires 1 <= period < |p| && Flat(p, period)
    ensures RsiOf(p, period) == 100.0 && RsiOf(Scale(-1.0, p), period) == 100.0
  {
    var up, down := Ups(p), Downs(p);
    WilderNonNegative(up, period);
    WilderNonNegative(down, period);
    WilderZero(up, period);
    WilderZero(down, period);
    MirrorSwapsMoves(p);
    FlatMoves(p, period);
  }

  lemma FlatMoves(p: seq<real>, period: nat)
    requires 1 <= period < |p|
    ensures Flat(p, period) <==>
      if period == 1 then Ups(p)[|p| - 2] == 0.0 && Downs(p)[|p| - 2] == 0.0
      else (forall i | 0 <= i < |p| - 1 :: Ups(p)[i] == 0.0) && (forall i | 0 <= i < |p| - 1 :: Downs(p)[i] == 0.0)
  {
    assert forall i | 0 <= i < |p| - 1 :: p[i + 1] == p[i] <==> Ups(p)[i] == 0.0 && Downs(p)[i] == 0.0;
  }

  // ---- What determines the index ----

  function Rise(before: real, x: real): real { if x > before then x - before else 0.0 }

  /** Total of the rises from one price to the next, and of the falls. */
  function Rises(p: seq<real>): real {
    if |p| < 2 then 0.0 else Rises(p[..|p| - 1]) + Rise(p[|p| - 2], p[|p| - 1])
  }

  function Falls(p: seq<real>): real {
    if |p| < 2 then 0.0 else Falls(p[..|p| - 1]) + Rise(p[|p| - 1], p[|p| - 2])
  }

  lemma MovesGrow(p: seq<real>, x: real)
    requires p != []
    ensures Ups(p + [x]) == Ups(p) + [Rise(p[|p| - 1], x)]
    ensures Downs(p + [x]) == Downs(p) + [Rise(x, p[|p| - 1])]
  {}

  lemma {:induction false} MovesSum(p: seq<real>)
    requires p != []
    ensures Sum(Ups(p)) == Rises(p) && Sum(Downs(p)) == Falls(p)
    decreases |p|
  {
    hide Ups, Downs;
    if |p| == 1 {
      NoMoves(p);
    } else {
      var front, x := p[..|p| - 1], p[|p| - 1];
      MovesSum(front);
      MovesGrow(front, x);
      assert front + [x] == p;
      SumGrows(Ups(front), Rise(front[|front| - 1], x));
      SumGrows(Downs(front), Rise(x, front[|front| - 1]));
    }
  }

  lemma NoMoves(p: seq<real>)
    requires |p| == 1
    ensures Ups(p) == [] && Downs(p) == []
  {}

  /** The two smoothed averages of a series. */
  function Gain(p: seq<real>, period: nat): real
    requires 1 <= period < |p|
  {
    Wilder(Ups(p), period)
  }

  function Loss(p: seq<real>, period: nat): real
    requires 1 <= period < |p|
  {
    Wilder(Downs(p), period)
  }

  /** They start as the plain averages of the first `period` rises and falls, ... */
  lemma AveragesSeed(p: seq<real>, period: nat)
    requires 1 <= period && |p| == period + 1
    ensures Gain(p, period) * period as real == Rises(p) && Loss(p, period) * period as real == Falls(p)
  {
    hide Wilder, Ups, Downs;
    MovesSum(p);
    MovesLength(p);
    WilderSeed(Ups(p), period);
    WilderSeed(Downs(p), period);
  }

  lemma WilderSeed(f: seq<real>, period: nat)
    requires 1 <= period == |f|
    ensures Wilder(f, period) * period as real == Sum(f)
  {
    hide SeededSmooth, Average;
    SeededSeed(f, period, 1.0 / period as real);
  }

  /** ... and each further price moves them 1/period of the way to its rise and its fall. */
  lemma AveragesMove(p: seq<real>, period: nat, x: real)
    requires 1 <= period < |p|
    ensures var n, last := period as real, p[|p| - 1];
      && n * (Gain(p + [x], period) - Gain(p, period)) == (if x > last then x - last else 0.0) - Gain(p, period)
      && n * (Loss(p + [x], period) - Loss(p, period)) == (if x < last then last - x else 0.0) - Loss(p, period)
  {
    hide Wilder, Ups, Downs;
    var last := p[|p| - 1];
    MovesGrow(p, x);
    MovesLength(p);
    WilderMoves(Ups(p), period, Rise(last, x));
    WilderMoves(Downs(p), period, Rise(x, last));
  }

  lemma WilderMoves(f: seq<real>, period: nat, x: real)
    requires 1 <= period <= |f|
    ensures period as real * (Wilder(f + [x], period) - Wilder(f, period)) == x - Wilder(f, period)
  {
    hide SeededSmooth;
    var n := period as real;
    SeededMoves(f, period, 1.0 / n, x);
    Undivided(n, x - Wilder(f, period), Wilder(f + [x], period) - Wilder(f, period));
  }

  lemma Undivided(n: real, x: real, moved: real)
    requires n > 0.0 && moved == Times(x, 1.0 / n)
    ensures n * moved == x
  {
    var m := 1.0 / n;
    assert m * n == 1.0;
    assert n * (x * m) == x * (m * n);
  }

  /** The index is the gains' share of gains and losses, and 100 if there are neither. */
  lemma RsiIsShare(p: seq<real>, period: nat)
    requires 1 <= period < |p|
    ensures Gain(p, period) >= 0.0 && Loss(p, period) >= 0.0
    ensures RsiOf(p, period) * (Gain(p, period) + Loss(p, period)) == 100.0 * Gain(p, period)
    ensures Gain(p, period) == Loss(p, period) == 0.0 ==> RsiOf(p, period) == 100.0
  {
    hide Wilder, Strength;
    WilderNonNegative(Ups(p), period);
    WilderNonNegative(Downs(p), period);
    StrengthIsShare(Gain(p, period), Loss(p, period));
  }

  lemma StrengthIsShare(gain: real, loss: real)
    requires gain >= 0.0 && loss >= 0.0
    ensures Strength(gain, loss) * (gain + loss) == 100.0 * gain
    ensures gain == loss == 0.0 ==> Strength(gain, loss) == 100.0
  {
    if loss != 0.0 {
      var rs := gain / loss;
      assert rs * loss == gain && rs >= 0.0;
      var share := 100.0 / (1.0 + rs);
      assert share * (1.0 + rs) == 100.0;
      assert gain + loss == (1.0 + rs) * loss;
      assert share * ((1.0 + rs) * loss) == (share * (1.0 + rs)) * loss;
    }
  }

  /** Does the index still remember the move from price i to the next?  With
      period 1 only the last one. */
  predicate Remembers(p: seq<real>, period: nat, i: nat) {
    i + 1 < |p| && (period == 1 ==> i == |p| - 2)
  }

  ghost predicate NoFall(p: seq<real>, period: nat) {
    forall i: nat | Remembers(p, period, i) :: p[i + 1] >= p[i]
  }

  ghost predicate NoRise(p: seq<real>, period: nat) {
    forall i: nat | Remembers(p, period, i) :: p[i + 1] <= p[i]
  }

  /** The index is 100 exactly when no remembered price falls below the one
      before it, and 0 exactly when none rises and some falls. */
  lemma RsiExtremes(p: seq<real>, period: nat)
    requires 1 <= period < |p|
    ensures RsiOf(p, period) == 100.0 <==> NoFall(p, period)
    ensures RsiOf(p, period) == 0.0 <==> NoRise(p, period) && !NoFall(p, period)
  {
    hide Wilder, Strength;
    RsiIsShare(p, period);
    ZeroAverages(p, period);
    ShareExtremes(RsiOf(p, period), Gain(p, period), Loss(p, period));
  }

  lemma ShareExtremes(r: real, gain: real, loss: real)
    requires gain >= 0.0 && loss >= 0.0 && r * (gain + loss) == 100.0 * gain
    requires gain == loss == 0.0 ==> r == 100.0
    ensures r == 100.0 <==> loss == 0.0
    ensures r == 0.0 <==> gain == 0.0 && loss != 0.0
  {
    if loss == 0.0 {
      ZeroProduct(r - 100.0, gain);
    } else {
      ZeroProduct(r, loss);
      assert (100.0 - r) * (gain + loss) == 100.0 * loss;
    }
  }

  lemma ZeroProduct(a: real, b: real)
    ensures a * b == 0.0 ==> a == 0.0 || b == 0.0
  {}

  lemma ZeroAverages(p: seq<real>, period: nat)
    requires 1 <= period < |p|
    ensures Gain(p, period) == 0.0 <==> NoRise(p, period)
    ensures Loss(p, period) == 0.0 <==> NoFall(p, period)
  {
    hide Wilder;
    var up, down := Ups(p), Downs(p);
    WilderZero(up, period);
    WilderZero(down, period);
    assert forall i: nat | i < |p| - 1 :: up[i] == 0.0 <==> p[i + 1] <= p[i];
    assert forall i: nat | i < |p| - 1 :: down[i] == 0.0 <==> p[i + 1] >= p[i];
    assert Remembers(p, period, |p| - 2);
    assert period > 1 ==> forall i: nat | i < |p| - 1 :: Remembers(p, period, i);
  }

  // ---- Monotone in the last price ----

  /** A change of the last entry moves Wilder's average by 1/period of it,
      whether that entry belongs to the seed or not. */
  lemma WilderSlope(f: seq<real>, period: nat, x: real, y: real)
    requires 1 <= period <= |f| + 1
    ensures period as real * (Wilder(f + [y], period) - Wilder(f + [x], period)) == y - x
  {
    hide SeededSmooth, Average, Wilder;
    var n := period as real;
    if period <= |f| {
      WilderMoves(f, period, x);
      WilderMoves(f, period, y);
    } else {
      WilderSeed(f + [x], period);
      WilderSeed(f + [y], period);
      SumGrows(f, x);
      SumGrows(f, y);
    }
  }

  /** A higher last price never lowers the index; it raises it unless it was at
      100 already or stays at 0. */
  lemma RsiMonotone(p: seq<real>, period: nat, x: real, y: real)
    requires 1 <= period <= |p| && x < y
    ensures RsiOf(p + [x], period) <= RsiOf(p + [y], period)
    ensures RsiOf(p + [x], period) == RsiOf(p + [y], period)
       ==> RsiOf(p + [x], period) == 100.0 || RsiOf(p + [y], period) == 0.0
  {
    hide RsiOf, Gain, Loss;
    RsiIsShare(p + [x], period);
    RsiIsShare(p + [y], period);
    AveragesSlope(p, period, x, y);
    ShareMonotone(RsiOf(p + [x], period), Gain(p + [x], period), Loss(p + [x], period),
                  RsiOf(p + [y], period), Gain(p + [y], period), Loss(p + [y], period));
  }

  /** A higher last price shifts weight from the losses to the gains. */
  lemma AveragesSlope(p: seq<real>, period: nat, x: real, y: real)
    requires 1 <= period <= |p| && x < y
    ensures var g, l, g', l' :=
        Gain(p + [x], period), Loss(p + [x], period), Gain(p + [y], period), Loss(p + [y], period);
      g <= g' && l' <= l && (g < g' || l' < l)
  {
    hide Wilder, Ups, Downs;
    var last, n := p[|p| - 1], period as real;
    MovesGrow(p, x);
    MovesGrow(p, y);
    MovesLength(p);
    WilderSlope(Ups(p), period, Rise(last, x), Rise(last, y));
    WilderSlope(Downs(p), period, Rise(y, last), Rise(x, last));
    SlopeSigns(n, Gain(p + [y], period) - Gain(p + [x], period), Rise(last, y) - Rise(last, x));
    SlopeSigns(n, Loss(p + [x], period) - Loss(p + [y], period), Rise(x, last) - Rise(y, last));
  }

  lemma MovesLength(p: seq<real>)
    requires p != []
    ensures |Ups(p)| == |Downs(p)| == |p| - 1
  {}

  lemma SlopeSigns(n: real, moved: real, d: real)
    requires n > 0.0 && d >= 0.0 && n * moved == d
    ensures moved >= 0.0 && (d > 0.0 ==> moved > 0.0)
  {}

  lemma ShareMonotone(r: real, g: real, l: real, r': real, g': real, l': real)
    requires 0.0 <= g <= g' && 0.0 <= l' <= l && (g < g' || l' < l)
    requires r * (g + l) == 100.0 * g && r' * (g' + l') == 100.0 * g'
    requires g == l == 0.0 ==> r == 100.0
    requires g' == l' == 0.0 ==> r' == 100.0
    ensures r <= r' && (r == r' ==> r == 100.0 || r' == 0.0)
  {
    if l' == 0.0 {
      ShareExtremes(r', g', l');
      ShareBelow(r, g, l);
    } else if g == 0.0 {
      ShareExtremes(r, g, l);
      ShareExtremes(r', g', l');
      ShareBelow(r', g', l');
    } else {
      CrossProducts(r, g, l, r', g', l');
    }
  }

  lemma ShareBelow(r: real, g: real, l: real)
    requires g >= 0.0 && l >= 0.0 && r * (g + l) == 100.0 * g && (g == l == 0.0 ==> r == 100.0)
    ensures 0.0 <= r <= 100.0
  {
    if g + l > 0.0 {
      assert (100.0 - r) * (g + l) == 100.0 * l;
      NonNegativeShare(r, g + l, 100.0 * g);
      NonNegativeShare(100.0 - r, g + l, 100.0 * l);
    }
  }

  lemma NonNegativeShare(r: real, d: real, v: real)
    requires d > 0.0 && v >= 0.0 && r * d == v
    ensures r >= 0.0 && (v > 0.0 ==> r > 0.0)
  {}

  lemma CrossProducts(r: real, g: real, l: real, r': real, g': real, l': real)
    requires 0.0 < g <= g' && 0.0 < l' <= l && (g < g' || l' < l)
    requires r * (g + l) == 100.0 * g && r' * (g' + l') == 100.0 * g'
    ensures r < r'
  {
    var s, s' := g + l, g' + l';
    CrossPositive(g, l, g', l');
    assert g' * s - g * s' == g' * l - g * l';
    CrossIdentity(r, s, r', s', g, g');
    NonNegativeShare(r' - r, s * s', 100.0 * (g' * s - g * s'));
  }

  lemma CrossPositive(g: real, l: real, g': real, l': real)
    requires 0.0 < g <= g' && 0.0 < l' <= l && (g < g' || l' < l)
    ensures g' * l - g * l' > 0.0
  {
    hide Times;
    TimesOrder(g, g', l);
    TimesOrder(l', l, g);
    TimesSymmetric(g, l);
    TimesSymmetric(g, l');
    PlainTimes(g', l);
    PlainTimes(g, l');
  }

  lemma PlainTimes(x: real, y: real)
    ensures x * y == Times(x, y)
  {}

  lemma CrossIdentity(r: real, s: real, r': real, s': real, g: real, g': real)
    requires r * s == 100.0 * g && r' * s' == 100.0 * g'
    ensures (r' - r) * (s * s') == 100.0 * (g' * s - g * s')
  {
    assert (r' - r) * (s * s') == (r' * s') * s - (r * s) * s';
  }
}
