/** EMA, MACD and RSI in exact arithmetic.  `None` stands for the NaN the
    source returns. */
module Indicators {

  import opened Wrappers
  import opened Reals

  // ---- The smoothing all three indicators share ----

  function Sum(s: seq<real>): real {
    if s == [] then 0.0 else Sum(s[..|s| - 1]) + s[|s| - 1]
  }

  /** Moves `before` the fraction m of the way towards x. */
  function Blend(x: real, before: real, m: real): real {
    Times(x - before, m) + before
  }

  /** Exponential smoothing of `xs` from `seed` with weight `m`. */
  function Smoothed(seed: real, m: real, xs: seq<real>): real {
    if xs == [] then seed
    else Blend(xs[|xs| - 1], Smoothed(seed, m, xs[..|xs| - 1]), m)
  }

  function Average(s: seq<real>): real
    requires s != []
  {
    Ratio(Sum(s), |s| as real)
  }

  /** Seeded with the plain average of the first n entries. */
  function SeededSmooth(s: seq<real>, n: nat, m: real): real
    requires 1 <= n <= |s|
  {
    Smoothed(Average(s[..n]), m, s[n..])
  }

  lemma SeededStart(s: seq<real>, n: nat, m: real)
    requires 1 <= n <= |s|
    ensures SeededSmooth(s[..n], n, m) == Average(s[..n])
  {
    assert s[..n][..n] == s[..n];
  }

  lemma SeededStep(s: seq<real>, n: nat, m: real, i: nat)
    requires 1 <= n <= i < |s|
    ensures SeededSmooth(s[..i + 1], n, m) == Blend(s[i], SeededSmooth(s[..i], n, m), m)
  {
    assert s[..i + 1][..n] == s[..n] == s[..i][..n];
    assert s[..i + 1][n..][..i - n] == s[..i][n..];
  }

  function Lin(a: real, x: real, b: real, y: real): real { Times(a, x) + Times(b, y) }

  /** The series a*p + b*q. */
  function Mix(a: real, p: seq<real>, b: real, q: seq<real>): seq<real>
    requires |p| == |q|
  {
    seq(|p|, i requires 0 <= i < |p| => Lin(a, p[i], b, q[i]))
  }

  lemma MixTakeDrop(a: real, p: seq<real>, b: real, q: seq<real>, n: nat)
    requires |p| == |q| && n <= |p|
    ensures Mix(a, p, b, q)[..n] == Mix(a, p[..n], b, q[..n])
    ensures Mix(a, p, b, q)[n..] == Mix(a, p[n..], b, q[n..])
  {
    hide Lin;
  }

  lemma LinSum(a: real, x: real, u: real, b: real, y: real, v: real)
    ensures Lin(a, x + u, b, y + v) == Lin(a, x, b, y) + Lin(a, u, b, v)
    ensures Lin(a, x - u, b, y - v) == Lin(a, x, b, y) - Lin(a, u, b, v)
    ensures Lin(a, 0.0, b, 0.0) == 0.0
  {
    hide Times;
    TimesAdds(a, x, u);
    TimesAdds(b, y, v);
    TimesAdds(a, 0.0, 0.0);
    TimesAdds(b, 0.0, 0.0);
  }

  lemma LinScale(a: real, x: real, b: real, y: real, m: real)
    ensures Times(Lin(a, x, b, y), m) == Lin(a, Times(x, m), b, Times(y, m))
  {
    hide Times;
    SumTimes(Times(a, x), Times(b, y), m);
    TimesAssociative(a, x, m);
    TimesAssociative(b, y, m);
  }

  lemma LinBlend(a: real, x: real, u: real, b: real, y: real, v: real, m: real)
    ensures Lin(a, Blend(x, u, m), b, Blend(y, v, m)) == Blend(Lin(a, x, b, y), Lin(a, u, b, v), m)
  {
    hide Times, Lin;
    LinSum(a, Times(x - u, m), u, b, Times(y - v, m), v);
    LinScale(a, x - u, b, y - v, m);
    LinSum(a, x, u, b, y, v);
  }

  lemma LinQuotient(a: real, x: real, b: real, y: real, n: real)
    requires n != 0.0
    ensures Ratio(Lin(a, x, b, y), n) == Lin(a, Ratio(x, n), b, Ratio(y, n))
  {
    hide Times, Ratio;
    var u, v := Ratio(x, n), Ratio(y, n);
    RatioTimes(x, n);
    RatioTimes(y, n);
    TimesRatio(Lin(a, u, b, v), n);
    SumTimes(Times(a, u), Times(b, v), n);
    TimesAssociative(a, u, n);
    TimesAssociative(b, v, n);
  }

  lemma {:induction false} SumLinear(a: real, p: seq<real>, b: real, q: seq<real>)
    requires |p| == |q|
    ensures Sum(Mix(a, p, b, q)) == Lin(a, Sum(p), b, Sum(q))
    decreases |p|
  {
    hide Lin;
    if p == [] {
      LinSum(a, 0.0, 0.0, b, 0.0, 0.0);
    } else {
      var n := |p| - 1;
      SumLinear(a, p[..n], b, q[..n]);
      MixTakeDrop(a, p, b, q, n);
      LinSum(a, Sum(p[..n]), p[n], b, Sum(q[..n]), q[n]);
    }
  }

  lemma {:induction false} SmoothedLinear(a: real, e: real, p: seq<real>, b: real, f: real, q: seq<real>, m: real)
    requires |p| == |q|
    ensures Smoothed(Lin(a, e, b, f), m, Mix(a, p, b, q)) == Lin(a, Smoothed(e, m, p), b, Smoothed(f, m, q))
    decreases |p|
  {
    hide Lin, Blend;
    if p != [] {
      var n := |p| - 1;
      SmoothedLinear(a, e, p[..n], b, f, q[..n], m);
      MixTakeDrop(a, p, b, q, n);
      LinBlend(a, p[n], Smoothed(e, m, p[..n]), b, q[n], Smoothed(f, m, q[..n]), m);
    }
  }

  lemma SeededLinear(a: real, p: seq<real>, b: real, q: seq<real>, n: nat, m: real)
    requires |p| == |q| && 1 <= n <= |p|
    ensures SeededSmooth(Mix(a, p, b, q), n, m) == Lin(a, SeededSmooth(p, n, m), b, SeededSmooth(q, n, m))
  {
    hide Lin, Smoothed;
    MixTakeDrop(a, p, b, q, n);
    SumLinear(a, p[..n], b, q[..n]);
    LinQuotient(a, Sum(p[..n]), b, Sum(q[..n]), n as real);
    SmoothedLinear(a, Average(p[..n]), p[n..], b, Average(q[..n]), q[n..], m);
  }

  // ---- A smoothed value stays within its data ----

  ghost predicate Within(s: seq<real>, lo: real, hi: real) {
    forall i | 0 <= i < |s| :: lo <= s[i] <= hi
  }

  lemma {:induction false} SumBounds(s: seq<real>, lo: real, hi: real)
    requires Within(s, lo, hi)
    ensures Times(|s| as real, lo) <= Sum(s) <= Times(|s| as real, hi)
    decreases |s|
  {
    hide Times;
    TimesConstants(lo);
    TimesConstants(hi);
    if s != [] {
      var n := |s| - 1;
      SumBounds(s[..n], lo, hi);
      SumTimes(n as real, 1.0, lo);
      SumTimes(n as real, 1.0, hi);
      assert |s| as real == n as real + 1.0;
    }
  }

  lemma AverageBounds(sum: real, n: real, lo: real, hi: real)
    requires n > 0.0 && Times(n, lo) <= sum <= Times(n, hi)
    ensures lo <= Ratio(sum, n) <= hi
  {
    hide Times, Ratio;
    RatioTimes(sum, n);
    TimesSymmetric(n, lo);
    TimesSymmetric(n, hi);
    TimesOrder(Ratio(sum, n), lo, n);
    TimesOrder(hi, Ratio(sum, n), n);
  }

  /** A weighted mean of two values at or above a bound. */
  lemma MeanAbove(x: real, y: real, m: real, lo: real)
    requires 0.0 <= m <= 1.0 && x >= lo && y >= lo
    ensures Times(x - y, m) + y >= lo
  {
    hide Times;
    TimesConstants(y - lo);
    TimesConstants(x - lo);
    DifferenceTimes(x - lo, y - lo, m);
    TimesSymmetric(y - lo, m);
    DifferenceTimes(1.0, m, y - lo);
    TimesSign(x - lo, m);
    TimesSign(1.0 - m, y - lo);
    assert x - y == (x - lo) - (y - lo);
  }

  lemma ConvexStep(p: real, e: real, m: real, lo: real, hi: real)
    requires 0.0 <= m <= 1.0 && lo <= p <= hi && lo <= e <= hi
    ensures lo <= Blend(p, e, m) <= hi
  {
    hide Times;
    MeanAbove(p, e, m, lo);
    MeanAbove(-p, -e, m, -hi);
    DifferenceTimes(0.0, p - e, m);
    TimesConstants(m);
    assert 0.0 - (p - e) == -p - -e;
  }

  lemma {:induction false} SmoothedWithin(seed: real, m: real, xs: seq<real>, lo: real, hi: real)
    requires 0.0 <= m <= 1.0 && lo <= seed <= hi && Within(xs, lo, hi)
    ensures lo <= Smoothed(seed, m, xs) <= hi
    decreases |xs|
  {
    if xs != [] {
      var n := |xs| - 1;
      SmoothedWithin(seed, m, xs[..n], lo, hi);
      ConvexStep(xs[n], Smoothed(seed, m, xs[..n]), m, lo, hi);
    }
  }

  lemma SeededWithin(s: seq<real>, n: nat, m: real, lo: real, hi: real)
    requires 1 <= n <= |s| && 0.0 <= m <= 1.0 && Within(s, lo, hi)
    ensures lo <= SeededSmooth(s, n, m) <= hi
  {
    SumBounds(s[..n], lo, hi);
    AverageBounds(Sum(s[..n]), n as real, lo, hi);
    SmoothedWithin(Average(s[..n]), m, s[n..], lo, hi);
  }

  method Accumulate(s: seq<real>) returns (sum: real)
    ensures sum == Sum(s)
  {
    sum := 0.0;
    for i := 0 to |s|
      invariant sum == Sum(s[..i])
    {
      assert s[..i + 1][..i] == s[..i];
      sum := sum + s[i];
    }
    assert s[..|s|] == s;
  }

  // ---- EMA ----

  function Multiplier(period: nat): real {
    2.0 / (period as real + 1.0)
  }

  function EmaOf(p: seq<real>, period: nat): real
    requires 1 <= period <= |p|
  {
    SeededSmooth(p, period, Multiplier(period))
  }

  method Ema(prices: seq<real>, period: nat) returns (r: Option<real>)
    ensures r == if 1 <= period <= |prices| then Some(EmaOf(prices, period)) else None
  {
    if period == 0 || |prices| < period {
      return None;
    }
    hide Multiplier, Blend, SeededSmooth;
    var multiplier := Multiplier(period);
    var sum := Accumulate(prices[..period]);
    var ema := sum / period as real;
    SeededStart(prices, period, multiplier);
    for i := period to |prices|
      invariant ema == SeededSmooth(prices[..i], period, multiplier)
    {
      SeededStep(prices, period, multiplier, i);
      ema := Blend(prices[i], ema, multiplier);
    }
    assert prices[..|prices|] == prices;
    return Some(ema);
  }

  /** The EMA lies between any bounds of the series, so between its minimum and maximum. */
  lemma EmaWithinRange(p: seq<real>, period: nat, lo: real, hi: real)
    requires 1 <= period <= |p| && Within(p, lo, hi)
    ensures lo <= EmaOf(p, period) <= hi
  {
    assert period as real + 1.0 >= 2.0;
    SeededWithin(p, period, Multiplier(period), lo, hi);
  }

  // ---- What determines the EMA ----

  lemma SeededSeed(s: seq<real>, n: nat, m: real)
    requires 1 <= n == |s|
    ensures SeededSmooth(s, n, m) == Average(s) && Times(Average(s), n as real) == Sum(s)
  {
    hide Times, Ratio, Smoothed;
    assert s[..n] == s && s[n..] == [];
    SeededStart(s, n, m);
    RatioTimes(Sum(s), n as real);
  }

  lemma SeededMoves(s: seq<real>, n: nat, m: real, x: real)
    requires 1 <= n <= |s|
    ensures SeededSmooth(s + [x], n, m) - SeededSmooth(s, n, m) == Times(x - SeededSmooth(s, n, m), m)
  {
    hide Times, SeededSmooth;
    SeededStep(s + [x], n, m, |s|);
    assert (s + [x])[..|s| + 1] == s + [x] && (s + [x])[..|s|] == s;
  }

  /** The EMA starts as the plain average of its first `n` prices, ... */
  lemma EmaSeed(p: seq<real>, n: nat)
    requires 1 <= n == |p|
    ensures EmaOf(p, n) * n as real == Sum(p)
  {
    hide SeededSmooth, Average;
    SeededSeed(p, n, Multiplier(n));
  }

  lemma SumGrows(s: seq<real>, x: real)
    ensures Sum([]) == 0.0 && Sum(s + [x]) == Sum(s) + x
  {
    assert (s + [x])[..|s|] == s;
  }

  /** ... and each further price moves it 2/(n + 1) of the way: with EmaSeed and
      SumGrows this determines the EMA. */
  lemma EmaMoves(p: seq<real>, n: nat, x: real)
    requires 1 <= n <= |p|
    ensures (n as real + 1.0) * (EmaOf(p + [x], n) - EmaOf(p, n)) == 2.0 * (x - EmaOf(p, n))
  {
    hide SeededSmooth;
    SeededMoves(p, n, Multiplier(n), x);
    TwoParts(n as real + 1.0, x - EmaOf(p, n), EmaOf(p + [x], n) - EmaOf(p, n));
  }

  lemma TwoParts(d: real, x: real, moved: real)
    requires d > 0.0 && moved == Times(x, 2.0 / d)
    ensures d * moved == 2.0 * x
  {
    var m := 2.0 / d;
    assert m * d == 2.0;
    assert d * (x * m) == x * (m * d);
  }

  // ---- MACD ----

  function EmaEntry(p: seq<real>, period: nat, i: nat): real
    requires 1 <= period <= |p| && i < |p|
  {
    if i + 1 < period then 0.0 else EmaOf(p[..i + 1], period)
  }

  /** `MACD::calculateEMA`: the whole series, with zeros before the seed. */
  function EmaSeries(p: seq<real>, period: nat): seq<real>
    requires period >= 1
  {
    if |p| < period then []
    else seq(|p|, i requires 0 <= i < |p| => EmaEntry(p, period, i))
  }

  function Minus(a: seq<real>, b: seq<real>): seq<real>
    requires |a| <= |b|
  {
    seq(|a|, i requires 0 <= i < |a| => a[i] - b[i])
  }

  function Line(p: seq<real>, fast: nat, slow: nat): seq<real>
    requires fast >= 1 && 1 <= slow <= |p|
  {
    Minus(EmaSeries(p, fast), EmaSeries(p, slow))
  }

  function Histogram(p: seq<real>, fast: nat, slow: nat, signal: nat): Option<real>
    requires fast >= 1 && slow >= 1 && signal >= 1
  {
    if |p| < slow then None
    else
      var line := Line(p, fast, slow);
      var smooth := EmaSeries(line, signal);
      if smooth == [] then None else Some(line[|line| - 1] - smooth[|smooth| - 1])
  }

  /** `None` stands for the write before the vector's start that period 0 leads to. */
  method CalculateEma(prices: seq<real>, period: nat) returns (ema: Option<seq<real>>)
    ensures ema == if period == 0 then None else Some(EmaSeries(prices, period))
  {
    hide Blend, SeededSmooth, Multiplier, EmaEntry;
    if |prices| < period {
      return Some([]);
    }
    if period == 0 {
      return None;
    }
    var multiplier := Multiplier(period);
    var out := new real[|prices|](_ => 0.0);
    var sum := Accumulate(prices[..period]);
    out[period - 1] := sum / period as real;
    SeededStart(prices, period, multiplier);
    EntriesBefore(prices, period);
    EntryAt(prices, period, period - 1);
    for i := period to |prices|
      invariant forall k | 0 <= k < i :: out[k] == EmaEntry(prices, period, k)
    {
      SeededStep(prices, period, multiplier, i);
      EntryAt(prices, period, i - 1);
      EntryAt(prices, period, i);
      out[i] := Blend(prices[i], out[i - 1], multiplier);
    }
    assert out[..] == EmaSeries(prices, period);
    ema := Some(out[..]);
  }

  lemma SeriesLength(p: seq<real>, period: nat)
    requires period >= 1
    ensures |EmaSeries(p, period)| == if |p| < period then 0 else |p|
  {}

  lemma EntryAt(p: seq<real>, period: nat, i: nat)
    requires 1 <= period <= i + 1 <= |p|
    ensures EmaEntry(p, period, i) == SeededSmooth(p[..i + 1], period, Multiplier(period))
  {}

  lemma EntriesBefore(p: seq<real>, period: nat)
    requires 1 <= period <= |p|
    ensures forall i | 0 <= i < period - 1 :: EmaEntry(p, period, i) == 0.0
  {}

  method Subtract(a: seq<real>, b: seq<real>) returns (line: seq<real>)
    requires |a| <= |b|
    ensures line == Minus(a, b)
  {
    line := [];
    for i := 0 to |a|
      invariant line == Minus(a, b)[..i]
    {
      line := line + [a[i] - b[i]];
    }
  }

  /** What a call ends in: a number, NaN, or a write outside a vector. */
  datatype Reading = Number(value: real) | NaN | OutOfBounds

  /** A series shorter than the slow period gives NaN whatever the other periods
      are; otherwise a period 0 is out of bounds. */
  method Macd(prices: seq<real>, fast: nat, slow: nat, signal: nat) returns (r: Reading)
    ensures |prices| < slow ==> r.NaN?
    ensures |prices| >= slow ==> (r.OutOfBounds? <==> fast == 0 || slow == 0 || signal == 0)
    ensures fast >= 1 && slow >= 1 && signal >= 1 ==>
      r == match Histogram(prices, fast, slow, signal) { case Some(h) => Number(h) case None => NaN }
  {
    hide EmaEntry, EmaSeries, Minus;
    if |prices| < slow {
      return NaN;
    }
    var fastEma := CalculateEma(prices, fast);
    var slowEma := CalculateEma(prices, slow);
    if fastEma == None || slowEma == None {
      return OutOfBounds;
    }
    SeriesLength(prices, fast);
    SeriesLength(prices, slow);
    var line := Subtract(fastEma.value, slowEma.value);
    var signalLine := CalculateEma(line, signal);
    if signalLine == None {
      return OutOfBounds;
    }
    SeriesLength(line, signal);
    if signalLine.value == [] {
      return NaN;
    }
    return Number(line[|line| - 1] - signalLine.value[|signalLine.value| - 1]);
  }

  /** The line behind the histogram, for a series that covers both periods. */
  lemma LineGrows(p: seq<real>, x: real, fast: nat, slow: nat)
    requires 1 <= fast <= |p| && 1 <= slow <= |p|
    ensures Line(p + [x], fast, slow) == Line(p, fast, slow) + [EmaOf(p + [x], fast) - EmaOf(p + [x], slow)]
    ensures |Line(p, fast, slow)| == |p|
    ensures Line(p, fast, slow)[|p| - 1] == EmaOf(p, fast) - EmaOf(p, slow)
  {
    hide EmaOf;
    var q := p + [x];
    forall i | 0 <= i < |p|
      ensures EmaEntry(q, fast, i) == EmaEntry(p, fast, i) && EmaEntry(q, slow, i) == EmaEntry(p, slow, i)
    {
      assert q[..i + 1] == p[..i + 1];
    }
    assert q[..|q|] == q && p[..|p|] == p;
  }

  /** With every price the histogram becomes (g - 1)/(g + 1) of what it was plus
      what the fast EMA gained on the slow one, g being the signal period. */
  lemma HistogramMoves(p: seq<real>, x: real, fast: nat, slow: nat, g: nat)
    requires 1 <= fast <= |p| && 1 <= slow <= |p| && 1 <= g <= |p|
    ensures var before, after := Histogram(p, fast, slow, g), Histogram(p + [x], fast, slow, g);
      var gained := (EmaOf(p + [x], fast) - EmaOf(p + [x], slow)) - (EmaOf(p, fast) - EmaOf(p, slow));
      && before.Some? && after.Some?
      && (g as real + 1.0) * after.value == (g as real - 1.0) * (before.value + gained)
  {
    hide EmaOf, Line, Minus, EmaEntry;
    LineGrows(p, x, fast, slow);
    var line := Line(p, fast, slow);
    var last := EmaOf(p + [x], fast) - EmaOf(p + [x], slow);
    HistogramIs(p, fast, slow, g);
    HistogramIs(p + [x], fast, slow, g);
    LineLength(p + [x], fast, slow);
    EmaMoves(line, g, last);
    SignalStep(g as real, last, EmaOf(line, g), EmaOf(line + [last], g), line[|p| - 1]);
  }

  lemma LineLength(p: seq<real>, fast: nat, slow: nat)
    requires 1 <= fast <= |p| && 1 <= slow <= |p|
    ensures |Line(p, fast, slow)| == |p|
  {}

  /** The histogram is the line's last entry above the EMA of the line. */
  lemma HistogramIs(p: seq<real>, fast: nat, slow: nat, g: nat)
    requires 1 <= fast <= |p| && 1 <= slow <= |p| && 1 <= g <= |p|
    ensures var line := Line(p, fast, slow);
      |line| == |p| && Histogram(p, fast, slow, g) == Some(line[|p| - 1] - EmaOf(line, g))
  {
    hide EmaOf;
    LineLength(p, fast, slow);
    var line := Line(p, fast, slow);
    assert line[..|p|] == line;
  }

  lemma SignalStep(g: real, last: real, signal: real, signal': real, line: real)
    requires (g + 1.0) * (signal' - signal) == 2.0 * (last - signal)
    ensures (g + 1.0) * (last - signal') == (g - 1.0) * ((line - signal) + (last - line))
  {
    assert (g + 1.0) * (last - signal') == (g + 1.0) * (last - signal) - (g + 1.0) * (signal' - signal);
    assert (g + 1.0) * (last - signal) == (g - 1.0) * (last - signal) + 2.0 * (last - signal);
  }

  /** Prices 1 and 4 with periods 1, 2 and 2: line 1, 3/2 and signal 5/4. */
  lemma HistogramExample()
    ensures Histogram([1.0, 4.0], 1, 2, 2) == Some(0.25)
  {
    hide EmaOf, Line, Histogram, Sum;
    var p := [1.0, 4.0];
    HistogramIs(p, 1, 2, 2);
    ExampleLine();
    EmaSeed(Line(p, 1, 2), 2);
    SumTwo(1.0, 1.5);
  }

  lemma ExampleLine()
    ensures Line([1.0, 4.0], 1, 2) == [1.0, 1.5]
  {
    hide EmaOf, Sum;
    var p := [1.0, 4.0];
    assert p[..1] == [1.0] && p[..2] == p;
    EmaSeed([1.0], 1);
    SumGrows([], 1.0);
    assert [] + [1.0] == [1.0];
    EmaMoves([1.0], 1, 4.0);
    assert [1.0] + [4.0] == p;
    EmaSeed(p, 2);
    SumTwo(1.0, 4.0);
  }

  lemma SumTwo(a: real, b: real)
    ensures Sum([a, b]) == a + b
  {
    SumGrows([], a);
    SumGrows([a], b);
    assert [] + [a] == [a] && [a] + [b] == [a, b];
  }

  /** The two EMA implementations agree on their common result. */
  lemma EmaIsLastOfSeries(p: seq<real>, period: nat)
    requires 1 <= period <= |p|
    ensures |EmaSeries(p, period)| == |p| && EmaSeries(p, period)[|p| - 1] == EmaOf(p, period)
  {
    assert p[..|p| - 1 + 1] == p;
  }

  /** A histogram exists exactly when the series covers all three periods. */
  lemma HistogramExists(p: seq<real>, fast: nat, slow: nat, signal: nat)
    requires fast >= 1 && slow >= 1 && signal >= 1
    ensures Histogram(p, fast, slow, signal).Some? <==> |p| >= fast && |p| >= slow && |p| >= signal
  {}

  lemma EmaSeriesLinear(a: real, p: seq<real>, b: real, q: seq<real>, period: nat)
    requires |p| == |q| && period >= 1
    ensures EmaSeries(Mix(a, p, b, q), period) == Mix(a, EmaSeries(p, period), b, EmaSeries(q, period))
  {
    hide Lin, SeededSmooth, Multiplier;
    if |p| >= period {
      forall i | 0 <= i < |p|
        ensures EmaSeries(Mix(a, p, b, q), period)[i] == Mix(a, EmaSeries(p, period), b, EmaSeries(q, period))[i]
      {
        LinSum(a, 0.0, 0.0, b, 0.0, 0.0);
        if i + 1 >= period {
          MixTakeDrop(a, p, b, q, i + 1);
          SeededLinear(a, p[..i + 1], b, q[..i + 1], period, Multiplier(period));
        }
      }
    }
  }

  lemma MinusLinear(a: real, p: seq<real>, b: real, q: seq<real>, p': seq<real>, q': seq<real>)
    requires |p| == |q| <= |p'| == |q'|
    ensures Minus(Mix(a, p, b, q), Mix(a, p', b, q')) == Mix(a, Minus(p, p'), b, Minus(q, q'))
  {
    hide Lin;
    forall i | 0 <= i < |p|
      ensures Minus(Mix(a, p, b, q), Mix(a, p', b, q'))[i] == Mix(a, Minus(p, p'), b, Minus(q, q'))[i]
    {
      LinSum(a, p[i], p'[i], b, q[i], q'[i]);
    }
  }

  lemma LineLinear(a: real, p: seq<real>, b: real, q: seq<real>, fast: nat, slow: nat)
    requires |p| == |q| && fast >= 1 && 1 <= slow <= |p|
    ensures Line(Mix(a, p, b, q), fast, slow) == Mix(a, Line(p, fast, slow), b, Line(q, fast, slow))
  {
    hide Lin, EmaEntry;
    EmaSeriesLinear(a, p, b, q, fast);
    EmaSeriesLinear(a, p, b, q, slow);
    MinusLinear(a, EmaSeries(p, fast), b, EmaSeries(q, fast), EmaSeries(p, slow), EmaSeries(q, slow));
  }

  /** The MACD histogram is a linear functional of the price series. */
  lemma HistogramLinear(a: real, p: seq<real>, b: real, q: seq<real>, fast: nat, slow: nat, signal: nat)
    requires |p| == |q| && fast >= 1 && slow >= 1 && signal >= 1
    requires fast <= |p| && slow <= |p| && signal <= |p|
    ensures Histogram(p, fast, slow, signal).Some? && Histogram(q, fast, slow, signal).Some?
    ensures Histogram(Mix(a, p, b, q), fast, slow, signal)
         == Some(Lin(a, Histogram(p, fast, slow, signal).value, b, Histogram(q, fast, slow, signal).value))
  {
    hide Lin, EmaEntry;
    var lp, lq, n := Line(p, fast, slow), Line(q, fast, slow), |p| - 1;
    LineLinear(a, p, b, q, fast, slow);
    EmaSeriesLinear(a, lp, b, lq, signal);
    LinSum(a, lp[n], EmaSeries(lp, signal)[n], b, lq[n], EmaSeries(lq, signal)[n]);
  }
}
