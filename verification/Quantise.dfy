/** Rounding to steps and ticks, post-only repricing and the entry ladder, in
    exact arithmetic. */
module Quantise {
  import opened Reals

  datatype Market = Market(tick: real, qtyStep: real, minQty: real) {
    predicate Valid() {
      tick > 0.0 && 0.0 < minQty <= qtyStep
    }
  }

  /** The two configurations the client knows. */
  const DEFAULT_MARKET := Market(0.01, 1.0, 0.00001)
  const WIF_MARKET := Market(0.0001, 0.01, 0.01)

  /** `std::round`: halves go away from zero. */
  function Round(x: real): int {
    if x >= 0.0 then (x + 0.5).Floor else -((-x + 0.5).Floor)
  }

  function Multiple(n: int, unit: real): real { Times(n as real, unit) }

  function ToGrid(x: real, unit: real): real
    requires unit > 0.0
  {
    Multiple(Round(Ratio(x, unit)), unit)
  }

  ghost predicate OnGrid(x: real, unit: real) {
    exists n: int :: x == Multiple(n, unit)
  }

  lemma ConfiguredMarkets()
    ensures DEFAULT_MARKET.Valid() && DEFAULT_MARKET.tick == 0.01 && DEFAULT_MARKET.qtyStep == 1.0
    ensures WIF_MARKET.Valid() && WIF_MARKET.tick == 0.0001 && WIF_MARKET.qtyStep == WIF_MARKET.minQty == 0.01
  {}

  // ---- Rounding ----

  lemma RoundNear(x: real)
    ensures -0.5 <= Round(x) as real - x <= 0.5
    ensures x >= 0.0 ==> Round(x) as real - x > -0.5
  {}

  /** Halves go away from zero, on both sides of it. */
  lemma RoundHalves(n: nat)
    ensures Round(n as real + 0.5) == n + 1 && Round(-(n as real + 0.5)) == -(n + 1)
  {}

  lemma RoundMonotone(x: real, y: real)
    requires x <= y
    ensures Round(x) <= Round(y)
  {}

  lemma RoundExact(n: int)
    ensures Round(n as real) == n
  {}

  lemma RoundUnitStep(x: real)
    requires Round(x) >= 1
    ensures Round(x + 1.0) == Round(x) + 1
  {}

  lemma MultipleOrder(a: int, b: int, unit: real)
    requires unit > 0.0
    ensures a < b <==> Multiple(a, unit) < Multiple(b, unit)
    ensures a == b <==> Multiple(a, unit) == Multiple(b, unit)
  {
    hide Times;
    TimesOrder(a as real, b as real, unit);
  }

  lemma MultipleUnits(unit: real)
    ensures Multiple(0, unit) == 0.0 && Multiple(1, unit) == unit
  {
    hide Times;
    TimesConstants(unit);
  }

  lemma MultipleNext(a: int, unit: real)
    ensures Multiple(a + 1, unit) == Multiple(a, unit) + unit
  {
    hide Times;
    SumTimes(a as real, 1.0, unit);
    TimesConstants(unit);
  }

  lemma GridExact(n: int, unit: real)
    requires unit > 0.0
    ensures Ratio(Multiple(n, unit), unit) == n as real
    ensures ToGrid(Multiple(n, unit), unit) == Multiple(n, unit)
  {
    hide Times, Ratio, Round;
    TimesRatio(n as real, unit);
    RoundExact(n);
  }

  /** A rounded value is at most half a unit away. */
  lemma GridNear(x: real, unit: real)
    requires unit > 0.0
    ensures x - unit / 2.0 <= ToGrid(x, unit) <= x + unit / 2.0
  {
    hide Times, Ratio, Round;
    RatioTimes(x, unit);
    RoundNear(Ratio(x, unit));
    ScaledNear(Round(Ratio(x, unit)) as real, Ratio(x, unit), unit);
  }

  /** No grid point is nearer. */
  lemma GridNearest(x: real, unit: real, n: int)
    requires unit > 0.0
    ensures var d, e := ToGrid(x, unit) - x, n as real * unit - x;
      (if d < 0.0 then -d else d) <= if e < 0.0 then -e else e
  {
    GridNear(x, unit);
    hide Times, Ratio, Round;
    var r := Round(Ratio(x, unit));
    MultipleOrder(n, r, unit);
    MultipleNext(r, unit);
    MultipleNext(r - 1, unit);
    MultipleOrder(n, r - 1, unit);
    MultipleOrder(r + 1, n, unit);
    assert Multiple(n, unit) == n as real * unit by { PlainMultiple(n, unit); }
  }

  lemma PlainMultiple(n: int, unit: real)
    ensures Multiple(n, unit) == n as real * unit
  {}

  lemma ScaledNear(r: real, q: real, unit: real)
    requires unit > 0.0 && -0.5 <= r - q <= 0.5
    ensures Times(q, unit) - unit / 2.0 <= Times(r, unit) <= Times(q, unit) + unit / 2.0
  {
    hide Times;
    TimesConstants(unit);
    DifferenceTimes(q, 0.5, unit);
    SumTimes(q, 0.5, unit);
    TimesOrder(r, q - 0.5, unit);
    TimesOrder(q + 0.5, r, unit);
  }

  // ---- Quantities ----

  function FormatQuantity(m: Market, qty: real): real
    requires m.qtyStep > 0.0
  {
    var rounded := ToGrid(qty, m.qtyStep);
    var lifted := if rounded == 0.0 && qty > 0.0 then m.qtyStep else rounded;
    if lifted < m.minQty then m.minQty else lifted
  }

  /** Steps a positive quantity is rounded to: the nearest number, but at least one. */
  function Steps(m: Market, qty: real): int
    requires m.qtyStep > 0.0
  {
    var n := Round(Ratio(qty, m.qtyStep));
    if n < 1 then 1 else n
  }

  lemma PositiveQuantity(m: Market, qty: real)
    requires m.Valid() && qty > 0.0
    ensures FormatQuantity(m, qty) == Multiple(Steps(m, qty), m.qtyStep) >= m.qtyStep
  {
    hide Multiple, Ratio;
    var n := Round(Ratio(qty, m.qtyStep));
    RatioSign(qty, m.qtyStep);
    MultipleUnits(m.qtyStep);
    MultipleOrder(n, 0, m.qtyStep);
    MultipleOrder(0, n, m.qtyStep);
    MultipleOrder(n, 1, m.qtyStep);
  }

  lemma OtherQuantity(m: Market, qty: real)
    requires m.Valid() && qty <= 0.0
    ensures FormatQuantity(m, qty) == m.minQty
  {
    hide Multiple, Ratio;
    var n := Round(Ratio(qty, m.qtyStep));
    RatioSign(qty, m.qtyStep);
    MultipleUnits(m.qtyStep);
    MultipleOrder(0, n, m.qtyStep);
  }

  /** The guard of the ladder against a quantity up to 0 never fires. */
  lemma NeverNothing(m: Market, qty: real)
    requires m.Valid()
    ensures FormatQuantity(m, qty) > 0.0
  {
    hide FormatQuantity, Multiple, Ratio;
    if qty > 0.0 { PositiveQuantity(m, qty); } else { OtherQuantity(m, qty); }
  }

  /** Asking for more never orders less. */
  lemma QuantityMonotone(m: Market, a: real, b: real)
    requires m.Valid() && a <= b
    ensures FormatQuantity(m, a) <= FormatQuantity(m, b)
  {
    hide FormatQuantity, Multiple, Ratio, Round;
    if a > 0.0 {
      PositiveQuantity(m, a);
      PositiveQuantity(m, b);
      RatioOrder(b, a, m.qtyStep);
      RoundMonotone(Ratio(a, m.qtyStep), Ratio(b, m.qtyStep));
      MultipleOrder(Steps(m, b), Steps(m, a), m.qtyStep);
    } else {
      OtherQuantity(m, a);
      if b > 0.0 { PositiveQuantity(m, b); } else { OtherQuantity(m, b); }
    }
  }

  /** Formatting twice is formatting once exactly for positive quantities, or
      on a market whose minimum is its step.  (`send_order` formats twice.) */
  lemma QuantityIdempotent(m: Market, qty: real)
    requires m.Valid()
    ensures FormatQuantity(m, FormatQuantity(m, qty)) == FormatQuantity(m, qty)
       <==> qty > 0.0 || m.minQty == m.qtyStep
  {
    hide FormatQuantity, Multiple, Ratio, Round;
    if qty > 0.0 {
      var n := Steps(m, qty);
      PositiveQuantity(m, qty);
      PositiveQuantity(m, Multiple(n, m.qtyStep));
      GridExact(n, m.qtyStep);
      RoundExact(n);
    } else {
      OtherQuantity(m, qty);
      PositiveQuantity(m, m.minQty);
      if m.minQty == m.qtyStep {
        MultipleUnits(m.qtyStep);
        GridExact(1, m.qtyStep);
        RoundExact(1);
      }
    }
  }

  /** On the default market an order for nothing goes out as an order for one. */
  lemma ZeroBecomesOne()
    ensures FormatQuantity(DEFAULT_MARKET, FormatQuantity(DEFAULT_MARKET, 0.0)) == 1.0
    ensures forall qty: real :: qty > 0.0 ==> FormatQuantity(WIF_MARKET, qty) >= 0.01
  {
    OtherQuantity(DEFAULT_MARKET, 0.0);
    PositiveQuantity(DEFAULT_MARKET, 0.00001);
    assert Round(0.00001 / 1.0) == 0;
    forall qty: real | qty > 0.0 ensures FormatQuantity(WIF_MARKET, qty) >= 0.01 {
      PositiveQuantity(WIF_MARKET, qty);
    }
  }

  // ---- Post-only repricing ----

  datatype OrderSide = Buy | Sell

  /** What `send_order` puts in the price field of a post-only limit order, and
      whether its "adjustment failed" branch was taken. */
  datatype Priced = Priced(price: real, adjusted: bool, failed: bool)

  predicate Crosses(side: OrderSide, price: real, bid: real, ask: real) {
    match side
    case Buy => price >= ask && ask > 0.0
    case Sell => price <= bid && bid > 0.0
  }

  function PostOnlyPrice(tick: real, side: OrderSide, price: real, bid: real, ask: real): Priced
    requires tick > 0.0
  {
    if Crosses(side, price, bid, ask) then
      var target := if side.Buy? then ask - tick else bid + tick;
      var adjusted := ToGrid(target, tick);
      if Crosses(side, adjusted, bid, ask) then Priced(ToGrid(price, tick), false, true)
      else Priced(ToGrid(adjusted, tick), true, false)
    else Priced(ToGrid(price, tick), false, false)
  }

  /** A crossing order is always repriced at least half a tick inside the
      opposite quote, on the grid; the failure branch is unreachable. */
  lemma RepricedPassively(tick: real, side: OrderSide, price: real, bid: real, ask: real)
    requires tick > 0.0
    ensures var p := PostOnlyPrice(tick, side, price, bid, ask);
      && !p.failed
      && OnGrid(p.price, tick)
      && (p.adjusted <==> if side.Buy? then ask > 0.0 && price >= ask else bid > 0.0 && price <= bid)
      && (p.adjusted <==> Crosses(side, price, bid, ask))
      && (p.adjusted && side.Buy? ==> p.price <= ask - tick / 2.0)
      && (p.adjusted && side.Sell? ==> p.price >= bid + tick / 2.0)
  {
    var target := if side.Buy? then ask - tick else bid + tick;
    hide Multiple, Times, Ratio, Round;
    GridNear(target, tick);
    GridExact(Round(Ratio(target, tick)), tick);
    assert ToGrid(price, tick) == Multiple(Round(Ratio(price, tick)), tick);
  }

  /** How far the price sent is from the one meant: half a tick from one tick
      inside the opposite quote if it was repriced, from the request if not. */
  lemma PostOnlyNear(tick: real, side: OrderSide, price: real, bid: real, ask: real)
    requires tick > 0.0
    ensures var p := PostOnlyPrice(tick, side, price, bid, ask);
      var meant := if !p.adjusted then price else if side.Buy? then ask - tick else bid + tick;
      OnGrid(p.price, tick) && meant - tick / 2.0 <= p.price <= meant + tick / 2.0
  {
    hide Multiple, Ratio, Round;
    var target := if side.Buy? then ask - tick else bid + tick;
    RepricedPassively(tick, side, price, bid, ask);
    GridNear(target, tick);
    GridNear(price, tick);
    GridExact(Round(Ratio(target, tick)), tick);
  }

  /** A repriced purchase keeps a positive price exactly when the ask is at least
      one and a half ticks; a repriced sale always does. */
  lemma RepricedPositive(tick: real, side: OrderSide, price: real, bid: real, ask: real)
    requires tick > 0.0 && Crosses(side, price, bid, ask)
    ensures PostOnlyPrice(tick, side, price, bid, ask).price > 0.0 <==> side.Sell? || ask >= tick + tick / 2.0
  {
    hide Multiple, Ratio, Round;
    var target := if side.Buy? then ask - tick else bid + tick;
    RepricedPassively(tick, side, price, bid, ask);
    GridExact(Round(Ratio(target, tick)), tick);
    if side.Buy? { PositiveOnGrid(target, tick); }
  }

  lemma PositiveOnGrid(x: real, tick: real)
    requires tick > 0.0
    ensures ToGrid(x, tick) > 0.0 <==> x >= tick / 2.0
  {
    hide Multiple, Times, Ratio, Round;
    var q := Ratio(x, tick);
    RoundPositive(q);
    MultipleUnits(tick);
    MultipleOrder(0, Round(q), tick);
    RatioTimes(x, tick);
    TimesConstants(tick);
    TimesOrder(q, 0.5, tick);
  }

  lemma RoundPositive(q: real)
    ensures Round(q) > 0 <==> q >= 0.5
  {}

  /** With the ask at one tick a crossing purchase is sent at price 0. */
  lemma RepricedToZero()
    ensures PostOnlyPrice(0.01, Buy, 0.02, 0.0, 0.01) == Priced(0.0, true, false)
  {
    RepricedPassively(0.01, Buy, 0.02, 0.0, 0.01);
    assert Ratio(0.0, 0.01) == 0.0 && Round(0.0) == 0;
  }

  /** The grid points next to a price, counted in ticks: the first not below it, the last not above it. */
  function TicksUp(x: real, tick: real): int
    requires tick > 0.0
  {
    -((-Ratio(x, tick)).Floor)
  }

  function TicksDown(x: real, tick: real): int
    requires tick > 0.0
  {
    Ratio(x, tick).Floor
  }

  /** The check looks at the unrounded price, so an order just short of the
      quote escapes it and is then rounded onto the quote or beyond.  The price
      sent is passive exactly when the order was repriced, or a purchase lies
      more than half a tick below the first grid point not below the ask, or a
      sale at least half a tick above the last grid point not above the bid. */
  lemma PassiveExactlyWhen(tick: real, price: real, bid: real, ask: real)
    requires tick > 0.0 && price > 0.0
    ensures var p := PostOnlyPrice(tick, Buy, price, bid, ask).price;
      var q := PostOnlyPrice(tick, Sell, price, bid, ask).price;
      && (ask > 0.0 ==> (p < ask <==> price >= ask || price < Multiple(TicksUp(ask, tick), tick) - tick / 2.0))
      && (bid > 0.0 ==> (q > bid <==> price <= bid || price >= Multiple(TicksDown(bid, tick) + 1, tick) - tick / 2.0))
  {
    hide Multiple, Ratio, Round, TicksUp, TicksDown;
    RepricedPassively(tick, Buy, price, bid, ask);
    RepricedPassively(tick, Sell, price, bid, ask);
    var n, up, down := Round(Ratio(price, tick)), TicksUp(ask, tick), TicksDown(bid, tick);
    BelowGridPoint(tick, price, up);
    BelowGridPoint(tick, price, down + 1);
    BelowQuote(tick, n, ask);
    AboveQuote(tick, n, bid);
    MultipleOrder(n, up, tick);
    MultipleOrder(n, down + 1, tick);
  }

  lemma BelowQuote(tick: real, n: int, ask: real)
    requires tick > 0.0
    ensures Multiple(n, tick) < ask <==> n < TicksUp(ask, tick)
  {
    hide Times, Ratio;
    RatioTimes(ask, tick);
    TimesOrder(n as real, Ratio(ask, tick), tick);
  }

  lemma AboveQuote(tick: real, n: int, bid: real)
    requires tick > 0.0
    ensures Multiple(n, tick) > bid <==> n >= TicksDown(bid, tick) + 1
  {
    hide Times, Ratio;
    RatioTimes(bid, tick);
    TimesOrder(Ratio(bid, tick), n as real, tick);
  }

  lemma RoundBelow(q: real, n: int)
    requires q >= 0.0
    ensures Round(q) < n <==> q < n as real - 0.5
  {}

  /** A positive price is rounded below a grid point exactly when it is more than half a tick below it. */
  lemma BelowGridPoint(tick: real, price: real, n: int)
    requires tick > 0.0 && price > 0.0
    ensures ToGrid(price, tick) < Multiple(n, tick) <==> price < Multiple(n, tick) - tick / 2.0
  {
    hide Times, Ratio, Round;
    var q, half := Ratio(price, tick), n as real - 0.5;
    RatioTimes(price, tick);
    RatioSign(price, tick);
    RoundBelow(q, n);
    MultipleOrder(Round(q), n, tick);
    TimesOrder(q, half, tick);
    DifferenceTimes(n as real, 0.5, tick);
    TimesConstants(tick);
  }

  /** With the bid at 99.99 and the ask at 100.00 a post-only purchase at 99.996 is sent at the ask. */
  lemma SentOntoTheQuote()
    ensures PostOnlyPrice(0.01, Buy, 99.996, 99.99, 100.0) == Priced(100.0, false, false)
  {
    assert Ratio(99.996, 0.01) == 9999.6;
    assert Round(9999.6) == 10000;
  }

  /** A sale half a tick above the bid goes out passively. */
  lemma HalfATickIsEnoughToSell()
    ensures PostOnlyPrice(0.01, Sell, 99.995, 99.99, 100.0) == Priced(100.0, false, false)
  {
    assert Ratio(99.995, 0.01) == 9999.5;
    assert Round(9999.5) == 10000;
  }

  // ---- The entry ladder ----

  const NUM_LEVELS: nat := 3
  const MAX_FALLBACK_ATTEMPTS: nat := 3
  const FALLBACK_SAFETY_TICK_INCREMENT: nat := 2

  /** Price of the level `ticks` ticks behind the near quote. */
  function LevelPrice(tick: real, side: OrderSide, bid: real, ask: real, ticks: nat): real
    requires tick > 0.0
  {
    var raw := if side.Buy? then bid - Times(ticks as real, tick) else ask + Times(ticks as real, tick);
    ToGrid(raw, tick)
  }

  function Ticks(attempt: nat, level: nat): nat {
    level + attempt * FALLBACK_SAFETY_TICK_INCREMENT
  }

  /** A level lies its number of ticks behind the near quote, up to half a tick
      of rounding, and exactly there if the quote is on the grid. */
  lemma LevelDistance(tick: real, side: OrderSide, bid: real, ask: real, ticks: nat)
    requires tick > 0.0
    ensures var meant := if side.Buy? then bid - ticks as real * tick else ask + ticks as real * tick;
      meant - tick / 2.0 <= LevelPrice(tick, side, bid, ask, ticks) <= meant + tick / 2.0
  {
    PlainMultiple(ticks, tick);
    hide Ratio, Round;
    var raw := if side.Buy? then bid - Times(ticks as real, tick) else ask + Times(ticks as real, tick);
    GridNear(raw, tick);
  }

  lemma LevelOnGrid(tick: real, side: OrderSide, quote: int, ticks: nat, bid: real, ask: real)
    requires tick > 0.0 && (if side.Buy? then bid else ask) == quote as real * tick
    ensures LevelPrice(tick, side, bid, ask, ticks)
         == (if side.Buy? then quote - ticks else quote + ticks) as real * tick
  {
    var n := if side.Buy? then quote - ticks else quote + ticks;
    PlainMultiple(quote, tick);
    PlainMultiple(n, tick);
    hide Ratio, Round, Times;
    DifferenceTimes(quote as real, ticks as real, tick);
    SumTimes(quote as real, ticks as real, tick);
    assert (quote - ticks) as real == quote as real - ticks as real;
    assert (quote + ticks) as real == quote as real + ticks as real;
    GridExact(n, tick);
  }

  /** Every level is on the grid and strictly behind the near quote. */
  lemma LevelPassive(tick: real, side: OrderSide, bid: real, ask: real, ticks: nat)
    requires tick > 0.0 && ticks >= 1
    ensures var p := LevelPrice(tick, side, bid, ask, ticks);
      && OnGrid(p, tick)
      && (side.Buy? ==> p < bid)
      && (side.Sell? ==> p > ask)
  {
    hide Multiple, Times, Ratio, Round;
    var raw := if side.Buy? then bid - Times(ticks as real, tick) else ask + Times(ticks as real, tick);
    TimesOrder(ticks as real, 1.0, tick);
    TimesConstants(tick);
    GridNear(raw, tick);
    assert ToGrid(raw, tick) == Multiple(Round(Ratio(raw, tick)), tick);
  }

  /** Neighbouring levels are exactly one tick apart if the lower one can be
      placed, and deeper levels are never nearer the market. */
  lemma LevelsOneTickApart(tick: real, side: OrderSide, bid: real, ask: real, ticks: nat)
    requires tick > 0.0
    ensures var near, far := LevelPrice(tick, side, bid, ask, ticks), LevelPrice(tick, side, bid, ask, ticks + 1);
      && (side.Buy? ==> far <= near && (far > 0.0 ==> near == far + tick))
      && (side.Sell? ==> near <= far && (near > 0.0 ==> far == near + tick))
  {
    hide Multiple, Times, Ratio, Round;
    var t := Times(ticks as real, tick);
    SumTimes(ticks as real, 1.0, tick);
    TimesConstants(tick);
    assert (ticks + 1) as real == ticks as real + 1.0;
    if side.Buy? {
      OneTickUp(tick, bid - (t + tick), bid - t);
    } else {
      OneTickUp(tick, ask + t, ask + (t + tick));
    }
  }

  lemma OneTickUp(tick: real, x: real, y: real)
    requires tick > 0.0 && y == x + tick
    ensures ToGrid(x, tick) <= ToGrid(y, tick)
    ensures ToGrid(x, tick) > 0.0 ==> ToGrid(y, tick) == ToGrid(x, tick) + tick
  {
    hide Multiple, Ratio, Round;
    var q := Ratio(x, tick);
    RatioNext(x, tick);
    RoundMonotone(q, q + 1.0);
    MultipleOrder(Round(q + 1.0), Round(q), tick);
    MultipleOrder(0, Round(q), tick);
    MultipleUnits(tick);
    if Round(q) >= 1 {
      RoundUnitStep(q);
      MultipleNext(Round(q), tick);
    }
  }

  datatype Order = Order(price: real, qty: real)

  /** What one attempt to place a ladder works with; `qty` is the quantity of each level. */
  datatype Ladder = Ladder(tick: real, side: OrderSide, qty: real, bid: real, ask: real) {
    function Price(attempt: nat, level: nat): real
      requires tick > 0.0
    {
      LevelPrice(tick, side, bid, ask, Ticks(attempt, level))
    }
  }

  /** The exchange's answers: the order id for an order at (attempt, level), empty if none came back. */
  type Exchange = (nat, nat, Order) -> string

  /** Orders submitted for the first `levels` levels of one attempt. */
  function Submitted(l: Ladder, attempt: nat, levels: nat): seq<Order>
    requires l.tick > 0.0
  {
    if levels == 0 then []
    else if l.Price(attempt, levels) > 0.0
    then Submitted(l, attempt, levels - 1) + [Order(l.Price(attempt, levels), l.qty)]
    else Submitted(l, attempt, levels - 1)
  }

  /** Ids accepted among them. */
  function Accepted(l: Ladder, x: Exchange, attempt: nat, levels: nat): seq<string>
    requires l.tick > 0.0
  {
    if levels == 0 then []
    else
      var id := x(attempt, levels, Order(l.Price(attempt, levels), l.qty));
      if l.Price(attempt, levels) > 0.0 && id != ""
      then Accepted(l, x, attempt, levels - 1) + [id] else Accepted(l, x, attempt, levels - 1)
  }

  lemma {:induction false} AcceptedAtMost(l: Ladder, x: Exchange, attempt: nat, levels: nat)
    requires l.tick > 0.0
    ensures |Accepted(l, x, attempt, levels)| <= |Submitted(l, attempt, levels)| <= levels
  {
    if levels > 0 {
      AcceptedAtMost(l, x, attempt, levels - 1);
    }
  }

  ghost predicate AscendingLevels(at: seq<nat>, levels: nat) {
    && (forall i | 0 <= i < |at| :: 1 <= at[i] <= levels)
    && forall i, j | 0 <= i < j < |at| :: at[i] < at[j]
  }

  /** The order of a level, if its price allows one. */
  predicate CanPlace(l: Ladder, attempt: nat, level: nat)
    requires l.tick > 0.0
  {
    l.Price(attempt, level) > 0.0
  }

  function Answer(l: Ladder, x: Exchange, attempt: nat, level: nat): string
    requires l.tick > 0.0
  {
    x(attempt, level, Order(l.Price(attempt, level), l.qty))
  }

  /** `os` are the orders of exactly the levels that can be placed, in order of level. */
  ghost predicate OrdersOf(l: Ladder, attempt: nat, levels: nat, os: seq<Order>, at: seq<nat>)
    requires l.tick > 0.0
  {
    && |at| == |os| && AscendingLevels(at, levels)
    && (forall level | 1 <= level <= levels :: level in at <==> CanPlace(l, attempt, level))
    && forall i | 0 <= i < |os| :: os[i] == Order(l.Price(attempt, at[i]), l.qty)
  }

  /** `ids` are the exchange's non-empty answers to exactly those orders, in order of level. */
  ghost predicate IdsOf(l: Ladder, x: Exchange, attempt: nat, levels: nat, ids: seq<string>, at: seq<nat>)
    requires l.tick > 0.0
  {
    && |at| == |ids| && AscendingLevels(at, levels)
    && (forall level | 1 <= level <= levels ::
          level in at <==> CanPlace(l, attempt, level) && Answer(l, x, attempt, level) != "")
    && forall i | 0 <= i < |ids| :: ids[i] == Answer(l, x, attempt, at[i])
  }

  /** The orders an attempt sends, and the ids it keeps. */
  ghost predicate AttemptOrders(l: Ladder, attempt: nat, os: seq<Order>)
    requires l.tick > 0.0
  {
    exists at :: OrdersOf(l, attempt, NUM_LEVELS, os, at)
  }

  ghost predicate AttemptIds(l: Ladder, x: Exchange, attempt: nat, ids: seq<string>)
    requires l.tick > 0.0
  {
    exists at :: IdsOf(l, x, attempt, NUM_LEVELS, ids, at)
  }

  /** Every order that could be placed was answered by an empty id. */
  ghost predicate AllRefused(l: Ladder, x: Exchange, attempt: nat)
    requires l.tick > 0.0
  {
    forall level | 1 <= level <= NUM_LEVELS && CanPlace(l, attempt, level) :: Answer(l, x, attempt, level) == ""
  }

  lemma AppendLevel(at: seq<nat>, level: nat)
    requires level >= 1 && AscendingLevels(at, level - 1)
    ensures AscendingLevels(at, level) && AscendingLevels(at + [level], level)
    ensures level !in at && forall k :: k in at + [level] <==> k in at || k == level
  {}

  lemma {:induction false} SubmittedExactly(l: Ladder, attempt: nat, levels: nat) returns (at: seq<nat>)
    requires l.tick > 0.0
    ensures OrdersOf(l, attempt, levels, Submitted(l, attempt, levels), at)
  {
    hide LevelPrice, AscendingLevels;
    if levels == 0 {
      at := [];
      assert AscendingLevels(at, 0) by { NoLevels(); }
    } else {
      at := SubmittedExactly(l, attempt, levels - 1);
      AppendLevel(at, levels);
      if CanPlace(l, attempt, levels) { at := at + [levels]; }
    }
  }

  lemma NoLevels()
    ensures AscendingLevels([], 0)
  {}

  lemma {:induction false} AcceptedExactly(l: Ladder, x: Exchange, attempt: nat, levels: nat) returns (at: seq<nat>)
    requires l.tick > 0.0
    ensures IdsOf(l, x, attempt, levels, Accepted(l, x, attempt, levels), at)
  {
    hide LevelPrice, AscendingLevels;
    if levels == 0 {
      at := [];
      assert AscendingLevels(at, 0) by { NoLevels(); }
    } else {
      at := AcceptedExactly(l, x, attempt, levels - 1);
      AppendLevel(at, levels);
      if CanPlace(l, attempt, levels) && Answer(l, x, attempt, levels) != "" { at := at + [levels]; }
    }
  }

  lemma IdsFacts(l: Ladder, x: Exchange, attempt: nat, ids: seq<string>, at: seq<nat>)
    requires l.tick > 0.0 && IdsOf(l, x, attempt, NUM_LEVELS, ids, at)
    ensures "" !in ids
    ensures ids == [] <==> AllRefused(l, x, attempt)
  {
    hide LevelPrice, Answer, CanPlace;
    forall i | 0 <= i < |ids| ensures ids[i] != "" {
      assert at[i] in at;
    }
    if ids != [] {
      assert at[0] in at;
    } else {
      assert forall level | 1 <= level <= NUM_LEVELS :: level !in at;
    }
  }

  /** With the near quote q ticks up the grid, a purchase ladder submits its levels
      q - 1 - 2a, q - 2 - 2a, ... as long as they are positive (a being the attempt),
      a sale ladder all of q + 1 + 2a, q + 2 + 2a, ... */
  lemma {:induction false} LadderOnGrid(l: Ladder, q: nat, attempt: nat, levels: nat)
    requires l.tick > 0.0 && (if l.side.Buy? then l.bid else l.ask) == q as real * l.tick
    ensures var os := Submitted(l, attempt, levels);
      && |os| == (if l.side.Sell? || levels <= q - 1 - 2 * attempt then levels
                  else if q <= 2 * attempt + 1 then 0 else q - 1 - 2 * attempt)
      && forall i | 0 <= i < |os| ::
           var n := if l.side.Buy? then q - (i + 1) - 2 * attempt else q + (i + 1) + 2 * attempt;
           os[i] == Order(n as real * l.tick, l.qty)
  {
    hide LevelPrice;
    if levels > 0 {
      LadderOnGrid(l, q, attempt, levels - 1);
      LevelOnGrid(l.tick, l.side, q, Ticks(attempt, levels), l.bid, l.ask);
      PositiveMultiple(if l.side.Buy? then q - Ticks(attempt, levels) else q + Ticks(attempt, levels), l.tick);
    }
  }

  lemma PositiveMultiple(n: int, tick: real)
    requires tick > 0.0
    ensures n as real * tick > 0.0 <==> n > 0
  {
    hide Times;
    MultipleOrder(0, n, tick);
    MultipleUnits(tick);
    assert Multiple(n, tick) == n as real * tick by { PlainMultiple(n, tick); }
  }

  ghost predicate SoundOrder(l: Ladder, o: Order)
  {
    && o.price > 0.0 && OnGrid(o.price, l.tick) && o.qty == l.qty
    && (if l.side.Buy? then o.price < l.bid else o.price > l.ask)
  }

  /** Sound orders, each exactly one tick deeper in the book than the one before. */
  ghost predicate SoundLadder(l: Ladder, os: seq<Order>) {
    && (forall i | 0 <= i < |os| :: SoundOrder(l, os[i]))
    && (forall i | 0 <= i < |os| - 1 ::
          os[i + 1].price == if l.side.Buy? then os[i].price - l.tick else os[i].price + l.tick)
  }

  /** Every order of an attempt has a positive price on the grid, strictly behind the
      near quote, and neighbours in the sequence are exactly one tick apart. */
  lemma {:induction false} LadderSound(l: Ladder, attempt: nat, levels: nat)
    requires l.tick > 0.0
    ensures var os := Submitted(l, attempt, levels);
      && SoundLadder(l, os)
      && (os != [] && levels > 0 && (l.side.Sell? || l.Price(attempt, levels) > 0.0)
          ==> os[|os| - 1].price == l.Price(attempt, levels))
  {
    if levels > 0 {
      hide OnGrid, LevelPrice;
      LadderSound(l, attempt, levels - 1);
      LevelPassive(l.tick, l.side, l.bid, l.ask, Ticks(attempt, levels));
      LevelsOneTickApart(l.tick, l.side, l.bid, l.ask, Ticks(attempt, levels - 1));
    }
  }

  /** One attempt: submits every level that has a positive price and keeps the ids that come back. */
  method TryLadder(l: Ladder, attempt: nat, x: Exchange)
    returns (orders: seq<Order>, placed: seq<string>, lastLevelPrice: real)
    requires l.tick > 0.0
    ensures orders == Submitted(l, attempt, NUM_LEVELS) && SoundLadder(l, orders)
    ensures placed == Accepted(l, x, attempt, NUM_LEVELS) && |placed| <= |orders| <= NUM_LEVELS
    ensures "" !in placed && (placed == [] <==> AllRefused(l, x, attempt))
    ensures AttemptOrders(l, attempt, orders) && AttemptIds(l, x, attempt, placed)
    ensures lastLevelPrice == if orders == [] then 0.0 else orders[|orders| - 1].price
  {
    hide LevelPrice, OrdersOf, IdsOf, AllRefused;
    orders, placed, lastLevelPrice := [], [], 0.0;
    for level := 1 to NUM_LEVELS + 1
      invariant orders == Submitted(l, attempt, level - 1)
      invariant placed == Accepted(l, x, attempt, level - 1)
      invariant lastLevelPrice == if orders == [] then 0.0 else orders[|orders| - 1].price
    {
      var price := l.Price(attempt, level);
      if price <= 0.0 {
        continue;
      }
      lastLevelPrice := price;
      orders := orders + [Order(price, l.qty)];
      var id := x(attempt, level, Order(price, l.qty));
      if id != "" {
        placed := placed + [id];
      }
    }
    AcceptedAtMost(l, x, attempt, NUM_LEVELS);
    LadderSound(l, attempt, NUM_LEVELS);
    ghost var ordered := SubmittedExactly(l, attempt, NUM_LEVELS);
    ghost var kept := AcceptedExactly(l, x, attempt, NUM_LEVELS);
    IdsFacts(l, x, attempt, placed, kept);
  }

  /** The orders accepted are those of the first attempt in which any level was
      accepted, never more than three; without such an attempt there are none.
      `sent` lists, attempt by attempt, all orders that went out. */
  method PlaceLadder(m: Market, side: OrderSide, totalQty: real, bid: real, ask: real, x: Exchange)
    returns (placed: seq<string>, sent: seq<seq<Order>>, entryPrice: real, qtyPerLevel: real)
    requires m.Valid()
    ensures qtyPerLevel == FormatQuantity(m, totalQty / NUM_LEVELS as real) && qtyPerLevel > 0.0
    ensures 0 < |sent| <= 3 && |placed| <= 3 && (placed == [] ==> |sent| == 3)
    ensures "" !in placed
    ensures var l := Ladder(m.tick, side, FormatQuantity(m, qtyPerLevel), bid, ask);
      && (forall k | 0 <= k < |sent| :: SoundLadder(l, sent[k]) && AttemptOrders(l, k, sent[k]))
      && (forall k | 0 <= k < |sent| - 1 :: AllRefused(l, x, k))
      && (placed == [] <==> AllRefused(l, x, |sent| - 1))
      && AttemptIds(l, x, |sent| - 1, placed)
      && (placed != [] ==> sent[|sent| - 1] != [] && entryPrice == sent[|sent| - 1][|sent[|sent| - 1]| - 1].price)
  {
    hide FormatQuantity, Submitted, Accepted, SoundLadder, AttemptOrders, AttemptIds, AllRefused;
    qtyPerLevel := FormatQuantity(m, totalQty / NUM_LEVELS as real);
    NeverNothing(m, totalQty / NUM_LEVELS as real);
    var l := Ladder(m.tick, side, FormatQuantity(m, qtyPerLevel), bid, ask);
    var orders;
    orders, placed, entryPrice := TryLadder(l, 0, x);
    sent := [orders];
    while placed == [] && |sent| < MAX_FALLBACK_ATTEMPTS
      invariant 0 < |sent| <= MAX_FALLBACK_ATTEMPTS && |placed| <= NUM_LEVELS && "" !in placed
      invariant forall k | 0 <= k < |sent| :: SoundLadder(l, sent[k]) && AttemptOrders(l, k, sent[k])
      invariant forall k | 0 <= k < |sent| - 1 :: AllRefused(l, x, k)
      invariant placed == [] <==> AllRefused(l, x, |sent| - 1)
      invariant AttemptIds(l, x, |sent| - 1, placed)
      invariant placed != [] ==>
        sent[|sent| - 1] != [] && entryPrice == sent[|sent| - 1][|sent[|sent| - 1]| - 1].price
    {
      orders, placed, entryPrice := TryLadder(l, |sent|, x);
      sent := sent + [orders];
    }
  }
}
