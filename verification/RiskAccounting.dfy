/** `RiskManager`: position book and running metrics, in exact arithmetic. */
module RiskAccounting {

  import opened Wrappers
  import opened Reals

  const START_EQUITY: real := 10000.0
  const MAX_POSITION_VALUE: real := 10000.0

  datatype Position = Position(size: real, entryPrice: real, stopLoss: real, unrealizedPnl: real)

  datatype State = State(
    dailyPnl: real, peak: real, equity: real, losses: nat, positions: map<string, Position>)

  datatype Event =
    | Open(symbol: string, size: real, entryPrice: real, stopLoss: real, currentPrice: Option<real>)
    | Close(symbol: string, exitPrice: real, part: Option<real>)
    | ResetDaily

  function Init(): State { State(0.0, START_EQUITY, START_EQUITY, 0, map[]) }

  /** None and 0 both mean the whole position; more than the position is cut down to it. */
  function CloseSize(p: Position, size: Option<real>): real {
    var asked := if size.Some? && size.value != 0.0 then size.value else p.size;
    if asked > p.size then p.size else asked
  }

  function Profit(entryPrice: real, exitPrice: real, size: real): real {
    Times(exitPrice - entryPrice, size)
  }

  function Notional(size: real, price: real): real { Times(size, price) }

  /** What a close realises. */
  function Realised(s: State, e: Event): Option<real> {
    if e.Close? && e.symbol in s.positions
    then Some(Profit(s.positions[e.symbol].entryPrice, e.exitPrice, CloseSize(s.positions[e.symbol], e.part)))
    else None
  }

  function Unrealised(size: real, entryPrice: real, currentPrice: Option<real>): real {
    if currentPrice.Some? && currentPrice.value != 0.0 then Profit(entryPrice, currentPrice.value, size) else 0.0
  }

  function Step(s: State, e: Event): State {
    match e
    case Open(symbol, size, entryPrice, stopLoss, currentPrice) =>
      if Notional(size, entryPrice) > MAX_POSITION_VALUE then s
      else
        var p := Position(size, entryPrice, stopLoss, Unrealised(size, entryPrice, currentPrice));
        s.(positions := s.positions[symbol := p])
    case Close(symbol, exitPrice, size) =>
      if symbol !in s.positions then s
      else
        var p := s.positions[symbol];
        var closing := CloseSize(p, size);
        var pnl := Profit(p.entryPrice, exitPrice, closing);
        State(s.dailyPnl + pnl, MaxR(s.peak, s.equity + pnl), s.equity + pnl,
              if pnl < 0.0 then s.losses + 1 else 0,
              if closing == p.size then s.positions - {symbol}
              else s.positions[symbol := p.(size := p.size - closing)])
    case ResetDaily => s.(dailyPnl := 0.0, losses := 0)
  }

  function Exec(s: State, es: seq<Event>): State {
    if es == [] then s else Step(Exec(s, es[..|es| - 1]), es[|es| - 1])
  }

  // ---- The ledger ----

  /** What a run leaves in the books: realised results and daily resets, in order. */
  datatype Entry = Pnl(amount: real) | Reset

  function Ledger(es: seq<Event>): seq<Entry> {
    if es == [] then []
    else Ledger(es[..|es| - 1]) + Entries(Exec(Init(), es[..|es| - 1]), es[|es| - 1])
  }

  /** The entry an event makes, if any. */
  function Entries(s: State, e: Event): seq<Entry> {
    if e.ResetDaily? then [Reset]
    else if Realised(s, e).Some? then [Pnl(Realised(s, e).value)] else []
  }

  function Total(l: seq<Entry>): real {
    if l == [] then 0.0
    else Total(l[..|l| - 1]) + if l[|l| - 1].Pnl? then l[|l| - 1].amount else 0.0
  }

  predicate IsLoss(e: Entry) { e.Pnl? && e.amount < 0.0 }

  /** Equity after the first k ledger entries. */
  function EquityAt(l: seq<Entry>, k: nat): real
    requires k <= |l|
  {
    START_EQUITY + Total(l[..k])
  }

  /** Highest equity ever shown. */
  ghost predicate IsPeak(l: seq<Entry>, peak: real) {
    && (forall k | 0 <= k <= |l| :: EquityAt(l, k) <= peak)
    && (exists k | 0 <= k <= |l| :: EquityAt(l, k) == peak)
  }

  /** Position k of the ledger is where the current day begins. */
  ghost predicate DayBegins(l: seq<Entry>, k: nat) {
    && k <= |l|
    && (k == 0 || l[k - 1].Reset?)
    && forall i | k <= i < |l| :: !l[i].Reset?
  }

  /** `n` is the number of losses since the last reset or the last close that was not a loss. */
  ghost predicate IsLossStreak(l: seq<Entry>, n: nat) {
    && n <= |l|
    && (forall i | |l| - n <= i < |l| :: IsLoss(l[i]))
    && (n == |l| || !IsLoss(l[|l| - n - 1]))
  }

  lemma TotalAppend(l: seq<Entry>, e: Entry)
    ensures Total(l + [e]) == Total(l) + if e.Pnl? then e.amount else 0.0
  {
    assert (l + [e])[..|l|] == l;
  }

  lemma PeakAppend(l: seq<Entry>, e: Entry, peak: real)
    requires IsPeak(l, peak)
    ensures IsPeak(l + [e], MaxR(peak, START_EQUITY + Total(l + [e])))
  {
    var m := l + [e];
    assert m[..|m|] == m;
    assert EquityAt(m, |m|) == START_EQUITY + Total(m);
    forall k | 0 <= k <= |l| ensures EquityAt(m, k) == EquityAt(l, k) {
      assert m[..k] == l[..k];
    }
    hide EquityAt, Total;
    var k :| 0 <= k <= |l| && EquityAt(l, k) == peak;
    assert EquityAt(m, k) == peak;
  }

  /** What one event does to the metrics, in terms of the ledger entry it makes. */
  lemma StepMetrics(s: State, e: Event)
    ensures var t, r := Step(s, e), Realised(s, e);
      && (e.ResetDaily? ==> r.None? && t == s.(dailyPnl := 0.0, losses := 0))
      && (!e.ResetDaily? && r.None? ==> t.(positions := s.positions) == s)
      && (r.Some? ==>
           && t.equity == s.equity + r.value && t.dailyPnl == s.dailyPnl + r.value
           && t.peak == MaxR(s.peak, t.equity)
           && t.losses == if r.value < 0.0 then s.losses + 1 else 0)
  {
    hide Profit, Notional;
  }

  /** Where the current day begins, and what it has brought so far. */
  lemma {:induction false} DayStart(es: seq<Event>) returns (k: nat)
    ensures DayBegins(Ledger(es), k) && Exec(Init(), es).dailyPnl == Total(Ledger(es)[k..])
    decreases |es|
  {
    if es == [] {
      k := 0;
    } else {
      var front := es[..|es| - 1];
      hide DayBegins, Total, Step, Entries;
      k := DayStart(front);
      k := StepDay(Exec(Init(), front), Ledger(front), es[|es| - 1], k);
    }
  }

  lemma StepDay(s: State, l: seq<Entry>, e: Event, k: nat) returns (k': nat)
    requires DayBegins(l, k) && s.dailyPnl == Total(l[k..])
    ensures var m := l + Entries(s, e);
      DayBegins(m, k') && Step(s, e).dailyPnl == Total(m[k'..])
  {
    hide Step, Realised, Total, DayBegins;
    StepMetrics(s, e);
    k' := k;
    if e.ResetDaily? {
      k' := |l| + 1;
      DayReset(l);
    } else if Entries(s, e) == [] {
      assert l + Entries(s, e) == l;
    } else {
      DayAppend(l, Entries(s, e)[0], k);
      assert Entries(s, e) == [Entries(s, e)[0]];
    }
  }

  lemma DayReset(l: seq<Entry>)
    ensures DayBegins(l + [Reset], |l| + 1) && Total((l + [Reset])[|l| + 1..]) == 0.0
  {}

  lemma DayAppend(l: seq<Entry>, e: Entry, k: nat)
    requires DayBegins(l, k) && e.Pnl?
    ensures DayBegins(l + [e], k) && Total((l + [e])[k..]) == Total(l[k..]) + e.amount
  {
    TotalAppend(l[k..], e);
    assert (l + [e])[k..] == l[k..] + [e];
  }

  lemma StreakAppend(l: seq<Entry>, e: Entry, n: nat)
    requires IsLossStreak(l, n)
    ensures IsLossStreak(l + [e], if IsLoss(e) then n + 1 else 0)
  {}

  lemma PeakKnown(l: seq<Entry>, peak: real)
    requires IsPeak(l, peak)
    ensures START_EQUITY + Total(l) <= peak
  {
    assert l[..|l|] == l;
    assert EquityAt(l, |l|) == START_EQUITY + Total(l);
  }

  lemma EmptyLedger()
    ensures IsPeak([], START_EQUITY) && IsLossStreak([], 0)
  {
    var l: seq<Entry> := [];
    assert EquityAt(l, 0) == START_EQUITY;
  }

  lemma {:induction false} MetricsFollowLedger(es: seq<Event>)
    ensures var s, l := Exec(Init(), es), Ledger(es);
      s.equity == START_EQUITY + Total(l) && IsPeak(l, s.peak) && IsLossStreak(l, s.losses)
    decreases |es|
  {
    if es == [] {
      EmptyLedger();
    } else {
      var front := es[..|es| - 1];
      hide IsPeak, IsLossStreak, Total, Step, Entries;
      MetricsFollowLedger(front);
      StepFollows(Exec(Init(), front), Ledger(front), es[|es| - 1]);
    }
  }

  lemma StepFollows(s: State, l: seq<Entry>, e: Event)
    requires s.equity == START_EQUITY + Total(l) && IsPeak(l, s.peak) && IsLossStreak(l, s.losses)
    ensures var t, m := Step(s, e), l + Entries(s, e);
      t.equity == START_EQUITY + Total(m) && IsPeak(m, t.peak) && IsLossStreak(m, t.losses)
  {
    StepMetrics(s, e);
    hide IsPeak, IsLossStreak, EquityAt, Total, Step, Realised;
    if Entries(s, e) == [] {
      assert l + Entries(s, e) == l;
    } else {
      var entry := Entries(s, e)[0];
      TotalAppend(l, entry);
      PeakAppend(l, entry, s.peak);
      PeakKnown(l, s.peak);
      StreakAppend(l, entry, s.losses);
    }
  }

  /** Over every run: equity is the start plus all realised results, the peak is
      the highest equity ever reached, the daily figure adds up what was
      realised since the last reset, and the streak counts the losses since the
      last reset or the last close that was no loss. */
  lemma Accounts(es: seq<Event>) returns (day: nat)
    ensures var s, l := Exec(Init(), es), Ledger(es);
      && s.equity == START_EQUITY + Total(l)
      && IsPeak(l, s.peak)
      && DayBegins(l, day) && s.dailyPnl == Total(l[day..])
      && IsLossStreak(l, s.losses)
  {
    MetricsFollowLedger(es);
    day := DayStart(es);
  }

  // ---- What a position is worth ----

  /** From any state: opening a position is allowed exactly up to a value of
      10000, and closing it at once then changes equity and daily figure by its
      size times the price difference.  What is stored meanwhile is what was
      asked for, with the profit a close at the current price would bring. */
  lemma OpenAndClose(s: State, symbol: string, size: real, entryPrice: real, stopLoss: real,
                     currentPrice: Option<real>, exitPrice: real)
    ensures var held := Step(s, Open(symbol, size, entryPrice, stopLoss, currentPrice));
      var closed := Step(held, Close(symbol, exitPrice, None));
      && (size * entryPrice > 10000.0 ==> held == s)
      && (size * entryPrice <= 10000.0 ==>
           && held.positions.Keys == s.positions.Keys + {symbol}
           && held.positions[symbol].size == size
           && held.positions[symbol].entryPrice == entryPrice
           && held.positions[symbol].stopLoss == stopLoss
           && held.positions[symbol].unrealizedPnl
              == (match currentPrice case None => 0.0
                                     case Some(p) => if p == 0.0 then 0.0 else (p - entryPrice) * size)
           && closed.equity == s.equity + (exitPrice - entryPrice) * size
           && closed.dailyPnl == s.dailyPnl + (exitPrice - entryPrice) * size
           && closed.positions == s.positions - {symbol})
  {}

  /** A new manager that buys 10 at 100 and sells at 103 holds 10030. */
  lemma FirstProfit(symbol: string)
    ensures var es := [Open(symbol, 10.0, 100.0, 95.0, None), Close(symbol, 103.0, None)];
      Exec(Init(), es).equity == 10030.0
  {
    var a, b := Open(symbol, 10.0, 100.0, 95.0, None), Close(symbol, 103.0, None);
    assert [a, b][..1] == [a] && [a][..0] == [];
    assert Exec(Init(), []) == Init();
    assert Exec(Init(), [a]) == Step(Init(), a);
    OpenAndClose(Init(), symbol, 10.0, 100.0, 95.0, None, 103.0);
  }

  // ---- Partial closes ----

  function SumOf(sizes: seq<real>): real {
    if sizes == [] then 0.0 else sizes[0] + SumOf(sizes[1..])
  }

  function Closes(symbol: string, exitPrice: real, sizes: seq<real>): seq<Event> {
    seq(|sizes|, i requires 0 <= i < |sizes| => Close(symbol, exitPrice, Some(sizes[i])))
  }

  lemma {:induction false} SumPositive(sizes: seq<real>)
    requires forall i | 0 <= i < |sizes| :: sizes[i] > 0.0
    ensures SumOf(sizes) >= 0.0 && (sizes != [] ==> SumOf(sizes) >= sizes[0] > 0.0)
    ensures |sizes| > 1 ==> SumOf(sizes) > sizes[0]
  {
    if sizes != [] {
      assert forall i | 0 <= i < |sizes| - 1 :: sizes[1..][i] == sizes[i + 1];
      SumPositive(sizes[1..]);
    }
  }

  lemma ExecHead(s: State, e: Event, es: seq<Event>)
    ensures Exec(s, [e] + es) == Exec(Step(s, e), es)
    decreases |es|
  {
    if es == [] {
      assert [e] + es == [e] && [e][..0] == [];
      assert Exec(s, []) == s;
    } else {
      assert ([e] + es)[..|es|] == [e] + es[..|es| - 1];
      ExecHead(s, e, es[..|es| - 1]);
    }
  }

  /** How many of the parts still find something to close. */
  function Effective(size: real, sizes: seq<real>): nat
    decreases |sizes|
  {
    if sizes == [] || size <= 0.0 then 0 else 1 + Effective(size - sizes[0], sizes[1..])
  }

  ghost predicate SameButStreak(a: State, b: State) {
    a.equity == b.equity && a.dailyPnl == b.dailyPnl && a.peak == b.peak && a.positions == b.positions
  }

  /** Closing a long in several positive parts at one price, be they less, as
      much or more than the position, brings the same equity, daily figure, peak
      and positions as closing their sum at once.  The loss streak tells them
      apart: each part that closes something of a losing position counts as a loss. */
  lemma {:induction false} SplitCloseSame(s: State, symbol: string, exitPrice: real, sizes: seq<real>)
    requires symbol in s.positions && s.positions[symbol].size > 0.0 && s.equity <= s.peak
    requires sizes != [] && (forall i | 0 <= i < |sizes| :: sizes[i] > 0.0)
    ensures var parts := Exec(s, Closes(symbol, exitPrice, sizes));
      var whole := Step(s, Close(symbol, exitPrice, Some(SumOf(sizes))));
      && SameButStreak(parts, whole)
      && (if exitPrice < s.positions[symbol].entryPrice
          then parts.losses == s.losses + Effective(s.positions[symbol].size, sizes) && whole.losses == s.losses + 1
          else parts.losses == whole.losses == 0)
    decreases |sizes|
  {
    hide Profit, SameButStreak, Step, Exec, Closes, SumOf;
    var size, first, rest := s.positions[symbol].size, Close(symbol, exitPrice, Some(sizes[0])), sizes[1..];
    SumSplits(sizes);
    CloseStreak(s, symbol, exitPrice, Some(SumOf(sizes)));
    CloseStreak(s, symbol, exitPrice, Some(sizes[0]));
    PartsHead(s, symbol, exitPrice, sizes);
    SameAsItself(Step(s, first));
    if sizes[0] >= size {
      CutDown(s, symbol, exitPrice, sizes[0]);
      CutDown(s, symbol, exitPrice, SumOf(sizes));
      NothingToClose(Step(s, first), symbol, exitPrice, rest);
    } else if rest == [] {
      NothingMore(Step(s, first), symbol, exitPrice);
    } else {
      PartialClose(s, symbol, exitPrice, sizes[0]);
      SplitCloseSame(Step(s, first), symbol, exitPrice, rest);
      FirstThenRest(s, symbol, exitPrice, sizes[0], SumOf(rest));
      SameTransitive(Exec(s, Closes(symbol, exitPrice, sizes)),
                     Step(Step(s, first), Close(symbol, exitPrice, Some(SumOf(rest)))),
                     Step(s, Close(symbol, exitPrice, Some(SumOf(sizes)))));
    }
  }

  lemma SumSplits(sizes: seq<real>)
    requires sizes != [] && forall i | 0 <= i < |sizes| :: sizes[i] > 0.0
    ensures SumOf(sizes) == sizes[0] + SumOf(sizes[1..]) && SumOf(sizes) >= sizes[0]
    ensures if sizes[1..] == [] then SumOf(sizes[1..]) == 0.0 else SumOf(sizes[1..]) > 0.0
    ensures forall i | 0 <= i < |sizes[1..]| :: sizes[1..][i] > 0.0
  {
    assert forall i | 0 <= i < |sizes| - 1 :: sizes[1..][i] == sizes[i + 1];
    SumPositive(sizes[1..]);
  }

  lemma PartsHead(s: State, symbol: string, exitPrice: real, sizes: seq<real>)
    requires sizes != []
    ensures Exec(s, Closes(symbol, exitPrice, sizes))
         == Exec(Step(s, Close(symbol, exitPrice, Some(sizes[0]))), Closes(symbol, exitPrice, sizes[1..]))
  {
    var first := Close(symbol, exitPrice, Some(sizes[0]));
    ExecHead(s, first, Closes(symbol, exitPrice, sizes[1..]));
    assert Closes(symbol, exitPrice, sizes) == [first] + Closes(symbol, exitPrice, sizes[1..]);
  }

  lemma NothingMore(s: State, symbol: string, exitPrice: real)
    ensures Exec(s, Closes(symbol, exitPrice, [])) == s
  {}

  lemma PartialClose(s: State, symbol: string, exitPrice: real, part: real)
    requires symbol in s.positions && 0.0 < part < s.positions[symbol].size && s.equity <= s.peak
    ensures var t, p := Step(s, Close(symbol, exitPrice, Some(part))), s.positions[symbol];
      symbol in t.positions && t.positions[symbol] == p.(size := p.size - part) && t.equity <= t.peak
  {
    hide Profit;
  }

  lemma SameAsItself(s: State)
    ensures SameButStreak(s, s)
  {}

  lemma SameTransitive(a: State, b: State, c: State)
    requires SameButStreak(a, b) && SameButStreak(b, c)
    ensures SameButStreak(a, c)
  {}

  /** A request for at least the position closes the position. */
  lemma CutDown(s: State, symbol: string, exitPrice: real, size: real)
    requires symbol in s.positions && 0.0 < s.positions[symbol].size <= size
    ensures Step(s, Close(symbol, exitPrice, Some(size))) == Step(s, Close(symbol, exitPrice, None))
    ensures symbol !in Step(s, Close(symbol, exitPrice, Some(size))).positions
  {
    hide Profit;
  }

  lemma {:induction false} NothingToClose(s: State, symbol: string, exitPrice: real, sizes: seq<real>)
    requires symbol !in s.positions
    ensures Exec(s, Closes(symbol, exitPrice, sizes)) == s
    decreases |sizes|
  {
    if sizes != [] {
      var n := |sizes| - 1;
      assert Closes(symbol, exitPrice, sizes)[..n] == Closes(symbol, exitPrice, sizes[..n]);
      NothingToClose(s, symbol, exitPrice, sizes[..n]);
    }
  }

  /** Closing part or all of a long at a price below its entry price lengthens
      the loss streak by one; at any other price it ends the streak. */
  lemma CloseStreak(s: State, symbol: string, exitPrice: real, size: Option<real>)
    requires symbol in s.positions && s.positions[symbol].size > 0.0 && (size.Some? ==> size.value > 0.0)
    ensures Step(s, Close(symbol, exitPrice, size)).losses
         == if exitPrice < s.positions[symbol].entryPrice then s.losses + 1 else 0
  {
    hide Profit;
    ProfitSign(s.positions[symbol].entryPrice, exitPrice, CloseSize(s.positions[symbol], size));
  }

  lemma FirstThenRest(s: State, symbol: string, exitPrice: real, part: real, more: real)
    requires symbol in s.positions && 0.0 < part < s.positions[symbol].size && more > 0.0 && s.equity <= s.peak
    ensures SameButStreak(
      Step(Step(s, Close(symbol, exitPrice, Some(part))), Close(symbol, exitPrice, Some(more))),
      Step(s, Close(symbol, exitPrice, Some(part + more))))
  {
    hide Profit;
    var p := s.positions[symbol];
    var closed := if part + more > p.size then p.size else part + more;
    PartOfProfit(p.entryPrice, exitPrice, part, closed);
    var mid := Step(s, Close(symbol, exitPrice, Some(part)));
    assert mid.positions - {symbol} == s.positions - {symbol};
  }

  /** A part of a result lies between nothing and the whole. */
  lemma PartOfProfit(entryPrice: real, exitPrice: real, part: real, size: real)
    requires 0.0 < part < size
    ensures var whole, first := Profit(entryPrice, exitPrice, size), Profit(entryPrice, exitPrice, part);
      && whole == first + Profit(entryPrice, exitPrice, size - part)
      && (0.0 <= first <= whole || whole <= first <= 0.0)
  {
    hide Profit;
    ProfitSign(entryPrice, exitPrice, part);
    ProfitSign(entryPrice, exitPrice, size - part);
    ProfitAdds(entryPrice, exitPrice, part, size - part, size);
  }

  lemma ProfitSign(entryPrice: real, exitPrice: real, size: real)
    requires size > 0.0
    ensures exitPrice >= entryPrice ==> Profit(entryPrice, exitPrice, size) >= 0.0
    ensures exitPrice <= entryPrice ==> Profit(entryPrice, exitPrice, size) <= 0.0
    ensures exitPrice < entryPrice ==> Profit(entryPrice, exitPrice, size) < 0.0
  {
    hide Times;
    TimesConstants(size);
    TimesOrder(exitPrice - entryPrice, 0.0, size);
  }

  lemma ProfitAdds(entryPrice: real, exitPrice: real, a: real, b: real, c: real)
    requires c == a + b
    ensures Profit(entryPrice, exitPrice, c) == Profit(entryPrice, exitPrice, a) + Profit(entryPrice, exitPrice, b)
  {
    TimesAdds(exitPrice - entryPrice, a, b);
  }

  /** Whatever a partial close leaves behind is long: a close request either
      removes the position or leaves a positive size.  So longs stay long, and
      a short is removed by any request above its (negative) size and turned
      into a long by any request below it. */
  lemma RemainderIsLong(s: State, symbol: string, exitPrice: real, size: Option<real>)
    requires symbol in s.positions
    ensures var z := s.positions[symbol].size;
      var t := Step(s, Close(symbol, exitPrice, size));
      && (symbol in t.positions <==> size.Some? && size.value != 0.0 && size.value < z)
      && (symbol in t.positions ==> t.positions[symbol].size == z - size.value > 0.0)
  {}

  /** If only longs are held, only longs are ever held. */
  lemma {:induction false} LongsStayLong(es: seq<Event>)
    requires forall i | 0 <= i < |es| :: es[i].Open? ==> es[i].size > 0.0
    ensures forall symbol | symbol in Exec(Init(), es).positions :: Exec(Init(), es).positions[symbol].size > 0.0
    decreases |es|
  {
    if es != [] {
      LongsStayLong(es[..|es| - 1]);
    }
  }

  // ---- The object ----

  class RiskManager {
    var dailyPnl: real
    var peakEquity: real
    var currentEquity: real
    var consecutiveLosses: nat
    var positions: map<string, Position>

    const maxDailyLoss: real := 1000.0
    const maxDrawdown: real := 2000.0
    const consecutiveLossLimit: nat := 3

    ghost function View(): State
      reads this
    {
      State(dailyPnl, peakEquity, currentEquity, consecutiveLosses, positions)
    }

    constructor ()
      ensures View() == Init()
    {
      dailyPnl, peakEquity, currentEquity, consecutiveLosses, positions := 0.0, START_EQUITY, START_EQUITY, 0, map[];
    }

    method CanTrade() returns (ok: bool)
      ensures ok <==> consecutiveLosses < consecutiveLossLimit && dailyPnl > -maxDailyLoss
                      && peakEquity - currentEquity < maxDrawdown
    {
      if consecutiveLosses >= consecutiveLossLimit { return false; }
      if dailyPnl <= -maxDailyLoss { return false; }
      var drawdown := peakEquity - currentEquity;
      if drawdown >= maxDrawdown { return false; }
      return true;
    }

    method UpdatePosition(symbol: string, size: real, entryPrice: real, stopLoss: real, currentPrice: Option<real>)
      returns (ok: bool)
      modifies `positions
      ensures View() == Step(old(View()), Open(symbol, size, entryPrice, stopLoss, currentPrice))
      ensures ok <==> Notional(size, entryPrice) <= MAX_POSITION_VALUE
    {
      hide Profit, Notional;
      var positionValue := Notional(size, entryPrice);
      if positionValue > MAX_POSITION_VALUE {
        return false;
      }
      var position := Position(size, entryPrice, stopLoss, 0.0);
      if currentPrice.Some? && currentPrice.value != 0.0 {
        position := position.(unrealizedPnl := Profit(entryPrice, currentPrice.value, size));
      }
      positions := positions[symbol := position];
      return true;
    }

    method ClosePosition(symbol: string, exitPrice: real, size: Option<real>)
      modifies this
      ensures View() == Step(old(View()), Close(symbol, exitPrice, size))
    {
      hide Profit;
      if symbol !in positions {
        return;
      }
      var position := positions[symbol];
      var closeSize := if size.Some? && size.value != 0.0 then size.value else position.size;
      if closeSize > position.size {
        closeSize := position.size;
      }
      var pnl := Profit(position.entryPrice, exitPrice, closeSize);
      dailyPnl := dailyPnl + pnl;
      currentEquity := currentEquity + pnl;
      peakEquity := MaxR(peakEquity, currentEquity);
      if pnl < 0.0 {
        consecutiveLosses := consecutiveLosses + 1;
      } else {
        consecutiveLosses := 0;
      }
      if closeSize == position.size {
        positions := positions - {symbol};
      } else {
        positions := positions[symbol := position.(size := position.size - closeSize)];
      }
    }

    method ResetDailyMetrics()
      modifies `dailyPnl, `consecutiveLosses
      ensures View() == Step(old(View()), ResetDaily)
    {
      dailyPnl := 0.0;
      consecutiveLosses := 0;
    }
  }
}
