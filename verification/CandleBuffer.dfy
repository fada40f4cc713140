/** `OHLCVBuffer`: one bounded deque of candles for each symbol and interval,
    fed by trades (always into the "1m" deque) and by exchange klines. */
module CandleBuffer {
  import opened Reals

  const MAX_BUFFER_SIZE: nat := 1000

  datatype Candle = Candle(open: real, high: real, low: real, close: real, volume: real, timestamp: nat)

  datatype Event =
    | Trade(symbol: string, price: real, quantity: real, timestamp: nat)
    | Kline(symbol: string, interval: string, candle: Candle)

  function MakeKey(symbol: string, interval: string): string { symbol + "_" + interval }

  function KeyOf(e: Event): string {
    match e
    case Trade(symbol, _, _, _) => MakeKey(symbol, "1m")
    case Kline(symbol, interval, _) => MakeKey(symbol, interval)
  }

  function Timestamp(e: Event): nat {
    match e
    case Trade(_, _, _, timestamp) => timestamp
    case Kline(_, _, candle) => candle.timestamp
  }

  /** Does a candle for this timestamp go behind the newest one? */
  predicate Newer(b: seq<Candle>, timestamp: nat) {
    b == [] || b[|b| - 1].timestamp < timestamp
  }

  /** A trade folded into a candle; 0.0 marks a field not set yet. */
  function Merge(c: Candle, price: real, quantity: real): Candle {
    Candle(if c.open == 0.0 then price else c.open, MaxR(c.high, price),
           if c.low == 0.0 then price else MinR(c.low, price), price, c.volume + quantity, c.timestamp)
  }

  /** The deque with one more place at the back, the oldest candle giving way if it is full. */
  function MakeRoom(b: seq<Candle>): seq<Candle> {
    if |b| >= MAX_BUFFER_SIZE then b[1..] else b
  }

  function Accept(b: seq<Candle>, e: Event): seq<Candle> {
    match e
    case Trade(_, price, quantity, timestamp) =>
      if Newer(b, timestamp) then MakeRoom(b) + [Merge(Candle(0.0, 0.0, 0.0, 0.0, 0.0, timestamp), price, quantity)]
      else b[..|b| - 1] + [Merge(b[|b| - 1], price, quantity)]
    case Kline(_, _, candle) =>
      if Newer(b, candle.timestamp) then MakeRoom(b) + [candle] else b
  }

  /** Volume that enters with an event, and volume that leaves by eviction. */
  function Received(b: seq<Candle>, e: Event): real {
    match e
    case Trade(_, _, quantity, _) => quantity
    case Kline(_, _, candle) => if Newer(b, candle.timestamp) then candle.volume else 0.0
  }

  function Evicted(b: seq<Candle>, e: Event): real {
    if Newer(b, Timestamp(e)) && |b| >= MAX_BUFFER_SIZE then b[0].volume else 0.0
  }

  type State = map<string, seq<Candle>>

  function DequeAt(s: State, key: string): seq<Candle> {
    if key in s then s[key] else []
  }

  function Exec(es: seq<Event>): State {
    if es == [] then map[]
    else
      var s, e := Exec(es[..|es| - 1]), es[|es| - 1];
      s[KeyOf(e) := Accept(DequeAt(s, KeyOf(e)), e)]
  }

  // ---- Invariant ----

  predicate Sound(c: Candle) {
    0.0 < c.low && c.low <= c.open <= c.high && c.low <= c.close <= c.high
  }

  predicate WellFormed(e: Event) {
    match e
    case Trade(_, price, _, _) => price > 0.0
    case Kline(_, _, candle) => Sound(candle)
  }

  function Volume(b: seq<Candle>): real {
    if b == [] then 0.0 else Volume(b[..|b| - 1]) + b[|b| - 1].volume
  }

  ghost predicate Increasing(b: seq<Candle>) {
    forall i, j | 0 <= i < j < |b| :: b[i].timestamp < b[j].timestamp
  }

  ghost predicate DequeOk(b: seq<Candle>) {
    && |b| <= MAX_BUFFER_SIZE
    && Increasing(b)
    && forall i | 0 <= i < |b| :: Sound(b[i])
  }

  lemma {:induction false} VolumeTail(b: seq<Candle>)
    requires b != []
    ensures Volume(b[1..]) == Volume(b) - b[0].volume
    decreases |b|
  {
    if |b| > 1 {
      VolumeTail(b[..|b| - 1]);
      assert b[1..][..|b| - 2] == b[..|b| - 1][1..];
    }
  }

  lemma VolumeAppend(b: seq<Candle>, c: Candle)
    ensures Volume(b + [c]) == Volume(b) + c.volume
  {
    assert (b + [c])[..|b|] == b;
  }

  lemma AcceptVolume(b: seq<Candle>, e: Event)
    ensures Volume(Accept(b, e)) + Evicted(b, e) == Volume(b) + Received(b, e)
  {
    var room := MakeRoom(b);
    if |b| >= MAX_BUFFER_SIZE { VolumeTail(b); }
    match e
    case Trade(_, price, quantity, timestamp) =>
      if Newer(b, timestamp) {
        VolumeAppend(room, Merge(Candle(0.0, 0.0, 0.0, 0.0, 0.0, timestamp), price, quantity));
      } else {
        VolumeAppend(b[..|b| - 1], Merge(b[|b| - 1], price, quantity));
      }
    case Kline(_, _, candle) => VolumeAppend(room, candle);
  }

  lemma MergeSound(c: Candle, price: real, quantity: real)
    requires price > 0.0 && (Sound(c) || (c.open == c.high == c.low == 0.0))
    ensures Sound(Merge(c, price, quantity))
  {}

  lemma AppendOk(b: seq<Candle>, c: Candle)
    requires DequeOk(b) && Sound(c) && Newer(b, c.timestamp)
    ensures DequeOk(MakeRoom(b) + [c])
  {}

  lemma ReplaceLastOk(b: seq<Candle>, c: Candle)
    requires DequeOk(b) && b != [] && Sound(c) && c.timestamp == b[|b| - 1].timestamp
    ensures DequeOk(b[..|b| - 1] + [c])
  {}

  lemma AcceptShape(b: seq<Candle>, e: Event)
    requires WellFormed(e) && DequeOk(b)
    ensures DequeOk(Accept(b, e))
  {
    match e
    case Trade(_, price, quantity, timestamp) => {
      var c := if Newer(b, timestamp) then Candle(0.0, 0.0, 0.0, 0.0, 0.0, timestamp) else b[|b| - 1];
      MergeSound(c, price, quantity);
      if Newer(b, timestamp) {
        AppendOk(b, Merge(c, price, quantity));
      } else {
        ReplaceLastOk(b, Merge(c, price, quantity));
      }
    }
    case Kline(_, _, candle) => {
      if Newer(b, candle.timestamp) { AppendOk(b, candle); }
    }
  }

  /** Whatever mix of trades and well-formed klines arrives: in every deque
      timestamps rise strictly, there are at most 1000 candles and each is sound. */
  lemma {:induction false} DequesStayOk(es: seq<Event>, key: string)
    requires forall i | 0 <= i < |es| :: WellFormed(es[i])
    ensures DequeOk(DequeAt(Exec(es), key))
    decreases |es|
  {
    hide Accept, DequeOk, WellFormed;
    if es == [] {
      EmptyOk();
    } else {
      var front, e := es[..|es| - 1], es[|es| - 1];
      DequesStayOk(front, key);
      if KeyOf(e) == key {
        AcceptShape(DequeAt(Exec(front), key), e);
      }
    }
  }

  lemma EmptyOk()
    ensures DequeOk([])
  {}

  // ---- What is kept, and how much volume there is in all ----

  /** The deque without its bound. */
  function AcceptAll(b: seq<Candle>, e: Event): seq<Candle> {
    match e
    case Trade(_, price, quantity, timestamp) =>
      if Newer(b, timestamp) then b + [Merge(Candle(0.0, 0.0, 0.0, 0.0, 0.0, timestamp), price, quantity)]
      else b[..|b| - 1] + [Merge(b[|b| - 1], price, quantity)]
    case Kline(_, _, candle) =>
      if Newer(b, candle.timestamp) then b + [candle] else b
  }

  /** Every candle a key ever had. */
  function History(es: seq<Event>, key: string): seq<Candle> {
    if es == [] then []
    else if KeyOf(es[|es| - 1]) == key then AcceptAll(History(es[..|es| - 1], key), es[|es| - 1])
    else History(es[..|es| - 1], key)
  }

  /** Number of candles no longer kept. */
  function Dropped(h: seq<Candle>): nat {
    if |h| > MAX_BUFFER_SIZE then |h| - MAX_BUFFER_SIZE else 0
  }

  lemma TailAppend(h: seq<Candle>, c: Candle)
    ensures MakeRoom(h[Dropped(h)..]) + [c] == (h + [c])[Dropped(h + [c])..]
  {}

  lemma TailReplace(h: seq<Candle>, c: Candle)
    requires h != []
    ensures var b := h[Dropped(h)..];
      && b != [] && b[|b| - 1] == h[|h| - 1]
      && b[..|b| - 1] + [c] == (h[..|h| - 1] + [c])[Dropped(h)..]
  {}

  lemma AcceptKeepsTail(h: seq<Candle>, e: Event)
    ensures Accept(h[Dropped(h)..], e) == AcceptAll(h, e)[Dropped(AcceptAll(h, e))..]
  {
    hide Merge, MakeRoom;
    var c := if e.Kline? then e.candle
             else if Newer(h, e.timestamp)
             then Merge(Candle(0.0, 0.0, 0.0, 0.0, 0.0, e.timestamp), e.price, e.quantity)
             else Merge(h[|h| - 1], e.price, e.quantity);
    TailAppend(h, c);
    if h != [] { TailReplace(h, c); }
  }

  /** A deque holds the last 1000 candles of its history, or all of them if there are fewer. */
  lemma {:induction false} DequeIsTail(es: seq<Event>, key: string)
    ensures var h := History(es, key);
      && DequeAt(Exec(es), key) == h[Dropped(h)..]
      && |DequeAt(Exec(es), key)| == if |h| < 1000 then |h| else 1000
    decreases |es|
  {
    hide Accept, AcceptAll, Dropped;
    if es == [] {
      NothingDropped(History(es, key));
    } else {
      var front := es[..|es| - 1];
      DequeIsTail(front, key);
      AcceptKeepsTail(History(front, key), es[|es| - 1]);
      NothingDropped(History(es, key));
    }
  }

  lemma NothingDropped(h: seq<Candle>)
    ensures Dropped(h) == if |h| < 1000 then 0 else |h| - 1000
  {}

  // ---- What a candle says ----

  /** A deque fed only by trades with positive prices: the trades that fall into
      its newest candle, which are those since the last newer timestamp. */
  function NewestTrades(es: seq<Event>, key: string): seq<Event> {
    if es == [] then []
    else
      var front, e := es[..|es| - 1], es[|es| - 1];
      if KeyOf(e) != key then NewestTrades(front, key)
      else if NewestYet(front, e) then [e]
      else NewestTrades(front, key) + [e]
  }

  function TotalQuantity(es: seq<Event>): real {
    if es == [] then 0.0
    else TotalQuantity(es[..|es| - 1]) + if es[|es| - 1].Trade? then es[|es| - 1].quantity else 0.0
  }

  ghost predicate OnlyTrades(es: seq<Event>) {
    forall i | 0 <= i < |es| :: es[i].Trade? && es[i].price > 0.0
  }

  /** Opening, highest, lowest and closing price and volume of a group of trades. */
  ghost predicate Summarises(c: Candle, g: seq<Event>)
    requires g != [] && OnlyTrades(g)
  {
    && c.open == g[0].price && c.close == g[|g| - 1].price
    && (forall i | 0 <= i < |g| :: c.low <= g[i].price <= c.high)
    && (exists i | 0 <= i < |g| :: g[i].price == c.high)
    && (exists i | 0 <= i < |g| :: g[i].price == c.low)
    && c.volume == TotalQuantity(g)
    && c.timestamp == g[0].timestamp
  }

  lemma FirstTrade(e: Event)
    requires e.Trade? && e.price > 0.0
    ensures Summarises(Merge(Candle(0.0, 0.0, 0.0, 0.0, 0.0, e.timestamp), e.price, e.quantity), [e])
  {
    var g := [e];
    assert g[0].price == e.price && g[..0] == [];
    assert TotalQuantity(g) == TotalQuantity(g[..0]) + e.quantity;
  }

  lemma NextTrade(c: Candle, g: seq<Event>, e: Event)
    requires g != [] && OnlyTrades(g) && Summarises(c, g) && e.Trade? && e.price > 0.0
    ensures Summarises(Merge(c, e.price, e.quantity), g + [e])
  {
    var h := g + [e];
    assert h[..|g|] == g;
    assert forall i | 0 <= i < |g| :: h[i] == g[i];
    assert h[|g|] == e;
    var i :| 0 <= i < |g| && g[i].price == c.high;
    var j :| 0 <= j < |g| && g[j].price == c.low;
    assert h[i].price == c.high && h[j].price == c.low;
  }

  /** The newest candle of such a deque summarises exactly these trades, and a
      candle is never touched again once a newer one has begun. */
  lemma {:induction false} NewestSummarises(es: seq<Event>, key: string)
    requires OnlyTrades(es)
    ensures SummaryOk(History(es, key), NewestTrades(es, key))
    decreases |es|
  {
    hide AcceptAll, SummaryOk, NewestYet, Newer;
    if es == [] {
      NoSummary();
    } else {
      var front, e := es[..|es| - 1], es[|es| - 1];
      NewestSummarises(front, key);
      if KeyOf(e) == key {
        HistoryVolume(front, key);
        NewerMeansNewest(History(front, key), front, e);
        SummaryStep(History(front, key), NewestTrades(front, key), e);
      }
    }
  }

  ghost predicate SummaryOk(h: seq<Candle>, g: seq<Event>) {
    OnlyTrades(g) && (h == [] <==> g == []) && (h != [] ==> Summarises(h[|h| - 1], g))
  }

  lemma NoSummary()
    ensures SummaryOk([], [])
  {}

  lemma SummaryStep(h: seq<Candle>, g: seq<Event>, e: Event)
    requires SummaryOk(h, g) && e.Trade? && e.price > 0.0
    ensures SummaryOk(AcceptAll(h, e), if Newer(h, e.timestamp) then [e] else g + [e])
  {
    hide AcceptAll, Merge, Summarises;
    TradeEffect(h, e);
    if Newer(h, e.timestamp) {
      FirstTrade(e);
    } else {
      NextTrade(h[|h| - 1], g, e);
    }
  }

  lemma TradeEffect(h: seq<Candle>, e: Event)
    requires e.Trade?
    ensures var t := AcceptAll(h, e);
      && t != [] && (!Newer(h, e.timestamp) ==> h != [])
      && t[|t| - 1] == Merge(if Newer(h, e.timestamp) then Candle(0.0, 0.0, 0.0, 0.0, 0.0, e.timestamp)
                             else h[|h| - 1], e.price, e.quantity)
  {}

  /** After any trade, whatever came before, the newest candle closes at its price. */
  lemma CloseIsLastPrice(es: seq<Event>, e: Event)
    requires e.Trade?
    ensures var t := History(es + [e], KeyOf(e));
      t != [] && t[|t| - 1].close == e.price
  {
    assert (es + [e])[..|es|] == es;
  }

  lemma PastUntouched(h: seq<Candle>, e: Event)
    ensures var t := AcceptAll(h, e);
      && |h| <= |t| <= |h| + 1
      && (forall i | 0 <= i < |h| - 1 :: t[i] == h[i])
      && (|t| == |h| + 1 && h != [] ==> t[|h| - 1] == h[|h| - 1])
  {}

  /** A kline newer than every earlier event of its key is kept as it is; any
      other leaves no trace. */
  lemma KlineEffect(es: seq<Event>, e: Event)
    requires e.Kline?
    ensures var h, t := History(es, KeyOf(e)), History(es + [e], KeyOf(e));
      t == if NewestYet(es, e) then h + [e.candle] else h
  {
    assert (es + [e])[..|es|] == es;
    hide NewestYet;
    HistoryVolume(es, KeyOf(e));
    NewerMeansNewest(History(es, KeyOf(e)), es, e);
  }

  /** Keys of different symbols or intervals differ, as long as intervals have no underscore. */
  lemma {:induction false} KeysDiffer(symbol: string, interval: string, symbol': string, interval': string)
    requires '_' !in interval && '_' !in interval'
    requires MakeKey(symbol, interval) == MakeKey(symbol', interval')
    ensures symbol == symbol' && interval == interval'
  {
    var k, k' := MakeKey(symbol, interval), MakeKey(symbol', interval');
    assert k[|symbol|] == '_' && k'[|symbol'|] == '_';
    assert forall i | |symbol| < i < |k| :: k[i] in interval;
    assert forall i | |symbol'| < i < |k'| :: k'[i] in interval';
    assert k[..|symbol|] == symbol && k'[..|symbol'|] == symbol';
    assert k[|symbol| + 1..] == interval && k'[|symbol'| + 1..] == interval';
  }

  /** Trades go to the symbol's one-minute deque, klines to the deque of their interval. */
  lemma KeysSpelled(symbol: string, interval: string, price: real, quantity: real, timestamp: nat, candle: Candle)
    ensures KeyOf(Trade(symbol, price, quantity, timestamp)) == symbol + "_1m"
    ensures KeyOf(Kline(symbol, interval, candle)) == symbol + "_" + interval
  {}

  /** Is this event newer than every earlier one of its key? */
  predicate NewestYet(earlier: seq<Event>, e: Event) {
    forall i | 0 <= i < |earlier| && KeyOf(earlier[i]) == KeyOf(e) :: Timestamp(earlier[i]) < Timestamp(e)
  }

  /** Volume a key was supplied with, told from the events alone: all trades, and
      the klines newer than everything before them. */
  function Supplied(es: seq<Event>, key: string): real {
    if es == [] then 0.0
    else
      var front, e := es[..|es| - 1], es[|es| - 1];
      Supplied(front, key)
        + if KeyOf(e) != key then 0.0
          else if e.Trade? then e.quantity
          else if NewestYet(front, e) then e.candle.volume
          else 0.0
  }

  /** The latest timestamp of a key's events, -1 if there is none. */
  function Latest(es: seq<Event>, key: string): int {
    if es == [] then -1
    else
      var before, e := Latest(es[..|es| - 1], key), es[|es| - 1];
      if KeyOf(e) == key && Timestamp(e) > before then Timestamp(e) else before
  }

  lemma {:induction false} NewestIsLatest(es: seq<Event>, e: Event)
    ensures NewestYet(es, e) <==> Timestamp(e) > Latest(es, KeyOf(e))
    decreases |es|
  {
    if es != [] {
      var front := es[..|es| - 1];
      NewestIsLatest(front, e);
      assert forall i | 0 <= i < |front| :: front[i] == es[i];
    }
  }

  /** The newest candle carries the latest timestamp of all events of its key. */
  predicate NewestIs(h: seq<Candle>, es: seq<Event>, key: string) {
    Latest(es, key) == if h == [] then -1 else h[|h| - 1].timestamp
  }

  lemma NewerMeansNewest(h: seq<Candle>, es: seq<Event>, e: Event)
    requires NewestIs(h, es, KeyOf(e))
    ensures Newer(h, Timestamp(e)) <==> NewestYet(es, e)
  {
    hide NewestYet;
    NewestIsLatest(es, e);
  }

  lemma NewestStays(h: seq<Candle>, es: seq<Event>, e: Event, key: string)
    requires NewestIs(h, es, key)
    ensures NewestIs(if KeyOf(e) == key then AcceptAll(h, e) else h, es + [e], key)
  {
    assert (es + [e])[..|es|] == es;
  }

  lemma AcceptAllVolume(h: seq<Candle>, e: Event)
    ensures Volume(AcceptAll(h, e)) == Volume(h) + Received(h, e)
  {
    match e
    case Trade(_, price, quantity, timestamp) =>
      if Newer(h, timestamp) {
        VolumeAppend(h, Merge(Candle(0.0, 0.0, 0.0, 0.0, 0.0, timestamp), price, quantity));
      } else {
        VolumeAppend(h[..|h| - 1], Merge(h[|h| - 1], price, quantity));
      }
    case Kline(_, _, candle) => VolumeAppend(h, candle);
  }

  lemma {:induction false} HistoryVolume(es: seq<Event>, key: string)
    ensures Volume(History(es, key)) == Supplied(es, key)
    ensures NewestIs(History(es, key), es, key)
    decreases |es|
  {
    hide AcceptAll, NewestIs, NewestYet, Newer, Volume;
    if es == [] {
      NoHistory(key);
    } else {
      var front, e := es[..|es| - 1], es[|es| - 1];
      var h := History(front, key);
      HistoryVolume(front, key);
      NewestStays(h, front, e, key);
      assert front + [e] == es;
      if KeyOf(e) == key {
        NewerMeansNewest(h, front, e);
        AcceptAllVolume(h, e);
      }
    }
  }

  lemma NoHistory(key: string)
    ensures Volume([]) == 0.0 && NewestIs([], [], key)
  {}

  lemma {:induction false} VolumeSplit(h: seq<Candle>, k: nat)
    requires k <= |h|
    ensures Volume(h[..k]) + Volume(h[k..]) == Volume(h)
    decreases |h|
  {
    if k == |h| {
      assert h[..k] == h && h[k..] == [];
    } else {
      var front := h[..|h| - 1];
      VolumeSplit(front, k);
      assert front[..k] == h[..k] && h[k..][..|h| - 1 - k] == front[k..];
    }
  }

  /** Conservation over every mix of trades and klines: what is still held and
      what was dropped is exactly what was supplied. */
  lemma VolumeConserved(es: seq<Event>, key: string)
    ensures var h := History(es, key);
      && DequeAt(Exec(es), key) == h[Dropped(h)..]
      && Volume(DequeAt(Exec(es), key)) + Volume(h[..Dropped(h)]) == Supplied(es, key)
  {
    DequeIsTail(es, key);
    HistoryVolume(es, key);
    VolumeSplit(History(es, key), Dropped(History(es, key)));
  }

  // ---- The object ----

  class OHLCVBuffer {
    var buffers: map<string, seq<Candle>>

    ghost function Deque(key: string): seq<Candle>
      reads this
    {
      if key in buffers then buffers[key] else []
    }

    constructor ()
      ensures buffers == map[]
    {
      buffers := map[];
    }

    method GetOrCreateCandle(key: string, timestamp: nat)
      modifies this
      ensures var b := old(Deque(key));
        buffers == old(buffers)[key := if Newer(b, timestamp)
                                       then MakeRoom(b) + [Candle(0.0, 0.0, 0.0, 0.0, 0.0, timestamp)] else b]
    {
      var b := if key in buffers then buffers[key] else [];
      if b == [] || b[|b| - 1].timestamp < timestamp {
        if |b| >= MAX_BUFFER_SIZE {
          b := b[1..];
        }
        b := b + [Candle(0.0, 0.0, 0.0, 0.0, 0.0, timestamp)];
      }
      buffers := buffers[key := b];
    }

    method UpdateFromTrade(symbol: string, price: real, quantity: real, timestamp: nat)
      modifies this
      ensures var e := Trade(symbol, price, quantity, timestamp);
        buffers == old(buffers)[KeyOf(e) := Accept(old(Deque(KeyOf(e))), e)]
    {
      var key := MakeKey(symbol, "1m");
      GetOrCreateCandle(key, timestamp);
      var b := buffers[key];
      var candle := b[|b| - 1];
      if candle.open == 0.0 { candle := candle.(open := price); }
      candle := candle.(high := MaxR(candle.high, price));
      candle := candle.(low := if candle.low == 0.0 then price else MinR(candle.low, price));
      candle := candle.(close := price);
      candle := candle.(volume := candle.volume + quantity);
      buffers := buffers[key := b[|b| - 1 := candle]];
      assert b[|b| - 1 := candle] == Accept(old(Deque(key)), Trade(symbol, price, quantity, timestamp));
    }

    method UpdateFromKline(symbol: string, interval: string, candle: Candle)
      modifies this
      ensures var e := Kline(symbol, interval, candle);
        buffers == old(buffers)[KeyOf(e) := Accept(old(Deque(KeyOf(e))), e)]
    {
      var key := MakeKey(symbol, interval);
      var b := if key in buffers then buffers[key] else [];
      if b == [] || b[|b| - 1].timestamp < candle.timestamp {
        ghost var was := b;
        b := b + [candle];
        if |b| > MAX_BUFFER_SIZE {
          b := b[1..];
        }
        assert b == MakeRoom(was) + [candle];
      }
      buffers := buffers[key := b];
    }

    method GetClosePrices(symbol: string, interval: string) returns (prices: seq<real>)
      ensures var b := Deque(MakeKey(symbol, interval));
        |prices| == |b| && forall i | 0 <= i < |b| :: prices[i] == b[i].close
    {
      var key := MakeKey(symbol, interval);
      prices := [];
      if key in buffers {
        for i := 0 to |buffers[key]|
          invariant |prices| == i && forall k | 0 <= k < i :: prices[k] == buffers[key][k].close
        {
          prices := prices + [buffers[key][i].close];
        }
      }
    }
  }
}
