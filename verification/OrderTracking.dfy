/** `processSdkOrderUpdate` with its fill accounting, and the open-order circuit
    breaker in both its places: there and after each order `send_order` places.
    Quantities are whole quanta of the exchange, each far above the source's
    1e-9 comparison slack; each handler is one atomic step. */
module OrderTracking {
  import opened Wrappers
  import opened Reals

  const MAX_OPEN_ORDERS: nat := 150

  datatype Status = New | PartiallyFilled | Filled | Canceled | Rejected | Unhandled

  datatype SdkOrder = SdkOrder(
    id: string, symbol: string, clientOrderId: string, status: Status,
    isBuy: bool, price: real, quantity: int, executed: int)
  {
    predicate IsFill() { status.PartiallyFilled? || status.Filled? }
  }

  datatype RestingOrder = RestingOrder(
    orderId: string, symbol: string, isBid: bool, price: real, qty: int, clientId: string)

  datatype ActivePosition = ActivePosition(
    isBuy: bool, entryPrice: real, quantity: int, filledSoFar: int,
    pendingClosure: bool, closingOrderId: Option<string>)

  /** What a fill report puts in the trade log. */
  datatype TradeEvent =
    | Fill(modelId: string, orderId: string, filled: int, quantity: int, complete: bool)
    | Closure(modelId: string, price: real, quantity: int, pnl: real)

  type OpenOrders = map<string, RestingOrder>

  datatype State = State(open: OpenOrders, positions: map<string, ActivePosition>, log: seq<TradeEvent>)

  /** One update, with the exchange's answer should a bulk cancel be attempted. */
  datatype Update = Update(order: SdkOrder, cancelOk: bool)

  /** What happens to the open orders: an update arrives, or `send_order` has
      placed an order for a symbol and looks ahead. */
  datatype Event =
    | Report(update: Update)
    | Sent(symbol: string, cancelOk: bool)

  function Holding(open: OpenOrders, symbol: string): set<string> {
    set id | id in open && open[id].symbol == symbol
  }

  function CancelAll(trading: string, open: OpenOrders, symbol: string, ok: bool): OpenOrders {
    if symbol == "" || symbol != trading || !ok then open else open - Holding(open, symbol)
  }

  function Enforce(trading: string, open: OpenOrders, symbol: string, ok: bool): OpenOrders {
    if symbol == "" || symbol != trading || |Holding(open, symbol)| < MAX_OPEN_ORDERS then open
    else CancelAll(trading, open, symbol, ok)
  }

  /** The check after an accepted order counts it as if it were held already. */
  function LookAhead(trading: string, open: OpenOrders, symbol: string, ok: bool): OpenOrders {
    if |Holding(open, symbol)| + 1 < MAX_OPEN_ORDERS then open else CancelAll(trading, open, symbol, ok)
  }

  function Resting(o: SdkOrder): RestingOrder {
    RestingOrder(o.id, o.symbol, o.isBuy, o.price, o.quantity - o.executed, o.clientOrderId)
  }

  /** A first fill report adds the order; later ones refresh it in place. */
  function Place(open: OpenOrders, o: SdkOrder): OpenOrders {
    if o.id !in open then open[o.id := Resting(o)]
    else
      var held := open[o.id];
      open[o.id := held.(qty := o.quantity - o.executed, price := o.price,
                         isBid := o.isBuy, clientId := o.clientOrderId)]
  }

  function FilledBefore(s: State, model: string): int {
    if model in s.positions then s.positions[model].filledSoFar else 0
  }

  function FillEvents(s: State, o: SdkOrder): seq<TradeEvent> {
    var model := o.clientOrderId;
    var delta := o.executed - FilledBefore(s, model);
    var original := if model in s.positions then s.positions[model].quantity else o.quantity;
    if delta > 0 then [Fill(model, o.id, delta, original, o.status.Filled?)] else []
  }

  /** Does this report complete the order that was to close the position? */
  predicate Closes(p: ActivePosition, o: SdkOrder) {
    p.pendingClosure && p.closingOrderId == Some(o.id) && o.status.Filled?
  }

  /** The position after a report.  The entry price follows the report's price. */
  function Advance(p: ActivePosition, o: SdkOrder): ActivePosition {
    p.(entryPrice := if o.executed > 0 && o.price > 0.0 then o.price else p.entryPrice,
       filledSoFar := o.executed,
       quantity := if o.status.Filled? then o.executed else p.quantity,
       pendingClosure := p.pendingClosure && !Closes(p, o))
  }

  /** Profit of a position entered at `entry` and left at `exit`. */
  function Profit(isBuy: bool, entry: real, exit: real, qty: int): real {
    Times(if isBuy then exit - entry else entry - exit, qty as real)
  }

  function ClosureEvents(p: ActivePosition, o: SdkOrder): seq<TradeEvent> {
    if !Closes(p, o) then []
    else [Closure(o.clientOrderId, o.price, o.executed, Profit(p.isBuy, Advance(p, o).entryPrice, o.price, o.executed))]
  }

  /** Logging of the newly filled quantity and of a completed closure, and update of the position. */
  function Track(s: State, o: SdkOrder): State {
    var model := o.clientOrderId;
    if model == "" then s
    else if model !in s.positions then s.(log := s.log + FillEvents(s, o))
    else
      s.(log := s.log + FillEvents(s, o) + ClosureEvents(s.positions[model], o),
         positions := s.positions[model := Advance(s.positions[model], o)])
  }

  predicate Ignored(trading: string, o: SdkOrder) {
    o.id == "" || o.symbol != trading
  }

  function Step(trading: string, s: State, u: Update): State {
    var o := u.order;
    if Ignored(trading, o) then s else
    match o.status
    case New => s.(open := Enforce(trading, s.open, o.symbol, u.cancelOk))
    case PartiallyFilled => Track(s, o).(open := Enforce(trading, Place(s.open, o), o.symbol, u.cancelOk))
    case Filled => Track(s, o).(open := Enforce(trading, Place(s.open, o), o.symbol, u.cancelOk))
    case Canceled => s.(open := s.open - {o.id})
    case Rejected => s.(open := s.open - {o.id})
    case Unhandled => s
  }

  function Handle(trading: string, s: State, e: Event): State {
    match e
    case Report(u) => Step(trading, s, u)
    case Sent(symbol, ok) => s.(open := LookAhead(trading, s.open, symbol, ok))
  }

  function Exec(trading: string, s: State, es: seq<Event>): State {
    if es == [] then s else Handle(trading, Exec(trading, s, es[..|es| - 1]), es[|es| - 1])
  }

  // ---- Fill accounting ----

  /** Quantity logged for one model. */
  function Logged(log: seq<TradeEvent>, model: string): int {
    if log == [] then 0 else Logged(log[..|log| - 1], model) + FilledBy(log[|log| - 1], model)
  }

  function FilledBy(e: TradeEvent, model: string): int {
    if e.Fill? && e.modelId == model then e.filled else 0
  }

  /** The executed quantities reported for a model, in delivery order. */
  function Reports(trading: string, es: seq<Event>, model: string): seq<int> {
    if es == [] then []
    else
      var e := es[|es| - 1];
      var before := Reports(trading, es[..|es| - 1], model);
      if e.Report? && IsReport(trading, e.update.order, model) then before + [e.update.order.executed] else before
  }

  function LastReport(start: int, reports: seq<int>): int {
    if reports == [] then start else reports[|reports| - 1]
  }

  /** How much the reports fall back in total. */
  function Setbacks(start: int, reports: seq<int>): nat {
    if reports == [] then 0
    else
      var before := LastReport(start, reports[..|reports| - 1]);
      var now := reports[|reports| - 1];
      Setbacks(start, reports[..|reports| - 1]) + if now < before then before - now else 0
  }

  ghost predicate NonDecreasing(start: int, reports: seq<int>) {
    && (reports != [] ==> start <= reports[0])
    && forall i | 0 <= i < |reports| - 1 :: reports[i] <= reports[i + 1]
  }

  /** What is appended for another event than a fill adds nothing. */
  lemma LoggedAppend(log: seq<TradeEvent>, es: seq<TradeEvent>, model: string)
    requires |es| <= 1
    ensures Logged(log + es, model) == Logged(log, model) + if es == [] then 0 else FilledBy(es[0], model)
  {
    if es == [] {
      assert log + es == log;
    } else {
      assert (log + es)[..|log|] == log;
    }
  }

  lemma TrackLogs(s: State, o: SdkOrder, model: string)
    requires model != "" && model in s.positions
    ensures var t := Track(s, o);
      var f := s.positions[model].filledSoFar;
      && model in t.positions
      && t.positions[model].filledSoFar == (if o.clientOrderId == model then o.executed else f)
      && Logged(t.log, model)
         == Logged(s.log, model) + if o.clientOrderId == model && o.executed > f then o.executed - f else 0
  {
    hide Logged;
    LoggedAppend(s.log, FillEvents(s, o), model);
    if o.clientOrderId in s.positions {
      LoggedAppend(s.log + FillEvents(s, o), ClosureEvents(s.positions[o.clientOrderId], o), model);
    }
  }

  /** Is this update a fill report for the model? */
  predicate IsReport(trading: string, o: SdkOrder, model: string) {
    !Ignored(trading, o) && o.IsFill() && o.clientOrderId == model
  }

  lemma StepLogs(trading: string, s: State, u: Update, model: string)
    requires model != "" && model in s.positions
    ensures var t := Step(trading, s, u);
      var f, o := s.positions[model].filledSoFar, u.order;
      && model in t.positions
      && t.positions[model].filledSoFar == (if IsReport(trading, o, model) then o.executed else f)
      && Logged(t.log, model)
         == Logged(s.log, model) + if IsReport(trading, o, model) && o.executed > f then o.executed - f else 0
  {
    hide Track, Enforce, Place, Logged;
    TrackLogs(s, u.order, model);
  }

  /** What a run logs for a tracked model: the last report plus everything the reports fell back. */
  lemma {:induction false} LoggedExactly(trading: string, s: State, es: seq<Event>, model: string)
    requires model != "" && model in s.positions
    ensures var t := Exec(trading, s, es);
      var f, reports := s.positions[model].filledSoFar, Reports(trading, es, model);
      && model in t.positions
      && t.positions[model].filledSoFar == LastReport(f, reports)
      && Logged(t.log, model) - Logged(s.log, model) == LastReport(f, reports) - f + Setbacks(f, reports)
    decreases |es|
  {
    hide Step, LookAhead, Logged;
    if es != [] {
      var front, e := es[..|es| - 1], es[|es| - 1];
      LoggedExactly(trading, s, front, model);
      if e.Report? {
        StepLogs(trading, Exec(trading, s, front), e.update, model);
        var reports := Reports(trading, front, model);
        assert (reports + [e.update.order.executed])[..|reports|] == reports;
      }
    }
  }

  lemma {:induction false} NoSetbacks(start: int, reports: seq<int>)
    ensures Setbacks(start, reports) == 0 <==> NonDecreasing(start, reports)
    decreases |reports|
  {
    if reports != [] {
      var front := reports[..|reports| - 1];
      NoSetbacks(start, front);
      if |front| > 0 {
        assert reports[|reports| - 2] == front[|front| - 1];
        assert forall i | 0 <= i < |front| :: front[i] == reports[i];
      }
    }
  }

  /** For a tracked order the logged fills add up to the filled quantity
      exactly when executed quantities never go down from one report to the next. */
  lemma FillsConserved(trading: string, s: State, es: seq<Event>, model: string)
    requires model != "" && model in s.positions
    requires Logged(s.log, model) == s.positions[model].filledSoFar
    ensures var t := Exec(trading, s, es);
      var reports := Reports(trading, es, model);
      && model in t.positions
      && t.positions[model].filledSoFar == LastReport(s.positions[model].filledSoFar, reports)
      && (Logged(t.log, model) == t.positions[model].filledSoFar
          <==> NonDecreasing(s.positions[model].filledSoFar, reports))
  {
    LoggedExactly(trading, s, es, model);
    NoSetbacks(s.positions[model].filledSoFar, Reports(trading, es, model));
  }

  /** Two updates in a row. */
  function TwoReports(u: Update, v: Update): seq<Event> { [Report(u), Report(v)] }

  lemma ExecTwo(trading: string, s: State, u: Update, v: Update)
    ensures Exec(trading, s, TwoReports(u, v)) == Step(trading, Step(trading, s, u), v)
    ensures Exec(trading, s, [Report(u)]) == Step(trading, s, u)
  {
    var es := TwoReports(u, v);
    assert es[..1] == [Report(u)] && [Report(u)][..0] == [];
    assert Exec(trading, s, []) == s;
    assert Exec(trading, s, [Report(u)]) == Handle(trading, s, Report(u));
  }

  /** Reports of 5 and then 3 leave 3 filled and 5 logged. */
  lemma FallingReport(order: SdkOrder)
    requires order.id != "" && order.clientOrderId != "" && order.status.PartiallyFilled?
    ensures var model := order.clientOrderId;
      var s := State(map[], map[model := ActivePosition(true, 1.0, 10, 0, false, None)], []);
      var u, v := Update(order.(executed := 5), true), Update(order.(executed := 3), true);
      var t := Exec(order.symbol, s, TwoReports(u, v));
      && model in t.positions && t.positions[model].filledSoFar == 3
      && Logged(t.log, model) == 5
  {
    hide Step, Logged;
    var model := order.clientOrderId;
    var s := State(map[], map[model := ActivePosition(true, 1.0, 10, 0, false, None)], []);
    var u, v := Update(order.(executed := 5), true), Update(order.(executed := 3), true);
    ExecTwo(order.symbol, s, u, v);
    StepLogs(order.symbol, s, u, model);
    StepLogs(order.symbol, Step(order.symbol, s, u), v, model);
    NothingLogged(model);
  }

  lemma NothingLogged(model: string)
    ensures Logged([], model) == 0
  {}

  /** What one update writes to the log for a fill: one entry, if the report is
      of a named order and shows more executed than is known, saying how much more,
      of which order, of how much in all, and whether that completes it. */
  lemma FillEntry(trading: string, s: State, u: Update)
    ensures var t, o, n := Step(trading, s, u), u.order, |s.log|;
      var known := o.clientOrderId in s.positions;
      var more := o.executed - if known then s.positions[o.clientOrderId].filledSoFar else 0;
      && s.log <= t.log
      && (!Ignored(trading, o) && o.IsFill() && o.clientOrderId != "" && more > 0 ==>
           && |t.log| > n && t.log[n].Fill?
           && t.log[n].modelId == o.clientOrderId && t.log[n].orderId == o.id && t.log[n].filled == more
           && t.log[n].quantity == (if known then s.positions[o.clientOrderId].quantity else o.quantity)
           && (t.log[n].complete <==> o.status.Filled?)
           && forall i | n < i < |t.log| :: t.log[i].Closure?)
      && (Ignored(trading, o) || !o.IsFill() || o.clientOrderId == "" || more <= 0 ==>
           forall i | n <= i < |t.log| :: t.log[i].Closure?)
  {
    hide Enforce, Place, Profit;
  }

  /** What a position shows after a run: the executed quantity of the last report
      that called its order filled, the price of the last report that had one,
      and otherwise what it showed before. */
  function FilledQuantity(trading: string, start: int, es: seq<Event>, model: string): int {
    if es == [] then start
    else
      var e := es[|es| - 1];
      if e.Report? && IsReport(trading, e.update.order, model) && e.update.order.status.Filled?
      then e.update.order.executed
      else FilledQuantity(trading, start, es[..|es| - 1], model)
  }

  function ReportedPrice(trading: string, start: real, es: seq<Event>, model: string): real {
    if es == [] then start
    else
      var e := es[|es| - 1];
      if e.Report? && IsReport(trading, e.update.order, model)
         && e.update.order.executed > 0 && e.update.order.price > 0.0
      then e.update.order.price
      else ReportedPrice(trading, start, es[..|es| - 1], model)
  }

  lemma {:induction false} PositionExactly(trading: string, s: State, es: seq<Event>, model: string)
    requires model != "" && model in s.positions
    ensures var t, p := Exec(trading, s, es), s.positions[model];
      && model in t.positions
      && t.positions[model].quantity == FilledQuantity(trading, p.quantity, es, model)
      && t.positions[model].entryPrice == ReportedPrice(trading, p.entryPrice, es, model)
      && t.positions[model].isBuy == p.isBuy && t.positions[model].closingOrderId == p.closingOrderId
    decreases |es|
  {
    hide Enforce, Place, LookAhead, Profit;
    if es != [] {
      PositionExactly(trading, s, es[..|es| - 1], model);
    }
  }

  /** Delivering a fill report a second time logs nothing and moves nothing. */
  lemma DuplicateIsSilent(trading: string, s: State, u: Update, v: Update)
    requires u.order.IsFill() && u.order == v.order && u.order.clientOrderId in s.positions
    ensures var once := Step(trading, s, u);
      var twice := Step(trading, once, v);
      twice.log == once.log && twice.positions == once.positions
  {
    hide Enforce, Place, Profit;
  }

  /** Without a tracked position nothing remembers earlier reports, so each one is logged in full again. */
  lemma UntrackedLoggedAgain(trading: string, s: State, u: Update)
    requires u.order.IsFill() && !Ignored(trading, u.order) && u.order.executed > 0
    requires u.order.clientOrderId != "" && u.order.clientOrderId !in s.positions
    ensures var twice := Step(trading, Step(trading, s, u), u);
      Logged(twice.log, u.order.clientOrderId) == Logged(s.log, u.order.clientOrderId) + 2 * u.order.executed
  {
    hide Enforce, Place, Logged;
    var o := u.order;
    var once := Step(trading, s, u);
    LoggedAppend(s.log, FillEvents(s, o), o.clientOrderId);
    LoggedAppend(once.log, FillEvents(once, o), o.clientOrderId);
  }

  // ---- The branch that completes a closure ----

  ghost predicate NonePending(s: State) {
    forall model | model in s.positions :: !s.positions[model].pendingClosure
  }

  ghost predicate NoClosureLogged(log: seq<TradeEvent>) {
    forall i | 0 <= i < |log| :: log[i].Fill?
  }

  /** No handler here ever marks a position for closure, so from a state without
      such a position no run logs a completed closure: the branch is dead. */
  lemma {:induction false} ClosureNeverLogged(trading: string, s: State, es: seq<Event>)
    requires NonePending(s) && NoClosureLogged(s.log)
    ensures NonePending(Exec(trading, s, es)) && NoClosureLogged(Exec(trading, s, es).log)
    decreases |es|
  {
    hide Place, Enforce, LookAhead, Profit;
    if es != [] {
      ClosureNeverLogged(trading, s, es[..|es| - 1]);
    }
  }

  /** What the branch would log: the entry price is overwritten before the
      profit is computed, so a closing report with a positive price and quantity
      gives 0.  The profit is the real one exactly when nothing was overwritten
      or the position was left at its entry price. */
  lemma ClosingResult(trading: string, s: State, u: Update)
    requires var o := u.order; !Ignored(trading, o) && o.clientOrderId != "" && o.clientOrderId in s.positions
    requires Closes(s.positions[u.order.clientOrderId], u.order)
    ensures var o, p, t := u.order, s.positions[u.order.clientOrderId], Step(trading, s, u);
      && |t.log| > |s.log| && t.log[|t.log| - 1].Closure?
      && (o.executed > 0 && o.price > 0.0 ==> t.log[|t.log| - 1].pnl == 0.0)
      && (t.log[|t.log| - 1].pnl == Profit(p.isBuy, p.entryPrice, o.price, o.executed)
          <==> o.executed <= 0 || o.price <= 0.0 || o.price == p.entryPrice)
  {
    hide Times, Enforce, Place;
    var o, p := u.order, s.positions[u.order.clientOrderId];
    TimesConstants(o.executed as real);
    if o.executed > 0 {
      TimesOrder(0.0, o.price - p.entryPrice, o.executed as real);
      TimesOrder(0.0, p.entryPrice - o.price, o.executed as real);
    }
  }

  /** Ten bought at 1 and sold at 2, marked for closure: 0 would be logged instead of 10. */
  lemma ClosureOfTen(order: SdkOrder)
    requires order.id != "" && order.clientOrderId != "" && order.status.Filled?
    requires order.price == 2.0 && order.executed == 10
    ensures var p := ActivePosition(true, 1.0, 10, 10, true, Some(order.id));
      var s := State(map[], map[order.clientOrderId := p], []);
      && Profit(true, 1.0, 2.0, 10) == 10.0
      && Step(order.symbol, s, Update(order, true)).log == [Closure(order.clientOrderId, 2.0, 10, 0.0)]
  {}

  // ---- Open orders ----

  /** Is the limit reached at this update, so that a bulk cancel is attempted? */
  predicate Trips(trading: string, s: State, u: Update) {
    var o := u.order;
    && !Ignored(trading, o) && trading != ""
    && ((o.status.New? && |Holding(s.open, trading)| >= MAX_OPEN_ORDERS)
        || (o.IsFill() && |Holding(Place(s.open, o), trading)| >= MAX_OPEN_ORDERS))
  }

  /** Does this event make an attempt at a bulk cancel that the exchange accepts? */
  predicate Sweeps(trading: string, s: State, e: Event) {
    match e
    case Report(u) => Trips(trading, s, u) && u.cancelOk
    case Sent(symbol, ok) =>
      symbol == trading && trading != "" && |Holding(s.open, trading)| + 1 >= MAX_OPEN_ORDERS && ok
  }

  /** Bulk cancels the limit demanded of an update and the exchange refused, since the last accepted one. */
  function FailedCancels(trading: string, s: State, es: seq<Event>): nat {
    if es == [] then 0
    else
      var front, e := es[..|es| - 1], es[|es| - 1];
      var before := FailedCancels(trading, s, front);
      if Sweeps(trading, Exec(trading, s, front), e) then 0
      else if e.Report? && Trips(trading, Exec(trading, s, front), e.update) then before + 1
      else before
  }

  /** Is this order held, told from the history of events?  A fill report adds it,
      a cancel or rejection removes it, an accepted bulk cancel removes all. */
  predicate Held(trading: string, s: State, es: seq<Event>, id: string) {
    if es == [] then false
    else
      var front, e := es[..|es| - 1], es[|es| - 1];
      var before := Held(trading, s, front, id);
      if Sweeps(trading, Exec(trading, s, front), e) then false
      else if e.Sent? || Ignored(trading, e.update.order) then before
      else match e.update.order.status
           case PartiallyFilled | Filled => before || e.update.order.id == id
           case Canceled | Rejected => before && e.update.order.id != id
           case New | Unhandled => before
  }

  predicate IsFillOf(trading: string, e: Event, id: string) {
    e.Report? && !Ignored(trading, e.update.order) && e.update.order.IsFill() && e.update.order.id == id
  }

  /** The last fill report for an order id. */
  function LastFill(trading: string, es: seq<Event>, id: string): seq<SdkOrder> {
    if es == [] then []
    else if IsFillOf(trading, es[|es| - 1], id) then [es[|es| - 1].update.order]
    else LastFill(trading, es[..|es| - 1], id)
  }

  ghost predicate OnlySymbol(trading: string, open: OpenOrders) {
    forall id | id in open :: open[id].symbol == trading && open[id].orderId == id
  }

  lemma HoldingAll(trading: string, open: OpenOrders)
    requires OnlySymbol(trading, open)
    ensures Holding(open, trading) == open.Keys
  {}

  lemma InsertCardinality(open: OpenOrders, id: string, r: RestingOrder)
    ensures |open[id := r]| <= |open| + 1
  {
    assert open[id := r].Keys == open.Keys + {id};
  }

  lemma RemoveCardinality(open: OpenOrders, id: string)
    ensures |open - {id}| <= |open|
  {
    SubsetCardinality((open - {id}).Keys, open.Keys);
  }

  lemma {:induction false} SubsetCardinality(a: set<string>, b: set<string>)
    requires a <= b
    ensures |a| <= |b|
  {
    if a != {} {
      var x :| x in a;
      SubsetCardinality(a - {x}, b - {x});
    }
  }

  lemma EnforceEffect(trading: string, open: OpenOrders, ok: bool)
    requires trading != "" && OnlySymbol(trading, open)
    ensures Enforce(trading, open, trading, ok)
         == if |Holding(open, trading)| >= MAX_OPEN_ORDERS && ok then map[] else open
  {
    HoldingAll(trading, open);
    assert open - open.Keys == map[];
  }

  lemma PlaceBound(trading: string, open: OpenOrders, o: SdkOrder)
    requires OnlySymbol(trading, open) && o.symbol == trading
    ensures OnlySymbol(trading, Place(open, o)) && |Place(open, o)| <= |open| + 1
    ensures Place(open, o) == open[o.id := Resting(o)]
  {
    InsertCardinality(open, o.id, Place(open, o)[o.id]);
  }

  /** What one update leaves open. */
  function OpenAfter(trading: string, s: State, u: Update): OpenOrders {
    if Ignored(trading, u.order) then s.open
    else if Trips(trading, s, u) && u.cancelOk then map[]
    else match u.order.status
         case PartiallyFilled | Filled => s.open[u.order.id := Resting(u.order)]
         case Canceled | Rejected => s.open - {u.order.id}
         case New | Unhandled => s.open
  }

  lemma StepOpen(trading: string, s: State, u: Update)
    requires trading != "" && OnlySymbol(trading, s.open)
    ensures Step(trading, s, u).open == OpenAfter(trading, s, u)
    ensures OnlySymbol(trading, Step(trading, s, u).open)
  {
    hide Track, Enforce, Place, Holding;
    var o := u.order;
    if !Ignored(trading, o) {
      EnforceEffect(trading, s.open, u.cancelOk);
      PlaceBound(trading, s.open, o);
      EnforceEffect(trading, Place(s.open, o), u.cancelOk);
    }
  }

  /** The breaker's bound rises only where a bulk cancel is attempted and fails;
      after an accepted one nothing is held. */
  lemma StepBound(trading: string, s: State, u: Update, n: nat)
    requires trading != "" && OnlySymbol(trading, s.open) && n >= MAX_OPEN_ORDERS && |s.open| < n
    ensures var t := Step(trading, s, u);
      |t.open| < if !Trips(trading, s, u) then n else if u.cancelOk then 1 else n + 1
  {
    hide Step, Trips, OnlySymbol, Resting, OpenAfter;
    StepOpen(trading, s, u);
    TripsWhenFull(trading, s, u);
    SizeAfter(trading, s, u);
  }

  /** How many orders an update can leave. */
  lemma SizeAfter(trading: string, s: State, u: Update)
    ensures var o := u.order;
      |OpenAfter(trading, s, u)|
        <= if Ignored(trading, o) then |s.open|
           else if Trips(trading, s, u) && u.cancelOk then 0
           else if o.IsFill() then |s.open[o.id := Resting(o)]| else |s.open|
    ensures |s.open[u.order.id := Resting(u.order)]| <= |s.open| + 1
  {
    hide Trips, Resting;
    RemoveCardinality(s.open, u.order.id);
    InsertCardinality(s.open, u.order.id, Resting(u.order));
  }

  /** The breaker trips at 150 orders: those held at an announcement, those held after a fill. */
  lemma TripsWhenFull(trading: string, s: State, u: Update)
    requires trading != "" && OnlySymbol(trading, s.open)
    ensures Trips(trading, s, u) <==>
      && !Ignored(trading, u.order)
      && ((u.order.status.New? && |s.open| >= MAX_OPEN_ORDERS)
          || (u.order.IsFill() && |s.open[u.order.id := Resting(u.order)]| >= MAX_OPEN_ORDERS))
  {
    hide Holding, Place;
    HoldingAll(trading, s.open);
    if !Ignored(trading, u.order) {
      PlaceBound(trading, s.open, u.order);
      HoldingAll(trading, Place(s.open, u.order));
    }
  }

  lemma LookAheadEffect(trading: string, s: State, symbol: string, ok: bool)
    requires OnlySymbol(trading, s.open)
    ensures LookAhead(trading, s.open, symbol, ok) == if Sweeps(trading, s, Sent(symbol, ok)) then map[] else s.open
    ensures Sweeps(trading, s, Sent(symbol, ok))
       <==> symbol == trading && trading != "" && ok && |s.open| + 1 >= MAX_OPEN_ORDERS
  {
    HoldingAll(trading, s.open);
    assert s.open - s.open.Keys == map[];
  }

  /** What one event leaves open. */
  lemma HandleOpen(trading: string, s: State, e: Event)
    requires trading != "" && OnlySymbol(trading, s.open)
    ensures var t := Handle(trading, s, e);
      && OnlySymbol(trading, t.open)
      && t.open == if Sweeps(trading, s, e) then map[]
                   else if e.Report? then OpenAfter(trading, s, e.update) else s.open
  {
    hide Step, LookAhead;
    match e
    case Report(u) => StepOpen(trading, s, u);
    case Sent(symbol, ok) => LookAheadEffect(trading, s, symbol, ok);
  }

  /** The circuit breaker: starting empty, after every event fewer than 150
      orders are held, or one more for each bulk cancel demanded at an update
      and refused since the last accepted one.  Only the trading symbol is held,
      and each order under its own id. */
  lemma {:induction false} BreakerHolds(trading: string, s: State, es: seq<Event>)
    requires trading != "" && s.open == map[]
    ensures var t := Exec(trading, s, es);
      && OnlySymbol(trading, t.open)
      && |t.open| < MAX_OPEN_ORDERS + FailedCancels(trading, s, es)
    decreases |es|
  {
    hide Handle, Step, Trips, OnlySymbol, OpenAfter;
    if es == [] {
      NoneHeld(trading);
    } else {
      var front, e := es[..|es| - 1], es[|es| - 1];
      var before := Exec(trading, s, front);
      BreakerHolds(trading, s, front);
      HandleOpen(trading, before, e);
      if e.Report? {
        StepOpen(trading, before, e.update);
        StepBound(trading, before, e.update, MAX_OPEN_ORDERS + FailedCancels(trading, s, front));
      }
    }
  }

  /** Updates at which the exchange would refuse a bulk cancel. */
  function Refusals(es: seq<Event>): nat {
    if es == [] then 0
    else Refusals(es[..|es| - 1]) + if es[|es| - 1].Report? && !es[|es| - 1].update.cancelOk then 1 else 0
  }

  lemma {:induction false} FailedAtMost(trading: string, s: State, es: seq<Event>)
    ensures FailedCancels(trading, s, es) <= Refusals(es)
    decreases |es|
  {
    hide Trips, Exec;
    if es != [] {
      FailedAtMost(trading, s, es[..|es| - 1]);
    }
  }

  /** So 150 orders are never held unless the exchange refuses a cancel, and each
      refusal is good for one order more. */
  lemma NeverFull(trading: string, s: State, es: seq<Event>)
    requires trading != "" && s.open == map[]
    ensures |Exec(trading, s, es).open| < 150 + Refusals(es)
  {
    hide Exec;
    BreakerHolds(trading, s, es);
    FailedAtMost(trading, s, es);
  }

  lemma NoneHeld(trading: string)
    ensures OnlySymbol(trading, map[])
  {}

  /** An order accepted while at least 149 are held sweeps the book if the exchange agrees. */
  lemma SentSweeps(trading: string, s: State, es: seq<Event>)
    requires trading != "" && s.open == map[]
    ensures var before := Exec(trading, s, es).open;
      Exec(trading, s, es + [Sent(trading, true)]).open == if |before| >= 149 then map[] else before
  {
    hide Handle, OnlySymbol, Sweeps;
    BreakerHolds(trading, s, es);
    HandleOpen(trading, Exec(trading, s, es), Sent(trading, true));
    LookAheadEffect(trading, Exec(trading, s, es), trading, true);
    assert (es + [Sent(trading, true)])[..|es|] == es;
  }

  /** Exactly which orders are held, and what they show: an order is held from
      its first fill report until it is cancelled, rejected or swept away by
      the breaker, and shows the open quantity of its last fill report. */
  lemma {:induction false} HeldExactly(trading: string, s: State, es: seq<Event>, id: string)
    requires trading != "" && s.open == map[]
    ensures var t := Exec(trading, s, es);
      && (id in t.open <==> Held(trading, s, es, id))
      && (id in t.open ==>
           && LastFill(trading, es, id) != []
           && t.open[id] == Resting(LastFill(trading, es, id)[0]))
    decreases |es|
  {
    hide Handle, Sweeps, Trips, OnlySymbol, Resting;
    if es != [] {
      var front := es[..|es| - 1];
      HeldExactly(trading, s, front, id);
      BreakerHolds(trading, s, front);
      HandleOpen(trading, Exec(trading, s, front), es[|es| - 1]);
      SweepsWhenTripped(trading, Exec(trading, s, front), es[|es| - 1]);
    }
  }

  /** What a held order shows, field by field. */
  lemma HeldShows(trading: string, s: State, es: seq<Event>, id: string)
    requires trading != "" && s.open == map[] && id in Exec(trading, s, es).open
    ensures LastFill(trading, es, id) != []
    ensures var r, o := Exec(trading, s, es).open[id], LastFill(trading, es, id)[0];
      && r.orderId == id && o.id == id && r.symbol == o.symbol == trading && r.isBid == o.isBuy
      && r.price == o.price && r.qty == o.quantity - o.executed && r.clientId == o.clientOrderId
  {
    hide Exec;
    HeldExactly(trading, s, es, id);
    BreakerHolds(trading, s, es);
    LastFillIs(trading, es, id);
  }

  lemma {:induction false} LastFillIs(trading: string, es: seq<Event>, id: string)
    requires LastFill(trading, es, id) != []
    ensures var o := LastFill(trading, es, id)[0]; o.id == id && o.IsFill() && !Ignored(trading, o)
    decreases |es|
  {
    if es != [] && !IsFillOf(trading, es[|es| - 1], id) {
      LastFillIs(trading, es[..|es| - 1], id);
    }
  }

  lemma SweepsWhenTripped(trading: string, s: State, e: Event)
    ensures e.Report? ==> (Sweeps(trading, s, e) <==> Trips(trading, s, e.update) && e.update.cancelOk)
  {}

  /** A completely filled order stays, with nothing left to fill, unless this
      very update sweeps the book. */
  lemma FilledStays(trading: string, s: State, es: seq<Event>, u: Update)
    requires trading != "" && s.open == map[]
    requires !Ignored(trading, u.order) && u.order.status.Filled? && u.order.executed == u.order.quantity
    ensures var t := Exec(trading, s, es + [Report(u)]);
      && (u.order.id in t.open <==> !(Trips(trading, Exec(trading, s, es), u) && u.cancelOk))
      && (u.order.id in t.open ==> t.open[u.order.id].qty == 0)
  {
    hide Step, Trips, OnlySymbol;
    BreakerHolds(trading, s, es);
    StepOpen(trading, Exec(trading, s, es), u);
    assert (es + [Report(u)])[..|es|] == es;
  }

  /** The first order of a session: announced it is not held, filled it is, with quantity 0. */
  lemma FirstOrder(trading: string, order: SdkOrder)
    requires trading != "" && !Ignored(trading, order) && order.executed == order.quantity
    ensures var s := State(map[], map[], []);
      var announced, filled := Update(order.(status := New), true), Update(order.(status := Filled), true);
      && Exec(trading, s, [Report(announced)]).open == map[]
      && order.id in Exec(trading, s, TwoReports(announced, filled)).open
      && Exec(trading, s, TwoReports(announced, filled)).open[order.id].qty == 0
  {
    hide Step, Trips;
    var s := State(map[], map[], []);
    var announced, filled := Update(order.(status := New), true), Update(order.(status := Filled), true);
    ExecTwo(trading, s, announced, filled);
    StepOpen(trading, s, announced);
    TripsWhenFull(trading, s, announced);
    TripsWhenFull(trading, Step(trading, s, announced), filled);
    FilledStays(trading, s, [Report(announced)], filled);
    assert [Report(announced)] + [Report(filled)] == TwoReports(announced, filled);
  }

  /** An order is never added by being announced. */
  lemma NewAddsNothing(trading: string, s: State, u: Update)
    requires u.order.status.New?
    ensures Step(trading, s, u).open.Keys <= s.open.Keys
  {}

  // ---- The object ----

  class ExecutionClient {
    const tradingSymbol: string
    var openOrders: OpenOrders
    var activePositions: map<string, ActivePosition>
    var tradeLog: seq<TradeEvent>

    constructor (tradingSymbol: string)
      ensures this.tradingSymbol == tradingSymbol && View() == State(map[], map[], [])
    {
      this.tradingSymbol := tradingSymbol;
      openOrders, activePositions, tradeLog := map[], map[], [];
    }

    ghost function View(): State
      reads this
    {
      State(openOrders, activePositions, tradeLog)
    }

    method CancelAllOrdersForSymbol(symbol: string, accepted: bool) returns (ok: bool)
      modifies `openOrders
      ensures openOrders == CancelAll(tradingSymbol, old(openOrders), symbol, accepted)
      ensures ok <==> symbol != "" && symbol == tradingSymbol && accepted
    {
      if symbol == "" || symbol != tradingSymbol || !accepted {
        return false;
      }
      var rest := openOrders.Keys;
      while rest != {}
        invariant rest <= old(openOrders).Keys
        invariant openOrders == old(openOrders) - (Holding(old(openOrders), symbol) - rest)
        decreases rest
      {
        var id :| id in rest;
        if openOrders[id].symbol == symbol {
          openOrders := openOrders - {id};
        }
        rest := rest - {id};
      }
      return true;
    }

    method CountOpenOrders(symbol: string) returns (count: nat)
      ensures count == |Holding(openOrders, symbol)|
    {
      count := 0;
      var rest := openOrders.Keys;
      ghost var seen: set<string> := {};
      while rest != {}
        invariant rest <= openOrders.Keys
        invariant count == |seen| && seen == Holding(openOrders, symbol) - rest
        decreases rest
      {
        var id :| id in rest;
        rest := rest - {id};
        if openOrders[id].symbol == symbol {
          count := count + 1;
          seen := seen + {id};
        }
      }
    }

    method EnforceOpenOrderLimit(symbol: string, accepted: bool)
      modifies `openOrders
      ensures openOrders == Enforce(tradingSymbol, old(openOrders), symbol, accepted)
    {
      if symbol == "" || symbol != tradingSymbol {
        return;
      }
      var count := CountOpenOrders(symbol);
      if count >= MAX_OPEN_ORDERS {
        var _ := CancelAllOrdersForSymbol(symbol, accepted);
      }
    }

    /** The end of `send_order`, once the exchange has accepted an order. */
    method PredictBreaker(symbol: string, accepted: bool)
      modifies `openOrders
      ensures View() == Handle(tradingSymbol, old(View()), Sent(symbol, accepted))
    {
      var count := CountOpenOrders(symbol);
      if count + 1 >= MAX_OPEN_ORDERS {
        var _ := CancelAllOrdersForSymbol(symbol, accepted);
      }
    }

    method RecordFill(o: SdkOrder)
      modifies `activePositions, `tradeLog
      ensures View() == Track(old(View()), o)
    {
      var model := o.clientOrderId;
      if model != "" {
        var previous, original := 0, o.quantity;
        if model in activePositions {
          previous := activePositions[model].filledSoFar;
          original := activePositions[model].quantity;
        }
        var filled := o.executed - previous;
        if filled > 0 {
          tradeLog := tradeLog + [Fill(model, o.id, filled, original, o.status.Filled?)];
        }
        if model in activePositions {
          var p := activePositions[model];
          if o.executed > 0 && o.price > 0.0 {
            p := p.(entryPrice := o.price);
          }
          p := p.(filledSoFar := o.executed);
          if o.status.Filled? {
            p := p.(quantity := o.executed);
          }
          if p.pendingClosure && p.closingOrderId == Some(o.id) && o.status.Filled? {
            var pnl := Profit(p.isBuy, p.entryPrice, o.price, p.filledSoFar);
            tradeLog := tradeLog + [Closure(model, o.price, p.filledSoFar, pnl)];
            p := p.(pendingClosure := false);
          }
          activePositions := activePositions[model := p];
        }
      }
    }

    method PlaceOpenOrder(o: SdkOrder)
      modifies `openOrders
      ensures openOrders == Place(old(openOrders), o)
    {
      if o.id !in openOrders {
        var open := o.quantity - o.executed;
        openOrders := openOrders[o.id := RestingOrder(o.id, o.symbol, o.isBuy, o.price, open, o.clientOrderId)];
      } else {
        var held := openOrders[o.id];
        held := held.(qty := o.quantity - o.executed);
        held := held.(price := o.price);
        held := held.(isBid := o.isBuy);
        held := held.(clientId := o.clientOrderId);
        openOrders := openOrders[o.id := held];
      }
    }

    method ProcessSdkOrderUpdate(o: SdkOrder, cancelAccepted: bool)
      modifies this
      ensures View() == Handle(tradingSymbol, old(View()), Report(Update(o, cancelAccepted)))
    {
      if o.id == "" || o.symbol != tradingSymbol {
        return;
      }
      match o.status
      case New =>
        EnforceOpenOrderLimit(o.symbol, cancelAccepted);
      case PartiallyFilled | Filled =>
        RecordFill(o);
        PlaceOpenOrder(o);
        EnforceOpenOrderLimit(o.symbol, cancelAccepted);
      case Canceled | Rejected =>
        openOrders := openOrders - {o.id};
      case Unhandled =>
    }
  }
}
