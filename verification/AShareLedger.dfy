/** The state of the A-share simulator as a value, and what each event does to it
    (backtesting/ashare_state.py, ashare_engine.py, ashare_corporate_actions.py, ashare_simulator.py). */
module AShareLedger {
  import opened Basics
  import opened MarketRules

  /** A normalised order; its quantity is a positive number of raw shares. */
  datatype Order = Order(orderId: string, date: int, instrument: string, side: Side, quantity: int, limitPrice: Option<real>)

  /** A normalised market row, with its lifecycle rejection and price limits already resolved. */
  datatype Bar = Bar(
    lifecycle: Option<string>, suspended: bool, volume: real, reference: real, venue: Venue,
    lockedUp: bool, lockedDown: bool, limits: PriceLimits, spreadBps: Option<real>)
  {
    ghost predicate Valid() {
      && volume >= 0.0
      && (!suspended ==> reference > 0.0)
    }
  }

  datatype Event =
    | CashDividend(eventId: string, date: int, instrument: string, cashPerShare: real)
    | ShareMultiplier(eventId: string, date: int, instrument: string, multiplier: real)
  {
    predicate Valid() { if CashDividend? then cashPerShare >= 0.0 else multiplier > 0.0 }
  }

  datatype Position = Position(total: int, available: int)

  datatype Fill = Fill(
    orderId: string, date: int, instrument: string, side: Side, requested: int, quantity: int,
    price: real, notional: real, fees: real, cashAfter: real, after: Position)

  datatype Rejection = Rejection(orderId: string, date: int, instrument: string, side: Side, requested: int, reason: string)

  datatype ActionRow = ActionRow(event: Event, cashBefore: real, cashDelta: real, cashAfter: real, before: Position, after: Position)

  datatype Ledger = Ledger(
    cash: real,
    positions: map<string, Position>,
    unlocks: map<int, seq<(string, int)>>,
    fills: seq<Fill>,
    rejections: seq<Rejection>,
    actions: seq<ActionRow>,
    rejectionCounts: map<string, nat>,
    volumeUsed: map<(int, string), int>,
    capacityCounted: set<(int, string)>,
    requestedNotional: real,
    filledNotional: real,
    capacityNotional: real)
  {
    /** A name the ledger never touched has an empty position. */
    function At(instrument: string): Position {
      GetOr(positions, instrument, Position(0, 0))
    }

    function Unlocks(date: int): seq<(string, int)> {
      GetOr(unlocks, date, [])
    }

    function Used(key: (int, string)): int {
      GetOr(volumeUsed, key, 0)
    }

    function Rejected(reason: string): nat {
      GetOr(rejectionCounts, reason, 0)
    }
  }

  /** The settings of a simulation; `root` stands for the square root. */
  datatype Market = Market(rules: Rules, regimes: seq<FeeRegime>, root: real -> real) {
    ghost predicate Valid() {
      rules.Valid() && IsRoot(root) && forall r :: r in regimes ==> r.NonNegative()
    }
  }

  function Initial(cash: real): Ledger {
    Ledger(cash, map[], map[], [], [], [], map[], map[], {}, 0.0, 0.0, 0.0)
  }

  // ----- T+1 release

  function Unlock(positions: map<string, Position>, pending: seq<(string, int)>): map<string, Position>
    decreases |pending|
  {
    if pending == [] then positions
    else
      var (instrument, quantity) := pending[0];
      var p := GetOr(positions, instrument, Position(0, 0));
      Unlock(positions[instrument := p.(available := p.available + quantity)], pending[1..])
  }

  function Release(l: Ledger, date: int): Ledger {
    l.(positions := Unlock(l.positions, l.Unlocks(date)), unlocks := l.unlocks - {date})
  }

  // ----- corporate actions

  /** Python's `round`: to the nearest integer, halves to the even one. */
  function RoundHalfEven(x: real): int {
    var floor := x.Floor;
    var rest := x - floor as real;
    if rest < 0.5 then floor
    else if rest > 0.5 then floor + 1
    else if floor % 2 == 0 then floor else floor + 1
  }

  function Product(quantity: int, factor: real): real { quantity as real * factor }

  function ScaledQuantity(quantity: int, multiplier: real): Result<int> {
    var result := Product(quantity, multiplier);
    var rounded := RoundHalfEven(result);
    if Abs(result - rounded as real) > 0.000000001 then Err("fractional raw shares") else Ok(rounded)
  }

  function ApplyAction(l: Ledger, e: Event): Result<Ledger> {
    var before := l.At(e.instrument);
    match e
    case CashDividend(_, _, instrument, cashPerShare) =>
      var delta := Product(before.total, cashPerShare);
      var row := ActionRow(e, l.cash, delta, l.cash + delta, before, before);
      Ok(l.(cash := l.cash + delta, actions := l.actions + [row]))
    case ShareMultiplier(_, _, instrument, multiplier) =>
      var total := ScaledQuantity(before.total, multiplier);
      var available := ScaledQuantity(before.available, multiplier);
      if total.Err? || available.Err? then Err("fractional raw shares")
      else
        var after := Position(total.value, available.value);
        var row := ActionRow(e, l.cash, 0.0, l.cash, before, after);
        Ok(l.(positions := l.positions[instrument := after], actions := l.actions + [row]))
  }

  function ApplyActions(l: Ledger, events: seq<Event>): Result<Ledger>
    decreases |events|
  {
    if events == [] then Ok(l)
    else
      var next := ApplyAction(l, events[0]);
      if next.Err? then next else ApplyActions(next.value, events[1..])
  }

  // ----- orders

  function AddRejection(l: Ledger, order: Order, reason: string): Ledger {
    var row := Rejection(order.orderId, order.date, order.instrument, order.side, order.quantity, reason);
    l.(rejections := l.rejections + [row], rejectionCounts := l.rejectionCounts[reason := l.Rejected(reason) + 1])
  }

  function Key(order: Order): (int, string) { (order.date, order.instrument) }

  function DailyCapacity(m: Market, bar: Bar): int { (bar.volume * m.rules.maxParticipationRate).Floor }

  function RemainingCapacity(m: Market, l: Ledger, order: Order, bar: Bar): int {
    var left := DailyCapacity(m, bar) - l.Used(Key(order));
    if left >= 0 then left else 0
  }

  function Spread(m: Market, bar: Bar): real {
    if bar.spreadBps.Some? then bar.spreadBps.value else m.rules.defaultSpreadBps
  }

  /** The board size of what the order may still trade today. */
  function BoardQuantity(m: Market, l: Ledger, order: Order, bar: Bar): int
    requires m.rules.Valid()
  {
    var remaining := RemainingCapacity(m, l, order, bar);
    var wanted := if order.quantity <= remaining then order.quantity else remaining;
    if order.side == BUY then NormalizeBuyQuantity(order.instrument, wanted as real, m.rules)
    else NormalizeSellQuantity(order.instrument, wanted as real, l.At(order.instrument).available, m.rules)
  }

  function FillPrice(m: Market, order: Order, bar: Bar, quantity: int): real {
    ImpactedFillPrice(bar.reference, order.side, quantity, bar.volume, Spread(m, bar), m.rules, bar.limits, m.root)
  }

  predicate LimitAllows(order: Order, price: real) {
    order.limitPrice.None?
    || (if order.side == BUY then price <= order.limitPrice.value else price >= order.limitPrice.value)
  }

  predicate Tradable(bar: Bar) { bar.lifecycle.None? && !bar.suspended && bar.volume > 0.0 }

  datatype Verdict = Rejects(reason: string) | Raises(reason: string) | Fills(quantity: int, price: real, regime: FeeRegime)

  /** What becomes of a buy whose board quantity and price are known. The price is not recomputed when
      the quantity is cut to the cash. */
  function DecideBuy(m: Market, l: Ledger, order: Order, bar: Bar, quantity: int, price: real): Verdict
    requires m.rules.Valid()
  {
    var regime := FeeRegimeFor(m.regimes, order.date, bar.venue);
    if regime.Err? then Raises(regime.reason)
    else
      var fitted := FitToCash(order.instrument, quantity, price, l.cash, m.rules, regime.value);
      if fitted <= 0 then Rejects("insufficient_cash") else Fills(fitted, price, regime.value)
  }

  /** What becomes of an order whose board quantity is known. */
  function DecidePriced(m: Market, l: Ledger, order: Order, bar: Bar, quantity: int): Verdict
    requires m.rules.Valid()
  {
    var price := FillPrice(m, order, bar, quantity);
    if !LimitAllows(order, price) then Rejects("order_limit_not_marketable")
    else if order.side == BUY then DecideBuy(m, l, order, bar, quantity, price)
    else
      var regime := FeeRegimeFor(m.regimes, order.date, bar.venue);
      if regime.Err? then Raises(regime.reason) else Fills(quantity, price, regime.value)
  }

  function Decide(m: Market, l: Ledger, order: Order, bar: Bar): Verdict
    requires m.rules.Valid()
  {
    if bar.lifecycle.Some? then Rejects(bar.lifecycle.value)
    else if bar.suspended || bar.volume <= 0.0 then Rejects("suspended_or_zero_volume")
    else if order.side == BUY && bar.lockedUp then Rejects("limit_up_no_buy_liquidity")
    else if order.side == SELL && bar.lockedDown then Rejects("limit_down_no_sell_liquidity")
    else
      var quantity := BoardQuantity(m, l, order, bar);
      if quantity <= 0 then
        Rejects(if order.side == BUY then "volume_below_buy_lot"
                else if l.At(order.instrument).available <= 0 then "t_plus_one_or_no_position"
                else "illegal_sell_lot_or_odd_lot_partial")
      else DecidePriced(m, l, order, bar, quantity)
  }

  /** The demand and capacity counters, kept for every order on a tradable row. */
  function Counted(m: Market, l: Ledger, order: Order, bar: Bar): (r: Ledger)
    ensures r == l.(requestedNotional := r.requestedNotional, capacityCounted := r.capacityCounted, capacityNotional := r.capacityNotional)
  {
    if !Tradable(bar) then l
    else
      var l1 := l.(requestedNotional := l.requestedNotional + order.quantity as real * bar.reference);
      if Key(order) in l.capacityCounted then l1
      else l1.(capacityCounted := l.capacityCounted + {Key(order)},
               capacityNotional := l.capacityNotional + DailyCapacity(m, bar) as real * bar.reference)
  }

  /** The cash, position and unlock effects of a fill. */
  function Moved(l: Ledger, order: Order, quantity: int, notional: real, fees: real, next: Option<int>): Ledger {
    var p := l.At(order.instrument);
    if order.side == BUY then
      l.(cash := l.cash - (notional + fees),
         positions := l.positions[order.instrument := Position(p.total + quantity, p.available)],
         unlocks := if next.Some? then l.unlocks[next.value := l.Unlocks(next.value) + [(order.instrument, quantity)]] else l.unlocks)
    else
      l.(cash := l.cash + (notional - fees),
         positions := l.positions[order.instrument := Position(p.total - quantity, p.available - quantity)])
  }

  /** All effects of a fill, and its row. */
  function Settle(l: Ledger, order: Order, quantity: int, price: real, fees: real, next: Option<int>): Ledger {
    var notional := Product(quantity, price);
    var moved := Moved(l, order, quantity, notional, fees, next);
    var row := Fill(order.orderId, order.date, order.instrument, order.side, order.quantity, quantity,
                    price, notional, fees, moved.cash, moved.At(order.instrument));
    moved.(volumeUsed := l.volumeUsed[Key(order) := l.Used(Key(order)) + quantity],
           filledNotional := l.filledNotional + notional,
           fills := l.fills + [row])
  }

  function FeesOf(m: Market, order: Order, v: Verdict): real
    requires v.Fills?
  {
    FeeBreakdown(Product(v.quantity, v.price), order.side, m.rules, v.regime).Total()
  }

  function Execute(m: Market, l: Ledger, order: Order, bar: Bar, next: Option<int>): Result<Ledger>
    requires m.rules.Valid()
  {
    var v := Decide(m, l, order, bar);
    var counted := Counted(m, l, order, bar);
    match v
    case Rejects(reason) => Ok(AddRejection(counted, order, reason))
    case Raises(reason) => Err(reason)
    case Fills(quantity, price, _) => Ok(Settle(counted, order, quantity, price, FeesOf(m, order, v), next))
  }

  // ----- days

  /** A normalised simulation input: dates in order, orders and events in their processing order. */
  datatype Input = Input(
    market: Market, dates: seq<int>, orders: seq<Order>, events: seq<Event>,
    bars: map<(int, string), Bar>, initialCash: real)
  {
    ghost predicate Valid() {
      && market.Valid()
      && (forall i, j :: 0 <= i < j < |dates| ==> dates[i] < dates[j])
      && (forall o :: o in orders ==> o.quantity > 0)
      && (forall e :: e in events ==> e.Valid())
      && (forall k :: k in bars ==> bars[k].Valid())
    }

    /** `_next_dates`: the trading date after the `k`-th, if there is one. */
    function NextDate(k: nat): Option<int> {
      if k + 1 < |dates| then Some(dates[k + 1]) else None
    }
  }

  function OrdersOn(orders: seq<Order>, date: int): (r: seq<Order>)
    ensures forall o :: o in r <==> o in orders && o.date == date
  {
    if orders == [] then []
    else if orders[0].date == date then [orders[0]] + OrdersOn(orders[1..], date)
    else OrdersOn(orders[1..], date)
  }

  function EventsOn(events: seq<Event>, date: int): (r: seq<Event>)
    ensures forall e :: e in r <==> e in events && e.date == date
  {
    if events == [] then []
    else if events[0].date == date then [events[0]] + EventsOn(events[1..], date)
    else EventsOn(events[1..], date)
  }

  function ProcessOrder(m: Market, l: Ledger, order: Order, bars: map<(int, string), Bar>, next: Option<int>): Result<Ledger>
    requires m.rules.Valid()
  {
    if Key(order) !in bars then Ok(AddRejection(l, order, "missing_market_data"))
    else Execute(m, l, order, bars[Key(order)], next)
  }

  /** A held name without a row on the day stops the simulation. */
  predicate CanMark(l: Ledger, bars: map<(int, string), Bar>, date: int) {
    forall i :: i in l.positions && l.positions[i].total > 0 ==> (date, i) in bars
  }

  /** The ledger when day `k` opens: released and with its corporate actions applied. */
  function Opening(input: Input, k: nat): Result<Ledger>
    requires input.market.rules.Valid() && k < |input.dates|
    decreases k, 0, 0
  {
    var start := if k == 0 then Ok(Initial(input.initialCash)) else DayEnd(input, k - 1);
    if start.Err? then start
    else ApplyActions(Release(start.value, input.dates[k]), EventsOn(input.events, input.dates[k]))
  }

  /** The ledger on day `k` after the first `j` orders of the day. */
  function LedgerAt(input: Input, k: nat, j: nat): Result<Ledger>
    requires input.market.rules.Valid() && k < |input.dates| && j <= |OrdersOn(input.orders, input.dates[k])|
    decreases k, 1, j
  {
    if j == 0 then Opening(input, k)
    else
      var before := LedgerAt(input, k, j - 1);
      if before.Err? then before
      else ProcessOrder(input.market, before.value, OrdersOn(input.orders, input.dates[k])[j - 1], input.bars, input.NextDate(k))
  }

  function DayEnd(input: Input, k: nat): Result<Ledger>
    requires input.market.rules.Valid() && k < |input.dates|
    decreases k, 2, 0
  {
    var l := LedgerAt(input, k, |OrdersOn(input.orders, input.dates[k])|);
    if l.Ok? && !CanMark(l.value, input.bars, input.dates[k]) then Err("held instrument has no market-data row") else l
  }

  /** The whole simulation after its calendar checks. */
  function Simulate(input: Input): Result<Ledger>
    requires input.market.rules.Valid()
  {
    if input.initialCash <= 0.0 then Err("initial_cash must be positive")
    else if !(forall o :: o in input.orders ==> o.date in input.dates) then Err("orders reference dates absent from market data")
    else if !(forall e :: e in input.events ==> e.date in input.dates) then Err("corporate actions reference dates absent from the calendar")
    else if input.dates == [] then Ok(Initial(input.initialCash))
    else DayEnd(input, |input.dates| - 1)
  }
}
