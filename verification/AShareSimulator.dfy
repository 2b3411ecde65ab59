/** The simulator as the source runs it: a state object whose methods update its fields
    (backtesting/ashare_state.py, ashare_engine.py, ashare_corporate_actions.py, ashare_simulator.py). */
module AShareSimulator {
  import opened Basics
  import opened MarketRules
  import opened AShareLedger

  /** On a row whose spread and upper price limit are not negative, the price the engine passes to the
      cash-fitting search is not negative. */
  lemma BuyPriceNonNegative(m: Market, order: Order, bar: Bar, quantity: int)
    requires m.Valid() && bar.Valid() && !bar.suspended && quantity >= 0 && order.side == BUY
    requires Spread(m, bar) >= 0.0 && (bar.limits.up.Some? ==> bar.limits.up.value >= 0.0)
    ensures FillPrice(m, order, bar, quantity) >= 0.0
  {
    hide IsRoot, ImpactedFillPrice;
    ImpactHurts(bar.reference, BUY, quantity, quantity, bar.volume, Spread(m, bar), m.rules, bar.limits, m.root);
  }

  lemma NotCounted(m: Market, l: Ledger, order: Order, bar: Bar)
    requires !Tradable(bar)
    ensures Counted(m, l, order, bar) == l
  {}

  lemma PricedIgnoresCounters(m: Market, l: Ledger, order: Order, bar: Bar, quantity: int)
    requires m.rules.Valid()
    ensures DecidePriced(m, Counted(m, l, order, bar), order, bar, quantity) == DecidePriced(m, l, order, bar, quantity)
  {
    hide Counted, FillPrice, FeeRegimeFor, FitToCash, LimitAllows;
  }

  class SimulationState {
    var cash: real
    var positions: map<string, Position>
    var unlocks: map<int, seq<(string, int)>>
    var fills: seq<Fill>
    var rejections: seq<Rejection>
    var actions: seq<ActionRow>
    var rejectionCounts: map<string, nat>
    var volumeUsed: map<(int, string), int>
    var capacityCounted: set<(int, string)>
    var requestedNotional: real
    var filledNotional: real
    var capacityNotional: real

    /** The fields as a ledger value. */
    function Model(): Ledger
      reads this
    {
      Ledger(cash, positions, unlocks, fills, rejections, actions, rejectionCounts, volumeUsed, capacityCounted,
             requestedNotional, filledNotional, capacityNotional)
    }

    constructor (initialCash: real)
      ensures Model() == Initial(initialCash)
    {
      cash, positions, unlocks := initialCash, map[], map[];
      fills, rejections, actions := [], [], [];
      rejectionCounts, volumeUsed, capacityCounted := map[], map[], {};
      requestedNotional, filledNotional, capacityNotional := 0.0, 0.0, 0.0;
    }

    method ReleaseTPlusOne(date: int)
      modifies this
      ensures Model() == Release(old(Model()), date)
    {
      var pending := GetOr(unlocks, date, []);
      unlocks := unlocks - {date};
      for k := 0 to |pending|
        invariant Unlock(positions, pending[k..]) == old(Release(Model(), date).positions)
        invariant Model() == old(Release(Model(), date)).(positions := positions)
      {
        var (instrument, quantity) := pending[k];
        var p := GetOr(positions, instrument, Position(0, 0));
        positions := positions[instrument := p.(available := p.available + quantity)];
      }
    }

    method Reject(order: Order, reason: string)
      modifies this`rejections, this`rejectionCounts
      ensures Model() == AddRejection(old(Model()), order, reason)
    {
      rejectionCounts := rejectionCounts[reason := GetOr(rejectionCounts, reason, 0) + 1];
      rejections := rejections
        + [Rejection(order.orderId, order.date, order.instrument, order.side, order.quantity, reason)];
    }

    /** The demand and capacity counters of an order on a tradable row. */
    method CountDemand(m: Market, order: Order, bar: Bar) returns (remaining: int)
      requires Tradable(bar)
      modifies this`requestedNotional, this`capacityNotional, this`capacityCounted
      ensures Model() == Counted(m, old(Model()), order, bar)
      ensures remaining == RemainingCapacity(m, old(Model()), order, bar)
    {
      hide DailyCapacity;
      var key := (order.date, order.instrument);
      requestedNotional := requestedNotional + order.quantity as real * bar.reference;
      var dailyCapacity := DailyCapacity(m, bar);
      remaining := dailyCapacity - GetOr(volumeUsed, key, 0);
      if remaining < 0 {
        remaining := 0;
      }
      if key !in capacityCounted {
        capacityNotional := capacityNotional + dailyCapacity as real * bar.reference;
        capacityCounted := capacityCounted + {key};
      }
    }

    /** The cash and share side of a fill. */
    method MoveShares(order: Order, quantity: int, notional: real, fees: real, next: Option<int>)
      modifies this`cash, this`positions, this`unlocks
      ensures Model() == Moved(old(Model()), order, quantity, notional, fees, next)
    {
      hide GetOr;
      var position := GetOr(positions, order.instrument, Position(0, 0));
      if order.side == BUY {
        cash := cash - (notional + fees);
        positions := positions[order.instrument := Position(position.total + quantity, position.available)];
        if next.Some? {
          var queued := GetOr(unlocks, next.value, []);
          unlocks := unlocks[next.value := queued + [(order.instrument, quantity)]];
        }
      } else {
        positions := positions[order.instrument := Position(position.total - quantity, position.available - quantity)];
        cash := cash + (notional - fees);
      }
    }

    /** Book a fill. */
    method BookFill(order: Order, quantity: int, price: real, fees: real, next: Option<int>)
      modifies this`cash, this`positions, this`unlocks, this`volumeUsed, this`filledNotional, this`fills
      ensures Model() == Settle(old(Model()), order, quantity, price, fees, next)
    {
      hide Product, GetOr, Moved;
      var key := (order.date, order.instrument);
      var notional := Product(quantity, price);
      MoveShares(order, quantity, notional, fees, next);
      volumeUsed := volumeUsed[key := GetOr(volumeUsed, key, 0) + quantity];
      filledNotional := filledNotional + notional;
      fills := fills + [Fill(order.orderId, order.date, order.instrument, order.side, order.quantity, quantity,
                             price, notional, fees, cash, GetOr(positions, order.instrument, Position(0, 0)))];
    }

    /** The end of `execute_order`: price, order limit, fees and cash for a known board quantity. */
    method TryFill(m: Market, order: Order, bar: Bar, boardQuantity: int, next: Option<int>) returns (raised: Option<string>)
      requires m.Valid()
      modifies this
      ensures var v := DecidePriced(m, old(Model()), order, bar, boardQuantity);
        match v
        case Rejects(reason) => raised.None? && Model() == AddRejection(old(Model()), order, reason)
        case Raises(reason) => raised == Some(reason)
        case Fills(quantity, price, _) =>
          raised.None? && Model() == Settle(old(Model()), order, quantity, price, FeesOf(m, order, v), next)
    {
      hide FitsCash, LegalBuy, IsStarMarket, FillPrice, FeeRegimeFor, LimitAllows, FitToCash, BestAffordable, Buyable,
           Product, FeeBreakdown, Settle, AddRejection;
      var quantity := boardQuantity;
      var price := FillPrice(m, order, bar, quantity);
      if !LimitAllows(order, price) {
        Reject(order, "order_limit_not_marketable");
        return None;
      }
      var regime := FeeRegimeFor(m.regimes, order.date, bar.venue);
      if regime.Err? {
        return Some(regime.reason);
      }
      if order.side == BUY {
        quantity := FitBuyToCash(order.instrument, quantity, price, cash, m.rules, regime.value);
        if quantity <= 0 {
          Reject(order, "insufficient_cash");
          return None;
        }
      }
      var fees := FeeBreakdown(Product(quantity, price), order.side, m.rules, regime.value).Total();
      BookFill(order, quantity, price, fees, next);
      raised := None;
    }

    /** One order against its market row. A raised error leaves the counters as they were reached. */
    method ExecuteOrder(m: Market, order: Order, bar: Bar, next: Option<int>) returns (raised: Option<string>)
      requires m.Valid() && bar.Valid() && order.quantity > 0
      modifies this
      ensures raised.None? <==> Execute(m, old(Model()), order, bar, next).Ok?
      ensures raised.Some? ==> Execute(m, old(Model()), order, bar, next) == Err(raised.value)
      ensures raised.None? ==> Model() == Execute(m, old(Model()), order, bar, next).value
    {
      hide NormalizeSellQuantity, NormalizeBuyQuantity, RemainingCapacity, DecidePriced, FeesOf, Settle, Counted, AddRejection, GetOr;
      raised := None;
      if bar.lifecycle.Some? {
        NotCounted(m, Model(), order, bar);
        Reject(order, bar.lifecycle.value);
        return;
      }
      if bar.suspended || bar.volume <= 0.0 {
        NotCounted(m, Model(), order, bar);
        Reject(order, "suspended_or_zero_volume");
        return;
      }
      var remaining := CountDemand(m, order, bar);
      if order.side == BUY && bar.lockedUp {
        Reject(order, "limit_up_no_buy_liquidity");
        return;
      }
      if order.side == SELL && bar.lockedDown {
        Reject(order, "limit_down_no_sell_liquidity");
        return;
      }
      var wanted := if order.quantity <= remaining then order.quantity else remaining;
      var available := GetOr(positions, order.instrument, Position(0, 0)).available;
      var quantity := if order.side == BUY then NormalizeBuyQuantity(order.instrument, wanted as real, m.rules)
                      else NormalizeSellQuantity(order.instrument, wanted as real, available, m.rules);
      assert quantity == BoardQuantity(m, old(Model()), order, bar);
      if quantity <= 0 {
        Reject(order, if order.side == BUY then "volume_below_buy_lot"
                      else if available <= 0 then "t_plus_one_or_no_position"
                      else "illegal_sell_lot_or_odd_lot_partial");
        return;
      }
      PricedIgnoresCounters(m, old(Model()), order, bar, quantity);
      raised := TryFill(m, order, bar, quantity, next);
    }

    /** The day's corporate actions, in order. */
    method ApplyCorporateActions(events: seq<Event>) returns (raised: Option<string>)
      modifies this
      ensures raised.None? <==> ApplyActions(old(Model()), events).Ok?
      ensures raised.Some? ==> ApplyActions(old(Model()), events) == Err(raised.value)
      ensures raised.None? ==> Model() == ApplyActions(old(Model()), events).value
    {
      hide ScaledQuantity, Product, GetOr;
      raised := None;
      for k := 0 to |events|
        invariant ApplyActions(Model(), events[k..]) == ApplyActions(old(Model()), events)
      {
        var e := events[k];
        ghost var before := Model();
        assert events[k..][0] == e && events[k..][1..] == events[k + 1..];
        var position := GetOr(positions, e.instrument, Position(0, 0));
        match e {
          case CashDividend(_, _, _, cashPerShare) =>
            var delta := Product(position.total, cashPerShare);
            actions := actions + [ActionRow(e, cash, delta, cash + delta, position, position)];
            cash := cash + delta;
          case ShareMultiplier(_, _, instrument, multiplier) =>
            var total := ScaledQuantity(position.total, multiplier);
            var available := ScaledQuantity(position.available, multiplier);
            if total.Err? || available.Err? {
              return Some("fractional raw shares");
            }
            var after := Position(total.value, available.value);
            positions := positions[instrument := after];
            actions := actions + [ActionRow(e, cash, 0.0, cash, position, after)];
        }
        assert Ok(Model()) == ApplyAction(before, e);
      }
    }
  }

  /** `simulate_ashare_orders` after normalisation: day by day, release, corporate actions, orders, mark. */
  method SimulateAShareOrders(input: Input) returns (r: Result<Ledger>)
    requires input.Valid()
    ensures r == Simulate(input)
  {
    hide DayEnd, Initial, Input.Valid;
    if input.initialCash <= 0.0 {
      return Err("initial_cash must be positive");
    }
    if !(forall o :: o in input.orders ==> o.date in input.dates) {
      return Err("orders reference dates absent from market data");
    }
    if !(forall e :: e in input.events ==> e.date in input.dates) {
      return Err("corporate actions reference dates absent from the calendar");
    }
    r := RunDays(input);
  }

  /** The ledger before the `k`-th day. */
  function DayStart(input: Input, k: nat): Result<Ledger>
    requires input.market.rules.Valid() && k <= |input.dates|
  {
    if k == 0 then Ok(Initial(input.initialCash)) else DayEnd(input, k - 1)
  }

  /** The loop over the days. */
  method RunDays(input: Input) returns (r: Result<Ledger>)
    requires input.Valid()
    ensures r == DayStart(input, |input.dates|)
  {
    hide OrdersOn, DayStart;
    var state := new SimulationState(input.initialCash);
    FirstDayStart(input);
    for k := 0 to |input.dates|
      invariant DayStart(input, k) == Ok(state.Model())
      invariant fresh(state)
    {
      var date := input.dates[k];
      var raised := RunDay(input, state, k, date, OrdersOn(input.orders, date));
      if raised.Some? {
        FailureIsFinal(input, k, |input.dates| - 1);
        NextDayStart(input, |input.dates|);
        return Err(raised.value);
      }
      NextDayStart(input, k + 1);
    }
    r := Ok(state.Model());
  }

  lemma FirstDayStart(input: Input)
    requires input.market.rules.Valid()
    ensures DayStart(input, 0) == Ok(Initial(input.initialCash))
  {}

  lemma NextDayStart(input: Input, k: nat)
    requires input.market.rules.Valid() && 0 < k <= |input.dates|
    ensures DayStart(input, k) == DayEnd(input, k - 1)
  {}

  /** One day of the simulation. */
  method RunDay(input: Input, state: SimulationState, k: nat, date: int, orders: seq<Order>) returns (raised: Option<string>)
    requires input.Valid() && k < |input.dates| && date == input.dates[k] && orders == OrdersOn(input.orders, date)
    requires Ok(state.Model()) == DayStart(input, k)
    modifies state
    ensures raised.None? ==> DayEnd(input, k) == Ok(state.Model())
    ensures raised.Some? ==> DayEnd(input, k) == Err(raised.value)
  {
    hide Execute, ApplyActions, Release, OrdersOn, EventsOn, AddRejection, Rules.Valid, IsRoot;
    state.ReleaseTPlusOne(date);
    raised := state.ApplyCorporateActions(EventsOn(input.events, date));
    if raised.Some? {
      FailureLasts(input, k, 0, |orders|);
      return;
    }
    for j := 0 to |orders|
      invariant LedgerAt(input, k, j) == Ok(state.Model())
    {
      var order := orders[j];
      assert order in orders;
      var key := (order.date, order.instrument);
      if key !in input.bars {
        state.Reject(order, "missing_market_data");
        continue;
      }
      raised := state.ExecuteOrder(input.market, order, input.bars[key], input.NextDate(k));
      if raised.Some? {
        FailureLasts(input, k, j + 1, |orders|);
        return;
      }
    }
    raised := None;
    if !(forall i :: i in state.positions && state.positions[i].total > 0 ==> (date, i) in input.bars) {
      raised := Some("held instrument has no market-data row");
    }
  }

  /** Once a day has raised, it stays raised. */
  lemma {:induction false} FailureLasts(input: Input, k: nat, i: nat, j: nat)
    requires input.market.rules.Valid() && k < |input.dates| && i <= j <= |OrdersOn(input.orders, input.dates[k])|
    requires LedgerAt(input, k, i).Err?
    ensures LedgerAt(input, k, j) == LedgerAt(input, k, i)
    decreases j
  {
    hide ProcessOrder, Opening;
    if i < j {
      FailureLasts(input, k, i, j - 1);
    }
  }

  lemma {:induction false} FailureIsFinal(input: Input, k: nat, n: nat)
    requires input.market.rules.Valid() && k <= n < |input.dates| && DayEnd(input, k).Err?
    ensures DayEnd(input, n) == DayEnd(input, k)
    decreases n
  {
    hide ProcessOrder, ApplyActions, Release;
    if k < n {
      FailureIsFinal(input, k, n - 1);
      FailureLasts(input, n, 0, |OrdersOn(input.orders, input.dates[n])|);
    }
  }
}
