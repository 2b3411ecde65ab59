/** What the rows and counters of a simulation say about its orders, over every run
    (backtesting/ashare_engine.py, ashare_state.py and ashare_simulator.py). */
module OrderRows {
  import opened Basics
  import opened MarketRules
  import opened AShareLedger
  import opened AShareInvariants
  import opened OrderOutcomes
  import opened TradingCosts

  // ----- rows

  /** The fill is of an order of the input, on a row that is open for it, of some of what was asked for, within the
      order's limit and the row's, at a notional of quantity times price and the fees of the regime of its day. */
  ghost predicate FillOf(input: Input, f: Fill, o: Order) {
    && o in input.orders && f.orderId == o.orderId && f.date == o.date && f.instrument == o.instrument && f.side == o.side
    && f.requested == o.quantity && 0 < f.quantity <= f.requested
    && Key(o) in input.bars && OpenFor(o, input.bars[Key(o)]) && KeepsLimit(o, f.price)
    && InsideLimits(f.price, input.bars[Key(o)].limits)
    && f.notional == f.quantity as real * f.price
    && exists regime :: FeesUnder(input, f, input.bars[Key(o)].venue, regime)
  }

  predicate FeesUnder(input: Input, f: Fill, venue: Venue, regime: FeeRegime) {
    && regime in input.market.regimes && regime.Contains(f.date, venue)
    && f.fees == FeeBreakdown(f.notional, f.side, input.market.rules, regime).Total()
  }

  ghost predicate RejectionOf(input: Input, r: Rejection, o: Order) {
    && o in input.orders && r.orderId == o.orderId && r.date == o.date && r.instrument == o.instrument && r.side == o.side
    && r.requested == o.quantity
    && (r.reason == "missing_market_data" <== Key(o) !in input.bars)
  }

  function Notionals(fills: seq<Fill>): (s: seq<real>)
    ensures |s| == |fills| && forall i :: 0 <= i < |s| ==> s[i] == fills[i].notional
  {
    seq(|fills|, i requires 0 <= i < |fills| => fills[i].notional)
  }

  ghost predicate RowsOfOrders(input: Input, l: Ledger) {
    && (forall f :: f in l.fills ==> exists o :: FillOf(input, f, o))
    && (forall r :: r in l.rejections ==> exists o :: RejectionOf(input, r, o))
    && l.filledNotional == Sum(Notionals(l.fills))
  }

  lemma NotionalsNext(fills: seq<Fill>, f: Fill)
    ensures Sum(Notionals(fills + [f])) == Sum(Notionals(fills)) + f.notional
  {
    hide Sum;
    assert Notionals(fills + [f]) == Notionals(fills) + [f.notional];
    SumAppend(Notionals(fills), [f.notional]);
    SumHead([f.notional]);
    SumConstant(0, 0.0);
    assert [f.notional][1..] == Constant(0, 0.0);
  }

  lemma SettledRow(input: Input, l: Ledger, order: Order, next: Option<int>)
    requires input.Valid() && order in input.orders && Key(order) in input.bars
    requires Decide(input.market, l, order, input.bars[Key(order)]).Fills?
    ensures var v := Decide(input.market, l, order, input.bars[Key(order)]);
      var c := Counted(input.market, l, order, input.bars[Key(order)]);
      FillOf(input, Settle(c, order, v.quantity, v.price, FeesOf(input.market, order, v), next).fills[|c.fills|], order)
  {
    hide Decide, Counted, FeeBreakdown, FillPrice, OpenFor, KeepsLimit, InsideLimits, BoardQuantity, Settle, FitToCash, FeeRegimeFor, LegalBuy, FitsCash;
    var m, bar := input.market, input.bars[Key(order)];
    var v := Decide(m, l, order, bar);
    var c := Counted(m, l, order, bar);
    DecideFacts(m, l, order, bar);
    FillExactlyWhen(m, l, order, bar, v.quantity, v.price, v.regime);
    PriceIsInside(m, order, bar, BoardQuantity(m, l, order, bar));
    var row := RowFields(c, order, v.quantity, v.price, FeesOf(m, order, v), next);
    assert FeesUnder(input, row, bar.venue, v.regime);
  }

  lemma RowFields(l: Ledger, order: Order, quantity: int, price: real, fees: real, next: Option<int>) returns (row: Fill)
    ensures Settle(l, order, quantity, price, fees, next).fills == l.fills + [row]
    ensures row.orderId == order.orderId && row.date == order.date && row.instrument == order.instrument && row.side == order.side
    ensures row.requested == order.quantity && row.quantity == quantity && row.price == price && row.fees == fees
    ensures row.notional == Product(quantity, price) == quantity as real * price
  {
    row := Settle(l, order, quantity, price, fees, next).fills[|l.fills|];
  }

  lemma PriceIsInside(m: Market, order: Order, bar: Bar, quantity: int)
    ensures InsideLimits(FillPrice(m, order, bar, quantity), bar.limits)
  {
    PriceInsideLimits(bar.reference, order.side, quantity, bar.volume, Spread(m, bar), m.rules, bar.limits, m.root);
  }

  lemma ProcessKeepsRows(input: Input, l: Ledger, order: Order, next: Option<int>)
    requires input.Valid() && order in input.orders && RowsOfOrders(input, l)
    requires ProcessOrder(input.market, l, order, input.bars, next).Ok?
    ensures RowsOfOrders(input, ProcessOrder(input.market, l, order, input.bars, next).value)
  {
    hide Decide, FeesOf, FillOf, RejectionOf, Sum, Notionals;
    var m := input.market;
    var r := ProcessOrder(m, l, order, input.bars, next).value;
    if Key(order) !in input.bars {
      RejectedRow(input, l, order, "missing_market_data");
    } else {
      var bar := input.bars[Key(order)];
      var counted := Counted(m, l, order, bar);
      match Decide(m, l, order, bar)
      case Rejects(reason) => RejectedRow(input, counted, order, reason);
      case Raises(_) =>
      case Fills(quantity, price, _) =>
        SettledRow(input, l, order, next);
        var row := r.fills[|l.fills|];
        assert r.fills == l.fills + [row];
        NotionalsNext(l.fills, row);
    }
  }

  lemma RejectedRow(input: Input, l: Ledger, order: Order, reason: string)
    requires order in input.orders && RowsOfOrders(input, l) && (Key(order) !in input.bars ==> reason == "missing_market_data")
    ensures RowsOfOrders(input, AddRejection(l, order, reason))
  {
    hide FillOf, Sum, Notionals;
    var row := AddRejection(l, order, reason).rejections[|l.rejections|];
    assert RejectionOf(input, row, order);
  }

  lemma {:induction false} ActionsKeepRows(l: Ledger, events: seq<Event>)
    requires ApplyActions(l, events).Ok?
    ensures var r := ApplyActions(l, events).value;
      r.fills == l.fills && r.rejections == l.rejections && r.filledNotional == l.filledNotional
      && r.requestedNotional == l.requestedNotional && r.capacityCounted == l.capacityCounted && r.capacityNotional == l.capacityNotional
    decreases |events|
  {
    hide ScaledQuantity;
    if events != [] {
      ActionsKeepRows(ApplyAction(l, events[0]).value, events[1..]);
    }
  }

  /** Every fill and every rejection of a run is that of one of its orders, and the filled notional is the sum of
      the fills. */
  lemma {:induction false} RowsComeFromOrders(input: Input, k: nat, j: nat)
    requires input.Valid() && k < |input.dates| && j <= |OrdersOn(input.orders, input.dates[k])| && LedgerAt(input, k, j).Ok?
    ensures RowsOfOrders(input, LedgerAt(input, k, j).value)
    decreases k, j
  {
    hide ProcessOrder, ApplyActions, OrdersOn, RowsOfOrders;
    if j > 0 {
      RowsComeFromOrders(input, k, j - 1);
      assert OrdersOn(input.orders, input.dates[k])[j - 1] in OrdersOn(input.orders, input.dates[k]);
      ProcessKeepsRows(input, LedgerAt(input, k, j - 1).value, OrdersOn(input.orders, input.dates[k])[j - 1], input.NextDate(k));
    } else {
      var start := if k == 0 then Initial(input.initialCash) else DayEnd(input, k - 1).value;
      if k > 0 {
        RowsComeFromOrders(input, k - 1, |OrdersOn(input.orders, input.dates[k - 1])|);
      } else {
        NoRows(input);
      }
      MorningRows(input, start, k);
    }
  }

  lemma NoRows(input: Input)
    ensures RowsOfOrders(input, Initial(input.initialCash))
  {}

  lemma MorningRows(input: Input, start: Ledger, k: nat)
    requires k < |input.dates| && RowsOfOrders(input, start)
    requires ApplyActions(Release(start, input.dates[k]), EventsOn(input.events, input.dates[k])).Ok?
    ensures RowsOfOrders(input, ApplyActions(Release(start, input.dates[k]), EventsOn(input.events, input.dates[k])).value)
  {
    hide ApplyActions, FillOf, RejectionOf;
    ActionsKeepRows(Release(start, input.dates[k]), EventsOn(input.events, input.dates[k]));
  }

  // ----- corporate actions and the mark

  /** A share multiplier turns a quantity into the whole number within a billionth of the product, and fails when there
      is none. */
  lemma ScaledExactlyWhen(quantity: int, multiplier: real, n: int)
    ensures ScaledQuantity(quantity, multiplier) == Ok(n)
       <==> -0.000000001 <= quantity as real * multiplier - n as real <= 0.000000001
  {
    var x := Product(quantity, multiplier);
    assert x == quantity as real * multiplier;
    NearestWhole(x, n);
  }

  lemma NearestWhole(x: real, n: int)
    ensures Abs(x - RoundHalfEven(x) as real) <= 0.5
    ensures -0.000000001 <= x - n as real <= 0.000000001 ==> RoundHalfEven(x) == n
  {}

  /** A day that ends has a row for every name it ends with. */
  lemma HeldNamesHaveRows(input: Input, k: nat, instrument: string)
    requires input.market.rules.Valid() && k < |input.dates| && DayEnd(input, k).Ok?
    requires DayEnd(input, k).value.At(instrument).total > 0
    ensures (input.dates[k], instrument) in input.bars
  {
    hide LedgerAt;
  }

  // ----- demand and capacity

  /** What the orders up to the `j`-th of day `k` asked for on rows that trade, at the reference price. */
  ghost function Demand(input: Input, k: nat, j: nat): real
    requires k < |input.dates| && j <= |OrdersOn(input.orders, input.dates[k])|
    decreases k, j
  {
    if j > 0 then Demand(input, k, j - 1) + Asked(input, OrdersOn(input.orders, input.dates[k])[j - 1])
    else if k > 0 then Demand(input, k - 1, |OrdersOn(input.orders, input.dates[k - 1])|)
    else 0.0
  }

  /** The order's row trades. */
  predicate OnTradingRow(input: Input, o: Order) {
    Key(o) in input.bars && input.bars[Key(o)].lifecycle.None? && !input.bars[Key(o)].suspended && input.bars[Key(o)].volume > 0.0
  }

  function Asked(input: Input, o: Order): real {
    if OnTradingRow(input, o) then o.quantity as real * input.bars[Key(o)].reference else 0.0
  }

  /** The trading rows that the orders named, each once, in the order of their first mention. */
  ghost function NamedRows(input: Input, k: nat, j: nat): seq<(int, string)>
    requires k < |input.dates| && j <= |OrdersOn(input.orders, input.dates[k])|
    decreases k, j
  {
    if j > 0 then
      var before, o := NamedRows(input, k, j - 1), OrdersOn(input.orders, input.dates[k])[j - 1];
      if OnTradingRow(input, o) && Key(o) !in before then before + [Key(o)] else before
    else if k > 0 then NamedRows(input, k - 1, |OrdersOn(input.orders, input.dates[k - 1])|)
    else []
  }

  /** What the participation rate leaves of a row's volume in whole shares, at its reference price. */
  function CapacityAt(input: Input, key: (int, string)): real {
    if key in input.bars
    then Product(WholeShares(input.bars[key].volume, input.market.rules.maxParticipationRate), input.bars[key].reference)
    else 0.0
  }

  function WholeShares(volume: real, rate: real): int { (volume * rate).Floor }

  function Capacities(input: Input, keys: seq<(int, string)>): real {
    if keys == [] then 0.0 else Capacities(input, keys[..|keys| - 1]) + CapacityAt(input, keys[|keys| - 1])
  }

  ghost predicate CountsOrders(input: Input, l: Ledger, demand: real, rows: seq<(int, string)>) {
    && l.requestedNotional == demand
    && (forall key :: key in l.capacityCounted <==> key in rows)
    && l.capacityNotional == Capacities(input, rows)
  }

  lemma ProcessCounts(input: Input, l: Ledger, order: Order, next: Option<int>, demand: real, rows: seq<(int, string)>)
    requires input.market.rules.Valid() && CountsOrders(input, l, demand, rows) && ProcessOrder(input.market, l, order, input.bars, next).Ok?
    ensures var named := if OnTradingRow(input, order) && Key(order) !in rows then rows + [Key(order)] else rows;
      CountsOrders(input, ProcessOrder(input.market, l, order, input.bars, next).value, demand + Asked(input, order), named)
  {
    hide Decide, FeesOf, Capacities, Product;
    var r := ProcessOrder(input.market, l, order, input.bars, next).value;
    var named := if OnTradingRow(input, order) && Key(order) !in rows then rows + [Key(order)] else rows;
    if Key(order) in input.bars {
      RowCounted(input, l, order, demand, rows);
      SameCounters(input, Counted(input.market, l, order, input.bars[Key(order)]), r, demand + Asked(input, order), named);
    } else {
      SameCounters(input, l, r, demand, rows);
    }
  }

  lemma RowCounted(input: Input, l: Ledger, order: Order, demand: real, rows: seq<(int, string)>)
    requires CountsOrders(input, l, demand, rows) && Key(order) in input.bars
    ensures var named := if OnTradingRow(input, order) && Key(order) !in rows then rows + [Key(order)] else rows;
      CountsOrders(input, Counted(input.market, l, order, input.bars[Key(order)]), demand + Asked(input, order), named)
  {
    hide Capacities;
    CapacitiesNext(input, rows, Key(order));
    CapacityOfRow(input, Key(order));
    var bar := input.bars[Key(order)];
    var c := Counted(input.market, l, order, bar);
    assert OnTradingRow(input, order) <==> Tradable(bar);
    assert c.requestedNotional == demand + Asked(input, order);
    var named := if OnTradingRow(input, order) && Key(order) !in rows then rows + [Key(order)] else rows;
    assert forall key :: key in c.capacityCounted <==> key in named;
    hide CapacityAt, DailyCapacity;
    if named != rows {
      assert c.capacityNotional == l.capacityNotional + DailyCapacity(input.market, bar) as real * bar.reference;
    } else if Tradable(bar) {
      assert Key(order) in l.capacityCounted;
    }
  }

  lemma CapacityOfRow(input: Input, key: (int, string))
    requires key in input.bars
    ensures CapacityAt(input, key) == DailyCapacity(input.market, input.bars[key]) as real * input.bars[key].reference
  {
    assert WholeShares(input.bars[key].volume, input.market.rules.maxParticipationRate) == DailyCapacity(input.market, input.bars[key]);
    hide WholeShares, DailyCapacity;
  }

  lemma CapacitiesNext(input: Input, rows: seq<(int, string)>, key: (int, string))
    ensures Capacities(input, rows + [key]) == Capacities(input, rows) + CapacityAt(input, key)
  {
    assert (rows + [key])[..|rows|] == rows;
  }

  /** Demand and capacity of a run: every order on a trading row asks for its quantity, and every trading row that an
      order names counts once. */
  lemma {:induction false} CountersAddUp(input: Input, k: nat, j: nat)
    requires input.Valid() && k < |input.dates| && j <= |OrdersOn(input.orders, input.dates[k])| && LedgerAt(input, k, j).Ok?
    ensures CountsOrders(input, LedgerAt(input, k, j).value, Demand(input, k, j), NamedRows(input, k, j))
    ensures Distinct(NamedRows(input, k, j))
    decreases k, j
  {
    hide ProcessOrder, ApplyActions, OrdersOn, CountsOrders, Asked, OnTradingRow;
    if j > 0 {
      CountersAddUp(input, k, j - 1);
      ProcessCounts(input, LedgerAt(input, k, j - 1).value, OrdersOn(input.orders, input.dates[k])[j - 1], input.NextDate(k),
                    Demand(input, k, j - 1), NamedRows(input, k, j - 1));
    } else {
      var start := if k == 0 then Initial(input.initialCash) else DayEnd(input, k - 1).value;
      if k > 0 {
        CountersAddUp(input, k - 1, |OrdersOn(input.orders, input.dates[k - 1])|);
      } else {
        NothingCounted(input);
      }
      ActionsKeepRows(Release(start, input.dates[k]), EventsOn(input.events, input.dates[k]));
      SameCounters(input, start, LedgerAt(input, k, 0).value, Demand(input, k, 0), NamedRows(input, k, 0));
    }
  }

  lemma NothingCounted(input: Input)
    ensures CountsOrders(input, Initial(input.initialCash), 0.0, [])
  {}

  lemma SameCounters(input: Input, l: Ledger, r: Ledger, demand: real, rows: seq<(int, string)>)
    requires CountsOrders(input, l, demand, rows) && r.requestedNotional == l.requestedNotional
    requires r.capacityCounted == l.capacityCounted && r.capacityNotional == l.capacityNotional
    ensures CountsOrders(input, r, demand, rows)
  {}

  // ----- rows show the ledger they leave

  /** A fill row shows the cash and the position after it, and the cash moved by notional and fees. */
  lemma FillRowShowsLedger(m: Market, l: Ledger, order: Order, bar: Bar, next: Option<int>)
    requires m.rules.Valid() && Execute(m, l, order, bar, next).Ok? && Decide(m, l, order, bar).Fills?
    ensures var r := Execute(m, l, order, bar, next).value;
      && |r.fills| == |l.fills| + 1
      && var row := r.fills[|l.fills|];
         && row.cashAfter == r.cash && row.after == r.At(order.instrument)
         && r.cash == l.cash + (if order.side == BUY then -row.notional else row.notional) - row.fees
         && row.after.total == l.At(order.instrument).total + (if order.side == BUY then row.quantity else -row.quantity)
  {
    hide Decide, FeesOf, Product;
  }

  /** A corporate-action row shows cash and position before and after; a dividend pays for every share held, locked ones
      included, and a multiplier moves no cash. */
  lemma ActionRowShowsLedger(l: Ledger, e: Event)
    requires ApplyAction(l, e).Ok?
    ensures var r := ApplyAction(l, e).value;
      && |r.actions| == |l.actions| + 1
      && var row := r.actions[|l.actions|];
         && row.event == e && row.cashBefore == l.cash && row.cashAfter == r.cash && row.cashDelta == r.cash - l.cash
         && row.before == l.At(e.instrument) && row.after == r.At(e.instrument)
         && r.cash == l.cash + (if e.CashDividend? then l.At(e.instrument).total as real * e.cashPerShare else 0.0)
  {
    hide ScaledQuantity;
  }
}
