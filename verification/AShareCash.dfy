/** How far the cash of the A-share simulator can fall, and a run on which a commission floor takes it below
    zero. */
module AShareCash {
  import opened Basics
  import opened MarketRules
  import opened AShareLedger
  import opened AShareInvariants
  import opened CashFitting

  // ----- how far cash can fall

  function SellCount(fills: seq<Fill>): nat {
    if fills == [] then 0
    else SellCount(fills[..|fills| - 1]) + (if fills[|fills| - 1].side == SELL then 1 else 0)
  }

  /** Every sell cost at most its proceeds and one commission floor. */
  ghost predicate CostsFloored(fills: seq<Fill>, floor: real) {
    forall f :: f in fills && f.side == SELL ==> f.fees <= f.notional + floor
  }

  lemma {:induction false} ShortfallIsFloored(fills: seq<Fill>, floor: real)
    requires CostsFloored(fills, floor) && floor >= 0.0
    ensures Shortfall(fills) <= Floors(SellCount(fills), floor)
  {
    hide Floors, SellLoss;
    OneMore(0, floor);
    if fills != [] {
      var front, last := fills[..|fills| - 1], fills[|fills| - 1];
      assert CostsFloored(front, floor);
      ShortfallIsFloored(front, floor);
      assert last in fills;
      LossIsFloored(last, floor);
      OneMore(SellCount(front), floor);
    }
  }

  /** `n` commission floors. */
  function Floors(n: nat, floor: real): real { n as real * floor }

  lemma OneMore(n: nat, x: real)
    ensures Floors(n + 1, x) == Floors(n, x) + x && Floors(0, x) == 0.0
  {}

  lemma LossIsFloored(f: Fill, floor: real)
    requires floor >= 0.0 && (f.side == SELL ==> f.fees <= f.notional + floor)
    ensures SellLoss(f) <= if f.side == SELL then floor else 0.0
  {}

  /** Every row keeps what a sell receives from turning negative: half the spread, the slippage and the full
      impact stay within the price, and the upper price limit is not negative. */
  ghost predicate SellableRows(m: Market, bars: map<(int, string), Bar>) {
    forall key :: key in bars ==> SellableRow(m, bars[key])
  }

  /** Commission and statutory rates of a sell stay within its notional. */
  predicate FeesWithinPrice(m: Market) {
    forall r :: r in m.regimes ==> m.rules.commissionBps + StatutoryBps(r) <= 10000.0
  }

  lemma ScheduleIsWithinPrice(m: Market)
    requires m.regimes == PRODUCTION_REGIMES && m.rules.commissionBps <= 9984.6
    ensures FeesWithinPrice(m)
  {
    hide PRODUCTION_REGIMES;
    forall r | r in m.regimes ensures m.rules.commissionBps + StatutoryBps(r) <= 10000.0 {
      ScheduleRates(r);
    }
  }

  predicate SellableRow(m: Market, bar: Bar) {
    && Spread(m, bar) / 2.0 + m.rules.slippageBps + m.rules.impactBpsAtFullParticipation * m.root(1.0) <= 10000.0
    && (bar.limits.up.Some? ==> bar.limits.up.value >= 0.0)
  }

  /** What a sell on the row that takes the whole volume receives. */
  function WorstPrice(m: Market, bar: Bar): real {
    WorstSellPrice(bar.reference, Spread(m, bar), m.rules, bar.limits, m.root)
  }

  /** On every row that trades, one share sold at the worst price pays the commission floor and the statutory
      rates of every regime. */
  ghost predicate CoveringRows(m: Market, bars: map<(int, string), Bar>) {
    forall key :: key in bars && Tradable(bars[key]) ==> CoveringPrice(m, WorstPrice(m, bars[key]))
  }

  predicate CoveringPrice(m: Market, price: real) {
    price >= 0.0 && forall r :: r in m.regimes ==> m.rules.minCommission <= price - Charge(price, StatutoryBps(r))
  }

  /** A sell that fills costs at most its proceeds and `floor`. */
  predicate SellWithin(m: Market, l: Ledger, order: Order, bar: Bar, floor: real)
    requires m.rules.Valid()
  {
    var v := Decide(m, l, order, bar);
    order.quantity > 0 && order.side == SELL && v.Fills? ==> FeesOf(m, order, v) <= Product(v.quantity, v.price) + floor
  }

  ghost predicate SellsWithin(m: Market, bars: map<(int, string), Bar>, floor: real)
    requires m.rules.Valid()
  {
    forall key, l, order :: key in bars ==> SellWithin(m, l, order, bars[key], floor)
  }

  lemma SellOnSellableRow(m: Market, l: Ledger, order: Order, bar: Bar)
    requires m.Valid() && bar.Valid() && SellableRow(m, bar) && FeesWithinPrice(m)
    ensures SellWithin(m, l, order, bar, m.rules.minCommission)
  {
    hide BoardQuantity, LimitAllows, ImpactedFillPrice, FitToCash, FeeBreakdown, SellableRow;
    var v := Decide(m, l, order, bar);
    if order.quantity > 0 && order.side == SELL && v.Fills? {
      DecideFacts(m, l, order, bar);
      SellableRowPrice(m, bar, order, v.quantity);
      ProductSign(v.quantity as real, v.price);
      FeesWithinNotionalAndFloor(Product(v.quantity, v.price), m.rules, v.regime);
    }
  }

  lemma SellableRowPrice(m: Market, bar: Bar, order: Order, quantity: int)
    requires m.Valid() && bar.reference >= 0.0 && SellableRow(m, bar) && order.side == SELL && quantity >= 0
    ensures FillPrice(m, order, bar, quantity) >= 0.0
  {
    hide ImpactedFillPrice;
    SellPriceNonNegative(bar.reference, quantity, bar.volume, Spread(m, bar), m.rules, bar.limits, m.root);
  }

  lemma SellOnCoveringRow(m: Market, l: Ledger, order: Order, bar: Bar)
    requires m.Valid() && bar.Valid() && FeesWithinPrice(m) && (Tradable(bar) ==> CoveringPrice(m, WorstPrice(m, bar)))
    ensures SellWithin(m, l, order, bar, 0.0)
  {
    hide BoardQuantity, LimitAllows, ImpactedFillPrice, FitToCash, FeeBreakdown, WorstPrice, CoveringPrice;
    var v := Decide(m, l, order, bar);
    if order.quantity > 0 && order.side == SELL && v.Fills? {
      DecideFacts(m, l, order, bar);
      WorstPriceIsWorst(m, bar, order, v.quantity);
      CoveringSale(m, WorstPrice(m, bar), v.quantity, v.price, v.regime);
    }
  }

  lemma WorstPriceIsWorst(m: Market, bar: Bar, order: Order, quantity: int)
    requires m.Valid() && bar.reference >= 0.0 && order.side == SELL && quantity >= 0
    ensures FillPrice(m, order, bar, quantity) >= WorstPrice(m, bar)
  {
    hide ImpactedFillPrice, WorstSellPrice;
    SellPriceAtLeastWorst(bar.reference, quantity, bar.volume, Spread(m, bar), m.rules, bar.limits, m.root);
  }

  /** A larger sale at a better price than a covering one covers its fees. */
  lemma CoveringSale(m: Market, worst: real, quantity: int, price: real, regime: FeeRegime)
    requires m.rules.Valid() && regime in m.regimes && FeesWithinPrice(m) && CoveringPrice(m, worst)
    requires quantity >= 1 && price >= worst
    ensures FeeBreakdown(Product(quantity, price), SELL, m.rules, regime).Total() <= Product(quantity, price)
  {
    hide FeeBreakdown, StatutoryBps;
    var n, s := Product(quantity, price), StatutoryBps(regime);
    ProductSign((quantity - 1) as real, price);
    assert n == price + (quantity - 1) as real * price;
    ProductSign(n - worst, 10000.0 - s);
    WhatIsLeft(n, worst, s);
    SellCoversFeesExactlyWhen(n, m.rules, regime);
  }

  lemma WhatIsLeft(a: real, b: real, bps: real)
    ensures (a - Charge(a, bps)) - (b - Charge(b, bps)) == (a - b) * (10000.0 - bps) / 10000.0
  {}

  lemma SellableRowsKeepFloors(m: Market, bars: map<(int, string), Bar>)
    requires m.Valid() && FeesWithinPrice(m) && SellableRows(m, bars) && forall key :: key in bars ==> bars[key].Valid()
    ensures SellsWithin(m, bars, m.rules.minCommission)
  {
    hide SellWithin, SellableRow, FeesWithinPrice;
    forall key, l, order | key in bars ensures SellWithin(m, l, order, bars[key], m.rules.minCommission) {
      SellOnSellableRow(m, l, order, bars[key]);
    }
  }

  lemma CoveringRowsKeepSales(m: Market, bars: map<(int, string), Bar>)
    requires m.Valid() && FeesWithinPrice(m) && CoveringRows(m, bars) && forall key :: key in bars ==> bars[key].Valid()
    ensures SellsWithin(m, bars, 0.0)
  {
    hide SellWithin, CoveringPrice, FeesWithinPrice;
    forall key, l, order | key in bars ensures SellWithin(m, l, order, bars[key], 0.0) {
      SellOnCoveringRow(m, l, order, bars[key]);
    }
  }

  lemma ProcessKeepsCosts(m: Market, l: Ledger, order: Order, bars: map<(int, string), Bar>, next: Option<int>, floor: real)
    requires m.rules.Valid() && SellsWithin(m, bars, floor) && order.quantity > 0
    requires CostsFloored(l.fills, floor) && ProcessOrder(m, l, order, bars, next).Ok?
    ensures CostsFloored(ProcessOrder(m, l, order, bars, next).value.fills, floor)
  {
    hide Decide, Counted, FeesOf, Product;
    if Key(order) in bars {
      assert SellWithin(m, l, order, bars[Key(order)], floor);
    }
  }

  lemma {:induction false} ActionsKeepFills(l: Ledger, events: seq<Event>)
    requires ApplyActions(l, events).Ok?
    ensures ApplyActions(l, events).value.fills == l.fills
    decreases |events|
  {
    hide ScaledQuantity;
    if events != [] {
      ActionsKeepFills(ApplyAction(l, events[0]).value, events[1..]);
    }
  }

  lemma {:induction false} ReachableCosts(input: Input, k: nat, j: nat, floor: real)
    requires input.Valid() && SellsWithin(input.market, input.bars, floor)
    requires k < |input.dates| && j <= |OrdersOn(input.orders, input.dates[k])| && LedgerAt(input, k, j).Ok?
    ensures CostsFloored(LedgerAt(input, k, j).value.fills, floor)
    decreases k, j
  {
    hide ProcessOrder, CostsFloored, Release, ApplyActions, OrdersOn, SellsWithin;
    if j > 0 {
      ReachableCosts(input, k, j - 1, floor);
      assert OrdersOn(input.orders, input.dates[k])[j - 1] in OrdersOn(input.orders, input.dates[k]);
      ProcessKeepsCosts(input.market, LedgerAt(input, k, j - 1).value, OrdersOn(input.orders, input.dates[k])[j - 1],
                        input.bars, input.NextDate(k), floor);
    } else {
      var start := if k == 0 then Initial(input.initialCash) else DayEnd(input, k - 1).value;
      if k == 0 {
        NoFillsCostNothing(floor);
      } else {
        ReachableCosts(input, k - 1, |OrdersOn(input.orders, input.dates[k - 1])|, floor);
      }
      ReleaseKeepsFills(start, input.dates[k]);
      ActionsKeepFills(Release(start, input.dates[k]), EventsOn(input.events, input.dates[k]));
    }
  }

  lemma NoFillsCostNothing(floor: real)
    ensures CostsFloored([], floor)
  {}

  lemma ReleaseKeepsFills(l: Ledger, date: int)
    ensures Release(l, date).fills == l.fills
  {}

  /** With a commission that leaves room for the statutory rates, on rows whose sells cannot receive less than
      nothing, cash at every point of every run is below zero by at
      most the fitting tolerance and one commission floor for each sell. */
  lemma CashFallsAtMostByFloors(input: Input, k: nat, j: nat)
    requires input.Valid() && input.initialCash > 0.0
    requires FeesWithinPrice(input.market) && SellableRows(input.market, input.bars)
    requires k < |input.dates| && j <= |OrdersOn(input.orders, input.dates[k])| && LedgerAt(input, k, j).Ok?
    ensures var l := LedgerAt(input, k, j).value;
      l.cash >= -CASH_SLACK - Floors(SellCount(l.fills), input.market.rules.minCommission)
  {
    hide LedgerAt, Opening, TPlusOne, DatedUpTo, Conserved, Tallied, WithinParticipation, Shortfall,
         SellCount, CostsFloored, SellsWithin, SellableRows, FeesWithinPrice;
    ReachableKeeps(input, k, j);
    SellableRowsKeepFloors(input.market, input.bars);
    ReachableCosts(input, k, j, input.market.rules.minCommission);
    ShortfallIsFloored(LedgerAt(input, k, j).value.fills, input.market.rules.minCommission);
  }

  /** When every sell of a run covers its fees, cash never falls below the fitting tolerance. */
  lemma CoveredSellsKeepCash(input: Input, k: nat, j: nat)
    requires input.Valid() && input.initialCash > 0.0
    requires k < |input.dates| && j <= |OrdersOn(input.orders, input.dates[k])| && LedgerAt(input, k, j).Ok?
    requires CostsFloored(LedgerAt(input, k, j).value.fills, 0.0)
    ensures LedgerAt(input, k, j).value.cash >= -CASH_SLACK
  {
    hide LedgerAt, Opening, TPlusOne, DatedUpTo, Conserved, Tallied, WithinParticipation, Shortfall, SellCount, CostsFloored;
    ReachableKeeps(input, k, j);
    ShortfallIsFloored(LedgerAt(input, k, j).value.fills, 0.0);
  }

  /** When one share at the worst price of every row covers the fees of a sell, every sell of every run covers
      its fees, and cash never falls below the fitting tolerance. */
  lemma CoveringRowsKeepCash(input: Input, k: nat, j: nat)
    requires input.Valid() && input.initialCash > 0.0
    requires FeesWithinPrice(input.market) && CoveringRows(input.market, input.bars)
    requires k < |input.dates| && j <= |OrdersOn(input.orders, input.dates[k])| && LedgerAt(input, k, j).Ok?
    ensures CostsFloored(LedgerAt(input, k, j).value.fills, 0.0)
    ensures LedgerAt(input, k, j).value.cash >= -CASH_SLACK
  {
    hide LedgerAt, SellsWithin, CoveringRows, FeesWithinPrice, CostsFloored;
    CoveringRowsKeepSales(input.market, input.bars);
    ReachableCosts(input, k, j, 0.0);
    CoveredSellsKeepCash(input, k, j);
  }

  // ----- a commission floor drives cash below zero

  const FLOOR_MARKET := LotMarket((x: real) => x, 0.0)

  function FloorBar(price: real): Bar { TradedBar(1000.0, price, PriceLimits(None, None)) }

  const SECOND_DAY := FIRST_DAY + 1

  const FLOOR_BUY := BuyOrder(100)

  const FLOOR_SELL := Order("sell", SECOND_DAY, "SH600000", SELL, 100, None)

  /** Buy a lot for all the cash, and sell it the next day for one unit of money. */
  const FLOOR_INPUT := Input(
    FLOOR_MARKET, [FIRST_DAY, SECOND_DAY], [FLOOR_BUY, FLOOR_SELL], [],
    map[(FIRST_DAY, "SH600000") := FloorBar(10.0), (SECOND_DAY, "SH600000") := FloorBar(0.01)], 1005.0641)

  lemma FloorInputIsValid()
    ensures FLOOR_INPUT.Valid() && FeesWithinPrice(FLOOR_MARKET) && SellableRows(FLOOR_MARKET, FLOOR_INPUT.bars)
  {
    hide PRODUCTION_REGIMES, Ordinal, FeesWithinPrice;
    LotMarketIsValid((x: real) => x, 0.0);
    ScheduleIsWithinPrice(FLOOR_MARKET);
  }

  lemma FloorPrice(order: Order, price: real)
    ensures FillPrice(FLOOR_MARKET, order, FloorBar(price), 100) == price
  {
    hide PRODUCTION_REGIMES, FIRST_DAY;
  }

  lemma FloorSellBoard(l: Ledger)
    requires l.Used(Key(FLOOR_SELL)) == 0 && l.At("SH600000").available == 100
    ensures BoardQuantity(FLOOR_MARKET, l, FLOOR_SELL, FloorBar(0.01)) == 100
  {
    hide PRODUCTION_REGIMES, FIRST_DAY;
    assert (1000.0 * 1.0).Floor == 1000;
    assert (100.0 + 0.000000001).Floor == 100;
    MainBoardName();
  }

  lemma FloorBuyFills(l: Ledger)
    requires l.cash == 1005.0641 && l.Used(Key(FLOOR_BUY)) == 0
    ensures Decide(FLOOR_MARKET, l, FLOOR_BUY, FloorBar(10.0)) == Verdict.Fills(100, 10.0, PRODUCTION_REGIMES[2])
  {
    hide BoardQuantity, FillPrice, FeeRegimeFor, FitToCash, PRODUCTION_REGIMES, FIRST_DAY;
    LotBoard((x: real) => x, 0.0, l, 100, FloorBar(10.0));
    FloorPrice(FLOOR_BUY, 10.0);
    LotRegime(FIRST_DAY);
    FloorFit();
  }

  lemma FloorFit()
    ensures FitToCash("SH600000", 100, 10.0, 1005.0641, FLOOR_MARKET.rules, PRODUCTION_REGIMES[2]) == 100
  {
    var rules, regime := FLOOR_MARKET.rules, PRODUCTION_REGIMES[2];
    hide FitToCash, FeeBreakdown, PRODUCTION_REGIMES, FIRST_DAY;
    LotRegime(FIRST_DAY);
    FitToCashFacts("SH600000", 100, 10.0, 1005.0641, rules, regime);
    LotFees(1000.0, BUY, 0.0, (x: real) => x);
    assert FitsCash(100, 10.0, 1005.0641, rules, regime);
    MainBoardName();
  }

  lemma FloorSellFills(l: Ledger)
    requires l.Used(Key(FLOOR_SELL)) == 0 && l.At("SH600000").available == 100
    ensures Decide(FLOOR_MARKET, l, FLOOR_SELL, FloorBar(0.01)) == Verdict.Fills(100, 0.01, PRODUCTION_REGIMES[2])
  {
    hide BoardQuantity, FillPrice, FeeRegimeFor, FitToCash, PRODUCTION_REGIMES, FIRST_DAY;
    FloorSellBoard(l);
    FloorPrice(FLOOR_SELL, 0.01);
    LotRegime(SECOND_DAY);
  }

  lemma FloorDays()
    ensures OrdersOn(FLOOR_INPUT.orders, FIRST_DAY) == [FLOOR_BUY] && OrdersOn(FLOOR_INPUT.orders, SECOND_DAY) == [FLOOR_SELL]
    ensures EventsOn([], FIRST_DAY) == [] && EventsOn([], SECOND_DAY) == []
  {
    hide FIRST_DAY;
    assert FLOOR_INPUT.orders[1..] == [FLOOR_SELL] && [FLOOR_SELL][1..] == [];
    assert OrdersOn([], FIRST_DAY) == [] && OrdersOn([], SECOND_DAY) == [];
    assert OrdersOn([FLOOR_SELL], FIRST_DAY) == [] && OrdersOn([FLOOR_SELL], SECOND_DAY) == [FLOOR_SELL];
  }

  /** The ledger after the first day. */
  lemma FloorFirstDay()
    ensures DayEnd(FLOOR_INPUT, 0).Ok?
    ensures var l := DayEnd(FLOOR_INPUT, 0).value;
      && l.cash == 0.0 && l.At("SH600000") == Position(100, 0) && l.Unlocks(SECOND_DAY) == [("SH600000", 100)]
      && l.Used(Key(FLOOR_SELL)) == 0 && l.positions.Keys == {"SH600000"}
  {
    hide Decide, FeeBreakdown, OrdersOn, EventsOn, FIRST_DAY, PRODUCTION_REGIMES;
    FloorDays();
    var l := Initial(1005.0641);
    assert Release(l, FIRST_DAY) == l;
    FloorBuyFills(l);
    FloorBuyFills(Counted(FLOOR_MARKET, l, FLOOR_BUY, FloorBar(10.0)));
    LotFees(Product(100, 10.0), BUY, 0.0, (x: real) => x);
    assert LedgerAt(FLOOR_INPUT, 0, 0) == Ok(l);
    assert LedgerAt(FLOOR_INPUT, 0, 1) == Execute(FLOOR_MARKET, l, FLOOR_BUY, FloorBar(10.0), Some(SECOND_DAY));
  }

  /** A positive commission floor: the sell costs more than it brings in, and the run ends four units of money
      below zero. */
  lemma FloorDrivesCashNegative()
    ensures FLOOR_INPUT.Valid() && FeesWithinPrice(FLOOR_MARKET) && SellableRows(FLOOR_MARKET, FLOOR_INPUT.bars)
    ensures Simulate(FLOOR_INPUT).Ok? && Simulate(FLOOR_INPUT).value.cash == -4.0005641
  {
    hide Decide, FeeBreakdown, OrdersOn, EventsOn, DayEnd, FIRST_DAY, PRODUCTION_REGIMES;
    FloorInputIsValid();
    FloorDays();
    FloorFirstDay();
    FloorSecondDay(DayEnd(FLOOR_INPUT, 0).value);
  }

  lemma FloorSecondDay(l: Ledger)
    requires DayEnd(FLOOR_INPUT, 0) == Ok(l) && l.cash == 0.0 && l.At("SH600000") == Position(100, 0)
    requires l.Unlocks(SECOND_DAY) == [("SH600000", 100)] && l.Used(Key(FLOOR_SELL)) == 0 && l.positions.Keys == {"SH600000"}
    ensures DayEnd(FLOOR_INPUT, 1).Ok? && DayEnd(FLOOR_INPUT, 1).value.cash == -4.0005641
  {
    hide Decide, FeeBreakdown, OrdersOn, EventsOn, FIRST_DAY, PRODUCTION_REGIMES;
    FloorDays();
    var open := Release(l, SECOND_DAY);
    assert [("SH600000", 100)][1..] == [];
    assert open.positions == l.positions["SH600000" := Position(100, 100)];
    assert open.At("SH600000") == Position(100, 100);
    assert open.Used(Key(FLOOR_SELL)) == 0;
    FloorSellFills(open);
    LotFees(Product(100, 0.01), SELL, 0.0, (x: real) => x);
    assert LedgerAt(FLOOR_INPUT, 1, 0) == Ok(open);
    assert LedgerAt(FLOOR_INPUT, 1, 1) == Execute(FLOOR_MARKET, open, FLOOR_SELL, FloorBar(0.01), None);
  }
}
