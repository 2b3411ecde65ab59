/** What an order gets: the largest legal size that the request and the day's participation leave, at a price
    inside the limits, or a rejection whose reason holds (backtesting/ashare_engine.py). */
module OrderOutcomes {
  import opened Basics
  import opened MarketRules
  import opened AShareLedger
  import opened AShareInvariants
  import opened TradingCosts

  // ----- sizes

  /** The sell sizes a board accepts out of `available` shares. */
  predicate LegalSell(star: bool, q: int, available: int, rules: Rules)
    requires rules.Valid()
  {
    var minimum := if star then rules.starMinBuySize else rules.buyLotSize;
    && 0 < q <= available
    && (if available < minimum then q == available else if star then q >= minimum else q % minimum == 0)
  }

  /** A sell is rounded to the largest legal size within the request, or to zero when there is none. */
  lemma SellIsLargestLegal(code: string, requested: real, available: int, rules: Rules)
    requires rules.Valid()
    ensures var s := NormalizeSellQuantity(code, requested, available, rules);
      && s >= 0
      && (s > 0 ==> s as real <= requested + 0.000000001 && LegalSell(IsStarMarket(code), s, available, rules))
      && (forall x :: LegalSell(IsStarMarket(code), x, available, rules) && x as real <= requested + 0.000000001 ==> x <= s)
  {
    hide IsStarMarket;
    var floor := (requested + 0.000000001).Floor;
    var raw := if floor <= available then floor else available;
    if available > 0 && requested > 0.0 && raw >= 0 {
      MultipleBelow(raw, rules.buyLotSize);
      forall x | LegalSell(IsStarMarket(code), x, available, rules) && x as real <= requested + 0.000000001
        ensures x <= NormalizeSellQuantity(code, requested, available, rules)
      {
        var s := NormalizeSellQuantity(code, requested, available, rules);
        assert x <= raw;
        if available >= rules.buyLotSize && !IsStarMarket(code) && x > s {
          MultiplesApart(s, x, rules.buyLotSize);
        }
      }
    }
  }

  /** `x` may still trade: the request and the row's participation leave room for it. */
  predicate Fits(m: Market, l: Ledger, order: Order, bar: Bar, x: int) {
    x <= order.quantity && (l.Used(Key(order)) + x) as real <= bar.volume * m.rules.maxParticipationRate
  }

  predicate LegalSize(m: Market, l: Ledger, order: Order, x: int)
    requires m.rules.Valid()
  {
    if order.side == BUY then LegalBuy(IsStarMarket(order.instrument), x, m.rules)
    else LegalSell(IsStarMarket(order.instrument), x, l.At(order.instrument).available, m.rules)
  }

  /** The board quantity is the largest legal size that keeps the day's trading in the name within the
      participation rate of its volume, or zero when there is none. */
  lemma BoardQuantityIsLargest(m: Market, l: Ledger, order: Order, bar: Bar)
    requires m.rules.Valid() && order.quantity > 0
    ensures var q := BoardQuantity(m, l, order, bar);
      && q >= 0
      && (q > 0 ==> LegalSize(m, l, order, q) && Fits(m, l, order, bar, q))
      && (forall x :: LegalSize(m, l, order, x) && Fits(m, l, order, bar, x) ==> x <= q)
  {
    hide LegalBuy, LegalSell, IsStarMarket, NormalizeBuyQuantity, NormalizeSellQuantity, RoundBuy;
    var remaining := RemainingCapacity(m, l, order, bar);
    CapacityNonNegative(m, l, order, bar);
    var wanted := if order.quantity <= remaining then order.quantity else remaining;
    if order.side == BUY {
      WholeQuantity(order.instrument, wanted, m.rules);
      RoundBuyIsLargestLegal(IsStarMarket(order.instrument), wanted, m.rules);
      LegalIsPositive(IsStarMarket(order.instrument), m.rules);
    } else {
      SellIsLargestLegal(order.instrument, wanted as real, l.At(order.instrument).available, m.rules);
      SellIsPositive(IsStarMarket(order.instrument), l.At(order.instrument).available, m.rules);
    }
    CapacityIsParticipation(m, l, order, bar);
  }

  lemma SellIsPositive(star: bool, available: int, rules: Rules)
    requires rules.Valid()
    ensures forall x :: LegalSell(star, x, available, rules) ==> x > 0
  {}

  /** What is left of the day is what the participation rate leaves of the volume, in whole shares. */
  lemma CapacityIsParticipation(m: Market, l: Ledger, order: Order, bar: Bar)
    ensures forall x :: x > 0 ==> (Fits(m, l, order, bar, x) <==> x <= order.quantity && x <= RemainingCapacity(m, l, order, bar))
  {}

  /** Over every run, what trades of a name on a date stays within the participation rate of its volume, and
      nothing trades without a row. */
  lemma TradedWithinVolume(input: Input, k: nat, j: nat, date: int, instrument: string)
    requires input.Valid() && input.initialCash > 0.0
    requires k < |input.dates| && j <= |OrdersOn(input.orders, input.dates[k])| && LedgerAt(input, k, j).Ok?
    ensures var fills := LedgerAt(input, k, j).value.fills;
      var traded := Traded(fills, BUY, date, instrument) + Traded(fills, SELL, date, instrument);
      if (date, instrument) in input.bars
      then 0.0 <= traded as real <= input.bars[(date, instrument)].volume * input.market.rules.maxParticipationRate
      else traded == 0
  {
    hide Traded, LedgerAt, Opening, Conserved, Tallied, TPlusOne, CashFloor, DatedUpTo;
    ReachableKeeps(input, k, j);
    assert LedgerAt(input, k, j).value.Used((date, instrument)) >= 0;
  }

  // ----- fills

  /** The row lets the order trade: listed, not suspended, with volume, and not locked at the limit on its side. */
  predicate OpenFor(order: Order, bar: Bar) {
    && bar.lifecycle.None? && !bar.suspended && bar.volume > 0.0
    && (order.side == BUY ==> !bar.lockedUp) && (order.side == SELL ==> !bar.lockedDown)
  }

  /** The order's own limit is kept. */
  predicate KeepsLimit(order: Order, price: real) {
    order.limitPrice.Some? ==> if order.side == BUY then price <= order.limitPrice.value else price >= order.limitPrice.value
  }

  /** An order fills exactly on an open row, when some board size fits, at the price of that size and within its own
      limit, under the one fee regime of its day; a buy is cut to the cash, and must leave something. */
  lemma FillExactlyWhen(m: Market, l: Ledger, order: Order, bar: Bar, quantity: int, price: real, regime: FeeRegime)
    requires m.rules.Valid()
    ensures Decide(m, l, order, bar) == Verdict.Fills(quantity, price, regime)
      <==> var board := BoardQuantity(m, l, order, bar);
           && OpenFor(order, bar) && board > 0 && price == FillPrice(m, order, bar, board) && KeepsLimit(order, price)
           && FeeRegimeFor(m.regimes, order.date, bar.venue) == Ok(regime)
           && (if order.side == BUY then quantity == FitToCash(order.instrument, board, price, l.cash, m.rules, regime) > 0
               else quantity == board)
  {
    hide BoardQuantity, FillPrice, FeeRegimeFor, FitToCash;
  }

  /** What makes each rejection true. */
  ghost predicate Because(m: Market, l: Ledger, order: Order, bar: Bar, reason: string)
    requires m.rules.Valid()
  {
    if bar.lifecycle.Some? then reason == bar.lifecycle.value
    else if reason == "suspended_or_zero_volume" then bar.suspended || bar.volume <= 0.0
    else if reason == "limit_up_no_buy_liquidity" then order.side == BUY && bar.lockedUp
    else if reason == "limit_down_no_sell_liquidity" then order.side == SELL && bar.lockedDown
    else if reason == "volume_below_buy_lot" then order.side == BUY && NothingFits(m, l, order, bar)
    else if reason == "t_plus_one_or_no_position" then order.side == SELL && l.At(order.instrument).available <= 0
    else if reason == "illegal_sell_lot_or_odd_lot_partial" then
      order.side == SELL && l.At(order.instrument).available > 0 && NothingFits(m, l, order, bar)
    else if reason == "order_limit_not_marketable" then !KeepsLimit(order, FillPrice(m, order, bar, BoardQuantity(m, l, order, bar)))
    else reason == "insufficient_cash" && order.side == BUY && NothingAffordable(m, l, order, bar)
  }

  /** No legal size is within the request and the participation. */
  ghost predicate NothingFits(m: Market, l: Ledger, order: Order, bar: Bar)
    requires m.rules.Valid()
  {
    forall x :: LegalSize(m, l, order, x) ==> !Fits(m, l, order, bar, x)
  }

  /** At a price that is not negative no legal size up to the board quantity fits the cash. */
  ghost predicate NothingAffordable(m: Market, l: Ledger, order: Order, bar: Bar)
    requires m.rules.Valid()
  {
    var board := BoardQuantity(m, l, order, bar);
    var price := FillPrice(m, order, bar, board);
    var regime := FeeRegimeFor(m.regimes, order.date, bar.venue);
    regime.Ok? && (price >= 0.0 ==>
      forall x :: x <= board && LegalBuy(IsStarMarket(order.instrument), x, m.rules) ==> BuyCost(x, price, m.rules, regime.value) > l.cash + 0.000000001)
  }

  /** Notional and fees of a buy. */
  function BuyCost(quantity: int, price: real, rules: Rules, regime: FeeRegime): real {
    quantity as real * price + FeeBreakdown(quantity as real * price, BUY, rules, regime).Total()
  }

  lemma FitsCashExactlyWhen(quantity: int, price: real, cash: real, rules: Rules, regime: FeeRegime)
    ensures FitsCash(quantity, price, cash, rules, regime) <==> BuyCost(quantity, price, rules, regime) <= cash + 0.000000001
  {}

  /** Every rejection has a true reason. */
  lemma RejectionIsTrue(m: Market, l: Ledger, order: Order, bar: Bar)
    requires m.Valid() && order.quantity > 0 && Decide(m, l, order, bar).Rejects?
    ensures Because(m, l, order, bar, Decide(m, l, order, bar).reason)
  {
    hide BoardQuantity, FillPrice, FeeRegimeFor, FitToCash, LegalSize, Fits, NothingAffordable, BestAffordable;
    BoardQuantityIsLargest(m, l, order, bar);
    NoSizeIsZero(m, l, order);
    if Decide(m, l, order, bar) == Rejects("insufficient_cash") && bar.lifecycle.None? {
      CashIsShort(m, l, order, bar);
    }
  }

  lemma NoSizeIsZero(m: Market, l: Ledger, order: Order)
    requires m.rules.Valid()
    ensures forall x :: LegalSize(m, l, order, x) ==> x > 0
  {
    hide IsStarMarket;
    LegalIsPositive(IsStarMarket(order.instrument), m.rules);
  }

  lemma CashIsShort(m: Market, l: Ledger, order: Order, bar: Bar)
    requires m.Valid() && order.quantity > 0 && bar.lifecycle.None? && Decide(m, l, order, bar) == Rejects("insufficient_cash")
    ensures order.side == BUY && NothingAffordable(m, l, order, bar)
  {
    hide BoardQuantity, FillPrice, FeeRegimeFor, FitToCash, BestAffordable, LegalBuy, FitsCash, IsStarMarket, BuyCost;
    var board := BoardQuantity(m, l, order, bar);
    var price := FillPrice(m, order, bar, board);
    var regime := FeeRegimeFor(m.regimes, order.date, bar.venue).value;
    FitToCashFacts(order.instrument, board, price, l.cash, m.rules, regime);
    if price >= 0.0 {
      BestAffordableIsLargest(IsStarMarket(order.instrument), board, price, l.cash, m.rules, regime);
      LegalIsPositive(IsStarMarket(order.instrument), m.rules);
      forall x | x <= board && LegalBuy(IsStarMarket(order.instrument), x, m.rules)
        ensures BuyCost(x, price, m.rules, regime) > l.cash + 0.000000001
      {
        FitsCashExactlyWhen(x, price, l.cash, m.rules, regime);
      }
    }
  }

  /** On a row without limits, buying and selling the same quantity cost the row's own spread, or the default one when
      it has none, twice the slippage, and twice the impact of its share of the row's volume. */
  lemma RoundTripOnRow(m: Market, bar: Bar, buy: Order, sell: Order, quantity: int)
    requires bar.limits == PriceLimits(None, None) && buy.side == BUY && sell.side == SELL
    ensures var spread := if bar.spreadBps.Some? then bar.spreadBps.value else m.rules.defaultSpreadBps;
      var share := Min(1.0, quantity as real / Max(bar.volume, 1.0));
      FillPrice(m, buy, bar, quantity) - FillPrice(m, sell, bar, quantity)
        == Bps(bar.reference, spread + 2.0 * m.rules.slippageBps + 2.0 * (m.rules.impactBpsAtFullParticipation * m.root(share)))
  {
    hide ImpactedFillPrice;
    var none := PriceLimits(None, None);
    RoundTripCost(bar.reference, quantity, bar.volume, Spread(m, bar), m.rules, m.root);
    assert FillPrice(m, buy, bar, quantity)
        == ImpactedFillPrice(bar.reference, BUY, quantity, bar.volume, Spread(m, bar), m.rules, none, m.root);
    assert FillPrice(m, sell, bar, quantity)
        == ImpactedFillPrice(bar.reference, SELL, quantity, bar.volume, Spread(m, bar), m.rules, none, m.root);
  }

  /** The codes of the STAR market: "SH688" or "SH689" first, or six digits from 688 or 689 with ".SH" behind. */
  lemma StarMarketExactlyWhen(code: string)
    ensures IsStarMarket(code)
      <==> (|code| >= 5 && code[..4] == "SH68" && code[4] in "89")
           || (|code| == 9 && code[..2] == "68" && code[2] in "89" && (forall i :: 3 <= i < 6 ==> '0' <= code[i] <= '9') && code[6..] == ".SH")
  {
    var prefix := "SH688";
    if |code| >= 5 {
      assert code[..5] == code[..4] + [code[4]];
      assert "SH688" == "SH68" + "8" && "SH689" == "SH68" + "9";
    }
  }
}
