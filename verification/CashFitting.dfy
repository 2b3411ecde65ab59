/** When the cash-fitting search of the A-share engine finds the largest quantity, and what the price it is
    given means for the quantity it returns (backtesting/ashare_engine.py). */
module CashFitting {
  import opened Basics
  import opened MarketRules
  import opened AShareLedger
  import opened AShareInvariants

  // ----- the search at a negative price

  /** The first board size the search tries. */
  function FirstProbe(code: string, low: int, high: int, rules: Rules): int
    requires rules.Valid()
    decreases high - low
  {
    if low > high then 0
    else
      var mid := (low + high) / 2;
      var candidate := NormalizeBuyQuantity(code, mid as real, rules);
      if candidate <= 0 then FirstProbe(code, mid + 1, high, rules) else candidate
  }

  /** At a negative price a larger quantity fits the cash if a smaller one does. */
  lemma FitsCashUpward(q1: int, q2: int, price: real, cash: real, rules: Rules, regime: FeeRegime)
    requires 0 <= q1 <= q2 && price < 0.0 && rules.Valid() && regime.NonNegative()
    ensures FitsCash(q1, price, cash, rules, regime) ==> FitsCash(q2, price, cash, rules, regime)
  {
    ProductSign((q2 - q1) as real, -price);
    assert (q2 - q1) as real * (-price) == q1 as real * price - q2 as real * price;
    FeesMonotone(q2 as real * price, q1 as real * price, BUY, rules, regime);
  }

  /** Above a legal size that fits, every probe fits and the search climbs to the rounded request. */
  lemma {:induction false} SearchClimbs(code: string, low: int, upper: int, best: int, c: int,
                                        price: real, cash: real, rules: Rules, regime: FeeRegime)
    requires rules.Valid() && regime.NonNegative() && price < 0.0
    requires 0 < c <= low && LegalBuy(IsStarMarket(code), c, rules) && FitsCash(c, price, cash, rules, regime)
    requires 0 < upper && LegalBuy(IsStarMarket(code), upper, rules) && best <= upper && (low > upper ==> best == upper)
    ensures FitSearch(code, low, upper, best, price, cash, rules, regime) == upper
    decreases upper - low
  {
    hide FitsCash, LegalBuy, IsStarMarket, NormalizeBuyQuantity;
    if low <= upper {
      var mid := (low + upper) / 2;
      CandidateFacts(code, mid, rules);
      var candidate := NormalizeBuyQuantity(code, mid as real, rules);
      FitsCashUpward(c, candidate, price, cash, rules, regime);
      SearchClimbs(code, mid + 1, upper, if best >= candidate then best else candidate, c, price, cash, rules, regime);
    }
  }

  /** When no legal size up to `high` is above `c`, which does not fit, no probe fits and the search finds nothing. */
  lemma {:induction false} SearchFindsNothing(code: string, low: int, high: int, c: int,
                                              price: real, cash: real, rules: Rules, regime: FeeRegime)
    requires rules.Valid() && regime.NonNegative() && price < 0.0 && 1 <= low
    requires !FitsCash(c, price, cash, rules, regime)
    requires forall x :: x <= high && LegalBuy(IsStarMarket(code), x, rules) ==> x <= c
    ensures FitSearch(code, low, high, 0, price, cash, rules, regime) == 0
    decreases high - low
  {
    hide FitsCash, LegalBuy, IsStarMarket, NormalizeBuyQuantity;
    if low <= high {
      var mid := (low + high) / 2;
      CandidateFacts(code, mid, rules);
      var candidate := NormalizeBuyQuantity(code, mid as real, rules);
      if candidate <= 0 {
        SearchFindsNothing(code, mid + 1, high, c, price, cash, rules, regime);
      } else {
        FitsCashUpward(candidate, c, price, cash, rules, regime);
        SearchFindsNothing(code, low, mid - 1, c, price, cash, rules, regime);
      }
    }
  }

  /** At a negative price the first probe decides the whole search. */
  lemma {:induction false} FirstProbeDecides(code: string, low: int, upper: int, price: real, cash: real, rules: Rules, regime: FeeRegime)
    requires rules.Valid() && regime.NonNegative() && price < 0.0
    requires 1 <= low <= upper && LegalBuy(IsStarMarket(code), upper, rules)
    ensures var c := FirstProbe(code, low, upper, rules);
      && 0 < c <= upper
      && FitSearch(code, low, upper, 0, price, cash, rules, regime) == if FitsCash(c, price, cash, rules, regime) then upper else 0
    decreases upper - low
  {
    hide FitsCash, LegalBuy, IsStarMarket, NormalizeBuyQuantity;
    var mid := (low + upper) / 2;
    CandidateFacts(code, mid, rules);
    var candidate := NormalizeBuyQuantity(code, mid as real, rules);
    if candidate <= 0 {
      FirstProbeDecides(code, mid + 1, upper, price, cash, rules, regime);
    } else if FitsCash(candidate, price, cash, rules, regime) {
      SearchClimbs(code, mid + 1, upper, candidate, candidate, price, cash, rules, regime);
    } else {
      SearchFindsNothing(code, low, mid - 1, candidate, price, cash, rules, regime);
    }
  }

  /** The rounded request is the only candidate for the largest quantity at a negative price. */
  lemma LargestAtNegativePrice(code: string, quantity: int, price: real, cash: real, rules: Rules, regime: FeeRegime)
    requires rules.Valid() && regime.NonNegative() && price < 0.0 && quantity >= 0
    ensures var upper := NormalizeBuyQuantity(code, quantity as real, rules);
      BestAffordable(IsStarMarket(code), quantity, price, cash, rules, regime)
        == if upper > 0 && FitsCash(upper, price, cash, rules, regime) then upper else 0
  {
    hide FitsCash, LegalBuy, IsStarMarket, NormalizeBuyQuantity, BestAffordable;
    var star, upper := IsStarMarket(code), NormalizeBuyQuantity(code, quantity as real, rules);
    CandidateFacts(code, quantity, rules);
    LegalIsPositive(star, rules);
    var best := if upper > 0 && FitsCash(upper, price, cash, rules, regime) then upper else 0;
    forall x | x <= quantity && LegalBuy(star, x, rules) && FitsCash(x, price, cash, rules, regime) ensures x <= best {
      FitsCashUpward(x, upper, price, cash, rules, regime);
    }
    BestAffordableUnique(star, quantity, price, cash, rules, regime, best);
  }

  /** The search finds the largest legal quantity that fits the cash exactly when the price is not negative, or
      the rounded request is nothing or does not fit, or the first size it tries fits. */
  lemma FitIsLargestExactlyWhen(code: string, quantity: int, price: real, cash: real, rules: Rules, regime: FeeRegime)
    requires rules.Valid() && regime.NonNegative()
    ensures var upper := NormalizeBuyQuantity(code, quantity as real, rules);
      FitToCash(code, quantity, price, cash, rules, regime)
        == BestAffordable(IsStarMarket(code), quantity, price, cash, rules, regime)
      <==> price >= 0.0 || upper <= 0 || !FitsCash(upper, price, cash, rules, regime)
           || FitsCash(FirstProbe(code, 1, upper, rules), price, cash, rules, regime)
  {
    hide FitsCash, LegalBuy, IsStarMarket, NormalizeBuyQuantity, BestAffordable, FitSearch, FirstProbe;
    var upper := NormalizeBuyQuantity(code, quantity as real, rules);
    if price >= 0.0 {
      FitToCashFacts(code, quantity, price, cash, rules, regime);
    } else if quantity < 0 {
      NothingToBuy(code, quantity, rules);
      NothingBelowZero(IsStarMarket(code), quantity, price, cash, rules, regime);
    } else {
      LargestAtNegativePrice(code, quantity, price, cash, rules, regime);
      if upper > 0 {
        CandidateFacts(code, quantity, rules);
        FirstProbeDecides(code, 1, upper, price, cash, rules, regime);
        FitsCashUpward(FirstProbe(code, 1, upper, rules), upper, price, cash, rules, regime);
      }
    }
  }

  lemma NothingBelowZero(star: bool, quantity: int, price: real, cash: real, rules: Rules, regime: FeeRegime)
    requires rules.Valid() && quantity < 0
    ensures BestAffordable(star, quantity, price, cash, rules, regime) == 0
  {}

  // ----- the price of the board quantity

  /** A filled buy pays the price of its board quantity, which is at least the price of what it got. */
  lemma BuyPaysForItsBoardQuantity(m: Market, l: Ledger, order: Order, bar: Bar)
    requires m.Valid() && bar.Valid() && order.quantity > 0 && order.side == BUY
    requires Decide(m, l, order, bar).Fills?
    ensures var v := Decide(m, l, order, bar);
      && v.quantity <= BoardQuantity(m, l, order, bar)
      && v.price == FillPrice(m, order, bar, BoardQuantity(m, l, order, bar)) >= FillPrice(m, order, bar, v.quantity)
  {
    hide BoardQuantity, ImpactedFillPrice, FitToCash, LimitAllows, FeeRegimeFor, IsRoot;
    var v, board := Decide(m, l, order, bar), BoardQuantity(m, l, order, bar);
    DecideFacts(m, l, order, bar);
    FitToCashFacts(order.instrument, board, FillPrice(m, order, bar, board), l.cash, m.rules, v.regime);
    BuyPriceMonotone(bar.reference, v.quantity, board, bar.volume, Spread(m, bar), m.rules, bar.limits, m.root);
  }

  // ----- two buys

  lemma MainBoardName()
    ensures !IsStarMarket("SH600000")
  {
    assert "SH600000"[3] == '0' && "SH688"[3] == '8' && "SH689"[3] == '8';
  }

  /** Lots of a hundred, a commission floor of five, no other commission, spread or slippage, and impact that
      reaches `impactBps` when an order takes the whole volume. */
  function LotMarket(root: real -> real, impactBps: real): Market {
    Market(Rules(100, 200, 1, 1.0, 0.0, 5.0, 0.0, 0.0, impactBps), PRODUCTION_REGIMES, root)
  }

  const FIRST_DAY := Ordinal(2024, 1, 2)

  function BuyOrder(quantity: int): Order { Order("buy", FIRST_DAY, "SH600000", BUY, quantity, None) }

  /** A row of the main board that trades. */
  function TradedBar(volume: real, reference: real, limits: PriceLimits): Bar {
    Bar(None, false, volume, reference, SSE_SZSE, false, false, limits, None)
  }

  lemma LotMarketIsValid(root: real -> real, impactBps: real)
    requires IsRoot(root) && impactBps >= 0.0
    ensures LotMarket(root, impactBps).Valid()
  {
    hide PRODUCTION_REGIMES;
    forall r | r in PRODUCTION_REGIMES ensures r.NonNegative() {
      ScheduleRates(r);
    }
  }

  /** Fees at the current rates: the floor, and the statutory rates of the side. */
  lemma LotFees(notional: real, side: Side, impactBps: real, root: real -> real)
    ensures FeeBreakdown(notional, side, LotMarket(root, impactBps).rules, PRODUCTION_REGIMES[2]).Total()
         == 5.0 + notional * (if side == SELL then 5.641 else 0.641) / 10000.0
  {
    hide Ordinal;
    FiveRates(notional, 0.1, 0.2, 0.341, if side == SELL then 5.0 else 0.0, 0.0);
  }

  lemma LotRegime(date: int)
    requires date == FIRST_DAY || date == FIRST_DAY + 1
    ensures FeeRegimeFor(PRODUCTION_REGIMES, date, SSE_SZSE) == Ok(PRODUCTION_REGIMES[2])
    ensures PRODUCTION_REGIMES[2].NonNegative()
  {
    CurrentRegime(date);
  }

  lemma LotRounds(rules: Rules, quantity: int)
    requires rules.Valid() && rules.buyLotSize == 100 && quantity >= 0
    ensures NormalizeBuyQuantity("SH600000", quantity as real, rules) == quantity / 100 * 100
  {
    hide IsStarMarket;
    MainBoardName();
    WholeQuantity("SH600000", quantity, rules);
  }

  lemma LotBoard(root: real -> real, impactBps: real, l: Ledger, quantity: int, bar: Bar)
    requires quantity > 0 && quantity % 100 == 0 && bar.volume >= quantity as real && impactBps >= 0.0
    requires l.Used(Key(BuyOrder(quantity))) == 0
    ensures BoardQuantity(LotMarket(root, impactBps), l, BuyOrder(quantity), bar) == quantity
  {
    hide PRODUCTION_REGIMES, IsStarMarket, NormalizeBuyQuantity, Ordinal;
    assert bar.volume * 1.0 == bar.volume;
    LotRounds(LotMarket(root, impactBps).rules, quantity);
  }

  /** A row with explicit limits, both below zero. */
  const NEGATIVE_ROW := TradedBar(1000.0, 1.0, PriceLimits(Some(-0.006), Some(-1.0)))

  /** A negative upper limit: a thousand shares are legal and fit the cash, the first size tried is five hundred
      and does not, and the buy is rejected for insufficient cash. */
  lemma SearchMissesLargest(root: real -> real)
    requires IsRoot(root)
    ensures var m := LotMarket(root, 0.0);
      && m.Valid() && NEGATIVE_ROW.Valid()
      && Decide(m, Initial(0.5), BuyOrder(1000), NEGATIVE_ROW) == Rejects("insufficient_cash")
      && FillPrice(m, BuyOrder(1000), NEGATIVE_ROW, 1000) == -0.006
      && BestAffordable(false, 1000, -0.006, 0.5, m.rules, PRODUCTION_REGIMES[2]) == 1000
  {
    hide BoardQuantity, FeeRegimeFor, FitToCash, BestAffordable, PRODUCTION_REGIMES, FillPrice, FIRST_DAY;
    LotMarketIsValid(root, 0.0);
    LotBoard(root, 0.0, Initial(0.5), 1000, NEGATIVE_ROW);
    LotRegime(FIRST_DAY);
    NegativePrice(root);
    MissedFit(root);
  }

  lemma NegativePrice(root: real -> real)
    ensures FillPrice(LotMarket(root, 0.0), BuyOrder(1000), NEGATIVE_ROW, 1000) == -0.006
  {
    hide PRODUCTION_REGIMES, FIRST_DAY;
  }

  lemma MissedFit(root: real -> real)
    ensures var rules := LotMarket(root, 0.0).rules;
      && FitToCash("SH600000", 1000, -0.006, 0.5, rules, PRODUCTION_REGIMES[2]) == 0
      && BestAffordable(false, 1000, -0.006, 0.5, rules, PRODUCTION_REGIMES[2]) == 1000
  {
    var rules, regime := LotMarket(root, 0.0).rules, PRODUCTION_REGIMES[2];
    hide FitSearch, BestAffordable, PRODUCTION_REGIMES, FeeBreakdown, IsStarMarket, NormalizeBuyQuantity, FIRST_DAY;
    LotRegime(FIRST_DAY);
    MainBoardName();
    LotRounds(rules, 1000);
    LotRounds(rules, 500);
    LotFees(-3.0, BUY, 0.0, root);
    LotFees(-6.0, BUY, 0.0, root);
    LargestAtNegativePrice("SH600000", 1000, -0.006, 0.5, rules, regime);
    FirstProbeDecides("SH600000", 1, 1000, -0.006, 0.5, rules, regime);
  }

  /** Sixteen hundred shares at ten. */
  const QUARTER_ROW := TradedBar(1600.0, 10.0, PriceLimits(None, None))

  /** An order for a quarter of the volume whose cash pays for one lot: it pays the impact of the quarter, and
      the price of what it got is lower. */
  lemma CutBuyPaysMore(root: real -> real)
    requires IsRoot(root) && root(0.25) == 0.5 && root(0.0625) == 0.25
    ensures var m := LotMarket(root, 100.0);
      && m.Valid() && QUARTER_ROW.Valid()
      && Decide(m, Initial(1020.0), BuyOrder(400), QUARTER_ROW) == Verdict.Fills(100, 10.05, PRODUCTION_REGIMES[2])
      && FillPrice(m, BuyOrder(400), QUARTER_ROW, 100) == 10.025
  {
    hide BoardQuantity, FeeRegimeFor, FitToCash, PRODUCTION_REGIMES, FillPrice, FIRST_DAY;
    LotMarketIsValid(root, 100.0);
    LotBoard(root, 100.0, Initial(1020.0), 400, QUARTER_ROW);
    LotRegime(FIRST_DAY);
    QuarterPrice(root);
    QuarterFit(root);
  }

  lemma QuarterPrice(root: real -> real)
    requires root(0.25) == 0.5 && root(0.0625) == 0.25
    ensures FillPrice(LotMarket(root, 100.0), BuyOrder(400), QUARTER_ROW, 400) == 10.05
    ensures FillPrice(LotMarket(root, 100.0), BuyOrder(400), QUARTER_ROW, 100) == 10.025
  {
    hide PRODUCTION_REGIMES, FIRST_DAY;
    assert 400.0 / 1600.0 == 0.25 && 100.0 / 1600.0 == 0.0625;
  }

  lemma QuarterFit(root: real -> real)
    ensures FitToCash("SH600000", 400, 10.05, 1020.0, LotMarket(root, 100.0).rules, PRODUCTION_REGIMES[2]) == 100
  {
    var rules, regime := LotMarket(root, 100.0).rules, PRODUCTION_REGIMES[2];
    hide FitToCash, BestAffordable, PRODUCTION_REGIMES, FeeBreakdown, IsStarMarket, FIRST_DAY;
    LotRegime(FIRST_DAY);
    MainBoardName();
    LotFees(1005.0, BUY, 100.0, root);
    LotFees(2010.0, BUY, 100.0, root);
    FitToCashFacts("SH600000", 400, 10.05, 1020.0, rules, regime);
    forall x | x <= 400 && LegalBuy(false, x, rules) && FitsCash(x, 10.05, 1020.0, rules, regime) ensures x <= 100 {
      if x > 100 {
        FitsCashDownward(200, x, 10.05, 1020.0, rules, regime);
      }
    }
    BestAffordableUnique(false, 400, 10.05, 1020.0, rules, regime, 100);
  }
}
