/** Which buys the exchange guard lets through (backtesting/ashare_qlib.py). */
module GuardedBuys {
  import opened Basics
  import opened MarketRules
  import opened ExchangeGuard

  /** A size the board accepts lies within the rounding tolerances: a hundred-millionth of a share above it, but only
      a billionth below, where rounding down falls to the size before. */
  ghost predicate NearBoardSize(code: string, quantity: real, rules: Rules)
    requires rules.Valid()
  {
    exists q :: LegalBuy(IsStarMarket(code), q, rules) && q as real - 0.000000001 <= quantity <= q as real + 0.00000001
  }

  /** A raw quantity passes exactly when it is near a board size. */
  lemma LegalExactlyWhen(code: string, quantity: real, rules: Rules)
    requires rules.Valid()
    ensures IsLegalBuyQuantity(code, quantity, rules) <==> NearBoardSize(code, quantity, rules)
  {
    hide LegalBuy, RoundBuy, IsStarMarket;
    var star, raw := IsStarMarket(code), (quantity + 0.000000001).Floor;
    LegalIsPositive(star, rules);
    if quantity > 0.0 {
      RoundBuyIsLargestLegal(star, raw, rules);
    }
    if q :| LegalBuy(star, q, rules) && q as real - 0.000000001 <= quantity <= q as real + 0.00000001 {
      assert raw == q;
      LegalExactlyFixed(star, q, rules);
    }
  }

  /** The guard lets a buy through exactly when Qlib's own check fails, nothing is asked for, or the adjusted amount
      is near a board size in raw shares under a positive factor. */
  lemma BuyPassesExactlyWhen(locked: LockedBuys, order: QlibOrder, c: Context, rules: Rules)
    requires rules.Valid() && order.side == BUY
    ensures !Refuses(locked, order, c, rules)
       <==> !c.checked || order.amount <= 0.0
            || (c.factor.Some? && c.factor.value > 0.0 && NearBoardSize(order.stockId, order.amount * c.factor.value, rules))
  {
    hide IsLegalBuyQuantity, NearBoardSize;
    if c.factor.Some? {
      assert RawShares(order.amount, c.factor.value) == order.amount * c.factor.value;
      LegalExactlyWhen(order.stockId, RawShares(order.amount, c.factor.value), rules);
    }
  }

  /** The two tolerances differ: with lots of a hundred, a quantity five billionths below a lot is refused and the
      same distance above it passes. */
  lemma ToleranceIsOneSided(rules: Rules)
    requires rules.Valid() && rules.buyLotSize == 100
    ensures !IsLegalBuyQuantity("SH600000", 99.999999995, rules) && IsLegalBuyQuantity("SH600000", 100.000000005, rules)
  {
    assert "SH600000"[3] == '0' && "SH688"[3] == '8' && "SH689"[3] == '8';
    assert !IsStarMarket("SH600000");
    assert (99.999999995 + 0.000000001).Floor == 99;
    assert (100.000000005 + 0.000000001).Floor == 100;
  }
}
