/** What trading costs: impacted prices and fees, by their relations to each other (backtesting/ashare_costs.py). */
module TradingCosts {
  import opened Basics
  import opened MarketRules

  // ----- prices

  /** A price inside the limits of its row: never below the lower one, and not above the upper one unless the lower one is. */
  predicate InsideLimits(price: real, limits: PriceLimits) {
    && (limits.down.Some? ==> price >= limits.down.value)
    && (limits.up.Some? ==> price <= limits.up.value || limits.down == Some(price))
  }

  /** Fill prices respect the price limits. */
  lemma PriceInsideLimits(reference: real, side: Side, quantity: int, volume: real, spreadBps: real,
                          rules: Rules, limits: PriceLimits, root: real -> real)
    ensures InsideLimits(ImpactedFillPrice(reference, side, quantity, volume, spreadBps, rules, limits, root), limits)
  {
    hide ShiftedPrice, ImpactBps;
  }

  /** The limits change a price only when it lies outside them, and then to the limit it passes. */
  lemma LimitsOnlyCut(reference: real, side: Side, quantity: int, volume: real, spreadBps: real,
                      rules: Rules, limits: PriceLimits, root: real -> real)
    ensures var free := ImpactedFillPrice(reference, side, quantity, volume, spreadBps, rules, PriceLimits(None, None), root);
      var price := ImpactedFillPrice(reference, side, quantity, volume, spreadBps, rules, limits, root);
      && (InsideLimits(free, limits) ==> price == free)
      && (price != free ==> Some(price) == limits.up || Some(price) == limits.down)
  {
    hide ShiftedPrice, ImpactBps;
  }

  /** Away from the limits, buying and selling the same quantity lie evenly around the reference price and cost the
      spread, twice the slippage, and twice the impact, which grows with the root of the share of the volume. */
  lemma RoundTripCost(reference: real, quantity: int, volume: real, spreadBps: real, rules: Rules, root: real -> real)
    ensures var none := PriceLimits(None, None);
      var bought := ImpactedFillPrice(reference, BUY, quantity, volume, spreadBps, rules, none, root);
      var sold := ImpactedFillPrice(reference, SELL, quantity, volume, spreadBps, rules, none, root);
      var share := Min(1.0, quantity as real / Max(volume, 1.0));
      && bought + sold == 2.0 * reference
      && bought - sold == Bps(reference, spreadBps + 2.0 * rules.slippageBps + 2.0 * (rules.impactBpsAtFullParticipation * root(share)))
  {
    hide ImpactBps;
    var total := spreadBps / 2.0 + rules.slippageBps + ImpactBps(quantity, volume, rules, root);
    Shifted(reference, total);
    ImpactIsRoot(quantity, volume, rules, root);
    assert spreadBps + 2.0 * rules.slippageBps + 2.0 * ImpactBps(quantity, volume, rules, root) == 2.0 * total;
  }

  function Bps(amount: real, bps: real): real { amount * bps / 10000.0 }

  lemma Shifted(reference: real, total: real)
    ensures ShiftedPrice(reference, BUY, total) == reference + Bps(reference, total)
    ensures ShiftedPrice(reference, SELL, total) == reference - Bps(reference, total)
    ensures Bps(reference, 2.0 * total) == 2.0 * Bps(reference, total)
  {}

  lemma ImpactIsRoot(quantity: int, volume: real, rules: Rules, root: real -> real)
    ensures ImpactBps(quantity, volume, rules, root)
         == rules.impactBpsAtFullParticipation * root(Min(1.0, quantity as real / Max(volume, 1.0)))
  {}

  // ----- fees

  /** The rates on top of the commission: stamp duty is paid by the seller alone. */
  function SideBps(side: Side, regime: FeeRegime): real {
    regime.transferFeeBps + regime.regulatoryFeeBps + regime.exchangeHandlingFeeBps + (if side == SELL then regime.sellStampTaxBps else 0.0)
  }

  /** Fees are all rates on the notional, or the commission floor and the other rates, whichever is more. */
  lemma FeesAreRatesOrFloor(notional: real, side: Side, rules: Rules, regime: FeeRegime)
    ensures FeeBreakdown(notional, side, rules, regime).Total()
         == Max(rules.minCommission, Bps(notional, rules.commissionBps)) + Bps(notional, SideBps(side, regime))
  {
    FiveRates(notional, regime.transferFeeBps, regime.regulatoryFeeBps, regime.exchangeHandlingFeeBps,
              if side == SELL then regime.sellStampTaxBps else 0.0, 0.0);
  }

  /** Selling costs the stamp duty more than buying. */
  lemma SellerPaysStampDuty(notional: real, rules: Rules, regime: FeeRegime)
    ensures FeeBreakdown(notional, SELL, rules, regime).Total()
         == FeeBreakdown(notional, BUY, rules, regime).Total() + Bps(notional, regime.sellStampTaxBps)
  {}

  /** The commission rate brings in at least the floor. */
  predicate EarnsCommission(notional: real, rules: Rules) { Bps(notional, rules.commissionBps) >= rules.minCommission }

  /** Splitting a trade in two never saves fees, and costs at most one commission floor more; it costs nothing exactly
      when the floor is nothing or both parts earn their own commission. */
  lemma SplittingNeverSaves(a: real, b: real, side: Side, rules: Rules, regime: FeeRegime)
    requires a >= 0.0 && b >= 0.0 && rules.Valid()
    ensures var extra := FeeBreakdown(a, side, rules, regime).Total() + FeeBreakdown(b, side, rules, regime).Total()
                         - FeeBreakdown(a + b, side, rules, regime).Total();
      && 0.0 <= extra <= rules.minCommission
      && (extra == 0.0 <==> rules.minCommission == 0.0 || (EarnsCommission(a, rules) && EarnsCommission(b, rules)))
  {
    hide FeeBreakdown, Bps, SideBps;
    FeesAreRatesOrFloor(a, side, rules, regime);
    FeesAreRatesOrFloor(b, side, rules, regime);
    FeesAreRatesOrFloor(a + b, side, rules, regime);
    BpsAdds(a, b, rules.commissionBps);
    BpsAdds(a, b, SideBps(side, regime));
    BpsSign(a, rules.commissionBps);
    BpsSign(b, rules.commissionBps);
    FloorSplits(Bps(a, rules.commissionBps), Bps(b, rules.commissionBps), rules.minCommission);
  }

  lemma BpsAdds(a: real, b: real, bps: real)
    ensures Bps(a + b, bps) == Bps(a, bps) + Bps(b, bps)
  {
    assert (a + b) * bps == a * bps + b * bps;
  }

  lemma BpsSign(a: real, bps: real)
    requires a >= 0.0 && bps >= 0.0
    ensures Bps(a, bps) >= 0.0
  {
    ProductSign(a, bps);
  }

  lemma FloorSplits(x: real, y: real, floor: real)
    requires x >= 0.0 && y >= 0.0 && floor >= 0.0
    ensures var extra := Max(floor, x) + Max(floor, y) - Max(floor, x + y);
      0.0 <= extra <= floor && (extra == 0.0 <==> floor == 0.0 || (x >= floor && y >= floor))
  {}

  /** Each part of the fees is charged at its own rate, and stamp duty to the seller. */
  lemma EachRateChargesItsOwn(notional: real, side: Side, rules: Rules, regime: FeeRegime)
    ensures var fees := FeeBreakdown(notional, side, rules, regime);
      && fees.transfer == Bps(notional, regime.transferFeeBps) && fees.regulatory == Bps(notional, regime.regulatoryFeeBps)
      && fees.handling == Bps(notional, regime.exchangeHandlingFeeBps)
      && fees.stamp == Bps(notional, if side == SELL then regime.sellStampTaxBps else 0.0)
  {}

  /** The production schedule by date: stamp duty halved on 28 August 2023, the transfer fee on 29 April 2022, and
      the handling fees of each venue came down. */
  lemma ScheduleHistory(date: int, venue: Venue, regime: FeeRegime)
    requires FeeRegimeFor(PRODUCTION_REGIMES, date, venue) == Ok(regime)
    ensures regime.sellStampTaxBps == if date < Ordinal(2023, 8, 28) then 10.0 else 5.0
    ensures regime.transferFeeBps == if date < Ordinal(2022, 4, 29) then 0.2 else 0.1
    ensures regime.regulatoryFeeBps == 0.2
    ensures regime.exchangeHandlingFeeBps ==
      if venue == SSE_SZSE then if date < Ordinal(2023, 8, 28) then 0.487 else 0.341
      else if date < Ordinal(2022, 12, 1) then 5.0 else if date < Ordinal(2023, 8, 28) then 2.5 else 1.25
  {
    hide Matches, Ordinal;
    RegimeDates();
    var i :| 0 <= i < |PRODUCTION_REGIMES| && PRODUCTION_REGIMES[i] == regime;
    assert i == 0 || i == 1 || i == 2 || i == 3 || i == 4 || i == 5 || i == 6;
  }
}
