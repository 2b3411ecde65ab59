/** Board lots, dated fees and impacted prices of the A-share simulator (backtesting/ashare_rules.py,
    ashare_costs.py and market_rule_set.py), and the cash-fitting search of ashare_engine.py. */
module MarketRules {
  import opened Basics

  datatype Side = BUY | SELL

  datatype Venue = SSE_SZSE | BSE

  datatype Rules = Rules(
    buyLotSize: int,
    starMinBuySize: int,
    starBuyIncrement: int,
    maxParticipationRate: real,
    commissionBps: real,
    minCommission: real,
    defaultSpreadBps: real,
    slippageBps: real,
    impactBpsAtFullParticipation: real)
  {
    /** The checks of `AShareMarketRules.validate` on these settings. */
    predicate Valid() {
      && buyLotSize > 0 && starMinBuySize > 0 && starBuyIncrement > 0
      && 0.0 < maxParticipationRate <= 1.0
      && commissionBps >= 0.0 && minCommission >= 0.0 && defaultSpreadBps >= 0.0
      && slippageBps >= 0.0 && impactBpsAtFullParticipation >= 0.0
    }
  }

  // ----- board lots

  predicate IsDigit(c: char) { '0' <= c <= '9' }

  predicate IsStarMarket(code: string) {
    || "SH688" <= code
    || "SH689" <= code
    || (|code| == 9 && "68" <= code && code[2] in "89" && IsDigit(code[3]) && IsDigit(code[4]) && IsDigit(code[5])
        && code[6..] == ".SH")
  }

  /** Whole shares rounded down to a size the board accepts. */
  function RoundBuy(star: bool, raw: int, rules: Rules): int
    requires rules.Valid()
  {
    if star then
      if raw < rules.starMinBuySize then 0
      else rules.starMinBuySize + (raw - rules.starMinBuySize) / rules.starBuyIncrement * rules.starBuyIncrement
    else raw / rules.buyLotSize * rules.buyLotSize
  }

  function NormalizeBuyQuantity(code: string, quantity: real, rules: Rules): int
    requires rules.Valid()
  {
    if quantity <= 0.0 then 0 else RoundBuy(IsStarMarket(code), (quantity + 0.000000001).Floor, rules)
  }

  function NormalizeSellQuantity(code: string, requested: real, available: int, rules: Rules): int
    requires rules.Valid()
  {
    if requested <= 0.0 || available <= 0 then 0
    else
      var floor := (requested + 0.000000001).Floor;
      var raw := if floor <= available then floor else available;
      var minimum := if IsStarMarket(code) then rules.starMinBuySize else rules.buyLotSize;
      if available < minimum then if raw >= available then available else 0
      else if IsStarMarket(code) then if raw >= minimum then raw else 0
      else raw / minimum * minimum
  }

  /** The buy sizes a board accepts, stated without rounding. */
  predicate LegalBuy(star: bool, q: int, rules: Rules)
    requires rules.Valid()
  {
    if star then q >= rules.starMinBuySize && (q - rules.starMinBuySize) % rules.starBuyIncrement == 0
    else q > 0 && q % rules.buyLotSize == 0
  }

  lemma MultipleBelow(raw: int, step: int)
    requires raw >= 0 && step > 0
    ensures 0 <= raw / step * step <= raw < raw / step * step + step
    ensures (raw / step * step) % step == 0
  {
    assert raw == raw / step * step + raw % step;
    MultipleRemainder(raw / step, step);
  }

  lemma {:induction false} MultipleRemainder(k: int, step: int)
    requires k >= 0 && step > 0
    ensures (k * step) % step == 0
    decreases k
  {
    if k > 0 {
      MultipleRemainder(k - 1, step);
      assert k * step == (k - 1) * step + step;
      AddStep((k - 1) * step, step);
    }
  }

  lemma AddStep(a: int, step: int)
    requires a >= 0 && step > 0
    ensures (a + step) % step == a % step
  {
    var q := a / step;
    assert a + step == (q + 1) * step + a % step;
    DivModUnique(a + step, step, q + 1, a % step);
  }

  lemma DivModUnique(a: int, step: int, q: int, r: int)
    requires step > 0 && 0 <= r < step && a == q * step + r
    ensures a / step == q && a % step == r
  {
    assert a == a / step * step + a % step;
    FactorGap(a / step, q, step);
    FactorGap(q, a / step, step);
  }

  lemma FactorGap(m: int, k: int, step: int)
    requires step > 0
    ensures m > k ==> m * step >= k * step + step
  {
    if m > k {
      assert (m - k) * step >= step by { ScaleStep(m - k, step); }
      assert (m - k) * step == m * step - k * step;
    }
  }

  lemma ScaleStep(n: int, step: int)
    requires n >= 1 && step > 0
    ensures n * step >= step
  {}

  /** Two multiples of `step`, one below the other, differ by at least `step`. */
  lemma MultiplesApart(a: int, b: int, step: int)
    requires step > 0 && a % step == 0 && b % step == 0 && a < b
    ensures a + step <= b
  {
    var m, k := b / step, a / step;
    DivideExactly(a, step);
    DivideExactly(b, step);
    FactorGap(m, k, step);
    FactorGap(k, m, step);
  }

  lemma DivideExactly(a: int, step: int)
    requires step > 0 && a % step == 0
    ensures a == a / step * step
  {}

  /** Rounding down returns the largest legal size not above the request, or zero when there is none. */
  lemma RoundBuyIsLargestLegal(star: bool, raw: int, rules: Rules)
    requires rules.Valid() && raw >= 0
    ensures var r := RoundBuy(star, raw, rules);
      && 0 <= r <= raw
      && (r > 0 ==> LegalBuy(star, r, rules))
      && (forall q :: q <= raw && LegalBuy(star, q, rules) ==> q <= r)
  {
    var r := RoundBuy(star, raw, rules);
    if star {
      if raw >= rules.starMinBuySize {
        MultipleBelow(raw - rules.starMinBuySize, rules.starBuyIncrement);
        forall q | q <= raw && LegalBuy(star, q, rules) ensures q <= r {
          if q > r {
            MultiplesApart(r - rules.starMinBuySize, q - rules.starMinBuySize, rules.starBuyIncrement);
          }
        }
      }
    } else {
      MultipleBelow(raw, rules.buyLotSize);
      forall q | q <= raw && LegalBuy(star, q, rules) ensures q <= r {
        if q > r {
          MultiplesApart(r, q, rules.buyLotSize);
        }
      }
    }
  }

  /** A legal size rounds to itself, and only legal sizes do. */
  lemma LegalExactlyFixed(star: bool, q: int, rules: Rules)
    requires rules.Valid() && q > 0
    ensures LegalBuy(star, q, rules) <==> RoundBuy(star, q, rules) == q
  {
    RoundBuyIsLargestLegal(star, q, rules);
  }

  lemma WholeQuantity(code: string, q: int, rules: Rules)
    requires rules.Valid() && q >= 0
    ensures NormalizeBuyQuantity(code, q as real, rules) == RoundBuy(IsStarMarket(code), q, rules)
  {
    RoundBuyIsLargestLegal(IsStarMarket(code), 0, rules);
  }

  /** A sell never exceeds the request or the sellable shares, and keeps odd lots whole: on an ordinary
      board it moves whole lots, or closes a position smaller than one lot. */
  lemma SellKeepsOddLots(code: string, requested: real, available: int, rules: Rules)
    requires rules.Valid()
    ensures var s := NormalizeSellQuantity(code, requested, available, rules);
      && 0 <= s && (s > 0 ==> s as real <= requested + 0.000000001 && s <= available)
      && (s > 0 && !IsStarMarket(code) ==>
            s % rules.buyLotSize == 0 || (s == available && available < rules.buyLotSize))
      && (s > 0 && IsStarMarket(code) ==> s >= rules.starMinBuySize || s == available)
  {
    var floor := (requested + 0.000000001).Floor;
    var raw := if floor <= available then floor else available;
    if available > 0 && requested > 0.0 {
      MultipleBelow(raw, rules.buyLotSize);
    }
  }

  // ----- dated fees

  datatype FeeRegime = FeeRegime(
    regimeId: string,
    venue: Venue,
    effectiveFrom: int,
    effectiveTo: Option<int>,
    sellStampTaxBps: real,
    transferFeeBps: real,
    regulatoryFeeBps: real,
    exchangeHandlingFeeBps: real)
  {
    predicate Contains(date: int, v: Venue) {
      venue == v && date >= effectiveFrom && (effectiveTo.None? || date <= effectiveTo.value)
    }

    predicate NonNegative() {
      sellStampTaxBps >= 0.0 && transferFeeBps >= 0.0 && regulatoryFeeBps >= 0.0 && exchangeHandlingFeeBps >= 0.0
    }
  }

  function DaysBeforeMonth(month: int): int
    requires 1 <= month <= 12
  {
    [0, 31, 59, 90, 120, 151, 181, 212, 243, 273, 304, 334][month - 1]
  }

  predicate IsLeap(year: int) { year % 4 == 0 && (year % 100 != 0 || year % 400 == 0) }

  /** The proleptic Gregorian day number; day one is 1 January of year 1. */
  function Ordinal(year: int, month: int, day: int): int
    requires 1 <= month <= 12
  {
    var y := year - 1;
    365 * y + y / 4 - y / 100 + y / 400 + DaysBeforeMonth(month) + (if month > 2 && IsLeap(year) then 1 else 0) + day
  }

  /** The fee tables of the production rule set. */
  const PRODUCTION_REGIMES: seq<FeeRegime> := [
    FeeRegime("cn_equity_fee_2015_08_01", SSE_SZSE, Ordinal(2015, 8, 1), Some(Ordinal(2022, 4, 28)), 10.0, 0.2, 0.2, 0.487),
    FeeRegime("cn_equity_fee_2022_04_29", SSE_SZSE, Ordinal(2022, 4, 29), Some(Ordinal(2023, 8, 27)), 10.0, 0.1, 0.2, 0.487),
    FeeRegime("cn_equity_fee_2023_08_28", SSE_SZSE, Ordinal(2023, 8, 28), None, 5.0, 0.1, 0.2, 0.341),
    FeeRegime("bse_equity_fee_2021_11_15", BSE, Ordinal(2021, 11, 15), Some(Ordinal(2022, 4, 28)), 10.0, 0.2, 0.2, 5.0),
    FeeRegime("bse_equity_fee_2022_04_29", BSE, Ordinal(2022, 4, 29), Some(Ordinal(2022, 11, 30)), 10.0, 0.1, 0.2, 5.0),
    FeeRegime("bse_equity_fee_2022_12_01", BSE, Ordinal(2022, 12, 1), Some(Ordinal(2023, 8, 27)), 10.0, 0.1, 0.2, 2.5),
    FeeRegime("bse_equity_fee_2023_08_28", BSE, Ordinal(2023, 8, 28), None, 5.0, 0.1, 0.2, 1.25)]

  function Matches(regimes: seq<FeeRegime>, date: int, venue: Venue): (r: seq<FeeRegime>)
    ensures forall x :: x in r ==> x in regimes && x.Contains(date, venue)
  {
    if regimes == [] then []
    else if regimes[0].Contains(date, venue) then [regimes[0]] + Matches(regimes[1..], date, venue)
    else Matches(regimes[1..], date, venue)
  }

  /** The single regime of a date and venue; anything else raises. */
  function FeeRegimeFor(regimes: seq<FeeRegime>, date: int, venue: Venue): (r: Result<FeeRegime>)
    ensures r.Ok? ==> r.value in regimes && r.value.Contains(date, venue)
  {
    var found := Matches(regimes, date, venue);
    if |found| != 1 then Err("no unique fee regime") else Ok(found[0])
  }

  /** The first day each venue has a schedule for. */
  function ScheduleStart(venue: Venue): int {
    match venue
    case SSE_SZSE => Ordinal(2015, 8, 1)
    case BSE => Ordinal(2021, 11, 15)
  }

  lemma RegimeDates()
    ensures Ordinal(2015, 8, 1) == 735811 && Ordinal(2021, 11, 15) == 738109
    ensures Ordinal(2022, 4, 28) == 738273 && Ordinal(2022, 4, 29) == 738274
    ensures Ordinal(2022, 11, 30) == 738489 && Ordinal(2022, 12, 1) == 738490
    ensures Ordinal(2023, 8, 27) == 738759 && Ordinal(2023, 8, 28) == 738760
  {}

  function Hit(r: FeeRegime, date: int, venue: Venue): nat { if r.Contains(date, venue) then 1 else 0 }

  lemma MatchesFrom(p: seq<FeeRegime>, i: nat, date: int, venue: Venue)
    requires i < |p|
    ensures |Matches(p[i..], date, venue)| == Hit(p[i], date, venue) + |Matches(p[i + 1..], date, venue)|
  {
    assert p[i..][1..] == p[i + 1..];
  }

  lemma SevenMatches(p: seq<FeeRegime>, date: int, venue: Venue)
    requires |p| == 7
    ensures |Matches(p, date, venue)| == Hit(p[0], date, venue) + Hit(p[1], date, venue) + Hit(p[2], date, venue)
      + Hit(p[3], date, venue) + Hit(p[4], date, venue) + Hit(p[5], date, venue) + Hit(p[6], date, venue)
  {
    hide Matches, Hit;
    NoMatches(date, venue);
    assert p[7..] == [] && p[0..] == p;
    MatchesFrom(p, 6, date, venue);
    MatchesFrom(p, 5, date, venue);
    MatchesFrom(p, 4, date, venue);
    MatchesFrom(p, 3, date, venue);
    MatchesFrom(p, 2, date, venue);
    MatchesFrom(p, 1, date, venue);
    MatchesFrom(p, 0, date, venue);
  }

  /** The schedule is total and unambiguous from each venue's first day on, and raises before it. */
  lemma ScheduleIsExact(date: int, venue: Venue)
    ensures FeeRegimeFor(PRODUCTION_REGIMES, date, venue).Ok? <==> date >= ScheduleStart(venue)
  {
    hide Matches, Ordinal;
    RegimeDates();
    SevenMatches(PRODUCTION_REGIMES, date, venue);
  }

  /** From 28 August 2023 on the Shanghai and Shenzhen regime is the third of the schedule. */
  lemma CurrentRegime(date: int)
    requires date >= Ordinal(2023, 8, 28)
    ensures FeeRegimeFor(PRODUCTION_REGIMES, date, SSE_SZSE) == Ok(PRODUCTION_REGIMES[2])
  {
    hide Matches, Ordinal;
    RegimeDates();
    ScheduleIsExact(date, SSE_SZSE);
    var regime := FeeRegimeFor(PRODUCTION_REGIMES, date, SSE_SZSE).value;
    var i :| 0 <= i < |PRODUCTION_REGIMES| && PRODUCTION_REGIMES[i] == regime;
    assert i == 0 || i == 1 || i == 2 || i == 3 || i == 4 || i == 5 || i == 6;
  }

  lemma NoMatches(date: int, venue: Venue)
    ensures Matches([], date, venue) == []
  {}

  lemma ScheduleRates(regime: FeeRegime)
    requires regime in PRODUCTION_REGIMES
    ensures regime.NonNegative()
    ensures regime.sellStampTaxBps + regime.transferFeeBps + regime.regulatoryFeeBps + regime.exchangeHandlingFeeBps <= 15.4
  {
    hide Ordinal;
    var i :| 0 <= i < |PRODUCTION_REGIMES| && PRODUCTION_REGIMES[i] == regime;
    assert i == 0 || i == 1 || i == 2 || i == 3 || i == 4 || i == 5 || i == 6;
  }

  datatype Fees = Fees(commission: real, transfer: real, regulatory: real, handling: real, stamp: real) {
    function Total(): real { commission + transfer + regulatory + handling + stamp }
  }

  /** `bps` basis points of the notional. */
  function Charge(notional: real, bps: real): real { notional * bps / 10000.0 }

  function FeeBreakdown(notional: real, side: Side, rules: Rules, regime: FeeRegime): Fees {
    Fees(
      Max(rules.minCommission, Charge(notional, rules.commissionBps)),
      Charge(notional, regime.transferFeeBps),
      Charge(notional, regime.regulatoryFeeBps),
      Charge(notional, regime.exchangeHandlingFeeBps),
      if side == SELL then Charge(notional, regime.sellStampTaxBps) else 0.0)
  }

  lemma ChargeMonotone(a: real, b: real, bps: real)
    requires a <= b && bps >= 0.0
    ensures Charge(a, bps) <= Charge(b, bps)
  {
    ProductSign(b - a, bps);
    assert (b - a) * bps == b * bps - a * bps;
  }

  /** Fees grow with the notional: the commission floor does not break monotonicity. */
  lemma FeesMonotone(a: real, b: real, side: Side, rules: Rules, regime: FeeRegime)
    requires a <= b && rules.Valid() && regime.NonNegative()
    ensures FeeBreakdown(a, side, rules, regime).Total() <= FeeBreakdown(b, side, rules, regime).Total()
  {
    hide Charge;
    ChargeMonotone(a, b, rules.commissionBps);
    ChargeMonotone(a, b, regime.transferFeeBps);
    ChargeMonotone(a, b, regime.regulatoryFeeBps);
    ChargeMonotone(a, b, regime.exchangeHandlingFeeBps);
    ChargeMonotone(a, b, regime.sellStampTaxBps);
  }

  /** With rates that sum to at most one, a sell costs at most its notional and one commission floor. */
  lemma FeesWithinNotionalAndFloor(notional: real, rules: Rules, regime: FeeRegime)
    requires notional >= 0.0 && rules.Valid()
    requires rules.commissionBps + regime.transferFeeBps + regime.regulatoryFeeBps
             + regime.exchangeHandlingFeeBps + regime.sellStampTaxBps <= 10000.0
    ensures FeeBreakdown(notional, SELL, rules, regime).Total() <= notional + rules.minCommission
  {
    var rates := rules.commissionBps + regime.transferFeeBps + regime.regulatoryFeeBps
                 + regime.exchangeHandlingFeeBps + regime.sellStampTaxBps;
    FiveRates(notional, rules.commissionBps, regime.transferFeeBps, regime.regulatoryFeeBps,
              regime.exchangeHandlingFeeBps, regime.sellStampTaxBps);
    ProductSign(notional, 10000.0 - rates);
    ProductSign(notional, rules.commissionBps);
  }

  /** The rates of a sell that are not commission. */
  function StatutoryBps(regime: FeeRegime): real {
    regime.transferFeeBps + regime.regulatoryFeeBps + regime.exchangeHandlingFeeBps + regime.sellStampTaxBps
  }

  /** A sell pays its own fees exactly when the commission floor fits what the statutory rates leave of it. */
  lemma SellCoversFeesExactlyWhen(notional: real, rules: Rules, regime: FeeRegime)
    requires notional >= 0.0 && rules.commissionBps + StatutoryBps(regime) <= 10000.0
    ensures FeeBreakdown(notional, SELL, rules, regime).Total() <= notional
       <==> rules.minCommission <= notional - Charge(notional, StatutoryBps(regime))
  {
    FiveRates(notional, rules.commissionBps, regime.transferFeeBps, regime.regulatoryFeeBps,
              regime.exchangeHandlingFeeBps, regime.sellStampTaxBps);
    FiveRates(notional, 0.0, regime.transferFeeBps, regime.regulatoryFeeBps,
              regime.exchangeHandlingFeeBps, regime.sellStampTaxBps);
    ProductSign(notional, 10000.0 - (rules.commissionBps + StatutoryBps(regime)));
  }

  lemma FiveRates(n: real, a: real, b: real, c: real, d: real, e: real)
    ensures n * (a + b + c + d + e) == n * a + n * b + n * c + n * d + n * e
  {}

  // ----- impacted prices

  /** What the square root of the source is used for: non-negative and monotone on non-negative numbers. */
  ghost predicate IsRoot(root: real -> real) {
    && (forall x :: x >= 0.0 ==> root(x) >= 0.0)
    && (forall x, y :: 0.0 <= x <= y ==> root(x) <= root(y))
  }

  datatype PriceLimits = PriceLimits(up: Option<real>, down: Option<real>)

  function ImpactBps(quantity: int, volume: real, rules: Rules, root: real -> real): real {
    rules.impactBpsAtFullParticipation * root(Min(1.0, quantity as real / Max(volume, 1.0)))
  }

  function Clamp(price: real, limits: PriceLimits): real {
    var capped := if limits.up.Some? then Min(price, limits.up.value) else price;
    if limits.down.Some? then Max(capped, limits.down.value) else capped
  }

  function ShiftedPrice(reference: real, side: Side, totalBps: real): real {
    var direction := if side == BUY then 1.0 else -1.0;
    reference * (1.0 + direction * totalBps / 10000.0)
  }

  function ImpactedFillPrice(reference: real, side: Side, quantity: int, volume: real, spreadBps: real,
                             rules: Rules, limits: PriceLimits, root: real -> real): real
  {
    var totalBps := spreadBps / 2.0 + rules.slippageBps + ImpactBps(quantity, volume, rules, root);
    Clamp(ShiftedPrice(reference, side, totalBps), limits)
  }

  lemma ImpactMonotone(q1: int, q2: int, volume: real, rules: Rules, root: real -> real)
    requires 0 <= q1 <= q2 && rules.Valid() && IsRoot(root)
    ensures 0.0 <= ImpactBps(q1, volume, rules, root) <= ImpactBps(q2, volume, rules, root)
  {
    var base := Max(volume, 1.0);
    var p1, p2 := Min(1.0, q1 as real / base), Min(1.0, q2 as real / base);
    QuotientMonotone(q1 as real, q2 as real, base);
    ProductSign(rules.impactBpsAtFullParticipation, root(p1));
    ProductSign(rules.impactBpsAtFullParticipation, root(p2) - root(p1));
    assert rules.impactBpsAtFullParticipation * (root(p2) - root(p1))
        == rules.impactBpsAtFullParticipation * root(p2) - rules.impactBpsAtFullParticipation * root(p1);
  }

  lemma QuotientMonotone(a: real, b: real, base: real)
    requires 0.0 <= a <= b && base >= 1.0
    ensures 0.0 <= a / base <= b / base
  {
    QuotientTimes(a, base);
    QuotientTimes(b - a, base);
    assert (b - a) / base == b / base - a / base;
  }

  /** A larger order never gets a better price, a buy pays at least the capped reference, and a sell
      receives at most the floored reference. */
  lemma ImpactHurts(reference: real, side: Side, q1: int, q2: int, volume: real, spreadBps: real,
                    rules: Rules, limits: PriceLimits, root: real -> real)
    requires reference >= 0.0 && 0 <= q1 <= q2 && spreadBps >= 0.0 && rules.Valid() && IsRoot(root)
    ensures var p1 := ImpactedFillPrice(reference, side, q1, volume, spreadBps, rules, limits, root);
      var p2 := ImpactedFillPrice(reference, side, q2, volume, spreadBps, rules, limits, root);
      if side == BUY then Clamp(reference, limits) <= p1 <= p2 else p2 <= p1 <= Clamp(reference, limits)
  {
    hide ImpactBps, IsRoot, Clamp, ShiftedPrice;
    ImpactMonotone(q1, q2, volume, rules, root);
    var base := spreadBps / 2.0 + rules.slippageBps;
    var b1 := base + ImpactBps(q1, volume, rules, root);
    var b2 := base + ImpactBps(q2, volume, rules, root);
    ShiftMonotone(reference, b1, b2);
    var p1, p2 := ShiftedPrice(reference, side, b1), ShiftedPrice(reference, side, b2);
    ClampMonotone(reference, p1, limits);
    ClampMonotone(p1, reference, limits);
    ClampMonotone(p1, p2, limits);
    ClampMonotone(p2, p1, limits);
  }

  /** Whatever the spread, a smaller buy pays no more. */
  lemma BuyPriceMonotone(reference: real, q1: int, q2: int, volume: real, spreadBps: real,
                         rules: Rules, limits: PriceLimits, root: real -> real)
    requires reference >= 0.0 && 0 <= q1 <= q2 && rules.Valid() && IsRoot(root)
    ensures ImpactedFillPrice(reference, BUY, q1, volume, spreadBps, rules, limits, root)
         <= ImpactedFillPrice(reference, BUY, q2, volume, spreadBps, rules, limits, root)
  {
    hide ImpactBps, IsRoot, Clamp;
    ImpactMonotone(q1, q2, volume, rules, root);
    var base := spreadBps / 2.0 + rules.slippageBps;
    var b1, b2 := base + ImpactBps(q1, volume, rules, root), base + ImpactBps(q2, volume, rules, root);
    ProductSign(reference, b2 - b1);
    BuyShift(reference, b1, b2);
    ClampMonotone(ShiftedPrice(reference, BUY, b1), ShiftedPrice(reference, BUY, b2), limits);
  }

  lemma BuyShift(reference: real, b1: real, b2: real)
    ensures ShiftedPrice(reference, BUY, b2) - ShiftedPrice(reference, BUY, b1) == reference * (b2 - b1) / 10000.0
  {}

  /** What a sell that takes the whole volume receives. */
  function WorstSellPrice(reference: real, spreadBps: real, rules: Rules, limits: PriceLimits, root: real -> real): real {
    Clamp(ShiftedPrice(reference, SELL, spreadBps / 2.0 + rules.slippageBps + rules.impactBpsAtFullParticipation * root(1.0)), limits)
  }

  /** No sell receives less than one that takes the whole volume. */
  lemma SellPriceAtLeastWorst(reference: real, quantity: int, volume: real, spreadBps: real,
                              rules: Rules, limits: PriceLimits, root: real -> real)
    requires reference >= 0.0 && quantity >= 0 && rules.Valid() && IsRoot(root)
    ensures ImpactedFillPrice(reference, SELL, quantity, volume, spreadBps, rules, limits, root)
         >= WorstSellPrice(reference, spreadBps, rules, limits, root)
  {
    hide Clamp;
    var part := Min(1.0, quantity as real / Max(volume, 1.0));
    QuotientMonotone(0.0, quantity as real, Max(volume, 1.0));
    assert root(part) <= root(1.0);
    ProductSign(rules.impactBpsAtFullParticipation, root(1.0) - root(part));
    ImpactSplit(rules.impactBpsAtFullParticipation, root(part), root(1.0));
    var base := spreadBps / 2.0 + rules.slippageBps;
    var b1, b2 := base + ImpactBps(quantity, volume, rules, root), base + rules.impactBpsAtFullParticipation * root(1.0);
    ProductSign(reference, b2 - b1);
    SellShift(reference, b1, b2);
    ClampMonotone(ShiftedPrice(reference, SELL, b2), ShiftedPrice(reference, SELL, b1), limits);
  }

  lemma SellShift(reference: real, b1: real, b2: real)
    ensures ShiftedPrice(reference, SELL, b1) - ShiftedPrice(reference, SELL, b2) == reference * (b2 - b1) / 10000.0
  {}

  /** When spread, slippage and full impact together stay within the price, a sell never receives less than
      nothing, unless its upper price limit is negative. */
  lemma SellPriceNonNegative(reference: real, quantity: int, volume: real, spreadBps: real,
                             rules: Rules, limits: PriceLimits, root: real -> real)
    requires reference >= 0.0 && quantity >= 0 && rules.Valid() && IsRoot(root)
    requires spreadBps / 2.0 + rules.slippageBps + rules.impactBpsAtFullParticipation * root(1.0) <= 10000.0
    requires limits.up.Some? ==> limits.up.value >= 0.0
    ensures ImpactedFillPrice(reference, SELL, quantity, volume, spreadBps, rules, limits, root) >= 0.0
  {
    hide ImpactedFillPrice, IsRoot;
    SellPriceAtLeastWorst(reference, quantity, volume, spreadBps, rules, limits, root);
    var totalBps := spreadBps / 2.0 + rules.slippageBps + rules.impactBpsAtFullParticipation * root(1.0);
    ShiftStaysAboveZero(reference, totalBps);
    hide ShiftedPrice;
  }

  lemma ShiftStaysAboveZero(reference: real, totalBps: real)
    requires reference >= 0.0 && totalBps <= 10000.0
    ensures ShiftedPrice(reference, SELL, totalBps) >= 0.0
  {
    var left := 1.0 - totalBps / 10000.0;
    assert 1.0 + -1.0 * totalBps / 10000.0 == left;
    ProductSign(reference, left);
  }

  lemma ImpactSplit(impact: real, a: real, b: real)
    ensures impact * (b - a) == impact * b - impact * a
  {}

  lemma ClampMonotone(a: real, b: real, limits: PriceLimits)
    ensures a <= b ==> Clamp(a, limits) <= Clamp(b, limits)
  {}

  lemma ShiftMonotone(reference: real, b1: real, b2: real)
    requires reference >= 0.0 && 0.0 <= b1 <= b2
    ensures reference <= ShiftedPrice(reference, BUY, b1) <= ShiftedPrice(reference, BUY, b2)
    ensures reference >= ShiftedPrice(reference, SELL, b1) >= ShiftedPrice(reference, SELL, b2)
  {
    var d1, d2 := b1 / 10000.0, b2 / 10000.0;
    ProductSign(reference, d1);
    ProductSign(reference, d2 - d1);
    assert reference * (1.0 + d1) == reference + reference * d1;
    assert reference * (1.0 - d1) == reference - reference * d1;
    assert reference * (1.0 + d2) == reference + reference * d1 + reference * (d2 - d1);
    assert reference * (1.0 - d2) == reference - reference * d1 - reference * (d2 - d1);
  }

  // ----- fitting a buy to cash

  predicate FitsCash(q: int, price: real, cash: real, rules: Rules, regime: FeeRegime) {
    var notional := q as real * price;
    notional + FeeBreakdown(notional, BUY, rules, regime).Total() <= cash + 0.000000001
  }

  lemma FitsCashDownward(q1: int, q2: int, price: real, cash: real, rules: Rules, regime: FeeRegime)
    requires 0 <= q1 <= q2 && price >= 0.0 && rules.Valid() && regime.NonNegative()
    ensures FitsCash(q2, price, cash, rules, regime) ==> FitsCash(q1, price, cash, rules, regime)
  {
    hide FeeBreakdown, Fees.Total;
    ProductSign((q2 - q1) as real, price);
    assert (q2 - q1) as real * price == q2 as real * price - q1 as real * price;
    FeesMonotone(q1 as real * price, q2 as real * price, BUY, rules, regime);
  }

  /** The reference answer: try every size from `q` down. */
  function BestAffordable(star: bool, q: int, price: real, cash: real, rules: Rules, regime: FeeRegime): int
    requires rules.Valid()
    decreases q
  {
    if q <= 0 then 0
    else if LegalBuy(star, q, rules) && FitsCash(q, price, cash, rules, regime) then q
    else BestAffordable(star, q - 1, price, cash, rules, regime)
  }

  lemma {:induction false} BestAffordableIsLargest(star: bool, q: int, price: real, cash: real, rules: Rules, regime: FeeRegime)
    requires rules.Valid() && q >= 0
    ensures var best := BestAffordable(star, q, price, cash, rules, regime);
      && 0 <= best <= q
      && (best > 0 ==> LegalBuy(star, best, rules) && FitsCash(best, price, cash, rules, regime))
      && (forall x :: x <= q && LegalBuy(star, x, rules) && FitsCash(x, price, cash, rules, regime) ==> x <= best)
    decreases q
  {
    hide FitsCash, LegalBuy;
    LegalIsPositive(star, rules);
    if q > 0 {
      BestAffordableIsLargest(star, q - 1, price, cash, rules, regime);
    }
  }

  lemma LegalIsPositive(star: bool, rules: Rules)
    requires rules.Valid()
    ensures forall x :: LegalBuy(star, x, rules) ==> x > 0
  {}

  lemma BestAffordableUnique(star: bool, q: int, price: real, cash: real, rules: Rules, regime: FeeRegime, best: int)
    requires rules.Valid() && q >= 0 && 0 <= best <= q
    requires best > 0 ==> LegalBuy(star, best, rules) && FitsCash(best, price, cash, rules, regime)
    requires forall x :: x <= q && LegalBuy(star, x, rules) && FitsCash(x, price, cash, rules, regime) ==> x <= best
    ensures best == BestAffordable(star, q, price, cash, rules, regime)
  {
    hide FitsCash, LegalBuy;
    BestAffordableIsLargest(star, q, price, cash, rules, regime);
  }

  /** What one probe of the search does to its bounds and its best size so far. */
  function FitSearch(code: string, low: int, high: int, best: int, price: real, cash: real, rules: Rules, regime: FeeRegime): int
    requires rules.Valid()
    decreases high - low
  {
    if low > high then best
    else
      var mid := (low + high) / 2;
      var candidate := NormalizeBuyQuantity(code, mid as real, rules);
      if candidate <= 0 then FitSearch(code, mid + 1, high, best, price, cash, rules, regime)
      else if FitsCash(candidate, price, cash, rules, regime) then
        FitSearch(code, mid + 1, high, if best >= candidate then best else candidate, price, cash, rules, regime)
      else FitSearch(code, low, mid - 1, best, price, cash, rules, regime)
  }

  /** The quantity a buy is cut to. */
  function FitToCash(code: string, quantity: int, price: real, cash: real, rules: Rules, regime: FeeRegime): int
    requires rules.Valid()
  {
    var upper := NormalizeBuyQuantity(code, quantity as real, rules);
    if upper <= 0 then 0 else FitSearch(code, 1, upper, 0, price, cash, rules, regime)
  }

  /** `best` is a size of at most `upper` that may be bought, or zero. */
  predicate Buyable(code: string, best: int, upper: int, price: real, cash: real, rules: Rules, regime: FeeRegime)
    requires rules.Valid()
  {
    0 <= best <= upper && (best > 0 ==> LegalBuy(IsStarMarket(code), best, rules) && FitsCash(best, price, cash, rules, regime))
  }

  lemma CandidateFacts(code: string, mid: int, rules: Rules)
    requires rules.Valid() && mid >= 0
    ensures var candidate := NormalizeBuyQuantity(code, mid as real, rules);
      && 0 <= candidate <= mid && (candidate > 0 ==> LegalBuy(IsStarMarket(code), candidate, rules))
      && (forall x :: x <= mid && LegalBuy(IsStarMarket(code), x, rules) ==> x <= candidate)
  {
    hide LegalBuy, RoundBuy, IsStarMarket, NormalizeBuyQuantity;
    WholeQuantity(code, mid, rules);
    RoundBuyIsLargestLegal(IsStarMarket(code), mid, rules);
  }

  /** Whatever the price, the search ends on a legal size that fits the cash, or on zero. */
  lemma {:induction false} FitSearchIsBuyable(code: string, low: int, high: int, best: int, upper: int,
                                              price: real, cash: real, rules: Rules, regime: FeeRegime)
    requires rules.Valid() && 1 <= low && high <= upper && Buyable(code, best, upper, price, cash, rules, regime)
    ensures Buyable(code, FitSearch(code, low, high, best, price, cash, rules, regime), upper, price, cash, rules, regime)
    decreases high - low
  {
    hide FitsCash, LegalBuy, IsStarMarket, NormalizeBuyQuantity;
    if low <= high {
      var mid := (low + high) / 2;
      CandidateFacts(code, mid, rules);
      var candidate := NormalizeBuyQuantity(code, mid as real, rules);
      if candidate <= 0 {
        FitSearchIsBuyable(code, mid + 1, high, best, upper, price, cash, rules, regime);
      } else if FitsCash(candidate, price, cash, rules, regime) {
        FitSearchIsBuyable(code, mid + 1, high, if best >= candidate then best else candidate, upper, price, cash, rules, regime);
      } else {
        FitSearchIsBuyable(code, low, mid - 1, best, upper, price, cash, rules, regime);
      }
    }
  }

  /** Sizes below `low` are no better than `best`, and sizes above `high` do not fit. */
  predicate Narrowed(code: string, low: int, high: int, best: int, upper: int, price: real, cash: real, rules: Rules, regime: FeeRegime)
    requires rules.Valid()
  {
    forall x :: 0 < x <= upper && LegalBuy(IsStarMarket(code), x, rules) ==>
      (x < low ==> x <= best) && (x > high ==> !FitsCash(x, price, cash, rules, regime))
  }

  /** For a price that is not negative no legal size that fits the cash is larger. This rests on monotone
      rounding and monotone fees. */
  lemma {:induction false} FitSearchIsLargest(code: string, low: int, high: int, best: int, upper: int,
                                              price: real, cash: real, rules: Rules, regime: FeeRegime, x: int)
    requires rules.Valid() && regime.NonNegative() && price >= 0.0 && 1 <= low && high <= upper
    requires Narrowed(code, low, high, best, upper, price, cash, rules, regime)
    requires 0 < x <= upper && LegalBuy(IsStarMarket(code), x, rules) && FitsCash(x, price, cash, rules, regime)
    ensures x <= FitSearch(code, low, high, best, price, cash, rules, regime)
    decreases high - low
  {
    hide FitsCash, LegalBuy, IsStarMarket, NormalizeBuyQuantity;
    if low <= high {
      var mid := (low + high) / 2;
      CandidateFacts(code, mid, rules);
      var candidate := NormalizeBuyQuantity(code, mid as real, rules);
      if candidate <= 0 {
        FitSearchIsLargest(code, mid + 1, high, best, upper, price, cash, rules, regime, x);
      } else if FitsCash(candidate, price, cash, rules, regime) {
        FitSearchIsLargest(code, mid + 1, high, if best >= candidate then best else candidate, upper, price, cash, rules, regime, x);
      } else {
        forall y | mid - 1 < y <= upper && LegalBuy(IsStarMarket(code), y, rules) ensures !FitsCash(y, price, cash, rules, regime) {
          FitsCashDownward(candidate, y, price, cash, rules, regime);
        }
        FitSearchIsLargest(code, low, mid - 1, best, upper, price, cash, rules, regime, x);
      }
    }
  }

  /** Whatever the price, a cut buy is legal, affordable and within the request; for a price that is not
      negative it is the largest such size. */
  lemma FitToCashFacts(code: string, quantity: int, price: real, cash: real, rules: Rules, regime: FeeRegime)
    requires rules.Valid() && regime.NonNegative()
    ensures var best := FitToCash(code, quantity, price, cash, rules, regime);
      && Buyable(code, best, if quantity >= 0 then quantity else 0, price, cash, rules, regime)
      && (price >= 0.0 ==> best == BestAffordable(IsStarMarket(code), quantity, price, cash, rules, regime))
  {
    hide FitsCash, LegalBuy, IsStarMarket, NormalizeBuyQuantity, FitSearch;
    var best := FitToCash(code, quantity, price, cash, rules, regime);
    if quantity < 0 {
      NothingToBuy(code, quantity, rules);
    } else {
      CandidateFacts(code, quantity, rules);
      var upper := NormalizeBuyQuantity(code, quantity as real, rules);
      LegalIsPositive(IsStarMarket(code), rules);
      if upper > 0 {
        FitSearchIsBuyable(code, 1, upper, 0, upper, price, cash, rules, regime);
        if price >= 0.0 {
          forall x | x <= quantity && LegalBuy(IsStarMarket(code), x, rules) && FitsCash(x, price, cash, rules, regime) ensures x <= best {
            FitSearchIsLargest(code, 1, upper, 0, upper, price, cash, rules, regime, x);
          }
        }
      }
      if price >= 0.0 {
        BestAffordableUnique(IsStarMarket(code), quantity, price, cash, rules, regime, best);
      }
    }
  }

  /** `_fit_buy_to_cash`. The binary search finds what the exhaustive search finds, for a price that is not
      negative; for any price what it finds may be bought. */
  method FitBuyToCash(code: string, quantity: int, price: real, cash: real, rules: Rules, regime: FeeRegime)
    returns (best: int)
    requires rules.Valid() && regime.NonNegative()
    ensures best == FitToCash(code, quantity, price, cash, rules, regime)
    ensures Buyable(code, best, if quantity >= 0 then quantity else 0, price, cash, rules, regime)
    ensures price >= 0.0 ==> best == BestAffordable(IsStarMarket(code), quantity, price, cash, rules, regime)
  {
    hide FitsCash, LegalBuy, IsStarMarket, NormalizeBuyQuantity, BestAffordable;
    FitToCashFacts(code, quantity, price, cash, rules, regime);
    var upper := NormalizeBuyQuantity(code, quantity as real, rules);
    if upper <= 0 {
      return 0;
    }
    best := 0;
    var low, high := 1, upper;
    while low <= high
      invariant FitSearch(code, low, high, best, price, cash, rules, regime) == FitToCash(code, quantity, price, cash, rules, regime)
    {
      var mid := (low + high) / 2;
      var candidate := NormalizeBuyQuantity(code, mid as real, rules);
      if candidate <= 0 {
        low := mid + 1;
        continue;
      }
      if FitsCash(candidate, price, cash, rules, regime) {
        best := if best >= candidate then best else candidate;
        low := mid + 1;
      } else {
        high := mid - 1;
      }
    }
  }

  lemma NothingToBuy(code: string, quantity: int, rules: Rules)
    requires rules.Valid() && quantity < 0
    ensures NormalizeBuyQuantity(code, quantity as real, rules) == 0
  {}
}
