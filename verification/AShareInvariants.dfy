/** What every run of the A-share simulator keeps: T+1 availability, conservation of cash and shares,
    one outcome per order, participation limits and the cash floor. */
module AShareInvariants {
  import opened Basics
  import opened MarketRules
  import opened AShareLedger

  // ----- what the rows add up to

  /** Shares of `instrument` traded on `date` on one side, from the fill rows. */
  function Traded(fills: seq<Fill>, side: Side, date: int, instrument: string): int {
    if fills == [] then 0
    else
      var f := fills[|fills| - 1];
      Traded(fills[..|fills| - 1], side, date, instrument)
        + (if f.side == side && f.date == date && f.instrument == instrument then f.quantity else 0)
  }

  function Pending(list: seq<(string, int)>, instrument: string): int {
    if list == [] then 0
    else
      var (name, quantity) := list[|list| - 1];
      Pending(list[..|list| - 1], instrument) + (if name == instrument then quantity else 0)
  }

  lemma TradedNext(fills: seq<Fill>, f: Fill, side: Side, date: int, instrument: string)
    ensures Traded(fills + [f], side, date, instrument)
         == Traded(fills, side, date, instrument)
            + (if f.side == side && f.date == date && f.instrument == instrument then f.quantity else 0)
  {
    assert (fills + [f])[..|fills|] == fills;
  }

  lemma PendingNext(list: seq<(string, int)>, name: string, quantity: int, instrument: string)
    ensures Pending(list + [(name, quantity)], instrument) == Pending(list, instrument) + (if name == instrument then quantity else 0)
  {
    assert (list + [(name, quantity)])[..|list|] == list;
  }

  lemma {:induction false} TradedNone(fills: seq<Fill>, side: Side, date: int, instrument: string)
    requires forall f :: f in fills ==> f.date != date
    ensures Traded(fills, side, date, instrument) == 0
  {
    if fills != [] {
      assert fills[|fills| - 1] in fills;
      TradedNone(fills[..|fills| - 1], side, date, instrument);
    }
  }

  // ----- T+1

  ghost predicate Sane(l: Ledger) {
    forall i :: 0 <= l.At(i).available <= l.At(i).total
  }

  /** On day `date`, after the release: what is locked is exactly what was bought that day, and it is
      queued for the next trading date, or for none on the last day. */
  ghost predicate TPlusOne(l: Ledger, date: int, next: Option<int>) {
    && Sane(l)
    && (forall i :: l.At(i).total - l.At(i).available == Traded(l.fills, BUY, date, i))
    && (next.None? ==> l.unlocks == map[])
    && (next.Some? ==> l.unlocks.Keys <= {next.value})
    && (next.Some? ==> forall i :: Pending(l.Unlocks(next.value), i) == Traded(l.fills, BUY, date, i))
  }

  /** Before the release of `date`: what is locked is exactly what is queued for that date. */
  ghost predicate AwaitsRelease(l: Ledger, date: int) {
    && Sane(l)
    && l.unlocks.Keys <= {date}
    && (forall i :: l.At(i).total - l.At(i).available == Pending(l.Unlocks(date), i))
  }

  ghost predicate DatedUpTo(l: Ledger, date: int) {
    && (forall f :: f in l.fills ==> f.date <= date)
    && (forall a :: a in l.actions ==> a.event.date <= date)
  }

  ghost predicate DatedBefore(l: Ledger, date: int) {
    && (forall f :: f in l.fills ==> f.date < date)
    && (forall a :: a in l.actions ==> a.event.date < date)
  }

  // ----- conservation

  /** A cash and share account rebuilt from rows alone. */
  datatype Book = Book(cash: real, totals: map<string, int>) {
    function Total(instrument: string): int { if instrument in totals then totals[instrument] else 0 }
  }

  function ReplayFill(b: Book, f: Fill): Book {
    if f.side == BUY then Book(b.cash - (f.notional + f.fees), b.totals[f.instrument := b.Total(f.instrument) + f.quantity])
    else Book(b.cash + (f.notional - f.fees), b.totals[f.instrument := b.Total(f.instrument) - f.quantity])
  }

  function ReplayAction(b: Book, e: Event): Book {
    match e
    case CashDividend(_, _, instrument, cashPerShare) => b.(cash := b.cash + Product(b.Total(instrument), cashPerShare))
    case ShareMultiplier(_, _, instrument, multiplier) =>
      b.(totals := b.totals[instrument := RoundHalfEven(Product(b.Total(instrument), multiplier))])
  }

  /** Fills and corporate actions merged by date, a day's actions before its fills. */
  function Replay(cash: real, actions: seq<ActionRow>, fills: seq<Fill>): Book
    decreases |actions| + |fills|
  {
    if fills != [] && (actions == [] || fills[|fills| - 1].date >= actions[|actions| - 1].event.date) then
      ReplayFill(Replay(cash, actions, fills[..|fills| - 1]), fills[|fills| - 1])
    else if actions != [] then
      ReplayAction(Replay(cash, actions[..|actions| - 1], fills), actions[|actions| - 1].event)
    else Book(cash, map[])
  }

  /** The rows account for the cash and for every position. */
  ghost predicate Conserved(cash: real, l: Ledger) {
    var b := Replay(cash, l.actions, l.fills);
    b.cash == l.cash && forall i :: b.Total(i) == l.At(i).total
  }

  function RejectedFor(rejections: seq<Rejection>, reason: string): nat {
    if rejections == [] then 0
    else RejectedFor(rejections[..|rejections| - 1], reason) + (if rejections[|rejections| - 1].reason == reason then 1 else 0)
  }

  /** The counters agree with the rejection rows, reason by reason. */
  ghost predicate Tallied(l: Ledger) {
    forall reason :: l.Rejected(reason) == RejectedFor(l.rejections, reason)
  }

  /** The ids of the orders that already have an outcome. */
  ghost function Outcomes(l: Ledger): multiset<string> {
    multiset(FillIds(l.fills)) + multiset(RejectionIds(l.rejections))
  }

  function FillIds(fills: seq<Fill>): (r: seq<string>)
    ensures |r| == |fills|
  {
    seq(|fills|, i requires 0 <= i < |fills| => fills[i].orderId)
  }

  function RejectionIds(rejections: seq<Rejection>): (r: seq<string>)
    ensures |r| == |rejections|
  {
    seq(|rejections|, i requires 0 <= i < |rejections| => rejections[i].orderId)
  }

  /** Traded volume is what the counters say and stays within the participation cap of each row. */
  ghost predicate WithinParticipation(m: Market, bars: map<(int, string), Bar>, l: Ledger) {
    forall d: int, i: string ::
      && l.Used((d, i)) == Traded(l.fills, BUY, d, i) + Traded(l.fills, SELL, d, i)
      && 0 <= l.Used((d, i)) <= (if (d, i) in bars then DailyCapacity(m, bars[(d, i)]) else 0)
  }

  /** What sells have cost beyond what they brought in. */
  function Shortfall(fills: seq<Fill>): real {
    if fills == [] then 0.0
    else
      var f := fills[|fills| - 1];
      Shortfall(fills[..|fills| - 1]) + SellLoss(f)
  }

  function SellLoss(f: Fill): real { if f.side == SELL then Max(0.0, f.fees - f.notional) else 0.0 }

  lemma ShortfallNext(fills: seq<Fill>, f: Fill)
    ensures Shortfall(fills + [f]) == Shortfall(fills) + SellLoss(f)
  {
    assert (fills + [f])[..|fills|] == fills;
  }

  lemma {:induction false} ShortfallNonNegative(fills: seq<Fill>)
    ensures Shortfall(fills) >= 0.0
  {
    if fills != [] {
      ShortfallNonNegative(fills[..|fills| - 1]);
    }
  }

  const CASH_SLACK := 0.000000001

  /** Cash falls below the fitting tolerance by no more than the sells' shortfall. */
  ghost predicate CashFloor(l: Ledger) {
    l.cash >= -CASH_SLACK - Shortfall(l.fills)
  }

  // ----- what a fill verdict guarantees

  lemma DecideFacts(m: Market, l: Ledger, order: Order, bar: Bar)
    requires m.Valid() && bar.Valid() && order.quantity > 0 && Decide(m, l, order, bar).Fills?
    ensures var v := Decide(m, l, order, bar);
      && Tradable(bar) && v.regime in m.regimes && v.regime.Contains(order.date, bar.venue)
      && 0 < v.quantity <= order.quantity && v.quantity <= RemainingCapacity(m, l, order, bar)
      && (order.side == SELL ==> v.quantity <= l.At(order.instrument).available)
      && (order.side == BUY ==> LegalBuy(IsStarMarket(order.instrument), v.quantity, m.rules)
                                && FitsCash(v.quantity, v.price, l.cash, m.rules, v.regime))
      && LimitAllows(order, v.price)
  {
    hide FitsCash, LegalBuy, RoundBuy, IsStarMarket, FillPrice, FeeRegimeFor, LimitAllows, NormalizeSellQuantity,
         NormalizeBuyQuantity, FitToCash, BestAffordable, RemainingCapacity;
    var remaining := RemainingCapacity(m, l, order, bar);
    CapacityNonNegative(m, l, order, bar);
    var wanted := if order.quantity <= remaining then order.quantity else remaining;
    var quantity := BoardQuantity(m, l, order, bar);
    if order.side == BUY {
      WholeQuantity(order.instrument, wanted, m.rules);
      RoundBuyIsLargestLegal(IsStarMarket(order.instrument), wanted, m.rules);
      var regime := FeeRegimeFor(m.regimes, order.date, bar.venue);
      if regime.Ok? {
        FitToCashFacts(order.instrument, quantity, FillPrice(m, order, bar, quantity), l.cash, m.rules, regime.value);
      }
    } else {
      SellKeepsOddLots(order.instrument, wanted as real, l.At(order.instrument).available, m.rules);
    }
  }

  lemma CapacityNonNegative(m: Market, l: Ledger, order: Order, bar: Bar)
    ensures RemainingCapacity(m, l, order, bar) >= 0
  {}

  // ----- each event keeps T+1

  lemma {:induction false} UnlockAdds(positions: map<string, Position>, pending: seq<(string, int)>, instrument: string)
    ensures var before := GetOr(positions, instrument, Position(0, 0));
      var unlocked := Unlock(positions, pending);
      var after := GetOr(unlocked, instrument, Position(0, 0));
      after.total == before.total && after.available == before.available + Pending(pending, instrument)
    decreases |pending|
  {
    if pending != [] {
      var (name, quantity) := pending[0];
      var p := GetOr(positions, name, Position(0, 0));
      UnlockAdds(positions[name := p.(available := p.available + quantity)], pending[1..], instrument);
      PendingHead(pending, instrument);
    }
  }

  lemma {:induction false} PendingHead(list: seq<(string, int)>, instrument: string)
    requires list != []
    ensures Pending(list, instrument) == (if list[0].0 == instrument then list[0].1 else 0) + Pending(list[1..], instrument)
  {
    if |list| > 1 {
      PendingHead(list[..|list| - 1], instrument);
      assert list[..|list| - 1][1..] == list[1..][..|list| - 2];
    } else {
      assert list[..0] == [] && list[1..] == [];
    }
  }

  /** The release unlocks everything: the day starts with nothing bought and nothing queued. */
  lemma ReleaseUnlocksAll(l: Ledger, date: int, next: Option<int>)
    requires AwaitsRelease(l, date) && DatedBefore(l, date)
    ensures TPlusOne(Release(l, date), date, next)
    ensures forall i :: Release(l, date).At(i) == Position(l.At(i).total, l.At(i).total)
    ensures Release(l, date).unlocks == map[] && DatedUpTo(Release(l, date), date)
  {
    var r := Release(l, date);
    forall i ensures r.At(i) == Position(l.At(i).total, l.At(i).total) {
      UnlockAdds(l.positions, l.Unlocks(date), i);
    }
    assert r.unlocks == map[];
    forall i ensures Traded(r.fills, BUY, date, i) == 0 {
      TradedNone(r.fills, BUY, date, i);
    }
  }

  /** A finished day leaves exactly the next day's release waiting. */
  lemma DayEndAwaitsRelease(l: Ledger, date: int, next: int)
    requires TPlusOne(l, date, Some(next)) && DatedUpTo(l, date) && date < next
    ensures AwaitsRelease(l, next) && DatedBefore(l, next)
  {}

  lemma ScaledSame(quantity: int, multiplier: real)
    requires quantity >= 0 && multiplier > 0.0 && ScaledQuantity(quantity, multiplier).Ok?
    ensures ScaledQuantity(quantity, multiplier).value == RoundHalfEven(Product(quantity, multiplier)) >= 0
  {
    hide RoundHalfEven, Product;
    ProductNonNegative(quantity, multiplier);
    RoundNonNegative(Product(quantity, multiplier));
  }

  lemma ProductNonNegative(quantity: int, factor: real)
    requires quantity >= 0 && factor >= 0.0
    ensures Product(quantity, factor) >= 0.0
  {
    ProductSign(quantity as real, factor);
  }

  lemma RoundNonNegative(x: real)
    requires x >= 0.0
    ensures RoundHalfEven(x) >= 0
  {}

  /** Nothing is locked when corporate actions run, so scaling keeps every share available. */
  ghost predicate AllAvailable(l: Ledger) {
    && l.unlocks == map[]
    && (forall i :: l.At(i).total >= 0 && l.At(i).available == l.At(i).total)
  }

  lemma ActionKeepsAvailable(l: Ledger, e: Event)
    requires AllAvailable(l) && e.Valid() && ApplyAction(l, e).Ok?
    ensures var r := ApplyAction(l, e).value;
      AllAvailable(r) && r.fills == l.fills && r.rejections == l.rejections && r.rejectionCounts == l.rejectionCounts
      && r.volumeUsed == l.volumeUsed && (exists row :: r.actions == l.actions + [row] && row.event == e)
  {
    var r := ApplyAction(l, e).value;
    hide ScaledQuantity;
    if e.ShareMultiplier? {
      ScaledSame(l.At(e.instrument).total, e.multiplier);
    }
    forall i ensures r.At(i).total >= 0 && r.At(i).available == r.At(i).total {
      assert l.At(i).total >= 0 && l.At(i).available == l.At(i).total;
    }
    var row := r.actions[|l.actions|];
    assert r.actions == l.actions + [row] && row.event == e;
  }

  lemma SettleKeepsTPlusOne(l: Ledger, order: Order, quantity: int, price: real, fees: real, next: Option<int>)
    requires TPlusOne(l, order.date, next) && quantity > 0
    requires order.side == SELL ==> quantity <= l.At(order.instrument).available
    ensures TPlusOne(Settle(l, order, quantity, price, fees, next), order.date, next)
  {
    hide Product, Traded, Pending;
    var r := Settle(l, order, quantity, price, fees, next);
    var row := r.fills[|l.fills|];
    assert r.fills == l.fills + [row];
    forall i ensures r.At(i).total - r.At(i).available == Traded(r.fills, BUY, order.date, i) && 0 <= r.At(i).available <= r.At(i).total {
      TradedNext(l.fills, row, BUY, order.date, i);
    }
    if next.Some? {
      forall i ensures Pending(r.Unlocks(next.value), i) == Traded(r.fills, BUY, order.date, i) {
        TradedNext(l.fills, row, BUY, order.date, i);
        PendingNext(l.Unlocks(next.value), order.instrument, quantity, i);
      }
    }
  }

  /** Available shares plus what was sold today never change within a day. */
  lemma SettleKeepsOpening(l: Ledger, order: Order, quantity: int, price: real, fees: real, next: Option<int>, i: string)
    ensures var r := Settle(l, order, quantity, price, fees, next);
      r.At(i).available + Traded(r.fills, SELL, order.date, i) == l.At(i).available + Traded(l.fills, SELL, order.date, i)
  {
    hide Product, Traded;
    var r := Settle(l, order, quantity, price, fees, next);
    TradedNext(l.fills, r.fills[|l.fills|], SELL, order.date, i);
    assert r.fills == l.fills + [r.fills[|l.fills|]];
  }

  // ----- each event keeps the accounts

  lemma SettleConserves(cash: real, l: Ledger, order: Order, quantity: int, price: real, fees: real, next: Option<int>)
    requires Conserved(cash, l) && DatedUpTo(l, order.date)
    ensures Conserved(cash, Settle(l, order, quantity, price, fees, next))
  {
    hide Product;
    var r := Settle(l, order, quantity, price, fees, next);
    var row := r.fills[|l.fills|];
    assert r.fills == l.fills + [row] && r.fills[..|l.fills|] == l.fills;
    if l.actions != [] {
      assert l.actions[|l.actions| - 1] in l.actions;
    }
    var b := Replay(cash, l.actions, l.fills);
    assert Replay(cash, r.actions, r.fills) == ReplayFill(b, row);
    FillReplays(cash, l, order, quantity, price, fees, next, b, row);
  }

  lemma FillReplays(cash: real, l: Ledger, order: Order, quantity: int, price: real, fees: real, next: Option<int>, b: Book, row: Fill)
    requires b == Replay(cash, l.actions, l.fills) && Conserved(cash, l)
    requires row == Settle(l, order, quantity, price, fees, next).fills[|l.fills|]
    ensures var r := Settle(l, order, quantity, price, fees, next);
      ReplayFill(b, row).cash == r.cash && forall i :: ReplayFill(b, row).Total(i) == r.At(i).total
  {
    hide Product, Replay;
    var r := Settle(l, order, quantity, price, fees, next);
    forall i ensures ReplayFill(b, row).Total(i) == r.At(i).total {
      assert b.Total(i) == l.At(i).total && b.Total(order.instrument) == l.At(order.instrument).total;
    }
  }

  lemma ActionConserves(cash: real, l: Ledger, e: Event)
    requires Conserved(cash, l) && AllAvailable(l) && e.Valid() && (forall f :: f in l.fills ==> f.date < e.date)
    requires ApplyAction(l, e).Ok?
    ensures Conserved(cash, ApplyAction(l, e).value)
  {
    hide ScaledQuantity, RoundHalfEven, Product;
    var r := ApplyAction(l, e).value;
    assert r.actions[..|l.actions|] == l.actions;
    if l.fills != [] {
      assert l.fills[|l.fills| - 1] in l.fills;
    }
    var b := Replay(cash, l.actions, l.fills);
    assert Replay(cash, r.actions, r.fills) == ReplayAction(b, e);
    hide Replay;
    if e.ShareMultiplier? {
      ScaledSame(l.At(e.instrument).total, e.multiplier);
    }
    assert b.Total(e.instrument) == l.At(e.instrument).total;
    forall i ensures ReplayAction(b, e).Total(i) == r.At(i).total {
      assert b.Total(i) == l.At(i).total;
    }
  }

  lemma RejectTallies(l: Ledger, order: Order, reason: string)
    requires Tallied(l)
    ensures Tallied(AddRejection(l, order, reason))
  {
    var r := AddRejection(l, order, reason);
    assert r.rejections[..|l.rejections|] == l.rejections;
  }

  lemma OneOutcome(l: Ledger, r: Ledger, id: string)
    requires || (r.fills == l.fills && |r.rejections| == |l.rejections| + 1 && r.rejections[..|l.rejections|] == l.rejections
                 && r.rejections[|l.rejections|].orderId == id)
             || (r.rejections == l.rejections && |r.fills| == |l.fills| + 1 && r.fills[..|l.fills|] == l.fills
                 && r.fills[|l.fills|].orderId == id)
    ensures Outcomes(r) == Outcomes(l) + multiset{id}
  {
    if r.fills == l.fills {
      assert RejectionIds(r.rejections) == RejectionIds(l.rejections) + [id];
    } else {
      assert FillIds(r.fills) == FillIds(l.fills) + [id];
    }
  }

  lemma SettleKeepsParticipation(m: Market, bars: map<(int, string), Bar>, l: Ledger, order: Order, quantity: int, price: real, fees: real, next: Option<int>)
    requires WithinParticipation(m, bars, l) && Key(order) in bars
    requires 0 < quantity <= RemainingCapacity(m, l, order, bars[Key(order)])
    ensures WithinParticipation(m, bars, Settle(l, order, quantity, price, fees, next))
  {
    hide Product, Traded, DailyCapacity;
    var r := Settle(l, order, quantity, price, fees, next);
    var row := r.fills[|l.fills|];
    assert r.fills == l.fills + [row];
    forall d: int, i: string
      ensures r.Used((d, i)) == Traded(r.fills, BUY, d, i) + Traded(r.fills, SELL, d, i)
      ensures 0 <= r.Used((d, i)) <= (if (d, i) in bars then DailyCapacity(m, bars[(d, i)]) else 0)
    {
      TradedNext(l.fills, row, BUY, d, i);
      TradedNext(l.fills, row, SELL, d, i);
      assert l.Used((d, i)) == Traded(l.fills, BUY, d, i) + Traded(l.fills, SELL, d, i);
    }
  }

  lemma SettleKeepsFloor(l: Ledger, order: Order, quantity: int, price: real, fees: real, next: Option<int>)
    requires CashFloor(l)
    requires order.side == BUY ==> Product(quantity, price) + fees <= l.cash + CASH_SLACK
    ensures CashFloor(Settle(l, order, quantity, price, fees, next))
  {
    hide Product, Shortfall;
    var r := Settle(l, order, quantity, price, fees, next);
    var row := r.fills[|l.fills|];
    assert r.fills == l.fills + [row];
    ShortfallNext(l.fills, row);
    ShortfallNonNegative(l.fills);
  }

  // ----- the conjunction, over every reachable state

  /** Everything a ledger satisfies on day `date` of a run, `opening` being the ledger after the day's
      release and corporate actions. */
  ghost predicate Keeps(input: Input, l: Ledger, opening: Ledger, date: int, next: Option<int>) {
    && TPlusOne(l, date, next)
    && DatedUpTo(l, date)
    && (forall i :: l.At(i).available + Traded(l.fills, SELL, date, i) == opening.At(i).total)
    && Conserved(input.initialCash, l)
    && Tallied(l)
    && WithinParticipation(input.market, input.bars, l)
    && CashFloor(l)
  }

  lemma CountedKeeps(input: Input, l: Ledger, opening: Ledger, date: int, next: Option<int>, order: Order, bar: Bar)
    requires Keeps(input, l, opening, date, next)
    ensures Keeps(input, Counted(input.market, l, order, bar), opening, date, next)
  {
    hide Counted, Traded, Pending, Replay, RejectedFor, DailyCapacity;
    var r := Counted(input.market, l, order, bar);
    SameAccounts(input, l, r, opening, date, next);
  }

  /** The invariant only looks at the accounts, not at the demand counters. */
  lemma SameAccounts(input: Input, l: Ledger, r: Ledger, opening: Ledger, date: int, next: Option<int>)
    requires Keeps(input, l, opening, date, next)
    requires r.cash == l.cash && r.positions == l.positions && r.unlocks == l.unlocks && r.fills == l.fills
    requires r.rejections == l.rejections && r.actions == l.actions && r.rejectionCounts == l.rejectionCounts
    requires r.volumeUsed == l.volumeUsed
    ensures Keeps(input, r, opening, date, next)
  {
    hide Traded, Pending, Replay, RejectedFor, DailyCapacity;
    assert forall i :: r.At(i) == l.At(i);
    assert forall d :: r.Unlocks(d) == l.Unlocks(d);
    assert forall reason :: r.Rejected(reason) == l.Rejected(reason);
    assert forall key :: r.Used(key) == l.Used(key);
  }

  lemma RejectKeeps(input: Input, l: Ledger, opening: Ledger, date: int, next: Option<int>, order: Order, reason: string)
    requires Keeps(input, l, opening, date, next)
    ensures Keeps(input, AddRejection(l, order, reason), opening, date, next)
  {
    hide Traded, Pending, Replay, RejectedFor, DailyCapacity;
    RejectTallies(l, order, reason);
    var r := AddRejection(l, order, reason);
    assert forall i :: r.At(i) == l.At(i);
    assert forall d :: r.Unlocks(d) == l.Unlocks(d);
    assert forall key :: r.Used(key) == l.Used(key);
  }

  lemma SettleKeeps(input: Input, l: Ledger, opening: Ledger, date: int, next: Option<int>,
                    order: Order, quantity: int, price: real, fees: real)
    requires Keeps(input, l, opening, date, next) && order.date == date && Key(order) in input.bars
    requires 0 < quantity <= RemainingCapacity(input.market, l, order, input.bars[Key(order)])
    requires order.side == SELL ==> quantity <= l.At(order.instrument).available
    requires order.side == BUY ==> Product(quantity, price) + fees <= l.cash + CASH_SLACK
    ensures Keeps(input, Settle(l, order, quantity, price, fees, next), opening, date, next)
  {
    hide Product, RemainingCapacity, Traded, TPlusOne, Conserved, WithinParticipation, CashFloor;
    SettleKeepsTPlusOne(l, order, quantity, price, fees, next);
    SettleConserves(input.initialCash, l, order, quantity, price, fees, next);
    SettleKeepsParticipation(input.market, input.bars, l, order, quantity, price, fees, next);
    SettleKeepsFloor(l, order, quantity, price, fees, next);
    forall i ensures Settle(l, order, quantity, price, fees, next).At(i).available
        + Traded(Settle(l, order, quantity, price, fees, next).fills, SELL, date, i) == opening.At(i).total {
      SettleKeepsOpening(l, order, quantity, price, fees, next, i);
    }
    assert forall reason :: Settle(l, order, quantity, price, fees, next).Rejected(reason) == l.Rejected(reason);
  }

  /** Processing an order keeps everything and gives the order exactly one outcome. */
  lemma ProcessKeeps(input: Input, l: Ledger, opening: Ledger, date: int, next: Option<int>, order: Order)
    requires input.Valid() && Keeps(input, l, opening, date, next) && order.date == date && order.quantity > 0
    requires ProcessOrder(input.market, l, order, input.bars, next).Ok?
    ensures var r := ProcessOrder(input.market, l, order, input.bars, next).value;
      Keeps(input, r, opening, date, next) && Outcomes(r) == Outcomes(l) + multiset{order.orderId}
  {
    hide Keeps, Decide, Counted, FeeBreakdown, RemainingCapacity, Outcomes, Product;
    var m := input.market;
    if Key(order) !in input.bars {
      RejectKeeps(input, l, opening, date, next, order, "missing_market_data");
      RejectOutcome(l, order, "missing_market_data");
    } else {
      var bar := input.bars[Key(order)];
      var counted := Counted(m, l, order, bar);
      CountedKeeps(input, l, opening, date, next, order, bar);
      CountedSame(m, l, order, bar);
      match Decide(m, l, order, bar)
      case Rejects(reason) =>
        RejectKeeps(input, counted, opening, date, next, order, reason);
        RejectOutcome(counted, order, reason);
      case Raises(_) =>
      case Fills(quantity, price, regime) =>
        DecideFacts(m, l, order, bar);
        var fees := FeesOf(m, order, Decide(m, l, order, bar));
        FitIsAffordable(m, l, order, quantity, price, regime);
        SettleKeeps(input, counted, opening, date, next, order, quantity, price, fees);
        SettleOutcome(counted, order, quantity, price, fees, next);
    }
  }

  lemma CountedSame(m: Market, l: Ledger, order: Order, bar: Bar)
    ensures var c := Counted(m, l, order, bar);
      && Outcomes(c) == Outcomes(l) && c.cash == l.cash && c.At(order.instrument) == l.At(order.instrument)
      && RemainingCapacity(m, c, order, bar) == RemainingCapacity(m, l, order, bar)
  {
    hide Counted, DailyCapacity;
  }

  lemma FitIsAffordable(m: Market, l: Ledger, order: Order, quantity: int, price: real, regime: FeeRegime)
    requires order.side == BUY ==> FitsCash(quantity, price, l.cash, m.rules, regime)
    ensures order.side == BUY ==>
      Product(quantity, price) + FeesOf(m, order, Verdict.Fills(quantity, price, regime)) <= l.cash + CASH_SLACK
  {
    hide FeeBreakdown;
  }

  lemma RejectOutcome(l: Ledger, order: Order, reason: string)
    ensures Outcomes(AddRejection(l, order, reason)) == Outcomes(l) + multiset{order.orderId}
  {
    hide Outcomes;
    OneOutcome(l, AddRejection(l, order, reason), order.orderId);
  }

  lemma SettleOutcome(l: Ledger, order: Order, quantity: int, price: real, fees: real, next: Option<int>)
    ensures Outcomes(Settle(l, order, quantity, price, fees, next)) == Outcomes(l) + multiset{order.orderId}
  {
    hide Outcomes, Product;
    OneOutcome(l, Settle(l, order, quantity, price, fees, next), order.orderId);
  }

  // ----- the morning of a day

  /** Between the release and the first order of `date`. */
  ghost predicate Morning(input: Input, l: Ledger, date: int) {
    && AllAvailable(l)
    && (forall f :: f in l.fills ==> f.date < date)
    && DatedUpTo(l, date)
    && Conserved(input.initialCash, l)
    && Tallied(l)
    && WithinParticipation(input.market, input.bars, l)
    && CashFloor(l)
  }

  lemma MorningKeeps(input: Input, l: Ledger, date: int, next: Option<int>)
    requires Morning(input, l, date)
    ensures Keeps(input, l, l, date, next)
  {
    hide Conserved, Tallied, WithinParticipation, CashFloor, Traded;
    forall i ensures Traded(l.fills, BUY, date, i) == 0 == Traded(l.fills, SELL, date, i) {
      TradedNone(l.fills, BUY, date, i);
      TradedNone(l.fills, SELL, date, i);
    }
    assert next.Some? ==> forall i :: Pending(l.Unlocks(next.value), i) == 0;
  }

  lemma ActionKeepsMorning(input: Input, l: Ledger, date: int, e: Event)
    requires Morning(input, l, date) && e.Valid() && e.date == date && ApplyAction(l, e).Ok?
    ensures Morning(input, ApplyAction(l, e).value, date) && Outcomes(ApplyAction(l, e).value) == Outcomes(l)
  {
    hide Conserved, ScaledQuantity, Traded, Product, DailyCapacity;
    var r := ApplyAction(l, e).value;
    ActionKeepsAvailable(l, e);
    ActionConserves(input.initialCash, l, e);
    assert forall key :: r.Used(key) == l.Used(key);
    assert forall reason :: r.Rejected(reason) == l.Rejected(reason);
    ProductNonNegative(l.At(e.instrument).total, if e.CashDividend? then e.cashPerShare else 0.0);
  }

  lemma {:induction false} ActionsKeepMorning(input: Input, l: Ledger, date: int, events: seq<Event>)
    requires Morning(input, l, date) && (forall e :: e in events ==> e.Valid() && e.date == date)
    requires ApplyActions(l, events).Ok?
    ensures Morning(input, ApplyActions(l, events).value, date) && Outcomes(ApplyActions(l, events).value) == Outcomes(l)
    decreases |events|
  {
    hide Morning, ApplyAction, Outcomes;
    if events != [] {
      ActionKeepsMorning(input, l, date, events[0]);
      ActionsKeepMorning(input, ApplyAction(l, events[0]).value, date, events[1..]);
    }
  }

  lemma ReleaseIsMorning(input: Input, l: Ledger, date: int)
    requires AwaitsRelease(l, date) && DatedBefore(l, date)
    requires Conserved(input.initialCash, l) && Tallied(l) && WithinParticipation(input.market, input.bars, l) && CashFloor(l)
    ensures Morning(input, Release(l, date), date) && Outcomes(Release(l, date)) == Outcomes(l)
  {
    hide Unlock, Pending, Replay, Traded, DailyCapacity, RejectedFor, Shortfall;
    var r := Release(l, date);
    ReleaseUnlocksAll(l, date, None);
    assert forall key :: r.Used(key) == l.Used(key);
    assert forall reason :: r.Rejected(reason) == l.Rejected(reason);
    forall i ensures r.At(i).total == l.At(i).total && r.At(i).total >= 0 && r.At(i).available == r.At(i).total {
      assert l.At(i).available >= 0;
    }
  }

  lemma InitialKeeps(input: Input, date: int)
    requires input.Valid() && input.initialCash > 0.0
    ensures var l := Initial(input.initialCash);
      && AwaitsRelease(l, date) && DatedBefore(l, date) && Conserved(input.initialCash, l) && Tallied(l)
      && WithinParticipation(input.market, input.bars, l) && CashFloor(l) && Outcomes(l) == multiset{}
  {
    forall k | k in input.bars ensures DailyCapacity(input.market, input.bars[k]) >= 0 {
      ProductSign(input.bars[k].volume, input.market.rules.maxParticipationRate);
    }
  }

  // ----- main results

  /** The ids of the orders processed up to the `j`-th order of day `k`. */
  ghost function Processed(input: Input, k: nat, j: nat): multiset<string>
    requires k < |input.dates| && j <= |OrdersOn(input.orders, input.dates[k])|
    decreases k, j
  {
    if j > 0 then Processed(input, k, j - 1) + multiset{OrdersOn(input.orders, input.dates[k])[j - 1].orderId}
    else if k > 0 then Processed(input, k - 1, |OrdersOn(input.orders, input.dates[k - 1])|)
    else multiset{}
  }

  /** At every point of every day of every run that has not raised: T+1 availability is exact, sells stay
      within the opening holding, rows account for cash and shares, counters match rows, volume stays within
      participation, cash stays above its floor, and each order processed so far has exactly one outcome. */
  lemma {:induction false} ReachableKeeps(input: Input, k: nat, j: nat)
    requires input.Valid() && input.initialCash > 0.0
    requires k < |input.dates| && j <= |OrdersOn(input.orders, input.dates[k])| && LedgerAt(input, k, j).Ok?
    ensures Opening(input, k).Ok?
    ensures Keeps(input, LedgerAt(input, k, j).value, Opening(input, k).value, input.dates[k], input.NextDate(k))
    ensures Outcomes(LedgerAt(input, k, j).value) == Processed(input, k, j)
    decreases k, 1, j
  {
    hide Keeps, Outcomes, ProcessOrder;
    if j > 0 {
      ReachableKeeps(input, k, j - 1);
      ProcessKeeps(input, LedgerAt(input, k, j - 1).value, Opening(input, k).value, input.dates[k], input.NextDate(k),
                   OrdersOn(input.orders, input.dates[k])[j - 1]);
    } else {
      OpeningKeeps(input, k);
    }
  }

  lemma OpeningKeeps(input: Input, k: nat)
    requires input.Valid() && input.initialCash > 0.0 && k < |input.dates| && Opening(input, k).Ok?
    ensures var l := Opening(input, k).value;
      Keeps(input, l, l, input.dates[k], input.NextDate(k)) && Outcomes(l) == Processed(input, k, 0)
    decreases k, 0, 0
  {
    hide Outcomes, ProcessOrder, AwaitsRelease, Morning, TPlusOne, Conserved, Tallied, WithinParticipation, CashFloor,
         Release, ApplyActions, Traded, DatedUpTo, DatedBefore;
    var date := input.dates[k];
    if k == 0 {
      InitialKeeps(input, date);
      ReleaseIsMorning(input, Initial(input.initialCash), date);
      ActionsKeepMorning(input, Release(Initial(input.initialCash), date), date, EventsOn(input.events, date));
    } else {
      var n := |OrdersOn(input.orders, input.dates[k - 1])|;
      ReachableKeeps(input, k - 1, n);
      var l := LedgerAt(input, k - 1, n).value;
      DayEndAwaitsRelease(l, input.dates[k - 1], date);
      ReleaseIsMorning(input, l, date);
      ActionsKeepMorning(input, Release(l, date), date, EventsOn(input.events, date));
    }
    MorningKeeps(input, Opening(input, k).value, date, input.NextDate(k));
  }

  /** T+1 for sellers: what is sold of a name during a day never exceeds its holding at the open. */
  lemma SellsWithinOpening(input: Input, k: nat, j: nat, instrument: string)
    requires input.Valid() && input.initialCash > 0.0
    requires k < |input.dates| && j <= |OrdersOn(input.orders, input.dates[k])| && LedgerAt(input, k, j).Ok?
    ensures Opening(input, k).Ok?
    ensures Traded(LedgerAt(input, k, j).value.fills, SELL, input.dates[k], instrument) <= Opening(input, k).value.At(instrument).total
  {
    hide Traded, LedgerAt, Opening, Conserved, Tallied, WithinParticipation, CashFloor, DatedUpTo;
    ReachableKeeps(input, k, j);
    var l := LedgerAt(input, k, j).value;
    assert l.At(instrument).available >= 0;
  }

  // ----- every order of the input has one outcome in the end

  function OrderIds(orders: seq<Order>): (r: seq<string>)
    ensures |r| == |orders|
  {
    seq(|orders|, i requires 0 <= i < |orders| => orders[i].orderId)
  }

  /** The orders on one of the first `k` dates. */
  function OrdersThrough(orders: seq<Order>, dates: seq<int>): seq<Order> {
    if orders == [] then []
    else if orders[0].date in dates then [orders[0]] + OrdersThrough(orders[1..], dates)
    else OrdersThrough(orders[1..], dates)
  }

  lemma {:induction false} ThroughNextDate(orders: seq<Order>, dates: seq<int>, date: int)
    requires date !in dates
    ensures multiset(OrderIds(OrdersThrough(orders, dates + [date])))
         == multiset(OrderIds(OrdersThrough(orders, dates))) + multiset(OrderIds(OrdersOn(orders, date)))
  {
    hide OrderIds;
    NoIds();
    if orders != [] {
      ThroughNextDate(orders[1..], dates, date);
      IdsCons(orders[0], OrdersThrough(orders[1..], dates + [date]));
      IdsCons(orders[0], OrdersThrough(orders[1..], dates));
      IdsCons(orders[0], OrdersOn(orders[1..], date));
    }
  }

  lemma NoIds()
    ensures OrderIds([]) == []
  {}

  lemma IdsCons(o: Order, rest: seq<Order>)
    ensures multiset(OrderIds([o] + rest)) == multiset{o.orderId} + multiset(OrderIds(rest))
  {
    assert OrderIds([o] + rest) == [o.orderId] + OrderIds(rest);
  }

  lemma {:induction false} ThroughAll(orders: seq<Order>, dates: seq<int>)
    requires forall o :: o in orders ==> o.date in dates
    ensures OrdersThrough(orders, dates) == orders
  {
    if orders != [] {
      ThroughAll(orders[1..], dates);
    }
  }

  lemma {:induction false} ThroughNone(orders: seq<Order>)
    ensures OrdersThrough(orders, []) == []
  {
    if orders != [] {
      ThroughNone(orders[1..]);
    }
  }

  lemma IdsNext(orders: seq<Order>, j: nat)
    requires j < |orders|
    ensures multiset(OrderIds(orders[..j + 1])) == multiset(OrderIds(orders[..j])) + multiset{orders[j].orderId}
  {
    assert OrderIds(orders[..j + 1]) == OrderIds(orders[..j]) + [orders[j].orderId];
  }

  lemma ThroughNextDay(input: Input, k: nat)
    requires input.Valid() && 0 < k < |input.dates|
    ensures multiset(OrderIds(OrdersThrough(input.orders, input.dates[..k])))
         == multiset(OrderIds(OrdersThrough(input.orders, input.dates[..k - 1])))
            + multiset(OrderIds(OrdersOn(input.orders, input.dates[k - 1])))
  {
    hide OrdersOn, OrdersThrough, OrderIds;
    assert input.dates[..k] == input.dates[..k - 1] + [input.dates[k - 1]];
    ThroughNextDate(input.orders, input.dates[..k - 1], input.dates[k - 1]);
  }

  lemma {:induction false} ProcessedIsThrough(input: Input, k: nat, j: nat)
    requires input.Valid() && k < |input.dates| && j <= |OrdersOn(input.orders, input.dates[k])|
    ensures Processed(input, k, j) == multiset(OrderIds(OrdersThrough(input.orders, input.dates[..k])))
                                      + multiset(OrderIds(OrdersOn(input.orders, input.dates[k])[..j]))
    decreases k, j
  {
    hide OrdersOn, OrdersThrough, OrderIds, Input.Valid, Processed;
    var today := OrdersOn(input.orders, input.dates[k]);
    if j > 0 {
      ProcessedIsThrough(input, k, j - 1);
      ProcessedNext(input, k, j);
      IdsNext(today, j - 1);
    } else {
      ProcessedBefore(input, k);
      NoIds();
      assert today[..0] == [];
      if k > 0 {
        var before := OrdersOn(input.orders, input.dates[k - 1]);
        ProcessedIsThrough(input, k - 1, |before|);
        assert before[..|before|] == before;
        ThroughNextDay(input, k);
      } else {
        ThroughNone(input.orders);
        assert input.dates[..0] == [];
      }
    }
  }

  lemma ProcessedNext(input: Input, k: nat, j: nat)
    requires k < |input.dates| && 0 < j <= |OrdersOn(input.orders, input.dates[k])|
    ensures Processed(input, k, j) == Processed(input, k, j - 1) + multiset{OrdersOn(input.orders, input.dates[k])[j - 1].orderId}
  {
    hide OrdersOn;
  }

  lemma ProcessedBefore(input: Input, k: nat)
    requires k < |input.dates|
    ensures Processed(input, k, 0)
         == if k > 0 then Processed(input, k - 1, |OrdersOn(input.orders, input.dates[k - 1])|) else multiset{}
  {
    hide OrdersOn;
  }

  /** A simulation that does not raise gives every order exactly one fill or one rejection row, and its rows
      rebuild its cash and positions. */
  lemma SimulationAccountsForEveryOrder(input: Input)
    requires input.Valid() && Simulate(input).Ok? && input.dates != []
    ensures Outcomes(Simulate(input).value) == multiset(OrderIds(input.orders))
    ensures Conserved(input.initialCash, Simulate(input).value)
    ensures Tallied(Simulate(input).value) && Sane(Simulate(input).value)
    ensures Simulate(input).value.unlocks == map[]
  {
    hide Outcomes, LedgerAt, Opening, Conserved, Tallied, WithinParticipation, CashFloor, OrdersThrough, DatedUpTo, Processed,
         CanMark, OrdersOn, Sane;
    var k := |input.dates| - 1;
    ReachableKeeps(input, k, |OrdersOn(input.orders, input.dates[k])|);
    AllOrdersProcessed(input);
  }

  /** The orders processed by the last day are the orders of the input. */
  lemma AllOrdersProcessed(input: Input)
    requires input.Valid() && input.dates != [] && forall o :: o in input.orders ==> o.date in input.dates
    ensures var k := |input.dates| - 1;
      Processed(input, k, |OrdersOn(input.orders, input.dates[k])|) == multiset(OrderIds(input.orders))
  {
    hide OrdersThrough, Processed, OrdersOn, OrderIds;
    var k := |input.dates| - 1;
    var today := OrdersOn(input.orders, input.dates[k]);
    ProcessedIsThrough(input, k, |today|);
    assert today[..|today|] == today;
    assert input.dates == input.dates[..k] + [input.dates[k]];
    ThroughNextDate(input.orders, input.dates[..k], input.dates[k]);
    ThroughAll(input.orders, input.dates);
  }
}
