/** The T+1 and board-size guard around Qlib's exchange (backtesting/ashare_qlib.py), and why its locked
    quantity is the simulator's. */
module ExchangeGuard {
  import opened Basics
  import opened MarketRules
  import opened AShareLedger
  import opened AShareInvariants

  const SELL_SLACK := 0.000000001

  /** `is_legal_buy_quantity`: within rounding noise of a size the board accepts. */
  predicate IsLegalBuyQuantity(code: string, quantity: real, rules: Rules)
    requires rules.Valid()
  {
    quantity > 0.0 &&
    var normalized := NormalizeBuyQuantity(code, quantity, rules);
    normalized > 0 && Abs(quantity - normalized as real) <= 0.00000001
  }

  /** An adjusted amount in raw shares. */
  function RawShares(amount: real, factor: real): real { amount * factor }

  /** An order in Qlib's adjusted amounts. */
  datatype QlibOrder = QlibOrder(date: int, stockId: string, side: Side, amount: real)

  /** What Qlib's own `deal_order` reports. */
  datatype Deal = Deal(amount: real, value: real, cost: real, price: real)

  type LockedBuys = map<(int, string), real>

  /** What the guard reads before it lets Qlib deal: whether Qlib's own check passed, the position the order
      resolves to, and the adjustment factor. */
  datatype Context = Context(checked: bool, onAccount: bool, position: Option<real>, factor: Option<real>)

  function SettledAvailable(locked: LockedBuys, order: QlibOrder, total: real): real {
    Max(0.0, total - GetOr(locked, (order.date, order.stockId), 0.0))
  }

  predicate Refuses(locked: LockedBuys, order: QlibOrder, c: Context, rules: Rules)
    requires rules.Valid()
  {
    c.checked &&
    if order.side == SELL then
      c.position.None? || order.amount > SettledAvailable(locked, order, c.position.value) + SELL_SLACK
    else
      order.amount > 0.0 &&
      (c.factor.None? || c.factor.value <= 0.0 || !IsLegalBuyQuantity(order.stockId, RawShares(order.amount, c.factor.value), rules))
  }

  function LockBuy(locked: LockedBuys, order: QlibOrder, amount: real): LockedBuys {
    var key := (order.date, order.stockId);
    locked[key := GetOr(locked, key, 0.0) + amount]
  }

  /** Only a positive buy fill on an account locks shares. */
  function LockedNext(locked: LockedBuys, order: QlibOrder, c: Context, deal: Deal): LockedBuys {
    if c.onAccount && order.side == BUY && deal.amount > 0.0 then LockBuy(locked, order, deal.amount) else locked
  }

  class AShareQlibExchangeGuard {
    const rules: Rules
    var sameDayBuys: LockedBuys

    constructor (rules: Rules)
      requires rules.Valid()
      ensures this.rules == rules && sameDayBuys == map[]
    {
      this.rules := rules;
      sameDayBuys := map[];
    }

    /** `calc_trade_info`: a buy whose fill is not a board size is zeroed before Qlib books it. */
    method CalcTradeInfo(order: QlibOrder, factor: real, computed: Deal) returns (booked: Deal)
      requires rules.Valid()
      ensures booked == computed || booked == Deal(0.0, 0.0, 0.0, computed.price)
      ensures order.side == SELL ==> booked == computed
      ensures order.side == BUY && booked.amount > 0.0 ==> IsLegalBuyQuantity(order.stockId, RawShares(booked.amount, factor), rules)
      ensures order.side == BUY && IsLegalBuyQuantity(order.stockId, RawShares(computed.amount, factor), rules) ==> booked == computed
    {
      hide IsLegalBuyQuantity, RawShares;
      booked := computed;
      if order.side == BUY && computed.amount > 0.0 {
        if !IsLegalBuyQuantity(order.stockId, RawShares(computed.amount, factor), rules) {
          booked := Deal(0.0, 0.0, 0.0, computed.price);
        }
      }
    }

    /** `deal_order`: refuse, or let Qlib deal and lock what an account bought today. */
    method DealOrder(order: QlibOrder, c: Context, deal: Deal) returns (r: Result<Deal>)
      requires rules.Valid()
      modifies this
      ensures r.Err? <==> Refuses(old(sameDayBuys), order, c, rules)
      ensures r.Err? ==> sameDayBuys == old(sameDayBuys)
      ensures r.Ok? ==> r.value == deal
      ensures r.Ok? ==> sameDayBuys == LockedNext(old(sameDayBuys), order, c, deal)
    {
      hide IsLegalBuyQuantity, RawShares, GetOr;
      var key := (order.date, order.stockId);
      if c.checked {
        if order.side == SELL {
          if c.position.None? {
            return Err("sell requires a known long position");
          }
          var total := c.position.value;
          var lockedToday := GetOr(sameDayBuys, key, 0.0);
          var available := Max(0.0, total - lockedToday);
          if order.amount > available + SELL_SLACK {
            return Err("T+1 or oversell blocked");
          }
        } else if order.amount > 0.0 {
          if c.factor.None? || c.factor.value <= 0.0 {
            return Err("factor unavailable");
          }
          if !IsLegalBuyQuantity(order.stockId, RawShares(order.amount, c.factor.value), rules) {
            return Err("illegal A-share buy quantity");
          }
        }
      }
      if c.onAccount && order.side == BUY && deal.amount > 0.0 {
        sameDayBuys := sameDayBuys[key := GetOr(sameDayBuys, key, 0.0) + deal.amount];
      }
      r := Ok(deal);
    }
  }

  // ----- runs of the guard

  /** One `deal_order` call: the order, what the guard reads, and what Qlib deals. */
  datatype Step = Step(order: QlibOrder, context: Context, deal: Deal)

  /** The guard's locks after a sequence of calls it let through. */
  function LockedBy(locked: LockedBuys, steps: seq<Step>): LockedBuys
    decreases |steps|
  {
    if steps == [] then locked
    else
      var last := steps[|steps| - 1];
      LockedNext(LockedBy(locked, steps[..|steps| - 1]), last.order, last.context, last.deal)
  }

  // ----- the guard's ledger is the simulator's

  /** The adjustment factor of each date and name. */
  type Factors = (int, string) -> real

  ghost predicate PositiveFactors(factors: Factors) {
    forall d, i :: factors(d, i) > 0.0
  }

  /** A fill of the simulator as a call of the guard, in adjusted amounts. */
  function FillStep(f: Fill, factor: real): Step
    requires factor != 0.0
  {
    var amount := f.quantity as real / factor;
    var before := if f.side == BUY then f.after.total - f.quantity else f.after.total + f.quantity;
    Step(QlibOrder(f.date, f.instrument, f.side, amount),
         Context(true, true, Some(before as real / factor), Some(factor)),
         Deal(amount, f.notional, f.fees, f.price))
  }

  function FillSteps(fills: seq<Fill>, factors: Factors): (steps: seq<Step>)
    requires forall f :: f in fills ==> factors(f.date, f.instrument) != 0.0
    ensures |steps| == |fills|
  {
    if fills == [] then []
    else
      var f := fills[|fills| - 1];
      FillSteps(fills[..|fills| - 1], factors) + [FillStep(f, factors(f.date, f.instrument))]
  }

  /** What a new guard has locked after an account received these fills. */
  function LockedAfter(fills: seq<Fill>, factors: Factors): LockedBuys
    requires forall f :: f in fills ==> factors(f.date, f.instrument) != 0.0
  {
    LockedBy(map[], FillSteps(fills, factors))
  }

  /** The guard's locked amount is the simulator's shares bought today, in adjusted units. */
  lemma {:induction false} LockedIsBoughtToday(fills: seq<Fill>, factors: Factors, date: int, instrument: string)
    requires PositiveFactors(factors) && forall f :: f in fills ==> f.quantity > 0
    ensures GetOr(LockedAfter(fills, factors), (date, instrument), 0.0)
         == Traded(fills, BUY, date, instrument) as real / factors(date, instrument)
  {
    if fills != [] {
      var front, f := fills[..|fills| - 1], fills[|fills| - 1];
      LockedIsBoughtToday(front, factors, date, instrument);
      var steps := FillSteps(fills, factors);
      assert steps[..|steps| - 1] == FillSteps(front, factors);
      QuotientTimes(f.quantity as real, factors(f.date, f.instrument));
      QuotientAdds(Traded(front, BUY, date, instrument) as real, f.quantity as real, factors(date, instrument));
    }
  }

  lemma QuotientAdds(a: real, b: real, f: real)
    requires f > 0.0
    ensures (a + b) / f == a / f + b / f
    ensures (a - b) / f == a / f - b / f
  {}

  /** A sell of `shares` shares as the guard sees it. */
  function SellOrder(date: int, instrument: string, shares: int, factor: real): QlibOrder
    requires factor != 0.0
  {
    QlibOrder(date, instrument, SELL, shares as real / factor)
  }

  /** The guard's view of an account that holds what the ledger holds. */
  function LedgerContext(l: Ledger, instrument: string, factor: real): Context
    requires factor != 0.0
  {
    Context(true, true, Some(l.At(instrument).total as real / factor), Some(factor))
  }

  /** The two T+1 ledgers hold the same: on the same fills the guard's settled amount is the simulator's available
      shares in adjusted units, and the guard refuses a sell of whole shares exactly when it exceeds them by more
      shares than its tolerance is worth. */
  lemma GuardMeasuresSimulator(l: Ledger, date: int, next: Option<int>, factors: Factors, instrument: string,
                               shares: int, rules: Rules)
    requires rules.Valid() && TPlusOne(l, date, next) && PositiveFactors(factors)
    requires forall f :: f in l.fills ==> f.quantity > 0
    ensures var f := factors(date, instrument);
      var order, c := SellOrder(date, instrument, shares, f), LedgerContext(l, instrument, f);
      && SettledAvailable(LockedAfter(l.fills, factors), order, c.position.value) == l.At(instrument).available as real / f
      && (Refuses(LockedAfter(l.fills, factors), order, c, rules)
          <==> (shares - l.At(instrument).available) as real > SELL_SLACK * f)
  {
    hide LockedAfter, Traded;
    var f := factors(date, instrument);
    var total, available := l.At(instrument).total, l.At(instrument).available;
    LockedIsBoughtToday(l.fills, factors, date, instrument);
    QuotientAdds(total as real, (total - available) as real, f);
    assert (total - available) as real == total as real - available as real;
    QuotientTimes(available as real, f);
    SlackInShares(shares, available, f);
  }

  lemma SlackInShares(shares: int, available: int, f: real)
    requires f > 0.0
    ensures shares as real / f > available as real / f + SELL_SLACK <==> (shares - available) as real > SELL_SLACK * f
  {
    var gap := (shares - available) as real;
    assert gap == shares as real - available as real;
    QuotientAdds(shares as real, available as real, f);
    QuotientTimes(gap, f);
    if gap / f > SELL_SLACK {
      ProductPositive(gap / f - SELL_SLACK, f);
    } else {
      ProductSign(SELL_SLACK - gap / f, f);
    }
  }

  lemma ProductPositive(x: real, y: real)
    requires x > 0.0 && y > 0.0
    ensures x * y > 0.0
  {}

  /** While the tolerance is worth less than one share, the two T+1 ledgers give one contract: the guard accepts a
      sell of whole shares exactly when the simulator has that many available. */
  lemma GuardAgreesWithSimulator(l: Ledger, date: int, next: Option<int>, factors: Factors, instrument: string,
                                 shares: int, rules: Rules)
    requires rules.Valid() && TPlusOne(l, date, next) && PositiveFactors(factors) && factors(date, instrument) < 1000000000.0
    requires forall f :: f in l.fills ==> f.quantity > 0
    ensures var f := factors(date, instrument);
      var order, c := SellOrder(date, instrument, shares, f), LedgerContext(l, instrument, f);
      && SettledAvailable(LockedAfter(l.fills, factors), order, c.position.value) == l.At(instrument).available as real / f
      && (Refuses(LockedAfter(l.fills, factors), order, c, rules) <==> shares > l.At(instrument).available)
  {
    hide LockedAfter, Traded, Refuses, SettledAvailable;
    GuardMeasuresSimulator(l, date, next, factors, instrument, shares, rules);
  }

  // ----- what an account can sell under the guard

  /** The guard's locks together with the amounts one account holds. */
  datatype Account = Account(locked: LockedBuys, held: map<string, real>) {
    function Held(name: string): real { GetOr(held, name, 0.0) }

    function Locked(date: int, name: string): real { GetOr(locked, (date, name), 0.0) }
  }

  /** A call on the account moves what it deals; any other call leaves the account alone. */
  function AccountNext(a: Account, s: Step): Account {
    var name := s.order.stockId;
    var amount := if s.order.side == BUY then a.Held(name) + s.deal.amount else a.Held(name) - s.deal.amount;
    Account(LockedNext(a.locked, s.order, s.context, s.deal),
            if s.context.onAccount then a.held[name := amount] else a.held)
  }

  function AccountAfter(a: Account, steps: seq<Step>): Account
    decreases |steps|
  {
    if steps == [] then a else AccountNext(AccountAfter(a, steps[..|steps| - 1]), steps[|steps| - 1])
  }

  /** The locks of an account are the guard's. */
  lemma {:induction false} AccountLocksAreTheGuards(a: Account, steps: seq<Step>)
    ensures AccountAfter(a, steps).locked == LockedBy(a.locked, steps)
    decreases |steps|
  {
    if steps != [] {
      AccountLocksAreTheGuards(a, steps[..|steps| - 1]);
    }
  }

  /** The guard lets the call through, and Qlib deals as it does: at most the order, nothing when its own check
      fails; a call on the account reads the account's position. */
  ghost predicate LetThrough(a: Account, s: Step, rules: Rules)
    requires rules.Valid()
  {
    && !Refuses(a.locked, s.order, s.context, rules)
    && 0.0 <= s.deal.amount
    && (if s.context.checked then s.deal.amount <= s.order.amount else s.deal.amount == 0.0)
    && (s.context.onAccount ==> s.context.position == Some(a.Held(s.order.stockId)))
  }

  ghost predicate GuardedRun(a: Account, steps: seq<Step>, rules: Rules)
    requires rules.Valid()
    decreases |steps|
  {
    steps == [] ||
    (GuardedRun(a, steps[..|steps| - 1], rules)
     && LetThrough(AccountAfter(a, steps[..|steps| - 1]), steps[|steps| - 1], rules))
  }

  ghost predicate Chronological(steps: seq<Step>) {
    forall i, j :: 0 <= i < j < |steps| ==> steps[i].order.date <= steps[j].order.date
  }

  predicate SellsOn(s: Step, date: int, name: string) {
    s.context.onAccount && s.order.side == SELL && s.order.date == date && s.order.stockId == name
  }

  /** What the account sold of `name` on `date`. */
  function SoldOn(steps: seq<Step>, date: int, name: string): real {
    if steps == [] then 0.0
    else
      var last := steps[|steps| - 1];
      SoldOn(steps[..|steps| - 1], date, name) + (if SellsOn(last, date, name) then last.deal.amount else 0.0)
  }

  function SellOrders(steps: seq<Step>, date: int, name: string): nat {
    if steps == [] then 0
    else SellOrders(steps[..|steps| - 1], date, name) + (if SellsOn(steps[|steps| - 1], date, name) then 1 else 0)
  }

  /** The calls of earlier dates. */
  function Earlier(steps: seq<Step>, date: int): seq<Step> {
    if steps == [] then []
    else
      var last := steps[|steps| - 1];
      Earlier(steps[..|steps| - 1], date) + (if last.order.date < date then [last] else [])
  }

  /** What the account held of `name` when `date` opened. */
  function OpeningHeld(a: Account, steps: seq<Step>, date: int, name: string): real {
    AccountAfter(a, Earlier(steps, date)).Held(name)
  }

  /** Before a date nothing is sold or locked for it. */
  lemma {:induction false} NothingYet(a: Account, steps: seq<Step>, date: int, name: string)
    requires a.locked == map[] && forall i :: 0 <= i < |steps| ==> steps[i].order.date < date
    ensures Earlier(steps, date) == steps && SoldOn(steps, date, name) == 0.0 && SellOrders(steps, date, name) == 0
    ensures AccountAfter(a, steps).Locked(date, name) == 0.0
    decreases |steps|
  {
    if steps != [] {
      NothingYet(a, steps[..|steps| - 1], date, name);
      assert steps == steps[..|steps| - 1] + [steps[|steps| - 1]];
    }
  }

  /** During a date, what is held and not locked is what was held at the open less what was sold. */
  lemma {:induction false} SettledIsOpeningLessSold(a: Account, steps: seq<Step>, rules: Rules, date: int, name: string)
    requires rules.Valid() && a.locked == map[] && GuardedRun(a, steps, rules) && Chronological(steps)
    requires forall i :: 0 <= i < |steps| ==> steps[i].order.date <= date
    ensures var after := AccountAfter(a, steps);
      after.Held(name) - after.Locked(date, name) == OpeningHeld(a, steps, date, name) - SoldOn(steps, date, name)
    decreases |steps|
  {
    hide Refuses;
    if steps == [] || steps[|steps| - 1].order.date < date {
      NothingYet(a, steps, date, name);
    } else {
      var front := steps[..|steps| - 1];
      SettledIsOpeningLessSold(a, front, rules, date, name);
      assert Earlier(steps, date) == Earlier(front, date);
      AccountMoves(AccountAfter(a, front), steps[|steps| - 1], rules, date, name);
    }
  }

  /** A call of the date moves what is held and not locked by what it sells. */
  lemma AccountMoves(a: Account, s: Step, rules: Rules, date: int, name: string)
    requires rules.Valid() && LetThrough(a, s, rules)
    ensures var after := AccountNext(a, s);
      s.order.date == date ==>
        after.Held(name) - after.Locked(date, name)
          == a.Held(name) - a.Locked(date, name) - (if SellsOn(s, date, name) then s.deal.amount else 0.0)
  {
    hide Refuses;
  }

  /** A sell call on the account deals at most what is held and not locked, up to the tolerance. */
  lemma SellIsSettled(a: Account, s: Step, rules: Rules, date: int, name: string)
    requires rules.Valid() && LetThrough(a, s, rules) && SellsOn(s, date, name)
    ensures s.deal.amount <= Max(0.0, a.Held(name) - a.Locked(date, name)) + SELL_SLACK
  {}

  /** An opening holding, and the tolerance of each of `n` sell orders. */
  function SellBound(opening: real, n: nat): real { Max(0.0, opening) + n as real * SELL_SLACK }

  lemma SellBoundGrows(opening: real, sold: real, n: nat, amount: real)
    ensures SellBound(opening, 0) >= 0.0
    ensures sold <= SellBound(opening, n) && amount <= Max(0.0, opening - sold) + SELL_SLACK ==>
              sold + amount <= SellBound(opening, n + 1)
  {
    assert (n + 1) as real * SELL_SLACK == n as real * SELL_SLACK + SELL_SLACK;
  }

  /** Over every chronological run of calls the guard lets through, on whatever names, dates and positions, the
      account sells of a name on a date at most what it held of it when the date opened, up to the tolerance of
      each sell order: shares bought today cannot leave today. */
  lemma {:induction false} GuardedSellsWithinOpening(a: Account, steps: seq<Step>, rules: Rules, date: int, name: string)
    requires rules.Valid() && a.locked == map[] && GuardedRun(a, steps, rules) && Chronological(steps)
    ensures SoldOn(steps, date, name) <= SellBound(OpeningHeld(a, steps, date, name), SellOrders(steps, date, name))
    decreases |steps|
  {
    hide AccountAfter, LockedNext, LetThrough, SellBound, Account.Held, Account.Locked;
    SellBoundGrows(OpeningHeld(a, steps, date, name), 0.0, 0, 0.0);
    if steps != [] {
      var front, last := steps[..|steps| - 1], steps[|steps| - 1];
      if last.order.date < date {
        NothingYet(a, steps, date, name);
      } else {
        GuardedSellsWithinOpening(a, front, rules, date, name);
        assert Earlier(steps, date) == Earlier(front, date);
        if SellsOn(last, date, name) {
          SettledIsOpeningLessSold(a, front, rules, date, name);
          SellIsSettled(AccountAfter(a, front), last, rules, date, name);
          SellBoundGrows(OpeningHeld(a, front, date, name), SoldOn(front, date, name), SellOrders(front, date, name), last.deal.amount);
        }
      }
    }
  }
}
