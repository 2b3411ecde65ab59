/** The rank-buffer rule twice: the decision replay (backtesting/topk_dropout.py, `rank_buffer_decision`)
    and the execution strategy that mirrors it (backtesting/qlib_strategies.py, `RankBufferStrategy`). */
module RankBuffer {
  import opened Basics
  import opened Quotes
  import opened Sorting

  datatype RankBufferPolicy = RankBufferPolicy(
    targetSize: int, entryRank: int, exitRank: int, maxReplacements: int, holdThresh: int,
    onlyTradable: bool, forbidAllTradeAtLimit: bool)
  {
    predicate Valid() {
      targetSize > 0 && 0 < entryRank < exitRank && maxReplacements > 0 && holdThresh >= 0
    }
  }

  /** What one day shows the rule: the ranking, best first, the quotes, and how long names were held. */
  datatype Day = Day(ranked: seq<string>, quotes: map<string, Quote>, holdingDays: map<string, int>) {
    ghost predicate Valid() { Distinct(ranked) }

    function Days(name: string): int { if name in holdingDays then holdingDays[name] else 0 }
  }

  datatype Selection = Selection(sells: seq<string>, buys: seq<string>)

  // ----- ranks

  /** The one-based rank; an unranked name comes after all ranked ones. */
  function RankOf(ranked: seq<string>, name: string): (r: nat)
    ensures r >= 1
    ensures name !in ranked ==> r == |ranked| + 1
    ensures name in ranked ==> r <= |ranked| && ranked[r - 1] == name
  {
    if ranked == [] || ranked[0] == name then 1 else 1 + RankOf(ranked[1..], name)
  }

  lemma {:induction false} RankAt(ranked: seq<string>, i: nat)
    requires Distinct(ranked) && i < |ranked|
    ensures RankOf(ranked, ranked[i]) == i + 1
  {
    if i > 0 {
      assert ranked[0] != ranked[i];
      RankAt(ranked[1..], i - 1);
    }
  }

  /** Outside the hold buffer. */
  predicate Breached(policy: RankBufferPolicy, ranked: seq<string>, name: string) {
    name !in ranked || RankOf(ranked, name) > policy.exitRank
  }

  /** Worst rank first, then by name. */
  function WorstFirst(ranked: seq<string>): Order<string> {
    (a, b) => RankOf(ranked, a) > RankOf(ranked, b) || (RankOf(ranked, a) == RankOf(ranked, b) && StringLe(a, b))
  }

  lemma WorstFirstOrder(ranked: seq<string>)
    ensures TotalOrder(WorstFirst(ranked)) && Antisymmetric(WorstFirst(ranked))
  {
    hide RankOf, StringLe;
    StringLeOrder();
  }

  // ----- filters

  function Keep(values: seq<string>, allowed: set<string>): (r: seq<string>)
    ensures forall x :: x in r <==> x in values && x in allowed
    ensures |r| <= |values|
  {
    if values == [] then []
    else if values[0] in allowed then [values[0]] + Keep(values[1..], allowed)
    else Keep(values[1..], allowed)
  }

  lemma {:induction false} KeepAppend(a: seq<string>, b: seq<string>, allowed: set<string>)
    ensures Keep(a + b, allowed) == Keep(a, allowed) + Keep(b, allowed)
  {
    if a == [] {
      assert a + b == b;
    } else {
      KeepAppend(a[1..], b, allowed);
      assert (a + b)[0] == a[0] && (a + b)[1..] == a[1..] + b;
      Concatenated(if a[0] in allowed then [a[0]] else [], Keep(a[1..], allowed), Keep(b, allowed));
    }
  }

  lemma KeepNext(values: seq<string>, k: nat, allowed: set<string>)
    requires k < |values|
    ensures Keep(values[..k + 1], allowed) == Keep(values[..k], allowed) + (if values[k] in allowed then [values[k]] else [])
    ensures Keep(values[..k], allowed) <= Keep(values, allowed)
  {
    assert values[..k + 1] == values[..k] + [values[k]];
    KeepAppend(values[..k], [values[k]], allowed);
    assert [values[k]][1..] == [];
    assert values == values[..k] + values[k..];
    KeepAppend(values[..k], values[k..], allowed);
  }

  lemma {:induction false} KeepTwice(values: seq<string>, a: set<string>, b: set<string>)
    ensures Keep(values, a * b) == Keep(Keep(values, a), b)
  {
    if values != [] {
      KeepTwice(values[1..], a, b);
    }
  }

  lemma {:induction false} KeepAll(values: seq<string>, allowed: set<string>)
    requires forall x :: x in values ==> x in allowed
    ensures Keep(values, allowed) == values
  {
    if values != [] {
      KeepAll(values[1..], allowed);
    }
  }

  lemma {:induction false} KeepDistinct(values: seq<string>, allowed: set<string>)
    requires Distinct(values)
    ensures Distinct(Keep(values, allowed))
  {
    if values != [] {
      KeepDistinct(values[1..], allowed);
      assert values[0] !in values[1..];
    }
  }

  /** The first `n` survivors of a filter are the first `n` exactly when all of those survive. */
  lemma FirstSurvivors(values: seq<string>, allowed: set<string>, n: nat)
    ensures SliceTo(Keep(values, allowed), n) == SliceTo(values, n)
       <==> forall x :: x in SliceTo(values, n) ==> x in allowed
  {
    hide Keep;
    var first := SliceTo(values, n);
    if forall x :: x in first ==> x in allowed {
      var rest := values[|first|..];
      assert values == first + rest;
      KeepAppend(first, rest, allowed);
      KeepAll(first, allowed);
      assert n < |values| ==> |first| == n;
      assert n >= |values| ==> rest == [];
    } else {
      var x :| x in first && x !in allowed;
      assert x !in Keep(values, allowed);
      assert forall y :: y in SliceTo(Keep(values, allowed), n) ==> y in Keep(values, allowed);
    }
  }

  // ----- the selection both sides promise

  function SellCandidates(policy: RankBufferPolicy, ranked: seq<string>, current: seq<string>): seq<string> {
    Sort(WorstFirst(ranked), Keep(current, set x | x in current && Breached(policy, ranked, x)))
  }

  /** Names held long enough, and allowed to be sold. */
  function Sellable(policy: RankBufferPolicy, day: Day, current: seq<string>, allowed: set<string>): set<string> {
    set x | x in current && day.Days(x) >= policy.holdThresh && x in allowed
  }

  /** Names not held, and allowed to be bought. */
  function Buyable(day: Day, current: seq<string>, allowed: set<string>): set<string> {
    set x | x in day.ranked && x !in current && x in allowed
  }

  function Sells(policy: RankBufferPolicy, day: Day, current: seq<string>, allowed: set<string>): seq<string> {
    SliceTo(Keep(SellCandidates(policy, day.ranked, current), Sellable(policy, day, current, allowed)), policy.maxReplacements)
  }

  /** How many buys the open slots and the replacement cap leave. */
  function Openings(policy: RankBufferPolicy, held: nat, sold: nat): (n: nat)
    requires policy.Valid()
  {
    var slots := if policy.targetSize - (held - sold) > 0 then policy.targetSize - (held - sold) else 0;
    if slots <= policy.maxReplacements then slots else policy.maxReplacements
  }

  function Buys(policy: RankBufferPolicy, day: Day, current: seq<string>, sold: nat, allowed: set<string>): seq<string>
    requires policy.Valid()
  {
    SliceTo(Keep(SliceTo(day.ranked, policy.entryRank), Buyable(day, current, allowed)), Openings(policy, |current|, sold))
  }

  function Select(policy: RankBufferPolicy, day: Day, current: seq<string>, canSell: set<string>, canBuy: set<string>): Selection
    requires policy.Valid()
  {
    var sells := Sells(policy, day, current, canSell);
    Selection(sells, Buys(policy, day, current, |sells|, canBuy))
  }

  /** The names a side may sell: `checks` says whether it looks at the quotes at all. */
  function CanSell(policy: RankBufferPolicy, day: Day, current: seq<string>, checks: bool): set<string> {
    set x | x in current && (!checks || QuoteFlags(day.quotes, policy.forbidAllTradeAtLimit, x).sell)
  }

  function CanBuy(policy: RankBufferPolicy, day: Day, checks: bool): set<string> {
    set x | x in day.ranked && (!checks || QuoteFlags(day.quotes, policy.forbidAllTradeAtLimit, x).buy)
  }

  /** The decision replay always looks at the flags; no quotes means every flag is set. */
  function DecisionSelects(policy: RankBufferPolicy, day: Day, current: seq<string>): Selection
    requires policy.Valid()
  {
    Select(policy, day, current, CanSell(policy, day, current, true), CanBuy(policy, day, true))
  }

  /** `rank_buffer_decision` as a whole: it raises on an empty ranking, and when quotes are required and there
      are none. */
  function Replay(policy: RankBufferPolicy, day: Day, current: seq<string>): Result<Selection>
    requires policy.Valid()
  {
    if day.ranked == [] then Err("scores are empty")
    else if policy.onlyTradable && day.quotes == map[] then Err("quotes are required when only_tradable is enabled")
    else Ok(DecisionSelects(policy, day, current))
  }

  /** The strategy asks the exchange only when `onlyTradable` is set. */
  function StrategySelects(policy: RankBufferPolicy, day: Day, current: seq<string>): Selection
    requires policy.Valid()
  {
    Select(policy, day, current, CanSell(policy, day, current, policy.onlyTradable), CanBuy(policy, day, policy.onlyTradable))
  }

  // ----- the two loops

  datatype BlockedReason = MaxReplacements | HoldThreshold | NotTradableSell

  lemma RetainedCount(current: seq<string>, sells: seq<string>)
    requires Distinct(current) && Distinct(sells) && forall x :: x in sells ==> x in current
    ensures |Keep(current, Elements(current) - Elements(sells))| == |current| - |sells|
    ensures |sells| <= |current|
  {
    var retained := Keep(current, Elements(current) - Elements(sells));
    KeepDistinct(current, Elements(current) - Elements(sells));
    DistinctCardinality(retained);
    DistinctCardinality(current);
    DistinctCardinality(sells);
    assert Elements(retained) == Elements(current) - Elements(sells);
    SubsetCardinality(Elements(sells), Elements(current));
  }

  lemma SellFacts(policy: RankBufferPolicy, day: Day, current: seq<string>, allowed: set<string>)
    requires policy.Valid() && Distinct(current)
    ensures var sells := Sells(policy, day, current, allowed);
      && Distinct(sells) && |sells| <= policy.maxReplacements
      && (forall x :: x in sells ==> x in current && Breached(policy, day.ranked, x) && x in allowed)
    ensures Distinct(SellCandidates(policy, day.ranked, current))
    ensures forall x :: x in SellCandidates(policy, day.ranked, current) <==> x in current && Breached(policy, day.ranked, x)
  {
    hide RankOf, WorstFirst, Sort, Keep;
    var breached := Keep(current, set x | x in current && Breached(policy, day.ranked, x));
    var candidates := SellCandidates(policy, day.ranked, current);
    KeepDistinct(current, set x | x in current && Breached(policy, day.ranked, x));
    WorstFirstOrder(day.ranked);
    SortCorrect(WorstFirst(day.ranked), breached);
    SameMultiset(candidates, breached);
    KeepDistinct(candidates, Sellable(policy, day, current, allowed));
    var sellable := Sellable(policy, day, current, allowed);
    var sells := Sells(policy, day, current, allowed);
    assert sells <= Keep(candidates, sellable);
    forall x | x in sells ensures x in candidates && x in sellable {}
  }

  lemma SameMultiset(a: seq<string>, b: seq<string>)
    requires multiset(a) == multiset(b) && Distinct(b)
    ensures Distinct(a) && forall x :: x in a <==> x in b
  {
    forall x ensures x in a <==> x in b {
      assert x in multiset(a) <==> x in multiset(b);
    }
    DistinctOnce(b);
    forall i, j | 0 <= i < j < |a| ensures a[i] != a[j] {
      if a[i] == a[j] {
        ListedTwice(a, i, j);
      }
    }
  }

  lemma ListedTwice(a: seq<string>, i: nat, j: nat)
    requires i < j < |a| && a[i] == a[j]
    ensures multiset(a)[a[i]] >= 2
  {
    assert a == a[..j] + a[j..];
    assert a[i] in a[..j] && a[j] in a[j..];
    assert a[i] in multiset(a[..j]) && a[j] in multiset(a[j..]);
  }

  lemma {:induction false} DistinctOnce(b: seq<string>)
    requires Distinct(b)
    ensures forall x :: multiset(b)[x] <= 1
  {
    if b != [] {
      DistinctOnce(b[1..]);
      assert b == [b[0]] + b[1..];
      assert b[0] !in multiset(b[1..]);
    }
  }

  lemma BuyFacts(policy: RankBufferPolicy, day: Day, current: seq<string>, sold: nat, allowed: set<string>)
    requires policy.Valid() && day.Valid()
    ensures var buys := Buys(policy, day, current, sold, allowed);
      && Distinct(buys) && |buys| <= Openings(policy, |current|, sold)
      && (forall x :: x in buys ==> x in SliceTo(day.ranked, policy.entryRank) && x !in current && x in allowed)
  {
    hide Keep;
    var entry := SliceTo(day.ranked, policy.entryRank);
    var buyable := Buyable(day, current, allowed);
    var kept := Keep(entry, buyable);
    var buys := Buys(policy, day, current, sold, allowed);
    KeepDistinct(entry, buyable);
    assert buys <= kept;
    forall x | x in buys ensures x in kept && x in entry && x in buyable {}
  }

  lemma KeepNothing(allowed: set<string>)
    ensures Keep([], allowed) == []
  {}

  /** One more name for a list that keeps the first `n` survivors. */
  lemma KeepFirst(values: seq<string>, k: nat, allowed: set<string>, n: nat)
    requires k < |values|
    ensures var before, after := SliceTo(Keep(values[..k], allowed), n), SliceTo(Keep(values[..k + 1], allowed), n);
      && (after == if |before| < n && values[k] in allowed then before + [values[k]] else before)
      && (|before| >= n ==> before == SliceTo(Keep(values, allowed), n))
      && (forall x :: x in before ==> x in values[..k])
  {
    hide Keep;
    KeepNext(values, k, allowed);
    var kept := Keep(values[..k], allowed);
    forall x | x in SliceTo(kept, n) ensures x in values[..k] {
      assert x in kept;
    }
  }

  /** Why a breached holding is not sold, given the final sells. */
  predicate BlockedFor(policy: RankBufferPolicy, day: Day, sells: seq<string>, name: string, reason: BlockedReason) {
    match reason
    case MaxReplacements => |sells| == policy.maxReplacements
    case HoldThreshold => day.Days(name) < policy.holdThresh
    case NotTradableSell => day.Days(name) >= policy.holdThresh && !QuoteFlags(day.quotes, policy.forbidAllTradeAtLimit, name).sell
  }

  /** `rank_buffer_decision`: one pass over the sell candidates that records why a sell is blocked, then
      one pass down the ranking. */
  method RankBufferDecision(policy: RankBufferPolicy, day: Day, current: seq<string>)
    returns (r: Result<Selection>, blocked: map<string, BlockedReason>)
    requires policy.Valid() && day.Valid() && Distinct(current)
    ensures r == Replay(policy, day, current)
    ensures r.Ok? ==> forall x ::
      x in blocked <==> x in current && Breached(policy, day.ranked, x) && x !in r.value.sells
    ensures r.Ok? ==> forall x :: x in blocked ==> BlockedFor(policy, day, r.value.sells, x, blocked[x])
  {
    hide Keep, SellCandidates, Breached, BlockedFor, Sellable, CanSell, CanBuy, SliceTo;
    if day.ranked == [] {
      return Err("scores are empty"), map[];
    }
    if policy.onlyTradable && day.quotes == map[] {
      return Err("quotes are required when only_tradable is enabled"), map[];
    }
    SellFacts(policy, day, current, CanSell(policy, day, current, true));
    var sells;
    sells, blocked := SellPass(policy, day, current);
    var buys := RefillSlots(policy, day, current, sells, true);
    r := Ok(Selection(sells, buys));
  }

  /** The sell pass of the replay. */
  method SellPass(policy: RankBufferPolicy, day: Day, current: seq<string>)
    returns (sells: seq<string>, blocked: map<string, BlockedReason>)
    requires policy.Valid() && Distinct(current)
    ensures sells == Sells(policy, day, current, CanSell(policy, day, current, true))
    ensures forall x :: x in blocked <==> x in SellCandidates(policy, day.ranked, current) && x !in sells
    ensures forall x :: x in blocked ==> BlockedFor(policy, day, sells, x, blocked[x])
  {
    hide Keep, SellCandidates, SliceTo;
    var candidates := SellCandidates(policy, day.ranked, current);
    var allowed := CanSell(policy, day, current, true);
    ghost var sellable := Sellable(policy, day, current, allowed);
    SellFacts(policy, day, current, allowed);
    sells, blocked := [], map[];
    KeepNothing(sellable);
    for k := 0 to |candidates|
      invariant sells == SliceTo(Keep(candidates[..k], sellable), policy.maxReplacements)
      invariant |sells| <= policy.maxReplacements
      invariant forall x :: x in blocked <==> x in candidates[..k] && x !in sells
      invariant forall x :: x in blocked ==> BlockedFor(policy, day, sells, x, blocked[x])
    {
      var name := candidates[k];
      KeepFirst(candidates, k, sellable, policy.maxReplacements);
      NewCandidate(policy, day, current, k);
      if |sells| >= policy.maxReplacements {
        blocked := blocked[name := MaxReplacements];
      } else if day.Days(name) < policy.holdThresh {
        blocked := blocked[name := HoldThreshold];
      } else if !QuoteFlags(day.quotes, policy.forbidAllTradeAtLimit, name).sell {
        blocked := blocked[name := NotTradableSell];
      } else {
        sells := sells + [name];
      }
    }
    assert candidates[..|candidates|] == candidates;
  }

  /** The next candidate is held and was not met before. */
  lemma NewCandidate(policy: RankBufferPolicy, day: Day, current: seq<string>, k: nat)
    requires policy.Valid() && Distinct(current) && k < |SellCandidates(policy, day.ranked, current)|
    ensures var candidates := SellCandidates(policy, day.ranked, current);
      && candidates[k] in current && candidates[k] !in candidates[..k]
      && candidates[..k + 1] == candidates[..k] + [candidates[k]]
  {
    hide SellCandidates;
    SellFacts(policy, day, current, {});
    assert SellCandidates(policy, day.ranked, current)[k] in SellCandidates(policy, day.ranked, current);
  }

  /** The selection of `RankBufferStrategy.generate_trade_decision`: the sell pass stops at the
      replacement cap and asks the exchange only under `onlyTradable`. */
  method RankBufferStrategySelect(policy: RankBufferPolicy, day: Day, stockList: seq<string>) returns (r: Selection)
    requires policy.Valid() && day.Valid() && Distinct(stockList)
    ensures r == StrategySelects(policy, day, stockList)
  {
    hide Keep, SellCandidates, SliceTo;
    var candidates := SellCandidates(policy, day.ranked, stockList);
    var allowed := CanSell(policy, day, stockList, policy.onlyTradable);
    ghost var sellable := Sellable(policy, day, stockList, allowed);
    SellFacts(policy, day, stockList, allowed);
    var sells := [];
    KeepNothing(sellable);
    var k := 0;
    while k < |candidates|
      invariant 0 <= k <= |candidates|
      invariant sells == SliceTo(Keep(candidates[..k], sellable), policy.maxReplacements)
    {
      var name := candidates[k];
      KeepFirst(candidates, k, sellable, policy.maxReplacements);
      NewCandidate(policy, day, stockList, k);
      if |sells| >= policy.maxReplacements {
        break;
      }
      k := k + 1;
      if day.Days(name) < policy.holdThresh {
        continue;
      }
      if policy.onlyTradable && !QuoteFlags(day.quotes, policy.forbidAllTradeAtLimit, name).sell {
        continue;
      }
      sells := sells + [name];
    }
    assert candidates[..|candidates|] == candidates;
    assert sells == Sells(policy, day, stockList, allowed);
    var buys := RefillSlots(policy, day, stockList, sells, policy.onlyTradable);
    r := Selection(sells, buys);
  }

  /** The refill pass both sides share: walk down the ranking until the slots or the entry rank run out. */
  method RefillSlots(policy: RankBufferPolicy, day: Day, current: seq<string>, sells: seq<string>, checks: bool)
    returns (buys: seq<string>)
    requires policy.Valid() && day.Valid() && Distinct(current)
    requires Distinct(sells) && forall x :: x in sells ==> x in current
    ensures buys == Buys(policy, day, current, |sells|, CanBuy(policy, day, checks))
  {
    hide RankOf, Keep, QuoteFlags;
    var retained := Keep(current, (set x | x in current) - (set x | x in sells));
    RetainedNames(current, sells);
    var openings := Openings(policy, |current|, |current| - |retained|);
    var entry := SliceTo(day.ranked, policy.entryRank);
    ghost var buyable := Buyable(day, current, CanBuy(policy, day, checks));
    buys := [];
    KeepNothing(buyable);
    var k := 0;
    while k < |day.ranked|
      invariant 0 <= k <= |entry|
      invariant buys == SliceTo(Keep(entry[..k], buyable), openings)
    {
      var name := day.ranked[k];
      RankAt(day.ranked, k);
      if k < |entry| {
        KeepFirst(entry, k, buyable, openings);
      }
      if |buys| >= openings || RankOf(day.ranked, name) > policy.entryRank {
        break;
      }
      k := k + 1;
      if name in retained || name in sells {
        continue;
      }
      if checks && !QuoteFlags(day.quotes, policy.forbidAllTradeAtLimit, name).buy {
        continue;
      }
      buys := buys + [name];
    }
    assert entry[..|entry|] == entry;
  }

  /** A holding is retained or sold, and the counts add up. */
  lemma RetainedNames(current: seq<string>, sells: seq<string>)
    requires Distinct(current) && Distinct(sells) && forall x :: x in sells ==> x in current
    ensures var retained := Keep(current, (set x | x in current) - (set x | x in sells));
      |retained| == |current| - |sells| && forall x :: x in retained || x in sells <==> x in current
  {
    hide Keep;
    RetainedCount(current, sells);
    assert (set x | x in current) == Elements(current) && (set x | x in sells) == Elements(sells);
  }

  // ----- the two sides agree

  /** Candidates do not depend on the order in which holdings are listed. */
  lemma CandidatesIgnoreOrder(policy: RankBufferPolicy, ranked: seq<string>, a: seq<string>, b: seq<string>)
    requires multiset(a) == multiset(b)
    ensures SellCandidates(policy, ranked, a) == SellCandidates(policy, ranked, b)
  {
    hide RankOf, WorstFirst, Sort, Keep;
    MultisetMembers(a, b);
    var breached := set x | x in a && Breached(policy, ranked, x);
    assert breached == set x | x in b && Breached(policy, ranked, x);
    KeepMultiset(a, b, breached);
    WorstFirstOrder(ranked);
    SortPermutation(WorstFirst(ranked), Keep(a, breached), Keep(b, breached));
  }

  lemma MultisetMembers(a: seq<string>, b: seq<string>)
    requires multiset(a) == multiset(b)
    ensures |a| == |b| && forall x :: x in a <==> x in b
  {
    assert |multiset(a)| == |a| && |multiset(b)| == |b|;
    forall x ensures x in a <==> x in b {
      assert x in multiset(a) <==> x in multiset(b);
    }
  }

  lemma {:induction false} KeepCount(a: seq<string>, allowed: set<string>, x: string)
    ensures multiset(Keep(a, allowed))[x] == if x in allowed then multiset(a)[x] else 0
  {
    if a != [] {
      KeepCount(a[1..], allowed, x);
      assert a == [a[0]] + a[1..];
    }
  }

  lemma KeepMultiset(a: seq<string>, b: seq<string>, allowed: set<string>)
    requires multiset(a) == multiset(b)
    ensures multiset(Keep(a, allowed)) == multiset(Keep(b, allowed))
  {
    forall x ensures multiset(Keep(a, allowed))[x] == multiset(Keep(b, allowed))[x] {
      KeepCount(a, allowed, x);
      KeepCount(b, allowed, x);
    }
  }

  /** What is due for sale and purchase before any tradability is looked at. */
  function DueSells(policy: RankBufferPolicy, day: Day, current: seq<string>): seq<string> {
    Sells(policy, day, current, set x | x in current)
  }

  function DueBuys(policy: RankBufferPolicy, day: Day, current: seq<string>): seq<string>
    requires policy.Valid()
  {
    Buys(policy, day, current, |DueSells(policy, day, current)|, set x | x in day.ranked)
  }

  /** Everything due may be traded by its quotes. */
  predicate DueIsTradable(policy: RankBufferPolicy, day: Day, current: seq<string>)
    requires policy.Valid()
  {
    && (forall x :: x in DueSells(policy, day, current) ==> QuoteFlags(day.quotes, policy.forbidAllTradeAtLimit, x).sell)
    && (forall x :: x in DueBuys(policy, day, current) ==> QuoteFlags(day.quotes, policy.forbidAllTradeAtLimit, x).buy)
  }

  /** The replay answers with the ordered sells and buys of the strategy, whatever order each lists the
      holdings in, exactly when there is a ranking, and either `onlyTradable` is set and there are quotes, or
      it is not set and everything due is tradable by the quotes. */
  lemma SidesAgreeExactlyWhen(policy: RankBufferPolicy, day: Day, current: seq<string>, stockList: seq<string>)
    requires policy.Valid() && day.Valid() && Distinct(current) && multiset(current) == multiset(stockList)
    ensures Replay(policy, day, current) == Ok(StrategySelects(policy, day, stockList))
       <==> day.ranked != [] && if policy.onlyTradable then day.quotes != map[] else DueIsTradable(policy, day, current)
  {
    hide Sells, Buys, QuoteFlags;
    SelectIgnoresOrder(policy, day, current, stockList, policy.onlyTradable);
    if !policy.onlyTradable {
      SellsAgree(policy, day, current);
      assert CanSell(policy, day, current, false) == set x | x in current;
      assert CanBuy(policy, day, false) == set x | x in day.ranked;
      BuysAgree(policy, day, current, |DueSells(policy, day, current)|);
    }
  }

  lemma SelectIgnoresOrder(policy: RankBufferPolicy, day: Day, a: seq<string>, b: seq<string>, checks: bool)
    requires policy.Valid() && multiset(a) == multiset(b)
    ensures Select(policy, day, a, CanSell(policy, day, a, checks), CanBuy(policy, day, checks))
         == Select(policy, day, b, CanSell(policy, day, b, checks), CanBuy(policy, day, checks))
  {
    hide Keep, SellCandidates, QuoteFlags, SliceTo;
    CandidatesIgnoreOrder(policy, day.ranked, a, b);
    MultisetMembers(a, b);
    assert CanSell(policy, day, a, checks) == CanSell(policy, day, b, checks);
    var allowed := CanSell(policy, day, a, checks);
    assert Sellable(policy, day, a, allowed) == Sellable(policy, day, b, allowed);
    assert Buyable(day, a, CanBuy(policy, day, checks)) == Buyable(day, b, CanBuy(policy, day, checks));
  }

  lemma SellsAgree(policy: RankBufferPolicy, day: Day, current: seq<string>)
    requires policy.Valid() && Distinct(current)
    ensures Sells(policy, day, current, CanSell(policy, day, current, true)) == DueSells(policy, day, current)
       <==> forall x :: x in DueSells(policy, day, current) ==> QuoteFlags(day.quotes, policy.forbidAllTradeAtLimit, x).sell
  {
    hide Keep, SellCandidates, QuoteFlags, SliceTo;
    var all := set x | x in current;
    var flagged := CanSell(policy, day, current, true);
    var candidates := SellCandidates(policy, day.ranked, current);
    var held := Sellable(policy, day, current, all);
    assert Sellable(policy, day, current, flagged) == held * flagged;
    KeepTwice(candidates, held, flagged);
    FirstSurvivors(Keep(candidates, held), flagged, policy.maxReplacements);
    SellFacts(policy, day, current, all);
  }

  lemma BuysAgree(policy: RankBufferPolicy, day: Day, current: seq<string>, sold: nat)
    requires policy.Valid() && day.Valid()
    ensures Buys(policy, day, current, sold, CanBuy(policy, day, true)) == Buys(policy, day, current, sold, set x | x in day.ranked)
       <==> forall x :: x in Buys(policy, day, current, sold, set x | x in day.ranked)
                        ==> QuoteFlags(day.quotes, policy.forbidAllTradeAtLimit, x).buy
  {
    hide Keep, QuoteFlags, SliceTo;
    var all := set x | x in day.ranked;
    var flagged := CanBuy(policy, day, true);
    var entry := SliceTo(day.ranked, policy.entryRank);
    var open := Buyable(day, current, all);
    assert Buyable(day, current, flagged) == open * flagged;
    KeepTwice(entry, open, flagged);
    FirstSurvivors(Keep(entry, open), flagged, Openings(policy, |current|, sold));
    BuyFacts(policy, day, current, sold, all);
  }

  /** A paused holding outside the ranking: the replay holds it, the strategy sells it. */
  lemma SidesCanDisagree()
    ensures var policy := RankBufferPolicy(1, 1, 2, 1, 0, false, true);
      var day := Day(["B"], map["A" := Quote(1.0, false, false)], map[]);
      && policy.Valid() && day.Valid()
      && Replay(policy, day, ["A"]).Ok? && Replay(policy, day, ["A"]).value.sells == []
      && StrategySelects(policy, day, ["A"]).sells == ["A"]
  {
    var policy := RankBufferPolicy(1, 1, 2, 1, 0, false, true);
    var day := Day(["B"], map["A" := Quote(1.0, false, false)], map[]);
    assert ["A"][0] in {"A"} && ["A"][1..] == [];
    assert (set x | x in ["A"] && Breached(policy, ["B"], x)) == {"A"};
    assert Keep(["A"], {"A"}) == ["A"] && Keep(["A"], {}) == [];
    assert Sort(WorstFirst(["B"]), ["A"]) == Insert(WorstFirst(["B"]), "A", Sort(WorstFirst(["B"]), [])) == ["A"];
    assert Sellable(policy, day, ["A"], CanSell(policy, day, ["A"], true)) == {};
    assert Sellable(policy, day, ["A"], CanSell(policy, day, ["A"], false)) == {"A"};
  }

  /** Without quotes, and with no need for them, the two sides always agree. */
  lemma SidesAgreeWithoutQuotes(policy: RankBufferPolicy, day: Day, current: seq<string>, stockList: seq<string>)
    requires policy.Valid() && day.Valid() && Distinct(current) && multiset(current) == multiset(stockList)
    requires day.ranked != [] && !policy.onlyTradable && day.quotes == map[]
    ensures Replay(policy, day, current) == Ok(StrategySelects(policy, day, stockList))
  {
    SidesAgreeExactlyWhen(policy, day, current, stockList);
  }

  // ----- quiescence under a fixed ranking

  /** Holdings past the hold buffer plus unheld names inside the entry rank. */
  ghost function Pending(policy: RankBufferPolicy, ranked: seq<string>, held: set<string>): nat {
    |PastBuffer(policy, ranked, held)| + |Missing(policy, ranked, held)|
  }

  ghost function PastBuffer(policy: RankBufferPolicy, ranked: seq<string>, held: set<string>): set<string> {
    set x | x in held && Breached(policy, ranked, x)
  }

  ghost function Missing(policy: RankBufferPolicy, ranked: seq<string>, held: set<string>): set<string> {
    Elements(SliceTo(ranked, policy.entryRank)) - held
  }

  /** One day of a run: the listing of the holdings, what the day shows, and which orders filled. */
  datatype Fills = Fills(listing: seq<string>, day: Day, sold: set<string>, bought: set<string>)

  ghost predicate DayRuns(policy: RankBufferPolicy, ranked: seq<string>, held: set<string>, f: Fills)
    requires policy.Valid()
  {
    && f.day.ranked == ranked && Distinct(f.listing) && Elements(f.listing) == held
    && (forall x :: x in f.sold ==> x in DecisionSelects(policy, f.day, f.listing).sells)
    && (forall x :: x in f.bought ==> x in DecisionSelects(policy, f.day, f.listing).buys)
  }

  ghost function Next(held: set<string>, f: Fills): set<string> { held - f.sold + f.bought }

  ghost predicate Runs(policy: RankBufferPolicy, ranked: seq<string>, held: set<string>, fills: seq<Fills>)
    requires policy.Valid()
    decreases |fills|
  {
    fills == [] || (DayRuns(policy, ranked, held, fills[0]) && Runs(policy, ranked, Next(held, fills[0]), fills[1..]))
  }

  ghost function After(held: set<string>, fills: seq<Fills>): set<string>
    decreases |fills|
  {
    if fills == [] then held else After(Next(held, fills[0]), fills[1..])
  }

  ghost function OrdersFilled(fills: seq<Fills>): nat {
    if fills == [] then 0 else |fills[0].sold| + |fills[0].bought| + OrdersFilled(fills[1..])
  }

  /** A name inside the entry rank is inside the hold buffer. */
  lemma EntryNotBreached(policy: RankBufferPolicy, ranked: seq<string>, x: string)
    requires policy.Valid() && Distinct(ranked) && x in SliceTo(ranked, policy.entryRank)
    ensures !Breached(policy, ranked, x)
  {
    hide RankOf;
    var entry := SliceTo(ranked, policy.entryRank);
    var i :| 0 <= i < |entry| && entry[i] == x;
    RankAt(ranked, i);
  }

  /** A filled sell was held past the buffer; a filled buy was missing. */
  lemma FilledWasPending(policy: RankBufferPolicy, ranked: seq<string>, held: set<string>, f: Fills)
    requires policy.Valid() && Distinct(ranked) && DayRuns(policy, ranked, held, f)
    ensures f.sold <= PastBuffer(policy, ranked, held) && f.bought <= Missing(policy, ranked, held)
  {
    hide Sells, Buys, QuoteFlags, Breached;
    var canSell := CanSell(policy, f.day, f.listing, true);
    SellFacts(policy, f.day, f.listing, canSell);
    BuyFacts(policy, f.day, f.listing, |Sells(policy, f.day, f.listing, canSell)|, CanBuy(policy, f.day, true));
    assert forall x :: x in f.listing <==> x in held;
  }

  /** Each filled order reduces what is pending by exactly one. */
  lemma DayReducesPending(policy: RankBufferPolicy, ranked: seq<string>, held: set<string>, f: Fills)
    requires policy.Valid() && Distinct(ranked) && DayRuns(policy, ranked, held, f)
    ensures Pending(policy, ranked, Next(held, f)) + |f.sold| + |f.bought| == Pending(policy, ranked, held)
  {
    hide Breached, DayRuns;
    FilledWasPending(policy, ranked, held, f);
    var past, missing := PastBuffer(policy, ranked, held), Missing(policy, ranked, held);
    forall x | x in missing ensures !Breached(policy, ranked, x) { EntryNotBreached(policy, ranked, x); }
    forall x | x in past ensures x !in Elements(SliceTo(ranked, policy.entryRank)) {
      if x in SliceTo(ranked, policy.entryRank) {
        EntryNotBreached(policy, ranked, x);
      }
    }
    assert PastBuffer(policy, ranked, Next(held, f)) == past - f.sold;
    assert Missing(policy, ranked, Next(held, f)) == missing - f.bought;
    DifferenceSize(past, f.sold);
    DifferenceSize(missing, f.bought);
  }

  lemma DifferenceSize(a: set<string>, b: set<string>)
    requires b <= a
    ensures |a - b| + |b| == |a|
  {
    assert a == (a - b) + b;
  }

  /** Over a whole run the orders filled and what is still pending add up to what was pending at the start,
      so with an unchanged ranking at most that many orders ever fill. */
  lemma {:induction false} RunQuiesces(policy: RankBufferPolicy, ranked: seq<string>, held: set<string>, fills: seq<Fills>)
    requires policy.Valid() && Distinct(ranked) && Runs(policy, ranked, held, fills)
    ensures OrdersFilled(fills) + Pending(policy, ranked, After(held, fills)) == Pending(policy, ranked, held)
    decreases |fills|
  {
    if fills != [] {
      hide Pending;
      DayReducesPending(policy, ranked, held, fills[0]);
      RunQuiesces(policy, ranked, Next(held, fills[0]), fills[1..]);
    }
  }

  /** Sold for good, or bought for good. */
  ghost predicate Settled(policy: RankBufferPolicy, ranked: seq<string>, held: set<string>, x: string) {
    if x in held then x in SliceTo(ranked, policy.entryRank) else Breached(policy, ranked, x)
  }

  lemma {:induction false} SettledNeverTrades(policy: RankBufferPolicy, ranked: seq<string>, held: set<string>, fills: seq<Fills>, x: string, k: nat)
    requires policy.Valid() && Distinct(ranked) && Runs(policy, ranked, held, fills) && k < |fills|
    requires Settled(policy, ranked, held, x)
    ensures x !in fills[k].sold && x !in fills[k].bought
    decreases |fills|
  {
    hide Breached, DayRuns;
    FilledWasPending(policy, ranked, held, fills[0]);
    if x in SliceTo(ranked, policy.entryRank) {
      EntryNotBreached(policy, ranked, x);
    }
    if k > 0 {
      SettledNeverTrades(policy, ranked, Next(held, fills[0]), fills[1..], x, k - 1);
    }
  }

  /** With an unchanged ranking no name trades twice, in either direction. */
  lemma {:induction false} NoNameTradesTwice(policy: RankBufferPolicy, ranked: seq<string>, held: set<string>, fills: seq<Fills>,
                                             x: string, j: nat, k: nat)
    requires policy.Valid() && Distinct(ranked) && Runs(policy, ranked, held, fills) && j < k < |fills|
    requires x in fills[j].sold || x in fills[j].bought
    ensures x !in fills[k].sold && x !in fills[k].bought
    decreases |fills|
  {
    hide Breached, DayRuns;
    if j > 0 {
      NoNameTradesTwice(policy, ranked, Next(held, fills[0]), fills[1..], x, j - 1, k - 1);
    } else {
      FilledWasPending(policy, ranked, held, fills[0]);
      if x in SliceTo(ranked, policy.entryRank) {
        EntryNotBreached(policy, ranked, x);
      }
      SettledNeverTrades(policy, ranked, Next(held, fills[0]), fills[1..], x, k - 1);
    }
  }

  /** When every planned order fills, holdings stay within the larger of their number and the target. */
  lemma FilledPlanSize(policy: RankBufferPolicy, day: Day, current: seq<string>)
    requires policy.Valid() && day.Valid() && Distinct(current)
    ensures var plan := DecisionSelects(policy, day, current);
      var limit := if |current| > policy.targetSize then |current| else policy.targetSize;
      |Elements(current) - Elements(plan.sells) + Elements(plan.buys)| <= limit
  {
    hide Sells, Buys, QuoteFlags, Breached;
    var canSell := CanSell(policy, day, current, true);
    var plan := DecisionSelects(policy, day, current);
    SellFacts(policy, day, current, canSell);
    BuyFacts(policy, day, current, |plan.sells|, CanBuy(policy, day, true));
    DistinctCardinality(current);
    DistinctCardinality(plan.sells);
    DistinctCardinality(plan.buys);
    DifferenceSize(Elements(current), Elements(plan.sells));
    var kept := Elements(current) - Elements(plan.sells);
    assert kept !! Elements(plan.buys);
    assert |kept + Elements(plan.buys)| == |kept| + |plan.buys|;
  }
}
