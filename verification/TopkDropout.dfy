/** The TopkDropout selection rule (backtesting/topk_dropout.py, `topk_dropout_decision`).
    Ties in the score may be broken in any way: the lemmas hold for every sorted order. */
module TopkDropout {
  import opened Basics
  import opened Quotes

  datatype TopkDropoutPolicy = TopkDropoutPolicy(
    topk: int, nDrop: int, holdThresh: int, onlyTradable: bool, forbidAllTradeAtLimit: bool)
  {
    predicate Valid() { topk > 0 && nDrop > 0 && holdThresh >= 0 }
  }

  type Scores = map<string, real>

  /** `a` ranks no worse than `b`; unscored names come last. */
  predicate AtLeast(score: Scores, a: string, b: string) {
    b in score ==> a in score && score[a] >= score[b]
  }

  /** `order` lists exactly `names`, best score first. */
  ghost predicate IsRanking(score: Scores, order: seq<string>, names: set<string>) {
    && Distinct(order)
    && (forall x :: x in order <==> x in names)
    && (forall i, j :: 0 <= i < j < |order| ==> AtLeast(score, order[i], order[j]))
  }

  /** The membership and tradability filters the rule applies to a list of names. */
  datatype Filter =
    | NotIn(names: seq<string>)
    | OneOf(names: seq<string>)
    | Passes(policy: TopkDropoutPolicy, quotes: map<string, Quote>)
  {
    predicate Admits(name: string) {
      match this
      case NotIn(names) => name !in names
      case OneOf(names) => name in names
      case Passes(policy, quotes) =>
        !policy.onlyTradable || QuoteFlags(quotes, policy.forbidAllTradeAtLimit, name).candidate
    }
  }

  // ----- the helpers `_first_n` and `_last_n`

  function Tradable(values: seq<string>, pass: Filter): (r: seq<string>)
    ensures forall x :: x in r <==> x in values && pass.Admits(x)
    ensures |r| <= |values|
  {
    if values == [] then []
    else if pass.Admits(values[0]) then [values[0]] + Tradable(values[1..], pass)
    else Tradable(values[1..], pass)
  }

  function LastOf<T>(s: seq<T>, n: int): (r: seq<T>)
    requires n >= 0
    ensures |r| == if n >= |s| then |s| else n
    ensures forall i :: 0 <= i < |r| ==> r[i] == s[|s| - |r| + i]
  {
    if n >= |s| then s else s[|s| - n..]
  }

  /** The first `n` tradable names; asking for none or fewer still returns one. */
  function FirstTradable(values: seq<string>, n: int, pass: Filter): seq<string> {
    SliceTo(Tradable(values, pass), if n >= 1 then n else 1)
  }

  lemma TradableCons(x: string, s: seq<string>, pass: Filter)
    ensures Tradable([x] + s, pass) == (if pass.Admits(x) then [x] else []) + Tradable(s, pass)
  {
    assert ([x] + s)[1..] == s;
  }

  method FirstN(values: seq<string>, n: int, tradable: Option<Filter>) returns (selected: seq<string>)
    ensures selected == if tradable.None? then SliceTo(values, n) else FirstTradable(values, n, tradable.value)
  {
    if tradable.None? {
      return SliceTo(values, n);
    }
    var pass := tradable.value;
    selected := [];
    ghost var rest, whole := values, Tradable(values, pass);
    for k := 0 to |values|
      invariant rest == values[k..]
      invariant selected + Tradable(rest, pass) == whole
      invariant |selected| < n || selected == []
    {
      hide Tradable, SliceTo, Filter.Admits;
      PassOrSkip(values[k], rest, pass, selected, whole);
      rest := rest[1..];
      if pass.Admits(values[k]) {
        selected := selected + [values[k]];
        PrefixIsSlice(selected, Tradable(rest, pass), n);
        if |selected| >= n {
          return;
        }
      }
    }
    assert rest == [];
    PrefixIsSlice(selected, [], n);
  }

  /** A prefix is what slicing to its length returns; a slice past the end returns everything. */
  lemma PrefixIsSlice(prefix: seq<string>, rest: seq<string>, n: int)
    ensures |prefix| == (if n >= 1 then n else 1) ==> SliceTo(prefix + rest, if n >= 1 then n else 1) == prefix
    ensures rest == [] && (|prefix| < n || prefix == []) ==> SliceTo(prefix + rest, if n >= 1 then n else 1) == prefix
  {}

  lemma PassOrSkip(x: string, rest: seq<string>, pass: Filter, selected: seq<string>, whole: seq<string>)
    requires rest != [] && rest[0] == x && selected + Tradable(rest, pass) == whole
    ensures (if pass.Admits(x) then selected + [x] else selected) + Tradable(rest[1..], pass) == whole
  {
    hide Filter.Admits;
    Concatenated(selected, [x], Tradable(rest[1..], pass));
  }

  function Reversed<T>(s: seq<T>): (r: seq<T>)
    ensures |r| == |s| && forall i :: 0 <= i < |s| ==> r[i] == s[|s| - 1 - i]
  {
    seq(|s|, i requires 0 <= i < |s| => s[|s| - 1 - i])
  }

  lemma {:induction false} TradableAppend(a: seq<string>, b: seq<string>, pass: Filter)
    ensures Tradable(a + b, pass) == Tradable(a, pass) + Tradable(b, pass)
  {
    if a == [] {
      assert a + b == b;
      assert Tradable(a, pass) == [];
    } else {
      hide *;
      var head, tail := [a[0]], a[1..];
      TradableAppend(tail, b, pass);
      TradableCons(a[0], tail, pass);
      TradableCons(a[0], tail + b, pass);
      assert a == head + tail;
      Concatenated(head, tail, b);
      Concatenated(if pass.Admits(a[0]) then head else [], Tradable(tail, pass), Tradable(b, pass));
    }
  }

  lemma ReversedCons(x: string, s: seq<string>)
    ensures Reversed([x] + s) == Reversed(s) + [x]
  {}

  lemma {:induction false} TradableReversed(s: seq<string>, pass: Filter)
    ensures Tradable(Reversed(s), pass) == Reversed(Tradable(s, pass))
  {
    hide Filter.Admits;
    if s != [] {
      TradableReversed(s[1..], pass);
      assert s == [s[0]] + s[1..];
      ReversedCons(s[0], s[1..]);
      ReversedCons(s[0], Tradable(s[1..], pass));
      TradableAppend(Reversed(s[1..]), [s[0]], pass);
      TradableCons(s[0], [], pass);
      assert [s[0]] + [] == [s[0]];
    }
  }

  lemma LastIsReversedFirst(s: seq<string>, n: int)
    requires n > 0
    ensures Reversed(SliceTo(Reversed(s), n)) == LastOf(s, n)
  {}

  method LastN(values: seq<string>, n: int, tradable: Option<Filter>) returns (selected: seq<string>)
    requires n > 0
    ensures selected == if tradable.None? then LastOf(values, n) else LastOf(Tradable(values, tradable.value), n)
  {
    if tradable.None? {
      return LastOf(values, n);
    }
    hide Tradable, LastOf, SliceTo;
    var reversed := FirstN(Reversed(values), n, tradable);
    TradableReversed(values, tradable.value);
    LastIsReversedFirst(Tradable(values, tradable.value), n);
    selected := Reversed(reversed);
  }

  // ----- the decision

  /** What one day shows the rule: the scores, the quotes, and the sorted orders it works on. */
  datatype Day = Day(
    score: Scores,
    quotes: map<string, Quote>,
    ranked: seq<string>,
    last: seq<string>,
    comb: seq<string>,
    holdingDays: map<string, int>)

  function Unseen(day: Day): seq<string> {
    Tradable(day.ranked, NotIn(day.last))
  }

  function CandidateCount(policy: TopkDropoutPolicy, day: Day): int {
    policy.nDrop + policy.topk - |day.last|
  }

  /** The best names not held that may enter. */
  function Today(policy: TopkDropoutPolicy, day: Day): seq<string> {
    if policy.onlyTradable then
      FirstTradable(Unseen(day), CandidateCount(policy, day), Passes(policy, day.quotes))
    else SliceTo(Unseen(day), CandidateCount(policy, day))
  }

  /** The worst `nDrop` tradable names of holdings and entrants together. */
  function Bottom(policy: TopkDropoutPolicy, day: Day): seq<string>
    requires policy.Valid()
  {
    LastOf(Tradable(day.comb, Passes(policy, day.quotes)), policy.nDrop)
  }

  function TheoreticalSell(policy: TopkDropoutPolicy, day: Day): seq<string>
    requires policy.Valid()
  {
    Tradable(day.last, OneOf(Bottom(policy, day)))
  }

  /** Where the slice of entrants to buy ends. */
  function BuyEnd(policy: TopkDropoutPolicy, day: Day): int
    requires policy.Valid()
  {
    |TheoreticalSell(policy, day)| + policy.topk - |day.last|
  }

  function Buy(policy: TopkDropoutPolicy, day: Day): seq<string>
    requires policy.Valid()
  {
    SliceTo(Today(policy, day), BuyEnd(policy, day))
  }

  datatype Action = SELL | BUY | HOLD

  function TargetAction(policy: TopkDropoutPolicy, day: Day, name: string): Action
    requires policy.Valid()
  {
    var flags := QuoteFlags(day.quotes, policy.forbidAllTradeAtLimit, name);
    var days := if name in day.last && name in day.holdingDays then day.holdingDays[name] else 0;
    if name in TheoreticalSell(policy, day) then
      if days < policy.holdThresh || !flags.sell then HOLD else SELL
    else if name in Buy(policy, day) && flags.buy then BUY
    else HOLD
  }

  /** The orders of the day are sorted as the code sorts them. */
  ghost predicate Observes(policy: TopkDropoutPolicy, day: Day, holdings: set<string>)
    requires policy.Valid()
  {
    && IsRanking(day.score, day.ranked, day.score.Keys)
    && IsRanking(day.score, day.last, holdings)
    && IsRanking(day.score, day.comb, holdings + Elements(Today(policy, day)))
  }

  // ----- order and size of the parts

  lemma {:induction false} TradableKeepsRanking(score: Scores, s: seq<string>, pass: Filter)
    requires Distinct(s) && forall i, j :: 0 <= i < j < |s| ==> AtLeast(score, s[i], s[j])
    ensures var r := Tradable(s, pass);
      Distinct(r) && forall i, j :: 0 <= i < j < |r| ==> AtLeast(score, r[i], r[j])
  {
    if s != [] {
      TradableKeepsRanking(score, s[1..], pass);
      var rest := Tradable(s[1..], pass);
      forall j | 0 <= j < |rest| ensures rest[j] != s[0] && AtLeast(score, s[0], rest[j]) {
        assert rest[j] in s[1..];
      }
    }
  }

  lemma {:induction false} TradableAll(s: seq<string>, pass: Filter)
    requires forall x :: x in s ==> pass.Admits(x)
    ensures Tradable(s, pass) == s
  {
    if s != [] {
      TradableAll(s[1..], pass);
    }
  }

  lemma TodayFacts(policy: TopkDropoutPolicy, day: Day, holdings: set<string>)
    requires policy.Valid() && Observes(policy, day, holdings)
    ensures var today := Today(policy, day);
      && Distinct(today)
      && (forall x :: x in today ==> x in day.score && x !in holdings && Passes(policy, day.quotes).Admits(x))
      && (forall i, j :: 0 <= i < j < |today| ==> AtLeast(day.score, today[i], today[j]))
  {
    hide Tradable, AtLeast, Filter.Admits;
    var unseen := Unseen(day);
    var today := Today(policy, day);
    TradableKeepsRanking(day.score, day.ranked, NotIn(day.last));
    TradableKeepsRanking(day.score, unseen, Passes(policy, day.quotes));
    var source := if policy.onlyTradable then Tradable(unseen, Passes(policy, day.quotes)) else unseen;
    assert today <= source;
    forall x | x in today
      ensures x in day.score && x !in holdings && Passes(policy, day.quotes).Admits(x)
    {
      assert x in source && x in unseen;
      UnseenFacts(day, holdings, x);
      PassesUnfiltered(policy, day, x);
    }
    forall i, j | 0 <= i < j < |today| ensures today[i] != today[j] && AtLeast(day.score, today[i], today[j]) {
      assert today[i] == source[i] && today[j] == source[j];
    }
  }

  lemma UnseenFacts(day: Day, holdings: set<string>, x: string)
    requires x in Unseen(day) && IsRanking(day.score, day.ranked, day.score.Keys) && IsRanking(day.score, day.last, holdings)
    ensures x in day.score && x !in holdings
  {
    assert NotIn(day.last).Admits(x);
  }

  /** Without the tradable filter every name passes. */
  lemma PassesUnfiltered(policy: TopkDropoutPolicy, day: Day, x: string)
    ensures !policy.onlyTradable ==> Passes(policy, day.quotes).Admits(x)
  {}

  lemma BottomFacts(policy: TopkDropoutPolicy, day: Day, holdings: set<string>)
    requires policy.Valid() && Observes(policy, day, holdings)
    ensures var bottom := Bottom(policy, day);
      && Distinct(bottom) && |bottom| <= policy.nDrop
      && (forall x :: x in bottom ==> x in holdings || x in Today(policy, day))
  {
    var passing := Tradable(day.comb, Passes(policy, day.quotes));
    TradableKeepsRanking(day.score, day.comb, Passes(policy, day.quotes));
    forall x | x in Bottom(policy, day) ensures x in passing {}
  }

  /** Sells are held names among the bottom ones, so at most `nDrop`; buys are unheld entrants. */
  lemma SellsAndBuys(policy: TopkDropoutPolicy, day: Day, holdings: set<string>)
    requires policy.Valid() && Observes(policy, day, holdings)
    ensures var sell, buy := TheoreticalSell(policy, day), Buy(policy, day);
      && Distinct(sell) && |sell| <= policy.nDrop && |sell| <= |holdings| && |day.last| == |holdings|
      && (forall x :: x in sell <==> x in holdings && x in Bottom(policy, day))
      && Distinct(buy) && (forall x :: x in buy ==> x in Today(policy, day) && x !in holdings)
  {
    hide Today, Bottom, Tradable;
    var sell := TheoreticalSell(policy, day);
    TodayFacts(policy, day, holdings);
    BottomFacts(policy, day, holdings);
    TradableKeepsRanking(day.score, day.last, OneOf(Bottom(policy, day)));
    DistinctCardinality(sell);
    DistinctCardinality(day.last);
    DistinctCardinality(Bottom(policy, day));
    assert Elements(day.last) == holdings;
    SubsetCardinality(Elements(sell), Elements(Bottom(policy, day)));
    SubsetCardinality(Elements(sell), holdings);
    assert Buy(policy, day) <= Today(policy, day);
  }

  // ----- size

  /** From at most `topk + nDrop` holdings the planned buys fit under that size even when no sell is executed,
      in every edge case of the two slices. */
  lemma PlannedSize(policy: TopkDropoutPolicy, day: Day, holdings: set<string>)
    requires policy.Valid() && Observes(policy, day, holdings)
    requires |holdings| <= policy.topk + policy.nDrop
    ensures |holdings| + |Buy(policy, day)| <= policy.topk + policy.nDrop
  {
    hide Bottom, Tradable, Unseen, TheoreticalSell, Observes;
    SellsAndBuys(policy, day, holdings);
  }

  /** How many entrants rank among the bottom `nDrop` names, below all but the worst holdings. */
  function EntrantsInBottom(policy: TopkDropoutPolicy, day: Day): nat
    requires policy.Valid()
  {
    |Tradable(Today(policy, day), OneOf(Bottom(policy, day)))|
  }

  lemma UnionSize(a: set<string>, b: set<string>, whole: set<string>)
    requires a !! b && (forall x :: x in whole <==> x in a || x in b)
    ensures |whole| == |a| + |b|
  {
    assert whole == a + b;
  }

  /** An oversized portfolio without the tradable filter has a full bottom, shared by sells and entrants. */
  lemma OversizedBottom(policy: TopkDropoutPolicy, day: Day, holdings: set<string>)
    requires policy.Valid() && Observes(policy, day, holdings)
    requires !policy.onlyTradable && |holdings| > policy.topk + policy.nDrop
    ensures |TheoreticalSell(policy, day)| + EntrantsInBottom(policy, day) == policy.nDrop
  {
    hide Today, Tradable, LastOf;
    var sell, bottom := TheoreticalSell(policy, day), Bottom(policy, day);
    var entrants := Tradable(Today(policy, day), OneOf(bottom));
    TodayFacts(policy, day, holdings);
    BottomFacts(policy, day, holdings);
    SellsAndBuys(policy, day, holdings);
    TradableKeepsRanking(day.score, Today(policy, day), OneOf(bottom));
    TradableAll(day.comb, Passes(policy, day.quotes));
    DistinctCardinality(day.comb);
    SubsetCardinality(holdings, Elements(day.comb));
    DistinctCardinality(sell);
    DistinctCardinality(entrants);
    DistinctCardinality(bottom);
    UnionSize(Elements(sell), Elements(entrants), Elements(bottom));
  }

  /** Above `topk + nDrop` holdings the tradable filter leaves nothing to buy. Without it both slice ends
      are negative and the number of buys is what the two cuts leave of the unheld names. */
  lemma OversizedBuys(policy: TopkDropoutPolicy, day: Day, holdings: set<string>)
    requires policy.Valid() && Observes(policy, day, holdings)
    requires |holdings| > policy.topk + policy.nDrop
    ensures var cut := 2 * (|holdings| - policy.topk - policy.nDrop) + EntrantsInBottom(policy, day);
      |Buy(policy, day)| == if policy.onlyTradable || |Unseen(day)| <= cut then 0 else |Unseen(day)| - cut
  {
    hide Bottom, Tradable, Unseen, TheoreticalSell, Observes, EntrantsInBottom;
    SellsAndBuys(policy, day, holdings);
    if !policy.onlyTradable {
      OversizedBottom(policy, day, holdings);
    }
  }

  /** Planned holdings stay within the larger of their present number and `topk + nDrop` exactly when the
      tradable filter is on, or the portfolio is not oversized, or the unheld names are used up by twice the
      excess and the entrants among the bottom names. */
  lemma SizeHoldsExactlyWhen(policy: TopkDropoutPolicy, day: Day, holdings: set<string>)
    requires policy.Valid() && Observes(policy, day, holdings)
    ensures var limit := policy.topk + policy.nDrop;
      |holdings| + |Buy(policy, day)| <= (if |holdings| > limit then |holdings| else limit)
      <==> policy.onlyTradable || |holdings| <= limit
           || |Unseen(day)| <= 2 * (|holdings| - limit) + EntrantsInBottom(policy, day)
  {
    hide Buy, Unseen, EntrantsInBottom, Observes;
    if |holdings| <= policy.topk + policy.nDrop {
      PlannedSize(policy, day, holdings);
    } else {
      OversizedBuys(policy, day, holdings);
    }
  }

  const OVERSIZED_POLICY := TopkDropoutPolicy(1, 1, 0, false, true)

  const OVERSIZED_DAY := Day(
    map["X" := 3.0, "Y" := 2.0, "Z" := 1.0], map[],
    ["X", "Y", "Z"], ["A", "B", "C"], ["X", "Y", "A", "B", "C"], map[])

  /** Three unscored holdings against a target of one: without the filter the rule still plans a buy. */
  lemma OversizedPortfolioStillBuys()
    ensures Observes(OVERSIZED_POLICY, OVERSIZED_DAY, {"A", "B", "C"})
    ensures |OVERSIZED_DAY.last| > OVERSIZED_POLICY.topk + OVERSIZED_POLICY.nDrop
    ensures Buy(OVERSIZED_POLICY, OVERSIZED_DAY) == ["X"]
  {
    hide Tradable, Today, Bottom, TheoreticalSell, IsRanking;
    OversizedToday();
    OversizedSell();
    OversizedRankings();
    assert Elements(["X", "Y"]) == {"X", "Y"};
    assert {"A", "B", "C"} + {"X", "Y"} == {"A", "B", "C", "X", "Y"};
    assert OVERSIZED_DAY.score.Keys == {"X", "Y", "Z"};
  }

  lemma OversizedRankings()
    ensures var score := map["X" := 3.0, "Y" := 2.0, "Z" := 1.0];
      && IsRanking(score, ["X", "Y", "Z"], {"X", "Y", "Z"})
      && IsRanking(score, ["A", "B", "C"], {"A", "B", "C"})
      && IsRanking(score, ["X", "Y", "A", "B", "C"], {"A", "B", "C", "X", "Y"})
  {}

  lemma OversizedToday()
    ensures Today(OVERSIZED_POLICY, OVERSIZED_DAY) == ["X", "Y"]
  {
    hide Tradable;
    TradableAll(["X", "Y", "Z"], NotIn(["A", "B", "C"]));
  }

  lemma OversizedSell()
    ensures TheoreticalSell(OVERSIZED_POLICY, OVERSIZED_DAY) == ["C"]
  {
    hide Tradable;
    TradableAll(OVERSIZED_DAY.comb, Passes(OVERSIZED_POLICY, map[]));
    assert Bottom(OVERSIZED_POLICY, OVERSIZED_DAY) == ["C"];
    TradableAppend(["A", "B"], ["C"], OneOf(["C"]));
    TradableAll(["C"], OneOf(["C"]));
    TradableNone(["A", "B"], OneOf(["C"]));
    assert ["A", "B"] + ["C"] == OVERSIZED_DAY.last;
  }

  lemma {:induction false} TradableNone(s: seq<string>, pass: Filter)
    requires forall x :: x in s ==> !pass.Admits(x)
    ensures Tradable(s, pass) == []
  {
    if s != [] {
      TradableNone(s[1..], pass);
    }
  }

  /** A run: each day any of the day's SELL and BUY actions may fill. */
  datatype Fills = Fills(day: Day, sold: set<string>, bought: set<string>)

  ghost predicate DayRuns(policy: TopkDropoutPolicy, holdings: set<string>, f: Fills)
    requires policy.Valid()
  {
    && Observes(policy, f.day, holdings)
    && (forall x :: x in f.sold ==> TargetAction(policy, f.day, x) == SELL)
    && (forall x :: x in f.bought ==> TargetAction(policy, f.day, x) == BUY)
  }

  ghost function After(holdings: set<string>, fills: seq<Fills>): set<string>
    decreases |fills|
  {
    if fills == [] then holdings
    else After(holdings - fills[0].sold + fills[0].bought, fills[1..])
  }

  ghost predicate Runs(policy: TopkDropoutPolicy, holdings: set<string>, fills: seq<Fills>)
    requires policy.Valid()
    decreases |fills|
  {
    fills == [] ||
    (DayRuns(policy, holdings, fills[0]) && Runs(policy, holdings - fills[0].sold + fills[0].bought, fills[1..]))
  }

  lemma DayKeepsSize(policy: TopkDropoutPolicy, holdings: set<string>, f: Fills)
    requires policy.Valid() && DayRuns(policy, holdings, f)
    requires |holdings| <= policy.topk + policy.nDrop
    ensures |holdings - f.sold + f.bought| <= policy.topk + policy.nDrop
  {
    PlannedSize(policy, f.day, holdings);
    SellsAndBuys(policy, f.day, holdings);
    var buys := Elements(Buy(policy, f.day));
    DistinctCardinality(Buy(policy, f.day));
    forall x | x in f.bought ensures x in buys {}
    SubsetCardinality(holdings - f.sold + f.bought, holdings + buys);
    assert holdings !! buys;
    assert |holdings + buys| == |holdings| + |buys|;
  }

  /** Every run from at most `topk + nDrop` holdings stays at most that size after every day, whichever
      sells are blocked and whichever orders fill. */
  lemma {:induction false} RunKeepsSize(policy: TopkDropoutPolicy, holdings: set<string>, fills: seq<Fills>, k: nat)
    requires policy.Valid() && Runs(policy, holdings, fills) && k <= |fills|
    requires |holdings| <= policy.topk + policy.nDrop
    decreases |fills|
    ensures |After(holdings, fills[..k])| <= policy.topk + policy.nDrop
  {
    hide DayRuns;
    if k > 0 {
      DayKeepsSize(policy, holdings, fills[0]);
      var next := holdings - fills[0].sold + fills[0].bought;
      RunKeepsSize(policy, next, fills[1..], k - 1);
      assert fills[..k] != [] && fills[..k][0] == fills[0];
      assert fills[..k][1..] == fills[1..][..k - 1];
      assert After(holdings, fills[..k]) == After(next, fills[1..][..k - 1]);
    }
  }

  // ----- no downgrade

  /** A full candidate list for a portfolio that is not above its target size. */
  ghost predicate FullList(policy: TopkDropoutPolicy, day: Day, holdings: set<string>)
    requires policy.Valid()
  {
    |holdings| <= policy.topk && |Today(policy, day)| == CandidateCount(policy, day)
  }

  const SWAP_POLICY := TopkDropoutPolicy(1, 1, 0, false, true)

  const SWAP_DAY := Day(map["A" := 1.0, "B" := 3.0], map[], ["B", "A"], ["A"], ["B", "A"], map[])

  /** One holding and one better name: the candidate list is full, and the better name replaces the worse. */
  lemma BetterNameReplaces()
    ensures Observes(SWAP_POLICY, SWAP_DAY, {"A"}) && FullList(SWAP_POLICY, SWAP_DAY, {"A"})
    ensures TheoreticalSell(SWAP_POLICY, SWAP_DAY) == ["A"] && Buy(SWAP_POLICY, SWAP_DAY) == ["B"]
  {
    hide Tradable, IsRanking;
    var score := SWAP_DAY.score;
    TradableAll(["B"], NotIn(["A"]));
    TradableNone(["A"], NotIn(["A"]));
    TradableAppend(["B"], ["A"], NotIn(["A"]));
    assert ["B"] + ["A"] == ["B", "A"];
    assert Today(SWAP_POLICY, SWAP_DAY) == ["B"];
    TradableAll(SWAP_DAY.comb, Passes(SWAP_POLICY, map[]));
    assert Bottom(SWAP_POLICY, SWAP_DAY) == ["A"];
    TradableAll(["A"], OneOf(["A"]));
    SwapRankings();
    assert score.Keys == {"A", "B"} == {"A"} + Elements(["B"]);
  }

  lemma SwapRankings()
    ensures IsRanking(SWAP_DAY.score, ["B", "A"], {"A", "B"}) && IsRanking(SWAP_DAY.score, ["A"], {"A"})
  {}

  lemma AtLeastInOrder(score: Scores, s: seq<string>, p: nat, q: nat)
    requires p < |s| && q < |s| && forall i, j :: 0 <= i < j < |s| ==> AtLeast(score, s[i], s[j])
    ensures p < q ==> AtLeast(score, s[p], s[q])
  {}

  /** Passing names of the combined ranking at or after a bottom name are bottom names. */
  lemma BottomIsFinal(policy: TopkDropoutPolicy, day: Day, holdings: set<string>, b: string, x: string)
    requires policy.Valid() && Observes(policy, day, holdings)
    requires b in Bottom(policy, day) && x in day.comb && Passes(policy, day.quotes).Admits(x)
    requires !AtLeast(day.score, x, b)
    ensures x in Bottom(policy, day)
  {
    hide Tradable, LastOf, Today, Filter.Admits, AtLeast;
    var passing := Tradable(day.comb, Passes(policy, day.quotes));
    var bottom := Bottom(policy, day);
    TradableKeepsRanking(day.score, day.comb, Passes(policy, day.quotes));
    var i :| 0 <= i < |bottom| && bottom[i] == b;
    var q := |passing| - |bottom| + i;
    var p :| 0 <= p < |passing| && passing[p] == x;
    AtLeastInOrder(day.score, passing, p, q);
    assert bottom[p - (|passing| - |bottom|)] == x;
  }

  /** Counting: when the entrants from index `j` on are all bottom names, `j` is past the buys. */
  lemma SuffixInBottom(policy: TopkDropoutPolicy, day: Day, holdings: set<string>, j: nat)
    requires policy.Valid() && Observes(policy, day, holdings) && FullList(policy, day, holdings)
    requires j <= |Today(policy, day)| && forall i :: j <= i < |Today(policy, day)| ==> Today(policy, day)[i] in Bottom(policy, day)
    ensures j >= BuyEnd(policy, day)
  {
    hide Today, Bottom, TheoreticalSell, Tradable, Buy, Observes, AtLeast, Filter.Admits;
    var today, sell, bottom := Today(policy, day), TheoreticalSell(policy, day), Bottom(policy, day);
    TodayFacts(policy, day, holdings);
    BottomFacts(policy, day, holdings);
    SellsAndBuys(policy, day, holdings);
    var tail := today[j..];
    forall x | x in tail ensures x in today && x in bottom {}
    DistinctCardinality(tail);
    DistinctCardinality(sell);
    DistinctCardinality(bottom);
    var both := Elements(tail) + Elements(sell);
    UnionSize(Elements(tail), Elements(sell), both);
    SubsetCardinality(both, Elements(bottom));
  }

  /** With a full candidate list the slice of buys never ends below zero and every planned buy scores at
      least as high as every planned sell, unscored holdings counting as lowest. */
  lemma NeverDowngrades(policy: TopkDropoutPolicy, day: Day, holdings: set<string>, b: string, s: string)
    requires policy.Valid() && Observes(policy, day, holdings) && FullList(policy, day, holdings)
    requires b in Buy(policy, day) && s in TheoreticalSell(policy, day)
    ensures BuyEnd(policy, day) >= 0
    ensures AtLeast(day.score, b, s)
  {
    hide Tradable, Today, Bottom, TheoreticalSell, AtLeast, Filter.Admits, Observes;
    TodayFacts(policy, day, holdings);
    SellsAndBuys(policy, day, holdings);
    var today := Today(policy, day);
    var j :| 0 <= j < |Buy(policy, day)| && Buy(policy, day)[j] == b;
    assert today[j] == b;
    if !AtLeast(day.score, b, s) {
      forall i | j <= i < |today| ensures today[i] in Bottom(policy, day) {
        WorseEntrantIsBottom(policy, day, holdings, j, i, s);
      }
      SuffixInBottom(policy, day, holdings, j);
    }
  }

  /** An entrant that ranks no better than one below a bottom name is a bottom name too. */
  lemma WorseEntrantIsBottom(policy: TopkDropoutPolicy, day: Day, holdings: set<string>, j: nat, i: nat, s: string)
    requires policy.Valid() && Observes(policy, day, holdings) && s in Bottom(policy, day)
    requires j <= i < |Today(policy, day)| && !AtLeast(day.score, Today(policy, day)[j], s)
    ensures Today(policy, day)[i] in Bottom(policy, day)
  {
    hide Tradable, Today, Bottom, Filter.Admits;
    var today := Today(policy, day);
    TodayFacts(policy, day, holdings);
    assert i > j ==> AtLeast(day.score, today[j], today[i]);
    assert today[i] in Elements(today) && today[i] in day.comb;
    BottomIsFinal(policy, day, holdings, s, today[i]);
  }

  ghost predicate DistinctScores(score: Scores, names: seq<string>) {
    forall i, j :: 0 <= i < j < |names| && names[i] in score && names[j] in score ==> score[names[i]] != score[names[j]]
  }

  lemma BoughtIsOutsideBottom(policy: TopkDropoutPolicy, day: Day, holdings: set<string>, j: nat)
    requires policy.Valid() && Observes(policy, day, holdings) && FullList(policy, day, holdings)
    requires DistinctScores(day.score, Today(policy, day)) && j < |Buy(policy, day)|
    ensures Today(policy, day)[j] !in Bottom(policy, day)
  {
    hide Today, Bottom, TheoreticalSell, Tradable, Filter.Admits;
    TodayFacts(policy, day, holdings);
    SellsAndBuys(policy, day, holdings);
    var today := Today(policy, day);
    if today[j] in Bottom(policy, day) {
      forall i | j <= i < |today| ensures today[i] in Bottom(policy, day) {
        if i > j {
          AtLeastInOrder(day.score, today, j, i);
          assert today[i] in Elements(today) && day.score[today[j]] != day.score[today[i]];
          BottomIsFinal(policy, day, holdings, today[j], today[i]);
        }
      }
      SuffixInBottom(policy, day, holdings, j);
    }
  }

  /** With distinct entrant scores the planned buys are exactly the entrants outside the bottom. */
  lemma BuysAreEntrantsOutsideBottom(policy: TopkDropoutPolicy, day: Day, holdings: set<string>, x: string)
    requires policy.Valid() && Observes(policy, day, holdings) && FullList(policy, day, holdings)
    requires DistinctScores(day.score, Today(policy, day))
    ensures x in Buy(policy, day) <==> x in Today(policy, day) && x !in Bottom(policy, day)
  {
    hide Today, Bottom, TheoreticalSell, Tradable, Observes, Filter.Admits, DistinctScores, FullList, BuyEnd;
    SellsAndBuys(policy, day, holdings);
    EntrantCount(policy, day, holdings);
    var today, buy, bottom := Today(policy, day), Buy(policy, day), Bottom(policy, day);
    forall y | y in buy ensures y in today && y !in bottom {
      var j :| 0 <= j < |buy| && buy[j] == y;
      BoughtIsOutsideBottom(policy, day, holdings, j);
    }
    var outside := Elements(today) - Elements(bottom);
    DistinctCardinality(buy);
    SubsetCardinality(Elements(buy), outside);
    assert x in Elements(buy) <==> x in outside;
  }

  /** As many entrants lie outside the bottom as are bought. */
  lemma EntrantCount(policy: TopkDropoutPolicy, day: Day, holdings: set<string>)
    requires policy.Valid() && Observes(policy, day, holdings) && FullList(policy, day, holdings)
    ensures |Elements(Today(policy, day)) - Elements(Bottom(policy, day))| == |Buy(policy, day)|
  {
    hide Today, Bottom, TheoreticalSell, Tradable, Observes;
    var today, sell, bottom := Today(policy, day), TheoreticalSell(policy, day), Bottom(policy, day);
    TodayFacts(policy, day, holdings);
    BottomFacts(policy, day, holdings);
    SellsAndBuys(policy, day, holdings);
    DistinctCardinality(today);
    DistinctCardinality(sell);
    DistinctCardinality(bottom);
    BottomIsFull(policy, day, holdings);
    var inside, outside := Elements(today) * Elements(bottom), Elements(today) - Elements(bottom);
    UnionSize(inside, Elements(sell), Elements(bottom));
    UnionSize(inside, outside, Elements(today));
  }

  lemma BottomIsFull(policy: TopkDropoutPolicy, day: Day, holdings: set<string>)
    requires policy.Valid() && Observes(policy, day, holdings) && FullList(policy, day, holdings)
    ensures |Bottom(policy, day)| == policy.nDrop
  {
    var passing := Tradable(day.comb, Passes(policy, day.quotes));
    TodayFacts(policy, day, holdings);
    SellsAndBuys(policy, day, holdings);
    TradableKeepsRanking(day.score, day.comb, Passes(policy, day.quotes));
    DistinctCardinality(passing);
    DistinctCardinality(Today(policy, day));
    forall x | x in Today(policy, day) ensures x in passing {}
    SubsetCardinality(Elements(Today(policy, day)), Elements(passing));
  }
}
