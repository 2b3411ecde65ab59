/** Which actions the TopkDropout rule asks for, by counting (backtesting/topk_dropout.py, `topk_dropout_decision`). */
module TopkDropoutActions {
  import opened Basics
  import opened Quotes
  import opened TopkDropout

  /** The name takes part: the tradable filter is off, or its quote lets it trade in both directions. */
  predicate TakesPart(policy: TopkDropoutPolicy, day: Day, name: string) {
    policy.onlyTradable ==> Trades(day.quotes, name, true, true)
  }

  /** How many of the names from place `i` on take part. */
  function Participants(policy: TopkDropoutPolicy, day: Day, names: seq<string>, i: nat): nat
    requires i <= |names|
    decreases |names| - i
  {
    if i == |names| then 0
    else (if TakesPart(policy, day, names[i]) then 1 else 0) + Participants(policy, day, names, i + 1)
  }

  lemma PassesExactlyWhen(policy: TopkDropoutPolicy, day: Day, name: string)
    ensures Passes(policy, day.quotes).Admits(name) <==> TakesPart(policy, day, name)
  {
    TradesExactlyWhen(day.quotes, policy.forbidAllTradeAtLimit, name);
  }

  lemma {:induction false} ParticipantsKept(policy: TopkDropoutPolicy, day: Day, names: seq<string>, i: nat)
    requires i <= |names|
    ensures |Tradable(names[i..], Passes(policy, day.quotes))| == Participants(policy, day, names, i)
    decreases |names| - i
  {
    hide Filter.Admits, TakesPart;
    if i < |names| {
      ParticipantsKept(policy, day, names, i + 1);
      PassesExactlyWhen(policy, day, names[i]);
      assert names[i..] == [names[i]] + names[i + 1..];
      TradableCons(names[i], names[i + 1..], Passes(policy, day.quotes));
    }
  }

  /** A name is among the bottom exactly when it takes part and fewer than `nDrop` names behind it do. */
  lemma BottomExactlyWhen(policy: TopkDropoutPolicy, day: Day, i: nat)
    requires policy.Valid() && Distinct(day.comb) && i < |day.comb|
    ensures day.comb[i] in Bottom(policy, day)
       <==> TakesPart(policy, day, day.comb[i]) && Participants(policy, day, day.comb, i + 1) < policy.nDrop
  {
    hide Filter.Admits, TakesPart;
    var pass, x := Passes(policy, day.quotes), day.comb[i];
    var before, after := day.comb[..i], day.comb[i + 1..];
    assert day.comb == before + ([x] + after);
    TradableAppend(before, [x] + after, pass);
    TradableCons(x, after, pass);
    PassesExactlyWhen(policy, day, x);
    ParticipantsKept(policy, day, day.comb, i + 1);
    assert x !in before && x !in after;
    var a, b := Tradable(before, pass), Tradable(after, pass);
    assert x !in a && x !in b;
    if pass.Admits(x) {
      Concatenated(a, [x], b);
      PlaceFromBack(a, x, b, policy.nDrop);
    } else {
      assert Tradable(day.comb, pass) == a + b;
      assert forall y :: y in LastOf(a + b, policy.nDrop) ==> y in a + b;
    }
  }

  lemma PlaceFromBack(a: seq<string>, x: string, b: seq<string>, n: nat)
    requires x !in a && x !in b
    ensures x in LastOf(a + ([x] + b), n) <==> |b| < n
  {
    var s := a + ([x] + b);
    var r := LastOf(s, n);
    assert s[|a|] == x;
    if |b| < n {
      assert r[|r| - 1 - |b|] == x;
    } else {
      forall i | 0 <= i < |r| ensures r[i] != x {
        assert r[i] == b[|b| - |r| + i];
      }
    }
  }

  /** A name is sold exactly when it is held, long enough, sellable by its quote, and among the bottom: it takes part
      and fewer than `nDrop` names behind it do. */
  lemma SellExactlyWhen(policy: TopkDropoutPolicy, day: Day, holdings: set<string>, i: nat)
    requires policy.Valid() && Observes(policy, day, holdings) && i < |day.comb|
    ensures var name := day.comb[i];
      TargetAction(policy, day, name) == SELL
      <==> name in holdings
           && (if name in day.holdingDays then day.holdingDays[name] else 0) >= policy.holdThresh
           && Trades(day.quotes, name, policy.forbidAllTradeAtLimit, true)
           && TakesPart(policy, day, name) && Participants(policy, day, day.comb, i + 1) < policy.nDrop
  {
    hide QuoteFlags, Trades, TakesPart, Bottom, Buy;
    SellsAndBuys(policy, day, holdings);
    BottomExactlyWhen(policy, day, i);
    TradesExactlyWhen(day.quotes, policy.forbidAllTradeAtLimit, day.comb[i]);
  }

  /** A name outside holdings and entrants is never sold. */
  lemma OthersAreNotSold(policy: TopkDropoutPolicy, day: Day, holdings: set<string>, name: string)
    requires policy.Valid() && Observes(policy, day, holdings) && name !in day.comb
    ensures TargetAction(policy, day, name) != SELL
  {
    hide QuoteFlags, Bottom, Buy;
    SellsAndBuys(policy, day, holdings);
  }

  /** A name is bought exactly when it is a planned buy that its quote lets be bought; planned buys are scored, not
      held, and take part when the filter is on. */
  lemma BuyExactlyWhen(policy: TopkDropoutPolicy, day: Day, holdings: set<string>, name: string)
    requires policy.Valid() && Observes(policy, day, holdings)
    ensures TargetAction(policy, day, name) == BUY
       <==> name in Buy(policy, day) && Trades(day.quotes, name, true, policy.forbidAllTradeAtLimit)
    ensures TargetAction(policy, day, name) == BUY ==> name in day.score && name !in holdings && TakesPart(policy, day, name)
  {
    hide QuoteFlags, Trades, TakesPart, TheoreticalSell, Buy, Today, Filter.Admits;
    SellsAndBuys(policy, day, holdings);
    TodayFacts(policy, day, holdings);
    PassesExactlyWhen(policy, day, name);
    TradesExactlyWhen(day.quotes, policy.forbidAllTradeAtLimit, name);
  }
}
