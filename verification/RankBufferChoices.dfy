/** Which names the rank-buffer rule sells and buys, by counting (backtesting/topk_dropout.py,
    `rank_buffer_decision`, and backtesting/qlib_strategies.py, `RankBufferStrategy`). */
module RankBufferChoices {
  import opened Basics
  import opened Quotes
  import opened Sorting
  import opened RankBuffer

  // ----- the first names of a sorted list

  /** The members of `s` that come before `x`. */
  ghost function Ahead<T(!new)>(le: Order<T>, s: set<T>, x: T): set<T> {
    set y | y in s && y != x && le(y, x)
  }

  /** In a sorted list without repetition the place of a member is the number of members ahead of it. */
  lemma PlaceIsCount<T(!new)>(le: Order<T>, s: seq<T>, i: nat)
    requires TotalOrder(le) && Antisymmetric(le) && Sorted(le, s) && Distinct(s) && i < |s|
    ensures |Ahead(le, Elements(s), s[i])| == i
  {
    var before := s[..i];
    assert Distinct(before);
    DistinctCardinality(before);
    forall k | 0 <= k < |s| ensures s[k] != s[i] && le(s[k], s[i]) <==> k < i {
      assert k < i ==> le(s[k], s[i]);
      assert i < k ==> le(s[i], s[k]);
    }
    forall y ensures y in Ahead(le, Elements(s), s[i]) <==> y in Elements(before) {
      if y in s {
        var k :| 0 <= k < |s| && s[k] == y;
        assert k < i ==> before[k] == y;
      }
    }
    assert Ahead(le, Elements(s), s[i]) == Elements(before);
  }

  lemma AmongFirst<T(!new)>(le: Order<T>, s: seq<T>, n: nat, x: T)
    requires TotalOrder(le) && Antisymmetric(le) && Sorted(le, s) && Distinct(s)
    ensures x in SliceTo(s, n) <==> x in s && |Ahead(le, Elements(s), x)| < n
  {
    hide Ahead;
    if x in s {
      var i :| 0 <= i < |s| && s[i] == x;
      PlaceIsCount(le, s, i);
      assert i < n ==> SliceTo(s, n)[i] == x;
      if x in SliceTo(s, n) {
        var k :| 0 <= k < |SliceTo(s, n)| && SliceTo(s, n)[k] == x;
        assert s[k] == s[i];
      }
    } else {
      assert forall y :: y in SliceTo(s, n) ==> y in s;
    }
  }

  lemma {:induction false} KeepSorted(le: Order<string>, s: seq<string>, allowed: set<string>)
    requires Sorted(le, s)
    ensures Sorted(le, Keep(s, allowed))
  {
    if s != [] {
      KeepSorted(le, s[1..], allowed);
      var rest := Keep(s[1..], allowed);
      forall j | 0 <= j < |rest| ensures le(s[0], rest[j]) {
        assert rest[j] in s[1..];
      }
    }
  }

  // ----- sells

  /** Due for sale: ranked behind the exit rank or not at all, held long enough, and sellable by its quote when
      quotes are looked at. */
  predicate DueForSale(policy: RankBufferPolicy, day: Day, name: string, checks: bool) {
    && name !in SliceTo(day.ranked, policy.exitRank)
    && (if name in day.holdingDays then day.holdingDays[name] else 0) >= policy.holdThresh
    && (checks ==> Trades(day.quotes, name, policy.forbidAllTradeAtLimit, true))
  }

  /** `y` goes before `x`: a worse rank, unranked names last of all, and in the order of the names on a tie. */
  predicate Worse(ranked: seq<string>, y: string, x: string) {
    if y in ranked && x in ranked then exists i, j :: 0 <= i < j < |ranked| && ranked[i] == x && ranked[j] == y
    else if y !in ranked && x !in ranked then StringLe(y, x) && y != x
    else x in ranked
  }

  lemma WorseIsAhead(ranked: seq<string>, y: string, x: string)
    requires Distinct(ranked) && y != x
    ensures WorstFirst(ranked)(y, x) <==> Worse(ranked, y, x)
  {
    hide StringLe;
    var worst: bool := RankOf(ranked, y) > RankOf(ranked, x) || (RankOf(ranked, y) == RankOf(ranked, x) && StringLe(y, x));
    assert WorstFirst(ranked)(y, x) == worst;
    if y in ranked && x in ranked {
      var a, b := RankOf(ranked, x) - 1, RankOf(ranked, y) - 1;
      assert ranked[a] == x && ranked[b] == y;
      assert a < b ==> Worse(ranked, y, x);
      if Worse(ranked, y, x) {
        var i, j :| 0 <= i < j < |ranked| && ranked[i] == x && ranked[j] == y;
        assert i == a && j == b;
      }
    }
  }

  lemma BehindExitRank(policy: RankBufferPolicy, ranked: seq<string>, name: string)
    requires policy.Valid() && Distinct(ranked)
    ensures Breached(policy, ranked, name) <==> name !in SliceTo(ranked, policy.exitRank)
  {
    var kept := SliceTo(ranked, policy.exitRank);
    if name in kept {
      var i :| 0 <= i < |kept| && kept[i] == name;
      RankAt(ranked, i);
    }
    if name in ranked {
      var i := RankOf(ranked, name) - 1;
      assert i < |kept| ==> kept[i] == name;
    }
  }

  /** A holding is sold exactly when it is due and fewer holdings due for sale than the replacement cap are worse:
      no name inside the exit rank is ever sold, and the worst go first. */
  lemma SoldExactlyWhen(policy: RankBufferPolicy, day: Day, current: seq<string>, checks: bool, name: string)
    requires policy.Valid() && day.Valid() && Distinct(current)
    ensures name in Sells(policy, day, current, CanSell(policy, day, current, checks))
      <==> name in current && DueForSale(policy, day, name, checks)
           && |set y | y in current && DueForSale(policy, day, y, checks) && y != name && Worse(day.ranked, y, name)| < policy.maxReplacements
  {
    hide QuoteFlags, Worse, Breached, RankOf, Trades, SliceTo;
    var le := WorstFirst(day.ranked);
    var allowed := CanSell(policy, day, current, checks);
    var sellable := Sellable(policy, day, current, allowed);
    var due := Keep(SellCandidates(policy, day.ranked, current), sellable);
    SortedCandidates(policy, day, current, sellable);
    forall x ensures x in due <==> x in current && DueForSale(policy, day, x, checks) {
      BehindExitRank(policy, day.ranked, x);
      TradesExactlyWhen(day.quotes, policy.forbidAllTradeAtLimit, x);
    }
    WorstFirstOrder(day.ranked);
    AmongFirst(le, due, policy.maxReplacements, name);
    var worse := set y | y in current && DueForSale(policy, day, y, checks) && y != name && Worse(day.ranked, y, name);
    forall y ensures y in Ahead(le, Elements(due), name) <==> y in worse {
      if y != name {
        WorseIsAhead(day.ranked, y, name);
      }
    }
    assert Ahead(le, Elements(due), name) == worse;
  }

  lemma SortedCandidates(policy: RankBufferPolicy, day: Day, current: seq<string>, sellable: set<string>)
    requires policy.Valid() && Distinct(current)
    ensures var due := Keep(SellCandidates(policy, day.ranked, current), sellable);
      && Sorted(WorstFirst(day.ranked), due) && Distinct(due)
      && (forall x :: x in due <==> x in current && Breached(policy, day.ranked, x) && x in sellable)
  {
    hide WorstFirst, Breached;
    SellFacts(policy, day, current, {});
    WorstFirstOrder(day.ranked);
    SortCorrect(WorstFirst(day.ranked), Keep(current, set x | x in current && Breached(policy, day.ranked, x)));
    KeepSorted(WorstFirst(day.ranked), SellCandidates(policy, day.ranked, current), sellable);
    KeepDistinct(SellCandidates(policy, day.ranked, current), sellable);
  }

  // ----- buys

  /** May enter: among the first names of the ranking, not held, and buyable by its quote when quotes are looked at. */
  predicate MayEnter(policy: RankBufferPolicy, day: Day, current: seq<string>, i: nat, checks: bool)
    requires i < |day.ranked|
  {
    i < policy.entryRank && day.ranked[i] !in current
    && (checks ==> Trades(day.quotes, day.ranked[i], true, policy.forbidAllTradeAtLimit))
  }

  /** How many of the first `k` names of the ranking may enter. */
  function Entrants(policy: RankBufferPolicy, day: Day, current: seq<string>, k: nat, checks: bool): nat
    requires k <= |day.ranked|
  {
    if k == 0 then 0
    else Entrants(policy, day, current, k - 1, checks) + (if MayEnter(policy, day, current, k - 1, checks) then 1 else 0)
  }

  lemma {:induction false} EntrantsKept(policy: RankBufferPolicy, day: Day, current: seq<string>, k: nat, checks: bool)
    requires policy.Valid() && k <= |day.ranked| && k <= policy.entryRank
    ensures |Keep(day.ranked[..k], Buyable(day, current, CanBuy(policy, day, checks)))| == Entrants(policy, day, current, k, checks)
  {
    hide QuoteFlags, Keep, Trades;
    var buyable := Buyable(day, current, CanBuy(policy, day, checks));
    if k == 0 {
      KeepNothing(buyable);
    } else {
      EntrantsKept(policy, day, current, k - 1, checks);
      KeepNext(day.ranked, k - 1, buyable);
      TradesExactlyWhen(day.quotes, policy.forbidAllTradeAtLimit, day.ranked[k - 1]);
    }
  }

  /** A name is bought exactly when it may enter and fewer better names may enter than the open slots and the
      replacement cap leave room for. */
  lemma BoughtExactlyWhen(policy: RankBufferPolicy, day: Day, current: seq<string>, sold: nat, checks: bool, i: nat)
    requires policy.Valid() && day.Valid() && i < |day.ranked| && sold <= |current|
    ensures day.ranked[i] in Buys(policy, day, current, sold, CanBuy(policy, day, checks))
      <==> MayEnter(policy, day, current, i, checks)
           && Entrants(policy, day, current, i, checks) < policy.maxReplacements
           && |current| - sold + Entrants(policy, day, current, i, checks) < policy.targetSize
  {
    hide QuoteFlags, Keep, Trades;
    var buyable := Buyable(day, current, CanBuy(policy, day, checks));
    var entry, name := SliceTo(day.ranked, policy.entryRank), day.ranked[i];
    TradesExactlyWhen(day.quotes, policy.forbidAllTradeAtLimit, name);
    var kept := Keep(entry, buyable);
    if i < policy.entryRank {
      assert entry[i] == name && entry[..i] == day.ranked[..i];
      KeepNext(entry, i, buyable);
      EntrantsKept(policy, day, current, i, checks);
      KeepPrefix(entry, i + 1, buyable);
      KeepDistinct(entry, buyable);
      PlaceInKept(kept, Keep(entry[..i], buyable), Keep(entry[..i + 1], buyable), name, Openings(policy, |current|, sold));
    } else {
      NotInEntry(day.ranked, policy.entryRank, i);
      assert forall x :: x in SliceTo(kept, Openings(policy, |current|, sold)) ==> x in kept && x in entry;
    }
  }

  lemma NotInEntry(ranked: seq<string>, n: int, i: nat)
    requires Distinct(ranked) && 0 <= n <= i < |ranked|
    ensures ranked[i] !in SliceTo(ranked, n)
  {}

  lemma KeepPrefix(values: seq<string>, k: nat, allowed: set<string>)
    requires k <= |values|
    ensures Keep(values[..k], allowed) <= Keep(values, allowed)
  {
    assert values == values[..k] + values[k..];
    KeepAppend(values[..k], values[k..], allowed);
  }

  /** Where the next survivor of a filter stands. */
  lemma PlaceInKept(kept: seq<string>, before: seq<string>, after: seq<string>, name: string, n: nat)
    requires Distinct(kept) && before <= kept && after <= kept && (after == before || after == before + [name])
    requires after == before ==> name !in kept
    ensures name in SliceTo(kept, n) <==> after != before && |before| < n
  {
    if after != before {
      assert kept[|before|] == name;
      if |before| < n {
        assert SliceTo(kept, n)[|before|] == name;
      }
    } else {
      assert forall x :: x in SliceTo(kept, n) ==> x in kept;
    }
  }
}
