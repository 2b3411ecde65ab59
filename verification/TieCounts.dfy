/** The audit's tolerance for tied scores, by counting names of each score (backtesting/strategy_audit.py). */
module TieCounts {
  import opened Basics
  import opened Sorting
  import opened TieCheck

  /** The orders of one action whose names have the score `s`. */
  ghost function TradedAt(orders: Orders, action: Action, scores: map<string, real>, s: Score): set<int> {
    set i | 0 <= i < |orders| && orders[i].1 == action && ScoreOf(scores, orders[i].0) == s
  }

  /** Neither side sells the holding, and it is not held long enough to be sold; a missing number of days is none. */
  predicate TooYoung(h: Holding, planned: Orders, requested: Orders, holdThresh: int) {
    && (h.instrument, SELL) !in planned && (h.instrument, SELL) !in requested
    && (if h.holdingDays.Some? then h.holdingDays.value else 0) < holdThresh
  }

  /** The holdings of the score `s` that neither side sells and that are not held long enough to be sold. */
  ghost function TooYoungAt(held: seq<Holding>, planned: Orders, requested: Orders, scores: map<string, real>, holdThresh: int, s: Score): set<int> {
    set i | 0 <= i < |held| && TooYoung(held[i], planned, requested, holdThresh) && ScoreOf(scores, held[i].instrument) == s
  }

  // ----- counting scores

  lemma {:induction false} CodesOfAppend(a: Orders, b: Orders, action: Action)
    ensures CodesOf(a + b, action) == CodesOf(a, action) + CodesOf(b, action)
  {
    if a == [] {
      assert a + b == b;
    } else {
      CodesOfAppend(a[1..], b, action);
      assert (a + b)[1..] == a[1..] + b;
      Concatenated(if a[0].1 == action then [a[0].0] else [], CodesOf(a[1..], action), CodesOf(b, action));
    }
  }

  lemma {:induction false} CodesAtScore(orders: Orders, action: Action, scores: map<string, real>, s: Score)
    ensures multiset(Scores(scores, CodesOf(orders, action)))[s] == |TradedAt(orders, action, scores, s)|
  {
    hide CodesOf, Scores, TradedAt, ScoreOf;
    if orders == [] {
      NothingTraded(action, scores, s);
    } else {
      var front, last := orders[..|orders| - 1], orders[|orders| - 1];
      CodesAtScore(front, action, scores, s);
      assert orders == front + [last];
      CodesOfAppend(front, [last], action);
      OneOrder(last, action);
      ScoresNext(scores, CodesOf(front, action), last.0);
      TradedNext(front, last, action, scores, s);
    }
  }

  lemma NothingTraded(action: Action, scores: map<string, real>, s: Score)
    ensures multiset(Scores(scores, CodesOf([], action)))[s] == 0 && TradedAt([], action, scores, s) == {}
  {}

  lemma ScoresNext(scores: map<string, real>, codes: seq<string>, code: string)
    ensures Scores(scores, codes + [code]) == Scores(scores, codes) + [ScoreOf(scores, code)]
    ensures codes + [] == codes
  {}

  lemma TradedNext(front: Orders, last: (string, Action), action: Action, scores: map<string, real>, s: Score)
    ensures |TradedAt(front + [last], action, scores, s)|
         == |TradedAt(front, action, scores, s)| + (if last.1 == action && ScoreOf(scores, last.0) == s then 1 else 0)
  {
    hide ScoreOf;
    var n := |front|;
    assert TradedAt(front + [last], action, scores, s)
        == TradedAt(front, action, scores, s) + (if last.1 == action && ScoreOf(scores, last.0) == s then {n} else {});
  }

  lemma OneOrder(order: (string, Action), action: Action)
    ensures CodesOf([order], action) == if order.1 == action then [order.0] else []
  {}

  lemma {:induction false} ScoresPermutation(scores: map<string, real>, a: seq<string>, b: seq<string>)
    requires multiset(a) == multiset(b)
    ensures multiset(Scores(scores, a)) == multiset(Scores(scores, b))
    decreases |a|
  {
    hide *;
    PermutationSize(a, b);
    if a == [] {
      assert b == a;
    } else {
      var k := PermutationStep(a, b);
      ScoresRemove(scores, a, 0);
      ScoresRemove(scores, b, k);
      ScoresPermutation(scores, Without(a, 0), Without(b, k));
    }
  }

  lemma ScoresRemove(scores: map<string, real>, codes: seq<string>, k: nat)
    requires k < |codes|
    ensures multiset(Scores(scores, codes)) == multiset(Scores(scores, Without(codes, k))) + multiset{ScoreOf(scores, codes[k])}
  {
    var r := Scores(scores, codes);
    assert Scores(scores, Without(codes, k)) == r[..k] + r[k + 1..];
    MultisetRemove(r, k);
  }

  /** A side has as many names of a score as it has orders for such names. */
  lemma SideAtScore(orders: Orders, action: Action, scores: map<string, real>, s: Score)
    ensures multiset(SideScores(scores, orders, action))[s] == |TradedAt(orders, action, scores, s)|
  {
    hide Scores, CodesOf;
    StringLeOrder();
    SortCorrect(StringLe, CodesOf(orders, action));
    ScoresPermutation(scores, SortedCodes(orders, action), CodesOf(orders, action));
    CodesAtScore(orders, action, scores, s);
  }

  /** Every name the side trades has a score. */
  predicate AllScored(orders: Orders, action: Action, scores: map<string, real>) {
    forall i :: 0 <= i < |orders| && orders[i].1 == action ==> orders[i].0 in scores
  }

  lemma FiniteExactlyWhen(orders: Orders, action: Action, scores: map<string, real>)
    ensures Finite(SideScores(scores, orders, action)) <==> AllScored(orders, action, scores)
  {
    hide SortedCodes;
    var codes := SortedCodes(orders, action);
    if Finite(SideScores(scores, orders, action)) {
      forall i | 0 <= i < |orders| && orders[i].1 == action ensures orders[i].0 in scores {
        CodesOfMember(orders, action, orders[i].0);
        assert (orders[i].0, action) == orders[i];
        var k :| 0 <= k < |codes| && codes[k] == orders[i].0;
        assert SideScores(scores, orders, action)[k] == ScoreOf(scores, codes[k]);
      }
    }
    if AllScored(orders, action, scores) {
      forall k | 0 <= k < |codes| ensures ScoreOf(scores, codes[k]).Some? {
        CodesOfMember(orders, action, codes[k]);
        var i :| 0 <= i < |orders| && orders[i] == (codes[k], action);
      }
    }
  }

  lemma {:induction false} BlockedAppend(scores: map<string, real>, a: seq<Holding>, b: seq<Holding>, excluded: seq<string>, holdThresh: int)
    ensures BlockedScores(scores, a + b, excluded, holdThresh)
         == BlockedScores(scores, a, excluded, holdThresh) + BlockedScores(scores, b, excluded, holdThresh)
  {
    if a == [] {
      assert a + b == b;
    } else {
      BlockedAppend(scores, a[1..], b, excluded, holdThresh);
      assert (a + b)[1..] == a[1..] + b;
      Concatenated(if a[0].instrument !in excluded && DaysHeld(a[0]) < holdThresh then [ScoreOf(scores, a[0].instrument)] else [],
                   BlockedScores(scores, a[1..], excluded, holdThresh), BlockedScores(scores, b, excluded, holdThresh));
    }
  }

  lemma {:induction false} BlockedAtScore(held: seq<Holding>, planned: Orders, requested: Orders, scores: map<string, real>, holdThresh: int, s: Score)
    ensures multiset(BlockedScores(scores, held, SortedCodes(planned, SELL) + SortedCodes(requested, SELL), holdThresh))[s]
         == |TooYoungAt(held, planned, requested, scores, holdThresh, s)|
  {
    hide SortedCodes, BlockedScores, TooYoungAt, ScoreOf;
    var excluded := SortedCodes(planned, SELL) + SortedCodes(requested, SELL);
    if held == [] {
      NobodyBlocked(planned, requested, scores, excluded, holdThresh, s);
    } else {
      var front, last := held[..|held| - 1], held[|held| - 1];
      BlockedAtScore(front, planned, requested, scores, holdThresh, s);
      assert held == front + [last];
      BlockedAppend(scores, front, [last], excluded, holdThresh);
      CodesOfMember(planned, SELL, last.instrument);
      CodesOfMember(requested, SELL, last.instrument);
      OneHolding(scores, last, excluded, holdThresh);
      TooYoungNext(front, last, planned, requested, scores, holdThresh, s);
    }
  }

  lemma NobodyBlocked(planned: Orders, requested: Orders, scores: map<string, real>, excluded: seq<string>, holdThresh: int, s: Score)
    ensures multiset(BlockedScores(scores, [], excluded, holdThresh))[s] == 0
    ensures TooYoungAt([], planned, requested, scores, holdThresh, s) == {}
  {}

  lemma TooYoungNext(front: seq<Holding>, last: Holding, planned: Orders, requested: Orders, scores: map<string, real>, holdThresh: int, s: Score)
    ensures |TooYoungAt(front + [last], planned, requested, scores, holdThresh, s)|
         == |TooYoungAt(front, planned, requested, scores, holdThresh, s)|
            + (if TooYoung(last, planned, requested, holdThresh) && ScoreOf(scores, last.instrument) == s then 1 else 0)
  {
    hide ScoreOf;
    var n := |front|;
    assert TooYoungAt(front + [last], planned, requested, scores, holdThresh, s)
        == TooYoungAt(front, planned, requested, scores, holdThresh, s)
           + (if TooYoung(last, planned, requested, holdThresh) && ScoreOf(scores, last.instrument) == s then {n} else {});
  }

  lemma OneHolding(scores: map<string, real>, h: Holding, excluded: seq<string>, holdThresh: int)
    ensures BlockedScores(scores, [h], excluded, holdThresh)
         == if h.instrument !in excluded && (if h.holdingDays.Some? then h.holdingDays.value else 0) < holdThresh
            then [ScoreOf(scores, h.instrument)] else []
  {}

  // ----- the check

  /** Both sides trade scored names only, and as many of each score. */
  ghost predicate SameCounts(planned: Orders, requested: Orders, action: Action, scores: map<string, real>) {
    && AllScored(planned, action, scores) && AllScored(requested, action, scores)
    && forall s :: |TradedAt(planned, action, scores, s)| == |TradedAt(requested, action, scores, s)|
  }

  /** Fewer sales of some scores are requested than planned and more of none, and the missing ones of each score are
      no more than the holdings of that score that were too young to sell. */
  ghost predicate MissingAreTooYoung(planned: Orders, requested: Orders, scores: map<string, real>, held: seq<Holding>, holdThresh: int) {
    && AllScored(planned, SELL, scores) && AllScored(requested, SELL, scores)
    && (exists s :: |TradedAt(requested, SELL, scores, s)| < |TradedAt(planned, SELL, scores, s)|)
    && forall s :: |TradedAt(requested, SELL, scores, s)| <= |TradedAt(planned, SELL, scores, s)|
         <= |TradedAt(requested, SELL, scores, s)| + |TooYoungAt(held, planned, requested, scores, holdThresh, s)|
  }

  lemma TiedExactlyWhen(planned: Orders, requested: Orders, action: Action, scores: map<string, real>)
    ensures TiedSides(SideScores(scores, planned, action), SideScores(scores, requested, action))
       <==> SameCounts(planned, requested, action, scores)
  {
    hide SideScores, TradedAt, Finite, AllScored;
    FiniteExactlyWhen(planned, action, scores);
    FiniteExactlyWhen(requested, action, scores);
    var p, q := multiset(SideScores(scores, planned, action)), multiset(SideScores(scores, requested, action));
    forall s ensures p[s] == |TradedAt(planned, action, scores, s)| && q[s] == |TradedAt(requested, action, scores, s)| {
      SideAtScore(planned, action, scores, s);
      SideAtScore(requested, action, scores, s);
    }
    if forall s :: |TradedAt(planned, action, scores, s)| == |TradedAt(requested, action, scores, s)| {
      assert forall s :: p[s] == q[s];
      assert p == q;
    }
  }

  lemma SmallerExactlyWhen(p: multiset<Score>, q: multiset<Score>)
    requires q <= p
    ensures |q| < |p| <==> exists s :: q[s] < p[s]
  {
    assert p == q + (p - q);
    if |q| < |p| {
      var s :| s in p - q;
      assert q[s] < p[s];
    }
    if s :| q[s] < p[s] {
      assert (p - q)[s] > 0;
    }
  }

  lemma ShortfallExactlyWhen(planned: Orders, requested: Orders, scores: map<string, real>, held: seq<Holding>, holdThresh: int)
    ensures ExplainedShortfall(SideScores(scores, planned, SELL), SideScores(scores, requested, SELL),
              BlockedScores(scores, held, SortedCodes(planned, SELL) + SortedCodes(requested, SELL), holdThresh))
       <==> MissingAreTooYoung(planned, requested, scores, held, holdThresh)
  {
    hide SideScores, TradedAt, TooYoungAt, Finite, AllScored, BlockedScores, SortedCodes;
    FiniteExactlyWhen(planned, SELL, scores);
    FiniteExactlyWhen(requested, SELL, scores);
    var blocked := BlockedScores(scores, held, SortedCodes(planned, SELL) + SortedCodes(requested, SELL), holdThresh);
    var p, q := multiset(SideScores(scores, planned, SELL)), multiset(SideScores(scores, requested, SELL));
    forall s
      ensures p[s] == |TradedAt(planned, SELL, scores, s)| && q[s] == |TradedAt(requested, SELL, scores, s)|
      ensures multiset(blocked)[s] == |TooYoungAt(held, planned, requested, scores, holdThresh, s)|
    {
      SideAtScore(planned, SELL, scores, s);
      SideAtScore(requested, SELL, scores, s);
      BlockedAtScore(held, planned, requested, scores, holdThresh, s);
    }
    assert q <= p <==> forall s :: q[s] <= p[s];
    if q <= p {
      SmallerExactlyWhen(p, q);
      assert forall s :: (p - q)[s] == p[s] - q[s];
      assert p - q <= multiset(blocked) <==> forall s :: (p - q)[s] <= multiset(blocked)[s];
    }
  }

  /** The check accepts exactly known actions that are the same orders or, except under the rank-buffer policy,
      as many buys of every score, and as many sells or a shortfall made up of holdings too young to sell. */
  lemma EquivalentExactlyWhen(
    planned: Orders, requested: Orders, scores: map<string, real>, positions: Option<seq<Holding>>, policy: Option<Policy>)
    ensures Equivalent(planned, requested, scores, positions, policy)
      <==> (forall i :: 0 <= i < |planned| ==> planned[i].1 == BUY || planned[i].1 == SELL)
           && (forall i :: 0 <= i < |requested| ==> requested[i].1 == BUY || requested[i].1 == SELL)
           && ((forall o :: o in planned <==> o in requested)
               || (policy != Some(RankBuffer) && SameCounts(planned, requested, BUY, scores)
                   && (SameCounts(planned, requested, SELL, scores)
                       || (positions.Some? && policy.Some?
                           && MissingAreTooYoung(planned, requested, scores, positions.value, policy.value.holdThresh)))))
  {
    hide SideScores, BlockedScores, SortedCodes, ExplainedShortfall, TiedSides, SameCounts, MissingAreTooYoung;
    TiedExactlyWhen(planned, requested, BUY, scores);
    TiedExactlyWhen(planned, requested, SELL, scores);
    if positions.Some? && policy.Some? && policy.value.Topk? {
      ShortfallExactlyWhen(planned, requested, scores, positions.value, policy.value.holdThresh);
    }
    assert KnownActions(planned) <==> forall i :: 0 <= i < |planned| ==> planned[i].1 == BUY || planned[i].1 == SELL;
  }
}
