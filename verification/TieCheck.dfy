/** The audit's tolerance for exactly tied scores (backtesting/strategy_audit.py): when a backtest's orders
    may replace the planned ones. */
module TieCheck {
  import opened Basics
  import opened Sorting

  datatype Action = BUY | SELL | Other(text: string)

  /** A dictionary from instrument to action, in insertion order; the keys are distinct. */
  type Orders = seq<(string, Action)>

  /** A score may be missing. */
  type Score = Option<real>

  datatype Holding = Holding(instrument: string, holdingDays: Option<int>)

  datatype Policy = Topk(holdThresh: int) | RankBuffer

  function ScoreOf(scores: map<string, real>, code: string): Score {
    if code in scores then Some(scores[code]) else None
  }

  function Scores(scores: map<string, real>, codes: seq<string>): (r: seq<Score>)
    ensures |r| == |codes| && forall i :: 0 <= i < |r| ==> r[i] == ScoreOf(scores, codes[i])
  {
    seq(|codes|, i requires 0 <= i < |codes| => ScoreOf(scores, codes[i]))
  }

  function CodesOf(orders: Orders, action: Action): seq<string> {
    if orders == [] then []
    else (if orders[0].1 == action then [orders[0].0] else []) + CodesOf(orders[1..], action)
  }

  function SortedCodes(orders: Orders, action: Action): seq<string> { Sort(StringLe, CodesOf(orders, action)) }

  function SideScores(scores: map<string, real>, orders: Orders, action: Action): seq<Score> {
    Scores(scores, SortedCodes(orders, action))
  }

  predicate Finite(s: seq<Score>) { forall i :: 0 <= i < |s| ==> s[i].Some? }

  predicate KnownActions(orders: Orders) { forall i :: 0 <= i < |orders| ==> !orders[i].1.Other? }

  /** Dictionary equality. */
  predicate SameOrders(a: Orders, b: Orders) {
    && (forall i :: 0 <= i < |a| ==> a[i] in b)
    && (forall i :: 0 <= i < |b| ==> b[i] in a)
  }

  function DaysHeld(h: Holding): int { if h.holdingDays.Some? then h.holdingDays.value else 0 }

  /** Scores of the other holdings that are still too young to sell. */
  function BlockedScores(scores: map<string, real>, held: seq<Holding>, excluded: seq<string>, holdThresh: int): seq<Score> {
    if held == [] then []
    else
      (if held[0].instrument !in excluded && DaysHeld(held[0]) < holdThresh then [ScoreOf(scores, held[0].instrument)] else [])
      + BlockedScores(scores, held[1..], excluded, holdThresh)
  }

  // ----- what the check means

  /** The two sides trade the same multiset of scores. */
  ghost predicate TiedSides(p: seq<Score>, q: seq<Score>) {
    Finite(p) && Finite(q) && multiset(p) == multiset(q)
  }

  /** Some planned sales are missing, and each is explained by an equally scored holding that could not be sold. */
  ghost predicate ExplainedShortfall(p: seq<Score>, q: seq<Score>, blocked: seq<Score>) {
    Finite(p) && Finite(q) && |q| < |p| && multiset(q) <= multiset(p) && multiset(p) - multiset(q) <= multiset(blocked)
  }

  ghost predicate BuysMatch(planned: Orders, requested: Orders, scores: map<string, real>) {
    TiedSides(SideScores(scores, planned, BUY), SideScores(scores, requested, BUY))
  }

  ghost predicate SellsMatch(
    planned: Orders, requested: Orders, scores: map<string, real>, positions: Option<seq<Holding>>, policy: Option<Policy>)
  {
    var p, q := SideScores(scores, planned, SELL), SideScores(scores, requested, SELL);
    || TiedSides(p, q)
    || (positions.Some? && policy.Some? && policy.value.Topk?
        && ExplainedShortfall(p, q, BlockedScores(scores, positions.value,
             SortedCodes(planned, SELL) + SortedCodes(requested, SELL), policy.value.holdThresh)))
  }

  ghost predicate Equivalent(
    planned: Orders, requested: Orders, scores: map<string, real>, positions: Option<seq<Holding>>, policy: Option<Policy>)
  {
    && KnownActions(planned) && KnownActions(requested)
    && (SameOrders(planned, requested)
        || (policy != Some(RankBuffer) && BuysMatch(planned, requested, scores)
            && SellsMatch(planned, requested, scores, positions, policy)))
  }

  // ----- the loops

  /** The index of the first match, or the length when there is none. */
  method FirstMatch(candidates: seq<Score>, value: Score) returns (k: nat)
    ensures k <= |candidates| && (k < |candidates| <==> value in candidates)
    ensures k < |candidates| ==> candidates[k] == value
  {
    k := 0;
    while k < |candidates| && candidates[k] != value
      invariant k <= |candidates| && forall i :: 0 <= i < k ==> candidates[i] != value
    {
      k := k + 1;
    }
  }

  /** Popping the first match of each value in turn decides multiset inclusion, and leaves the difference. */
  method PopMatches(values: seq<Score>, candidates: seq<Score>) returns (found: bool, remaining: seq<Score>)
    ensures found <==> multiset(values) <= multiset(candidates)
    ensures found ==> multiset(remaining) == multiset(candidates) - multiset(values)
  {
    remaining := candidates;
    for i := 0 to |values|
      invariant multiset(remaining) + multiset(values[..i]) == multiset(candidates)
    {
      assert values == values[..i] + ([values[i]] + values[i + 1..]);
      var k := FirstMatch(remaining, values[i]);
      if k == |remaining| {
        assert multiset(candidates)[values[i]] == multiset(values[..i])[values[i]];
        return false, remaining;
      }
      MultisetRemove(remaining, k);
      assert values[..i + 1] == values[..i] + [values[i]];
      remaining := remaining[..k] + remaining[k + 1..];
    }
    assert values[..|values|] == values;
    found := true;
  }

  predicate ScoreLe(a: Score, b: Score) { b.None? || (a.Some? && a.value <= b.value) }

  lemma ScoreLeOrder()
    ensures TotalOrder(ScoreLe) && Antisymmetric(ScoreLe)
  {}

  /** Equal after sorting means equal as multisets. */
  lemma SortedEqualExactlyWhen(p: seq<Score>, q: seq<Score>)
    ensures Sort(ScoreLe, p) == Sort(ScoreLe, q) <==> multiset(p) == multiset(q)
  {
    ScoreLeOrder();
    SortCorrect(ScoreLe, p);
    SortCorrect(ScoreLe, q);
    if multiset(p) == multiset(q) {
      SortPermutation(ScoreLe, p, q);
    }
  }

  method SideIsTied(p: seq<Score>, q: seq<Score>) returns (r: bool)
    requires |p| == |q|
    ensures r <==> TiedSides(p, q)
  {
    SortedEqualExactlyWhen(p, q);
    if p == [] && q == [] {
      return true;
    }
    var plannedScores, requestedScores := Sort(ScoreLe, p), Sort(ScoreLe, q);
    if !Finite(p) || !Finite(q) {
      return false;
    }
    r := plannedScores == requestedScores;
  }

  method ShortfallIsExplained(
    planned: Orders, requested: Orders, scores: map<string, real>, held: seq<Holding>, holdThresh: int) returns (r: bool)
    requires |SideScores(scores, planned, SELL)| != |SideScores(scores, requested, SELL)|
    ensures r <==> ExplainedShortfall(
      SideScores(scores, planned, SELL), SideScores(scores, requested, SELL),
      BlockedScores(scores, held, SortedCodes(planned, SELL) + SortedCodes(requested, SELL), holdThresh))
  {
    var plannedCodes, requestedCodes := SortedCodes(planned, SELL), SortedCodes(requested, SELL);
    if |requestedCodes| > |plannedCodes| {
      return false;
    }
    var plannedScores, requestedScores := Scores(scores, plannedCodes), Scores(scores, requestedCodes);
    if !Finite(plannedScores) || !Finite(requestedScores) {
      return false;
    }
    var found, remaining := PopMatches(requestedScores, plannedScores);
    if !found {
      return false;
    }
    var blockedTies := BlockedScores(scores, held, plannedCodes + requestedCodes, holdThresh);
    var explained, _ := PopMatches(remaining, blockedTies);
    return explained;
  }

  /** `_orders_match_or_tie_equivalent`. */
  method OrdersMatchOrTieEquivalent(
    planned: Orders, requested: Orders, scores: map<string, real>, positions: Option<seq<Holding>>, policy: Option<Policy>)
    returns (r: bool)
    ensures r <==> Equivalent(planned, requested, scores, positions, policy)
  {
    hide BlockedScores, SortedCodes, Scores, ExplainedShortfall, TiedSides;
    if !KnownActions(planned) || !KnownActions(requested) {
      return false;
    }
    if SameOrders(planned, requested) {
      return true;
    }
    if policy.Some? && !policy.value.Topk? {
      return false;
    }
    var actions := [BUY, SELL];
    for i := 0 to 2
      invariant i > 0 ==> BuysMatch(planned, requested, scores)
      invariant i > 1 ==> SellsMatch(planned, requested, scores, positions, policy)
    {
      var p, q := SideScores(scores, planned, actions[i]), SideScores(scores, requested, actions[i]);
      if |p| != |q| {
        DifferentSizesAreNotTied(p, q);
        if actions[i] != SELL || positions.None? || policy.None? {
          return false;
        }
        var explained := ShortfallIsExplained(planned, requested, scores, positions.value, policy.value.holdThresh);
        if !explained {
          return false;
        }
        continue;
      }
      ShortfallNeedsFewer(p, q);
      var tied := SideIsTied(p, q);
      if !tied {
        return false;
      }
    }
    return true;
  }

  lemma DifferentSizesAreNotTied(p: seq<Score>, q: seq<Score>)
    ensures |p| != |q| ==> !TiedSides(p, q)
  {
    assert |multiset(p)| == |p| && |multiset(q)| == |q|;
  }

  lemma ShortfallNeedsFewer(p: seq<Score>, q: seq<Score>)
    ensures |p| == |q| ==> forall blocked :: !ExplainedShortfall(p, q, blocked)
  {}

  // ----- what is tolerated

  lemma {:induction false} CodesOfMember(orders: Orders, action: Action, code: string)
    ensures code in SortedCodes(orders, action) <==> (code, action) in orders
  {
    StringLeOrder();
    SortCorrect(StringLe, CodesOf(orders, action));
    CodesOfUnsorted(orders, action, code);
    assert code in SortedCodes(orders, action) <==> code in multiset(SortedCodes(orders, action));
    assert code in CodesOf(orders, action) <==> code in multiset(CodesOf(orders, action));
  }

  lemma {:induction false} CodesOfUnsorted(orders: Orders, action: Action, code: string)
    ensures code in CodesOf(orders, action) <==> (code, action) in orders
  {
    if orders != [] {
      CodesOfUnsorted(orders[1..], action, code);
      assert orders == [orders[0]] + orders[1..];
    }
  }

  /** No two of these instruments share a score. */
  ghost predicate ScoresDiffer(scores: map<string, real>, codes: set<string>) {
    forall a, b :: a in codes && b in codes && a in scores && b in scores && scores[a] == scores[b] ==> a == b
  }

  ghost function Traded(orders: Orders): set<string> { set i | 0 <= i < |orders| :: orders[i].0 }

  ghost function Held(held: seq<Holding>): set<string> { set i | 0 <= i < |held| :: held[i].instrument }

  lemma ScoreIn(scores: map<string, real>, codes: seq<string>, s: Score)
    ensures s in multiset(Scores(scores, codes)) <==> exists i :: 0 <= i < |codes| && ScoreOf(scores, codes[i]) == s
  {
    var r := Scores(scores, codes);
    assert s in multiset(r) <==> s in r;
    assert s in r <==> exists i :: 0 <= i < |r| && r[i] == s;
  }

  /** Without ties, a side whose scores are all on the other side is contained in it. */
  lemma UntiedSideContained(scores: map<string, real>, a: Orders, b: Orders, action: Action, code: string)
    requires ScoresDiffer(scores, Traded(a) + Traded(b))
    requires Finite(SideScores(scores, a, action))
    requires multiset(SideScores(scores, a, action)) <= multiset(SideScores(scores, b, action))
    requires (code, action) in a
    ensures (code, action) in b
  {
    hide ScoresDiffer, SortedCodes;
    CodesOfMember(a, action, code);
    var p, q := SortedCodes(a, action), SortedCodes(b, action);
    var i :| 0 <= i < |p| && p[i] == code;
    var s := ScoreOf(scores, code);
    assert SideScores(scores, a, action)[i] == s;
    assert s in multiset(SideScores(scores, a, action));
    ScoreIn(scores, q, s);
    var j :| 0 <= j < |q| && ScoreOf(scores, q[j]) == s;
    CodesOfMember(b, action, q[j]);
    TradedMember(a, action, code);
    TradedMember(b, action, q[j]);
    SameScoreSameCode(scores, Traded(a) + Traded(b), code, q[j]);
  }

  lemma TradedMember(orders: Orders, action: Action, code: string)
    requires (code, action) in orders
    ensures code in Traded(orders)
  {}

  lemma SameScoreSameCode(scores: map<string, real>, codes: set<string>, a: string, b: string)
    requires ScoresDiffer(scores, codes) && a in codes && b in codes
    requires ScoreOf(scores, a) == ScoreOf(scores, b) && ScoreOf(scores, a).Some?
    ensures a == b
  {}

  lemma {:induction false} BlockedComesFromOthers(
    scores: map<string, real>, held: seq<Holding>, excluded: seq<string>, holdThresh: int, s: Score)
    requires s in BlockedScores(scores, held, excluded, holdThresh)
    ensures exists code :: code in Held(held) && code !in excluded && ScoreOf(scores, code) == s
  {
    if held != [] {
      var code := held[0].instrument;
      assert code in Held(held);
      if !(code !in excluded && DaysHeld(held[0]) < holdThresh && ScoreOf(scores, code) == s) {
        BlockedComesFromOthers(scores, held[1..], excluded, holdThresh, s);
        var other :| other in Held(held[1..]) && other !in excluded && ScoreOf(scores, other) == s;
        assert other in Held(held) by {
          var k :| 0 <= k < |held[1..]| && held[1..][k].instrument == other;
          assert held[k + 1].instrument == other;
        }
      }
    }
  }

  lemma {:induction false} MemberOfDifference(p: seq<Score>, rest: multiset<Score>) returns (s: Score)
    requires rest <= multiset(p) && |rest| > 0
    ensures s in rest
  {
    assert p == [p[0]] + p[1..];
    if p[0] in rest {
      s := p[0];
    } else {
      s := MemberOfDifference(p[1..], rest);
    }
  }

  /** A shortfall is only ever explained by a tie. */
  lemma UntiedShortfallIsReal(
    scores: map<string, real>, planned: Orders, requested: Orders, held: seq<Holding>, holdThresh: int)
    requires ScoresDiffer(scores, Traded(planned) + Traded(requested) + Held(held))
    ensures !ExplainedShortfall(
      SideScores(scores, planned, SELL), SideScores(scores, requested, SELL),
      BlockedScores(scores, held, SortedCodes(planned, SELL) + SortedCodes(requested, SELL), holdThresh))
  {
    hide ScoresDiffer, SortedCodes, BlockedScores, Held;
    var p, q := SideScores(scores, planned, SELL), SideScores(scores, requested, SELL);
    var excluded := SortedCodes(planned, SELL) + SortedCodes(requested, SELL);
    var blocked := BlockedScores(scores, held, excluded, holdThresh);
    if ExplainedShortfall(p, q, blocked) {
      assert |multiset(p) - multiset(q)| == |multiset(p)| - |multiset(q)|;
      var s := MemberOfDifference(p, multiset(p) - multiset(q));
      assert s in multiset(p) && s in multiset(blocked);
      BlockedComesFromOthers(scores, held, excluded, holdThresh, s);
      var other :| other in Held(held) && other !in excluded && ScoreOf(scores, other) == s;
      ScoreIn(scores, SortedCodes(planned, SELL), s);
      var i :| 0 <= i < |SortedCodes(planned, SELL)| && ScoreOf(scores, SortedCodes(planned, SELL)[i]) == s;
      var code := SortedCodes(planned, SELL)[i];
      CodesOfMember(planned, SELL, code);
      TradedMember(planned, SELL, code);
      assert code in excluded;
      SameScoreSameCode(scores, Traded(planned) + Traded(requested) + Held(held), code, other);
      assert false;
    }
  }

  /** Without ties among the traded and held instruments the check is equality: any other divergence is
      reported, whatever the policy. */
  lemma WithoutTiesOnlyEquality(
    planned: Orders, requested: Orders, scores: map<string, real>, positions: Option<seq<Holding>>, policy: Option<Policy>)
    requires ScoresDiffer(scores, Traded(planned) + Traded(requested) + (if positions.Some? then Held(positions.value) else {}))
    ensures Equivalent(planned, requested, scores, positions, policy)
      <==> KnownActions(planned) && KnownActions(requested) && SameOrders(planned, requested)
  {
    hide SideScores, SortedCodes, BlockedScores, ExplainedShortfall, Traded, Held;
    if Equivalent(planned, requested, scores, positions, policy) && !SameOrders(planned, requested) {
      if positions.Some? && policy.Some? && policy.value.Topk? {
        UntiedShortfallIsReal(scores, planned, requested, positions.value, policy.value.holdThresh);
      }
      UntiedSidesAreEqual(scores, planned, requested, BUY);
      UntiedSidesAreEqual(scores, planned, requested, SELL);
      KnownPairsCarryOver(planned, requested);
      KnownPairsCarryOver(requested, planned);
      assert false;
    }
  }

  lemma UntiedSidesAreEqual(scores: map<string, real>, a: Orders, b: Orders, action: Action)
    requires ScoresDiffer(scores, Traded(a) + Traded(b))
    requires TiedSides(SideScores(scores, a, action), SideScores(scores, b, action))
    ensures forall code :: (code, action) in a <==> (code, action) in b
  {
    hide SideScores, ScoresDiffer, Traded;
    assert Traded(a) + Traded(b) == Traded(b) + Traded(a);
    forall code ensures (code, action) in a <==> (code, action) in b {
      if (code, action) in a {
        UntiedSideContained(scores, a, b, action, code);
      }
      if (code, action) in b {
        UntiedSideContained(scores, b, a, action, code);
      }
    }
  }

  lemma KnownPairsCarryOver(a: Orders, b: Orders)
    requires KnownActions(a)
    requires forall code :: (code, BUY) in a ==> (code, BUY) in b
    requires forall code :: (code, SELL) in a ==> (code, SELL) in b
    ensures forall i :: 0 <= i < |a| ==> a[i] in b
  {
    forall i | 0 <= i < |a| ensures a[i] in b {
      assert a[i] == (a[i].0, a[i].1);
    }
  }

  /** Tolerated substitutions keep the size of each side: as many buys as planned, and never more sales. */
  lemma ToleranceKeepsSizes(
    planned: Orders, requested: Orders, scores: map<string, real>, positions: Option<seq<Holding>>, policy: Option<Policy>)
    requires Equivalent(planned, requested, scores, positions, policy) && !SameOrders(planned, requested)
    ensures |SortedCodes(requested, BUY)| == |SortedCodes(planned, BUY)|
    ensures |SortedCodes(requested, SELL)| <= |SortedCodes(planned, SELL)|
    ensures |SortedCodes(requested, SELL)| < |SortedCodes(planned, SELL)| ==> positions.Some? && policy.Some?
  {
    hide SortedCodes, BlockedScores;
    DifferentSizesAreNotTied(SideScores(scores, planned, BUY), SideScores(scores, requested, BUY));
    DifferentSizesAreNotTied(SideScores(scores, planned, SELL), SideScores(scores, requested, SELL));
  }
}
