/** The turnover blend and the minimum-position step that turn a model target into the traded target
    (backtesting/portfolio.py, `portfolio_turnover` and the end of `construct_target_portfolio`). */
module Turnover {
  import opened Basics
  import opened WaterFilling

  datatype PortfolioPolicy = PortfolioPolicy(
    topN: int,
    maxPosition: real,
    maxExposure: real,
    maxGroupExposure: real,
    maxTurnover: Option<real>,
    minPosition: real,
    volatilityFloor: real)
  {
    /** The numeric checks of `PortfolioPolicy.validate`. */
    predicate Valid() {
      && topN > 0
      && 0.0 < maxPosition <= 1.0
      && 0.0 < maxExposure <= 1.0
      && 0.0 < maxGroupExposure <= 1.0
      && (maxTurnover.Some? ==> maxTurnover.value >= 0.0)
      && 0.0 <= minPosition <= maxPosition
      && volatilityFloor > 0.0
    }
  }

  /** A weight series: distinct names with one weight each. */
  datatype Series = Series(names: seq<string>, weights: seq<real>) {
    ghost predicate Valid() {
      |names| == |weights| && Distinct(names)
    }

    predicate NonNegative() {
      forall i :: 0 <= i < |weights| ==> weights[i] >= 0.0
    }

    ghost predicate Within(low: real, high: real) {
      forall i :: 0 <= i < |weights| ==> low <= weights[i] <= high
    }
  }

  /** The weight of `name`, zero when the series does not list it. */
  function Weight(names: seq<string>, weights: seq<real>, name: string): real
    requires |names| == |weights|
  {
    if names == [] then 0.0
    else if names[0] == name then weights[0]
    else Weight(names[1..], weights[1..], name)
  }

  function Reindex(s: Series, universe: seq<string>): (r: seq<real>)
    requires |s.names| == |s.weights|
    ensures |r| == |universe|
    ensures forall i :: 0 <= i < |r| ==> r[i] == Weight(s.names, s.weights, universe[i])
  {
    seq(|universe|, i requires 0 <= i < |universe| => Weight(s.names, s.weights, universe[i]))
  }

  /** The names of `a` that are not in `b`. */
  function Missing(a: seq<string>, b: seq<string>): (r: seq<string>)
    ensures forall x :: x in r <==> x in a && x !in b
    ensures Distinct(a) ==> Distinct(r)
  {
    if a == [] then []
    else
      var rest := Missing(a[1..], b);
      assert Distinct(a) ==> a[0] !in a[1..];
      if a[0] in b then rest else [a[0]] + rest
  }

  /** Target names first, then the names only the current portfolio holds. */
  function Universe(target: Series, current: Series): (u: seq<string>)
    ensures forall x :: x in u <==> x in target.names || x in current.names
    ensures target.Valid() && current.Valid() ==> Distinct(u)
  {
    assert target.Valid() && current.Valid() ==> Distinct(target.names + Missing(current.names, target.names)) by {
      if target.Valid() && current.Valid() {
        DistinctAppend(target.names, Missing(current.names, target.names));
      }
    }
    target.names + Missing(current.names, target.names)
  }

  function Gaps(a: seq<real>, b: seq<real>): (r: seq<real>)
    requires |a| == |b|
    ensures |r| == |a| && forall i :: 0 <= i < |r| ==> r[i] == Abs(a[i] - b[i])
  {
    seq(|a|, i requires 0 <= i < |a| => Abs(a[i] - b[i]))
  }

  function PortfolioTurnover(target: Series, current: Series): real
    requires target.Valid() && current.Valid()
  {
    var u := Universe(target, current);
    0.5 * Sum(Gaps(Reindex(target, u), Reindex(current, u)))
  }

  // ----- the two steps

  function Toward(held: real, desired: real, alpha: real): real {
    held + alpha * (desired - held)
  }

  function Clip(x: real, low: real, high: real): real {
    Min(Max(x, low), high)
  }

  function Blended(held: seq<real>, desired: seq<real>, alpha: real, cap: real): (r: seq<real>)
    requires |held| == |desired|
    ensures |r| == |held| && forall i :: 0 <= i < |r| ==> r[i] == Clip(Toward(held[i], desired[i], alpha), 0.0, cap)
  {
    seq(|held|, i requires 0 <= i < |held| => Clip(Toward(held[i], desired[i], alpha), 0.0, cap))
  }

  predicate Blends(policy: PortfolioPolicy, target: Series, current: Series)
    requires target.Valid() && current.Valid()
  {
    policy.maxTurnover.Some? && PortfolioTurnover(target, current) > policy.maxTurnover.value > 0.0
  }

  /** When the pre-trade turnover exceeds a positive cap, move only part of the way to the target. */
  function BlendTurnover(policy: PortfolioPolicy, target: Series, current: Series): (r: Series)
    requires target.Valid() && current.Valid()
    ensures r.Valid()
  {
    if Blends(policy, target, current) then
      var u := Universe(target, current);
      var alpha := policy.maxTurnover.value / PortfolioTurnover(target, current);
      Series(u, Blended(Reindex(current, u), Reindex(target, u), alpha, policy.maxPosition))
    else target
  }

  function DropSmall(weights: seq<real>, minimum: real): (r: seq<real>)
    ensures |r| == |weights|
    ensures forall i :: 0 <= i < |r| ==> r[i] == if weights[i] < minimum then 0.0 else weights[i]
  {
    seq(|weights|, i requires 0 <= i < |weights| => if weights[i] < minimum then 0.0 else weights[i])
  }

  function MinimumPosition(policy: PortfolioPolicy, s: Series): (r: Series)
    requires s.Valid()
    ensures r.Valid()
  {
    Series(s.names, DropSmall(s.weights, policy.minPosition))
  }

  // ----- series facts

  lemma {:induction false} WeightAt(names: seq<string>, weights: seq<real>, i: nat)
    requires |names| == |weights| && Distinct(names) && i < |names|
    ensures Weight(names, weights, names[i]) == weights[i]
  {
    if i > 0 {
      assert names[0] != names[i];
      WeightAt(names[1..], weights[1..], i - 1);
    }
  }

  lemma {:induction false} WeightOf(names: seq<string>, weights: seq<real>, name: string)
    requires |names| == |weights|
    ensures name !in names ==> Weight(names, weights, name) == 0.0
    ensures name in names ==> exists i :: 0 <= i < |names| && names[i] == name && Weight(names, weights, name) == weights[i]
  {
    if names != [] && names[0] != name {
      WeightOf(names[1..], weights[1..], name);
      if name in names[1..] {
        var i :| 0 <= i < |names[1..]| && names[1..][i] == name && Weight(names[1..], weights[1..], name) == weights[1..][i];
        assert names[i + 1] == name && weights[i + 1] == weights[1..][i];
      }
    }
  }

  lemma ReindexSelf(s: Series)
    requires s.Valid()
    ensures Reindex(s, s.names) == s.weights
  {
    forall i | 0 <= i < |s.names| ensures Reindex(s, s.names)[i] == s.weights[i] {
      WeightAt(s.names, s.weights, i);
    }
  }

  lemma ReindexWithin(s: Series, universe: seq<string>, low: real, high: real)
    requires s.Valid() && s.Within(low, high) && low <= 0.0 <= high
    ensures forall i :: 0 <= i < |universe| ==> low <= Reindex(s, universe)[i] <= high
  {
    forall i | 0 <= i < |universe| ensures low <= Reindex(s, universe)[i] <= high {
      WeightOf(s.names, s.weights, universe[i]);
    }
  }

  lemma ReindexNonNegative(s: Series, universe: seq<string>)
    requires s.Valid() && s.NonNegative()
    ensures forall i :: 0 <= i < |universe| ==> Reindex(s, universe)[i] >= 0.0
  {
    hide Weight;
    forall i | 0 <= i < |universe| ensures Reindex(s, universe)[i] >= 0.0 {
      WeightOf(s.names, s.weights, universe[i]);
    }
  }

  /** Reindexing onto a universe that lists every name keeps the total. */
  lemma {:induction false} ReindexTotal(names: seq<string>, weights: seq<real>, universe: seq<string>)
    requires |names| == |weights| && Distinct(names) && Distinct(universe)
    requires forall x :: x in names ==> x in universe
    ensures Sum(Reindex(Series(names, weights), universe)) == Sum(weights)
    decreases |names|
  {
    var all := Reindex(Series(names, weights), universe);
    if names == [] {
      assert all == Constant(|universe|, 0.0);
      SumConstant(|universe|, 0.0);
    } else {
      var rest := Reindex(Series(names[1..], weights[1..]), universe);
      ReindexTotal(names[1..], weights[1..], universe);
      assert names[0] in names;
      var k :| 0 <= k < |universe| && universe[k] == names[0];
      WeightOf(names[1..], weights[1..], names[0]);
      assert names[0] !in names[1..];
      assert rest[k] == 0.0 && all[k] == weights[0];
      forall i | 0 <= i < |all| && i != k ensures all[i] == rest[i] {
        assert universe[i] != universe[k];
      }
      assert all[..k] + all[k + 1..] == rest[..k] + rest[k + 1..];
      SumRemove(all, k);
      SumRemove(rest, k);
    }
  }

  // ----- interpolation

  lemma TowardBetween(held: real, desired: real, alpha: real, cap: real)
    requires 0.0 <= alpha <= 1.0 && 0.0 <= held <= cap && 0.0 <= desired <= cap
    ensures 0.0 <= Toward(held, desired, alpha) <= cap
  {
    if desired >= held {
      ProductSign(alpha, desired - held);
      ProductSign(1.0 - alpha, desired - held);
    } else {
      ProductSign(alpha, held - desired);
      ProductSign(1.0 - alpha, held - desired);
    }
  }

  lemma TowardGap(held: real, desired: real, alpha: real)
    requires alpha >= 0.0
    ensures Abs(Toward(held, desired, alpha) - held) == alpha * Abs(desired - held)
  {
    if desired >= held { ProductSign(alpha, desired - held); } else { ProductSign(alpha, held - desired); }
  }

  function TowardAll(held: seq<real>, desired: seq<real>, alpha: real): (r: seq<real>)
    requires |held| == |desired|
    ensures |r| == |held| && forall i :: 0 <= i < |r| ==> r[i] == Toward(held[i], desired[i], alpha)
  {
    seq(|held|, i requires 0 <= i < |held| => Toward(held[i], desired[i], alpha))
  }

  /** Moving a fraction `alpha` of the way trades that fraction of the turnover. */
  lemma TowardScalesGaps(held: seq<real>, desired: seq<real>, alpha: real)
    requires |held| == |desired| && alpha >= 0.0
    ensures Sum(Gaps(TowardAll(held, desired, alpha), held)) == alpha * Sum(Gaps(desired, held))
  {
    hide Toward, Abs, Sum, Scale;
    var gaps := Gaps(TowardAll(held, desired, alpha), held);
    var scaled := Scale(alpha, Gaps(desired, held));
    forall i | 0 <= i < |gaps| ensures gaps[i] == scaled[i] {
      ScaleAt(alpha, Gaps(desired, held), i);
      TowardGap(held[i], desired[i], alpha);
    }
    assert gaps == scaled;
    SumScale(alpha, Gaps(desired, held));
  }

  lemma {:induction false} TowardTotal(held: seq<real>, desired: seq<real>, alpha: real)
    requires |held| == |desired|
    ensures Sum(TowardAll(held, desired, alpha)) == Toward(Sum(held), Sum(desired), alpha)
  {
    if held != [] {
      TowardTotal(held[1..], desired[1..], alpha);
      assert TowardAll(held, desired, alpha)[1..] == TowardAll(held[1..], desired[1..], alpha);
      TowardAdds(held[0], desired[0], Sum(held[1..]), Sum(desired[1..]), alpha);
    }
  }

  lemma TowardAdds(o1: real, d1: real, o2: real, d2: real, alpha: real)
    ensures Toward(o1, d1, alpha) + Toward(o2, d2, alpha) == Toward(o1 + o2, d1 + d2, alpha)
  {}

  /** With every weight inside the cap, clipping the blend changes nothing. */
  lemma BlendClipsNothing(held: seq<real>, desired: seq<real>, alpha: real, cap: real)
    requires |held| == |desired| && 0.0 <= alpha <= 1.0
    requires forall i :: 0 <= i < |held| ==> 0.0 <= held[i] <= cap && 0.0 <= desired[i] <= cap
    ensures Blended(held, desired, alpha, cap) == TowardAll(held, desired, alpha)
  {
    hide Toward;
    forall i | 0 <= i < |held| ensures Blended(held, desired, alpha, cap)[i] == Toward(held[i], desired[i], alpha) {
      TowardBetween(held[i], desired[i], alpha, cap);
    }
  }

  // ----- what the clip cuts off

  function Excess(x: real, cap: real): real { Max(0.0, x - cap) }

  /** How far each blended weight lies above the position cap before it is clipped. */
  function Excesses(held: seq<real>, desired: seq<real>, alpha: real, cap: real): (r: seq<real>)
    requires |held| == |desired|
    ensures |r| == |held| && forall i :: 0 <= i < |r| ==> r[i] == Excess(Toward(held[i], desired[i], alpha), cap)
  {
    seq(|held|, i requires 0 <= i < |held| => Excess(Toward(held[i], desired[i], alpha), cap))
  }

  /** The whole weight that the clip of a blend cuts off. */
  function ClippedAway(policy: PortfolioPolicy, target: Series, current: Series): real
    requires target.Valid() && current.Valid()
  {
    if Blends(policy, target, current) then
      var u := Universe(target, current);
      var alpha := policy.maxTurnover.value / PortfolioTurnover(target, current);
      Sum(Excesses(Reindex(current, u), Reindex(target, u), alpha, policy.maxPosition))
    else 0.0
  }

  /** No blended weight lies above the position cap. */
  predicate BlendFits(policy: PortfolioPolicy, target: Series, current: Series)
    requires target.Valid() && current.Valid()
  {
    Blends(policy, target, current) ==>
      var u := Universe(target, current);
      var alpha := policy.maxTurnover.value / PortfolioTurnover(target, current);
      forall i :: 0 <= i < |u| ==> Toward(Reindex(current, u)[i], Reindex(target, u)[i], alpha) <= policy.maxPosition
  }

  /** Only a holding above the cap can be clipped, and then the clip sells what it cuts off. */
  lemma ClipTradesExcess(held: real, desired: real, alpha: real, cap: real)
    requires 0.0 <= alpha <= 1.0 && held >= 0.0 && 0.0 <= desired <= cap
    ensures var t := Toward(held, desired, alpha);
      && Abs(Clip(t, 0.0, cap) - held) == Abs(t - held) + Excess(t, cap)
      && 0.0 <= Clip(t, 0.0, cap) <= Max(0.0, t) == t
  {
    hide Toward;
    TowardBetween(held, desired, alpha, Max(held, desired));
    if desired <= held {
      TowardFromAbove(held, desired, alpha);
    }
  }

  lemma TowardFromAbove(held: real, desired: real, alpha: real)
    requires 0.0 <= alpha <= 1.0 && desired <= held
    ensures desired <= Toward(held, desired, alpha) <= held
  {
    ProductSign(alpha, held - desired);
    ProductSign(1.0 - alpha, held - desired);
  }


  // ----- main results

  /** The parts of a blend that the lemmas below use. */
  lemma BlendParts(policy: PortfolioPolicy, target: Series, current: Series)
    requires policy.Valid() && target.Valid() && current.Valid() && Blends(policy, target, current)
    requires target.Within(0.0, policy.maxPosition) && current.NonNegative()
    ensures var u, alpha := Universe(target, current), policy.maxTurnover.value / PortfolioTurnover(target, current);
      && 0.0 < alpha <= 1.0 && PortfolioTurnover(target, current) * alpha == policy.maxTurnover.value
      && (forall i :: 0 <= i < |u| ==> Reindex(current, u)[i] >= 0.0 && 0.0 <= Reindex(target, u)[i] <= policy.maxPosition)
  {
    hide PortfolioTurnover, Weight;
    var u := Universe(target, current);
    Ratio(policy.maxTurnover.value, PortfolioTurnover(target, current));
    ReindexWithin(target, u, 0.0, policy.maxPosition);
    ReindexNonNegative(current, u);
  }

  /** A blend trades the turnover cap, and half of what its clip cuts off on top: a clipped holding is sold
      further than the cap allows. */
  lemma BlendedTurnoverIsCapPlusClip(policy: PortfolioPolicy, target: Series, current: Series)
    requires policy.Valid() && target.Valid() && current.Valid() && Blends(policy, target, current)
    requires target.Within(0.0, policy.maxPosition) && current.NonNegative()
    ensures var r := BlendTurnover(policy, target, current);
      && r.names == Universe(target, current)
      && PortfolioTurnover(r, current) == policy.maxTurnover.value + 0.5 * ClippedAway(policy, target, current)
      && r.Within(0.0, policy.maxPosition)
  {
    hide Sum, Toward, Weight, Abs, Clip, Excess;
    var u := Universe(target, current);
    var held, desired := Reindex(current, u), Reindex(target, u);
    var pre, cap := PortfolioTurnover(target, current), policy.maxTurnover.value;
    var alpha := cap / pre;
    BlendParts(policy, target, current);
    TowardScalesGaps(held, desired, alpha);
    var r := BlendTurnover(policy, target, current);
    UniverseOfBlend(r, target, current);
    ReindexSelf(r);
    var unclipped := Gaps(TowardAll(held, desired, alpha), held);
    var excesses := Excesses(held, desired, alpha, policy.maxPosition);
    forall i | 0 <= i < |u|
      ensures Gaps(r.weights, held)[i] == unclipped[i] + excesses[i] && 0.0 <= r.weights[i] <= policy.maxPosition
    {
      ClipTradesExcess(held[i], desired[i], alpha, policy.maxPosition);
      ClipAtMost(Toward(held[i], desired[i], alpha), policy.maxPosition);
    }
    SumAdd(unclipped, excesses, Gaps(r.weights, held));
    HalfScaled(alpha, Sum(Gaps(desired, held)), pre, cap);
  }

  lemma ClipAtMost(x: real, cap: real)
    requires cap >= 0.0
    ensures 0.0 <= Clip(x, 0.0, cap) <= cap
  {}

  lemma HalfScaled(alpha: real, gaps: real, pre: real, cap: real)
    requires pre == 0.5 * gaps && pre * alpha == cap
    ensures 0.5 * (alpha * gaps) == cap
  {}

  lemma UniverseOfBlend(r: Series, target: Series, current: Series)
    requires r.names == Universe(target, current)
    ensures Universe(r, current) == r.names
  {
    NothingMissing(current.names, r.names);
  }

  lemma NothingMissing(a: seq<string>, b: seq<string>)
    requires forall x :: x in a ==> x in b
    ensures Missing(a, b) == []
  {
    if Missing(a, b) != [] {
      assert Missing(a, b)[0] in Missing(a, b);
    }
  }

  /** Nothing is cut off exactly when no blended weight lies above the cap. */
  lemma NothingClippedExactlyWhen(policy: PortfolioPolicy, target: Series, current: Series)
    requires target.Valid() && current.Valid()
    ensures ClippedAway(policy, target, current) >= 0.0
    ensures ClippedAway(policy, target, current) == 0.0 <==> BlendFits(policy, target, current)
  {
    hide Sum, Toward, Weight, PortfolioTurnover;
    if Blends(policy, target, current) {
      var u := Universe(target, current);
      var alpha := policy.maxTurnover.value / PortfolioTurnover(target, current);
      var cut := Excesses(Reindex(current, u), Reindex(target, u), alpha, policy.maxPosition);
      forall i | 0 <= i < |cut| ensures cut[i] >= 0.0 {}
      NonNegativeSum(cut);
    }
  }

  /** A non-negative vector has a non-negative total, and total zero exactly when it is zero throughout. */
  lemma NonNegativeSum(a: seq<real>)
    requires forall i :: 0 <= i < |a| ==> a[i] >= 0.0
    ensures Sum(a) >= 0.0
    ensures Sum(a) == 0.0 <==> forall i :: 0 <= i < |a| ==> a[i] == 0.0
  {
    hide Sum;
    SumConstant(|a|, 0.0);
    SumMonotone(Constant(|a|, 0.0), a);
    forall i | 0 <= i < |a| ensures a[i] <= Sum(a) {
      EntryAtMostSum(a, i);
    }
    if forall i :: 0 <= i < |a| ==> a[i] == 0.0 {
      assert a == Constant(|a|, 0.0);
    }
  }

  /** Target and current portfolio give every name the same weight. */
  predicate SamePortfolio(target: Series, current: Series)
    requires target.Valid() && current.Valid()
  {
    var u := Universe(target, current);
    Reindex(target, u) == Reindex(current, u)
  }

  lemma NoTurnoverExactlyWhen(target: Series, current: Series)
    requires target.Valid() && current.Valid()
    ensures PortfolioTurnover(target, current) >= 0.0
    ensures PortfolioTurnover(target, current) == 0.0 <==> SamePortfolio(target, current)
  {
    hide Sum, Weight;
    var u := Universe(target, current);
    var gaps := Gaps(Reindex(target, u), Reindex(current, u));
    assert forall i :: 0 <= i < |gaps| ==> gaps[i] >= 0.0;
    NonNegativeSum(gaps);
    if forall i :: 0 <= i < |gaps| ==> gaps[i] == 0.0 {
      forall i | 0 <= i < |u| ensures Reindex(target, u)[i] == Reindex(current, u)[i] {
        assert gaps[i] == 0.0;
      }
      assert Reindex(target, u) == Reindex(current, u);
    }
  }

  /** The blend keeps the turnover within the policy's cap exactly when a cap of zero meets a target equal to the
      current portfolio, or a positive cap meets a blend without a weight above the position cap. */
  lemma TurnoverCapHoldsExactlyWhen(policy: PortfolioPolicy, target: Series, current: Series)
    requires policy.Valid() && target.Valid() && current.Valid() && policy.maxTurnover.Some?
    requires target.Within(0.0, policy.maxPosition) && current.NonNegative()
    ensures PortfolioTurnover(BlendTurnover(policy, target, current), current) <= policy.maxTurnover.value
       <==> if policy.maxTurnover.value == 0.0 then SamePortfolio(target, current) else BlendFits(policy, target, current)
  {
    hide Sum, Weight, BlendFits, ClippedAway;
    NoTurnoverExactlyWhen(target, current);
    NothingClippedExactlyWhen(policy, target, current);
    if Blends(policy, target, current) {
      BlendedTurnoverIsCapPlusClip(policy, target, current);
    } else {
      NoBlendFits(policy, target, current);
    }
  }

  lemma NoBlendFits(policy: PortfolioPolicy, target: Series, current: Series)
    requires target.Valid() && current.Valid() && !Blends(policy, target, current)
    ensures BlendFits(policy, target, current) && ClippedAway(policy, target, current) == 0.0
  {}

  /** With every current weight inside the position cap, a blend trades exactly the turnover cap. */
  lemma BlendedTurnoverIsCap(policy: PortfolioPolicy, target: Series, current: Series)
    requires policy.Valid() && target.Valid() && current.Valid() && Blends(policy, target, current)
    requires target.Within(0.0, policy.maxPosition) && current.Within(0.0, policy.maxPosition)
    ensures PortfolioTurnover(BlendTurnover(policy, target, current), current) == policy.maxTurnover.value
  {
    hide Sum, Weight, Toward, PortfolioTurnover;
    var u := Universe(target, current);
    var alpha := policy.maxTurnover.value / PortfolioTurnover(target, current);
    BlendParts(policy, target, current);
    ReindexWithin(current, u, 0.0, policy.maxPosition);
    forall i | 0 <= i < |u| ensures Toward(Reindex(current, u)[i], Reindex(target, u)[i], alpha) <= policy.maxPosition {
      TowardBetween(Reindex(current, u)[i], Reindex(target, u)[i], alpha, policy.maxPosition);
    }
    NothingClippedExactlyWhen(policy, target, current);
    BlendedTurnoverIsCapPlusClip(policy, target, current);
  }

  /** A cap of zero lets a whole portfolio be bought in one step. */
  lemma ZeroCapIsNoCap()
    ensures var policy := PortfolioPolicy(1, 1.0, 1.0, 1.0, Some(0.0), 0.0, 1.0);
      var target, current := Series(["A"], [1.0]), Series([], []);
      && policy.Valid() && target.Valid() && current.Valid()
      && PortfolioTurnover(BlendTurnover(policy, target, current), current) == 0.5 > policy.maxTurnover.value
  {
    var target, current := Series(["A"], [1.0]), Series([], []);
    var u := Universe(target, current);
    assert u == ["A"];
    assert Reindex(target, u) == [1.0] && Reindex(current, u) == [0.0];
    assert Gaps([1.0], [0.0]) == [1.0];
    assert Sum([1.0]) == 1.0 + Sum([]);
  }

  /** A holding of one half under a position cap of one tenth: a positive turnover cap of one tenth is
      exceeded twofold. */
  lemma ClipBreaksTheCap()
    ensures var policy := PortfolioPolicy(1, 0.1, 1.0, 1.0, Some(0.1), 0.0, 1.0);
      var target, current := Series(["A"], [0.1]), Series(["A"], [0.5]);
      && policy.Valid() && target.Valid() && current.Valid() && target.Within(0.0, 0.1) && current.NonNegative()
      && PortfolioTurnover(BlendTurnover(policy, target, current), current) == 0.2 > policy.maxTurnover.value
  {
    hide Sum, Weight;
    var policy := PortfolioPolicy(1, 0.1, 1.0, 1.0, Some(0.1), 0.0, 1.0);
    var target, current := Series(["A"], [0.1]), Series(["A"], [0.5]);
    OneName(target, current);
    assert Blends(policy, target, current);
    BlendedTurnoverIsCapPlusClip(policy, target, current);
    ReindexSelf(target);
    ReindexSelf(current);
    assert Excesses([0.5], [0.1], 0.5, 0.1) == [0.2];
    SumOfOne(0.2);
  }

  lemma SumOfOne(x: real)
    ensures Sum([x]) == x
  {}

  lemma OneName(target: Series, current: Series)
    requires target.Valid() && current.Valid() && target.names == current.names && |target.names| == 1
    ensures Universe(target, current) == target.names
    ensures PortfolioTurnover(target, current) == 0.5 * Abs(target.weights[0] - current.weights[0])
  {
    NothingMissing(current.names, target.names);
    ReindexSelf(target);
    ReindexSelf(current);
    assert Gaps(target.weights, current.weights) == [Abs(target.weights[0] - current.weights[0])];
    SumOfOne(Abs(target.weights[0] - current.weights[0]));
  }

  /** Zeroing positions below the minimum adds at most half the minimum per name, and never adds weight. */
  lemma MinimumPositionTurnover(policy: PortfolioPolicy, s: Series, current: Series)
    requires policy.Valid() && s.Valid() && current.Valid() && s.Within(0.0, policy.maxPosition)
    ensures var r := MinimumPosition(policy, s);
      && PortfolioTurnover(r, current) <= PortfolioTurnover(s, current) + 0.5 * (|s.names| as real * policy.minPosition)
      && Sum(r.weights) <= Sum(s.weights)
      && r.Within(0.0, policy.maxPosition)
      && (forall i :: 0 <= i < |r.weights| ==> r.weights[i] == 0.0 || r.weights[i] >= policy.minPosition)
  {
    hide Sum, Weight, Gaps, Reindex, Missing, DropSmall;
    var r := MinimumPosition(policy, s);
    var n, rest := |s.names|, Missing(current.names, s.names);
    var u := s.names + rest;
    var before, after, held := Reindex(s, u), Reindex(r, u), Reindex(current, u);
    var slack := Constant(n, policy.minPosition) + Constant(|rest|, 0.0);
    var bound := Add(Gaps(before, held), slack);
    DroppedGaps(policy, s, held, rest);
    SumMonotone(Gaps(after, held), bound);
    SumAdd(Gaps(before, held), slack, bound);
    SumAppend(Constant(n, policy.minPosition), Constant(|rest|, 0.0));
    SumConstant(n, policy.minPosition);
    SumConstant(|rest|, 0.0);
    SumMonotone(r.weights, s.weights);
  }

  /** Dropping a small weight widens its own gap by at most the minimum position, and no other. */
  lemma DroppedGaps(policy: PortfolioPolicy, s: Series, held: seq<real>, rest: seq<string>)
    requires policy.Valid() && s.Valid() && s.Within(0.0, policy.maxPosition) && |held| == |s.names| + |rest|
    requires forall x :: x in rest ==> x !in s.names
    ensures var before, after := Reindex(s, s.names + rest), Reindex(MinimumPosition(policy, s), s.names + rest);
      var slack := Constant(|s.names|, policy.minPosition) + Constant(|rest|, 0.0);
      forall i :: 0 <= i < |held| ==> Gaps(after, held)[i] <= Gaps(before, held)[i] + slack[i]
  {
    hide Weight, Reindex;
    ReindexSplit(s, rest);
    ReindexSplit(MinimumPosition(policy, s), rest);
  }

  /** Reindexing onto the own names and others: the own weights, then zeros. */
  lemma ReindexSplit(s: Series, rest: seq<string>)
    requires s.Valid() && forall x :: x in rest ==> x !in s.names
    ensures Reindex(s, s.names + rest) == s.weights + Constant(|rest|, 0.0)
  {
    hide Weight;
    var u := s.names + rest;
    forall i | 0 <= i < |u| ensures Reindex(s, u)[i] == (s.weights + Constant(|rest|, 0.0))[i] {
      if i < |s.names| {
        WeightAt(s.names, s.weights, i);
      } else {
        assert u[i] in rest;
        WeightOf(s.names, s.weights, u[i]);
      }
    }
  }

  /** The blend never holds more than the larger of the current portfolio and the target. */
  lemma BlendTotal(policy: PortfolioPolicy, target: Series, current: Series)
    requires policy.Valid() && target.Valid() && current.Valid()
    requires target.Within(0.0, policy.maxPosition) && current.NonNegative()
    ensures Sum(BlendTurnover(policy, target, current).weights) <= Max(Sum(current.weights), Sum(target.weights))
  {
    hide Sum, Weight, Toward, PortfolioTurnover;
    if Blends(policy, target, current) {
      var u := Universe(target, current);
      var held, desired := Reindex(current, u), Reindex(target, u);
      var alpha := policy.maxTurnover.value / PortfolioTurnover(target, current);
      BlendParts(policy, target, current);
      forall i | 0 <= i < |u| ensures Blended(held, desired, alpha, policy.maxPosition)[i] <= TowardAll(held, desired, alpha)[i] {
        ClipTradesExcess(held[i], desired[i], alpha, policy.maxPosition);
      }
      SumMonotone(Blended(held, desired, alpha, policy.maxPosition), TowardAll(held, desired, alpha));
      ReindexTotal(current.names, current.weights, u);
      ReindexTotal(target.names, target.weights, u);
      NonNegativeSum(held);
      NonNegativeSum(desired);
      TowardTotal(held, desired, alpha);
      TowardBetween(Sum(held), Sum(desired), alpha, Max(Sum(held), Sum(desired)));
    }
  }

  /** What a traded target promises: the position cap, no dust below the minimum position, a total no larger
      than the current portfolio or the exposure limit, and under a positive turnover cap a turnover within it
      up to half of what the clip cuts off and half the minimum position of every name. */
  ghost predicate TradedWithin(policy: PortfolioPolicy, r: Series, target: Series, current: Series)
    requires r.Valid() && target.Valid() && current.Valid()
  {
    && r.Within(0.0, policy.maxPosition)
    && (forall i :: 0 <= i < |r.weights| ==> r.weights[i] == 0.0 || r.weights[i] >= policy.minPosition)
    && Sum(r.weights) <= Max(Sum(current.weights), policy.maxExposure)
    && (policy.maxTurnover.Some? && policy.maxTurnover.value > 0.0 ==> PortfolioTurnover(r, current) <= TurnoverBound(policy, r, target, current))
  }

  function TurnoverBound(policy: PortfolioPolicy, r: Series, target: Series, current: Series): real
    requires target.Valid() && current.Valid() && policy.maxTurnover.Some?
  {
    policy.maxTurnover.value + 0.5 * ClippedAway(policy, target, current) + 0.5 * (|r.names| as real * policy.minPosition)
  }

  lemma TradedTargetBounds(policy: PortfolioPolicy, target: Series, current: Series)
    requires policy.Valid() && target.Valid() && current.Valid()
    requires target.Within(0.0, policy.maxPosition) && current.NonNegative()
    requires Sum(target.weights) <= policy.maxExposure
    ensures TradedWithin(policy, MinimumPosition(policy, BlendTurnover(policy, target, current)), target, current)
  {
    hide Sum, Weight, PortfolioTurnover, ClippedAway, DropSmall, BlendTurnover, Reindex, Blends;
    var blended := BlendTurnover(policy, target, current);
    BlendTotal(policy, target, current);
    BlendStays(policy, target, current);
    MinimumPositionTurnover(policy, blended, current);
  }

  /** The blend stays inside the position cap, and under a positive cap trades at most it and half of what the
      clip cuts off. */
  lemma BlendStays(policy: PortfolioPolicy, target: Series, current: Series)
    requires policy.Valid() && target.Valid() && current.Valid()
    requires target.Within(0.0, policy.maxPosition) && current.NonNegative()
    ensures var r := BlendTurnover(policy, target, current);
      && r.Within(0.0, policy.maxPosition)
      && (policy.maxTurnover.Some? && policy.maxTurnover.value > 0.0
          ==> PortfolioTurnover(r, current) <= policy.maxTurnover.value + 0.5 * ClippedAway(policy, target, current))
  {
    hide Sum, Weight, PortfolioTurnover, ClippedAway, Reindex, Toward;
    if Blends(policy, target, current) {
      BlendedTurnoverIsCapPlusClip(policy, target, current);
    } else {
      NoBlendFits(policy, target, current);
    }
  }

  /** `_current_weight_series` clips a held weight below zero. */
  function ClipNegative(s: Series): (r: Series)
    requires s.Valid()
    ensures r.Valid() && r.NonNegative() && r.names == s.names
    ensures forall i :: 0 <= i < |r.weights| ==> if s.weights[i] >= 0.0 then r.weights[i] == s.weights[i] else r.weights[i] == 0.0
  {
    Series(s.names, seq(|s.weights|, i requires 0 <= i < |s.weights| => Max(s.weights[i], 0.0)))
  }

  /** The end of `construct_target_portfolio` for the selected names: allocate under the policy's caps,
      blend towards the current portfolio, drop small positions. An empty selection yields an empty target,
      whatever is held. */
  method ConstructTarget(policy: PortfolioPolicy, names: seq<string>, raw: seq<real>, groups: seq<string>, current: Series)
    returns (result: Series, ghost target: Series)
    requires policy.Valid() && current.Valid() && Distinct(names) && |names| == |raw| == |groups|
    ensures target.Valid() && target.names == names
    ensures var caps := Caps(policy.maxPosition, policy.maxGroupExposure);
      target.weights == Filled(raw, groups, caps, Desired(groups, caps, policy.maxExposure), |raw|)
    ensures Feasible(target.weights, groups, Caps(policy.maxPosition, policy.maxGroupExposure), policy.maxExposure)
    ensures NearlyOptimal(target.weights, groups, Caps(policy.maxPosition, policy.maxGroupExposure), policy.maxExposure)
    ensures result ==
      if names == [] then Series([], []) else MinimumPosition(policy, BlendTurnover(policy, target, ClipNegative(current)))
    ensures result.Valid() && (names != [] ==> TradedWithin(policy, result, target, ClipNegative(current)))
  {
    hide Sum, GroupSum, Desired, NearlyOptimal, BlendTurnover, MinimumPosition, TradedWithin;
    var caps := Caps(policy.maxPosition, policy.maxGroupExposure);
    var weights, _, _ := BoundedAllocate(raw, groups, policy.maxExposure, caps);
    DesiredCoversCapacity(groups, caps, policy.maxExposure);
    target := Series(names, weights);
    if names == [] {
      return Series([], []), target;
    }
    var held := ClipNegative(current);
    result := MinimumPosition(policy, BlendTurnover(policy, Series(names, weights), held));
    TradedTargetBounds(policy, target, held);
  }
}
