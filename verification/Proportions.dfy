/** How the weights of the water-filling loop follow the signal (backtesting/portfolio.py, `_bounded_allocate`). */
module Proportions {
  import opened Basics
  import opened WaterFilling

  /** The signal of a name: its raw weight, or zero. */
  function Positive(raw: seq<real>, i: nat): real
    requires i < |raw|
  {
    Max(raw[i], 0.0)
  }

  predicate Balanced(x: real, y: real, s: real, t: real) { x * t == y * s }

  /** `x` and `y` stand to each other as the signals `s` and `t`; equal signals get equal shares. */
  predicate InRatio(x: real, y: real, s: real, t: real) {
    Balanced(x, y, s, t) && (s == t ==> x == y)
  }

  lemma RatioAdds(x: real, y: real, u: real, v: real, s: real, t: real)
    requires InRatio(x, y, s, t) && InRatio(u, v, s, t)
    ensures InRatio(x + u, y + v, s, t)
  {}

  lemma RatioScales(x: real, y: real, k: real, s: real, t: real)
    requires InRatio(x, y, s, t)
    ensures InRatio(Times(x, k), Times(y, k), s, t)
  {
    assert x * k * t == x * t * k && y * k * s == y * s * k;
  }

  // ----- the proposal

  lemma ProposedAt(raw: seq<real>, e: seq<int>, remaining: real, i: nat)
    requires e != [] && remaining >= 0.0 && (forall k :: k in e ==> 0 <= k < |raw|) && i < |raw|
    ensures Proposed(raw, e, remaining)[i] == Times(Signal(raw, e)[i], remaining / Sum(Signal(raw, e)))
    ensures remaining / Sum(Signal(raw, e)) >= 0.0
  {
    hide Signal, Sum;
    QuotientTimes(remaining, Sum(Signal(raw, e)));
    ScaleAt(remaining / Sum(Signal(raw, e)), Signal(raw, e), i);
  }

  /** What a round proposes follows the signals, and a name with the larger signal is proposed no less. */
  lemma ProposedInRatio(raw: seq<real>, e: seq<int>, remaining: real, i: nat, j: nat)
    requires e != [] && remaining >= 0.0 && (forall k :: k in e ==> 0 <= k < |raw|) && i in e && j in e
    ensures var p := Proposed(raw, e, remaining);
      && InRatio(p[i], p[j], Positive(raw, i), Positive(raw, j))
      && (Positive(raw, i) >= Positive(raw, j) ==> p[i] >= p[j])
  {
    hide Sum, InRatio, Signal, Proposed, Times, Positive;
    var s := Signal(raw, e);
    ProposedAt(raw, e, remaining, i);
    ProposedAt(raw, e, remaining, j);
    SignalInRatio(raw, e, i, j);
    RatioScales(s[i], s[j], remaining / Sum(s), Positive(raw, i), Positive(raw, j));
    TimesMonotone(s[j], s[i], remaining / Sum(s));
  }

  lemma TimesMonotone(x: real, y: real, k: real)
    requires k >= 0.0
    ensures x <= y ==> Times(x, k) <= Times(y, k)
  {
    if x <= y {
      ProductSign(y - x, k);
      Distribute(k, x, y - x);
    }
  }

  lemma SignalInRatio(raw: seq<real>, e: seq<int>, i: nat, j: nat)
    requires e != [] && (forall k :: k in e ==> 0 <= k < |raw|) && i in e && j in e
    ensures InRatio(Signal(raw, e)[i], Signal(raw, e)[j], Positive(raw, i), Positive(raw, j))
    ensures Positive(raw, i) >= Positive(raw, j) ==> Signal(raw, e)[i] >= Signal(raw, e)[j]
  {
    hide Sum;
    var clipped := seq(|raw|, k requires 0 <= k < |raw| => if k in e then Max(raw[k], 0.0) else 0.0);
    EntryAtMostSum(clipped, i);
    EntryAtMostSum(clipped, j);
  }

  // ----- the cut of a group

  /** What the additions `c` of group `g` are multiplied by. */
  function GroupFactor(w: seq<real>, groups: seq<string>, caps: Caps, c: seq<real>, g: string): real
    requires |w| == |groups| == |c|
  {
    var room, proposed := Room(w, groups, caps, g), GroupSum(c, groups, g);
    if proposed > room > 0.0 then room / proposed else if room <= 0.0 then 0.0 else 1.0
  }

  lemma {:induction false} ScaledAt(a: seq<real>, groups: seq<string>, g: string, k: real, i: nat)
    requires |a| == |groups| && i < |a|
    ensures ScaleGroup(a, groups, g, k)[i] == if groups[i] == g then Times(a[i], k) else a[i]
  {
    if i > 0 {
      ScaledAt(a[1..], groups[1..], g, k, i - 1);
    }
  }

  lemma CutGroupAt(w: seq<real>, groups: seq<string>, caps: Caps, a: seq<real>, g: string, i: nat)
    requires |w| == |groups| == |a| && i < |a|
    ensures CutGroup(w, groups, caps, a, g)[i] == if groups[i] == g then Times(a[i], GroupFactor(w, groups, caps, a, g)) else a[i]
  {
    var k := GroupFactor(w, groups, caps, a, g);
    ScaledAt(a, groups, g, k, i);
  }

  lemma OtherGroupsStay(w: seq<real>, groups: seq<string>, caps: Caps, a: seq<real>, g: string, h: string)
    requires |w| == |groups| == |a| && g != h
    ensures GroupFactor(w, groups, caps, CutGroup(w, groups, caps, a, g), h) == GroupFactor(w, groups, caps, a, h)
  {
    hide CutGroup, Sum, Room;
    var b := CutGroup(w, groups, caps, a, g);
    forall i | 0 <= i < |a| ensures Mask(b, groups, h)[i] == Mask(a, groups, h)[i] {
      CutGroupAt(w, groups, caps, a, g, i);
    }
    assert Mask(b, groups, h) == Mask(a, groups, h);
  }

  lemma {:induction false} CutGroupsAt(w: seq<real>, groups: seq<string>, caps: Caps, a: seq<real>, labels: seq<string>, i: nat)
    requires |w| == |groups| == |a| && Distinct(labels) && i < |a|
    ensures CutGroups(w, groups, caps, a, labels)[i]
         == if groups[i] in labels then Times(a[i], GroupFactor(w, groups, caps, a, groups[i])) else a[i]
    decreases |labels|
  {
    hide CutGroup, GroupFactor, Times;
    if labels != [] {
      var g := labels[0];
      assert labels == [g] + labels[1..];
      assert g !in labels[1..];
      CutGroupAt(w, groups, caps, a, g, i);
      CutGroupsAt(w, groups, caps, CutGroup(w, groups, caps, a, g), labels[1..], i);
      if groups[i] != g {
        OtherGroupsStay(w, groups, caps, a, g, groups[i]);
      }
    }
  }

  /** What a round gives a name: its proposal cut to its own room, times the factor of its group. */
  lemma RoundAt(w: seq<real>, raw: seq<real>, groups: seq<string>, caps: Caps, remaining: real, i: nat)
    requires |w| == |raw| == |groups| && Eligible(w, groups, caps) != [] && i < |w|
    ensures var e := Eligible(w, groups, caps);
      var p := Proposed(raw, e, remaining);
      Round(w, raw, groups, caps, remaining)[i]
        == if i in e then Times(Min(p[i], caps.position - w[i]), GroupFactor(w, groups, caps, Capped(w, p, caps, e), groups[i])) else 0.0
  {
    hide CutGroups, GroupFactor, Proposed, EligibleBelow, Labels;
    var e := Eligible(w, groups, caps);
    CutGroupsAt(w, groups, caps, Capped(w, Proposed(raw, e, remaining), caps, e), Labels(groups), i);
  }

  lemma FactorBounds(w: seq<real>, groups: seq<string>, caps: Caps, c: seq<real>, g: string)
    requires |w| == |groups| == |c|
    ensures 0.0 <= GroupFactor(w, groups, caps, c, g) <= 1.0
    ensures caps.group - GroupSum(w, groups, g) > 0.0 ==> GroupFactor(w, groups, caps, c, g) > 0.0
  {
    hide GroupSum;
    var room, proposed := Room(w, groups, caps, g), GroupSum(c, groups, g);
    if proposed > room > 0.0 {
      Ratio(room, proposed);
    }
  }

  // ----- one round

  /** A name that still has room after a round had room before it and got all it was proposed. */
  lemma UncutAddition(w: seq<real>, raw: seq<real>, groups: seq<string>, caps: Caps, budget: real, i: nat)
    requires |raw| == |groups| && Feasible(w, groups, caps, budget) && i < |w| && Eligible(w, groups, caps) != []
    requires IsEligible(Add(w, Round(w, raw, groups, caps, budget - Sum(w))), groups, caps, i)
    ensures IsEligible(w, groups, caps, i)
    ensures Round(w, raw, groups, caps, budget - Sum(w))[i] == Proposed(raw, Eligible(w, groups, caps), budget - Sum(w))[i]
  {
    hide CutGroups, Proposed, Sum, GroupSum, Mask, EligibleBelow, Labels;
    var e := Eligible(w, groups, caps);
    var p := Proposed(raw, e, budget - Sum(w));
    var c := Capped(w, p, caps, e);
    var a := Round(w, raw, groups, caps, budget - Sum(w));
    ProposedSpendsAll(raw, e, budget - Sum(w));
    CutGroupsEffect(w, groups, caps, c, Labels(groups));
    GroupSumMonotone(w, Add(w, a), groups, groups[i]);
    if a[i] < p[i] {
      NameOrGroupFull(w, groups, caps, p, c, a, i);
    }
  }

  // ----- names with room left

  /** The loop starts from a feasible allocation of nothing. */
  ghost predicate Starts(raw: seq<real>, groups: seq<string>, caps: Caps, desired: real) {
    |raw| == |groups| && Feasible(Constant(|raw|, 0.0), groups, caps, desired)
  }

  lemma {:induction false} FilledFeasible(raw: seq<real>, groups: seq<string>, caps: Caps, desired: real, r: nat)
    requires Starts(raw, groups, caps, desired)
    ensures Feasible(Filled(raw, groups, caps, desired, r), groups, caps, desired)
  {
    hide Feasible, Sum, Eligible, Round, Add;
    if r > 0 {
      FilledFeasible(raw, groups, caps, desired, r - 1);
      var w := Filled(raw, groups, caps, desired, r - 1);
      if desired - Sum(w) > TOLERANCE && Eligible(w, groups, caps) != [] {
        RoundFeasible(w, raw, groups, caps, desired);
      }
    }
  }

  /** A round that keeps two names open adds to both in the ratio of their signals. */
  lemma RoundKeepsRatio(w: seq<real>, raw: seq<real>, groups: seq<string>, caps: Caps, desired: real, i: nat, j: nat)
    requires |w| == |raw| == |groups| && Feasible(w, groups, caps, desired) && i < |w| && j < |w|
    requires var w' := Refill(w, raw, groups, caps, desired); IsEligible(w', groups, caps, i) && IsEligible(w', groups, caps, j)
    ensures IsEligible(w, groups, caps, i) && IsEligible(w, groups, caps, j)
    ensures var w' := Refill(w, raw, groups, caps, desired);
      InRatio(w[i], w[j], Positive(raw, i), Positive(raw, j)) ==> InRatio(w'[i], w'[j], Positive(raw, i), Positive(raw, j))
  {
    hide InRatio, Sum, IsEligible, Round, Feasible, Proposed, EligibleBelow, Positive;
    if desired - Sum(w) > TOLERANCE && Eligible(w, groups, caps) != [] {
      var e := Eligible(w, groups, caps);
      var p := Proposed(raw, e, desired - Sum(w));
      UncutAddition(w, raw, groups, caps, desired, i);
      UncutAddition(w, raw, groups, caps, desired, j);
      ProposedInRatio(raw, e, desired - Sum(w), i, j);
      if InRatio(w[i], w[j], Positive(raw, i), Positive(raw, j)) {
        RatioAdds(w[i], w[j], p[i], p[j], Positive(raw, i), Positive(raw, j));
      }
    }
  }

  lemma {:induction false} OpenInRatio(raw: seq<real>, groups: seq<string>, caps: Caps, desired: real, r: nat, i: nat, j: nat)
    requires Starts(raw, groups, caps, desired) && i < |raw| && j < |raw|
    requires var w := Filled(raw, groups, caps, desired, r); IsEligible(w, groups, caps, i) && IsEligible(w, groups, caps, j)
    ensures var w := Filled(raw, groups, caps, desired, r); InRatio(w[i], w[j], Positive(raw, i), Positive(raw, j))
  {
    hide InRatio, IsEligible, Refill, Feasible, Positive;
    if r == 0 {
      NothingInRatio(Positive(raw, i), Positive(raw, j));
    } else {
      FilledFeasible(raw, groups, caps, desired, r - 1);
      RoundKeepsRatio(Filled(raw, groups, caps, desired, r - 1), raw, groups, caps, desired, i, j);
      OpenInRatio(raw, groups, caps, desired, r - 1, i, j);
    }
  }

  lemma NothingInRatio(s: real, t: real)
    ensures InRatio(0.0, 0.0, s, t)
  {}

  /** The allocation that the loop ends on. */
  function Allocation(raw: seq<real>, groups: seq<string>, exposure: real, caps: Caps): (w: seq<real>)
    requires |raw| == |groups|
    ensures |w| == |raw|
  {
    Filled(raw, groups, caps, Desired(groups, caps, exposure), |raw|)
  }

  /** Names that end with room of their own and room in their groups weigh in the ratio of their signals; with
      equal signals, none included, they weigh the same. */
  lemma OpenNamesFollowSignal(raw: seq<real>, groups: seq<string>, exposure: real, caps: Caps, i: nat, j: nat)
    requires |raw| == |groups| && exposure > 0.0 && caps.position > 0.0 && caps.group > 0.0 && i < |raw| && j < |raw|
    requires var w := Allocation(raw, groups, exposure, caps);
      && caps.position - w[i] > 0.000000000001 && caps.group - GroupSum(w, groups, groups[i]) > 0.000000000001
      && caps.position - w[j] > 0.000000000001 && caps.group - GroupSum(w, groups, groups[j]) > 0.000000000001
    ensures var w := Allocation(raw, groups, exposure, caps);
      && w[i] * Max(raw[j], 0.0) == w[j] * Max(raw[i], 0.0)
      && (Max(raw[i], 0.0) == Max(raw[j], 0.0) ==> w[i] == w[j])
  {
    hide Filled, GroupSum;
    ZeroFeasible(groups, caps, exposure);
    OpenInRatio(raw, groups, caps, Desired(groups, caps, exposure), |raw|, i, j);
  }

  // ----- names that share a group

  /** `x` is no less than `y`, or full. */
  predicate NoLess(x: real, y: real, cap: real) { x >= y || cap - x <= TOLERANCE }

  lemma PartOfRoom(x: real, p: real, y: real, q: real, cap: real, k: real)
    requires x >= y && p >= q && 0.0 <= k <= 1.0
    ensures x + Times(Min(p, cap - x), k) >= y + Times(Min(q, cap - y), k)
  {
    var u, v := x + Min(p, cap - x), y + Min(q, cap - y);
    TimesMonotone(v, u, k);
    TimesMonotone(y, x, 1.0 - k);
    Distribute(k, x, Min(p, cap - x));
    Distribute(k, y, Min(q, cap - y));
    WholeSplits(x, k);
    WholeSplits(y, k);
  }

  lemma WholeSplits(x: real, k: real)
    ensures Times(x, k) + Times(x, 1.0 - k) == x
  {}

  lemma RoundKeepsOrder(w: seq<real>, raw: seq<real>, groups: seq<string>, caps: Caps, desired: real, i: nat, j: nat)
    requires |raw| == |groups| && Feasible(w, groups, caps, desired) && i < |w| && j < |w| && groups[i] == groups[j]
    requires Positive(raw, i) >= Positive(raw, j) && NoLess(w[i], w[j], caps.position)
    ensures var w' := Refill(w, raw, groups, caps, desired); NoLess(w'[i], w'[j], caps.position)
  {
    hide Sum, Round, Proposed, EligibleBelow, Positive, Times, GroupSum;
    if desired - Sum(w) > TOLERANCE && Eligible(w, groups, caps) != [] {
      var e := Eligible(w, groups, caps);
      RoundFeasible(w, raw, groups, caps, desired);
      RoundAt(w, raw, groups, caps, desired - Sum(w), i);
      RoundAt(w, raw, groups, caps, desired - Sum(w), j);
      if i in e && j in e {
        var p := Proposed(raw, e, desired - Sum(w));
        ProposedInRatio(raw, e, desired - Sum(w), i, j);
        FactorBounds(w, groups, caps, Capped(w, p, caps, e), groups[i]);
        PartOfRoom(w[i], p[i], w[j], p[j], caps.position, GroupFactor(w, groups, caps, Capped(w, p, caps, e), groups[i]));
      }
    }
  }

  lemma {:induction false} GroupInOrder(raw: seq<real>, groups: seq<string>, caps: Caps, desired: real, r: nat, i: nat, j: nat)
    requires Starts(raw, groups, caps, desired) && i < |raw| && j < |raw| && groups[i] == groups[j]
    requires Positive(raw, i) >= Positive(raw, j)
    ensures var w := Filled(raw, groups, caps, desired, r); NoLess(w[i], w[j], caps.position)
  {
    hide Refill, Feasible, Positive;
    if r > 0 {
      FilledFeasible(raw, groups, caps, desired, r - 1);
      GroupInOrder(raw, groups, caps, desired, r - 1, i, j);
      RoundKeepsOrder(Filled(raw, groups, caps, desired, r - 1), raw, groups, caps, desired, i, j);
    }
  }

  /** In one group a larger signal never weighs less, unless it fills the position cap. */
  lemma GroupKeepsOrder(raw: seq<real>, groups: seq<string>, exposure: real, caps: Caps, i: nat, j: nat)
    requires |raw| == |groups| && exposure > 0.0 && caps.position > 0.0 && caps.group > 0.0 && i < |raw| && j < |raw|
    requires groups[i] == groups[j] && Max(raw[i], 0.0) >= Max(raw[j], 0.0)
    ensures var w := Allocation(raw, groups, exposure, caps); w[i] >= w[j] || caps.position - w[i] <= TOLERANCE
  {
    hide Filled;
    ZeroFeasible(groups, caps, exposure);
    GroupInOrder(raw, groups, caps, Desired(groups, caps, exposure), |raw|, i, j);
  }

  /** In the round that starts from `w` the name is proposed more than its own room. */
  predicate SqueezedIn(w: seq<real>, raw: seq<real>, groups: seq<string>, caps: Caps, desired: real, i: nat)
    requires |w| == |raw| == |groups| && i < |w|
  {
    && desired - Sum(w) > TOLERANCE && i in Eligible(w, groups, caps)
    && Proposed(raw, Eligible(w, groups, caps), desired - Sum(w))[i] > caps.position - w[i]
  }

  /** In one of the first `r` rounds the name is proposed more than its own room. */
  predicate Squeezed(raw: seq<real>, groups: seq<string>, caps: Caps, desired: real, r: nat, i: nat)
    requires |raw| == |groups| && i < |raw|
  {
    r > 0
    && (Squeezed(raw, groups, caps, desired, r - 1, i)
        || SqueezedIn(Filled(raw, groups, caps, desired, r - 1), raw, groups, caps, desired, i))
  }

  /** A squeezed name is closed from then on: it or its group is full. */
  lemma {:induction false} OpenIsNotSqueezed(raw: seq<real>, groups: seq<string>, caps: Caps, desired: real, r: nat, i: nat)
    requires Starts(raw, groups, caps, desired) && i < |raw| && IsEligible(Filled(raw, groups, caps, desired, r), groups, caps, i)
    ensures !Squeezed(raw, groups, caps, desired, r, i)
  {
    hide Round, Feasible, Proposed, Sum, EligibleBelow, GroupSum, GroupFactor, Times;
    if r > 0 {
      var w := Filled(raw, groups, caps, desired, r - 1);
      FilledFeasible(raw, groups, caps, desired, r - 1);
      if desired - Sum(w) > TOLERANCE && Eligible(w, groups, caps) != [] {
        UncutAddition(w, raw, groups, caps, desired, i);
        RoundAtMostRoom(w, raw, groups, caps, desired, i);
      }
      OpenIsNotSqueezed(raw, groups, caps, desired, r - 1, i);
    }
  }

  lemma RoundAtMostRoom(w: seq<real>, raw: seq<real>, groups: seq<string>, caps: Caps, desired: real, i: nat)
    requires |raw| == |groups| && Feasible(w, groups, caps, desired) && Eligible(w, groups, caps) != [] && i < |w|
    ensures 0.0 <= Round(w, raw, groups, caps, desired - Sum(w))[i] <= caps.position - w[i]
  {
    hide Round, Sum, GroupSum;
    RoundFeasible(w, raw, groups, caps, desired);
    assert Add(w, Round(w, raw, groups, caps, desired - Sum(w)))[i] <= caps.position;
  }

  /** When two names that stand in the ratio of their signals are scaled by one factor after each was cut to its
      room, the ratio survives exactly when the signals are equal, one is nothing, or nobody was cut. */
  lemma CutInRatio(x: real, y: real, p: real, q: real, s: real, t: real, cap: real, k: real)
    requires s >= 0.0 && t >= 0.0 && k > 0.0 && p >= 0.0 && q >= 0.0 && cap - x > 0.0 && cap - y > 0.0 && x >= 0.0 && y >= 0.0
    requires InRatio(x, y, s, t) && InRatio(p, q, s, t)
    ensures Balanced(x + Times(Min(p, cap - x), k), y + Times(Min(q, cap - y), k), s, t)
       <==> s == t || s == 0.0 || t == 0.0 || (p <= cap - x && q <= cap - y)
  {
    hide Balanced, Times;
    var c, d := Min(p, cap - x), Min(q, cap - y);
    ScaledGap(x, y, c, d, k, s, t);
    if s == t {
      EqualSignals(c, s);
    } else if s == 0.0 || t == 0.0 {
      NothingOfSignal(x, y, s, t);
      NothingOfSignal(p, q, s, t);
      NothingBalances(c, d, s, t);
    } else {
      DifferentSignals(x, y, p, q, s, t, cap);
    }
  }

  lemma EqualSignals(x: real, s: real)
    ensures Balanced(x, x, s, s)
  {}

  lemma NothingOfSignal(x: real, y: real, s: real, t: real)
    requires Balanced(x, y, s, t) && s >= 0.0 && t >= 0.0
    ensures s == 0.0 && t > 0.0 ==> x == 0.0
    ensures t == 0.0 && s > 0.0 ==> y == 0.0
  {}

  lemma NothingBalances(x: real, y: real, s: real, t: real)
    requires (s == 0.0 && t == 0.0) || (s == 0.0 && x == 0.0) || (t == 0.0 && y == 0.0)
    ensures Balanced(x, y, s, t)
  {}

  lemma DifferentSignals(x: real, y: real, p: real, q: real, s: real, t: real, cap: real)
    requires s > 0.0 && t > 0.0 && s != t && cap > 0.0 && Balanced(x, y, s, t) && Balanced(p, q, s, t)
    ensures Balanced(Min(p, cap - x), Min(q, cap - y), s, t) <==> p <= cap - x && q <= cap - y
  {
    if p > cap - x && q <= cap - y {
      ProductPositive(p - (cap - x), t);
      assert (p - (cap - x)) * t == p * t - (cap - x) * t;
    } else if q > cap - y && p <= cap - x {
      ProductPositive(q - (cap - y), s);
      assert (q - (cap - y)) * s == q * s - (cap - y) * s;
    } else if p > cap - x && q > cap - y {
      assert (cap - x) * t - (cap - y) * s == cap * (t - s) - (x * t - y * s);
      assert cap * (t - s) != 0.0;
    }
  }

  lemma ProductPositive(x: real, y: real)
    requires x > 0.0 && y > 0.0
    ensures x * y > 0.0
  {}

  lemma ScaledGap(x: real, y: real, c: real, d: real, k: real, s: real, t: real)
    requires k > 0.0 && Balanced(x, y, s, t)
    ensures Balanced(x + Times(c, k), y + Times(d, k), s, t) <==> Balanced(c, d, s, t)
  {
    assert (x + Times(c, k)) * t - (y + Times(d, k)) * s == (c * t - d * s) * k;
  }

  /** Two names of one group with room of their own: in ratio, or squeezed with different positive signals. */
  predicate RatioUnlessSqueezed(raw: seq<real>, groups: seq<string>, caps: Caps, desired: real, r: nat, i: nat, j: nat)
    requires |raw| == |groups| && i < |raw| && j < |raw|
  {
    var w, s, t := Filled(raw, groups, caps, desired, r), Positive(raw, i), Positive(raw, j);
    Balanced(w[i], w[j], s, t) <==>
      s == t || s == 0.0 || t == 0.0 || !(Squeezed(raw, groups, caps, desired, r, i) || Squeezed(raw, groups, caps, desired, r, j))
  }

  predicate RoomOfItsOwn(w: seq<real>, caps: Caps, i: nat)
    requires i < |w|
  {
    caps.position - w[i] > TOLERANCE
  }

  lemma {:induction false} SharedGroupRatio(raw: seq<real>, groups: seq<string>, caps: Caps, desired: real, r: nat, i: nat, j: nat)
    requires Starts(raw, groups, caps, desired) && i < |raw| && j < |raw| && groups[i] == groups[j]
    requires RoomOfItsOwn(Filled(raw, groups, caps, desired, r), caps, i) && RoomOfItsOwn(Filled(raw, groups, caps, desired, r), caps, j)
    ensures RatioUnlessSqueezed(raw, groups, caps, desired, r, i, j)
  {
    hide Round, Feasible, Sum, EligibleBelow, GroupSum, Positive, SqueezedIn, Squeezed, RatioUnlessSqueezed;
    if r == 0 {
      NothingYet(raw, groups, caps, desired, i, j);
    } else {
      var w := Filled(raw, groups, caps, desired, r - 1);
      FilledFeasible(raw, groups, caps, desired, r - 1);
      NeverLess(w, raw, groups, caps, desired, i);
      NeverLess(w, raw, groups, caps, desired, j);
      if desired - Sum(w) > TOLERANCE && i in Eligible(w, groups, caps) {
        OpenGroupRound(raw, groups, caps, desired, r, i, j);
      } else {
        ClosedNames(w, raw, groups, caps, desired, i, j);
        SharedGroupRatio(raw, groups, caps, desired, r - 1, i, j);
        RatioStays(raw, groups, caps, desired, r, i, j);
      }
    }
  }

  lemma NothingYet(raw: seq<real>, groups: seq<string>, caps: Caps, desired: real, i: nat, j: nat)
    requires |raw| == |groups| && i < |raw| && j < |raw|
    ensures RatioUnlessSqueezed(raw, groups, caps, desired, 0, i, j)
  {}

  lemma NeverLess(w: seq<real>, raw: seq<real>, groups: seq<string>, caps: Caps, desired: real, i: nat)
    requires |raw| == |groups| && Feasible(w, groups, caps, desired) && i < |w|
    ensures w[i] <= Refill(w, raw, groups, caps, desired)[i]
  {
    hide Round, Sum, EligibleBelow, GroupSum;
    if desired - Sum(w) > TOLERANCE && Eligible(w, groups, caps) != [] {
      RoundFeasible(w, raw, groups, caps, desired);
    }
  }

  lemma RatioStays(raw: seq<real>, groups: seq<string>, caps: Caps, desired: real, r: nat, i: nat, j: nat)
    requires |raw| == |groups| && i < |raw| && j < |raw| && r > 0 && RatioUnlessSqueezed(raw, groups, caps, desired, r - 1, i, j)
    requires var w := Filled(raw, groups, caps, desired, r - 1);
      && Refill(w, raw, groups, caps, desired)[i] == w[i] && Refill(w, raw, groups, caps, desired)[j] == w[j]
      && !SqueezedIn(w, raw, groups, caps, desired, i) && !SqueezedIn(w, raw, groups, caps, desired, j)
    ensures RatioUnlessSqueezed(raw, groups, caps, desired, r, i, j)
  {
    hide Refill, SqueezedIn, Positive, Balanced;
  }

  /** Names of a full group, and all names once the budget is spent, get nothing more. */
  lemma ClosedNames(w: seq<real>, raw: seq<real>, groups: seq<string>, caps: Caps, desired: real, i: nat, j: nat)
    requires |w| == |raw| == |groups| && i < |w| && j < |w| && groups[i] == groups[j]
    requires RoomOfItsOwn(w, caps, i) && RoomOfItsOwn(w, caps, j)
    requires !(desired - Sum(w) > TOLERANCE && i in Eligible(w, groups, caps))
    ensures Refill(w, raw, groups, caps, desired)[i] == w[i] && Refill(w, raw, groups, caps, desired)[j] == w[j]
    ensures !SqueezedIn(w, raw, groups, caps, desired, i) && !SqueezedIn(w, raw, groups, caps, desired, j)
  {
    hide Round, Sum, EligibleBelow, GroupSum, Proposed;
    if desired - Sum(w) > TOLERANCE && Eligible(w, groups, caps) != [] {
      RoundAt(w, raw, groups, caps, desired - Sum(w), i);
      RoundAt(w, raw, groups, caps, desired - Sum(w), j);
    }
  }

  /** A round from an open group cuts both names by one factor. */
  lemma CutRound(w: seq<real>, raw: seq<real>, groups: seq<string>, caps: Caps, desired: real, i: nat, j: nat)
    requires |w| == |raw| == |groups| && Feasible(w, groups, caps, desired) && i < |raw| && j < |raw| && groups[i] == groups[j]
    requires desired - Sum(w) > TOLERANCE && i in Eligible(w, groups, caps) && j in Eligible(w, groups, caps)
    requires InRatio(w[i], w[j], Positive(raw, i), Positive(raw, j))
    ensures var w', s, t := Refill(w, raw, groups, caps, desired), Positive(raw, i), Positive(raw, j);
      var squeezed := SqueezedIn(w, raw, groups, caps, desired, i) || SqueezedIn(w, raw, groups, caps, desired, j);
      Balanced(w'[i], w'[j], s, t) <==> s == t || s == 0.0 || t == 0.0 || !squeezed
  {
    hide Round, Feasible, Sum, EligibleBelow, GroupSum, Positive, Proposed, GroupFactor, Times, InRatio, Balanced;
    var e := Eligible(w, groups, caps);
    var p := Proposed(raw, e, desired - Sum(w));
    ProposedInRatio(raw, e, desired - Sum(w), i, j);
    ProposedSpendsAll(raw, e, desired - Sum(w));
    RoundAt(w, raw, groups, caps, desired - Sum(w), i);
    RoundAt(w, raw, groups, caps, desired - Sum(w), j);
    FactorBounds(w, groups, caps, Capped(w, p, caps, e), groups[i]);
    NothingNegative(w, raw, groups, caps, desired, i);
    NothingNegative(w, raw, groups, caps, desired, j);
    CutInRatio(w[i], w[j], p[i], p[j], Positive(raw, i), Positive(raw, j), caps.position,
               GroupFactor(w, groups, caps, Capped(w, p, caps, e), groups[i]));
  }

  lemma OpenGroupRound(raw: seq<real>, groups: seq<string>, caps: Caps, desired: real, r: nat, i: nat, j: nat)
    requires Starts(raw, groups, caps, desired) && i < |raw| && j < |raw| && groups[i] == groups[j] && r > 0
    requires var w := Filled(raw, groups, caps, desired, r - 1);
      && RoomOfItsOwn(w, caps, i) && RoomOfItsOwn(w, caps, j)
      && desired - Sum(w) > TOLERANCE && i in Eligible(w, groups, caps)
    ensures RatioUnlessSqueezed(raw, groups, caps, desired, r, i, j)
  {
    hide Round, Feasible, Sum, EligibleBelow, GroupSum, Positive, InRatio, Balanced, Squeezed, SqueezedIn, Refill;
    var w := Filled(raw, groups, caps, desired, r - 1);
    OpenIsNotSqueezed(raw, groups, caps, desired, r - 1, i);
    OpenIsNotSqueezed(raw, groups, caps, desired, r - 1, j);
    SqueezedNext(raw, groups, caps, desired, r, i);
    SqueezedNext(raw, groups, caps, desired, r, j);
    OpenInRatio(raw, groups, caps, desired, r - 1, i, j);
    FilledFeasible(raw, groups, caps, desired, r - 1);
    CutRound(w, raw, groups, caps, desired, i, j);
  }

  lemma NothingNegative(w: seq<real>, raw: seq<real>, groups: seq<string>, caps: Caps, desired: real, i: nat)
    requires |raw| == |groups| && Feasible(w, groups, caps, desired) && i < |w|
    ensures Positive(raw, i) >= 0.0 && w[i] >= 0.0
  {}

  lemma SqueezedNext(raw: seq<real>, groups: seq<string>, caps: Caps, desired: real, r: nat, i: nat)
    requires |raw| == |groups| && i < |raw| && r > 0
    ensures Squeezed(raw, groups, caps, desired, r, i)
      <==> Squeezed(raw, groups, caps, desired, r - 1, i)
           || SqueezedIn(Filled(raw, groups, caps, desired, r - 1), raw, groups, caps, desired, i)
  {}

  /** Two names of one group that end with room of their own weigh in the ratio of their signals exactly when the
      signals are equal, one of them is nothing, or the position cap never cut a proposal of either. A full group
      may therefore hold its names out of ratio: it scales down what the position cap has already cut. */
  lemma SharedGroupExactlyWhen(raw: seq<real>, groups: seq<string>, exposure: real, caps: Caps, i: nat, j: nat)
    requires |raw| == |groups| && exposure > 0.0 && caps.position > 0.0 && caps.group > 0.0 && i < |raw| && j < |raw|
    requires groups[i] == groups[j]
    requires var w := Allocation(raw, groups, exposure, caps); caps.position - w[i] > TOLERANCE && caps.position - w[j] > TOLERANCE
    ensures var w, s, t := Allocation(raw, groups, exposure, caps), Max(raw[i], 0.0), Max(raw[j], 0.0);
      var desired := Desired(groups, caps, exposure);
      w[i] * t == w[j] * s
      <==> s == t || s == 0.0 || t == 0.0
           || (!Squeezed(raw, groups, caps, desired, |raw|, i) && !Squeezed(raw, groups, caps, desired, |raw|, j))
  {
    hide Filled, Squeezed, Sum, GroupSum, Desired, Feasible, Labels;
    ZeroFeasible(groups, caps, exposure);
    SharedGroupRatio(raw, groups, caps, Desired(groups, caps, exposure), |raw|, i, j);
  }

  /** A position cap of at least the exposure cuts no proposal. */
  lemma {:induction false} NobodySqueezed(raw: seq<real>, groups: seq<string>, caps: Caps, desired: real, r: nat, i: nat)
    requires Starts(raw, groups, caps, desired) && i < |raw| && desired <= caps.position
    ensures !Squeezed(raw, groups, caps, desired, r, i)
  {
    hide Feasible, Proposed, Sum, EligibleBelow, GroupSum, Refill;
    if r > 0 {
      NobodySqueezed(raw, groups, caps, desired, r - 1, i);
      var w := Filled(raw, groups, caps, desired, r - 1);
      FilledFeasible(raw, groups, caps, desired, r - 1);
      if desired - Sum(w) > TOLERANCE && i in Eligible(w, groups, caps) {
        AtMostAll(w, groups, caps, desired, i);
        var p := Proposed(raw, Eligible(w, groups, caps), desired - Sum(w));
        ProposedSpendsAll(raw, Eligible(w, groups, caps), desired - Sum(w));
        EntryAtMostSum(p, i);
      }
    }
  }

  /** Under a position cap of at least the exposure, names of one group with room of their own always weigh in
      the ratio of their signals, whether the group is full or not. */
  lemma WideCapKeepsRatio(raw: seq<real>, groups: seq<string>, exposure: real, caps: Caps, i: nat, j: nat)
    requires |raw| == |groups| && 0.0 < exposure <= caps.position && caps.group > 0.0 && i < |raw| && j < |raw|
    requires groups[i] == groups[j]
    requires var w := Allocation(raw, groups, exposure, caps); caps.position - w[i] > TOLERANCE && caps.position - w[j] > TOLERANCE
    ensures var w := Allocation(raw, groups, exposure, caps); w[i] * Max(raw[j], 0.0) == w[j] * Max(raw[i], 0.0)
  {
    hide Filled, Squeezed, Desired;
    var desired := Desired(groups, caps, exposure);
    DesiredCoversCapacity(groups, caps, exposure);
    ZeroFeasible(groups, caps, exposure);
    NobodySqueezed(raw, groups, caps, desired, |raw|, i);
    NobodySqueezed(raw, groups, caps, desired, |raw|, j);
    SharedGroupExactlyWhen(raw, groups, exposure, caps, i, j);
  }

  lemma AtMostAll(w: seq<real>, groups: seq<string>, caps: Caps, desired: real, i: nat)
    requires Feasible(w, groups, caps, desired) && i < |w|
    ensures 0.0 <= w[i] <= Sum(w) <= desired
  {
    EntryAtMostSum(w, i);
  }

  // ----- when the signal fits

  /** The whole signal: the positive raw weights, or ones when there are none. */
  function WholeSignal(raw: seq<real>): (s: seq<real>)
    ensures |s| == |raw|
  {
    var positives := seq(|raw|, i requires 0 <= i < |raw| => Positive(raw, i));
    if Sum(positives) <= 0.0 then Constant(|raw|, 1.0) else positives
  }

  /** The exposure split in proportion to the signal. */
  function Share(raw: seq<real>, exposure: real): (s: seq<real>)
    requires Sum(WholeSignal(raw)) > 0.0
    ensures |s| == |raw|
    ensures forall i :: 0 <= i < |raw| ==> s[i] == Portion(exposure, WholeSignal(raw)[i], Sum(WholeSignal(raw)))
  {
    var signal := WholeSignal(raw);
    var total := Sum(signal);
    seq(|raw|, i requires 0 <= i < |raw| => Portion(exposure, signal[i], total))
  }

  function Portion(exposure: real, part: real, total: real): real
    requires total > 0.0
  {
    exposure * part / total
  }

  lemma SignalHasMass(raw: seq<real>)
    requires raw != []
    ensures Sum(WholeSignal(raw)) > 0.0
  {
    SumConstant(|raw|, 1.0);
  }

  /** When everybody is eligible the round's signal is the whole one. */
  lemma EverybodysSignal(raw: seq<real>, e: seq<int>)
    requires e != [] && (forall k :: k in e <==> 0 <= k < |raw|)
    ensures Signal(raw, e) == WholeSignal(raw)
  {
    hide Sum;
    var clipped := seq(|raw|, i requires 0 <= i < |raw| => if i in e then Max(raw[i], 0.0) else 0.0);
    var positives := seq(|raw|, i requires 0 <= i < |raw| => Positive(raw, i));
    assert clipped == positives;
    assert Indicator(|raw|, e) == Constant(|raw|, 1.0);
  }

  lemma ShareIsProposed(raw: seq<real>, e: seq<int>, exposure: real)
    requires e != [] && exposure >= 0.0 && (forall k :: k in e <==> 0 <= k < |raw|) && Sum(WholeSignal(raw)) > 0.0
    ensures Proposed(raw, e, exposure) == Share(raw, exposure)
  {
    hide Sum, Signal, WholeSignal, Proposed;
    EverybodysSignal(raw, e);
    forall i | 0 <= i < |raw| ensures Proposed(raw, e, exposure)[i] == Share(raw, exposure)[i] {
      ProposedAt(raw, e, exposure, i);
      ProductOfQuotient(WholeSignal(raw)[i], exposure, Sum(WholeSignal(raw)));
    }
  }

  lemma ProductOfQuotient(x: real, y: real, z: real)
    requires z > 0.0
    ensures Times(x, y / z) == Portion(y, x, z)
  {}

  lemma ShareSpendsAll(raw: seq<real>, exposure: real)
    requires raw != [] && exposure >= 0.0 && Sum(WholeSignal(raw)) > 0.0
    ensures Sum(Share(raw, exposure)) == exposure && forall i :: 0 <= i < |raw| ==> Share(raw, exposure)[i] >= 0.0
  {
    hide Sum, WholeSignal, Proposed;
    var e := seq(|raw|, i => i);
    forall k ensures k in e <==> 0 <= k < |raw| {
      assert 0 <= k < |raw| ==> e[k] == k;
    }
    ShareIsProposed(raw, e, exposure);
    ProposedSpendsAll(raw, e, exposure);
  }

  /** From nothing, a share within the caps is what the first round adds. */
  lemma FirstRoundIsShare(raw: seq<real>, groups: seq<string>, caps: Caps, exposure: real)
    requires |raw| == |groups| && raw != [] && Sum(WholeSignal(raw)) > 0.0
    requires caps.position > TOLERANCE && caps.group > TOLERANCE && exposure > TOLERANCE
    requires Feasible(Share(raw, exposure), groups, caps, exposure)
    ensures Filled(raw, groups, caps, exposure, 1) == Share(raw, exposure)
  {
    hide Sum, WholeSignal, Proposed, Round, GroupSum, EligibleBelow, Share;
    var w, share := Constant(|raw|, 0.0), Share(raw, exposure);
    NothingHeld(groups);
    var e := Eligible(w, groups, caps);
    assert 0 in e;
    SumConstant(|raw|, 0.0);
    ShareIsProposed(raw, e, exposure);
    ShareSpendsAll(raw, exposure);
    var a := Round(w, raw, groups, caps, exposure);
    assert Capped(w, share, caps, e) == share;
    forall i | 0 <= i < |raw| ensures a[i] == share[i] {
      RoundAt(w, raw, groups, caps, exposure, i);
      assert groups[i] in groups;
      NoCut(w, groups, caps, share, groups[i]);
    }
    assert Filled(raw, groups, caps, exposure, 0) == w;
    assert Add(w, a) == share;
  }

  lemma NothingHeld(groups: seq<string>)
    ensures forall g :: GroupSum(Constant(|groups|, 0.0), groups, g) == 0.0
  {
    forall g ensures GroupSum(Constant(|groups|, 0.0), groups, g) == 0.0 {
      assert Mask(Constant(|groups|, 0.0), groups, g) == Constant(|groups|, 0.0);
      SumConstant(|groups|, 0.0);
    }
  }

  lemma NoCut(w: seq<real>, groups: seq<string>, caps: Caps, c: seq<real>, g: string)
    requires |w| == |groups| == |c| && GroupSum(w, groups, g) == 0.0 && GroupSum(c, groups, g) <= caps.group && caps.group > 0.0
    ensures GroupFactor(w, groups, caps, c, g) == 1.0
    ensures forall x :: Times(x, 1.0) == x
  {}

  lemma Unspent(raw: seq<real>, groups: seq<string>, caps: Caps, exposure: real)
    requires |raw| == |groups| && raw != [] && exposure > 0.0 && caps.position > 0.0 && caps.group > 0.0
    requires exposure <= TOLERANCE || caps.position <= TOLERANCE || caps.group <= TOLERANCE
    ensures Sum(Allocation(raw, groups, exposure, caps)) == 0.0
  {
    hide Sum, GroupSum, EligibleBelow, Refill;
    var w, desired := Constant(|raw|, 0.0), Desired(groups, caps, exposure);
    SumConstant(|raw|, 0.0);
    NothingHeld(groups);
    var e := Eligible(w, groups, caps);
    assert Filled(raw, groups, caps, desired, 0) == w;
    if e != [] {
      assert e[0] in e;
      assert IsEligible(w, groups, caps, e[0]);
      assert desired <= exposure;
    }
    StaysFilled(raw, groups, caps, desired, 0, |raw|);
  }

  /** The exposure split in proportion to the signal is the result exactly when it respects the caps, and
      exposure and caps exceed the tolerance. */
  lemma ShareExactlyWhenItFits(raw: seq<real>, groups: seq<string>, exposure: real, caps: Caps)
    requires |raw| == |groups| && raw != [] && exposure > 0.0 && caps.position > 0.0 && caps.group > 0.0
    ensures Sum(WholeSignal(raw)) > 0.0
    ensures var share := Share(raw, exposure);
      Allocation(raw, groups, exposure, caps) == share
      <==> exposure > 0.000000000001 && caps.position > 0.000000000001 && caps.group > 0.000000000001
           && (forall i :: 0 <= i < |raw| ==> share[i] <= caps.position)
           && (forall g :: g in groups ==> GroupSum(share, groups, g) <= caps.group)
  {
    hide Sum, WholeSignal, GroupSum, Capacity, Labels, Desired, Share, Refill;
    SignalHasMass(raw);
    ShareSpendsAll(raw, exposure);
    var share := Share(raw, exposure);
    ZeroFeasible(groups, caps, exposure);
    FilledFeasible(raw, groups, caps, Desired(groups, caps, exposure), |raw|);
    if exposure <= TOLERANCE || caps.position <= TOLERANCE || caps.group <= TOLERANCE {
      Unspent(raw, groups, caps, exposure);
    } else if Feasible(share, groups, caps, exposure) {
      DesiredCoversCapacity(groups, caps, exposure);
      FeasibleAtMostCapacity(share, groups, caps, exposure);
      FirstRoundIsShare(raw, groups, caps, exposure);
      StaysFilled(raw, groups, caps, exposure, 1, |raw|);
    }
  }

  // ----- a full group out of ratio

  const SKEWED := [3.0, 1.0, 0.0]

  const TWO_GROUPS := ["A", "A", "B"]

  const SKEW_CAPS := Caps(0.3, 0.3)

  lemma SumOfThree(a: real, b: real, c: real)
    ensures Sum([a, b, c]) == a + b + c
  {
    hide Sum;
    SumHead([a, b, c]);
    SumHead([b, c]);
    SumHead([c]);
    SumConstant(0, 0.0);
    assert [a, b, c][1..] == [b, c] && [b, c][1..] == [c] && [c][1..] == [] == Constant(0, 0.0);
  }

  lemma SkewGroupSums(a: real, b: real, c: real)
    ensures GroupSum([a, b, c], TWO_GROUPS, "A") == a + b && GroupSum([a, b, c], TWO_GROUPS, "B") == c
  {
    assert Mask([a, b, c], TWO_GROUPS, "A") == [a, b, 0.0];
    assert Mask([a, b, c], TWO_GROUPS, "B") == [0.0, 0.0, c];
    SumOfThree(a, b, 0.0);
    SumOfThree(0.0, 0.0, c);
  }

  lemma SkewDesired()
    ensures Desired(TWO_GROUPS, SKEW_CAPS, 1.0) == 0.6
  {
    var labels := Labels(TWO_GROUPS);
    assert Elements(labels) == {"A", "B"};
    DistinctCardinality(labels);
  }

  lemma SkewFirstRound()
    ensures Filled(SKEWED, TWO_GROUPS, SKEW_CAPS, 0.6, 1) == [0.2, 0.1, 0.0]
  {
    hide Sum, Round, GroupSum, EligibleBelow;
    var w := [0.0, 0.0, 0.0];
    assert w == Constant(3, 0.0) == Filled(SKEWED, TWO_GROUPS, SKEW_CAPS, 0.6, 0);
    SumOfThree(0.0, 0.0, 0.0);
    SkewGroupSums(0.0, 0.0, 0.0);
    assert 0 in Eligible(w, TWO_GROUPS, SKEW_CAPS);
    SkewRound();
    assert Add(w, [0.2, 0.1, 0.0]) == [0.2, 0.1, 0.0];
  }

  lemma SkewRound()
    ensures Eligible([0.0, 0.0, 0.0], TWO_GROUPS, SKEW_CAPS) != []
    ensures Round([0.0, 0.0, 0.0], SKEWED, TWO_GROUPS, SKEW_CAPS, 0.6) == [0.2, 0.1, 0.0]
  {
    hide Sum, Proposed, Round, GroupSum, EligibleBelow, GroupFactor;
    var w := [0.0, 0.0, 0.0];
    SkewGroupSums(0.0, 0.0, 0.0);
    var e := Eligible(w, TWO_GROUPS, SKEW_CAPS);
    assert 0 in e && 1 in e && 2 in e;
    SkewProposal(e);
    var c := Capped(w, Proposed(SKEWED, e, 0.6), SKEW_CAPS, e);
    assert c == [0.3, 0.15, 0.0];
    SkewFactors(w, c);
    RoundAt(w, SKEWED, TWO_GROUPS, SKEW_CAPS, 0.6, 0);
    RoundAt(w, SKEWED, TWO_GROUPS, SKEW_CAPS, 0.6, 1);
    RoundAt(w, SKEWED, TWO_GROUPS, SKEW_CAPS, 0.6, 2);
  }

  lemma SkewFactors(w: seq<real>, c: seq<real>)
    requires w == [0.0, 0.0, 0.0] && c == [0.3, 0.15, 0.0]
    ensures GroupFactor(w, TWO_GROUPS, SKEW_CAPS, c, "A") == 0.3 / 0.45
  {
    hide GroupSum;
    SkewGroupSums(0.0, 0.0, 0.0);
    SkewGroupSums(0.3, 0.15, 0.0);
  }

  lemma SkewProposal(e: seq<int>)
    requires e != [] && forall k :: k in e <==> 0 <= k < 3
    ensures Proposed(SKEWED, e, 0.6) == [0.45, 0.15, 0.0]
  {
    hide Sum, Proposed;
    SumOfThree(3.0, 1.0, 0.0);
    var positives := seq(3, i requires 0 <= i < 3 => Positive(SKEWED, i));
    assert positives == SKEWED;
    ShareIsProposed(SKEWED, e, 0.6);
  }

  lemma FullGroupGetsNothing(w: seq<real>, raw: seq<real>, groups: seq<string>, caps: Caps, desired: real, i: nat)
    requires |raw| == |groups| && Feasible(w, groups, caps, desired) && i < |raw|
    requires Eligible(w, groups, caps) != [] && caps.group - GroupSum(w, groups, groups[i]) <= TOLERANCE
    ensures var w' := Add(w, Round(w, raw, groups, caps, desired - Sum(w)));
      w'[i] == w[i] && GroupSum(w', groups, groups[i]) >= GroupSum(w, groups, groups[i])
  {
    hide Sum, Round, EligibleBelow, GroupSum, GroupFactor;
    RoundFeasible(w, raw, groups, caps, desired);
    RoundAt(w, raw, groups, caps, desired - Sum(w), i);
    GroupSumMonotone(w, Add(w, Round(w, raw, groups, caps, desired - Sum(w))), groups, groups[i]);
  }

  lemma {:induction false} FullGroupStays(raw: seq<real>, groups: seq<string>, caps: Caps, desired: real, r: nat, n: nat, i: nat)
    requires Starts(raw, groups, caps, desired) && r <= n && i < |raw|
    requires caps.group - GroupSum(Filled(raw, groups, caps, desired, r), groups, groups[i]) <= TOLERANCE
    ensures caps.group - GroupSum(Filled(raw, groups, caps, desired, n), groups, groups[i]) <= TOLERANCE
    ensures Filled(raw, groups, caps, desired, n)[i] == Filled(raw, groups, caps, desired, r)[i]
    decreases n
  {
    hide Sum, Round, Feasible, EligibleBelow, GroupSum, GroupFactor;
    if r < n {
      FullGroupStays(raw, groups, caps, desired, r, n - 1, i);
      var w := Filled(raw, groups, caps, desired, n - 1);
      FilledFeasible(raw, groups, caps, desired, n - 1);
      if desired - Sum(w) > TOLERANCE && Eligible(w, groups, caps) != [] {
        FullGroupGetsNothing(w, raw, groups, caps, desired, i);
      }
    }
  }

  /** Signals of three and one in one group, position and group caps of three tenths: both names end with room of
      their own, and the larger weighs twice the smaller. */
  lemma FullGroupOutOfRatio()
    ensures var w := Allocation(SKEWED, TWO_GROUPS, 1.0, SKEW_CAPS);
      w[0] == 0.2 && w[1] == 0.1 && SKEW_CAPS.position - w[0] > TOLERANCE && SKEW_CAPS.position - w[1] > TOLERANCE
  {
    hide Filled, GroupSum, Sum;
    SkewDesired();
    SkewFirstRound();
    SkewGroupSums(0.2, 0.1, 0.0);
    ZeroFeasible(TWO_GROUPS, SKEW_CAPS, 1.0);
    FullGroupStays(SKEWED, TWO_GROUPS, SKEW_CAPS, 0.6, 1, 3, 0);
    FullGroupStays(SKEWED, TWO_GROUPS, SKEW_CAPS, 0.6, 1, 3, 1);
  }
}
