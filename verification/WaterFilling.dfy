/** Long-only allocation under position caps, group caps and an exposure limit
    (backtesting/portfolio.py, `_bounded_allocate`), over exact reals. */
module WaterFilling {
  import opened Basics

  const TOLERANCE: real := 0.000000000001

  datatype Caps = Caps(position: real, group: real)

  /** The distinct group labels. */
  function Labels(groups: seq<string>): (labels: seq<string>)
    ensures Distinct(labels)
    ensures forall g :: g in labels <==> g in groups
  {
    if groups == [] then []
    else
      var rest := Labels(groups[1..]);
      if groups[0] in rest then rest else [groups[0]] + rest
  }

  /** `w` with every entry outside group `g` replaced by zero. */
  function Mask(w: seq<real>, groups: seq<string>, g: string): (m: seq<real>)
    requires |w| == |groups|
    ensures |m| == |w| && forall i :: 0 <= i < |w| ==> m[i] == if groups[i] == g then w[i] else 0.0
  {
    seq(|w|, i requires 0 <= i < |w| => if groups[i] == g then w[i] else 0.0)
  }

  function GroupSum(w: seq<real>, groups: seq<string>, g: string): real
    requires |w| == |groups|
  {
    Sum(Mask(w, groups, g))
  }

  function Add(w: seq<real>, d: seq<real>): (r: seq<real>)
    requires |w| == |d|
    ensures |r| == |w| && forall i :: 0 <= i < |w| ==> r[i] == w[i] + d[i]
  {
    seq(|w|, i requires 0 <= i < |w| => w[i] + d[i])
  }

  lemma GroupSumAdd(w: seq<real>, d: seq<real>, groups: seq<string>, g: string)
    requires |w| == |d| == |groups|
    ensures GroupSum(Add(w, d), groups, g) == GroupSum(w, groups, g) + GroupSum(d, groups, g)
    ensures Sum(Add(w, d)) == Sum(w) + Sum(d)
  {
    SumAdd(Mask(w, groups, g), Mask(d, groups, g), Mask(Add(w, d), groups, g));
    SumAdd(w, d, Add(w, d));
  }

  lemma GroupSumMonotone(v: seq<real>, w: seq<real>, groups: seq<string>, g: string)
    requires |v| == |w| == |groups|
    requires forall i :: 0 <= i < |v| && groups[i] == g ==> v[i] <= w[i]
    ensures GroupSum(v, groups, g) <= GroupSum(w, groups, g)
  {
    SumMonotone(Mask(v, groups, g), Mask(w, groups, g));
  }

  lemma GroupSumAtMostSum(w: seq<real>, groups: seq<string>, g: string)
    requires |w| == |groups| && forall i :: 0 <= i < |w| ==> w[i] >= 0.0
    ensures 0.0 <= GroupSum(w, groups, g) <= Sum(w)
  {
    hide Sum, Mask, Constant;
    SumMonotone(Mask(w, groups, g), w);
    SumConstant(|w|, 0.0);
    SumMonotone(Constant(|w|, 0.0), Mask(w, groups, g));
  }

  /** What every allocation must respect. */
  ghost predicate Feasible(w: seq<real>, groups: seq<string>, caps: Caps, budget: real) {
    && |w| == |groups|
    && (forall i :: 0 <= i < |w| ==> 0.0 <= w[i] <= caps.position)
    && (forall g :: g in groups ==> GroupSum(w, groups, g) <= caps.group)
    && Sum(w) <= budget
  }

  /** What group `g` weighs when each of its names weighs `each`. */
  function Held(groups: seq<string>, g: string, each: real): real {
    GroupSum(Constant(|groups|, each), groups, g)
  }

  /** How much the caps let the groups in `labels` hold together: each the smaller of its own cap
      and its number of names times the position cap. */
  function Capacity(groups: seq<string>, caps: Caps, labels: seq<string>): real {
    if labels == [] then 0.0
    else Min(caps.group, Held(groups, labels[0], caps.position)) + Capacity(groups, caps, labels[1..])
  }

  /** A group with `n` names of weight `each` weighs `n` times `each`. */
  lemma {:induction false} HeldIsCountTimes(groups: seq<string>, g: string, each: real)
    ensures Held(groups, g, each) == multiset(groups)[g] as real * each
  {
    hide Mask, Sum;
    if groups == [] {
      SumConstant(0, each);
    } else {
      var rest := groups[1..];
      HeldIsCountTimes(rest, g, each);
      HeldCons(groups, g, each);
      CountCons(groups, g);
      OneMoreTimes(multiset(rest)[g], each);
    }
  }

  lemma CountCons(groups: seq<string>, g: string)
    requires groups != []
    ensures multiset(groups)[g] == (if groups[0] == g then 1 else 0) + multiset(groups[1..])[g]
  {
    assert groups == [groups[0]] + groups[1..];
  }

  lemma HeldCons(groups: seq<string>, g: string, each: real)
    requires groups != []
    ensures Held(groups, g, each) == (if groups[0] == g then each else 0.0) + Held(groups[1..], g, each)
  {
    hide Mask;
    var all := Mask(Constant(|groups|, each), groups, g);
    assert all[1..] == Mask(Constant(|groups| - 1, each), groups[1..], g);
  }

  lemma OneMoreTimes(n: nat, x: real)
    ensures (n + 1) as real * x == n as real * x + x
  {}

  // ----- group sums partition the total

  function GroupTotals(w: seq<real>, groups: seq<string>, labels: seq<string>): real
    requires |w| == |groups|
  {
    if labels == [] then 0.0 else GroupSum(w, groups, labels[0]) + GroupTotals(w, groups, labels[1..])
  }

  function MaskAll(w: seq<real>, groups: seq<string>, labels: seq<string>): (m: seq<real>)
    requires |w| == |groups|
    ensures |m| == |w| && forall i :: 0 <= i < |w| ==> m[i] == if groups[i] in labels then w[i] else 0.0
  {
    seq(|w|, i requires 0 <= i < |w| => if groups[i] in labels then w[i] else 0.0)
  }

  lemma {:induction false} GroupTotalsMask(w: seq<real>, groups: seq<string>, labels: seq<string>)
    requires |w| == |groups| && Distinct(labels)
    ensures GroupTotals(w, groups, labels) == Sum(MaskAll(w, groups, labels))
  {
    if labels == [] {
      assert MaskAll(w, groups, labels) == Constant(|w|, 0.0);
      SumConstant(|w|, 0.0);
    } else {
      GroupTotalsMask(w, groups, labels[1..]);
      assert labels == [labels[0]] + labels[1..];
      assert labels[0] !in labels[1..];
      SumAdd(Mask(w, groups, labels[0]), MaskAll(w, groups, labels[1..]), MaskAll(w, groups, labels));
    }
  }

  lemma GroupsPartition(w: seq<real>, groups: seq<string>)
    requires |w| == |groups|
    ensures GroupTotals(w, groups, Labels(groups)) == Sum(w)
  {
    GroupTotalsMask(w, groups, Labels(groups));
    assert MaskAll(w, groups, Labels(groups)) == w;
  }

  // ----- no feasible allocation beats the capacity

  lemma {:induction false} TotalsAtMostCapacity(v: seq<real>, groups: seq<string>, caps: Caps, budget: real, labels: seq<string>)
    requires Feasible(v, groups, caps, budget)
    requires forall g :: g in labels ==> g in groups
    ensures GroupTotals(v, groups, labels) <= Capacity(groups, caps, labels)
  {
    if labels != [] {
      TotalsAtMostCapacity(v, groups, caps, budget, labels[1..]);
      GroupSumMonotone(v, Constant(|v|, caps.position), groups, labels[0]);
    }
  }

  /** Every feasible allocation stays below the exposure and below the capacity of its groups. */
  lemma FeasibleAtMostCapacity(v: seq<real>, groups: seq<string>, caps: Caps, exposure: real)
    requires Feasible(v, groups, caps, exposure)
    ensures Sum(v) <= Min(exposure, Capacity(groups, caps, Labels(groups)))
  {
    TotalsAtMostCapacity(v, groups, caps, exposure, Labels(groups));
    GroupsPartition(v, groups);
  }

  lemma {:induction false} CapacityBounds(groups: seq<string>, caps: Caps, labels: seq<string>)
    ensures Capacity(groups, caps, labels) <= GroupTotals(Constant(|groups|, caps.position), groups, labels)
    ensures Capacity(groups, caps, labels) <= Sum(Constant(|labels|, caps.group))
  {
    if labels != [] {
      CapacityBounds(groups, caps, labels[1..]);
      assert Constant(|labels|, caps.group)[1..] == Constant(|labels[1..]|, caps.group);
    }
  }

  /** `desired`: the exposure, cut to what all names or all groups could hold. */
  function Desired(groups: seq<string>, caps: Caps, exposure: real): real {
    Min(exposure, Min(|groups| as real * caps.position, |Labels(groups)| as real * caps.group))
  }

  lemma NamesBound(groups: seq<string>, caps: Caps)
    ensures Capacity(groups, caps, Labels(groups)) <= |groups| as real * caps.position
    ensures Capacity(groups, caps, Labels(groups)) <= |Labels(groups)| as real * caps.group
  {
    hide *;
    CapacityBounds(groups, caps, Labels(groups));
    GroupsPartition(Constant(|groups|, caps.position), groups);
    SumConstant(|groups|, caps.position);
    SumConstant(|Labels(groups)|, caps.group);
  }

  lemma DesiredCoversCapacity(groups: seq<string>, caps: Caps, exposure: real)
    ensures Min(exposure, Capacity(groups, caps, Labels(groups))) <= Desired(groups, caps, exposure) <= exposure
  {
    hide Capacity, Labels;
    NamesBound(groups, caps);
  }

  // ----- one round

  predicate IsEligible(w: seq<real>, groups: seq<string>, caps: Caps, i: int)
    requires |w| == |groups| && 0 <= i < |w|
  {
    caps.position - w[i] > TOLERANCE && caps.group - GroupSum(w, groups, groups[i]) > TOLERANCE
  }

  /** The names with room left, among the first `k`. */
  function EligibleBelow(w: seq<real>, groups: seq<string>, caps: Caps, k: nat): (e: seq<int>)
    requires |w| == |groups| && k <= |w|
    ensures forall i :: i in e <==> 0 <= i < k && IsEligible(w, groups, caps, i)
    ensures Distinct(e) && |e| <= k
  {
    if k == 0 then []
    else
      var below := EligibleBelow(w, groups, caps, k - 1);
      if IsEligible(w, groups, caps, k - 1) then below + [k - 1] else below
  }

  function Eligible(w: seq<real>, groups: seq<string>, caps: Caps): (e: seq<int>)
    requires |w| == |groups|
    ensures forall i :: i in e <==> 0 <= i < |w| && IsEligible(w, groups, caps, i)
    ensures Distinct(e) && |e| <= |w|
  {
    EligibleBelow(w, groups, caps, |w|)
  }

  function Indicator(n: nat, e: seq<int>): (s: seq<real>)
    ensures |s| == n && forall i :: 0 <= i < n ==> s[i] == if i in e then 1.0 else 0.0
  {
    seq(n, i => if i in e then 1.0 else 0.0)
  }

  lemma IndicatorPositive(n: nat, e: seq<int>)
    requires e != [] && forall i :: i in e ==> 0 <= i < n
    ensures Sum(Indicator(n, e)) > 0.0
  {
    assert e[0] in e;
    EntryAtMostSum(Indicator(n, e), e[0]);
  }

  /** The clipped signal of the eligible names, or all ones when it has no mass. */
  function Signal(raw: seq<real>, e: seq<int>): (s: seq<real>)
    requires e != [] && forall i :: i in e ==> 0 <= i < |raw|
    ensures |s| == |raw| && Sum(s) > 0.0
    ensures forall i :: 0 <= i < |s| ==> s[i] >= 0.0 && (i !in e ==> s[i] == 0.0)
  {
    IndicatorPositive(|raw|, e);
    var clipped := seq(|raw|, i requires 0 <= i < |raw| => if i in e then Max(raw[i], 0.0) else 0.0);
    if Sum(clipped) <= 0.0 then Indicator(|raw|, e) else clipped
  }

  /** `remaining` split in proportion to the signal. */
  function Proposed(raw: seq<real>, e: seq<int>, remaining: real): (p: seq<real>)
    requires e != [] && forall i :: i in e ==> 0 <= i < |raw|
    ensures |p| == |raw|
  {
    Scale(remaining / Sum(Signal(raw, e)), Signal(raw, e))
  }

  lemma ProposedSpendsAll(raw: seq<real>, e: seq<int>, remaining: real)
    requires e != [] && remaining >= 0.0 && forall i :: i in e ==> 0 <= i < |raw|
    ensures Sum(Proposed(raw, e, remaining)) == remaining
    ensures forall i :: 0 <= i < |raw| ==> Proposed(raw, e, remaining)[i] >= 0.0
    ensures forall i :: 0 <= i < |raw| && i !in e ==> Proposed(raw, e, remaining)[i] == 0.0
  {
    var s := Signal(raw, e);
    QuotientTimes(remaining, Sum(s));
    SumScale(remaining / Sum(s), s);
    ScaleSign(remaining / Sum(s), s);
  }

  /** The proposal cut to each name's own room. */
  function Capped(w: seq<real>, p: seq<real>, caps: Caps, e: seq<int>): (c: seq<real>)
    requires |w| == |p|
    ensures |c| == |w| && forall i :: 0 <= i < |w| ==> c[i] == if i in e then Min(p[i], caps.position - w[i]) else 0.0
  {
    seq(|w|, i requires 0 <= i < |w| => if i in e then Min(p[i], caps.position - w[i]) else 0.0)
  }

  function Room(w: seq<real>, groups: seq<string>, caps: Caps, g: string): real
    requires |w| == |groups|
  {
    Max(0.0, caps.group - GroupSum(w, groups, g))
  }

  function Times(x: real, k: real): real { x * k }

  /** The entries of group `g` multiplied by `k`. */
  function ScaleGroup(a: seq<real>, groups: seq<string>, g: string, k: real): (r: seq<real>)
    requires |a| == |groups|
    ensures |r| == |a|
  {
    if a == [] then []
    else [if groups[0] == g then Times(a[0], k) else a[0]] + ScaleGroup(a[1..], groups[1..], g, k)
  }

  lemma SumNothing(groups: seq<string>, g: string, k: real)
    requires groups == []
    ensures Sum(Mask([], groups, g)) == 0.0 == Sum(Mask(ScaleGroup([], groups, g, k), groups, g))
  {}

  lemma MaskTail(a: seq<real>, groups: seq<string>, g: string)
    requires |a| == |groups| > 0
    ensures Sum(Mask(a, groups, g)) == Mask(a, groups, g)[0] + Sum(Mask(a[1..], groups[1..], g))
  {
    hide Sum;
    SumHead(Mask(a, groups, g));
    assert Mask(a, groups, g)[1..] == Mask(a[1..], groups[1..], g);
  }

  lemma {:induction false} ScaleGroupSum(a: seq<real>, groups: seq<string>, g: string, k: real)
    requires |a| == |groups|
    ensures Sum(Mask(ScaleGroup(a, groups, g, k), groups, g)) == Sum(Mask(a, groups, g)) * k
  {
    hide Sum;
    if a == [] {
      SumNothing(groups, g, k);
    } else {
      var r := ScaleGroup(a, groups, g, k);
      var rest := ScaleGroup(a[1..], groups[1..], g, k);
      ScaleGroupSum(a[1..], groups[1..], g, k);
      assert r[1..] == rest;
      MaskTail(a, groups, g);
      MaskTail(r, groups, g);
      Distribute(k, Mask(a, groups, g)[0], Sum(Mask(a[1..], groups[1..], g)));
      assert Mask(r, groups, g)[0] == Mask(a, groups, g)[0] * k;
    }
  }

  lemma {:induction false} ScaleGroupAt(a: seq<real>, groups: seq<string>, g: string, k: real, i: nat)
    requires |a| == |groups| && 0.0 <= k <= 1.0 && i < |a| && a[i] >= 0.0
    ensures 0.0 <= ScaleGroup(a, groups, g, k)[i] <= a[i]
    ensures groups[i] != g ==> ScaleGroup(a, groups, g, k)[i] == a[i]
  {
    hide Times;
    if i == 0 {
      Product(a[0], k);
    } else {
      ScaleGroupAt(a[1..], groups[1..], g, k, i - 1);
    }
  }

  lemma ScaleGroupEffect(a: seq<real>, groups: seq<string>, g: string, k: real)
    requires |a| == |groups| && 0.0 <= k <= 1.0 && forall i :: 0 <= i < |a| ==> a[i] >= 0.0
    ensures forall i :: 0 <= i < |a| ==> 0.0 <= ScaleGroup(a, groups, g, k)[i] <= a[i]
    ensures forall i :: 0 <= i < |a| && groups[i] != g ==> ScaleGroup(a, groups, g, k)[i] == a[i]
  {
    forall i | 0 <= i < |a|
      ensures 0.0 <= ScaleGroup(a, groups, g, k)[i] <= a[i]
      ensures groups[i] != g ==> ScaleGroup(a, groups, g, k)[i] == a[i]
    {
      ScaleGroupAt(a, groups, g, k, i);
    }
  }

  lemma Ratio(part: real, whole: real)
    requires whole > part > 0.0
    ensures 0.0 < part / whole <= 1.0 && whole * (part / whole) == part
  {}

  lemma Product(x: real, k: real)
    requires x >= 0.0 && 0.0 <= k <= 1.0
    ensures 0.0 <= Times(x, k) <= x
  {}

  lemma Distribute(k: real, x: real, y: real)
    ensures (x + y) * k == x * k + y * k
  {}

  /** The additions of one group, scaled down to the group's room. */
  function CutGroup(w: seq<real>, groups: seq<string>, caps: Caps, a: seq<real>, g: string): (r: seq<real>)
    requires |w| == |groups| == |a|
    ensures |r| == |a|
  {
    var room := Room(w, groups, caps, g);
    var proposed := GroupSum(a, groups, g);
    if proposed > room > 0.0 then ScaleGroup(a, groups, g, room / proposed)
    else if room <= 0.0 then ScaleGroup(a, groups, g, 0.0)
    else a
  }

  lemma CutGroupEffect(w: seq<real>, groups: seq<string>, caps: Caps, a: seq<real>, g: string)
    requires |w| == |groups| == |a| && forall i :: 0 <= i < |a| ==> a[i] >= 0.0
    ensures var r := CutGroup(w, groups, caps, a, g);
      && (forall i :: 0 <= i < |a| ==> 0.0 <= r[i] <= a[i] && (groups[i] != g ==> r[i] == a[i]))
      && GroupSum(r, groups, g) <= Room(w, groups, caps, g)
      && (r == a || GroupSum(r, groups, g) == Room(w, groups, caps, g))
  {
    var room := Room(w, groups, caps, g);
    var proposed := GroupSum(a, groups, g);
    if proposed > room > 0.0 {
      Ratio(room, proposed);
      ScaleGroupEffect(a, groups, g, room / proposed);
      ScaleGroupSum(a, groups, g, room / proposed);
    } else if room <= 0.0 {
      ScaleGroupEffect(a, groups, g, 0.0);
      ScaleGroupSum(a, groups, g, 0.0);
    }
  }

  function CutGroups(w: seq<real>, groups: seq<string>, caps: Caps, a: seq<real>, labels: seq<string>): (r: seq<real>)
    requires |w| == |groups| == |a|
    ensures |r| == |a|
    decreases |labels|
  {
    if labels == [] then a
    else CutGroups(w, groups, caps, CutGroup(w, groups, caps, a, labels[0]), labels[1..])
  }

  lemma {:induction false} CutGroupsEffect(w: seq<real>, groups: seq<string>, caps: Caps, a: seq<real>, labels: seq<string>)
    requires |w| == |groups| == |a| && Distinct(labels) && forall i :: 0 <= i < |a| ==> a[i] >= 0.0
    ensures var r := CutGroups(w, groups, caps, a, labels);
      && (forall i :: 0 <= i < |a| ==> 0.0 <= r[i] <= a[i] && (groups[i] !in labels ==> r[i] == a[i]))
      && (forall g :: g in labels ==> GroupSum(r, groups, g) <= Room(w, groups, caps, g))
      && (forall g :: g in labels ==> Mask(r, groups, g) == Mask(a, groups, g)
                                      || GroupSum(r, groups, g) == Room(w, groups, caps, g))
    decreases |labels|
  {
    hide Sum, CutGroup, Room;
    if labels != [] {
      var g := labels[0];
      var b := CutGroup(w, groups, caps, a, g);
      var r := CutGroups(w, groups, caps, b, labels[1..]);
      CutGroupEffect(w, groups, caps, a, g);
      CutGroupsEffect(w, groups, caps, b, labels[1..]);
      assert labels == [g] + labels[1..];
      assert g !in labels[1..];
      assert Mask(r, groups, g) == Mask(b, groups, g);
      forall h | h in labels[1..] ensures Mask(b, groups, h) == Mask(a, groups, h) {
        assert h != g;
      }
    }
  }

  function Round(w: seq<real>, raw: seq<real>, groups: seq<string>, caps: Caps, remaining: real): (a: seq<real>)
    requires |w| == |raw| == |groups| && Eligible(w, groups, caps) != []
    ensures |a| == |w|
  {
    var e := Eligible(w, groups, caps);
    CutGroups(w, groups, caps, Capped(w, Proposed(raw, e, remaining), caps, e), Labels(groups))
  }

  /** A round keeps the allocation feasible. */
  lemma RoundFeasible(w: seq<real>, raw: seq<real>, groups: seq<string>, caps: Caps, budget: real)
    requires |raw| == |groups| && Feasible(w, groups, caps, budget) && Eligible(w, groups, caps) != []
    ensures var a := Round(w, raw, groups, caps, budget - Sum(w));
      && Feasible(Add(w, a), groups, caps, budget)
      && (forall i :: 0 <= i < |a| ==> a[i] >= 0.0)
  {
    hide CutGroups, Proposed, Sum, GroupSum, Mask, EligibleBelow;
    var e := Eligible(w, groups, caps);
    var p := Proposed(raw, e, budget - Sum(w));
    var c := Capped(w, p, caps, e);
    var a := Round(w, raw, groups, caps, budget - Sum(w));
    ProposedSpendsAll(raw, e, budget - Sum(w));
    CutGroupsEffect(w, groups, caps, c, Labels(groups));
    SumMonotone(a, p);
    forall g | g in groups ensures GroupSum(Add(w, a), groups, g) <= caps.group {
      GroupSumAdd(w, a, groups, g);
    }
    SumAdd(w, a, Add(w, a));
  }

  /** An unfinished round fills some eligible name or group, and it moves more than the tolerance. */
  lemma RoundProgress(w: seq<real>, raw: seq<real>, groups: seq<string>, caps: Caps, budget: real)
    requires |raw| == |groups| && Feasible(w, groups, caps, budget) && Eligible(w, groups, caps) != []
    requires budget - Sum(w) > TOLERANCE
    ensures var a := Round(w, raw, groups, caps, budget - Sum(w));
      && Sum(a) > TOLERANCE
      && (Sum(Add(w, a)) == budget || |Eligible(Add(w, a), groups, caps)| < |Eligible(w, groups, caps)|)
  {
    hide CutGroups, Proposed, Sum, GroupSum, Mask, EligibleBelow;
    var e := Eligible(w, groups, caps);
    var p := Proposed(raw, e, budget - Sum(w));
    var c := Capped(w, p, caps, e);
    var a := Round(w, raw, groups, caps, budget - Sum(w));
    ProposedSpendsAll(raw, e, budget - Sum(w));
    CutGroupsEffect(w, groups, caps, c, Labels(groups));
    RoundFeasible(w, raw, groups, caps, budget);
    SumAdd(w, a, Add(w, a));
    if i :| i in e && a[i] < p[i] {
      NameOrGroupFull(w, groups, caps, p, c, a, i);
      EligibleShrinks(w, a, groups, caps, i);
    } else {
      assert a == p;
    }
  }

  lemma NameOrGroupFull(w: seq<real>, groups: seq<string>, caps: Caps, p: seq<real>, c: seq<real>, a: seq<real>, i: int)
    requires |w| == |p| == |c| == |groups| && i in Eligible(w, groups, caps) && a == CutGroups(w, groups, caps, c, Labels(groups))
    requires c == Capped(w, p, caps, Eligible(w, groups, caps)) && forall j :: 0 <= j < |c| ==> c[j] >= 0.0
    requires a[i] < p[i]
    ensures i !in Eligible(Add(w, a), groups, caps) && Sum(a) > TOLERANCE
  {
    hide CutGroups, Proposed, Sum, GroupSum, Mask, EligibleBelow;
    var g := groups[i];
    CutGroupsEffect(w, groups, caps, c, Labels(groups));
    GroupSumAdd(w, a, groups, g);
    if GroupSum(a, groups, g) == Room(w, groups, caps, g) {
      GroupSumAtMostSum(a, groups, g);
    } else {
      assert Mask(a, groups, g)[i] == Mask(c, groups, g)[i];
      EntryAtMostSum(a, i);
    }
  }

  lemma EligibleShrinks(w: seq<real>, a: seq<real>, groups: seq<string>, caps: Caps, i: int)
    requires |w| == |a| == |groups| && forall j :: 0 <= j < |a| ==> a[j] >= 0.0
    requires i in Eligible(w, groups, caps) && i !in Eligible(Add(w, a), groups, caps)
    ensures |Eligible(Add(w, a), groups, caps)| < |Eligible(w, groups, caps)|
  {
    var before, after := Eligible(w, groups, caps), Eligible(Add(w, a), groups, caps);
    forall j | j in Eligible(Add(w, a), groups, caps) ensures j in Eligible(w, groups, caps) {
      GroupSumMonotone(w, Add(w, a), groups, groups[j]);
    }
    DistinctCardinality(before);
    DistinctCardinality(after);
    assert i in Elements(before) && i !in Elements(after);
    SubsetCardinality(Elements(after), Elements(before));
  }

  // ----- the allocation round by round

  /** One turn of the loop: a round, unless the budget is spent or nobody is eligible. */
  function Refill(w: seq<real>, raw: seq<real>, groups: seq<string>, caps: Caps, desired: real): (r: seq<real>)
    requires |w| == |raw| == |groups|
    ensures |r| == |w|
  {
    if desired - Sum(w) <= TOLERANCE || Eligible(w, groups, caps) == [] then w
    else Add(w, Round(w, raw, groups, caps, desired - Sum(w)))
  }

  /** The allocation after `r` turns of the loop. */
  function Filled(raw: seq<real>, groups: seq<string>, caps: Caps, desired: real, r: nat): (w: seq<real>)
    requires |raw| == |groups|
    ensures |w| == |raw|
  {
    if r == 0 then Constant(|raw|, 0.0) else Refill(Filled(raw, groups, caps, desired, r - 1), raw, groups, caps, desired)
  }

  lemma {:induction false} StaysFilled(raw: seq<real>, groups: seq<string>, caps: Caps, desired: real, r: nat, n: nat)
    requires |raw| == |groups| && r <= n
    requires var w := Filled(raw, groups, caps, desired, r); desired - Sum(w) <= TOLERANCE || Eligible(w, groups, caps) == []
    ensures Filled(raw, groups, caps, desired, n) == Filled(raw, groups, caps, desired, r)
    decreases n
  {
    hide Sum, Eligible, Round;
    if r < n {
      StaysFilled(raw, groups, caps, desired, r, n - 1);
    }
  }

  // ----- why stopping with nobody eligible is nearly optimal

  lemma {:induction false} FullTotals(w: seq<real>, groups: seq<string>, caps: Caps, labels: seq<string>)
    requires |w| == |groups| && Eligible(w, groups, caps) == []
    requires forall g :: g in labels ==> g in groups
    ensures GroupTotals(w, groups, labels)
         >= Capacity(groups, caps, labels) - GroupTotals(Constant(|w|, TOLERANCE), groups, labels)
  {
    if labels != [] {
      FullTotals(w, groups, caps, labels[1..]);
      FullGroup(w, groups, caps, labels[0]);
    }
  }

  lemma FullGroup(w: seq<real>, groups: seq<string>, caps: Caps, g: string)
    requires |w| == |groups| && Eligible(w, groups, caps) == [] && g in groups
    ensures GroupSum(w, groups, g)
         >= Min(caps.group, Held(groups, g, caps.position)) - Held(groups, g, TOLERANCE)
  {
    var slack := Constant(|w|, TOLERANCE);
    if caps.group - GroupSum(w, groups, g) > TOLERANCE {
      forall i | 0 <= i < |w| && groups[i] == g ensures caps.position <= Add(w, slack)[i] {
        assert i !in Eligible(w, groups, caps);
      }
      GroupSumMonotone(Constant(|w|, caps.position), Add(w, slack), groups, g);
      GroupSumAdd(w, slack, groups, g);
    } else {
      var i :| 0 <= i < |groups| && groups[i] == g;
      EntryAtMostSum(Mask(slack, groups, g), i);
    }
  }

  /** The largest total the caps allow, up to the tolerance for each of the `n` names. */
  ghost predicate NearlyOptimal(w: seq<real>, groups: seq<string>, caps: Caps, exposure: real) {
    Sum(w) >= Min(exposure, Capacity(groups, caps, Labels(groups))) - |w| as real * TOLERANCE
  }

  lemma StopIsNearlyOptimal(w: seq<real>, groups: seq<string>, caps: Caps, exposure: real)
    requires |w| == |groups|
    requires Desired(groups, caps, exposure) - Sum(w) <= TOLERANCE || Eligible(w, groups, caps) == []
    ensures NearlyOptimal(w, groups, caps, exposure)
  {
    hide Sum, GroupSum, Capacity, GroupTotals, Labels, Desired, EligibleBelow;
    DesiredCoversCapacity(groups, caps, exposure);
    if Eligible(w, groups, caps) == [] {
      GroupsPartition(w, groups);
      GroupsPartition(Constant(|w|, TOLERANCE), groups);
      SumConstant(|w|, TOLERANCE);
      FullTotals(w, groups, caps, Labels(groups));
    } else {
      assert |w| != 0;
      assert |w| as real >= 1.0;
    }
  }

  /** How the loop ended. */
  datatype Exit = Spent | NobodyEligible | Stalled | RoundsExhausted

  /** The water-filling loop. The result is feasible, spends at most `desired`, and no feasible
      allocation beats it by more than the tolerance of each name. The loop never stalls and never
      runs out of rounds. */
  method BoundedAllocate(raw: seq<real>, groups: seq<string>, exposure: real, caps: Caps)
    returns (weights: seq<real>, ghost exit: Exit, ghost rounds: nat)
    requires |raw| == |groups|
    requires exposure > 0.0 && caps.position > 0.0 && caps.group > 0.0
    ensures Feasible(weights, groups, caps, Desired(groups, caps, exposure))
    ensures NearlyOptimal(weights, groups, caps, exposure)
    ensures forall v :: Feasible(v, groups, caps, exposure) ==> Sum(v) <= Sum(weights) + |raw| as real * TOLERANCE
    ensures exit == Spent || exit == NobodyEligible
    ensures rounds <= |raw|
    ensures weights == Filled(raw, groups, caps, Desired(groups, caps, exposure), |raw|)
  {
    hide Sum, Eligible, Round, Desired, Capacity, NearlyOptimal, Add, GroupSum;
    var n := |raw|;
    var w := Constant(n, 0.0);
    var desired := Desired(groups, caps, exposure);
    var budget := if 20 >= n * 8 then 20 else n * 8;
    ZeroFeasible(groups, caps, exposure);
    exit, rounds := RoundsExhausted, 0;
    for r := 0 to budget
      invariant |w| == n && Feasible(w, groups, caps, desired)
      invariant exit == RoundsExhausted && rounds == r
      invariant w == Filled(raw, groups, caps, desired, r)
      invariant desired - Sum(w) <= 0.0 || r + |Eligible(w, groups, caps)| <= n
      invariant r <= n
    {
      var remaining := desired - Sum(w);
      if remaining <= TOLERANCE {
        exit := Spent;
        StaysFilled(raw, groups, caps, desired, r, n);
        break;
      }
      var eligible := Eligible(w, groups, caps);
      if eligible == [] {
        exit := NobodyEligible;
        StaysFilled(raw, groups, caps, desired, r, n);
        break;
      }
      var additions := OneRound(w, raw, groups, caps, remaining);
      RoundFeasible(w, raw, groups, caps, desired);
      RoundProgress(w, raw, groups, caps, desired);
      var moved := Sum(additions);
      if moved <= TOLERANCE {
        exit := Stalled;
        break;
      }
      w := Add(w, additions);
      rounds := rounds + 1;
    }
    weights := seq(n, i requires 0 <= i < n => Max(w[i], 0.0));
    assert weights == w;
    StopIsNearlyOptimal(w, groups, caps, exposure);
    NobodyBeats(w, groups, caps, exposure);
  }

  lemma NobodyBeats(w: seq<real>, groups: seq<string>, caps: Caps, exposure: real)
    requires NearlyOptimal(w, groups, caps, exposure)
    ensures forall v :: Feasible(v, groups, caps, exposure) ==> Sum(v) <= Sum(w) + |w| as real * TOLERANCE
  {
    hide Sum, Capacity, Feasible;
    forall v | Feasible(v, groups, caps, exposure) ensures Sum(v) <= Sum(w) + |w| as real * TOLERANCE {
      FeasibleAtMostCapacity(v, groups, caps, exposure);
    }
  }

  lemma ZeroFeasible(groups: seq<string>, caps: Caps, exposure: real)
    requires exposure > 0.0 && caps.position > 0.0 && caps.group > 0.0
    ensures Feasible(Constant(|groups|, 0.0), groups, caps, Desired(groups, caps, exposure))
  {
    SumConstant(|groups|, 0.0);
    forall g | g in groups ensures GroupSum(Constant(|groups|, 0.0), groups, g) == 0.0 {
      assert Mask(Constant(|groups|, 0.0), groups, g) == Constant(|groups|, 0.0);
    }
    ProductSign(|groups| as real, caps.position);
    ProductSign(|Labels(groups)| as real, caps.group);
  }

  /** The body of a round: cap each eligible name, then scale each group down to its room. */
  method OneRound(w: seq<real>, raw: seq<real>, groups: seq<string>, caps: Caps, remaining: real)
    returns (additions: seq<real>)
    requires |w| == |raw| == |groups| && Eligible(w, groups, caps) != []
    ensures additions == Round(w, raw, groups, caps, remaining)
  {
    hide CutGroup, Proposed;
    var n := |w|;
    var eligible := Eligible(w, groups, caps);
    var proposed := Proposed(raw, eligible, remaining);
    additions := Constant(n, 0.0);
    ghost var capped := Capped(w, proposed, caps, eligible);
    for k := 0 to |eligible|
      invariant |additions| == n
      invariant forall i :: 0 <= i < n ==> additions[i] == if i in eligible[..k] then capped[i] else 0.0
    {
      var idx := eligible[k];
      assert idx in eligible;
      additions := additions[idx := Min(proposed[idx], caps.position - w[idx])];
      assert eligible[..k + 1] == eligible[..k] + [idx];
    }
    assert eligible[..|eligible|] == eligible;
    assert additions == capped;
    var labels := Labels(groups);
    for k := 0 to |labels|
      invariant |additions| == n
      invariant CutGroups(w, groups, caps, additions, labels[k..]) == CutGroups(w, groups, caps, capped, labels)
    {
      additions := CutGroup(w, groups, caps, additions, labels[k]);
    }
  }
}
