/** Result types and exact-arithmetic sums shared by the other modules. */
module Basics {

  datatype Option<+T> = None | Some(value: T)

  /** `Err` stands for a raised exception; the message names the branch that raised. */
  datatype Result<+T> = Ok(value: T) | Err(reason: string) {
    predicate IsFailure() { Err? }

    function PropagateFailure<U>(): Result<U>
      requires Err?
    {
      Err(reason)
    }

    function Extract(): T
      requires Ok?
    {
      value
    }
  }

  function Min(a: real, b: real): real { if a <= b then a else b }

  function Max(a: real, b: real): real { if a >= b then a else b }

  function Abs(a: real): real { if a >= 0.0 then a else -a }

  /** Reading a `defaultdict`. */
  function GetOr<K, V>(m: map<K, V>, k: K, default: V): V {
    if k in m then m[k] else default
  }

  /** Python's `values[:n]`, where a negative end counts from the back. */
  function SliceTo<T>(s: seq<T>, n: int): (r: seq<T>)
    ensures r <= s
    ensures |r| == if n >= |s| then |s| else if n >= 0 then n else if |s| + n >= 0 then |s| + n else 0
  {
    if n >= |s| then s
    else if n >= 0 then s[..n]
    else if |s| + n >= 0 then s[..|s| + n]
    else []
  }

  ghost predicate Distinct<T>(s: seq<T>) {
    forall i, j :: 0 <= i < j < |s| ==> s[i] != s[j]
  }

  ghost function Elements<T>(s: seq<T>): set<T> {
    set x | x in s
  }

  lemma {:induction false} DistinctCardinality<T>(s: seq<T>)
    requires Distinct(s)
    ensures |Elements(s)| == |s|
  {
    if s != [] {
      DistinctCardinality(s[1..]);
      assert Elements(s) == {s[0]} + Elements(s[1..]);
      assert s[0] !in s[1..];
    }
  }

  lemma DistinctAppend<T>(a: seq<T>, b: seq<T>)
    requires Distinct(a) && Distinct(b) && forall x :: x in b ==> x !in a
    ensures Distinct(a + b)
  {
    forall i, j | 0 <= i < j < |a + b| ensures (a + b)[i] != (a + b)[j] {
      if i < |a| <= j {
        assert b[j - |a|] in b && a[i] in a;
      }
    }
  }

  lemma SubsetCardinality<T>(a: set<T>, b: set<T>)
    requires a <= b
    ensures |a| <= |b|
    ensures |a| == |b| ==> a == b
  {
    assert b == a + (b - a);
    if |a| == |b| {
      assert |b - a| == 0;
    }
  }

  // ----- sums of real vectors

  function Sum(s: seq<real>): real {
    if s == [] then 0.0 else s[0] + Sum(s[1..])
  }

  lemma SumHead(s: seq<real>)
    requires s != []
    ensures Sum(s) == s[0] + Sum(s[1..])
  {}

  function Constant(n: nat, c: real): (s: seq<real>)
    ensures |s| == n && forall i :: 0 <= i < n ==> s[i] == c
  {
    seq(n, _ => c)
  }

  lemma {:induction false} SumConstant(n: nat, c: real)
    ensures Sum(Constant(n, c)) == n as real * c
  {
    if n > 0 {
      SumConstant(n - 1, c);
      assert Constant(n, c)[1..] == Constant(n - 1, c);
    }
  }

  lemma {:induction false} SumAdd(a: seq<real>, b: seq<real>, c: seq<real>)
    requires |a| == |b| == |c|
    requires forall i :: 0 <= i < |a| ==> c[i] == a[i] + b[i]
    ensures Sum(c) == Sum(a) + Sum(b)
  {
    if a != [] {
      SumAdd(a[1..], b[1..], c[1..]);
      assert c[0] == a[0] + b[0];
    }
  }

  /** Every entry multiplied by `k`. */
  function Scale(k: real, a: seq<real>): (r: seq<real>)
    ensures |r| == |a|
  {
    if a == [] then [] else [k * a[0]] + Scale(k, a[1..])
  }

  lemma {:induction false} SumScale(k: real, a: seq<real>)
    ensures Sum(Scale(k, a)) == k * Sum(a)
  {
    if a != [] {
      SumScale(k, a[1..]);
    }
  }

  lemma {:induction false} ScaleAt(k: real, a: seq<real>, i: nat)
    requires i < |a|
    ensures Scale(k, a)[i] == k * a[i]
  {
    if i > 0 {
      ScaleAt(k, a[1..], i - 1);
    }
  }

  lemma {:induction false} ScaleSign(k: real, a: seq<real>)
    requires k >= 0.0 && forall i :: 0 <= i < |a| ==> a[i] >= 0.0
    ensures forall i :: 0 <= i < |a| ==> Scale(k, a)[i] >= 0.0 && (a[i] == 0.0 ==> Scale(k, a)[i] == 0.0)
  {
    if a != [] {
      ScaleSign(k, a[1..]);
      ProductSign(k, a[0]);
    }
  }

  lemma ProductSign(x: real, y: real)
    requires x >= 0.0 && y >= 0.0
    ensures x * y >= 0.0
  {}

  lemma QuotientTimes(x: real, y: real)
    requires y > 0.0
    ensures (x / y) * y == x
    ensures x >= 0.0 ==> x / y >= 0.0
  {}

  lemma {:induction false} SumMonotone(a: seq<real>, b: seq<real>)
    requires |a| == |b|
    requires forall i :: 0 <= i < |a| ==> a[i] <= b[i]
    ensures Sum(a) <= Sum(b)
  {
    if a != [] {
      SumMonotone(a[1..], b[1..]);
    }
  }

  /** Each entry of a non-negative vector is at most its total. */
  lemma {:induction false} EntryAtMostSum(a: seq<real>, i: nat)
    requires i < |a| && forall j :: 0 <= j < |a| ==> a[j] >= 0.0
    ensures a[i] <= Sum(a)
  {
    SumMonotone(Constant(|a| - 1, 0.0), a[1..]);
    SumConstant(|a| - 1, 0.0);
    if i > 0 {
      EntryAtMostSum(a[1..], i - 1);
    }
  }

  lemma {:induction false} SumAppend(a: seq<real>, b: seq<real>)
    ensures Sum(a + b) == Sum(a) + Sum(b)
  {
    if a == [] {
      assert a + b == b;
    } else {
      SumAppend(a[1..], b);
      assert (a + b)[1..] == a[1..] + b;
    }
  }

  lemma Concatenated<T>(a: seq<T>, b: seq<T>, c: seq<T>)
    ensures (a + b) + c == a + (b + c)
  {}

  lemma MultisetRemove<T>(b: seq<T>, k: nat)
    requires k < |b|
    ensures multiset(b[..k] + b[k + 1..]) == multiset(b) - multiset{b[k]}
  {
    assert b == b[..k] + ([b[k]] + b[k + 1..]);
  }

  /** The sequence without its `k`-th element. */
  function Without<T>(s: seq<T>, k: nat): (r: seq<T>)
    requires k < |s|
    ensures |r| == |s| - 1
  {
    s[..k] + s[k + 1..]
  }

  lemma SumRemove(b: seq<real>, k: nat)
    requires k < |b|
    ensures Sum(b) == b[k] + Sum(Without(b, k))
  {
    assert b == b[..k] + b[k..];
    SumAppend(b[..k], b[k + 1..]);
    SumAppend(b[..k], b[k..]);
    assert b[k..][0] == b[k] && b[k..][1..] == b[k + 1..];
  }

  /** Where a permutation has the first element, and that the rests are permutations too. */
  lemma PermutationStep<T>(a: seq<T>, b: seq<T>) returns (k: nat)
    requires multiset(a) == multiset(b) && a != []
    ensures k < |b| && b[k] == a[0] && multiset(Without(a, 0)) == multiset(Without(b, k))
  {
    assert a[0] in multiset(b);
    k :| 0 <= k < |b| && b[k] == a[0];
    MultisetRemove(a, 0);
    MultisetRemove(b, k);
  }

  lemma PermutationSize<T>(a: seq<T>, b: seq<T>)
    requires multiset(a) == multiset(b)
    ensures |a| == |b|
  {
    assert |multiset(a)| == |a| && |multiset(b)| == |b|;
  }

  /** Two vectors with the same entries, in any order, have the same total. */
  lemma {:induction false} SumPermutation(a: seq<real>, b: seq<real>)
    requires multiset(a) == multiset(b)
    ensures Sum(a) == Sum(b)
    decreases |a|
  {
    hide Sum, Without;
    PermutationSize(a, b);
    if a == [] {
      assert b == a;
    } else {
      var k := PermutationStep(a, b);
      SumRemove(a, 0);
      SumRemove(b, k);
      SumPermutation(Without(a, 0), Without(b, k));
    }
  }

  // ----- strings

  predicate IsSpace(c: char) { c == ' ' || '\t' <= c <= '\r' || '\U{1c}' <= c <= '\U{1f}' }

  /** `str.strip` on ASCII text. */
  function Trim(s: string): string
    decreases |s|
  {
    if s == [] then []
    else if IsSpace(s[0]) then Trim(s[1..])
    else if IsSpace(s[|s| - 1]) then Trim(s[..|s| - 1])
    else s
  }

  predicate Trimmed(s: string) { s != [] ==> !IsSpace(s[0]) && !IsSpace(s[|s| - 1]) }

  /** Trimming yields a trimmed string, and changes nothing when repeated. */
  lemma {:induction false} TrimOnce(s: string)
    ensures Trimmed(Trim(s)) && Trim(Trim(s)) == Trim(s)
    decreases |s|
  {
    if s == [] {
    } else if IsSpace(s[0]) {
      TrimOnce(s[1..]);
    } else if IsSpace(s[|s| - 1]) {
      TrimOnce(s[..|s| - 1]);
    }
  }

  /** Trimming removes white space from both ends and nothing else. */
  lemma {:induction false} TrimRemovesSpace(s: string) returns (before: string, after: string)
    ensures s == before + Trim(s) + after && Trimmed(Trim(s))
    ensures (forall c :: c in before ==> IsSpace(c)) && (forall c :: c in after ==> IsSpace(c))
    decreases |s|
  {
    before, after := [], [];
    if s == [] {
    } else if IsSpace(s[0]) {
      before, after := TrimRemovesSpace(s[1..]);
      before := [s[0]] + before;
      assert s == [s[0]] + s[1..];
    } else if IsSpace(s[|s| - 1]) {
      before, after := TrimRemovesSpace(s[..|s| - 1]);
      after := after + [s[|s| - 1]];
      assert s == s[..|s| - 1] + [s[|s| - 1]];
    }
  }

  /** Only white space is trimmed to nothing. */
  lemma BlankExactlyWhen(s: string)
    ensures Trim(s) == "" <==> forall c :: c in s ==> IsSpace(c)
  {
    var before, after := TrimRemovesSpace(s);
    if Trim(s) != "" {
      assert Trim(s)[0] in s;
    }
  }

  /** `str.upper` and `str.lower` on ASCII text; other characters are left alone. */
  function UpperChar(c: char): char { if 'a' <= c <= 'z' then (c as int - 32) as char else c }

  function LowerChar(c: char): char { if 'A' <= c <= 'Z' then (c as int + 32) as char else c }

  function Upper(s: string): (r: string)
    ensures |r| == |s|
  {
    seq(|s|, i requires 0 <= i < |s| => UpperChar(s[i]))
  }

  function Lower(s: string): (r: string)
    ensures |r| == |s|
  {
    seq(|s|, i requires 0 <= i < |s| => LowerChar(s[i]))
  }

  lemma UpperTwice(s: string)
    ensures Upper(Upper(s)) == Upper(s)
  {}

  /** Upper-casing keeps a trimmed string trimmed. */
  lemma UpperTrimmed(s: string)
    requires Trimmed(s)
    ensures Trimmed(Upper(s)) && Trim(Upper(s)) == Upper(s)
  {}
}
