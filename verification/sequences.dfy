/** Generic sequence operations the services use: filtering, the DeFi-first
    partition, sorting by a descending key, and the distinct elements in
    first-occurrence order. */
module Sequences {
  import opened Wrappers

  /** `xs` contains the elements of `ys` in order, possibly with gaps. */
  ghost predicate SubsequenceOf<T>(xs: seq<T>, ys: seq<T>)
    decreases |ys|
  {
    if |xs| == 0 then true
    else if |ys| == 0 then false
    else if xs[0] == ys[0] then SubsequenceOf(xs[1..], ys[1..])
    else SubsequenceOf(xs, ys[1..])
  }

  /** `select`: keeps, in order, the elements satisfying `p`. */
  function Filter<T>(xs: seq<T>, p: T -> bool): (r: seq<T>)
    ensures |r| <= |xs|
    ensures forall i :: 0 <= i < |r| ==> r[i] in xs && p(r[i])
    ensures forall i :: 0 <= i < |xs| && p(xs[i]) ==> xs[i] in r
    ensures SubsequenceOf(r, xs)
    decreases |xs|
  {
    if |xs| == 0 then []
    else if p(xs[0]) then [xs[0]] + Filter(xs[1..], p)
    else Filter(xs[1..], p)
  }

  lemma {:induction false} FilterAppend<T>(xs: seq<T>, ys: seq<T>, p: T -> bool)
    ensures Filter(xs + ys, p) == Filter(xs, p) + Filter(ys, p)
    decreases |xs|
  {
    if |xs| == 0 {
      assert xs + ys == ys;
    } else {
      assert (xs + ys)[1..] == xs[1..] + ys;
      FilterAppend(xs[1..], ys, p);
    }
  }

  /** `flatten` of a list of lists: the lists one after the other. */
  function Flatten<T>(xss: seq<seq<T>>): seq<T>
    decreases |xss|
  {
    if |xss| == 0 then [] else xss[0] + Flatten(xss[1..])
  }

  lemma {:induction false} FlattenEmpty<T>(xss: seq<seq<T>>)
    ensures |Flatten(xss)| == 0 <==> forall i :: 0 <= i < |xss| ==> |xss[i]| == 0
    decreases |xss|
  {
    if |xss| > 0 {
      FlattenEmpty(xss[1..]);
      assert forall i :: 1 <= i < |xss| ==> xss[i] == xss[1..][i - 1];
    }
  }

  /** `p` holds all along a non-empty `xs` exactly when it holds at the head and all
      along the tail. */
  lemma AllCons<T>(xs: seq<T>, p: T -> bool)
    requires |xs| > 0
    ensures (forall i :: 0 <= i < |xs| ==> p(xs[i])) <==> p(xs[0]) && forall i :: 0 <= i < |xs[1..]| ==> p(xs[1..][i])
  {
    assert forall i :: 1 <= i < |xs| ==> xs[i] == xs[1..][i - 1];
  }

  /** The first present value of `f` along `xs`, if any. */
  function FirstSome<T, U>(xs: seq<T>, f: T -> Option<U>): (r: Option<U>)
    ensures r.None? <==> forall i :: 0 <= i < |xs| ==> f(xs[i]).None?
    decreases |xs|
  {
    if |xs| == 0 then None
    else if f(xs[0]).Some? then f(xs[0])
    else
      var r := FirstSome(xs[1..], f);
      assert forall i :: 1 <= i < |xs| ==> xs[i] == xs[1..][i - 1];
      r
  }

  /** When `xs[i]` is the first element with a value, that value is the first one. */
  lemma {:induction false} FirstSomeAt<T, U>(xs: seq<T>, f: T -> Option<U>, i: int)
    requires 0 <= i < |xs| && f(xs[i]).Some?
    requires forall j :: 0 <= j < i ==> f(xs[j]).None?
    ensures FirstSome(xs, f) == f(xs[i])
    decreases i
  {
    if i > 0 {
      assert xs[1..][i - 1] == xs[i];
      assert forall j :: 0 <= j < i - 1 ==> xs[1..][j] == xs[j + 1];
      FirstSomeAt(xs[1..], f, i - 1);
    }
  }

  /** Number of elements satisfying `p`. */
  function CountWhere<T>(xs: seq<T>, p: T -> bool): nat {
    |Filter(xs, p)|
  }

  /** Stable partition: every element satisfying `p` first, then the rest. */
  function PartitionFirst<T>(xs: seq<T>, p: T -> bool): (r: seq<T>)
    ensures |r| == |xs|
    ensures multiset(r) == multiset(xs)
    ensures forall i, j :: 0 <= i < |r| && 0 <= j < |r| && p(r[j]) && !p(r[i]) ==> j < i
    ensures |Filter(xs, p)| <= |r| && r[..|Filter(xs, p)|] == Filter(xs, p)
  {
    var yes := Filter(xs, p);
    var no := Filter(xs, x => !p(x));
    PartitionCounts(xs, p);
    assert multiset(yes + no) == multiset(yes) + multiset(no);
    assert |yes + no| == |multiset(yes + no)|;
    yes + no
  }

  lemma {:induction false} PartitionCounts<T>(xs: seq<T>, p: T -> bool)
    ensures multiset(Filter(xs, p)) + multiset(Filter(xs, x => !p(x))) == multiset(xs)
    decreases |xs|
  {
    if |xs| > 0 {
      PartitionCounts(xs[1..], p);
      assert xs == [xs[0]] + xs[1..];
    }
  }

  /** The partition keeps the count of elements satisfying `p`. */
  lemma PartitionFirstCount<T>(xs: seq<T>, p: T -> bool)
    ensures CountWhere(PartitionFirst(xs, p), p) == CountWhere(xs, p)
  {
    var yes := Filter(xs, p);
    var no := Filter(xs, x => !p(x));
    FilterAppend(yes, no, p);
    FilterKeepsAll(yes, p);
    FilterKeepsNone(no, p);
  }

  lemma {:induction false} FilterKeepsAll<T>(xs: seq<T>, p: T -> bool)
    requires forall i :: 0 <= i < |xs| ==> p(xs[i])
    ensures Filter(xs, p) == xs
    decreases |xs|
  {
    if |xs| > 0 {
      assert forall i :: 1 <= i < |xs| ==> xs[i] == xs[1..][i - 1];
      FilterKeepsAll(xs[1..], p);
    }
  }

  lemma {:induction false} FilterKeepsNone<T>(xs: seq<T>, p: T -> bool)
    requires forall i :: 0 <= i < |xs| ==> !p(xs[i])
    ensures Filter(xs, p) == []
    decreases |xs|
  {
    if |xs| > 0 {
      assert forall i :: 1 <= i < |xs| ==> xs[i] == xs[1..][i - 1];
      FilterKeepsNone(xs[1..], p);
    }
  }

  /** `first(n)`: the first `n` elements, or all of them. */
  function Take<T>(xs: seq<T>, n: nat): (r: seq<T>)
    ensures |r| == Min(n, |xs|)
    ensures forall i :: 0 <= i < |r| ==> r[i] == xs[i]
  {
    if n <= |xs| then xs[..n] else xs
  }

  /** Non-increasing in `key`. */
  predicate SortedDesc<T>(xs: seq<T>, key: T -> real) {
    forall i, j :: 0 <= i < j < |xs| ==> key(xs[i]) >= key(xs[j])
  }

  /** Cutting a descending list keeps its largest elements: whatever is cut is no
      larger than anything kept. */
  lemma TakeKeepsLargest<T>(xs: seq<T>, key: T -> real, n: nat, j: int)
    requires SortedDesc(xs, key) && Min(n, |xs|) <= j < |xs|
    ensures forall i :: 0 <= i < |Take(xs, n)| ==> key(xs[j]) <= key(Take(xs, n)[i])
  {
  }

  function InsertDesc<T>(x: T, xs: seq<T>, key: T -> real): (r: seq<T>)
    requires SortedDesc(xs, key)
    ensures SortedDesc(r, key)
    ensures |r| == |xs| + 1
    ensures multiset(r) == multiset(xs) + multiset{x}
    ensures r[0] == x || (|xs| > 0 && r[0] == xs[0])
    decreases |xs|
  {
    if |xs| == 0 then [x]
    else if key(x) >= key(xs[0]) then [x] + xs
    else
      var rest := InsertDesc(x, xs[1..], key);
      assert xs == [xs[0]] + xs[1..];
      assert key(xs[0]) >= key(rest[0]);
      assert SortedDesc([xs[0]] + rest, key) by {
        forall i, j | 0 <= i < j < |rest| + 1
          ensures key(([xs[0]] + rest)[i]) >= key(([xs[0]] + rest)[j])
        {
          if i == 0 {
            assert key(rest[0]) >= key(rest[j - 1]) || j - 1 == 0;
          }
        }
      }
      [xs[0]] + rest
  }

  /** `sort_by { -key }`: some permutation of `xs` with non-increasing keys. */
  function SortDesc<T>(xs: seq<T>, key: T -> real): (r: seq<T>)
    ensures SortedDesc(r, key)
    ensures |r| == |xs|
    ensures multiset(r) == multiset(xs)
    decreases |xs|
  {
    if |xs| == 0 then []
    else
      assert xs == [xs[0]] + xs[1..];
      InsertDesc(xs[0], SortDesc(xs[1..], key), key)
  }

  predicate NoDuplicates<T(==)>(xs: seq<T>) {
    forall i, j :: 0 <= i < j < |xs| ==> xs[i] != xs[j]
  }

  /** The distinct elements of `xs` in order of first occurrence (the keys of `group_by`). */
  function Distinct<T(==)>(xs: seq<T>): (r: seq<T>)
    ensures NoDuplicates(r)
    ensures forall i :: 0 <= i < |r| ==> r[i] in xs
    ensures forall i :: 0 <= i < |xs| ==> xs[i] in r
    ensures |r| <= |xs|
    decreases |xs|
  {
    if |xs| == 0 then []
    else
      var d := Distinct(xs[..|xs| - 1]);
      var x := xs[|xs| - 1];
      assert xs == xs[..|xs| - 1] + [x];
      if x in d then d else d + [x]
  }
}
