/** Ruby's `group_by` over a sequence: keys in order of first occurrence, the
    members of each group in their original order, and the fact that summing
    group by group sums every element exactly once. */
module Grouping {
  import opened Sequences
  import opened Money

  /** `xs.map(&key)`. */
  function Project<T, K>(xs: seq<T>, key: T -> K): (r: seq<K>)
    ensures |r| == |xs|
    ensures forall i :: 0 <= i < |xs| ==> r[i] == key(xs[i])
  {
    seq(|xs|, i requires 0 <= i < |xs| => key(xs[i]))
  }

  /** Filtering then projecting a non-empty sequence, one element at a time. */
  lemma ProjectFilterCons<T, U>(xs: seq<T>, p: T -> bool, f: T -> U)
    requires |xs| > 0
    ensures Project(Filter(xs, p), f)
      == (if p(xs[0]) then [f(xs[0])] + Project(Filter(xs[1..], p), f) else Project(Filter(xs[1..], p), f))
  {
    if p(xs[0]) {
      assert Filter(xs, p) == [xs[0]] + Filter(xs[1..], p);
    }
  }

  /** The keys of `group_by`, each once, in order of first occurrence. */
  function Keys<T, K(==)>(xs: seq<T>, key: T -> K): (r: seq<K>)
    ensures NoDuplicates(r)
    ensures forall j :: 0 <= j < |xs| ==> key(xs[j]) in r
    ensures forall i :: 0 <= i < |r| ==> r[i] in Project(xs, key)
    ensures |r| <= |xs|
  {
    Distinct(Project(xs, key))
  }

  /** The test "has key `k`". */
  function HasKey<T, K(==)>(key: T -> K, k: K): T -> bool {
    x => key(x) == k
  }

  /** The group of key `k`: the elements with that key, in their original order. */
  function Members<T, K(==)>(xs: seq<T>, key: T -> K, k: K): (r: seq<T>)
    ensures forall i :: 0 <= i < |r| ==> key(r[i]) == k && r[i] in xs
    ensures forall j :: 0 <= j < |xs| && key(xs[j]) == k ==> xs[j] in r
  {
    Filter(xs, HasKey(key, k))
  }

  /** Every key of `group_by` has a non-empty group. */
  lemma KeyHasMembers<T, K>(xs: seq<T>, key: T -> K, k: K)
    requires k in Keys(xs, key)
    ensures |Members(xs, key, k)| > 0
  {
    var p := Project(xs, key);
    var j :| 0 <= j < |p| && p[j] == k;
    assert xs[j] in Members(xs, key, k);
  }

  /** A key that no element has has an empty group. */
  lemma MembersAbsent<T, K>(xs: seq<T>, key: T -> K, k: K)
    requires k !in Project(xs, key)
    ensures Members(xs, key, k) == []
  {
  }

  lemma MembersSnoc<T, K>(xs: seq<T>, x: T, key: T -> K, k: K)
    ensures Members(xs + [x], key, k) == Members(xs, key, k) + (if key(x) == k then [x] else [])
  {
    FilterAppend(xs, [x], HasKey(key, k));
    assert [x][1..] == [];
  }

  /** The sum of `f` over the groups of the keys `ks`. */
  function GroupSum<T, K(==)>(ks: seq<K>, xs: seq<T>, key: T -> K, f: T -> real): real
    decreases |ks|
  {
    if |ks| == 0 then 0.0 else SumOf(Members(xs, key, ks[0]), f) + GroupSum(ks[1..], xs, key, f)
  }

  /** Appending `x` adds `f(x)` to the group sums when its key is among `ks`. */
  lemma {:induction false} GroupSumSnoc<T, K>(ks: seq<K>, xs: seq<T>, x: T, key: T -> K, f: T -> real)
    requires NoDuplicates(ks)
    ensures GroupSum(ks, xs + [x], key, f) == GroupSum(ks, xs, key, f) + (if key(x) in ks then f(x) else 0.0)
    decreases |ks|
  {
    if |ks| > 0 {
      var k := ks[0];
      assert ks == [k] + ks[1..];
      assert NoDuplicates(ks[1..]);
      GroupSumSnoc(ks[1..], xs, x, key, f);
      var m := Members(xs, key, k);
      var extra := if key(x) == k then [x] else [];
      MembersSnoc(xs, x, key, k);
      SumOfAppend(m, extra, f);
      assert SumOf(extra, f) == (if key(x) == k then f(x) else 0.0);
      assert key(x) == k ==> key(x) !in ks[1..];
    }
  }

  lemma {:induction false} GroupSumAppendKey<T, K>(ks: seq<K>, k: K, xs: seq<T>, key: T -> K, f: T -> real)
    ensures GroupSum(ks + [k], xs, key, f) == GroupSum(ks, xs, key, f) + SumOf(Members(xs, key, k), f)
    decreases |ks|
  {
    if |ks| == 0 {
      assert (ks + [k])[1..] == [];
    } else {
      assert (ks + [k])[1..] == ks[1..] + [k];
      GroupSumAppendKey(ks[1..], k, xs, key, f);
    }
  }

  /** Grouping conserves sums: adding up the groups' sums gives the sum over all elements. */
  lemma {:induction false} GroupingConservesSum<T, K>(xs: seq<T>, key: T -> K, f: T -> real)
    ensures GroupSum(Keys(xs, key), xs, key, f) == SumOf(xs, f)
    decreases |xs|
  {
    if |xs| > 0 {
      var init := xs[..|xs| - 1];
      var x := xs[|xs| - 1];
      assert xs == init + [x];
      var p := Project(xs, key);
      assert p[..|p| - 1] == Project(init, key);
      assert p[|p| - 1] == key(x);
      var d := Keys(init, key);
      GroupingConservesSum(init, key, f);
      GroupSumSnoc(d, init, x, key, f);
      SumOfSnoc(init, x, f);
      if key(x) in d {
        assert Keys(xs, key) == d;
      } else {
        assert Keys(xs, key) == d + [key(x)];
        assert key(x) !in Project(init, key);
        MembersAbsent(init, key, key(x));
        MembersSnoc(init, x, key, key(x));
        assert Members(xs, key, key(x)) == [x];
        GroupSumAppendKey(d, key(x), xs, key, f);
      }
    }
  }

  /** Splitting by a predicate splits every sum. */
  lemma {:induction false} FilterSplitsSum<T>(xs: seq<T>, p: T -> bool, f: T -> real)
    ensures SumOf(xs, f) == SumOf(Filter(xs, p), f) + SumOf(Filter(xs, x => !p(x)), f)
    decreases |xs|
  {
    if |xs| > 0 {
      FilterSplitsSum(xs[1..], p, f);
    }
  }

  /** The partition does not change any sum. */
  lemma PartitionFirstSum<T>(xs: seq<T>, p: T -> bool, f: T -> real)
    ensures SumOf(PartitionFirst(xs, p), f) == SumOf(xs, f)
  {
    SumOfAppend(Filter(xs, p), Filter(xs, x => !p(x)), f);
    FilterSplitsSum(xs, p, f);
  }

  /** One, for counting with `SumOf`. */
  function One<T>(x: T): real {
    1.0
  }

  lemma {:induction false} SumOfOnes<T>(xs: seq<T>)
    ensures SumOf(xs, One) == |xs| as real
    decreases |xs|
  {
    if |xs| > 0 {
      SumOfOnes(xs[1..]);
    }
  }

  /** Inserting into a sorted sequence adds the new element's term to any sum. */
  lemma {:induction false} InsertDescSum<T>(x: T, xs: seq<T>, key: T -> real, f: T -> real)
    requires SortedDesc(xs, key)
    ensures SumOf(InsertDesc(x, xs, key), f) == f(x) + SumOf(xs, f)
    decreases |xs|
  {
    if |xs| > 0 && key(x) < key(xs[0]) {
      InsertDescSum(x, xs[1..], key, f);
      assert InsertDesc(x, xs, key) == [xs[0]] + InsertDesc(x, xs[1..], key);
      assert ([xs[0]] + InsertDesc(x, xs[1..], key))[1..] == InsertDesc(x, xs[1..], key);
    }
  }

  /** Sorting does not change any sum. */
  lemma {:induction false} SortDescSum<T>(xs: seq<T>, key: T -> real, f: T -> real)
    ensures SumOf(SortDesc(xs, key), f) == SumOf(xs, f)
    decreases |xs|
  {
    if |xs| > 0 {
      SortDescSum(xs[1..], key, f);
      InsertDescSum(xs[0], SortDesc(xs[1..], key), key, f);
    }
  }

  /** In a sequence without duplicates every value occurs at most once. */
  lemma {:induction false} NoDuplicatesCount<T>(xs: seq<T>, v: T)
    requires NoDuplicates(xs)
    ensures multiset(xs)[v] <= 1
    decreases |xs|
  {
    if |xs| > 0 {
      assert xs == [xs[0]] + xs[1..];
      NoDuplicatesCount(xs[1..], v);
      if xs[0] == v {
        assert v !in xs[1..];
      }
    }
  }

  /** A permutation of a sequence without duplicates has none either. */
  lemma PermutationNoDuplicates<T>(xs: seq<T>, ys: seq<T>)
    requires multiset(xs) == multiset(ys) && NoDuplicates(xs)
    ensures NoDuplicates(ys)
  {
    forall i, j | 0 <= i < j < |ys|
      ensures ys[i] != ys[j]
    {
      if ys[i] == ys[j] {
        var v := ys[i];
        assert ys == ys[..j] + [v] + ys[j + 1..];
        assert v in ys[..j];
        assert multiset(ys)[v] >= 2;
        NoDuplicatesCount(xs, v);
        assert false;
      }
    }
  }
}
