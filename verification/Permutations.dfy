/** Sequences without repetition, and when two of them are permutations of each other. */
module Permutations {

  predicate Distinct<T(==)>(s: seq<T>) {
    forall i, j :: 0 <= i < j < |s| ==> s[i] != s[j]
  }

  lemma {:induction false} DistinctCount<T>(s: seq<T>, x: T)
    requires Distinct(s)
    ensures multiset(s)[x] == if x in s then 1 else 0
  {
    if s != [] {
      var last := |s| - 1;
      DistinctCount(s[..last], x);
      assert s == s[..last] + [s[last]];
    }
  }

  lemma {:induction false} DistinctSetSize<T>(s: seq<T>)
    requires Distinct(s)
    ensures |set x | x in s| == |s|
  {
    if s != [] {
      var last := |s| - 1;
      DistinctSetSize(s[..last]);
      assert s == s[..last] + [s[last]];
      assert (set x | x in s) == (set x | x in s[..last]) + {s[last]};
    }
  }

  /** Pigeonhole: a repetition-free selection as long as the whole is a permutation of it. */
  lemma SelectionIsPermutation<T>(s: seq<T>, whole: seq<T>)
    requires Distinct(s) && Distinct(whole) && |s| == |whole|
    requires forall x :: x in s ==> x in whole
    ensures multiset(s) == multiset(whole)
  {
    var a, b := set x | x in s, set x | x in whole;
    DistinctSetSize(s);
    DistinctSetSize(whole);
    assert a <= b;
    SubsetSameSize(a, b);
    forall x: T ensures multiset(s)[x] == multiset(whole)[x] {
      DistinctCount(s, x);
      DistinctCount(whole, x);
      assert x in a <==> x in b;
    }
  }

  lemma SubsetSameSize<T>(a: set<T>, b: set<T>)
    requires a <= b && |a| == |b|
    ensures a == b
  {
    assert |b - a| == |b| - |a|;
  }

  /** Mapping keeps permutations. */
  function Map<S, T>(f: S -> T, s: seq<S>): (r: seq<T>)
    ensures |r| == |s|
    ensures forall i :: 0 <= i < |s| ==> r[i] == f(s[i])
  {
    seq(|s|, i requires 0 <= i < |s| => f(s[i]))
  }

  lemma RemoveOne<T>(b: seq<T>, i: nat)
    requires i < |b|
    ensures multiset(Without(b, i)) == multiset(b) - multiset{b[i]}
  {
    assert b == b[..i] + [b[i]] + b[i + 1..];
  }

  /** All elements but the i-th. */
  function Without<T>(b: seq<T>, i: nat): seq<T>
    requires i < |b|
  {
    b[..i] + b[i + 1..]
  }

  lemma MapRemoveOne<S, T>(f: S -> T, b: seq<S>, i: nat)
    requires i < |b|
    ensures multiset(Map(f, Without(b, i))) == multiset(Map(f, b)) - multiset{f(b[i])}
    ensures f(b[i]) in Map(f, b)
  {
    RemoveOne(Map(f, b), i);
    assert Map(f, Without(b, i)) == Without(Map(f, b), i);
  }

  lemma SameButOne<T>(a: multiset<T>, b: multiset<T>, x: T)
    requires x in a && x in b && a - multiset{x} == b - multiset{x}
    ensures a == b
  {
    assert a == a - multiset{x} + multiset{x} && b == b - multiset{x} + multiset{x};
  }

  lemma FindIn<T>(b: seq<T>, x: T) returns (i: nat)
    requires x in multiset(b)
    ensures i < |b| && b[i] == x
  {
    i :| 0 <= i < |b| && b[i] == x;
  }

  lemma {:induction false} MapPermutation<S, T>(f: S -> T, a: seq<S>, b: seq<S>)
    requires multiset(a) == multiset(b)
    ensures multiset(Map(f, a)) == multiset(Map(f, b))
    decreases |a|
  {
    if |a| == 0 {
      assert |b| == |multiset(b)| == |multiset(a)|;
      assert a == b;
    } else {
      assert a[0] in multiset(a);
      var i := FindIn(b, a[0]);
      RemoveOne(a, 0);
      RemoveOne(b, i);
      MapPermutation(f, Without(a, 0), Without(b, i));
      MapRemoveOne(f, a, 0);
      MapRemoveOne(f, b, i);
      SameButOne(multiset(Map(f, a)), multiset(Map(f, b)), f(a[0]));
    }
  }
}
