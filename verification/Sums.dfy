/** Finite sums over sequences, and the pigeonhole facts the counting arguments use. */
module Sums {
  import opened Permutations

  function Sum(s: seq<int>): int {
    if s == [] then 0 else Sum(s[..|s| - 1]) + s[|s| - 1]
  }

  lemma {:induction false} SumUpdate(s: seq<int>, i: nat, v: int)
    requires i < |s|
    ensures Sum(s[i := v]) == Sum(s) - s[i] + v
  {
    var last := |s| - 1;
    if i == last {
      assert s[i := v][..last] == s[..last];
    } else {
      assert s[i := v][..last] == s[..last][i := v];
      SumUpdate(s[..last], i, v);
    }
  }

  lemma SumTwo(a: int, b: int)
    ensures Sum([a, b]) == a + b
  {
    var s, t := [a, b], [a];
    assert s[..1] == t && t[..0] == [];
    assert Sum(t) == a;
  }

  lemma {:induction false} SumMonotone(a: seq<int>, b: seq<int>)
    requires |a| == |b|
    requires forall i :: 0 <= i < |a| ==> a[i] <= b[i]
    ensures Sum(a) <= Sum(b)
  {
    if a != [] {
      SumMonotone(a[..|a| - 1], b[..|b| - 1]);
    }
  }

  /** Pigeonhole: a row bounded pointwise by another one with no larger a sum is equal to it. */
  lemma {:induction false} SumTight(a: seq<int>, b: seq<int>)
    requires |a| == |b|
    requires forall i :: 0 <= i < |a| ==> a[i] <= b[i]
    requires Sum(b) <= Sum(a)
    ensures a == b
  {
    if a != [] {
      var last := |a| - 1;
      SumMonotone(a[..last], b[..last]);
      SumTight(a[..last], b[..last]);
      assert a == a[..last] + [a[last]] && b == b[..last] + [b[last]];
    }
  }

  /** A row that is `v` everywhere but at one place, where it is 0. */
  function Others(n: nat, r: nat, v: int): (s: seq<int>)
  {
    seq(n, q => if q == r then 0 else v)
  }

  lemma {:induction false} SumOthers(n: nat, r: nat, v: int)
    ensures Sum(Others(n, r, v)) == if r < n then v * (n - 1) else v * n
  {
    if n > 0 {
      assert Others(n, r, v)[..n - 1] == Others(n - 1, r, v);
      SumOthers(n - 1, r, v);
    }
  }

  lemma {:induction false} SumConcat(a: seq<int>, b: seq<int>)
    ensures Sum(a + b) == Sum(a) + Sum(b)
  {
    if b == [] {
      assert a + b == a;
    } else {
      assert (a + b)[..|a + b| - 1] == a + b[..|b| - 1];
      SumConcat(a, b[..|b| - 1]);
    }
  }

  lemma {:induction false} SumExtract(b: seq<int>, i: nat)
    requires i < |b|
    ensures Sum(b) == b[i] + Sum(Without(b, i))
  {
    assert b == b[..i] + ([b[i]] + b[i + 1..]);
    SumConcat(b[..i], b[i + 1..]);
    SumConcat(b[..i], [b[i]] + b[i + 1..]);
    SumConcat([b[i]], b[i + 1..]);
    assert [b[i]][..0] == [];
  }

  /** Sums ignore the order of their terms. */
  lemma {:induction false} SumPermutation(a: seq<int>, b: seq<int>)
    requires multiset(a) == multiset(b)
    ensures Sum(a) == Sum(b)
  {
    if a == [] {
      assert |b| == |multiset(b)| == |multiset(a)|;
    } else {
      var last := |a| - 1;
      assert a[last] in multiset(b);
      var i :| 0 <= i < |b| && b[i] == a[last];
      RemoveOne(a, last);
      RemoveOne(b, i);
      assert Without(a, last) == a[..last];
      SumExtract(b, i);
      SumPermutation(a[..last], Without(b, i));
    }
  }
}
