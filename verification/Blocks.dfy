/** Equal-sized blocks laid end to end in a flat buffer. */
module Blocks {
  import opened Arithmetic

  lemma BlockBounds(x: nat, n: nat, w: nat)
    requires x < n
    ensures 0 <= x * w && x * w + w == (x + 1) * w && (x + 1) * w <= n * w
  {
    MulSucc(x, w);
    MulLe(0, x, w);
    MulLe(x + 1, n, w);
  }

  function Overwrite<T>(a: seq<T>, off: nat, src: seq<T>): (b: seq<T>)
    requires off + |src| <= |a|
  {
    a[..off] + src + a[off + |src|..]
  }

  lemma OverwriteAt<T>(a: seq<T>, off: nat, src: seq<T>, i: nat)
    requires off + |src| <= |a| && i < |a|
    ensures |Overwrite(a, off, src)| == |a|
    ensures Overwrite(a, off, src)[i] == if off <= i < off + |src| then src[i - off] else a[i]
  {
  }

  /** Block x of `a` holds `b`. */
  predicate BlockIs<T(==)>(a: seq<T>, x: nat, w: nat, b: seq<T>) {
    0 <= x * w && x * w + w <= |a| && a[x * w..x * w + w] == b
  }

  lemma OverwriteBlock<T>(a: seq<T>, p: nat, n: nat, w: nat, src: seq<T>)
    requires p < n && n * w <= |a| && |src| == w
    ensures 0 <= p * w && p * w + w <= |a|
    ensures BlockIs(Overwrite(a, p * w, src), p, w, src)
    ensures Overwrite(a, p * w, src)[n * w..] == a[n * w..]
    ensures forall x: nat, b: seq<T> :: x < n && x != p && BlockIs(a, x, w, b) ==>
              BlockIs(Overwrite(a, p * w, src), x, w, b)
  {
    BlockBounds(p, n, w);
    var a' := Overwrite(a, p * w, src);
    forall x: nat, b: seq<T> | x < n && x != p && BlockIs(a, x, w, b) ensures BlockIs(a', x, w, b) {
      if x < p { BlockBounds(x, p, w); } else { BlockBounds(p, x, w); }
      assert a'[x * w..x * w + w] == a[x * w..x * w + w];
    }
  }

  /** Block `own` and the blocks below `upTo` are in place. */
  ghost predicate Filled<T>(a: seq<T>, w: nat, all: seq<seq<T>>, own: nat, upTo: nat) {
    && upTo <= |all|
    && |all| * w <= |a|
    && (forall x :: 0 <= x < |all| ==> |all[x]| == w)
    && (forall x: nat :: x < |all| && (x < upTo || x == own) ==> BlockIs(a, x, w, all[x]))
  }

  lemma FilledStep<T>(a: seq<T>, w: nat, all: seq<seq<T>>, own: nat, p: nat)
    requires p < |all| && Filled(a, w, all, own, p)
    ensures p == own ==> Filled(a, w, all, own, p + 1)
    ensures 0 <= p * w && p * w + w <= |a|
    ensures Filled(Overwrite(a, p * w, all[p]), w, all, own, p + 1)
    ensures Overwrite(a, p * w, all[p])[|all| * w..] == a[|all| * w..]
  {
    OverwriteBlock(a, p, |all|, w, all[p]);
  }

  lemma FilledOwn<T>(a: seq<T>, w: nat, all: seq<seq<T>>, own: nat)
    requires own < |all| && |all| * w <= |a| && forall x :: 0 <= x < |all| ==> |all[x]| == w
    ensures 0 <= own * w && own * w + w <= |a|
    ensures Filled(Overwrite(a, own * w, all[own]), w, all, own, 0)
    ensures Overwrite(a, own * w, all[own])[|all| * w..] == a[|all| * w..]
  {
    OverwriteBlock(a, own, |all|, w, all[own]);
  }

  lemma FilledNone<T>(a: seq<T>, w: nat, all: seq<seq<T>>)
    requires |all| * w <= |a| && forall x :: 0 <= x < |all| ==> |all[x]| == w
    ensures Filled(a, w, all, |all|, 0)
  {
  }

  lemma {:induction false} FilledAll<T>(a: seq<T>, w: nat, all: seq<seq<T>>, own: nat)
    requires Filled(a, w, all, own, |all|)
    ensures a == Flatten(all) + a[|all| * w..]
  {
    FlattenIsPrefix(a, all, w);
  }

  /** End to end, the blocks are the buffer. */
  function Flatten<T>(blocks: seq<seq<T>>): seq<T> {
    if blocks == [] then [] else Flatten(blocks[..|blocks| - 1]) + blocks[|blocks| - 1]
  }

  lemma AppendBlock<T>(a: seq<T>, x: nat, w: nat, b: seq<T>)
    requires BlockIs(a, x, w, b)
    ensures 0 <= x * w <= (x + 1) * w <= |a| && a[..(x + 1) * w] == a[..x * w] + b
  {
    MulSucc(x, w);
    assert a[..x * w + w] == a[..x * w] + a[x * w..x * w + w];
  }

  lemma {:induction false} FlattenIsPrefix<T>(a: seq<T>, blocks: seq<seq<T>>, w: nat)
    requires forall x :: 0 <= x < |blocks| ==> BlockIs(a, x, w, blocks[x])
    ensures 0 <= |blocks| * w <= |a| && Flatten(blocks) == a[..|blocks| * w]
  {
    if blocks != [] {
      var last := |blocks| - 1;
      FlattenIsPrefix(a, blocks[..last], w);
      assert BlockIs(a, last, w, blocks[last]);
      AppendBlock(a, last, w, blocks[last]);
    }
  }
}
