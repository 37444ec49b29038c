/** Prefix-sum displacements and the segments they cut a vector into. */
module Displacements {

  /** Sum of the first k counts: where segment k starts. */
  function Displ(counts: seq<nat>, k: nat): nat
    requires k <= |counts|
  {
    if k == 0 then 0 else Displ(counts, k - 1) + counts[k - 1]
  }

  function Displs(counts: seq<nat>): (ds: seq<nat>)
  {
    seq(|counts|, k requires 0 <= k < |counts| => Displ(counts, k))
  }

  function Total(counts: seq<nat>): nat {
    Displ(counts, |counts|)
  }

  lemma {:induction false} DisplMonotone(counts: seq<nat>, j: nat, k: nat)
    requires j <= k <= |counts|
    ensures Displ(counts, j) <= Displ(counts, k)
    decreases k - j
  {
    if j < k { DisplMonotone(counts, j, k - 1); }
  }

  lemma SegmentInside(counts: seq<nat>, k: nat)
    requires k < |counts|
    ensures Displ(counts, k) + counts[k] == Displ(counts, k + 1) <= Total(counts)
  {
    DisplMonotone(counts, k + 1, |counts|);
  }

  lemma {:induction false} SegmentsApart(counts: seq<nat>, p: nat, q: nat)
    requires p < q <= |counts|
    ensures Displ(counts, p) + counts[p] <= Displ(counts, q)
  {
    DisplMonotone(counts, p + 1, q);
  }

  /** Segments 0 .. k-1 of a vector, end to end. */
  function Segments<T>(v: seq<T>, counts: seq<nat>, k: nat): seq<T>
    requires k <= |counts| && Total(counts) <= |v|
  {
    if k == 0 then []
    else
      SegmentInside(counts, k - 1);
      Segments(v, counts, k - 1) + v[Displ(counts, k - 1)..Displ(counts, k)]
  }

  /** Prefix-sum segments tile: nothing is dropped, repeated or reordered. */
  lemma {:induction false} SegmentsTile<T>(v: seq<T>, counts: seq<nat>, k: nat)
    requires k <= |counts| && Total(counts) <= |v|
    ensures Displ(counts, k) <= |v| && Segments(v, counts, k) == v[..Displ(counts, k)]
  {
    if k > 0 {
      SegmentInside(counts, k - 1);
      SegmentsTile(v, counts, k - 1);
      assert v[..Displ(counts, k)] == v[..Displ(counts, k - 1)] + v[Displ(counts, k - 1)..Displ(counts, k)];
    } else {
      DisplMonotone(counts, 0, |counts|);
    }
  }

  lemma {:induction false} UniformDispl(counts: seq<nat>, w: nat, k: nat)
    requires k <= |counts| && forall i :: 0 <= i < |counts| ==> counts[i] == w
    ensures Displ(counts, k) == k * w
  {
    if k > 0 { UniformDispl(counts, w, k - 1); }
  }
}
