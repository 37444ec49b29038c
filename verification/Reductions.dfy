/** Byte-wise sum reduction over the blocks of all ranks, and the accumulators that compute it. */
module Reductions {
  import opened Arithmetic
  import opened Bytes
  import opened Sums
  import opened Permutations

  /** Every block is `w` bytes long. */
  predicate Uniform(blocks: seq<Buffer>, w: nat) {
    forall r :: 0 <= r < |blocks| ==> |blocks[r]| == w
  }

  function Column(blocks: seq<Buffer>, w: nat, i: nat): (col: seq<int>)
    requires Uniform(blocks, w) && i < w
    ensures |col| == |blocks| && forall r :: 0 <= r < |col| ==> 0 <= col[r] < 256
  {
    seq(|blocks|, r requires 0 <= r < |blocks| => blocks[r][i] as int)
  }

  /** The reduction every collective promises: sum over all ranks, modulo 256, in each position. */
  function SumByte(blocks: seq<Buffer>, w: nat, i: nat): byte
    requires Uniform(blocks, w) && i < w
  {
    (Sum(Column(blocks, w, i)) % 256) as byte
  }

  function SumVector(blocks: seq<Buffer>, w: nat): (v: Buffer)
    requires Uniform(blocks, w)
  {
    seq(w, i requires 0 <= i < w => SumByte(blocks, w, i))
  }

  /** The sum vector position by position: zero for no blocks, and each further block adds its byte. */
  lemma SumByteAppend(blocks: seq<Buffer>, b: Buffer, w: nat, i: nat)
    requires Uniform(blocks, w) && |b| == w && i < w
    ensures SumVector([], w)[i] == 0
    ensures SumVector(blocks + [b], w)[i] as int == (SumVector(blocks, w)[i] as int + b[i] as int) % 256
  {
    var col, longer := Column(blocks, w, i), Column(blocks + [b], w, i);
    assert longer[..|blocks|] == col && longer[|blocks|] == b[i] as int;
    ModAdd(Sum(col), b[i] as int, 256);
  }

  /** A rank's view: its own block at its own place, the others in the order its receives matched. */
  function Gathered(rank: nat, own: Buffer, arrivals: seq<Buffer>): (g: seq<Buffer>)
    requires rank <= |arrivals|
    ensures |g| == |arrivals| + 1
    ensures Uniform(arrivals, |own|) ==> Uniform(g, |own|)
  {
    arrivals[..rank] + [own] + arrivals[rank..]
  }

  lemma GatheredAt(rank: nat, own: Buffer, arrivals: seq<Buffer>, x: nat)
    requires rank <= |arrivals| && x <= |arrivals|
    ensures Gathered(rank, own, arrivals)[x] == if x == rank then own else arrivals[if x < rank then x else x - 1]
  {
  }

  lemma GatheredContents(rank: nat, own: Buffer, arrivals: seq<Buffer>)
    requires rank <= |arrivals|
    ensures multiset(Gathered(rank, own, arrivals)) == multiset(arrivals) + multiset{own}
  {
    assert arrivals == arrivals[..rank] + arrivals[rank..];
  }

  lemma GatheredPermutation(rank: nat, own: Buffer, arrivals: seq<Buffer>, others: seq<Buffer>)
    requires rank <= |arrivals| && multiset(arrivals) == multiset(others)
    ensures |others| == |arrivals| && multiset(Gathered(rank, own, arrivals)) == multiset(Gathered(rank, own, others))
  {
    assert |arrivals| == |multiset(arrivals)| == |multiset(others)|;
    GatheredContents(rank, own, arrivals);
    GatheredContents(rank, own, others);
  }

  /** The reduction does not depend on the order of arrival. */
  lemma OrderDoesNotMatter(a: seq<Buffer>, b: seq<Buffer>, w: nat)
    requires Uniform(a, w) && multiset(a) == multiset(b)
    ensures Uniform(b, w) && SumVector(a, w) == SumVector(b, w)
  {
    forall r | 0 <= r < |b| ensures |b[r]| == w {
      assert b[r] in multiset(a);
    }
    forall i | 0 <= i < w ensures SumByte(a, w, i) == SumByte(b, w, i) {
      var f := (block: Buffer) => if i < |block| then block[i] as int else 0;
      assert Column(a, w, i) == Map(f, a) && Column(b, w, i) == Map(f, b);
      MapPermutation(f, a, b);
      SumPermutation(Column(a, w, i), Column(b, w, i));
    }
  }

  /** A running sum over a column that wraps at `width`: the u16 and u64 loops. */
  function Accumulate(width: nat, col: seq<int>): nat
    requires width > 0
  {
    if col == [] then 0 else (Accumulate(width, col[..|col| - 1]) + col[|col| - 1]) % width
  }

  /** A wrapping accumulator whose width is a multiple of 256 reduces to the same byte. */
  lemma {:induction false} AccumulatorWidthIrrelevant(m: nat, col: seq<int>)
    requires m > 0
    ensures Accumulate(m * 256, col) == Sum(col) % (m * 256)
    ensures Accumulate(m * 256, col) % 256 == Sum(col) % 256
  {
    if col != [] {
      var last := |col| - 1;
      AccumulatorWidthIrrelevant(m, col[..last]);
      ModAdd(Sum(col[..last]), col[last], m * 256);
    }
    ModMod(Sum(col), m, 256);
  }

  predicate ByteColumn(col: seq<int>) {
    forall r :: 0 <= r < |col| ==> 0 <= col[r] <= 255
  }

  /** Checked u16 addition would overflow somewhere along the column. */
  ghost predicate Overflows16(col: seq<int>) {
    exists k :: 0 <= k <= |col| && Sum(col[..k]) > 65535
  }

  lemma {:induction false} ByteColumnBound(col: seq<int>)
    requires ByteColumn(col)
    ensures 0 <= Sum(col) <= 255 * |col|
  {
    if col != [] {
      ByteColumnBound(col[..|col| - 1]);
    }
  }

  /** The u16 accumulator of `reduce` and the allreduce fallback is safe on every input exactly up to 257 ranks. */
  lemma Sum16SafeIff(size: nat)
    ensures (forall col :: ByteColumn(col) && |col| == size ==> !Overflows16(col)) <==> size <= 257
  {
    if size <= 257 {
      forall col, k | ByteColumn(col) && |col| == size && 0 <= k <= size ensures Sum(col[..k]) <= 65535 {
        ByteColumnBound(col[..k]);
      }
    } else {
      var worst := Others(size, size, 255);
      SumOthers(size, size, 255);
      assert worst[..size] == worst;
      assert Overflows16(worst) && ByteColumn(worst);
    }
  }
}
