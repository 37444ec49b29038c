/** Ring neighbours, computed on 64-bit unsigned numbers that wrap around. */
module Ring {
  import opened Arithmetic
  import opened Bytes

  /** The predecessor of a 64-bit unsigned number, wrapping around at 0. */
  function WrappingPred(rank: nat): int {
    if rank == 0 then TWO_TO_64 - 1 else rank - 1
  }

  function Prev(rank: nat, size: nat): (p: nat)
    requires size > 0
    ensures p < size
  {
    WrappingPred(rank) % size
  }

  function Next(rank: nat, size: nat): (p: nat)
    requires size > 0
    ensures p < size
  {
    (rank + 1) % size
  }

  predicate Divides(size: nat)
    requires size > 0
  {
    TWO_TO_64 % size == 0
  }

  /** `prev` is the mathematical predecessor on the ring for every rank but 0; for rank 0 exactly when
      the size divides 2^64. */
  lemma PrevIsPredecessorIff(rank: nat, size: nat)
    requires rank < size
    ensures rank > 0 ==> Prev(rank, size) == rank - 1
    ensures rank == 0 ==> (Prev(rank, size) == size - 1 <==> Divides(size))
  {
    if rank > 0 {
      DivModUnique(rank - 1, size, 0, rank - 1);
    } else {
      var q, r := TWO_TO_64 / size, TWO_TO_64 % size;
      assert TWO_TO_64 == q * size + r;
      if r == 0 {
        MulSucc(q - 1, size);
        DivModUnique(TWO_TO_64 - 1, size, q - 1, size - 1);
      } else {
        DivModUnique(TWO_TO_64 - 1, size, q, r - 1);
      }
    }
  }

  lemma NextIsSuccessor(rank: nat, size: nat)
    requires rank < size
    ensures Next(rank, size) == if rank + 1 == size then 0 else rank + 1
  {
    if rank + 1 == size {
      DivModUnique(size, size, 1, 0);
    } else {
      DivModUnique(rank + 1, size, 0, rank + 1);
    }
  }

  function Pow2(j: nat): (p: nat)
    ensures p > 0
  {
    if j == 0 then 1 else 2 * Pow2(j - 1)
  }

  predicate PowerOfTwo(size: nat) {
    size == 1 || (size > 0 && size % 2 == 0 && PowerOfTwo(size / 2))
  }

  lemma {:induction false} PowersDivide(size: nat, e: nat)
    requires size > 0
    ensures Pow2(e) % size == 0 <==> PowerOfTwo(size) && size <= Pow2(e)
    decreases e
  {
    if size == 1 {
    } else if e == 0 {
      DivModUnique(1, size, 0, 1);
    } else if size % 2 == 1 {
      OddCancels(size, e);
      PowersDivide(size, e - 1);
    } else {
      HalfDivides(size, Pow2(e - 1));
      PowersDivide(size / 2, e - 1);
    }
  }

  lemma OddCancels(size: nat, e: nat)
    requires size % 2 == 1 && e > 0
    ensures Pow2(e) % size == 0 <==> Pow2(e - 1) % size == 0
  {
    var x := Pow2(e - 1);
    if (2 * x) % size == 0 { OddDivides(size, x); }
    if x % size == 0 {
      var q := x / size;
      assert 2 * x == (2 * q) * size by { MulAssoc(2, q, size); }
      DivModUnique(2 * x, size, 2 * q, 0);
    }
  }

  lemma OddDivides(size: nat, x: nat)
    requires size % 2 == 1 && (2 * x) % size == 0
    ensures x % size == 0
  {
    var q := 2 * x / size;
    assert 2 * x == q * size;
    if q % 2 == 1 {
      OddTimesOdd(q, size);
      assert false;
    }
    var h := q / 2;
    MulAssoc(2, h, size);
    DivModUnique(x, size, h, 0);
  }

  lemma OddTimesOdd(a: nat, b: nat)
    requires a % 2 == 1 && b % 2 == 1
    ensures (a * b) % 2 == 1
  {
    var x, y := a / 2, b / 2;
    assert a * b == (2 * x + 1) * (2 * y + 1);
    assert (2 * x + 1) * (2 * y + 1) == 2 * (2 * (x * y) + x + y) + 1;
  }

  lemma HalfDivides(size: nat, x: nat)
    requires size > 0 && size % 2 == 0
    ensures (2 * x) % size == 0 <==> x % (size / 2) == 0
  {
    var half := size / 2;
    if (2 * x) % size == 0 {
      var q := 2 * x / size;
      assert 2 * x == q * size && q * size == 2 * (q * half);
      DivModUnique(x, half, q, 0);
    }
    if x % half == 0 {
      var q := x / half;
      assert x == q * half && q * size == 2 * (q * half);
      DivModUnique(2 * x, size, q, 0);
    }
  }

  /** The condition a caller can check: the ring is right exactly when the size is a power of two. */
  lemma DividesIffPowerOfTwo(size: nat)
    requires size > 0
    ensures Divides(size) <==> PowerOfTwo(size) && size <= TWO_TO_64
  {
    SixtyFour();
    PowersDivide(size, 64);
  }

  lemma SixtyFour()
    ensures Pow2(64) == TWO_TO_64
  {
    assert Pow2(4) == 16;
    Doubled(4, 16);
    Doubled(8, 0x100);
    Doubled(16, 0x1_0000);
    Doubled(32, 0x1_0000_0000);
  }

  lemma Doubled(a: nat, p: nat)
    requires Pow2(a) == p
    ensures Pow2(2 * a) == p * p
  {
    PowSum(a, a);
  }

  lemma {:induction false} PowSum(a: nat, b: nat)
    ensures Pow2(a + b) == Pow2(a) * Pow2(b)
  {
    if b > 0 {
      PowSum(a, b - 1);
      MulAssoc(Pow2(a), 2, Pow2(b - 1));
    }
  }

  /** Where the j-th blocking neighbour send of q goes: `neighbors = [prev, next]`. */
  function Dest(size: nat, q: nat, j: nat): (d: nat)
    requires size > 0
    ensures d < size
  {
    if j == 0 then Prev(q, size) else Next(q, size)
  }

  /** On a right ring `prev` and `next` are mutually inverse permutations, and every rank is the target
      of exactly two sends per round: the first of its successor and the second of its predecessor. */
  lemma TwoSendersEach(size: nat, r: nat, q: nat)
    requires r < size && q < size && Divides(size)
    ensures Next(Prev(r, size), size) == r && Prev(Next(r, size), size) == r
    ensures Dest(size, q, 0) == r <==> q == Next(r, size)
    ensures Dest(size, q, 1) == r <==> q == Prev(r, size)
  {
    PrevIsPredecessorIff(r, size);
    NextIsSuccessor(r, size);
    PrevIsPredecessorIff(q, size);
    NextIsSuccessor(q, size);
    PrevIsPredecessorIff(Next(r, size), size);
    NextIsSuccessor(Prev(r, size), size);
  }

  /** On a wrong ring the last rank is sent to only once per round. */
  lemma LastRankShort(size: nat, q: nat, j: nat)
    requires size >= 2 && q < size && !Divides(size) && j < 2
    ensures Dest(size, q, j) == size - 1 ==> q == size - 2 && j == 1
  {
    PrevIsPredecessorIff(q, size);
    NextIsSuccessor(q, size);
  }

  /** `neighbor_ring` of the non-blocking collectives: (source, destination). */
  function NeighborRing(rank: nat, size: nat): (nat, nat)
    requires rank < size
  {
    if size <= 2 then (if rank == 0 then 1 else 0, if rank == 0 then 1 else 0)
    else (Prev(rank, size), Next(rank, size))
  }

  /** The non-blocking ring sends each rank exactly one message per round at every size, although its
      source index can be wrong: only destinations route messages. */
  lemma OneSenderEach(size: nat, r: nat)
    requires 2 <= size && r < size
    ensures exists q :: 0 <= q < size && NeighborRing(q, size).1 == r
    ensures forall p, q | 0 <= p < size && 0 <= q < size ::
              NeighborRing(p, size).1 == r && NeighborRing(q, size).1 == r ==> p == q
  {
    forall q | 0 <= q < size ensures size > 2 ==> Next(q, size) == if q + 1 == size then 0 else q + 1 {
      NextIsSuccessor(q, size);
    }
    var sender := if size == 2 then 1 - r else if r == 0 then size - 1 else r - 1;
    assert NeighborRing(sender, size).1 == r;
  }
}
