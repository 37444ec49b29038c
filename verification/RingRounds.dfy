/** Repeated rounds of the neighbour collectives, as exchanges along ring edges. */
module RingRounds {
  import opened Bytes
  import opened Arithmetic
  import opened Sums
  import opened Permutations
  import opened Programs
  import opened Ring
  import opened CollectiveBlocking
  import opened NeighborCollectives
  import opened Exchange
  import opened ExchangeGuarantees
  import opened SeparatedRounds

  /** Every rank's first send of a round goes to its prev, the second to its next. */
  function RingEdges(n: nat): (es: seq<Edge>)
    requires n >= 2
  {
    seq(2 * n, e requires 0 <= e < 2 * n => Edge(e / 2, e % 2, Dest(n, e / 2, e % 2)))
  }

  /** The blocking neighbour collectives: send to prev and next, then post and wait twice. */
  function BlockingRounds(n: nat, rounds: nat): (c: Config)
    requires n >= 2
  {
    Config(n, rounds, 2, Blocking, RingEdges(n), (e: Edge, k: nat) => true)
  }

  /** `ineighbor_*` and `wait`: one send and one receive. */
  function NonBlockingRounds(n: nat, rounds: nat): (c: Config)
    requires n >= 2
  {
    Config(n, rounds, 1, NonBlocking, seq(n, q requires 0 <= q < n => Edge(q, 0, NeighborRing(q, n).1)),
           (e: Edge, k: nat) => true)
  }

  /** `neighbor_alltoall` skips the sends whose offset is not inside the send buffer, of `sendLength(q, k)`
      bytes at rank q in round k. */
  function AlltoallRounds(n: nat, rounds: nat, w: nat, sendLength: (nat, nat) -> nat): (c: Config)
    requires n >= 2
  {
    Config(n, rounds, 2, Blocking, RingEdges(n), (e: Edge, k: nat) => e.slot * w < sendLength(e.src, k))
  }

  lemma SumOfOne(row: seq<int>, a: nat)
    requires forall e :: 0 <= e < |row| && e != a ==> row[e] == 0
    ensures Sum(row) == if a < |row| then row[a] else 0
  {
    SumOthers(|row|, |row|, 0);
    if a < |row| {
      SumUpdate(Others(|row|, |row|, 0), a, row[a]);
      assert row == Others(|row|, |row|, 0)[a := row[a]];
    } else {
      assert row == Others(|row|, |row|, 0);
    }
  }

  lemma SumOfTwo(row: seq<int>, a: nat, b: nat)
    requires a < |row| && b < |row| && a != b && forall e :: 0 <= e < |row| && e != a && e != b ==> row[e] == 0
    ensures Sum(row) == row[a] + row[b]
  {
    SumOfOne(row[b := 0], a);
    SumUpdate(row, b, 0);
  }

  /** The first send of r's successor and the second of its predecessor. */
  function FromNext(n: nat, r: nat): nat
    requires n > 0
  {
    2 * Next(r, n)
  }

  function FromPrev(n: nat, r: nat): nat
    requires n > 0
  {
    2 * Prev(r, n) + 1
  }

  /** The two edges into r are those. */
  lemma RingTargets(n: nat, r: nat)
    requires n >= 2 && Divides(n) && r < n
    ensures forall e: nat :: e < 2 * n ==> (RingEdges(n)[e].dst == r <==> e == FromNext(n, r) || e == FromPrev(n, r))
    ensures RingEdges(n)[FromNext(n, r)] == Edge(Next(r, n), 0, r)
    ensures RingEdges(n)[FromPrev(n, r)] == Edge(Prev(r, n), 1, r)
  {
    forall e: nat | e < 2 * n ensures RingEdges(n)[e].dst == r <==> e == FromNext(n, r) || e == FromPrev(n, r) {
      TwoSendersEach(n, r, e / 2);
    }
  }

  /** On a right ring every rank is the target of exactly two blocking sends per round. */
  lemma RightRing(n: nat, rounds: nat, r: nat)
    requires n >= 2 && Divides(n) && r < n
    ensures EdgesTo(BlockingRounds(n, rounds), r) == 2
  {
    RingTargets(n, r);
    var c := BlockingRounds(n, rounds);
    SumOfTwo(Into(c, r, Constant(2 * n, 1)), FromNext(n, r), FromPrev(n, r));
  }

  /** On a wrong one the last rank is the target of only one. */
  lemma WrongRing(n: nat, rounds: nat)
    requires n >= 2 && !Divides(n)
    ensures EdgesTo(BlockingRounds(n, rounds), n - 1) <= 1
  {
    OnlyFeeder(n);
    SumOfOne(Into(BlockingRounds(n, rounds), n - 1, Constant(2 * n, 1)), 2 * (n - 2) + 1);
  }

  lemma OnlyFeeder(n: nat)
    requires n >= 2 && !Divides(n)
    ensures forall e :: 0 <= e < 2 * n && RingEdges(n)[e].dst == n - 1 ==> e == 2 * (n - 2) + 1
  {
    forall e | 0 <= e < 2 * n && RingEdges(n)[e].dst == n - 1 ensures e == 2 * (n - 2) + 1 {
      LastRankShort(n, e / 2, e % 2);
    }
  }

  /** Back-to-back blocking neighbour rounds are deadlock free, in every schedule, exactly when the
      size divides 2^64, that is when it is a power of two. */
  lemma BlockingRingIff(n: nat, rounds: nat)
    requires n >= 2 && rounds >= 1
    ensures BlockingRounds(n, rounds).Valid()
    ensures (forall es :: IsRun(BlockingRounds(n, rounds), es) ==> !Stuck(BlockingRounds(n, rounds), es))
            <==> Divides(n)
  {
    var c := BlockingRounds(n, rounds);
    DeadlockFreeIffFed(c);
    if Divides(n) {
      forall r: nat | r < n ensures EdgesTo(c, r) >= 2 { RightRing(n, rounds, r); }
    } else {
      WrongRing(n, rounds);
      assert n - 1 < c.n;
    }
  }

  lemma BlockingRingLeavesNothing(n: nat, rounds: nat, es: seq<Event>, e: nat)
    requires n >= 2 && Divides(n) && e < 2 * n
    requires BlockingRounds(n, rounds).Valid() && IsRun(BlockingRounds(n, rounds), es)
              && AllDone(BlockingRounds(n, rounds), After(BlockingRounds(n, rounds), es))
    ensures var s := After(BlockingRounds(n, rounds), es);
            s.taken[e] == SentOn(BlockingRounds(n, rounds), s, e) == rounds
  {
    var c := BlockingRounds(n, rounds);
    RightRing(n, rounds, c.edges[e].dst);
    SteadySupply(c, c.edges[e].dst, rounds);
    SteadyCounts(c, c.edges[e], rounds);
    NothingLeftBehind(c, es, e);
  }

  /** The non-blocking ring is deadlock free, and leaves nothing behind, at every size. */
  lemma NonBlockingRing(n: nat, rounds: nat, es: seq<Event>)
    requires n >= 2
    ensures NonBlockingRounds(n, rounds).Valid()
    ensures IsRun(NonBlockingRounds(n, rounds), es) ==>
              var c := NonBlockingRounds(n, rounds);
              var s := After(c, es);
              && (AllDone(c, s) || exists e :: Enabled(c, s, e))
              && (AllDone(c, s) ==> forall q: nat :: q < n ==> s.taken[q] == SentOn(c, s, q) == rounds)
  {
    var c := NonBlockingRounds(n, rounds);
    forall r: nat, k: nat | r < n ensures Supply(c, r, k) == k {
      OneFeeder(n, rounds, r);
      SteadySupply(c, r, k);
    }
    if IsRun(c, es) {
      NeverStuck(c, es);
      if AllDone(c, After(c, es)) {
        forall q: nat | q < n ensures After(c, es).taken[q] == SentOn(c, After(c, es), q) == rounds {
          SteadyCounts(c, c.edges[q], rounds);
          NothingLeftBehind(c, es, q);
        }
      }
    }
  }

  lemma OneFeeder(n: nat, rounds: nat, r: nat)
    requires n >= 2 && r < n
    ensures EdgesTo(NonBlockingRounds(n, rounds), r) == 1
  {
    OneSenderEach(n, r);
    var q: nat :| q < n && NeighborRing(q, n).1 == r;
    SumOfOne(Into(NonBlockingRounds(n, rounds), r, Constant(n, 1)), q);
  }

  /** Both offsets are inside every send buffer of every round. */
  ghost predicate AllLong(n: nat, rounds: nat, w: nat, sendLength: (nat, nat) -> nat) {
    forall q: nat, k: nat :: q < n && k < rounds ==> w < sendLength(q, k)
  }

  /** `neighbor_alltoall` still waits for two messages when it skips a send. */
  lemma AlltoallRingIff(n: nat, rounds: nat, w: nat, sendLength: (nat, nat) -> nat)
    requires n >= 2 && rounds >= 1
    ensures AlltoallRounds(n, rounds, w, sendLength).Valid()
    ensures (forall es :: IsRun(AlltoallRounds(n, rounds, w, sendLength), es) ==>
              !Stuck(AlltoallRounds(n, rounds, w, sendLength), es))
            <==> Divides(n) && AllLong(n, rounds, w, sendLength)
  {
    var c := AlltoallRounds(n, rounds, w, sendLength);
    if Divides(n) {
      forall r: nat, k: nat | r < n
        ensures InDegree(c, r, k)
                == (if 0 < sendLength(Next(r, n), k) then 1 else 0) + if w < sendLength(Prev(r, n), k) then 1 else 0
      {
        AlltoallSupply(n, rounds, w, sendLength, r, k);
      }
      DeadlockFreeIffExact(c);
      if AllLong(n, rounds, w, sendLength) {
        forall r: nat, k: nat | r < n && k < rounds ensures InDegree(c, r, k) == 2 {
          assert w < sendLength(Next(r, n), k) && w < sendLength(Prev(r, n), k);
        }
      } else {
        var q: nat, k: nat :| q < n && k < rounds && !(w < sendLength(q, k));
        TwoSendersEach(n, Next(q, n), q);
        assert InDegree(c, Next(q, n), k) < 2;
      }
    } else {
      WrongAlltoallRing(n, rounds, w, sendLength);
      assert IsRun(c, []);
      var stuck := StarvedGetsStuck(c, [], n - 1);
    }
  }

  lemma EdgeOf(n: nat, q: nat, j: nat)
    requires n >= 2 && q < n && j < 2
    ensures RingEdges(n)[2 * q + j] == Edge(q, j, if j == 0 then Prev(q, n) else Next(q, n))
  {
  }

  /** The sends the machine makes in a round are the calls of the rank's code, and with both made the
      calls of the round are the program it runs. */
  lemma AlltoallCalls(n: nat, rounds: nat, w: nat, sendLength: (nat, nat) -> nat, q: nat, k: nat, j: nat)
    requires n >= 2 && q < n && j < 2
    ensures var c, calls := AlltoallRounds(n, rounds, w, sendLength), AlltoallSendCalls(sendLength(q, k), w);
            && (c.made(RingEdges(n)[2 * q + j], k) <==> Send(j) in calls)
            && (w < sendLength(q, k) ==> calls + TWO_RECEIVES == Program(Blocking, 2))
  {
    EdgeOf(n, q, j);
    if w < sendLength(q, k) { BothPiecesIsProgram(sendLength(q, k), w); }
  }

  lemma AlltoallSupply(n: nat, rounds: nat, w: nat, sendLength: (nat, nat) -> nat, r: nat, k: nat)
    requires n >= 2 && Divides(n) && r < n
    ensures InDegree(AlltoallRounds(n, rounds, w, sendLength), r, k)
            == (if 0 < sendLength(Next(r, n), k) then 1 else 0) + if w < sendLength(Prev(r, n), k) then 1 else 0
  {
    var c, a, b := AlltoallRounds(n, rounds, w, sendLength), FromNext(n, r), FromPrev(n, r);
    RingTargets(n, r);
    var row := Into(c, r, MadeNow(c, k));
    assert row[a] == if 0 < sendLength(Next(r, n), k) then 1 else 0;
    assert row[b] == if w < sendLength(Prev(r, n), k) then 1 else 0;
    SumOfTwo(row, a, b);
  }

  lemma WrongAlltoallRing(n: nat, rounds: nat, w: nat, sendLength: (nat, nat) -> nat)
    requires n >= 2 && !Divides(n) && rounds >= 1
    ensures Supply(AlltoallRounds(n, rounds, w, sendLength), n - 1, rounds) < 2 * rounds
  {
    var c, a := AlltoallRounds(n, rounds, w, sendLength), 2 * (n - 2) + 1;
    OnlyFeeder(n);
    SumOfOne(Into(c, n - 1, Carried(c, rounds)), a);
    MadeAtMost(c, c.edges[a], rounds);
  }

  lemma {:induction false} MadeAtMost(c: Config, e: Edge, k: nat)
    ensures MadeIn(c, e, k) <= k
  {
    if k > 0 { MadeAtMost(c, e, k - 1); }
  }

  // ---------------------------------------------------------------- what arrives, barriers between rounds

  lemma RingIsEven(n: nat, rounds: nat)
    requires n >= 2 && Divides(n)
    ensures Even(BlockingRounds(n, rounds))
  {
    var c := BlockingRounds(n, rounds);
    forall r: nat | r < n ensures EdgesTo(c, r) == 2 { RightRing(n, rounds, r); }
  }

  /** `block(q, k, j)` is what rank q sends to its j-th neighbour in round k: the same for both in
      `neighbor_allgather`. These are the blocks rank r received in round k, in the order they matched. */
  function RoundBlocks(block: (nat, nat, nat) -> Buffer, items: seq<Item>): seq<Buffer> {
    Map((m: Item) => block(m.edge / 2, m.round, m.edge % 2), items)
  }

  lemma EdgesInto(n: nat, rounds: nat, r: nat, e: nat)
    requires n >= 2 && Divides(n) && r < n
    ensures IsInto(BlockingRounds(n, rounds), r, e) <==> e == FromNext(n, r) || e == FromPrev(n, r)
  {
    RingTargets(n, r);
  }

  lemma RoundItems(n: nat, rounds: nat, r: nat, k: nat, items: seq<Item>)
    requires n >= 2 && Divides(n) && r < n && Exact(BlockingRounds(n, rounds), r, k, items)
    ensures multiset(items) == multiset([Item(FromNext(n, r), k), Item(FromPrev(n, r), k)])
  {
    EdgesInto(n, rounds, r, FromNext(n, r));
    EdgesInto(n, rounds, r, FromPrev(n, r));
    forall m: Item ensures m in items <==> m == Item(FromNext(n, r), k) || m == Item(FromPrev(n, r), k) {
      EdgesInto(n, rounds, r, m.edge);
    }
    TwoItems(items, Item(FromNext(n, r), k), Item(FromPrev(n, r), k));
  }

  lemma BothBlocks(n: nat, block: (nat, nat, nat) -> Buffer, r: nat, k: nat)
    requires n > 0
    ensures RoundBlocks(block, [Item(FromNext(n, r), k), Item(FromPrev(n, r), k)])
            == [block(Next(r, n), k, 0), block(Prev(r, n), k, 1)]
  {
  }

  /** On a right ring, with a barrier between rounds, round k of every schedule delivers exactly the
      round-k block of the next rank meant for its prev, and of the prev rank meant for its next. */
  lemma NeighborRoundsAreExact(n: nat, rounds: nat, block: (nat, nat, nat) -> Buffer, es: seq<Event>, r: nat, k: nat)
    requires n >= 2 && Divides(n) && r < n && IsSeparatedRun(BlockingRounds(n, rounds), es)
    requires k < |Trace(BlockingRounds(n, rounds), es).done[r]|
    ensures multiset(RoundBlocks(block, Trace(BlockingRounds(n, rounds), es).done[r][k]))
            == multiset{block(Next(r, n), k, 0), block(Prev(r, n), k, 1)}
  {
    var both := [Item(FromNext(n, r), k), Item(FromPrev(n, r), k)];
    RingIsEven(n, rounds);
    RoundsAreExact(BlockingRounds(n, rounds), es, r, k);
    var items := Trace(BlockingRounds(n, rounds), es).done[r][k];
    RoundItems(n, rounds, r, k, items);
    MapPermutation((m: Item) => block(m.edge / 2, m.round, m.edge % 2), items, both);
    BothBlocks(n, block, r, k);
  }

  /** What rank q sends each neighbour in round k of `neighbor_allgather`. */
  function FrontOf(w: nat, sendbuf: (nat, nat) -> Buffer): (nat, nat, nat) -> Buffer {
    (q: nat, k: nat, j: nat) => sendbuf(q, k)[..Min(w, |sendbuf(q, k)|)]
  }

  /** And of `neighbor_alltoall`: piece j for neighbour j. */
  function PieceOf(w: nat, sendbuf: (nat, nat) -> Buffer): (nat, nat, nat) -> Buffer {
    (q: nat, k: nat, j: nat) => sendbuf(q, k)[Min(j * w, |sendbuf(q, k)|)..Min(j * w + w, |sendbuf(q, k)|)]
  }

  /** The messages of a `neighbor_alltoall` with both pieces inside the send buffer, and of a
      `neighbor_allgather`, are those of the rank's two edges. */
  lemma MessagesAreEdges(n: nat, w: nat, sendbuf: (nat, nat) -> Buffer, q: nat, k: nat, j: nat)
    requires n >= 2 && q < n && j < 2
    ensures var buf, edge := sendbuf(q, k), RingEdges(n)[2 * q + j];
            && [Outgoing(Prev(q, n), buf[..Min(w, |buf|)]), Outgoing(Next(q, n), buf[..Min(w, |buf|)])][j]
               == Outgoing(edge.dst, FrontOf(w, sendbuf)(q, k, j))
            && (w < |buf| ==>
                  [Outgoing(Prev(q, n), buf[..w]), Outgoing(Next(q, n), buf[w..Min(w + w, |buf|)])][j]
                  == Outgoing(edge.dst, PieceOf(w, sendbuf)(q, k, j)))
  {
    EdgeOf(n, q, j);
  }

  /** Separated rounds of `neighbor_allgather`: the fronts of next's and prev's buffers of that round. */
  lemma AllgatherRoundsAreExact(n: nat, rounds: nat, w: nat, sendbuf: (nat, nat) -> Buffer, es: seq<Event>, r: nat,
                                k: nat)
    requires n >= 2 && Divides(n) && r < n && IsSeparatedRun(BlockingRounds(n, rounds), es)
    requires k < |Trace(BlockingRounds(n, rounds), es).done[r]|
    ensures var next, prev := sendbuf(Next(r, n), k), sendbuf(Prev(r, n), k);
            multiset(RoundBlocks(FrontOf(w, sendbuf), Trace(BlockingRounds(n, rounds), es).done[r][k]))
            == multiset{next[..Min(w, |next|)], prev[..Min(w, |prev|)]}
  {
    NeighborRoundsAreExact(n, rounds, FrontOf(w, sendbuf), es, r, k);
  }

  /** Separated rounds of `neighbor_alltoall` with both pieces inside every buffer: the first piece of next's
      buffer, which is for its prev, and the second of prev's. */
  lemma AlltoallRoundsAreExact(n: nat, rounds: nat, w: nat, sendbuf: (nat, nat) -> Buffer, es: seq<Event>, r: nat,
                               k: nat)
    requires n >= 2 && Divides(n) && r < n && IsSeparatedRun(BlockingRounds(n, rounds), es)
    requires k < |Trace(BlockingRounds(n, rounds), es).done[r]|
    requires forall q: nat :: q < n ==> w < |sendbuf(q, k)|
    ensures var next, prev := sendbuf(Next(r, n), k), sendbuf(Prev(r, n), k);
            multiset(RoundBlocks(PieceOf(w, sendbuf), Trace(BlockingRounds(n, rounds), es).done[r][k]))
            == multiset{next[..w], prev[w..Min(w + w, |prev|)]}
  {
    NeighborRoundsAreExact(n, rounds, PieceOf(w, sendbuf), es, r, k);
    assert w < |sendbuf(Next(r, n), k)| && w < |sendbuf(Prev(r, n), k)|;
  }

  lemma TwoItems(items: seq<Item>, x: Item, y: Item)
    requires Distinct(items) && x != y && forall m :: m in items <==> m == x || m == y
    ensures multiset(items) == multiset([x, y])
  {
    DistinctSetSize(items);
    assert (set m | m in items) == {x, y};
    SelectionIsPermutation(items, [x, y]);
  }

  /** With barriers in between the neighbour rounds never get stuck on a right ring. */
  lemma SeparatedRingNeverStuck(n: nat, rounds: nat, es: seq<Event>)
    requires n >= 2 && Divides(n) && IsSeparatedRun(BlockingRounds(n, rounds), es)
    ensures var c, t := BlockingRounds(n, rounds), Trace(BlockingRounds(n, rounds), es);
            AllDone(c, t.base) || exists e :: CanGo(c, t, e)
  {
    RingIsEven(n, rounds);
    SeparatedNeverStuck(BlockingRounds(n, rounds), es);
  }
}
