/** Back-to-back rounds of `alltoallv`, whose sends are skipped when their piece is outside the send
    buffer, with sends that wait for nobody. */
module VectorRounds {
  import opened Bytes
  import opened Sums
  import opened Programs
  import opened CollectiveBlocking
  import opened VectorCollectives
  import opened Exchange
  import opened ExchangeGuarantees

  /** What rank q passes to its call in round k: the piece for r is `counts(k, q, r)` bytes at
      `displs(k, q, r)` of `sendbuf(k, q)`. */
  datatype Pieces =
    Pieces(counts: (nat, nat, nat) -> nat, displs: (nat, nat, nat) -> nat, sendbuf: (nat, nat) -> Buffer)
  {
    predicate Inside(k: nat, q: nat, r: nat) {
      displs(k, q, r) + counts(k, q, r) <= |sendbuf(k, q)|
    }
  }

  /** The sends of rank q in a round. */
  function EdgesFrom(n: nat, q: nat): (es: seq<Edge>)
    requires n >= 1
  {
    seq(n - 1, j requires 0 <= j < n - 1 => Edge(q, j, PeerAt(q, j)))
  }

  function EdgesBelow(n: nat, k: nat): (es: seq<Edge>)
    requires n >= 1
  {
    if k == 0 then [] else EdgesBelow(n, k - 1) + EdgesFrom(n, k - 1)
  }

  lemma {:induction false} EdgesValid(n: nat, k: nat)
    requires n >= 1
    ensures forall e :: 0 <= e < |EdgesBelow(n, k)| ==> EdgesBelow(n, k)[e].src < k && EdgesBelow(n, k)[e].slot < n - 1
  {
    if k > 0 { EdgesValid(n, k - 1); }
  }

  function AlltoallvRounds(n: nat, rounds: nat, pieces: Pieces): (c: Config)
    requires n >= 1
    ensures c.Valid() && c.n == n && c.rounds == rounds && c.degree == n - 1
  {
    EdgesValid(n, n);
    Config(n, rounds, n - 1, PostFirst(false), EdgesBelow(n, n), (e: Edge, k: nat) => pieces.Inside(k, e.src, e.dst))
  }

  /** The sends to r that are made in round k. */
  function Hits(pieces: Pieces, es: seq<Edge>, k: nat, r: nat): seq<int> {
    seq(|es|, e requires 0 <= e < |es| => if es[e].dst == r && pieces.Inside(k, es[e].src, r) then 1 else 0)
  }

  /** Rank q sends to r once per round, or not at all. */
  lemma HitsFrom(n: nat, pieces: Pieces, k: nat, q: nat, r: nat)
    requires q < n && r < n
    ensures Sum(Hits(pieces, EdgesFrom(n, q), k, r)) == if q != r && pieces.Inside(k, q, r) then 1 else 0
  {
    var row, zeros := Hits(pieces, EdgesFrom(n, q), k, r), Others(n - 1, n - 1, 0);
    SumOthers(n - 1, n - 1, 0);
    forall j: nat | j < n - 1
      ensures row[j] == if q != r && pieces.Inside(k, q, r) && j == IndexOf(q, r) then 1 else 0
    {
      PeerIndexInverse(n, q, j, PeerAt(q, j));
    }
    if q != r && pieces.Inside(k, q, r) {
      PeerIndexInverse(n, q, 0, r);
      SumUpdate(zeros, IndexOf(q, r), 1);
      assert row == zeros[IndexOf(q, r) := 1];
    } else {
      assert row == zeros;
    }
  }

  /** The other ranks below m that do not skip r in round k. */
  function KeptBy(pieces: Pieces, k: nat, m: nat, r: nat): (count: nat) {
    if m == 0 then 0 else KeptBy(pieces, k, m - 1, r) + if m - 1 != r && pieces.Inside(k, m - 1, r) then 1 else 0
  }

  ghost predicate AllKeep(pieces: Pieces, k: nat, m: nat, r: nat) {
    forall q: nat :: q < m && q != r ==> pieces.Inside(k, q, r)
  }

  /** At most all but r keep r, and all do exactly if none of them skips it. */
  lemma {:induction false} KeptByAll(pieces: Pieces, k: nat, m: nat, r: nat)
    ensures KeptBy(pieces, k, m, r) <= if r < m then m - 1 else m
    ensures KeptBy(pieces, k, m, r) == (if r < m then m - 1 else m) <==> AllKeep(pieces, k, m, r)
  {
    if m > 0 {
      KeptByAll(pieces, k, m - 1, r);
      assert AllKeep(pieces, k, m, r) <==>
        AllKeep(pieces, k, m - 1, r) && (m - 1 != r ==> pieces.Inside(k, m - 1, r));
    }
  }

  lemma HitsConcat(pieces: Pieces, a: seq<Edge>, b: seq<Edge>, k: nat, r: nat)
    ensures Sum(Hits(pieces, a + b, k, r)) == Sum(Hits(pieces, a, k, r)) + Sum(Hits(pieces, b, k, r))
  {
    assert Hits(pieces, a + b, k, r) == Hits(pieces, a, k, r) + Hits(pieces, b, k, r);
    SumConcat(Hits(pieces, a, k, r), Hits(pieces, b, k, r));
  }

  /** Rank m - 1 adds one message to r if it keeps r. */
  lemma HitsStep(n: nat, pieces: Pieces, k: nat, m: nat, r: nat)
    requires 1 <= m <= n && r < n
    ensures Sum(Hits(pieces, EdgesBelow(n, m), k, r))
            == Sum(Hits(pieces, EdgesBelow(n, m - 1), k, r)) + if m - 1 != r && pieces.Inside(k, m - 1, r) then 1 else 0
  {
    HitsFrom(n, pieces, k, m - 1, r);
    HitsConcat(pieces, EdgesBelow(n, m - 1), EdgesFrom(n, m - 1), k, r);
  }

  lemma {:induction false} HitsBelow(n: nat, pieces: Pieces, k: nat, m: nat, r: nat)
    requires m <= n && r < n
    ensures Sum(Hits(pieces, EdgesBelow(n, m), k, r)) == KeptBy(pieces, k, m, r)
  {
    if m > 0 {
      HitsStep(n, pieces, k, m, r);
      HitsBelow(n, pieces, k, m - 1, r);
    }
  }

  lemma InDegreeKept(n: nat, rounds: nat, pieces: Pieces, r: nat, k: nat)
    requires r < n
    ensures InDegree(AlltoallvRounds(n, rounds, pieces), r, k) <= n - 1
    ensures InDegree(AlltoallvRounds(n, rounds, pieces), r, k) == n - 1 <==> AllKeep(pieces, k, n, r)
  {
    var c := AlltoallvRounds(n, rounds, pieces);
    HitsBelow(n, pieces, k, n, r);
    KeptByAll(pieces, k, n, r);
    assert Into(c, r, MadeNow(c, k)) == Hits(pieces, c.edges, k, r);
  }

  /** In no round is any rank's piece for another outside its send buffer. */
  ghost predicate NoneSkipped(n: nat, rounds: nat, pieces: Pieces) {
    forall k: nat, q: nat, r: nat :: k < rounds && q < n && r < n && q != r ==>
      pieces.displs(k, q, r) + pieces.counts(k, q, r) <= |pieces.sendbuf(k, q)|
  }

  /** Rank q's call of round k sends r a message exactly when the machine does: the piece at its place. */
  lemma RoundMessages(n: nat, rounds: nat, pieces: Pieces, k: nat, q: nat, r: nat, counts: seq<nat>, displs: seq<nat>,
                      data: Buffer)
    requires q < n && r < n && q != r && |counts| == |displs| == n
    requires forall p: nat :: p < n ==> counts[p] == pieces.counts(k, q, p) && displs[p] == pieces.displs(k, q, p)
    ensures Outgoing(r, data) in KeptMessages(q, VPieces(pieces.sendbuf(k, q), counts, displs), n) <==>
              && AlltoallvRounds(n, rounds, pieces).made(Edge(q, IndexOf(q, r), r), k)
              && var from := pieces.displs(k, q, r);
                 data == pieces.sendbuf(k, q)[from..from + pieces.counts(k, q, r)]
  {
    KeptMessagesReach(q, VPieces(pieces.sendbuf(k, q), counts, displs), n, Outgoing(r, data));
  }

  /** No schedule gets stuck exactly when no rank skips a piece: the receives do not skip. */
  lemma DeadlockFreeIffNoneSkipped(n: nat, rounds: nat, pieces: Pieces)
    requires n >= 1
    ensures (forall es :: IsRun(AlltoallvRounds(n, rounds, pieces), es) ==>
               !Stuck(AlltoallvRounds(n, rounds, pieces), es)) <==> NoneSkipped(n, rounds, pieces)
  {
    var c := AlltoallvRounds(n, rounds, pieces);
    forall r: nat, k: nat | r < n && k < rounds
      ensures InDegree(c, r, k) <= n - 1 && (InDegree(c, r, k) == n - 1 <==> AllKeep(pieces, k, n, r))
    {
      InDegreeKept(n, rounds, pieces, r, k);
    }
    DeadlockFreeIffExact(c);
    if NoneSkipped(n, rounds, pieces) {
      forall r: nat, k: nat | r < n && k < rounds ensures AllKeep(pieces, k, n, r) {
        forall q: nat | q < n && q != r ensures pieces.Inside(k, q, r) {
          assert pieces.displs(k, q, r) + pieces.counts(k, q, r) <= |pieces.sendbuf(k, q)|;
        }
      }
    } else {
      var k: nat, q: nat, r: nat :| k < rounds && q < n && r < n && q != r
        && pieces.displs(k, q, r) + pieces.counts(k, q, r) > |pieces.sendbuf(k, q)|;
      assert !pieces.Inside(k, q, r) && !AllKeep(pieces, k, n, r);
      assert InDegree(c, r, k) != n - 1;
    }
  }
}
