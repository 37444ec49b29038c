/** Rank-local code of the collectives with per-peer counts and displacements. */
module VectorCollectives {
  import opened Wrappers
  import opened Bytes
  import opened LittleEndian
  import opened Blocks
  import opened Displacements
  import opened Programs
  import opened Reductions
  import opened CollectiveBlocking

  /** Data copied to its displacement if it fits there, and dropped otherwise. */
  function Place(buf: Buffer, off: nat, data: Buffer): (b: Buffer)
  {
    if off + |data| <= |buf| then Overwrite(buf, off, data) else buf
  }

  /** The peers below `upTo` placed in rank order, on top of what `buf` holds already. */
  function PlaceAll(buf: Buffer, displs: seq<nat>, all: seq<Buffer>, own: nat, upTo: nat): (b: Buffer)
    requires upTo <= |all| == |displs|
    ensures |b| == |buf|
  {
    if upTo == 0 then buf
    else
      var before := PlaceAll(buf, displs, all, own, upTo - 1);
      if upTo - 1 == own then before else Place(before, displs[upTo - 1], all[upTo - 1])
  }

  /** The exchange: the rank's own block first, then the others in the order of the wait loop. */
  function Exchanged(buf: Buffer, displs: seq<nat>, all: seq<Buffer>, own: nat): (b: Buffer)
    requires own < |all| == |displs|
  {
    PlaceAll(Place(buf, displs[own], all[own]), displs, all, own, |all|)
  }

  method PlaceSlice(dst: array<byte>, off: nat, data: Buffer)
    modifies dst
    ensures dst[..] == Place(old(dst[..]), off, data)
  {
    if off + |data| <= dst.Length {
      CopyFromSlice(dst, off, data);
    }
  }

  /** The rank's own block and, for each peer, the message matched in its turn in a buffer of its count. */
  function AllBlocks(rank: nat, own: Buffer, counts: seq<nat>, arrivals: seq<Buffer>): (all: seq<Buffer>)
    requires rank < |counts| && |arrivals| == |counts| - 1
    ensures |all| == |counts|
  {
    seq(|counts|, p requires 0 <= p < |counts| =>
      if p == rank then own else ZeroPadded(arrivals[IndexOf(rank, p)], counts[p]))
  }

  /** When every message fills its buffer the blocks are those gathered. */
  lemma ExactFit(rank: nat, own: Buffer, counts: seq<nat>, arrivals: seq<Buffer>)
    requires rank < |counts| && |arrivals| == |counts| - 1
    requires forall p :: 0 <= p < |counts| && p != rank ==> |arrivals[IndexOf(rank, p)]| == counts[p]
    ensures AllBlocks(rank, own, counts, arrivals) == Gathered(rank, own, arrivals)
  {
    var all, g := AllBlocks(rank, own, counts, arrivals), Gathered(rank, own, arrivals);
    forall p | 0 <= p < |counts| ensures all[p] == g[p] { GatheredAt(rank, own, arrivals, p); }
  }

  /** The sends of an exchange that skips the peers it has no piece for; each is waited for. */
  function KeptCalls(rank: nat, pieces: seq<Option<Buffer>>, upTo: nat): seq<Op>
    requires upTo <= |pieces|
  {
    if upTo == 0 then []
    else
      var peer: nat := upTo - 1;
      KeptCalls(rank, pieces, peer)
      + if peer != rank && pieces[peer].Some? then [Send(IndexOf(rank, peer)), AwaitSend(IndexOf(rank, peer))] else []
  }

  function KeptMessages(rank: nat, pieces: seq<Option<Buffer>>, upTo: nat): seq<Outgoing>
    requires upTo <= |pieces|
  {
    if upTo == 0 then []
    else
      var peer: nat := upTo - 1;
      KeptMessages(rank, pieces, peer)
      + if peer != rank && pieces[peer].Some? then [Outgoing(peer, pieces[peer].value)] else []
  }

  /** Every kept piece goes to its peer, and nothing else is sent. */
  lemma {:induction false} KeptMessagesReach(rank: nat, pieces: seq<Option<Buffer>>, upTo: nat, m: Outgoing)
    requires upTo <= |pieces|
    ensures m in KeptMessages(rank, pieces, upTo) <==>
              m.peer < upTo && m.peer != rank && pieces[m.peer] == Some(m.data)
  {
    if upTo > 0 { KeptMessagesReach(rank, pieces, upTo - 1, m); }
  }

  /** Each once and in rank order, and each is waited for before the next one is sent. */
  lemma {:induction false} KeptCallsArePairs(rank: nat, pieces: seq<Option<Buffer>>, upTo: nat, i: nat)
    requires upTo <= |pieces| && i < |KeptMessages(rank, pieces, upTo)|
    ensures var ms, calls := KeptMessages(rank, pieces, upTo), KeptCalls(rank, pieces, upTo);
            var slot := if ms[i].peer < rank then ms[i].peer else ms[i].peer - 1;
            && ms[i].peer < upTo && ms[i].peer != rank && (i > 0 ==> ms[i - 1].peer < ms[i].peer)
            && |calls| == 2 * |ms| && calls[2 * i] == Send(slot) && calls[2 * i + 1] == AwaitSend(slot)
  {
    KeptLength(rank, pieces, upTo - 1);
    if i < |KeptMessages(rank, pieces, upTo - 1)| {
      KeptCallsArePairs(rank, pieces, upTo - 1, i);
    } else if i > 0 {
      KeptCallsArePairs(rank, pieces, upTo - 1, i - 1);
    }
  }

  lemma {:induction false} KeptLength(rank: nat, pieces: seq<Option<Buffer>>, upTo: nat)
    requires upTo <= |pieces|
    ensures |KeptCalls(rank, pieces, upTo)| == 2 * |KeptMessages(rank, pieces, upTo)|
  {
    if upTo > 0 { KeptLength(rank, pieces, upTo - 1); }
  }

  /** With every piece kept there is one message for each peer, in rank order. */
  lemma {:induction false} KeptEverywhere(rank: nat, pieces: seq<Option<Buffer>>, upTo: nat)
    requires upTo <= |pieces| && NoneSkipped(rank, pieces)
    ensures |KeptMessages(rank, pieces, upTo)| == PeersBelow(rank, upTo)
    ensures forall p: nat :: p < upTo && p != rank ==>
              KeptMessages(rank, pieces, upTo)[if p < rank then p else p - 1] == Outgoing(p, pieces[p].value)
  {
    if upTo > 0 { KeptEverywhere(rank, pieces, upTo - 1); }
  }

  lemma EverywhereMessages(rank: nat, size: nat, data: Buffer)
    requires rank < size
    ensures var ms := KeptMessages(rank, Everywhere(size, data), size);
            |ms| == size - 1
            && forall p: nat :: p < size && p != rank ==> ms[if p < rank then p else p - 1] == Outgoing(p, data)
  {
    var pieces := Everywhere(size, data);
    KeptEverywhere(rank, pieces, size);
    forall p: nat | p < size && p != rank
      ensures KeptMessages(rank, pieces, size)[if p < rank then p else p - 1] == Outgoing(p, data)
    {
      assert pieces[p] == Some(data);
    }
  }

  function Waits(n: nat): seq<Op> {
    if n == 0 then [] else Waits(n - 1) + [Wait(n - 1)]
  }

  /** Post every receive, send what there is to send, wait for every receive. */
  function ExchangeCalls(rank: nat, pieces: seq<Option<Buffer>>): seq<Op>
    requires rank < |pieces|
  {
    Prefix(PostFirst(true), |pieces| - 1, |pieces| - 1) + KeptCalls(rank, pieces, |pieces|) + Waits(|pieces| - 1)
  }

  ghost predicate NoneSkipped(rank: nat, pieces: seq<Option<Buffer>>) {
    forall p :: 0 <= p < |pieces| && p != rank ==> pieces[p].Some?
  }

  lemma {:induction false} KeptAll(rank: nat, pieces: seq<Option<Buffer>>, upTo: nat)
    requires rank < |pieces| && upTo <= |pieces| && NoneSkipped(rank, pieces)
    ensures var m := |pieces| - 1;
            Prefix(PostFirst(true), m, m) + KeptCalls(rank, pieces, upTo)
            == Prefix(PostFirst(true), m, m + 2 * PeersBelow(rank, upTo))
  {
    var m := |pieces| - 1;
    if upTo > 0 {
      KeptAll(rank, pieces, upTo - 1);
      if upTo - 1 != rank {
        SendPairStep(m, PeersBelow(rank, upTo - 1));
      }
    }
  }

  lemma {:induction false} WaitsAreLast(m: nat, n: nat)
    requires n <= m
    ensures Prefix(PostFirst(true), m, 3 * m) + Waits(n) == Prefix(PostFirst(true), m, 3 * m + n)
  {
    if n > 0 {
      WaitsAreLast(m, n - 1);
      PrefixStep(PostFirst(true), m, 3 * m + n - 1);
    }
  }

  /** With nothing skipped the calls are the post-first program of the state machine. */
  lemma NothingSkippedIsProgram(rank: nat, pieces: seq<Option<Buffer>>)
    requires rank < |pieces| && NoneSkipped(rank, pieces)
    ensures ExchangeCalls(rank, pieces) == Program(PostFirst(true), |pieces| - 1)
  {
    KeptAll(rank, pieces, |pieces|);
    WaitsAreLast(|pieces| - 1, |pieces| - 1);
    WholePrefix(PostFirst(true), |pieces| - 1);
  }

  method SendKept(ctx: OsUContext, pieces: seq<Option<Buffer>>)
    requires ctx.Valid() && |pieces| == ctx.size
    modifies ctx
    ensures ctx.calls == old(ctx.calls) + KeptCalls(ctx.rank, pieces, |pieces|)
    ensures ctx.outbox == old(ctx.outbox) + KeptMessages(ctx.rank, pieces, |pieces|)
  {
    for peer := 0 to ctx.size
      invariant ctx.calls == old(ctx.calls) + KeptCalls(ctx.rank, pieces, peer)
      invariant ctx.outbox == old(ctx.outbox) + KeptMessages(ctx.rank, pieces, peer)
    {
      if peer != ctx.rank && pieces[peer].Some? {
        ctx.TagSend(peer, pieces[peer].value);
        ctx.calls := ctx.calls + [AwaitSend(IndexOf(ctx.rank, peer))];
      }
    }
  }

  /** Wait for each receive in rank order and copy its buffer to its displacement, if it fits there. */
  method WaitAndPlace(ctx: OsUContext, recvbuf: array<byte>, counts: seq<nat>, displs: seq<nat>, own: Buffer,
                      arrivals: seq<Buffer>)
    requires ctx.Valid() && |counts| == |displs| == ctx.size && |arrivals| == ctx.size - 1
    modifies ctx`calls, recvbuf
    ensures ctx.calls == old(ctx.calls) + Waits(ctx.size - 1)
    ensures var all := AllBlocks(ctx.rank, own, counts, arrivals);
            recvbuf[..] == PlaceAll(old(recvbuf[..]), displs, all, ctx.rank, ctx.size)
  {
    var all := AllBlocks(ctx.rank, own, counts, arrivals);
    for peer := 0 to ctx.size
      invariant ctx.calls == old(ctx.calls) + Waits(PeersBelow(ctx.rank, peer))
      invariant recvbuf[..] == PlaceAll(old(recvbuf[..]), displs, all, ctx.rank, peer)
    {
      PlaceTurn(ctx, recvbuf, displs, all, peer, old(ctx.calls), old(recvbuf[..]));
    }
  }

  /** The turn of a peer; in its own the rank neither waits nor copies. */
  method PlaceTurn(ctx: OsUContext, recvbuf: array<byte>, displs: seq<nat>, all: seq<Buffer>, peer: nat,
                   ghost calls: seq<Op>, ghost start: Buffer)
    requires ctx.Valid() && |displs| == |all| == ctx.size && peer < ctx.size
    requires ctx.calls == calls + Waits(PeersBelow(ctx.rank, peer))
    requires recvbuf[..] == PlaceAll(start, displs, all, ctx.rank, peer)
    modifies ctx`calls, recvbuf
    ensures ctx.calls == calls + Waits(PeersBelow(ctx.rank, peer + 1))
    ensures recvbuf[..] == PlaceAll(start, displs, all, ctx.rank, peer + 1)
  {
    if peer != ctx.rank {
      ctx.calls := ctx.calls + [Wait(IndexOf(ctx.rank, peer))];
      PlaceSlice(recvbuf, displs[peer], all[peer]);
    }
  }

  /** The exchange of more than one rank, the own block being in place already. */
  method ExchangeBlocks(ctx: OsUContext, pieces: seq<Option<Buffer>>, recvbuf: array<byte>, counts: seq<nat>,
                        displs: seq<nat>,
                        own: Buffer, arrivals: seq<Buffer>)
    requires ctx.Valid() && |pieces| == |counts| == |displs| == ctx.size && |arrivals| == ctx.size - 1
    modifies ctx, recvbuf
    ensures ctx.calls == old(ctx.calls) + ExchangeCalls(ctx.rank, pieces)
    ensures ctx.outbox == old(ctx.outbox) + KeptMessages(ctx.rank, pieces, |pieces|)
    ensures recvbuf[..] == PlaceAll(old(recvbuf[..]), displs, AllBlocks(ctx.rank, own, counts, arrivals), ctx.rank,
              ctx.size)
  {
    ctx.PostAllReceives();
    SendKept(ctx, pieces);
    WaitAndPlace(ctx, recvbuf, counts, displs, own, arrivals);
  }

  function Everywhere(n: nat, data: Buffer): (s: seq<Option<Buffer>>)
    ensures |s| == n
  {
    seq(n, p => Some(data))
  }

  /** Allgatherv. The send buffer has the rank's count where its own block fits, as the code demands
      there; a single rank copies as much as there is room for. */
  method Allgatherv(ctx: OsUContext, sendbuf: Buffer, recvbuf: array<byte>, counts: seq<nat>, displs: seq<nat>,
                    arrivals: seq<Buffer>)
    requires ctx.Valid() && |counts| == |displs| == ctx.size && |arrivals| == ctx.size - 1
    requires ctx.size > 1 && displs[ctx.rank] + counts[ctx.rank] <= recvbuf.Length ==> |sendbuf| == counts[ctx.rank]
    requires ctx.size <= 1 && sendbuf != [] && recvbuf.Length > 0 ==> displs[0] <= recvbuf.Length
    modifies ctx, recvbuf
    ensures ctx.calls == old(ctx.calls) + Program(PostFirst(true), ctx.size - 1)
    ensures |ctx.outbox| == |old(ctx.outbox)| + ctx.size - 1 && old(ctx.outbox) <= ctx.outbox
    ensures forall p: nat :: p < ctx.size && p != ctx.rank ==>
              ctx.outbox[|old(ctx.outbox)| + if p < ctx.rank then p else p - 1] == Outgoing(p, sendbuf)
    ensures ctx.size > 1 ==>
              var own := ZeroPadded(sendbuf, counts[ctx.rank]);
              recvbuf[..] == Exchanged(old(recvbuf[..]), displs, AllBlocks(ctx.rank, own, counts, arrivals), ctx.rank)
    ensures ctx.size <= 1 && (sendbuf == [] || recvbuf.Length == 0) ==> recvbuf[..] == old(recvbuf[..])
    ensures ctx.size <= 1 && sendbuf != [] && recvbuf.Length > 0 ==>
              recvbuf[..] == Overwrite(old(recvbuf[..]), displs[0],
                  FirstOf(sendbuf, counts[0], recvbuf.Length - displs[0]))
  {
    NothingSkippedIsProgram(ctx.rank, Everywhere(ctx.size, sendbuf));
    EverywhereMessages(ctx.rank, ctx.size, sendbuf);
    if ctx.size <= 1 {
      WholePrefix(PostFirst(true), 0);
      assert KeptMessages(0, Everywhere(1, sendbuf), 0) == [];
      if sendbuf != [] && recvbuf.Length != 0 {
        CopyFromSlice(recvbuf, displs[0], FirstOf(sendbuf, counts[0], recvbuf.Length - displs[0]));
      }
      return;
    }
    var own := ZeroPadded(sendbuf, counts[ctx.rank]);
    PlaceSlice(recvbuf, displs[ctx.rank], own);
    ExchangeBlocks(ctx, Everywhere(ctx.size, sendbuf), recvbuf, counts, displs, own, arrivals);
  }

  /** The piece for each peer, if it is inside the send buffer. */
  function VPieces(sendbuf: Buffer, counts: seq<nat>, displs: seq<nat>): (ps: seq<Option<Buffer>>)
    requires |counts| == |displs|
    ensures |ps| == |counts|
    ensures forall p :: 0 <= p < |ps| ==> (ps[p].Some? <==> displs[p] + counts[p] <= |sendbuf|)
    ensures forall p :: 0 <= p < |ps| && ps[p].Some? ==> ps[p].value == sendbuf[displs[p]..displs[p] + counts[p]]
  {
    seq(|counts|, p requires 0 <= p < |counts| =>
      if displs[p] + counts[p] <= |sendbuf| then Some(sendbuf[displs[p]..displs[p] + counts[p]]) else None)
  }

  /** Alltoallv. Pieces outside the send buffer are not sent, nor is such a block of the rank's own kept. */
  method Alltoallv(ctx: OsUContext, sendbuf: Buffer, recvbuf: array<byte>, sendcounts: seq<nat>, sdispls: seq<nat>,
                   recvcounts: seq<nat>, rdispls: seq<nat>, arrivals: seq<Buffer>)
    requires ctx.Valid() && |arrivals| == ctx.size - 1
    requires |sendcounts| == |sdispls| == |recvcounts| == |rdispls| == ctx.size
    modifies ctx, recvbuf
    ensures var pieces := VPieces(sendbuf, sendcounts, sdispls);
            && ctx.calls == old(ctx.calls) + ExchangeCalls(ctx.rank, pieces)
            && ctx.outbox == old(ctx.outbox) + KeptMessages(ctx.rank, pieces, ctx.size)
            && var own := if pieces[ctx.rank].Some? then pieces[ctx.rank].value else [];
               recvbuf[..] == Exchanged(old(recvbuf[..]), rdispls, AllBlocks(ctx.rank, own, recvcounts, arrivals),
                   ctx.rank)
  {
    var pieces := VPieces(sendbuf, sendcounts, sdispls);
    var own := if pieces[ctx.rank].Some? then pieces[ctx.rank].value else [];
    EmptyBlock(recvbuf[..], rdispls[ctx.rank]);
    if pieces[ctx.rank].Some? {
      PlaceSlice(recvbuf, rdispls[ctx.rank], own);
    }
    if ctx.size <= 1 {
      WholePrefix(PostFirst(true), 0);
      assert KeptCalls(0, pieces, 0) == [] && KeptMessages(0, pieces, 0) == [] && Waits(0) == [];
      assert PlaceAll(recvbuf[..], rdispls, AllBlocks(0, own, recvcounts, arrivals), 0, 0) == recvbuf[..];
      return;
    }
    ExchangeBlocks(ctx, pieces, recvbuf, recvcounts, rdispls, own, arrivals);
  }

  lemma EmptyBlock(buf: Buffer, off: nat)
    ensures Place(buf, off, []) == buf
  {
    if off <= |buf| { assert Overwrite(buf, off, []) == buf; }
  }

  // ---------------------------------------------------------------- meaning

  /** Peer p's block covers position x of the buffer, and was not dropped. */
  predicate Covers(length: nat, displs: seq<nat>, all: seq<Buffer>, p: nat, x: nat) {
    p < |all| && p < |displs| && displs[p] <= x < displs[p] + |all[p]| <= length
  }

  ghost predicate NoneCovers(length: nat, displs: seq<nat>, all: seq<Buffer>, own: nat, from: nat, upTo: nat, x: nat) {
    forall q: nat :: from <= q < upTo && q != own ==> !Covers(length, displs, all, q, x)
  }

  lemma {:induction false} LastOfPlaced(buf: Buffer, displs: seq<nat>, all: seq<Buffer>, own: nat, upTo: nat, x: nat,
                                         p: nat)
    requires own < |all| == |displs| && p < upTo <= |all| && x < |buf| && p != own
    requires Covers(|buf|, displs, all, p, x) && NoneCovers(|buf|, displs, all, own, p + 1, upTo, x)
    ensures PlaceAll(Place(buf, displs[own], all[own]), displs, all, own, upTo)[x] == all[p][x - displs[p]]
  {
    if p < upTo - 1 {
      LastOfPlaced(buf, displs, all, own, upTo - 1, x, p);
      assert upTo - 1 != own ==> !Covers(|buf|, displs, all, upTo - 1, x);
    }
  }

  lemma {:induction false} NonePlaced(buf: Buffer, displs: seq<nat>, all: seq<Buffer>, own: nat, upTo: nat, x: nat)
    requires own < |all| == |displs| && upTo <= |all| && x < |buf|
    requires NoneCovers(|buf|, displs, all, own, 0, upTo, x)
    ensures PlaceAll(Place(buf, displs[own], all[own]), displs, all, own, upTo)[x]
            == if Covers(|buf|, displs, all, own, x) then all[own][x - displs[own]] else buf[x]
  {
    if upTo > 0 {
      NonePlaced(buf, displs, all, own, upTo - 1, x);
      assert upTo - 1 != own ==> !Covers(|buf|, displs, all, upTo - 1, x);
    }
  }

  /** Where blocks overlap the highest peer's wins: position x holds the byte of the last block that covers it. */
  lemma LastBlockWins(buf: Buffer, displs: seq<nat>, all: seq<Buffer>, own: nat, x: nat, p: nat)
    requires own < |all| == |displs| && p < |all| && x < |buf| && p != own
    requires displs[p] <= x < displs[p] + |all[p]| <= |buf|
    requires forall q: nat :: p < q < |all| && q != own ==> !(displs[q] <= x < displs[q] + |all[q]| <= |buf|)
    ensures Exchanged(buf, displs, all, own)[x] == all[p][x - displs[p]]
  {
    LastOfPlaced(buf, displs, all, own, |all|, x, p);
  }

  /** A position that no peer's block covers holds the rank's own block, or what it held before. */
  lemma OwnBlockOrOld(buf: Buffer, displs: seq<nat>, all: seq<Buffer>, own: nat, x: nat)
    requires own < |all| == |displs| && x < |buf|
    requires forall q: nat :: q < |all| && q != own ==> !(displs[q] <= x < displs[q] + |all[q]| <= |buf|)
    ensures Exchanged(buf, displs, all, own)[x] ==
              if displs[own] <= x < displs[own] + |all[own]| <= |buf| then all[own][x - displs[own]] else buf[x]
  {
    NonePlaced(buf, displs, all, own, |all|, x);
  }

  /** The rank's own block, and a peer's message zero-padded or cut to its count. */
  lemma AllBlocksAt(rank: nat, own: Buffer, counts: seq<nat>, arrivals: seq<Buffer>, p: nat, i: nat)
    requires rank < |counts| && |arrivals| == |counts| - 1 && p < |counts|
    ensures AllBlocks(rank, own, counts, arrivals)[rank] == own
    ensures p != rank ==>
              var block, data := AllBlocks(rank, own, counts, arrivals)[p], arrivals[if p < rank then p else p - 1];
              |block| == counts[p] && (i < counts[p] ==> block[i] == if i < |data| then data[i] else 0)
  {
  }

  /** Blocks that stay clear of each other and inside the buffer. */
  ghost predicate Disjoint(length: nat, displs: seq<nat>, all: seq<Buffer>) {
    && |displs| == |all|
    && (forall p :: 0 <= p < |all| ==> displs[p] + |all[p]| <= length)
    && forall p, q :: 0 <= p < |all| && 0 <= q < |all| && p != q && all[p] != [] && all[q] != [] ==>
         displs[p] + |all[p]| <= displs[q] || displs[q] + |all[q]| <= displs[p]
  }

  predicate Holds(buf: Buffer, off: nat, data: Buffer) {
    off + |data| <= |buf| && buf[off..off + |data|] == data
  }

  predicate Outside(displs: seq<nat>, all: seq<Buffer>, x: nat) {
    |displs| == |all| && forall p :: 0 <= p < |all| ==> !(displs[p] <= x < displs[p] + |all[p]|)
  }

  lemma PlaceKeeps(buf: Buffer, off: nat, data: Buffer, off': nat, data': Buffer)
    requires Holds(buf, off, data)
    requires data == [] || data' == [] || off + |data| <= off' || off' + |data'| <= off
    ensures Holds(Place(buf, off', data'), off, data)
  {
    var b := Place(buf, off', data');
    assert b[off..off + |data|] == buf[off..off + |data|];
  }

  lemma {:induction false} PlacedSoFar(buf: Buffer, displs: seq<nat>, all: seq<Buffer>, own: nat, upTo: nat)
    requires Disjoint(|buf|, displs, all) && own < |all| && upTo <= |all| && Holds(buf, displs[own], all[own])
    ensures forall p :: 0 <= p < |all| && (p < upTo || p == own) ==>
              Holds(PlaceAll(buf, displs, all, own, upTo), displs[p], all[p])
    ensures forall x :: 0 <= x < |buf| && Outside(displs, all, x) ==> PlaceAll(buf, displs, all, own, upTo)[x] == buf[x]
  {
    if upTo > 0 {
      PlacedSoFar(buf, displs, all, own, upTo - 1);
      var before := PlaceAll(buf, displs, all, own, upTo - 1);
      var off, data := displs[upTo - 1], all[upTo - 1];
      forall p | 0 <= p < |all| && (p < upTo || p == own)
        ensures Holds(PlaceAll(buf, displs, all, own, upTo), displs[p], all[p])
      {
        if p != upTo - 1 { PlaceKeeps(before, displs[p], all[p], off, data); }
      }
      forall x | 0 <= x < |buf| && Outside(displs, all, x)
        ensures PlaceAll(buf, displs, all, own, upTo)[x] == buf[x]
      {
        assert !(off <= x < off + |data|);
      }
    }
  }

  /** With blocks that do not overlap, every block ends up whole at its displacement and every byte
      outside all blocks keeps its value, whatever order they were copied in. */
  lemma EveryBlockInPlace(buf: Buffer, displs: seq<nat>, all: seq<Buffer>, own: nat)
    requires Disjoint(|buf|, displs, all) && own < |all|
    ensures forall p :: 0 <= p < |all| ==> Holds(Exchanged(buf, displs, all, own), displs[p], all[p])
    ensures forall x :: 0 <= x < |buf| && Outside(displs, all, x) ==> Exchanged(buf, displs, all, own)[x] == buf[x]
  {
    var start := Place(buf, displs[own], all[own]);
    assert Holds(start, displs[own], all[own]);
    PlacedSoFar(start, displs, all, own, |all|);
    forall x | 0 <= x < |buf| && Outside(displs, all, x) ensures start[x] == buf[x] {
      assert !(displs[own] <= x < displs[own] + |all[own]|);
    }
  }

  function Lengths(all: seq<Buffer>): (counts: seq<nat>)
  {
    seq(|all|, p requires 0 <= p < |all| => |all[p]|)
  }

  /** All blocks are where packed displacements put them. */
  ghost predicate Packed(buf: Buffer, all: seq<Buffer>) {
    forall p :: 0 <= p < |all| ==> Holds(buf, Displ(Lengths(all), p), all[p])
  }

  lemma PackedButLast(buf: Buffer, all: seq<Buffer>)
    requires all != [] && Packed(buf, all)
    ensures Packed(buf, all[..|all| - 1])
    ensures Total(Lengths(all[..|all| - 1])) == Displ(Lengths(all), |all| - 1)
  {
    var last := |all| - 1;
    var rest := all[..last];
    assert Lengths(rest) == Lengths(all)[..last];
    DisplPrefix(Lengths(all), last, last);
    forall p | 0 <= p < last ensures Holds(buf, Displ(Lengths(rest), p), rest[p]) {
      DisplPrefix(Lengths(all), last, p);
      assert Holds(buf, Displ(Lengths(all), p), all[p]);
    }
  }

  lemma HoldsAppends(buf: Buffer, off: nat, data: Buffer)
    requires Holds(buf, off, data)
    ensures buf[..off + |data|] == buf[..off] + data
  {
  }

  lemma LastBlock(all: seq<Buffer>)
    requires all != []
    ensures Total(Lengths(all)) == Displ(Lengths(all), |all| - 1) + |all[|all| - 1]|
    ensures Flatten(all) == Flatten(all[..|all| - 1]) + all[|all| - 1]
  {
  }

  lemma {:induction false} PrefixHeld(buf: Buffer, all: seq<Buffer>)
    requires Packed(buf, all)
    ensures Total(Lengths(all)) <= |buf| && Flatten(all) == buf[..Total(Lengths(all))]
    decreases |all|
  {
    if all != [] {
      var last := |all| - 1;
      var d := Displ(Lengths(all), last);
      assert Holds(buf, d, all[last]);
      PackedButLast(buf, all);
      PrefixHeld(buf, all[..last]);
      HoldsAppends(buf, d, all[last]);
      LastBlock(all);
    }
  }

  lemma {:induction false} DisplPrefix(counts: seq<nat>, k: nat, p: nat)
    requires p <= k <= |counts|
    ensures Displ(counts[..k], p) == Displ(counts, p)
  {
    if p > 0 { DisplPrefix(counts, k, p - 1); }
  }

  lemma PackedDisjoint(all: seq<Buffer>, length: nat)
    requires Total(Lengths(all)) <= length
    ensures Disjoint(length, Displs(Lengths(all)), all)
  {
    var counts, displs := Lengths(all), Displs(Lengths(all));
    forall p | 0 <= p < |all| ensures displs[p] + |all[p]| <= length { SegmentInside(counts, p); }
    forall p, q | 0 <= p < |all| && 0 <= q < |all| && p != q
      ensures displs[p] + |all[p]| <= displs[q] || displs[q] + |all[q]| <= displs[p]
    {
      if p < q { PackedApart(all, p, q); } else { PackedApart(all, q, p); }
    }
  }

  lemma PackedApart(all: seq<Buffer>, p: nat, q: nat)
    requires p < q < |all|
    ensures Displ(Lengths(all), p) + |all[p]| <= Displ(Lengths(all), q)
  {
    SegmentsApart(Lengths(all), p, q);
  }

  /** With packed displacements the result is the concatenation of the blocks. */
  lemma PackedIsConcatenation(buf: Buffer, all: seq<Buffer>, own: nat)
    requires own < |all| && Total(Lengths(all)) <= |buf|
    ensures Exchanged(buf, Displs(Lengths(all)), all, own)[..Total(Lengths(all))] == Flatten(all)
  {
    PackedDisjoint(all, |buf|);
    EveryBlockInPlace(buf, Displs(Lengths(all)), all, own);
    var r := Exchanged(buf, Displs(Lengths(all)), all, own);
    forall p | 0 <= p < |all| ensures Holds(r, Displ(Lengths(all), p), all[p]) {
      assert Displs(Lengths(all))[p] == Displ(Lengths(all), p);
    }
    PrefixHeld(r, all);
  }
}
