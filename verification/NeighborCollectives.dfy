/** Rank-local code of the blocking neighbour collectives with equal counts. */
module NeighborCollectives {
  import opened Bytes
  import opened Arithmetic
  import opened LittleEndian
  import opened Programs
  import opened CollectiveBlocking
  import opened Ring

  /** The sends of `neighbor_alltoall`: those whose offset is inside the send buffer. */
  function AlltoallSendCalls(sendLength: nat, w: nat): seq<Op> {
    (if 0 < sendLength then [Send(0)] else []) + if w < sendLength then [Send(1)] else []
  }

  const TWO_RECEIVES: seq<Op> := [Post(0), Wait(0), Post(1), Wait(1)]

  /** Two receives, each copied to its neighbour's place, zero-padded, as far as there is room. */
  method ReceiveTwo(ctx: OsUContext, recvbuf: array<byte>, w: nat, arrivals: seq<Buffer>)
    requires ctx.Valid() && |arrivals| == 2 && w <= recvbuf.Length
    modifies ctx`calls, recvbuf
    ensures ctx.calls == old(ctx.calls) + TWO_RECEIVES
    ensures forall i :: 0 <= i < recvbuf.Length ==>
              recvbuf[i] == if i < w then (if i < |arrivals[0]| then arrivals[0][i] else 0)
                            else if i < 2 * w then (if i - w < |arrivals[1]| then arrivals[1][i - w] else 0)
                            else old(recvbuf[i])
  {
    for j := 0 to 2
      invariant ctx.calls == old(ctx.calls) + TWO_RECEIVES[..2 * j]
      invariant forall i :: 0 <= i < recvbuf.Length ==>
                  recvbuf[i] == if i < w && j > 0 then ZeroPadded(arrivals[0], w)[i]
                                else if w <= i < 2 * w && j > 1 then ZeroPadded(arrivals[1], w)[i - w]
                                else old(recvbuf[i])
    {
      ctx.calls := ctx.calls + [Post(j)];
      ctx.calls := ctx.calls + [Wait(j)];
      var offset := j * w;
      var end := if offset + w <= recvbuf.Length then offset + w else recvbuf.Length;
      CopyFromSlice(recvbuf, offset, ZeroPadded(arrivals[j], w)[..end - offset]);
    }
  }

  /** A single rank has no neighbours and copies what fits. */
  method CopyAlone(sendbuf: Buffer, recvbuf: array<byte>, w: nat)
    modifies recvbuf
    ensures var n := Min(Min(w, |sendbuf|), recvbuf.Length);
            recvbuf[..n] == sendbuf[..n] && recvbuf[n..] == old(recvbuf[n..])
  {
    CopyFromSlice(recvbuf, 0, sendbuf[..Min(Min(w, |sendbuf|), recvbuf.Length)]);
  }

  method NeighborAllgather(ctx: OsUContext, sendbuf: Buffer, recvbuf: array<byte>, w: nat, arrivals: seq<Buffer>)
    requires ctx.Valid() && (ctx.size > 1 ==> |arrivals| == 2 && w <= recvbuf.Length)
    modifies ctx, recvbuf
    ensures ctx.size > 1 ==>
              var front := sendbuf[..Min(w, |sendbuf|)];
              && ctx.calls == old(ctx.calls) + Program(Blocking, 2)
              && ctx.outbox == old(ctx.outbox)
                   + [Outgoing(Prev(ctx.rank, ctx.size), front), Outgoing(Next(ctx.rank, ctx.size), front)]
    ensures ctx.size > 1 ==>
              forall i :: 0 <= i < recvbuf.Length ==>
                recvbuf[i] == if i < w then (if i < |arrivals[0]| then arrivals[0][i] else 0)
                              else if i < 2 * w then (if i - w < |arrivals[1]| then arrivals[1][i - w] else 0)
                              else old(recvbuf[i])
    ensures ctx.size <= 1 ==>
              var n := Min(Min(w, |sendbuf|), recvbuf.Length);
              && ctx.calls == old(ctx.calls) && ctx.outbox == old(ctx.outbox)
              && recvbuf[..n] == sendbuf[..n] && recvbuf[n..] == old(recvbuf[n..])
  {
    if ctx.size <= 1 {
      CopyAlone(sendbuf, recvbuf, w);
      return;
    }
    SendFront(ctx, sendbuf[..Min(w, |sendbuf|)]);
    ReceiveTwo(ctx, recvbuf, w, arrivals);
    assert Program(Blocking, 2) == [Send(0), Send(1)] + TWO_RECEIVES;
  }

  method SendFront(ctx: OsUContext, front: Buffer)
    requires ctx.Valid()
    modifies ctx
    ensures ctx.calls == old(ctx.calls) + [Send(0), Send(1)]
    ensures ctx.outbox == old(ctx.outbox)
              + [Outgoing(Prev(ctx.rank, ctx.size), front), Outgoing(Next(ctx.rank, ctx.size), front)]
  {
    var neighbors := [Prev(ctx.rank, ctx.size), Next(ctx.rank, ctx.size)];
    for j := 0 to 2
      invariant ctx.calls == old(ctx.calls) + [Send(0), Send(1)][..j]
      invariant ctx.outbox == old(ctx.outbox) + [Outgoing(neighbors[0], front), Outgoing(neighbors[1], front)][..j]
    {
      ctx.calls := ctx.calls + [Send(j)];
      ctx.outbox := ctx.outbox + [Outgoing(neighbors[j], front)];
    }
  }

  /** Piece j for neighbour j, cut off at the end of the send buffer. A piece that is skipped is still
      awaited: the receives do not depend on the sends. */
  method NeighborAlltoall(ctx: OsUContext, sendbuf: Buffer, recvbuf: array<byte>, w: nat, arrivals: seq<Buffer>)
    requires ctx.Valid() && (ctx.size > 1 ==> |arrivals| == 2 && w <= recvbuf.Length)
    modifies ctx, recvbuf
    ensures ctx.size > 1 ==>
              && ctx.calls == old(ctx.calls) + AlltoallSendCalls(|sendbuf|, w) + [Post(0), Wait(0), Post(1), Wait(1)]
              && (|sendbuf| == 0 ==> ctx.outbox == old(ctx.outbox))
              && (0 < |sendbuf| <= w ==> ctx.outbox == old(ctx.outbox) + [Outgoing(Prev(ctx.rank, ctx.size), sendbuf)])
              && (w < |sendbuf| ==>
                    ctx.outbox == old(ctx.outbox)
                      + [Outgoing(Prev(ctx.rank, ctx.size), sendbuf[..w])]
                      + [Outgoing(Next(ctx.rank, ctx.size), sendbuf[w..Min(w + w, |sendbuf|)])])
    ensures ctx.size > 1 ==>
              forall i :: 0 <= i < recvbuf.Length ==>
                recvbuf[i] == if i < w then (if i < |arrivals[0]| then arrivals[0][i] else 0)
                              else if i < 2 * w then (if i - w < |arrivals[1]| then arrivals[1][i - w] else 0)
                              else old(recvbuf[i])
    ensures ctx.size <= 1 ==>
              var n := Min(Min(w, |sendbuf|), recvbuf.Length);
              && ctx.calls == old(ctx.calls) && ctx.outbox == old(ctx.outbox)
              && recvbuf[..n] == sendbuf[..n] && recvbuf[n..] == old(recvbuf[n..])
  {
    if ctx.size <= 1 {
      CopyAlone(sendbuf, recvbuf, w);
      return;
    }
    SendPieces(ctx, sendbuf, w);
    ReceiveTwo(ctx, recvbuf, w, arrivals);
  }

  method SendPieces(ctx: OsUContext, sendbuf: Buffer, w: nat)
    requires ctx.Valid()
    modifies ctx
    ensures ctx.calls == old(ctx.calls) + AlltoallSendCalls(|sendbuf|, w)
    ensures |sendbuf| == 0 ==> ctx.outbox == old(ctx.outbox)
    ensures 0 < |sendbuf| <= w ==> ctx.outbox == old(ctx.outbox) + [Outgoing(Prev(ctx.rank, ctx.size), sendbuf)]
    ensures w < |sendbuf| ==>
              ctx.outbox == old(ctx.outbox)
                + [Outgoing(Prev(ctx.rank, ctx.size), sendbuf[..w])]
                + [Outgoing(Next(ctx.rank, ctx.size), sendbuf[w..Min(w + w, |sendbuf|)])]
  {
    var neighbors := [Prev(ctx.rank, ctx.size), Next(ctx.rank, ctx.size)];
    assert |sendbuf| <= w ==> sendbuf[..Min(w, |sendbuf|)] == sendbuf;
    for j := 0 to 2
      invariant j == 0 ==> ctx.calls == old(ctx.calls) && ctx.outbox == old(ctx.outbox)
      invariant j > 0 && |sendbuf| == 0 ==> ctx.calls == old(ctx.calls) && ctx.outbox == old(ctx.outbox)
      invariant j > 0 && 0 < |sendbuf| ==>
                  ctx.calls == old(ctx.calls) + [Send(0)] + if j > 1 && w < |sendbuf| then [Send(1)] else []
      invariant j > 0 && 0 < |sendbuf| ==>
                  ctx.outbox == old(ctx.outbox) + [Outgoing(neighbors[0], sendbuf[..Min(w, |sendbuf|)])]
                    + if j > 1 && w < |sendbuf| then [Outgoing(neighbors[1], sendbuf[w..Min(w + w, |sendbuf|)])] else []
    {
      var offset := j * w;
      if offset < |sendbuf| {
        ctx.calls := ctx.calls + [Send(j)];
        ctx.outbox := ctx.outbox + [Outgoing(neighbors[j], sendbuf[offset..Min(offset + w, |sendbuf|)])];
      }
    }
  }

  /** With both pieces inside the send buffer the calls are those of the state machine. */
  lemma BothPiecesIsProgram(sendLength: nat, w: nat)
    requires w < sendLength
    ensures AlltoallSendCalls(sendLength, w) + TWO_RECEIVES == Program(Blocking, 2)
  {
    assert Program(Blocking, 2) == [Send(0), Send(1)] + TWO_RECEIVES;
  }
}
