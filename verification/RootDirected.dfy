/** Rank-local code of `bcast` and `scatter`, and of the out-of-band allgather callback. */
module RootDirected {
  import opened Bytes
  import opened Arithmetic
  import opened Blocks
  import opened Programs
  import opened Reductions
  import opened CollectiveBlocking
  import opened RootStream

  /** Broadcast; `arrival` is the message the receive matches, if this rank receives. */
  method Bcast(ctx: OsUContext, sendbuf: Buffer, recvbuf: array<byte>, root: nat, arrival: Buffer)
    requires ctx.Valid()
    requires ctx.size <= 1 || ctx.rank == root ==> |sendbuf| == recvbuf.Length
    requires ctx.size > 1 && ctx.rank != root ==> |arrival| <= recvbuf.Length
    modifies ctx, recvbuf
    ensures ctx.size <= 1 || ctx.rank == root ==> recvbuf[..] == sendbuf
    ensures ctx.size > 1 && ctx.rank != root ==>
              && recvbuf[..|arrival|] == arrival && recvbuf[|arrival|..] == old(recvbuf[|arrival|..])
              && ctx.calls == old(ctx.calls) + [Op.Post(0), Wait(0)]
    ensures ctx.rank != root ==> ctx.outbox == old(ctx.outbox)
    ensures ctx.rank == root ==>
              |ctx.outbox| == |old(ctx.outbox)| + ctx.size - 1 && old(ctx.outbox) <= ctx.outbox
    ensures ctx.rank == root ==>
              forall p: nat :: p < ctx.size && p != root ==>
                ctx.outbox[|old(ctx.outbox)| + if p < root then p else p - 1] == Outgoing(p, sendbuf)
  {
    if ctx.size <= 1 {
      CopyToFront(recvbuf, sendbuf);
    } else if ctx.rank == root {
      ctx.SendToPeers(Repeat(ctx.size, sendbuf));
      AllAddressed(root, Repeat(ctx.size, sendbuf));
      CopyToFront(recvbuf, sendbuf);
    } else {
      ctx.calls := ctx.calls + [Op.Post(0)];
      ctx.calls := ctx.calls + [Wait(0)];
      CopyToFront(recvbuf, arrival);
    }
  }

  /** The messages of a scatter to the peers below `upTo`, out-of-bounds chunks skipped. */
  function Chunks(rank: nat, sendbuf: Buffer, w: nat, upTo: nat): (ms: seq<Outgoing>) {
    if upTo == 0 then []
    else
      var peer := upTo - 1;
      Chunks(rank, sendbuf, w, peer)
      + if peer != rank && ChunkInside(sendbuf, w, peer) then [Outgoing(peer, sendbuf[peer * w..peer * w + w])] else []
  }

  function ChunkCalls(rank: nat, sendbuf: Buffer, w: nat, upTo: nat): (calls: seq<Op>) {
    if upTo == 0 then []
    else
      var peer := upTo - 1;
      ChunkCalls(rank, sendbuf, w, peer)
      + if peer != rank && ChunkInside(sendbuf, w, peer) then [Send(IndexOf(rank, peer))] else []
  }

  /** One send for each message, to the place of its peer in the order of the loop. */
  lemma {:induction false} ChunkCallAt(rank: nat, sendbuf: Buffer, w: nat, upTo: nat, i: nat)
    ensures |ChunkCalls(rank, sendbuf, w, upTo)| == |Chunks(rank, sendbuf, w, upTo)|
    ensures i < |Chunks(rank, sendbuf, w, upTo)| ==>
              var peer := Chunks(rank, sendbuf, w, upTo)[i].peer;
              peer != rank && ChunkCalls(rank, sendbuf, w, upTo)[i] == Send(if peer < rank then peer else peer - 1)
  {
    if upTo > 0 { ChunkCallAt(rank, sendbuf, w, upTo - 1, i); }
  }

  method SendChunks(ctx: OsUContext, sendbuf: Buffer, w: nat)
    requires ctx.Valid()
    modifies ctx
    ensures ctx.outbox == old(ctx.outbox) + Chunks(ctx.rank, sendbuf, w, ctx.size)
    ensures ctx.calls == old(ctx.calls) + ChunkCalls(ctx.rank, sendbuf, w, ctx.size)
  {
    for peer := 0 to ctx.size
      invariant ctx.outbox == old(ctx.outbox) + Chunks(ctx.rank, sendbuf, w, peer)
      invariant ctx.calls == old(ctx.calls) + ChunkCalls(ctx.rank, sendbuf, w, peer)
    {
      if peer != ctx.rank && ChunkInside(sendbuf, w, peer) {
        ctx.TagSend(peer, sendbuf[peer * w..peer * w + w]);
      }
    }
  }

  method CopyToFront(dst: array<byte>, src: Buffer)
    requires |src| <= dst.Length
    modifies dst
    ensures dst[..|src|] == src && dst[|src|..] == old(dst[|src|..])
  {
    CopyFromSlice(dst, 0, src);
  }

  /** Scatter of chunks of w bytes; which messages the root sends is `ChunksReach`. */
  method Scatter(ctx: OsUContext, sendbuf: Buffer, recvbuf: array<byte>, w: nat, root: nat, arrival: Buffer)
    requires ctx.Valid()
    requires ctx.size > 1 && ctx.rank != root ==> |arrival| <= recvbuf.Length
    modifies ctx, recvbuf
    ensures ctx.outbox == old(ctx.outbox)
              + if ctx.size > 1 && ctx.rank == root then Chunks(root, sendbuf, w, ctx.size) else []
    ensures ctx.size > 1 && ctx.rank == root ==>
              ctx.calls == old(ctx.calls) + ChunkCalls(root, sendbuf, w, ctx.size)
    ensures ctx.size > 1 && ctx.rank == root ==>
              if root * w + w <= |sendbuf| && w <= recvbuf.Length
              then 0 <= root * w && recvbuf[..w] == sendbuf[root * w..root * w + w] && recvbuf[w..] == old(recvbuf[w..])
              else recvbuf[..] == old(recvbuf[..])
    ensures ctx.size > 1 && ctx.rank != root ==>
              && recvbuf[..|arrival|] == arrival && recvbuf[|arrival|..] == old(recvbuf[|arrival|..])
              && ctx.calls == old(ctx.calls) + [Op.Post(0), Wait(0)]
    ensures ctx.size <= 1 ==>
              var n := Min(Min(w, |sendbuf|), recvbuf.Length);
              recvbuf[..n] == sendbuf[..n] && recvbuf[n..] == old(recvbuf[n..])
  {
    if ctx.size <= 1 {
      if sendbuf != [] && recvbuf.Length != 0 {
        CopyToFront(recvbuf, FirstOf(sendbuf, w, recvbuf.Length));
      }
    } else if ctx.rank == root {
      if ChunkInside(sendbuf, w, root) && w <= recvbuf.Length {
        CopyToFront(recvbuf, sendbuf[root * w..root * w + w]);
      }
      SendChunks(ctx, sendbuf, w);
    } else {
      ctx.calls := ctx.calls + [Op.Post(0)];
      ctx.calls := ctx.calls + [Wait(0)];
      CopyToFront(recvbuf, arrival);
    }
  }

  /** A scatter addresses chunk p to peer p and to nobody else, once, and reaches every peer whose chunk
      is inside the send buffer. */
  lemma {:induction false} ChunksReach(rank: nat, sendbuf: Buffer, w: nat, upTo: nat, m: Outgoing)
    ensures m in Chunks(rank, sendbuf, w, upTo) <==>
              && m.peer < upTo && m.peer != rank && 0 <= m.peer * w && m.peer * w + w <= |sendbuf|
              && m.data == sendbuf[m.peer * w..m.peer * w + w]
    ensures forall i, j :: 0 <= i < j < |Chunks(rank, sendbuf, w, upTo)| ==>
              Chunks(rank, sendbuf, w, upTo)[i].peer < Chunks(rank, sendbuf, w, upTo)[j].peer
  {
    ChunksInOrder(rank, sendbuf, w, upTo);
    if upTo > 0 {
      ChunksReach(rank, sendbuf, w, upTo - 1, m);
    }
  }

  lemma {:induction false} ChunksInOrder(rank: nat, sendbuf: Buffer, w: nat, upTo: nat)
    ensures forall i :: 0 <= i < |Chunks(rank, sendbuf, w, upTo)| ==> Chunks(rank, sendbuf, w, upTo)[i].peer < upTo
    ensures forall i, j :: 0 <= i < j < |Chunks(rank, sendbuf, w, upTo)| ==>
              Chunks(rank, sendbuf, w, upTo)[i].peer < Chunks(rank, sendbuf, w, upTo)[j].peer
  {
    if upTo > 0 { ChunksInOrder(rank, sendbuf, w, upTo - 1); }
  }

  /** What reached the receivers of a scatter that fits is, with the root's own chunk, the whole buffer. */
  lemma ScatteredTile(sendbuf: Buffer, n: nat, w: nat)
    requires |sendbuf| == n * w
    ensures forall r: nat :: r < n ==> ChunkInside(sendbuf, w, r)
    ensures Flatten(Pieces(sendbuf, n, w)) == sendbuf
  {
    forall r: nat | r < n ensures ChunkInside(sendbuf, w, r) { BlockBounds(r, n, w); }
    forall x | 0 <= x < n ensures BlockIs(sendbuf, x, w, Pieces(sendbuf, n, w)[x]) { BlockBounds(x, n, w); }
    FlattenIsPrefix(sendbuf, Pieces(sendbuf, n, w), w);
  }

  datatype UccStatus = UccOk | UccErrNoMessage

  /** `at` is the peer whose post or send the transport refuses; a rank makes neither to itself. */
  predicate Refused(ctx: OsUContext, at: nat)
    reads ctx
  {
    at < ctx.size && at != ctx.rank
  }

  /** Posts a receive for every peer, up to a refusal. */
  method PostUntilRefused(ctx: OsUContext, refused: nat) returns (ok: bool)
    requires ctx.Valid()
    modifies ctx`calls
    ensures ok <==> !Refused(ctx, refused)
    ensures ctx.calls == old(ctx.calls)
              + Prefix(PostFirst(true), ctx.size - 1, if ok then ctx.size - 1 else PeersBelow(ctx.rank, refused))
  {
    WholePrefix(PostFirst(true), ctx.size - 1);
    for peer := 0 to ctx.size
      invariant !(refused < peer && refused != ctx.rank)
      invariant ctx.calls == old(ctx.calls) + Prefix(PostFirst(true), ctx.size - 1, PeersBelow(ctx.rank, peer))
    {
      if peer != ctx.rank {
        if peer == refused {
          return false;
        }
        PrefixStep(PostFirst(true), ctx.size - 1, PeersBelow(ctx.rank, peer));
        ctx.calls := ctx.calls + [Op.Post(IndexOf(ctx.rank, peer))];
      }
    }
    ok := true;
  }

  /** Sends to every peer and waits for each send, up to a refusal. */
  method SendUntilRefused(ctx: OsUContext, src: Buffer, refused: nat, ghost before: seq<Op>) returns (ok: bool)
    requires ctx.Valid() && ctx.calls == before + Prefix(PostFirst(true), ctx.size - 1, ctx.size - 1)
    modifies ctx
    ensures ok <==> !Refused(ctx, refused)
    ensures var sends := if ok then ctx.size - 1 else PeersBelow(ctx.rank, refused);
            && ctx.calls == before + Prefix(PostFirst(true), ctx.size - 1, ctx.size - 1 + 2 * sends)
            && ctx.outbox == old(ctx.outbox) + Addressed(ctx.rank, Repeat(ctx.size, src))[..sends]
  {
    var pieces := Repeat(ctx.size, src);
    for peer := 0 to ctx.size
      invariant !(refused < peer && refused != ctx.rank)
      invariant ctx.calls == before
                  + Prefix(PostFirst(true), ctx.size - 1, ctx.size - 1 + 2 * PeersBelow(ctx.rank, peer))
      invariant ctx.outbox == old(ctx.outbox) + Addressed(ctx.rank, pieces)[..PeersBelow(ctx.rank, peer)]
    {
      if peer != ctx.rank {
        if peer == refused {
          return false;
        }
        ctx.SendOne(peer, pieces, old(ctx.outbox), before);
      }
    }
    ok := true;
  }

  /** The three phases: post every receive, send to every peer, wait and copy. A refusal ends the call
      with the own block in place and the calls made so far. */
  method OobExchange(ctx: OsUContext, src: Buffer, recvBuf: array<byte>, arrivals: seq<Buffer>, postRefused: nat,
                     sendRefused: nat)
      returns (ok: bool)
    requires ctx.Valid() && |arrivals| == ctx.size - 1 && Uniform(arrivals, |src|)
    requires ctx.size * |src| <= recvBuf.Length
    modifies ctx, recvBuf
    ensures ok <==> !Refused(ctx, postRefused) && !Refused(ctx, sendRefused)
    ensures ok ==> AllSentAndPosted(ctx, old(ctx.calls), old(ctx.outbox), src)
                   && recvBuf[..] == Flatten(Gathered(ctx.rank, src, arrivals)) + old(recvBuf[..])[ctx.size * |src|..]
    ensures !ok ==> 0 <= ctx.rank * |src| && ctx.rank * |src| + |src| <= recvBuf.Length
                    && recvBuf[..] == Overwrite(old(recvBuf[..]), ctx.rank * |src|, src)
    ensures Refused(ctx, postRefused) ==> PostsOnly(ctx, old(ctx.calls), old(ctx.outbox), postRefused)
    ensures !Refused(ctx, postRefused) && Refused(ctx, sendRefused) ==>
              SomeSends(ctx, old(ctx.calls), old(ctx.outbox), src, sendRefused)
  {
    ghost var all := Gathered(ctx.rank, src, arrivals);
    GatheredAt(ctx.rank, src, arrivals, ctx.rank);
    PlaceOwn(recvBuf, src, all, ctx.rank);
    ok := OobPhases(ctx, src, recvBuf, arrivals, postRefused, sendRefused);
    if ok {
      FilledAll(recvBuf[..], |src|, all, ctx.rank);
    }
  }

  /** The phases behind the own block. */
  method OobPhases(ctx: OsUContext, src: Buffer, recvBuf: array<byte>, arrivals: seq<Buffer>, postRefused: nat,
                   sendRefused: nat)
      returns (ok: bool)
    requires ctx.Valid() && |arrivals| == ctx.size - 1
    requires Filled(recvBuf[..], |src|, Gathered(ctx.rank, src, arrivals), ctx.rank, 0)
    modifies ctx, recvBuf
    ensures ok <==> !Refused(ctx, postRefused) && !Refused(ctx, sendRefused)
    ensures ok ==> AllSentAndPosted(ctx, old(ctx.calls), old(ctx.outbox), src)
                   && Filled(recvBuf[..], |src|, Gathered(ctx.rank, src, arrivals), ctx.rank, ctx.size)
                   && recvBuf[..][ctx.size * |src|..] == old(recvBuf[..])[ctx.size * |src|..]
    ensures !ok ==> recvBuf[..] == old(recvBuf[..])
    ensures Refused(ctx, postRefused) ==> PostsOnly(ctx, old(ctx.calls), old(ctx.outbox), postRefused)
    ensures !Refused(ctx, postRefused) && Refused(ctx, sendRefused) ==>
              SomeSends(ctx, old(ctx.calls), old(ctx.outbox), src, sendRefused)
  {
    ok := PostUntilRefused(ctx, postRefused);
    if ok {
      ok := SendUntilRefused(ctx, src, sendRefused, old(ctx.calls));
      if ok {
        ctx.WaitBlocks(recvBuf, |src|, src, arrivals, old(ctx.calls));
      }
    }
  }

  /** The rank's block at its place. */
  method PlaceOwn(recvBuf: array<byte>, src: Buffer, ghost all: seq<Buffer>, rank: nat)
    requires rank < |all| && all[rank] == src && |all| * |src| <= recvBuf.Length && Uniform(all, |src|)
    modifies recvBuf
    ensures Filled(recvBuf[..], |src|, all, rank, 0)
    ensures 0 <= rank * |src| && rank * |src| + |src| <= recvBuf.Length
    ensures recvBuf[..] == Overwrite(old(recvBuf[..]), rank * |src|, src)
    ensures recvBuf[..][|all| * |src|..] == old(recvBuf[..])[|all| * |src|..]
  {
    FilledOwn(recvBuf[..], |src|, all, rank);
    CopyFromSlice(recvBuf, rank * |src|, src);
  }

  /** All calls and messages of the exchange. */
  ghost predicate AllSentAndPosted(ctx: OsUContext, calls: seq<Op>, outbox: seq<Outgoing>, src: Buffer)
    reads ctx
  {
    && ctx.Valid() && ctx.calls == calls + Program(PostFirst(true), ctx.size - 1)
    && ctx.outbox == outbox + Addressed(ctx.rank, Repeat(ctx.size, src))
  }

  /** The receives below the refused one, and no message. */
  ghost predicate PostsOnly(ctx: OsUContext, calls: seq<Op>, outbox: seq<Outgoing>, refused: nat)
    reads ctx
  {
    && ctx.Valid() && Refused(ctx, refused) && ctx.outbox == outbox
    && ctx.calls == calls + Prefix(PostFirst(true), ctx.size - 1, PeersBelow(ctx.rank, refused))
  }

  /** All receives, and the messages to the peers below the refused one. */
  ghost predicate SomeSends(ctx: OsUContext, calls: seq<Op>, outbox: seq<Outgoing>, src: Buffer, refused: nat)
    reads ctx
  {
    && ctx.Valid() && Refused(ctx, refused)
    && ctx.calls == calls + Prefix(PostFirst(true), ctx.size - 1, ctx.size - 1 + 2 * PeersBelow(ctx.rank, refused))
    && ctx.outbox == outbox + Addressed(ctx.rank, Repeat(ctx.size, src))[..PeersBelow(ctx.rank, refused)]
  }

  /** The exchange with its contract spelled out. */
  method OobTurn(ctx: OsUContext, src: Buffer, recvBuf: array<byte>, arrivals: seq<Buffer>, postRefused: nat,
                 sendRefused: nat)
      returns (ok: bool)
    requires ctx.Valid() && |arrivals| == ctx.size - 1 && Uniform(arrivals, |src|)
    requires ctx.size * |src| <= recvBuf.Length
    modifies ctx, recvBuf
    ensures var noPost := postRefused < ctx.size && postRefused != ctx.rank;
            var noSend := sendRefused < ctx.size && sendRefused != ctx.rank;
            && old(ctx.outbox) <= ctx.outbox
            && (ok <==> !noPost && !noSend)
            && (!noPost && !noSend ==>
                  && ctx.calls == old(ctx.calls) + Program(PostFirst(true), ctx.size - 1)
                  && |ctx.outbox| == |old(ctx.outbox)| + ctx.size - 1
                  && recvBuf[..] == Flatten(Gathered(ctx.rank, src, arrivals)) + old(recvBuf[..])[ctx.size * |src|..])
            && (noPost || noSend ==>
                  && 0 <= ctx.rank * |src| && ctx.rank * |src| + |src| <= recvBuf.Length
                  && recvBuf[..] == Overwrite(old(recvBuf[..]), ctx.rank * |src|, src))
            && (noPost ==>
                  && ctx.outbox == old(ctx.outbox)
                  && var posts := if postRefused < ctx.rank then postRefused else postRefused - 1;
                     ctx.calls == old(ctx.calls) + Program(PostFirst(true), ctx.size - 1)[..posts])
            && (!noPost && noSend ==>
                  var sends := if sendRefused < ctx.rank then sendRefused else sendRefused - 1;
                  && |ctx.outbox| == |old(ctx.outbox)| + sends
                  && ctx.calls == old(ctx.calls) + Program(PostFirst(true), ctx.size - 1)[..ctx.size - 1 + 2 * sends])
    ensures !(postRefused < ctx.size && postRefused != ctx.rank) ==>
              forall p: nat :: p < ctx.size && p != ctx.rank && (ok || p < sendRefused) ==>
                ctx.outbox[|old(ctx.outbox)| + if p < ctx.rank then p else p - 1] == Outgoing(p, src)
  {
    ok := OobExchange(ctx, src, recvBuf, arrivals, postRefused, sendRefused);
    var m := ctx.size - 1;
    if Refused(ctx, postRefused) {
      PrefixOfProgram(PostFirst(true), m, PeersBelow(ctx.rank, postRefused));
    } else {
      var sends := if ok then m else PeersBelow(ctx.rank, sendRefused);
      if !ok { PrefixOfProgram(PostFirst(true), m, m + 2 * sends); }
      SentSome(ctx.rank, ctx.size, src, sends, old(ctx.outbox), ctx.outbox);
    }
  }

  lemma SentSome(rank: nat, size: nat, src: Buffer, sends: nat, before: seq<Outgoing>, after: seq<Outgoing>)
    requires rank < size && sends <= size - 1 && after == before + Addressed(rank, Repeat(size, src))[..sends]
    ensures |after| == |before| + sends && before <= after
    ensures forall p: nat :: p < size && p != rank && (if p < rank then p else p - 1) < sends ==>
              after[|before| + if p < rank then p else p - 1] == Outgoing(p, src)
  {
    AllAddressed(rank, Repeat(size, src));
  }

  /** Nothing to do: no bytes asked for, or a null buffer or request. */
  predicate Trivial(recvBuf: array?<byte>, size: nat, srcIsNull: bool, requestIsNull: bool) {
    size == 0 || srcIsNull || recvBuf == null || requestIsNull
  }

  /** The out-of-band allgather callback. A trivial call succeeds at once; a missing worker or endpoint
      (`ctx` null), a refused receive or a refused send is an error. */
  method UccOobAllgather(ctx: OsUContext?, src: Buffer, recvBuf: array?<byte>, size: nat, srcIsNull: bool,
                         requestIsNull: bool, arrivals: seq<Buffer>, postRefused: nat, sendRefused: nat)
      returns (status: UccStatus)
    requires ctx != null ==> ctx.Valid() && |arrivals| == ctx.size - 1 && Uniform(arrivals, size)
    requires !srcIsNull ==> |src| == size
    requires ctx != null && recvBuf != null ==> ctx.size * size <= recvBuf.Length
    modifies ctx, recvBuf
    ensures var trivial := size == 0 || srcIsNull || recvBuf == null || requestIsNull;
            && (trivial ==> status == UccOk)
            && (trivial && ctx != null ==> ctx.calls == old(ctx.calls) && ctx.outbox == old(ctx.outbox))
            && ((trivial || ctx == null) && recvBuf != null ==> recvBuf[..] == old(recvBuf[..]))
            && (!trivial && ctx == null ==> status == UccErrNoMessage)
    ensures ctx != null && recvBuf != null && size > 0 && !srcIsNull && !requestIsNull ==>
              var noPost := postRefused < ctx.size && postRefused != ctx.rank;
              var noSend := sendRefused < ctx.size && sendRefused != ctx.rank;
              && old(ctx.outbox) <= ctx.outbox
              && (status == UccOk <==> !noPost && !noSend)
              && (!noPost && !noSend ==>
                    && ctx.calls == old(ctx.calls) + Program(PostFirst(true), ctx.size - 1)
                    && |ctx.outbox| == |old(ctx.outbox)| + ctx.size - 1
                    && recvBuf[..] == Flatten(Gathered(ctx.rank, src, arrivals)) + old(recvBuf[..])[ctx.size * size..])
              && (noPost || noSend ==>
                    && 0 <= ctx.rank * size && ctx.rank * size + size <= recvBuf.Length
                    && recvBuf[..] == Overwrite(old(recvBuf[..]), ctx.rank * size, src))
              && (noPost ==>
                    && ctx.outbox == old(ctx.outbox)
                    && var posts := if postRefused < ctx.rank then postRefused else postRefused - 1;
                       ctx.calls == old(ctx.calls) + Program(PostFirst(true), ctx.size - 1)[..posts])
              && (!noPost && noSend ==>
                    var sends := if sendRefused < ctx.rank then sendRefused else sendRefused - 1;
                    && |ctx.outbox| == |old(ctx.outbox)| + sends
                    && ctx.calls == old(ctx.calls) + Program(PostFirst(true), ctx.size - 1)[..ctx.size - 1 + 2 * sends])
    ensures ctx != null && recvBuf != null && size > 0 && !srcIsNull && !requestIsNull
              && !(postRefused < ctx.size && postRefused != ctx.rank) ==>
              forall p: nat :: p < ctx.size && p != ctx.rank && (status == UccOk || p < sendRefused) ==>
                ctx.outbox[|old(ctx.outbox)| + if p < ctx.rank then p else p - 1] == Outgoing(p, src)
  {
    if Trivial(recvBuf, size, srcIsNull, requestIsNull) {
      return UccOk;
    }
    if ctx == null {
      return UccErrNoMessage;
    }
    var ok := OobTurn(ctx, src, recvBuf, arrivals, postRefused, sendRefused);
    status := if ok then UccOk else UccErrNoMessage;
  }
}
