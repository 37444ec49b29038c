/** The rank-local code of the blocking collectives. `calls` and `outbox` record what a rank asks of
    the transport; the messages its receives match are given, in the order they match. */
module CollectiveBlocking {
  import opened Bytes
  import opened Arithmetic
  import opened Blocks
  import opened Displacements
  import opened LittleEndian
  import opened Sums
  import opened Programs
  import opened Reductions

  datatype Outgoing = Outgoing(peer: nat, data: Buffer)

  /** Peers below `upTo` other than `rank`. */
  function PeersBelow(rank: nat, upTo: nat): nat {
    if upTo <= rank then upTo else upTo - 1
  }

  function Addressed(rank: nat, pieces: seq<Buffer>): (ms: seq<Outgoing>)
    requires rank < |pieces|
  {
    seq(|pieces| - 1, j requires 0 <= j < |pieces| - 1 => Outgoing(PeerAt(rank, j), pieces[PeerAt(rank, j)]))
  }

  function Repeat(n: nat, data: Buffer): (s: seq<Buffer>)
  {
    seq(n, _ => data)
  }

  /** One message for each peer, in rank order, with its piece. */
  lemma AllAddressed(rank: nat, pieces: seq<Buffer>)
    requires rank < |pieces|
    ensures |Addressed(rank, pieces)| == |pieces| - 1
    ensures forall p: nat :: p < |pieces| && p != rank ==>
              Addressed(rank, pieces)[if p < rank then p else p - 1] == Outgoing(p, pieces[p])
  {
  }

  class OsUContext {
    const rank: nat
    const size: nat
    var calls: seq<Op>
    var outbox: seq<Outgoing>

    ghost predicate Valid()
      reads this
    {
      rank < size
    }

    constructor (rank: nat, size: nat)
      requires rank < size
      ensures Valid() && this.rank == rank && this.size == size && calls == [] && outbox == []
    {
      this.rank, this.size := rank, size;
      calls, outbox := [], [];
    }

    method TagSend(peer: nat, data: Buffer)
      requires Valid() && peer < size && peer != rank
      modifies this
      ensures calls == old(calls) + [Send(IndexOf(rank, peer))]
      ensures outbox == old(outbox) + [Outgoing(peer, data)]
    {
      calls := calls + [Send(IndexOf(rank, peer))];
      outbox := outbox + [Outgoing(peer, data)];
    }

    /** A send to every peer, in rank order. */
    method SendToPeers(pieces: seq<Buffer>)
      requires Valid() && |pieces| == size
      modifies this
      ensures calls == old(calls) + Prefix(Blocking, size - 1, size - 1)
      ensures outbox == old(outbox) + Addressed(rank, pieces)
    {
      WholePrefix(Blocking, size - 1);
      for peer := 0 to size
        invariant calls == old(calls) + Prefix(Blocking, size - 1, PeersBelow(rank, peer))
        invariant outbox == old(outbox) + Addressed(rank, pieces)[..PeersBelow(rank, peer)]
      {
        if peer != rank {
          PrefixStep(Blocking, size - 1, PeersBelow(rank, peer));
          TagSend(peer, pieces[peer]);
        }
      }
    }

    /** The blocking receive: post, then progress until the request is finished. */
    method TagRecv(slot: nat, arrivals: seq<Buffer>, ghost before: seq<Op>) returns (data: Buffer)
      requires Valid() && slot < size - 1 == |arrivals|
      requires calls == before + Prefix(Blocking, size - 1, size - 1 + 2 * slot)
      modifies this`calls
      ensures calls == before + Prefix(Blocking, size - 1, size - 1 + 2 * slot + 2)
      ensures data == arrivals[slot]
    {
      PrefixStep(Blocking, size - 1, size - 1 + 2 * slot);
      PrefixStep(Blocking, size - 1, size - 1 + 2 * slot + 1);
      calls := calls + [Post(slot)];
      calls := calls + [Wait(slot)];
      data := arrivals[slot];
    }

    method Barrier(arrivals: seq<Buffer>)
      requires Valid() && |arrivals| == size - 1
      modifies this
      ensures calls == old(calls) + Program(Blocking, size - 1)
      ensures |outbox| == |old(outbox)| + size - 1 && old(outbox) <= outbox
      ensures var data := [(rank % 256) as byte];
              forall p: nat :: p < size && p != rank ==>
                outbox[|old(outbox)| + if p < rank then p else p - 1] == Outgoing(p, data)
    {
      WholePrefix(Blocking, size - 1);
      if size <= 1 {
        AllAddressed(rank, Repeat(size, [(rank % 256) as byte]));
        return;
      }
      SendToPeers(Repeat(size, [(rank % 256) as byte]));
      for peer := 0 to size
        invariant calls == old(calls) + Prefix(Blocking, size - 1, size - 1 + 2 * PeersBelow(rank, peer))
        invariant outbox == old(outbox) + Addressed(rank, Repeat(size, [(rank % 256) as byte]))
      {
        if peer != rank {
          var _ := TagRecv(IndexOf(rank, peer), arrivals, old(calls));
        }
      }
      AllAddressed(rank, Repeat(size, [(rank % 256) as byte]));
    }

    /** The receive loop of `reduce`, `allgather` and the allreduce fallback: the message matched in
        the turn of `peer` is copied to that peer's offset. */
    method ReceiveBlocks(dst: array<byte>, w: nat, own: Buffer, arrivals: seq<Buffer>, ghost before: seq<Op>)
      requires Valid() && |arrivals| == size - 1
      requires Filled(dst[..], w, Gathered(rank, own, arrivals), rank, 0)
      requires calls == before + Prefix(Blocking, size - 1, size - 1)
      modifies dst, this`calls
      ensures calls == before + Program(Blocking, size - 1)
      ensures Filled(dst[..], w, Gathered(rank, own, arrivals), rank, size)
      ensures dst[..][size * w..] == old(dst[..])[size * w..]
    {
      ghost var all := Gathered(rank, own, arrivals);
      for peer := 0 to size
        invariant calls == before + Prefix(Blocking, size - 1, size - 1 + 2 * PeersBelow(rank, peer))
        invariant Filled(dst[..], w, all, rank, peer)
        invariant dst[..][|all| * w..] == old(dst[..])[|all| * w..]
      {
        var data := ReceiveTurn(peer, own, arrivals, before);
        StoreTurn(dst, w, peer, data, all, rank);
      }
      WholePrefix(Blocking, size - 1);
    }

    /** The turn of a peer in a receive loop; in its own the rank receives nothing. */
    method ReceiveTurn(peer: nat, own: Buffer, arrivals: seq<Buffer>, ghost before: seq<Op>) returns (data: Buffer)
      requires Valid() && |arrivals| == size - 1 && peer < size
      requires calls == before + Prefix(Blocking, size - 1, size - 1 + 2 * PeersBelow(rank, peer))
      modifies this`calls
      ensures calls == before + Prefix(Blocking, size - 1, size - 1 + 2 * PeersBelow(rank, peer + 1))
      ensures data == Gathered(rank, own, arrivals)[peer]
    {
      GatheredAt(rank, own, arrivals, peer);
      data := own;
      if peer != rank {
        data := TagRecv(IndexOf(rank, peer), arrivals, before);
      }
    }

    /** Allgather over tag matching. */
    method Allgather(sendbuf: Buffer, recvbuf: array<byte>, w: nat, arrivals: seq<Buffer>)
      requires Valid() && |sendbuf| == w && 0 <= size * w <= recvbuf.Length
      requires |arrivals| == size - 1 && Uniform(arrivals, w)
      modifies recvbuf, this
      ensures calls == old(calls) + Program(Blocking, size - 1)
      ensures |outbox| == |old(outbox)| + size - 1 && old(outbox) <= outbox
      ensures forall p: nat :: p < size && p != rank ==>
                outbox[|old(outbox)| + if p < rank then p else p - 1] == Outgoing(p, sendbuf)
      ensures recvbuf[..] == Flatten(Gathered(rank, sendbuf, arrivals)) + old(recvbuf[..])[size * w..]
    {
      AllgatherBlocks(sendbuf, recvbuf, w, arrivals);
      AllAddressed(rank, Repeat(size, sendbuf));
    }

    method AllgatherBlocks(sendbuf: Buffer, recvbuf: array<byte>, w: nat, arrivals: seq<Buffer>)
      requires Valid() && |sendbuf| == w && 0 <= size * w <= recvbuf.Length
      requires |arrivals| == size - 1 && Uniform(arrivals, w)
      modifies recvbuf, this
      ensures calls == old(calls) + Program(Blocking, size - 1)
      ensures outbox == old(outbox) + Addressed(rank, Repeat(size, sendbuf))
      ensures recvbuf[..] == Flatten(Gathered(rank, sendbuf, arrivals)) + old(recvbuf[..])[size * w..]
    {
      ghost var all := Gathered(rank, sendbuf, arrivals);
      ghost var was := recvbuf[..];
      WholePrefix(Blocking, size - 1);
      FilledOwn(was, w, all, rank);
      CopyFromSlice(recvbuf, rank * w, sendbuf);
      if size > 1 {
        SendToPeers(Repeat(size, sendbuf));
        ReceiveBlocks(recvbuf, w, sendbuf, arrivals, old(calls));
      }
      FilledAll(recvbuf[..], w, all, rank);
    }

    method ReceiveWords(gathered: array<nat>, own: Buffer, arrivals: seq<Buffer>, ghost before: seq<Op>)
      requires Valid() && |arrivals| == size - 1 && gathered.Length == size && gathered[rank] == FromLe(own)
      requires calls == before + Prefix(Blocking, size - 1, size - 1)
      modifies gathered, this`calls
      ensures calls == before + Program(Blocking, size - 1)
      ensures gathered[..] == Values(Gathered(rank, own, arrivals))
    {
      ghost var all := Gathered(rank, own, arrivals);
      for peer := 0 to size
        invariant calls == before + Prefix(Blocking, size - 1, size - 1 + 2 * PeersBelow(rank, peer))
        invariant forall x :: 0 <= x < size && (x < peer || x == rank) ==> gathered[x] == FromLe(all[x])
      {
        GatheredAt(rank, own, arrivals, peer);
        if peer != rank {
          var data := TagRecv(IndexOf(rank, peer), arrivals, before);
          gathered[peer] := FromLe(data);
        }
      }
      WholePrefix(Blocking, size - 1);
    }

    /** Sum of a u64 over all ranks, wrapping at 64 bits. */
    method AllreduceU64(value: nat, arrivals: seq<Buffer>) returns (total: nat)
      requires Valid() && value < TWO_TO_64
      requires |arrivals| == size - 1 && Uniform(arrivals, 8)
      modifies this
      ensures calls == old(calls) + Program(Blocking, size - 1)
      ensures |outbox| == |old(outbox)| + size - 1 && old(outbox) <= outbox
      ensures forall p: nat :: p < size && p != rank ==>
                outbox[|old(outbox)| + if p < rank then p else p - 1] == Outgoing(p, ToLe(value, 8))
      ensures total == Sum(Values(Gathered(rank, ToLe(value, 8), arrivals))) % TWO_TO_64
    {
      total := AllreduceWords(value, arrivals);
      AllAddressed(rank, Repeat(size, ToLe(value, 8)));
    }

    method AllreduceWords(value: nat, arrivals: seq<Buffer>) returns (total: nat)
      requires Valid() && value < TWO_TO_64
      requires |arrivals| == size - 1 && Uniform(arrivals, 8)
      modifies this
      ensures calls == old(calls) + Program(Blocking, size - 1)
      ensures outbox == old(outbox) + Addressed(rank, Repeat(size, ToLe(value, 8)))
      ensures total == Sum(Values(Gathered(rank, ToLe(value, 8), arrivals))) % TWO_TO_64
    {
      var own := ToLe(value, 8);
      ghost var all := Gathered(rank, own, arrivals);
      WholePrefix(Blocking, size - 1);
      if size <= 1 {
        assert all == [own];
        ValueOfOne(value);
          return value;
      }
      var gathered := new nat[size](_ => 0);
      U64RoundTrip(value);
      gathered[rank] := value;
      SendToPeers(Repeat(size, own));
      ReceiveWords(gathered, own, arrivals, old(calls));
      total := SumU64(gathered);
    }

    /** The gather and the local sums of `reduce`, which only the root performs, and of the allreduce
        fallback, which every rank performs: `at` says whether this rank does. */
    method GatherAndSum(sendbuf: Buffer, recvbuf: array<byte>, arrivals: seq<Buffer>, at: bool)
      requires Valid() && |arrivals| == size - 1 && Uniform(arrivals, |sendbuf|)
      requires size <= 1 ==> recvbuf.Length == |sendbuf|
      modifies recvbuf, this
      ensures calls == old(calls) + Program(Blocking, size - 1)
      ensures outbox == old(outbox) + Addressed(rank, Repeat(size, sendbuf))
      ensures Summed(recvbuf[..], old(recvbuf[..]), Gathered(rank, sendbuf, arrivals), |sendbuf|, at || size <= 1)
    {
      if size <= 1 {
        Alone(rank, sendbuf, arrivals);
        CopyOwn(recvbuf, sendbuf);
        return;
      }
      var gathered := GatherBlocking(sendbuf, arrivals);
      if at {
        SumInto(recvbuf, gathered, size, |sendbuf|, Gathered(rank, sendbuf, arrivals), rank);
      }
    }

    /** Every rank's vector in a fresh buffer, the rank's own first. */
    method GatherBlocking(sendbuf: Buffer, arrivals: seq<Buffer>) returns (gathered: array<byte>)
      requires Valid() && |arrivals| == size - 1 && Uniform(arrivals, |sendbuf|)
      modifies this
      ensures fresh(gathered) && Filled(gathered[..], |sendbuf|, Gathered(rank, sendbuf, arrivals), rank, size)
      ensures calls == old(calls) + Program(Blocking, size - 1)
      ensures outbox == old(outbox) + Addressed(rank, Repeat(size, sendbuf))
    {
      ghost var all := Gathered(rank, sendbuf, arrivals);
      var w := |sendbuf|;
      SendToPeers(Repeat(size, sendbuf));
      gathered := new byte[size * w](_ => 0);
      FilledOwn(gathered[..], w, all, rank);
      CopyFromSlice(gathered, rank * w, sendbuf);
      ReceiveBlocks(gathered, w, sendbuf, arrivals, old(calls));
    }

    method Reduce(sendbuf: Buffer, recvbuf: array<byte>, root: nat, arrivals: seq<Buffer>)
      requires Valid() && |arrivals| == size - 1 && Uniform(arrivals, |sendbuf|)
      requires size <= 1 ==> recvbuf.Length == |sendbuf|
      modifies recvbuf, this
      ensures calls == old(calls) + Program(Blocking, size - 1)
      ensures |outbox| == |old(outbox)| + size - 1 && old(outbox) <= outbox
      ensures forall p: nat :: p < size && p != rank ==>
                outbox[|old(outbox)| + if p < rank then p else p - 1] == Outgoing(p, sendbuf)
      ensures rank == root || size <= 1 ==>
                var sums := SumVector(Gathered(rank, sendbuf, arrivals), |sendbuf|);
                forall i :: 0 <= i < recvbuf.Length ==> recvbuf[i] == if i < |sendbuf| then sums[i] else old(recvbuf[i])
      ensures rank != root && size > 1 ==> recvbuf[..] == old(recvbuf[..])
    {
      GatherAndSum(sendbuf, recvbuf, arrivals, rank == root);
      AllAddressed(rank, Repeat(size, sendbuf));
    }

    /** `allreduce_ucx_fallback`: as `reduce`, with the result everywhere. */
    method AllreduceUcxFallback(sendbuf: Buffer, recvbuf: array<byte>, arrivals: seq<Buffer>)
      requires Valid() && |arrivals| == size - 1 && Uniform(arrivals, |sendbuf|)
      requires recvbuf.Length == |sendbuf|
      modifies recvbuf, this
      ensures calls == old(calls) + Program(Blocking, size - 1)
      ensures |outbox| == |old(outbox)| + size - 1 && old(outbox) <= outbox
      ensures forall p: nat :: p < size && p != rank ==>
                outbox[|old(outbox)| + if p < rank then p else p - 1] == Outgoing(p, sendbuf)
      ensures recvbuf[..] == SumVector(Gathered(rank, sendbuf, arrivals), |sendbuf|)
    {
      GatherAndSum(sendbuf, recvbuf, arrivals, true);
      AllAddressed(rank, Repeat(size, sendbuf));
    }

    /** Rank r's piece for peer p is block p of its send buffer. A single rank copies its whole buffer. */
    method Alltoall(sendbuf: Buffer, recvbuf: array<byte>, w: nat, arrivals: seq<Buffer>)
      requires Valid() && |arrivals| == size - 1 && Uniform(arrivals, w)
      requires size <= 1 ==> recvbuf.Length == |sendbuf|
      requires size > 1 ==> 0 <= size * w <= |sendbuf| && size * w <= recvbuf.Length
      modifies recvbuf, this
      ensures calls == old(calls) + Program(Blocking, size - 1)
      ensures size <= 1 ==> recvbuf[..] == sendbuf && outbox == old(outbox)
      ensures size > 1 ==>
                var pieces := Pieces(sendbuf[..size * w], size, w);
                && |outbox| == |old(outbox)| + size - 1 && old(outbox) <= outbox
                && recvbuf[..] == Flatten(Gathered(rank, pieces[rank], arrivals)) + old(recvbuf[..])[size * w..]
      ensures size > 1 ==>
                forall p: nat :: p < size && p != rank ==>
                  && 0 <= p * w && p * w + w <= |sendbuf|
                  && outbox[|old(outbox)| + if p < rank then p else p - 1] == Outgoing(p, sendbuf[p * w..p * w + w])
    {
      if size <= 1 {
        WholePrefix(Blocking, 0);
        CopyFromSlice(recvbuf, 0, sendbuf);
        return;
      }
      var pieces := Pieces(sendbuf[..size * w], size, w);
      AlltoallExchange(pieces, recvbuf, w, arrivals);
      AllAddressed(rank, pieces);
      forall p: nat | p < size ensures 0 <= p * w && p * w + w <= |sendbuf| && pieces[p] == sendbuf[p * w..p * w + w] {
        PieceInBuffer(sendbuf, size, w, p);
      }
    }

    method AlltoallExchange(pieces: seq<Buffer>, recvbuf: array<byte>, w: nat, arrivals: seq<Buffer>)
      requires Valid() && |arrivals| == size - 1 && Uniform(arrivals, w)
      requires |pieces| == size && Uniform(pieces, w) && 0 <= size * w <= recvbuf.Length
      modifies recvbuf, this
      ensures calls == old(calls) + Program(Blocking, size - 1)
      ensures outbox == old(outbox) + Addressed(rank, pieces)
      ensures recvbuf[..] == Flatten(Gathered(rank, pieces[rank], arrivals)) + old(recvbuf[..])[size * w..]
    {
      ghost var all := Gathered(rank, pieces[rank], arrivals);
      FilledNone(recvbuf[..], w, all);
      SendToPeers(pieces);
      for peer := 0 to size
        invariant calls == old(calls) + Prefix(Blocking, size - 1, size - 1 + 2 * PeersBelow(rank, peer))
        invariant outbox == old(outbox) + Addressed(rank, pieces)
        invariant Filled(recvbuf[..], w, all, size, peer)
        invariant recvbuf[..][|all| * w..] == old(recvbuf[..])[|all| * w..]
      {
        var data := ReceiveTurn(peer, pieces[rank], arrivals, old(calls));
        StoreBlock(recvbuf, w, peer, data, all, size);
      }
      WholePrefix(Blocking, size - 1);
      FilledAll(recvbuf[..], w, all, size);
    }

    /** Phase 1 of the post-first collectives. */
    method PostAllReceives()
      requires Valid()
      modifies this`calls
      ensures calls == old(calls) + Prefix(PostFirst(true), size - 1, size - 1)
    {
      WholePrefix(PostFirst(true), size - 1);
      for peer := 0 to size
        invariant calls == old(calls) + Prefix(PostFirst(true), size - 1, PeersBelow(rank, peer))
      {
        if peer != rank {
          PrefixStep(PostFirst(true), size - 1, PeersBelow(rank, peer));
          calls := calls + [Post(IndexOf(rank, peer))];
        }
      }
    }

    /** Phase 2: each send is waited for before the next one is made. */
    method SendAndAwait(pieces: seq<Buffer>, ghost before: seq<Op>)
      requires Valid() && |pieces| == size
      requires calls == before + Prefix(PostFirst(true), size - 1, size - 1)
      modifies this
      ensures calls == before + Prefix(PostFirst(true), size - 1, 3 * (size - 1))
      ensures outbox == old(outbox) + Addressed(rank, pieces)
    {
      for peer := 0 to size
        invariant calls == before + Prefix(PostFirst(true), size - 1, size - 1 + 2 * PeersBelow(rank, peer))
        invariant outbox == old(outbox) + Addressed(rank, pieces)[..PeersBelow(rank, peer)]
      {
        if peer != rank {
          SendOne(peer, pieces, old(outbox), before);
        }
      }
    }

    method SendOne(peer: nat, pieces: seq<Buffer>, ghost sent: seq<Outgoing>, ghost before: seq<Op>)
      requires Valid() && |pieces| == size && peer < size && peer != rank
      requires calls == before + Prefix(PostFirst(true), size - 1, size - 1 + 2 * IndexOf(rank, peer))
      requires outbox == sent + Addressed(rank, pieces)[..IndexOf(rank, peer)]
      modifies this
      ensures calls == before + Prefix(PostFirst(true), size - 1, size - 1 + 2 * IndexOf(rank, peer) + 2)
      ensures outbox == sent + Addressed(rank, pieces)[..IndexOf(rank, peer) + 1]
    {
      SendPairStep(size - 1, IndexOf(rank, peer));
      TagSend(peer, pieces[peer]);
      calls := calls + [AwaitSend(IndexOf(rank, peer))];
    }

    /** Progress until the request of this slot is finished. */
    method WaitOne(slot: nat, arrivals: seq<Buffer>, ghost before: seq<Op>) returns (data: Buffer)
      requires Valid() && slot < size - 1 == |arrivals|
      requires calls == before + Prefix(PostFirst(true), size - 1, 3 * (size - 1) + slot)
      modifies this`calls
      ensures calls == before + Prefix(PostFirst(true), size - 1, 3 * (size - 1) + slot + 1)
      ensures data == arrivals[slot]
    {
      PrefixStep(PostFirst(true), size - 1, 3 * (size - 1) + slot);
      calls := calls + [Wait(slot)];
      data := arrivals[slot];
    }

    /** Phase 3, for receives posted straight into the blocks of `dst`. */
    method WaitBlocks(dst: array<byte>, w: nat, own: Buffer, arrivals: seq<Buffer>, ghost before: seq<Op>)
      requires Valid() && |arrivals| == size - 1
      requires Filled(dst[..], w, Gathered(rank, own, arrivals), rank, 0)
      requires calls == before + Prefix(PostFirst(true), size - 1, 3 * (size - 1))
      modifies dst, this`calls
      ensures calls == before + Program(PostFirst(true), size - 1)
      ensures Filled(dst[..], w, Gathered(rank, own, arrivals), rank, size)
      ensures dst[..][size * w..] == old(dst[..])[size * w..]
    {
      ghost var all := Gathered(rank, own, arrivals);
      for peer := 0 to size
        invariant calls == before + Prefix(PostFirst(true), size - 1, 3 * (size - 1) + PeersBelow(rank, peer))
        invariant Filled(dst[..], w, all, rank, peer)
        invariant dst[..][|all| * w..] == old(dst[..])[|all| * w..]
      {
        var data := WaitTurn(peer, own, arrivals, before);
        StoreTurn(dst, w, peer, data, all, rank);
      }
      WholePrefix(PostFirst(true), size - 1);
    }

    method WaitTurn(peer: nat, own: Buffer, arrivals: seq<Buffer>, ghost before: seq<Op>) returns (data: Buffer)
      requires Valid() && |arrivals| == size - 1 && peer < size
      requires calls == before + Prefix(PostFirst(true), size - 1, 3 * (size - 1) + PeersBelow(rank, peer))
      modifies this`calls
      ensures calls == before + Prefix(PostFirst(true), size - 1, 3 * (size - 1) + PeersBelow(rank, peer + 1))
      ensures data == Gathered(rank, own, arrivals)[peer]
    {
      GatheredAt(rank, own, arrivals, peer);
      data := own;
      if peer != rank {
        data := WaitOne(IndexOf(rank, peer), arrivals, before);
      }
    }

    /** The body of the two reduce-scatters for more than one rank: gather every rank's whole vector,
        then sum the `count` columns from `off` on, in a u64. */
    method GatherSegment(sendbuf: Buffer, recvbuf: array<byte>, off: nat, count: nat, arrivals: seq<Buffer>)
      requires Valid() && |arrivals| == size - 1 && Uniform(arrivals, |sendbuf|)
      requires off + count <= |sendbuf| && count <= recvbuf.Length
      modifies recvbuf, this
      ensures calls == old(calls) + Program(PostFirst(true), size - 1)
      ensures outbox == old(outbox) + Addressed(rank, Repeat(size, sendbuf))
      ensures recvbuf[..] == SumVector(Gathered(rank, sendbuf, arrivals), |sendbuf|)[off..off + count]
                + old(recvbuf[count..])
    {
      ghost var all := Gathered(rank, sendbuf, arrivals);
      var w := |sendbuf|;
      var gathered := GatherPostFirst(sendbuf, arrivals);
      SumColumns(gathered, all, size, w, rank, off, count, 0x100_0000_0000_0000, recvbuf);
    }

    method GatherPostFirst(sendbuf: Buffer, arrivals: seq<Buffer>) returns (gathered: array<byte>)
      requires Valid() && |arrivals| == size - 1 && Uniform(arrivals, |sendbuf|)
      modifies this
      ensures fresh(gathered) && Filled(gathered[..], |sendbuf|, Gathered(rank, sendbuf, arrivals), rank, size)
      ensures calls == old(calls) + Program(PostFirst(true), size - 1)
      ensures outbox == old(outbox) + Addressed(rank, Repeat(size, sendbuf))
    {
      ghost var all := Gathered(rank, sendbuf, arrivals);
      var w := |sendbuf|;
      gathered := new byte[size * w](_ => 0);
      FilledOwn(gathered[..], w, all, rank);
      CopyFromSlice(gathered, rank * w, sendbuf);
      PostAllReceives();
      SendAndAwait(Repeat(size, sendbuf), old(calls));
      WaitBlocks(gathered, w, sendbuf, arrivals, old(calls));
    }

    /** A single rank copies as much as count, send buffer and receive buffer allow. */
    method Reducescatter(sendbuf: Buffer, recvbuf: array<byte>, counts: seq<nat>, arrivals: seq<Buffer>)
      requires Valid() && |counts| == size && |arrivals| == size - 1
      requires size > 1 ==> |sendbuf| == Total(counts) && Uniform(arrivals, Total(counts))
      requires size > 1 ==> counts[rank] <= recvbuf.Length
      modifies recvbuf, this
      ensures calls == old(calls) + Program(PostFirst(true), size - 1)
      ensures |outbox| == |old(outbox)| + size - 1 && old(outbox) <= outbox
      ensures forall p: nat :: p < size && p != rank ==>
                outbox[|old(outbox)| + if p < rank then p else p - 1] == Outgoing(p, sendbuf)
      ensures size <= 1 ==> recvbuf[..] == Overwrite(old(recvbuf[..]), 0,
                FirstOf(sendbuf, counts[rank], recvbuf.Length))
      ensures size > 1 ==>
                var d, n := Displ(counts, rank), counts[rank];
                && d + n <= |sendbuf|
                && recvbuf[..] == SumVector(Gathered(rank, sendbuf, arrivals), |sendbuf|)[d..d + n] + old(recvbuf[n..])
    {
      if size <= 1 {
        CopySingle(sendbuf, recvbuf, counts[rank]);
        AllAddressed(rank, Repeat(size, sendbuf));
        return;
      }
      SegmentInside(counts, rank);
      var displs: seq<nat> := [];
      var d := 0;
      for i := 0 to |counts|
        invariant displs == Displs(counts)[..i] && d == Displ(counts, i)
      {
        displs := displs + [d];
        d := d + counts[i];
      }
      GatherSegment(sendbuf, recvbuf, displs[rank], counts[rank], arrivals);
      AllAddressed(rank, Repeat(size, sendbuf));
    }

    method CopySingle(sendbuf: Buffer, recvbuf: array<byte>, limit: nat)
      requires Valid() && size <= 1
      modifies recvbuf
      ensures recvbuf[..] == Overwrite(old(recvbuf[..]), 0, FirstOf(sendbuf, limit, recvbuf.Length))
      ensures Program(PostFirst(true), size - 1) == [] && Addressed(rank, Repeat(size, sendbuf)) == []
    {
      CopyFromSlice(recvbuf, 0, FirstOf(sendbuf, limit, recvbuf.Length));
    }

    method ReduceScatterBlock(sendbuf: Buffer, recvbuf: array<byte>, elemcount: nat, arrivals: seq<Buffer>)
      requires Valid() && |arrivals| == size - 1
      requires size > 1 ==> |sendbuf| == elemcount && Uniform(arrivals, elemcount) && elemcount / size <= recvbuf.Length
      modifies recvbuf, this
      ensures calls == old(calls) + Program(PostFirst(true), size - 1)
      ensures |outbox| == |old(outbox)| + size - 1 && old(outbox) <= outbox
      ensures forall p: nat :: p < size && p != rank ==>
                outbox[|old(outbox)| + if p < rank then p else p - 1] == Outgoing(p, sendbuf)
      ensures size <= 1 ==> recvbuf[..] == Overwrite(old(recvbuf[..]), 0, FirstOf(sendbuf, elemcount, recvbuf.Length))
      ensures size > 1 ==>
                var n, d := elemcount / size, rank * (elemcount / size);
                && d + n <= elemcount
                && recvbuf[..] == SumVector(Gathered(rank, sendbuf, arrivals), elemcount)[d..d + n] + old(recvbuf[n..])
    {
      ReduceScatterEqual(sendbuf, recvbuf, elemcount, arrivals);
      AllAddressed(rank, Repeat(size, sendbuf));
    }

    method ReduceScatterEqual(sendbuf: Buffer, recvbuf: array<byte>, elemcount: nat, arrivals: seq<Buffer>)
      requires Valid() && |arrivals| == size - 1
      requires size > 1 ==> |sendbuf| == elemcount && Uniform(arrivals, elemcount) && elemcount / size <= recvbuf.Length
      modifies recvbuf, this
      ensures calls == old(calls) + Program(PostFirst(true), size - 1)
      ensures outbox == old(outbox) + Addressed(rank, Repeat(size, sendbuf))
      ensures size <= 1 ==> recvbuf[..] == Overwrite(old(recvbuf[..]), 0, FirstOf(sendbuf, elemcount, recvbuf.Length))
      ensures size > 1 ==>
                var n, d := elemcount / size, rank * (elemcount / size);
                && d + n <= elemcount
                && recvbuf[..] == SumVector(Gathered(rank, sendbuf, arrivals), elemcount)[d..d + n] + old(recvbuf[n..])
    {
      if size <= 1 {
        CopySingle(sendbuf, recvbuf, elemcount);
          return;
      }
      EqualSegment(rank, size, elemcount);
      GatherSegment(sendbuf, recvbuf, rank * (elemcount / size), elemcount / size, arrivals);
    }
  }

  lemma EqualSegment(rank: nat, size: nat, elemcount: nat)
    requires rank < size
    ensures 0 <= rank * (elemcount / size) && rank * (elemcount / size) + elemcount / size <= elemcount
  {
    BlockBounds(rank, size, elemcount / size);
    assert size * (elemcount / size) <= elemcount;
  }

  /** As much of the data as a limit and the room allow. */
  function FirstOf(data: Buffer, limit: nat, room: nat): (b: Buffer)
    ensures b <= data && |b| <= limit && |b| <= room
    ensures |b| == |data| || |b| == limit || |b| == room
  {
    data[..Min(Min(limit, |data|), room)]
  }

  /** The first w bytes are the sums of all blocks' columns, if this rank computes them; the rest, or
      everything, is as before. */
  ghost predicate Summed(dst: Buffer, was: Buffer, all: seq<Buffer>, w: nat, computed: bool) {
    && |dst| == |was| && Uniform(all, w)
    && forall i :: 0 <= i < |dst| ==> dst[i] == if computed && i < w then SumByte(all, w, i) else was[i]
  }

  /** A single rank has no peers: nothing to call, send or match. */
  lemma Alone(rank: nat, sendbuf: Buffer, arrivals: seq<Buffer>)
    requires rank == 0 && arrivals == []
    ensures Gathered(rank, sendbuf, arrivals) == [sendbuf]
    ensures Program(Blocking, 0) == [] && Addressed(rank, Repeat(1, sendbuf)) == []
  {
  }

  method SumInto(recvbuf: array<byte>, gathered: array<byte>, size: nat, w: nat, ghost all: seq<Buffer>, ghost own: nat)
    requires gathered != recvbuf && Filled(gathered[..], w, all, own, size) && size == |all|
    modifies recvbuf
    ensures Summed(recvbuf[..], old(recvbuf[..]), all, w, true)
  {
    SumColumns(gathered, all, size, w, own, 0, Min(recvbuf.Length, w), 256, recvbuf);
  }

  method CopyOwn(recvbuf: array<byte>, sendbuf: Buffer)
    requires recvbuf.Length == |sendbuf|
    modifies recvbuf
    ensures Summed(recvbuf[..], old(recvbuf[..]), [sendbuf], |sendbuf|, true)
  {
    CopyFromSlice(recvbuf, 0, sendbuf);
    SumOfOne(sendbuf);
  }

  lemma ValueOfOne(value: nat)
    requires value < TWO_TO_64
    ensures Sum(Values([ToLe(value, 8)])) % TWO_TO_64 == value
  {
    U64RoundTrip(value);
    var ws := Values([ToLe(value, 8)]);
    assert ws[..0] == [] && Sum(ws) == Sum(ws[..0]) + ws[0];
  }

  function PieceAt(buf: Buffer, n: nat, w: nat, x: nat): (b: Buffer)
    requires |buf| == n * w && x < n
    ensures |b| == w
  {
    BlockBounds(x, n, w);
    buf[x * w..x * w + w]
  }

  function Pieces(buf: Buffer, n: nat, w: nat): (ps: seq<Buffer>)
    requires |buf| == n * w
    ensures |ps| == n && Uniform(ps, w)
  {
    seq(n, x requires 0 <= x < n => PieceAt(buf, n, w, x))
  }

  lemma PieceInBuffer(buf: Buffer, n: nat, w: nat, x: nat)
    requires x < n && 0 <= n * w <= |buf|
    ensures 0 <= x * w && x * w + w <= |buf| && Pieces(buf[..n * w], n, w)[x] == buf[x * w..x * w + w]
  {
    BlockBounds(x, n, w);
  }

  lemma SumOfOne(b: Buffer)
    ensures SumVector([b], |b|) == b
    ensures forall i :: 0 <= i < |b| ==> SumByte([b], |b|, i) == b[i]
  {
    forall i | 0 <= i < |b| ensures SumByte([b], |b|, i) == b[i] {
      var col := Column([b], |b|, i);
      assert Sum(col) == Sum(col[..0]) + col[0] && col[..0] == [];
    }
  }

  method SumU64(a: array<nat>) returns (total: nat)
    ensures total == Sum(a[..]) % TWO_TO_64
  {
    total := 0;
    for i := 0 to a.Length
      invariant total == Sum(a[..i]) % TWO_TO_64
    {
      assert a[..i + 1][..i] == a[..i];
      total := (total + a[i]) % TWO_TO_64;
    }
    assert a[..a.Length] == a[..];
  }

  /** Byte i of the result, for i < count, is the sum modulo 256 of column off + i of the blocks, with an
      accumulator that wraps at m * 256: m is 2^8 for the u16 of `reduce`, 2^56 for a u64. */
  method SumColumns(gathered: array<byte>, ghost all: seq<Buffer>, size: nat, w: nat, ghost own: nat, off: nat,
                    count: nat, m: nat, recvbuf: array<byte>)
    requires m > 0 && off + count <= w && count <= recvbuf.Length && gathered != recvbuf
    requires Filled(gathered[..], w, all, own, size) && size == |all|
    modifies recvbuf
    ensures forall i :: 0 <= i < count ==> recvbuf[i] == SumByte(all, w, off + i)
    ensures forall i :: count <= i < recvbuf.Length ==> recvbuf[i] == old(recvbuf[i])
  {
    for i := 0 to count
      invariant forall k :: 0 <= k < i ==> recvbuf[k] == SumByte(all, w, off + k)
      invariant forall k :: i <= k < recvbuf.Length ==> recvbuf[k] == old(recvbuf[k])
    {
      var sum := SumColumn(gathered, all, size, w, own, off + i, m);
      AccumulatorWidthIrrelevant(m, Column(all, w, off + i));
      recvbuf[i] := (sum % 256) as byte;
    }
  }

  method SumColumn(gathered: array<byte>, ghost all: seq<Buffer>, size: nat, w: nat, ghost own: nat, i: nat,
                   m: nat) returns (sum: nat)
    requires m > 0 && i < w
    requires Filled(gathered[..], w, all, own, size) && size == |all|
    ensures sum == Accumulate(m * 256, Column(all, w, i))
  {
    sum := 0;
    ghost var col := Column(all, w, i);
    for r := 0 to size
      invariant sum == Accumulate(m * 256, col[..r])
    {
      BlockBounds(r, size, w);
      assert BlockIs(gathered[..], r, w, all[r]);
      assert gathered[r * w + i] == gathered[..][r * w..r * w + w][i];
      assert col[..r + 1][..r] == col[..r];
      sum := (sum + gathered[r * w + i] as nat) % (m * 256);
    }
    assert col[..size] == col;
  }

  /** Copies the block of a peer into place; the rank's own is there already. */
  method StoreTurn(dst: array<byte>, w: nat, peer: nat, data: Buffer, ghost all: seq<Buffer>, own: nat)
    requires Filled(dst[..], w, all, own, peer) && peer < |all| && data == all[peer]
    modifies dst
    ensures Filled(dst[..], w, all, own, peer + 1)
    ensures dst[..][|all| * w..] == old(dst[..])[|all| * w..]
  {
    if peer == own {
      FilledStep(dst[..], w, all, own, peer);
    } else {
      StoreBlock(dst, w, peer, data, all, own);
    }
  }

  /** Copies one peer's block into place. */
  method StoreBlock(dst: array<byte>, w: nat, peer: nat, data: Buffer, ghost all: seq<Buffer>, ghost own: nat)
    requires Filled(dst[..], w, all, own, peer) && peer < |all| && data == all[peer]
    modifies dst
    ensures Filled(dst[..], w, all, own, peer + 1)
    ensures dst[..][|all| * w..] == old(dst[..])[|all| * w..]
  {
    FilledStep(dst[..], w, all, own, peer);
    CopyFromSlice(dst, peer * w, data);
  }

  /** Copies a slice into place. */
  method CopyFromSlice(dst: array<byte>, off: nat, src: Buffer)
    requires off + |src| <= dst.Length
    modifies dst
    ensures dst[..] == Overwrite(old(dst[..]), off, src)
  {
    forall i | 0 <= i < |src| {
      dst[off + i] := src[i];
    }
  }
}
