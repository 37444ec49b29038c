/** Request handles of the non-blocking collectives: construction, `test` and `wait`. */
module NonBlockingRequests {
  import opened Wrappers
  import opened Bytes
  import opened Programs
  import opened CollectiveBlocking
  import RootDirected

  /** Requests not yet finished. */
  function Outstanding(reqs: seq<Option<nat>>): nat {
    if reqs == [] then 0
    else Outstanding(reqs[..|reqs| - 1]) + if reqs[|reqs| - 1].Some? then 1 else 0
  }

  lemma {:induction false} OutstandingTake(reqs: seq<Option<nat>>, i: nat)
    requires i < |reqs| && reqs[i].Some?
    ensures Outstanding(reqs[i := None]) == Outstanding(reqs) - 1
    ensures Outstanding(reqs) > 0
  {
    var last := |reqs| - 1;
    if i == last {
      assert reqs[i := None][..last] == reqs[..last];
    } else {
      assert reqs[i := None][..last] == reqs[..last][i := None];
      OutstandingTake(reqs[..last], i);
    }
  }

  lemma {:induction false} NoneOutstanding(reqs: seq<Option<nat>>)
    ensures Outstanding(reqs) == 0 <==> forall i :: 0 <= i < |reqs| ==> reqs[i].None?
  {
    if reqs != [] {
      NoneOutstanding(reqs[..|reqs| - 1]);
    }
  }

  /** One pass of `test`: the finished requests are taken. */
  function Swept(reqs: seq<Option<nat>>, finished: set<nat>): (s: seq<Option<nat>>)
  {
    seq(|reqs|, i requires 0 <= i < |reqs| => if reqs[i].Some? && reqs[i].value in finished then None else reqs[i])
  }

  predicate Seen(polls: seq<set<nat>>, used: nat, id: nat) {
    exists k :: 0 <= k < used && k < |polls| && id in polls[k]
  }

  /** What `used` polls leave. */
  predicate LeftAfter(was: seq<Option<nat>>, reqs: seq<Option<nat>>, polls: seq<set<nat>>, used: nat) {
    && |reqs| == |was|
    && forall i :: 0 <= i < |was| ==>
         reqs[i] == if was[i].Some? && Seen(polls, used, was[i].value) then None else was[i]
  }

  lemma SweepOnce(was: seq<Option<nat>>, reqs: seq<Option<nat>>, polls: seq<set<nat>>, used: nat)
    requires LeftAfter(was, reqs, polls, used) && used < |polls|
    ensures LeftAfter(was, Swept(reqs, polls[used]), polls, used + 1)
  {
    forall id: nat ensures Seen(polls, used + 1, id) <==> Seen(polls, used, id) || id in polls[used] {
      if Seen(polls, used + 1, id) && !Seen(polls, used, id) {
        var k :| 0 <= k < used + 1 && k < |polls| && id in polls[k];
      }
    }
  }

  class OsURequest {
    var recvReqs: array<Option<nat>>
    var hasWorker: bool
    var remaining: nat

    ghost predicate Valid()
      reads this, recvReqs
    {
      remaining == Outstanding(recvReqs[..]) && (!hasWorker ==> remaining == 0)
    }

    /** The handle with a null worker. */
    constructor Complete()
      ensures Valid() && fresh(recvReqs) && recvReqs.Length == 0 && !hasWorker && remaining == 0
    {
      recvReqs, hasWorker, remaining := new Option<nat>[0], false, 0;
    }

    constructor Posted(recvReqs: array<Option<nat>>, remaining: nat)
      requires remaining == Outstanding(recvReqs[..])
      ensures Valid() && this.recvReqs == recvReqs && hasWorker && this.remaining == remaining
    {
      this.recvReqs, this.hasWorker, this.remaining := recvReqs, true, remaining;
    }

    /** `finished` is what `check_finished` answers now. `remaining` never underflows. */
    method Test(finished: set<nat>) returns (done: bool)
      requires Valid()
      modifies this, recvReqs
      ensures Valid() && recvReqs == old(recvReqs) && hasWorker == old(hasWorker)
      ensures forall i :: 0 <= i < recvReqs.Length ==>
                recvReqs[i] == if old(recvReqs[i]).Some? && old(recvReqs[i]).value in finished then None
                               else old(recvReqs[i])
      ensures done <==> forall i :: 0 <= i < recvReqs.Length ==> recvReqs[i].None?
      ensures old(remaining) == 0 ==> done && recvReqs[..] == old(recvReqs[..])
    {
      NoneOutstanding(recvReqs[..]);
      if !hasWorker {
        return remaining == 0;
      }
      for i := 0 to recvReqs.Length
        invariant recvReqs == old(recvReqs) && hasWorker == old(hasWorker)
        invariant forall x :: 0 <= x < recvReqs.Length ==>
                    recvReqs[x] == if x < i then Swept(old(recvReqs[..]), finished)[x] else old(recvReqs[..])[x]
        invariant remaining == Outstanding(recvReqs[..])
      {
        if recvReqs[i].Some? && recvReqs[i].value in finished {
          OutstandingTake(recvReqs[..], i);
          ghost var before := recvReqs[..];
          recvReqs[i] := None;
          assert recvReqs[..] == before[i := None];
          remaining := remaining - 1;
        }
      }
      NoneOutstanding(recvReqs[..]);
      return remaining == 0;
    }

    /** Tests again and again over the polls the transport answers, in which every outstanding request is
        eventually reported. Returns at the first poll by which all of them have been, never earlier. */
    method Wait(polls: seq<set<nat>>) returns (used: nat)
      requires Valid() && polls != []
      requires forall i :: 0 <= i < recvReqs.Length && recvReqs[i].Some? ==>
                 exists k :: 0 <= k < |polls| && recvReqs[i].value in polls[k]
      modifies this, recvReqs
      ensures Valid() && remaining == 0 && recvReqs == old(recvReqs)
      ensures 1 <= used <= |polls|
      ensures forall i :: 0 <= i < recvReqs.Length && old(recvReqs[i]).Some? ==>
                exists k :: 0 <= k < used && old(recvReqs[i]).value in polls[k]
      ensures used > 1 ==>
                exists i | 0 <= i < recvReqs.Length :: old(recvReqs[i]).Some? &&
                  forall k :: 0 <= k < used - 1 ==> old(recvReqs[i]).value !in polls[k]
    {
      ghost var was := recvReqs[..];
      used := 0;
      var done := false;
      while !done
        invariant Valid() && recvReqs == old(recvReqs) && used <= |polls| && (used == 0 ==> !done)
        invariant LeftAfter(was, recvReqs[..], polls, used)
        invariant done <==> used > 0 && forall i :: 0 <= i < recvReqs.Length ==> recvReqs[i].None?
        invariant used > 1 ==> exists i :: 0 <= i < |was| && was[i].Some? && !Seen(polls, used - 1, was[i].value)
        decreases |polls| - used, !done
      {
        if used == |polls| {
          assert false;
        }
        SweepOnce(was, recvReqs[..], polls, used);
        if used > 0 {
          var i :| 0 <= i < recvReqs.Length && recvReqs[i].Some?;
          assert was[i].Some? && !Seen(polls, used, was[i].value);
        }
        done := Test(polls[used]);
        used := used + 1;
      }
      NoneOutstanding(recvReqs[..]);
    }
  }

  lemma SameSends(m: nat)
    ensures Prefix(Blocking, m, m) == Prefix(NonBlocking, m, m)
  {
  }

  /** The receive loop: a request for every peer, none for the rank itself. */
  function Slots(rank: nat, upTo: nat): (s: seq<Option<nat>>)
  {
    seq(upTo, peer requires 0 <= peer => if peer == rank then None else Some(peer))
  }

  lemma {:induction false} SlotsOutstanding(rank: nat, upTo: nat)
    ensures Outstanding(Slots(rank, upTo)) == if rank < upTo then upTo - 1 else upTo
  {
    if upTo > 0 {
      assert Slots(rank, upTo)[..upTo - 1] == Slots(rank, upTo - 1);
      SlotsOutstanding(rank, upTo - 1);
    }
  }

  method PostReceives(ctx: OsUContext, ghost before: seq<Op>) returns (reqs: array<Option<nat>>, remaining: nat)
    requires ctx.Valid() && ctx.calls == before + Prefix(NonBlocking, ctx.size - 1, ctx.size - 1)
    modifies ctx`calls
    ensures fresh(reqs) && reqs[..] == Slots(ctx.rank, ctx.size)
    ensures remaining == Outstanding(reqs[..]) == ctx.size - 1
    ensures ctx.calls == before + Prefix(NonBlocking, ctx.size - 1, 2 * (ctx.size - 1))
  {
    reqs := new Option<nat>[ctx.size](_ => None);
    remaining := 0;
    for peer := 0 to ctx.size
      invariant fresh(reqs) && reqs.Length == ctx.size && remaining == PeersBelow(ctx.rank, peer)
      invariant forall x :: 0 <= x < ctx.size ==> reqs[x] == if x < peer then Slots(ctx.rank, ctx.size)[x] else None
      invariant ctx.calls == before + Prefix(NonBlocking, ctx.size - 1, ctx.size - 1 + PeersBelow(ctx.rank, peer))
    {
      if peer != ctx.rank {
        PostSlot(ctx, IndexOf(ctx.rank, peer), before);
        reqs[peer] := Some(peer);
        remaining := remaining + 1;
      }
    }
    SlotsOutstanding(ctx.rank, ctx.size);
    assert reqs[..] == Slots(ctx.rank, ctx.size);
  }

  method PostSlot(ctx: OsUContext, slot: nat, ghost before: seq<Op>)
    requires ctx.Valid() && slot < ctx.size - 1
    requires ctx.calls == before + Prefix(NonBlocking, ctx.size - 1, ctx.size - 1 + slot)
    modifies ctx`calls
    ensures ctx.calls == before + Prefix(NonBlocking, ctx.size - 1, ctx.size - 1 + slot + 1)
  {
    PrefixStep(NonBlocking, ctx.size - 1, ctx.size - 1 + slot);
    ctx.calls := ctx.calls + [Post(slot)];
  }

  /** `ibarrier`, and with its own pieces every all-to-all `i*` method: send to every peer, post a
      receive for every peer. On one rank the handle has no worker. */
  method PostExchange(ctx: OsUContext, pieces: seq<Buffer>) returns (req: OsURequest)
    requires ctx.Valid() && |pieces| == ctx.size
    modifies ctx
    ensures fresh(req) && fresh(req.recvReqs) && req.Valid()
    ensures req.remaining == ctx.size - 1 && (req.hasWorker <==> ctx.size > 1)
    ensures req.recvReqs.Length == if ctx.size > 1 then ctx.size else 0
    ensures forall p: nat :: p < req.recvReqs.Length ==> req.recvReqs[p] == if p == ctx.rank then None else Some(p)
    ensures ctx.calls == old(ctx.calls) + Program(NonBlocking, ctx.size - 1)[..2 * (ctx.size - 1)]
    ensures |ctx.outbox| == |old(ctx.outbox)| + ctx.size - 1 && old(ctx.outbox) <= ctx.outbox
    ensures forall p: nat :: p < ctx.size && p != ctx.rank ==>
              ctx.outbox[|old(ctx.outbox)| + if p < ctx.rank then p else p - 1] == Outgoing(p, pieces[p])
  {
    AllAddressed(ctx.rank, pieces);
    PrefixOfProgram(NonBlocking, ctx.size - 1, 2 * (ctx.size - 1));
    WholePrefix(NonBlocking, ctx.size - 1);
    if ctx.size <= 1 {
      req := new OsURequest.Complete();
      return;
    }
    SameSends(ctx.size - 1);
    ctx.SendToPeers(pieces);
    var reqs, remaining := PostReceives(ctx, old(ctx.calls));
    req := new OsURequest.Posted(reqs, remaining);
  }

  method IBarrier(ctx: OsUContext) returns (req: OsURequest)
    requires ctx.Valid()
    modifies ctx
    ensures fresh(req) && fresh(req.recvReqs) && req.Valid()
    ensures req.remaining == ctx.size - 1 && (req.hasWorker <==> ctx.size > 1)
    ensures req.recvReqs.Length == if ctx.size > 1 then ctx.size else 0
    ensures forall p: nat :: p < req.recvReqs.Length ==> req.recvReqs[p] == if p == ctx.rank then None else Some(p)
    ensures ctx.calls == old(ctx.calls) + Program(NonBlocking, ctx.size - 1)[..2 * (ctx.size - 1)]
    ensures |ctx.outbox| == |old(ctx.outbox)| + ctx.size - 1 && old(ctx.outbox) <= ctx.outbox
    ensures var data := [(ctx.rank % 256) as byte];
            forall p: nat :: p < ctx.size && p != ctx.rank ==>
              ctx.outbox[|old(ctx.outbox)| + if p < ctx.rank then p else p - 1] == Outgoing(p, data)
  {
    var data := [(ctx.rank % 256) as byte];
    var pieces := Repeat(ctx.size, data);
    req := PostExchange(ctx, pieces);
    forall p: nat | p < ctx.size && p != ctx.rank
      ensures ctx.outbox[|old(ctx.outbox)| + if p < ctx.rank then p else p - 1] == Outgoing(p, data)
    {
      assert pieces[p] == data;
    }
  }

  /** The handle of a receiver of `ibcast` or `iscatter`: one posted request. */
  method PostOne(ctx: OsUContext) returns (req: OsURequest)
    requires ctx.Valid()
    modifies ctx`calls
    ensures fresh(req) && fresh(req.recvReqs) && req.Valid() && req.remaining == 1 && req.hasWorker
    ensures ctx.calls == old(ctx.calls) + [Post(0)]
  {
    ctx.calls := ctx.calls + [Post(0)];
    var reqs := new Option<nat>[1](_ => Some(0));
    assert reqs[..] == [Some(0)] && reqs[..][..0] == [];
    req := new OsURequest.Posted(reqs, 1);
  }

  /** `ibcast`: a receiver posts one request; the root sends to everyone and, like a single rank, gets the
      handle with a null worker. */
  method IBcast(ctx: OsUContext, sendbuf: Buffer, root: nat) returns (req: OsURequest)
    requires ctx.Valid()
    modifies ctx
    ensures fresh(req) && fresh(req.recvReqs) && req.Valid()
    ensures req.remaining == if ctx.size > 1 && ctx.rank != root then 1 else 0
    ensures req.hasWorker <==> ctx.size > 1 && ctx.rank != root
    ensures ctx.rank != root ==>
              ctx.outbox == old(ctx.outbox) && ctx.calls == old(ctx.calls) + if ctx.size > 1 then [Post(0)] else []
    ensures ctx.rank == root ==>
              && |ctx.outbox| == |old(ctx.outbox)| + ctx.size - 1 && old(ctx.outbox) <= ctx.outbox
              && ctx.calls == old(ctx.calls) + Program(Blocking, ctx.size - 1)[..ctx.size - 1]
    ensures ctx.rank == root ==>
              forall p: nat :: p < ctx.size && p != root ==>
                ctx.outbox[|old(ctx.outbox)| + if p < root then p else p - 1] == Outgoing(p, sendbuf)
  {
    AllAddressed(ctx.rank, Repeat(ctx.size, sendbuf));
    PrefixOfProgram(Blocking, ctx.size - 1, ctx.size - 1);
    if ctx.size <= 1 {
      req := new OsURequest.Complete();
    } else if ctx.rank == root {
      ctx.SendToPeers(Repeat(ctx.size, sendbuf));
      req := new OsURequest.Complete();
    } else {
      req := PostOne(ctx);
    }
  }

  /** `iscatter`: the same, but the root sends each peer its chunk and skips those out of bounds. */
  method IScatter(ctx: OsUContext, sendbuf: Buffer, w: nat, root: nat) returns (req: OsURequest)
    requires ctx.Valid()
    modifies ctx
    ensures fresh(req) && fresh(req.recvReqs) && req.Valid()
    ensures req.remaining == if ctx.size > 1 && ctx.rank != root then 1 else 0
    ensures req.hasWorker <==> ctx.size > 1 && ctx.rank != root
    ensures ctx.outbox == old(ctx.outbox)
              + if ctx.size > 1 && ctx.rank == root then RootDirected.Chunks(ctx.rank, sendbuf, w, ctx.size) else []
    ensures ctx.size > 1 && ctx.rank != root ==> ctx.calls == old(ctx.calls) + [Post(0)]
    ensures ctx.size > 1 && ctx.rank == root ==>
              ctx.calls == old(ctx.calls) + RootDirected.ChunkCalls(root, sendbuf, w, ctx.size)
  {
    if ctx.size <= 1 {
      req := new OsURequest.Complete();
    } else if ctx.rank == root {
      RootDirected.SendChunks(ctx, sendbuf, w);
      req := new OsURequest.Complete();
    } else {
      req := PostOne(ctx);
    }
  }

  /** `igather` and `igatherv`: the root posts one receive per peer, the others send and are done. */
  method PostToRoot(ctx: OsUContext, data: Buffer, root: nat) returns (req: OsURequest)
    requires ctx.Valid() && root < ctx.size
    modifies ctx
    ensures fresh(req) && fresh(req.recvReqs) && req.Valid()
    ensures req.remaining == if ctx.rank == root then ctx.size - 1 else 0
    ensures req.hasWorker <==> ctx.size > 1 && ctx.rank == root
    ensures req.recvReqs.Length == if ctx.size > 1 && ctx.rank == root then ctx.size else 0
    ensures forall p: nat :: p < req.recvReqs.Length ==> req.recvReqs[p] == if p == root then None else Some(p)
    ensures ctx.outbox == old(ctx.outbox) + if ctx.rank == root then [] else [Outgoing(root, data)]
    ensures ctx.rank != root ==> ctx.calls == old(ctx.calls) + [Send(if root < ctx.rank then root else root - 1)]
    ensures ctx.rank == root ==>
              |ctx.calls| == |old(ctx.calls)| + ctx.size - 1 && old(ctx.calls) <= ctx.calls
    ensures ctx.rank == root ==>
              forall j: nat :: j < ctx.size - 1 ==> ctx.calls[|old(ctx.calls)| + j] == Post(j)
  {
    if ctx.size <= 1 {
      req := new OsURequest.Complete();
    } else if ctx.rank != root {
      ctx.TagSend(root, data);
      req := new OsURequest.Complete();
    } else {
      var reqs := new Option<nat>[ctx.size](_ => None);
      var remaining := 0;
      for peer := 0 to ctx.size
        invariant remaining == PeersBelow(ctx.rank, peer) && ctx.outbox == old(ctx.outbox)
        invariant |ctx.calls| == |old(ctx.calls)| + remaining && old(ctx.calls) <= ctx.calls
        invariant forall j: nat :: j < remaining ==> ctx.calls[|old(ctx.calls)| + j] == Post(j)
        invariant fresh(reqs) && forall x :: 0 <= x < ctx.size ==>
                    reqs[x] == if x < peer then Slots(ctx.rank, ctx.size)[x] else None
      {
        if peer != ctx.rank {
          ctx.calls := ctx.calls + [Post(IndexOf(ctx.rank, peer))];
          reqs[peer] := Some(peer);
          remaining := remaining + 1;
        }
      }
      SlotsOutstanding(ctx.rank, ctx.size);
      assert reqs[..] == Slots(ctx.rank, ctx.size);
      req := new OsURequest.Posted(reqs, remaining);
    }
  }
}
