/** From what the ranks' calls append to their outboxes to what a run delivers and the calls return. */
module StageMessages {
  import opened Bytes
  import opened LittleEndian
  import opened Sums
  import opened Programs
  import opened Reductions
  import opened CollectiveBlocking
  import opened Network
  import opened AllToAll
  import opened AllToAllInvariant
  import opened AllToAllIsolation
  import opened RoundResults
  import OobAllgather
  import OobGuarantees

  /** Rank q sends these messages in stage k of the machine. */
  ghost predicate Carries(c: Config, k: nat, q: nat, sent: seq<Outgoing>) {
    && q < c.n && |sent| == c.n - 1
    && forall p: nat :: p < c.n && p != q ==> sent[if p < q then p else p - 1] == Outgoing(p, c.input(q, k, p))
  }

  /** In every run the message for p lies at the stage's place of the channel to p, once q is past the stage. */
  lemma OnTheChannel(c: Config, es: seq<Event>, q: nat, p: nat, k: nat, sent: seq<Outgoing>)
    requires c.Valid() && IsRun(c, es) && q < c.n && p < c.n && q != p && k < c.Stages()
    requires Stage(After(c, es), q) > k && Carries(c, k, q, sent)
    ensures var log, at := After(c, es).net.Log(Chan(q, p, c.tags[k])), Count(c.tags, c.tags[k], k);
            && at < |log| && log[at].src == q && log[at].stage == k
            && sent[if p < q then p else p - 1] == Outgoing(p, log[at].data)
  {
    InvRun(c, es);
    var s := After(c, es);
    assert LogOk(c, s, q, p, c.tags[k]);
    ExpectedAt(c, q, p, c.tags[k], k, SentUpTo(c, s, q, p));
    assert Outgoing(p, c.input(q, k, p)) == sent[if p < q then p else p - 1];
  }

  /** Every rank's call appends one message for each peer, all with its own buffer. */
  ghost predicate EachSends(n: nat, sent: seq<seq<Outgoing>>, buffers: seq<Buffer>) {
    && |sent| == |buffers| == n
    && forall q: nat, p: nat :: q < n && p < n && p != q ==>
         |sent[q]| == n - 1 && sent[q][if p < q then p else p - 1] == Outgoing(p, buffers[q])
  }

  lemma SendersContribute(c: Config, k: nat, sent: seq<seq<Outgoing>>, buffers: seq<Buffer>, w: nat)
    requires c.Valid() && EachSends(c.n, sent, buffers) && Uniform(buffers, w)
    requires forall q: nat :: q < c.n ==> Carries(c, k, q, sent[q])
    ensures Contributes(c, k, buffers, w)
  {
    forall q: nat, p: nat | q < c.n && p < c.n && p != q ensures c.input(q, k, p) == buffers[q] {
      assert Carries(c, k, q, sent[q]);
      assert Outgoing(p, c.input(q, k, p)) == Outgoing(p, buffers[q]);
    }
  }

  /** `reduce`, the allreduce fallback and the reduce-scatters: what a rank sums, with the messages its
      receives match in a run that carries what all ranks sent, is the sum of all ranks' buffers. */
  lemma ReductionInRun(c: Config, es: seq<Event>, r: nat, k: nat, sent: seq<seq<Outgoing>>, buffers: seq<Buffer>,
                       w: nat)
    requires c.Valid() && IsRun(c, es) && r < c.n
    requires k < Stage(After(c, es), r) && k < c.Stages() && Isolated(c, k)
    requires EachSends(c.n, sent, buffers) && Uniform(buffers, w)
    requires forall q: nat :: q < c.n ==> Carries(c, k, q, sent[q])
    ensures |Arrivals(c, es, r, k)| == c.n - 1 && Uniform(Arrivals(c, es, r, k), w)
    ensures SumVector(Gathered(r, buffers[r], Arrivals(c, es, r, k)), w) == SumVector(buffers, w)
  {
    SendersContribute(c, k, sent, buffers, w);
    ReductionIsGlobal(c, es, r, k, buffers, w);
  }

  /** `allreduce_u64`: every rank returns the sum of all ranks' values, modulo 2^64. */
  lemma AllreduceU64InRun(c: Config, es: seq<Event>, r: nat, k: nat, sent: seq<seq<Outgoing>>, values: seq<int>)
    requires c.Valid() && IsRun(c, es) && r < c.n
    requires k < Stage(After(c, es), r) && k < c.Stages() && Isolated(c, k)
    requires |values| == c.n && forall q :: 0 <= q < c.n ==> 0 <= values[q] < TWO_TO_64
    requires EachSends(c.n, sent, seq(c.n, q requires 0 <= q < c.n => ToLe(values[q], 8)))
    requires forall q: nat :: q < c.n ==> Carries(c, k, q, sent[q])
    ensures |Arrivals(c, es, r, k)| == c.n - 1 && Uniform(Arrivals(c, es, r, k), 8)
    ensures Sum(Values(Gathered(r, ToLe(values[r], 8), Arrivals(c, es, r, k)))) == Sum(values)
  {
    var buffers := seq(c.n, q requires 0 <= q < c.n => ToLe(values[q], 8));
    SendersContribute(c, k, sent, buffers, 8);
    ReductionIsGlobal(c, es, r, k, buffers, 8);
    forall q | 0 <= q < c.n ensures FromLe(buffers[q]) == values[q] { U64RoundTrip(values[q]); }
    assert Values(buffers) == values;
  }

  /** `allgather`: what a rank gathers is all ranks' buffers, in some order. */
  lemma AllgatherInRun(c: Config, es: seq<Event>, r: nat, k: nat, sent: seq<seq<Outgoing>>, buffers: seq<Buffer>,
                       w: nat)
    requires c.Valid() && IsRun(c, es) && r < c.n
    requires k < Stage(After(c, es), r) && k < c.Stages() && Isolated(c, k)
    requires EachSends(c.n, sent, buffers) && Uniform(buffers, w)
    requires forall q: nat :: q < c.n ==> Carries(c, k, q, sent[q])
    ensures |Arrivals(c, es, r, k)| == c.n - 1
    ensures multiset(Gathered(r, buffers[r], Arrivals(c, es, r, k))) == multiset(buffers)
  {
    SendersContribute(c, k, sent, buffers, w);
    GatheredIsPermutation(c, es, r, k, buffers, w);
  }

  /** `alltoall`: what rank r matches is block r of every other rank's send buffer, in some order. */
  lemma AlltoallInRun(c: Config, es: seq<Event>, r: nat, k: nat, sent: seq<seq<Outgoing>>, sendbufs: seq<Buffer>,
                      w: nat, off: nat)
    requires c.Valid() && IsRun(c, es) && r < c.n && off == r * w
    requires k < Stage(After(c, es), r) && k < c.Stages() && Isolated(c, k)
    requires |sent| == |sendbufs| == c.n
    requires forall q: nat :: q < c.n && q != r ==>
               && off + w <= |sendbufs[q]| && |sent[q]| == c.n - 1
               && sent[q][if r < q then r else r - 1] == Outgoing(r, sendbufs[q][off..off + w])
    requires forall q: nat :: q < c.n ==> Carries(c, k, q, sent[q])
    ensures multiset(Arrivals(c, es, r, k)) ==
              multiset(seq(c.n - 1, j requires 0 <= j < c.n - 1 => sendbufs[PeerAt(r, j)][off..off + w]))
  {
    var blocks := seq(c.n - 1, j requires 0 <= j < c.n - 1 => sendbufs[PeerAt(r, j)][off..off + w]);
    forall j: nat | j < c.n - 1 ensures blocks[j] == c.input(PeerAt(r, j), k, r) {
      PieceCarried(c, k, PeerAt(r, j), r, sent[PeerAt(r, j)], sendbufs[PeerAt(r, j)][off..off + w]);
    }
    ArrivalsAre(c, es, r, k, blocks);
  }

  lemma ArrivalsAre(c: Config, es: seq<Event>, r: nat, k: nat, blocks: seq<Buffer>)
    requires c.Valid() && IsRun(c, es) && r < c.n
    requires k < Stage(After(c, es), r) && k < c.Stages() && Isolated(c, k)
    requires |blocks| == c.n - 1 && forall j: nat :: j < c.n - 1 ==> blocks[j] == c.input(PeerAt(r, j), k, r)
    ensures multiset(Arrivals(c, es, r, k)) == multiset(blocks)
  {
    ArrivalsConserved(c, es, r, k);
    assert PeerData(c, r, k) == blocks;
  }

  lemma PieceCarried(c: Config, k: nat, q: nat, p: nat, sent: seq<Outgoing>, data: Buffer)
    requires Carries(c, k, q, sent) && p < c.n && p != q && sent[if p < q then p else p - 1] == Outgoing(p, data)
    ensures c.input(q, k, p) == data
  {
    assert sent[if p < q then p else p - 1] == Outgoing(p, c.input(q, k, p));
  }

  /** The out-of-band allgather: with the messages of round k the callback's buffer is all ranks' round-k
      sources in rank order. */
  lemma OobInRun(c: OobAllgather.Config, es: seq<OobAllgather.Event>, r: nat, k: nat, arrivals: seq<Buffer>)
    requires c.n >= 1 && OobAllgather.IsRun(c, es) && r < c.n && k < |OobAllgather.After(c, es).ranks[r].done|
    requires |arrivals| == c.n - 1
    requires var slots := OobAllgather.After(c, es).ranks[r].done[k];
             forall j :: 0 <= j < c.n - 1 && j < |slots| && slots[j].Full? ==> arrivals[j] == slots[j].msg.data
    ensures Gathered(r, c.input(r, k), arrivals) == seq(c.n, p requires 0 <= p => c.input(p, k))
  {
    var g := Gathered(r, c.input(r, k), arrivals);
    forall p: nat | p < c.n ensures g[p] == c.input(p, k) {
      GatheredAt(r, c.input(r, k), arrivals, p);
      if p != r {
        PeerIndexInverse(c.n, r, 0, p);
        OobGuarantees.RoundsAreExact(c, es, r, k, IndexOf(r, p));
      }
    }
  }
}
