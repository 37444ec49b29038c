/** What the collectives compute once the network is accounted for: an isolated stage of any run,
    seen through the rank-local code. */
module RoundResults {
  import opened Bytes
  import opened LittleEndian
  import opened Sums
  import opened Permutations
  import opened Programs
  import opened Blocks
  import opened Displacements
  import opened Reductions
  import opened AllToAll
  import opened AllToAllIsolation
  import opened CollectiveBlocking

  /** The buffers the receives of rank r delivered in stage k, in the order they matched. */
  function Arrivals(c: Config, es: seq<Event>, r: nat, k: nat): (bs: seq<Buffer>)
    requires c.n >= 1 && IsRun(c, es) && r < c.n && k < Stage(After(c, es), r)
  {
    Map((m: Msg) => m.data, After(c, es).ranks[r].done[k])
  }

  function PeerData(c: Config, r: nat, k: nat): (bs: seq<Buffer>)
    requires c.n >= 1
  {
    seq(c.n - 1, j requires 0 <= j => c.input(PeerAt(r, j), k, r))
  }

  /** An isolated stage delivers, as a multiset, exactly what the peers addressed to r in that stage;
      with two ranks, exactly the one peer's buffer. */
  lemma ArrivalsConserved(c: Config, es: seq<Event>, r: nat, k: nat)
    requires c.Valid() && IsRun(c, es) && r < c.n
    requires k < Stage(After(c, es), r) && k < c.Stages() && Isolated(c, k)
    ensures multiset(Arrivals(c, es, r, k)) == multiset(PeerData(c, r, k))
    ensures |Arrivals(c, es, r, k)| == c.n - 1
    ensures c.n == 2 ==> Arrivals(c, es, r, k) == [c.input(1 - r, k, r)]
  {
    var f := (m: Msg) => m.data;
    IsolatedStageIsExact(c, es, r, k);
    MapPermutation(f, After(c, es).ranks[r].done[k], PeerMessages(c, r, k));
    assert Map(f, PeerMessages(c, r, k)) == PeerData(c, r, k);
    SameSize(Arrivals(c, es, r, k), PeerData(c, r, k));
    if c.n == 2 {
      assert PeerAt(r, 0) == 1 - r;
      assert PeerData(c, r, k) == [c.input(1 - r, k, r)];
    }
  }

  lemma SameSize<T>(a: seq<T>, b: seq<T>)
    requires multiset(a) == multiset(b)
    ensures |a| == |b| && (|a| == 1 ==> a == b)
  {
    assert |a| == |multiset(a)| == |multiset(b)| == |b|;
    if |a| == 1 {
      assert a[0] in multiset(b);
    }
  }

  /** Stage k is a reduction of one w-byte contribution per rank. */
  ghost predicate Contributes(c: Config, k: nat, contribution: seq<Buffer>, w: nat) {
    && |contribution| == c.n && Uniform(contribution, w)
    && forall q: nat, p: nat {:trigger c.input(q, k, p)} ::
         q < c.n && p < c.n && p != q ==> c.input(q, k, p) == contribution[q]
  }

  lemma PeersAndOwn(c: Config, k: nat, r: nat, contribution: seq<Buffer>, w: nat)
    requires c.Valid() && r < c.n && Contributes(c, k, contribution, w)
    ensures Gathered(r, contribution[r], PeerData(c, r, k)) == contribution
  {
    var g := Gathered(r, contribution[r], PeerData(c, r, k));
    forall x | 0 <= x < c.n ensures g[x] == contribution[x] {
      GatheredAt(r, contribution[r], PeerData(c, r, k), x);
      if x != r {
        PeerIndexInverse(c.n, r, 0, x);
        assert c.input(x, k, r) == contribution[x];
      }
    }
  }

  lemma ArrivalsSumGlobally(rank: nat, own: Buffer, arrivals: seq<Buffer>, others: seq<Buffer>, all: seq<Buffer>,
                            w: nat)
    requires rank <= |others| && Gathered(rank, own, others) == all && Uniform(all, w)
    requires multiset(arrivals) == multiset(others)
    ensures |arrivals| == |others| && Uniform(arrivals, w) && |own| == w
    ensures SumVector(Gathered(rank, own, arrivals), w) == SumVector(all, w)
    ensures Sum(Values(Gathered(rank, own, arrivals))) == Sum(Values(all))
  {
    GatheredPermutation(rank, own, others, arrivals);
    GatheredAt(rank, own, others, rank);
    var g := Gathered(rank, own, arrivals);
    OrderDoesNotMatter(all, g, w);
    forall i | 0 <= i < |arrivals| ensures |arrivals[i]| == w {
      GatheredAt(rank, own, arrivals, if i < rank then i else i + 1);
    }
    var f := (b: Buffer) => FromLe(b) as int;
    MapPermutation(f, all, g);
    assert Values(all) == Map(f, all) && Values(g) == Map(f, g);
    SumPermutation(Values(all), Values(g));
  }

  /** `reduce`, the allreduce fallback and both reduce-scatters work on a permutation of all ranks'
      contributions, so in every run they sum exactly this iteration's contributions, modulo 256;
      and so does the u64 reduction on the 64-bit values. */
  lemma ReductionIsGlobal(c: Config, es: seq<Event>, r: nat, k: nat, contribution: seq<Buffer>, w: nat)
    requires c.Valid() && IsRun(c, es) && r < c.n
    requires k < Stage(After(c, es), r) && k < c.Stages() && Isolated(c, k)
    requires Contributes(c, k, contribution, w)
    ensures |Arrivals(c, es, r, k)| == c.n - 1 && Uniform(Arrivals(c, es, r, k), w)
    ensures SumVector(Gathered(r, contribution[r], Arrivals(c, es, r, k)), w) == SumVector(contribution, w)
    ensures Sum(Values(Gathered(r, contribution[r], Arrivals(c, es, r, k)))) == Sum(Values(contribution))
  {
    ArrivalsConserved(c, es, r, k);
    PeersAndOwn(c, k, r, contribution, w);
    ArrivalsSumGlobally(r, contribution[r], Arrivals(c, es, r, k), PeerData(c, r, k), contribution, w);
  }

  /** Every rank has gathered all the contributions, in some order. */
  ghost predicate EachPermutes(gathered: seq<seq<Buffer>>, contribution: seq<Buffer>, w: nat) {
    forall r :: 0 <= r < |gathered| ==> Uniform(gathered[r], w) && multiset(gathered[r]) == multiset(contribution)
  }

  lemma EachOutput(gathered: seq<seq<Buffer>>, contribution: seq<Buffer>, w: nat, counts: seq<nat>, r: nat)
    requires EachPermutes(gathered, contribution, w) && |gathered| == |counts| && Total(counts) <= w
              && Uniform(contribution, w)
    requires r < |counts|
    ensures Displ(counts, r) <= Displ(counts, r + 1) <= w
    ensures Output(gathered, w, counts, r) == SumVector(contribution, w)[Displ(counts, r)..Displ(counts, r + 1)]
  {
    OrderDoesNotMatter(contribution, gathered[r], w);
    SegmentInside(counts, r);
  }

  /** What `reducescatter` leaves at each rank: rank r's segment of the sum over the blocks in the order
      they reached it. */
  function Outputs(gathered: seq<seq<Buffer>>, w: nat, counts: seq<nat>): (outs: seq<Buffer>)
    requires |gathered| == |counts| && Total(counts) <= w
    requires forall r :: 0 <= r < |gathered| ==> Uniform(gathered[r], w)
  {
    seq(|counts|, r requires 0 <= r < |counts| => Output(gathered, w, counts, r))
  }

  function Output(gathered: seq<seq<Buffer>>, w: nat, counts: seq<nat>, r: nat): Buffer
    requires |gathered| == |counts| && Total(counts) <= w && r < |counts| && Uniform(gathered[r], w)
  {
    SegmentInside(counts, r);
    SumVector(gathered[r], w)[Displ(counts, r)..Displ(counts, r + 1)]
  }

  lemma {:induction false} OutputsAreSegments(gathered: seq<seq<Buffer>>, contribution: seq<Buffer>, w: nat,
                                              counts: seq<nat>, k: nat)
    requires |gathered| == |counts| && Total(counts) <= w && Uniform(contribution, w) && k <= |counts|
    requires EachPermutes(gathered, contribution, w)
    ensures Flatten(Outputs(gathered, w, counts)[..k]) == Segments(SumVector(contribution, w), counts, k)
  {
    if k > 0 {
      OutputsAreSegments(gathered, contribution, w, counts, k - 1);
      EachOutput(gathered, contribution, w, counts, k - 1);
      var outs := Outputs(gathered, w, counts);
      assert outs[..k][..k - 1] == outs[..k - 1] && outs[..k][k - 1] == Output(gathered, w, counts, k - 1);
    }
  }

  /** Reduce-scatter is reduce followed by scatterv (section 5.10 of MPI 3.1): for any counts, whatever
      order each rank received the contributions in, the ranks' results end to end are the vector
      `reduce` computes. */
  lemma ReduceScatterIsReduceThenScatter(gathered: seq<seq<Buffer>>, contribution: seq<Buffer>, w: nat,
                                         counts: seq<nat>)
    requires |gathered| == |counts| && Total(counts) == w && Uniform(contribution, w)
    requires EachPermutes(gathered, contribution, w)
    ensures Flatten(Outputs(gathered, w, counts)) == SumVector(contribution, w)
  {
    OutputsAreSegments(gathered, contribution, w, counts, |counts|);
    assert Outputs(gathered, w, counts)[..|counts|] == Outputs(gathered, w, counts);
    SegmentsTile(SumVector(contribution, w), counts, |counts|);
  }

  /** The block variant gives every rank w / size positions: the ranks' results end to end are the
      reduced vector without its last w mod size positions, and its segments are those of
      reduce-scatter on uniform counts. */
  lemma ReduceScatterBlockDropsTail(gathered: seq<seq<Buffer>>, contribution: seq<Buffer>, w: nat, counts: seq<nat>)
    requires Uniform(contribution, w) && |gathered| == |counts| == |contribution| > 0
    requires EachPermutes(gathered, contribution, w)
    requires forall i :: 0 <= i < |counts| ==> counts[i] == w / |contribution|
    ensures Total(counts) <= w && w - Total(counts) == w % |contribution|
    ensures Flatten(Outputs(gathered, w, counts)) == SumVector(contribution, w)[..w - w % |contribution|]
    ensures forall r :: 0 <= r < |counts| ==> Displ(counts, r) == r * (w / |contribution|)
  {
    BlockTotal(counts, w);
    OutputsAreSegments(gathered, contribution, w, counts, |counts|);
    assert Outputs(gathered, w, counts)[..|counts|] == Outputs(gathered, w, counts);
    SegmentsTile(SumVector(contribution, w), counts, |counts|);
  }

  lemma BlockTotal(counts: seq<nat>, w: nat)
    requires |counts| > 0 && forall i :: 0 <= i < |counts| ==> counts[i] == w / |counts|
    ensures Total(counts) <= w && Total(counts) == w - w % |counts|
    ensures forall r :: 0 <= r < |counts| ==> Displ(counts, r) == r * (w / |counts|)
  {
    forall r | 0 <= r <= |counts| ensures Displ(counts, r) == r * (w / |counts|)
    {
      UniformDispl(counts, w / |counts|, r);
    }
  }

  /** In every run, what rank r has gathered in an isolated reduction stage is a permutation of all
      contributions: the hypothesis of the two statements above. */
  lemma GatheredIsPermutation(c: Config, es: seq<Event>, r: nat, k: nat, contribution: seq<Buffer>, w: nat)
    requires c.Valid() && IsRun(c, es) && r < c.n
    requires k < Stage(After(c, es), r) && k < c.Stages() && Isolated(c, k)
    requires Contributes(c, k, contribution, w)
    ensures |Arrivals(c, es, r, k)| == c.n - 1
    ensures multiset(Gathered(r, contribution[r], Arrivals(c, es, r, k))) == multiset(contribution)
    ensures Uniform(Gathered(r, contribution[r], Arrivals(c, es, r, k)), w)
  {
    ArrivalsConserved(c, es, r, k);
    PeersAndOwn(c, k, r, contribution, w);
    GatheredPermutation(r, contribution[r], PeerData(c, r, k), Arrivals(c, es, r, k));
    OrderDoesNotMatter(contribution, Gathered(r, contribution[r], Arrivals(c, es, r, k)), w);
  }

  /** What every rank has gathered in stage k, each in its own order of arrival. */
  function AllGathered(c: Config, es: seq<Event>, k: nat, contribution: seq<Buffer>): (g: seq<seq<Buffer>>)
    requires c.Valid() && IsRun(c, es) && |contribution| == c.n && k < c.Stages()
    requires forall r :: 0 <= r < c.n ==> k < Stage(After(c, es), r) && |Arrivals(c, es, r, k)| == c.n - 1
  {
    seq(c.n, r requires 0 <= r < c.n => Gathered(r, contribution[r], Arrivals(c, es, r, k)))
  }

  /** Once every rank of a run is past an isolated reduce-scatter stage, their results end to end are the
      sum vector of that stage's contributions. */
  lemma ReduceScatterInEveryRun(c: Config, es: seq<Event>, k: nat, contribution: seq<Buffer>, w: nat, counts: seq<nat>)
    requires c.Valid() && IsRun(c, es) && k < c.Stages() && Isolated(c, k)
    requires forall r :: 0 <= r < c.n ==> k < Stage(After(c, es), r)
    requires Contributes(c, k, contribution, w) && |counts| == c.n && Total(counts) == w
    ensures forall r :: 0 <= r < c.n ==> |Arrivals(c, es, r, k)| == c.n - 1
    ensures forall r :: 0 <= r < c.n ==> Uniform(AllGathered(c, es, k, contribution)[r], w)
    ensures Flatten(Outputs(AllGathered(c, es, k, contribution), w, counts)) == SumVector(contribution, w)
  {
    forall r | 0 <= r < c.n
      ensures |Arrivals(c, es, r, k)| == c.n - 1
      ensures var g := Gathered(r, contribution[r], Arrivals(c, es, r, k));
              Uniform(g, w) && multiset(g) == multiset(contribution)
    {
      GatheredIsPermutation(c, es, r, k, contribution, w);
    }
    ReduceScatterIsReduceThenScatter(AllGathered(c, es, k, contribution), contribution, w, counts);
  }
}
