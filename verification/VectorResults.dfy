/** What `allgatherv` leaves behind in a run: an isolated stage, seen through the rank-local code. */
module VectorResults {
  import opened Bytes
  import opened Displacements
  import opened Blocks
  import opened CollectiveBlocking
  import opened Reductions
  import opened VectorCollectives
  import opened AllToAll
  import opened AllToAllIsolation
  import opened RoundResults

  /** What rank r has gathered in stage k of a run, in receive buffers of the contributions' lengths. */
  function Received(c: Config, es: seq<Event>, r: nat, k: nat, contribution: seq<Buffer>): (all: seq<Buffer>)
    requires c.n >= 1 && IsRun(c, es) && r < c.n && k < Stage(After(c, es), r)
    requires |contribution| == c.n && |Arrivals(c, es, r, k)| == c.n - 1
    ensures |all| == c.n
  {
    AllBlocks(r, contribution[r], Lengths(contribution), Arrivals(c, es, r, k))
  }

  lemma UniformLengths(bs: seq<Buffer>, w: nat)
    requires Uniform(bs, w)
    ensures Lengths(bs) == seq(|bs|, i => w)
  {
  }

  /** With equal counts and packed displacements, in every run past an isolated stage, r's buffer holds the
      stage's contributions end to end, each once, in some order. */
  lemma AllgathervInEveryRun(c: Config, es: seq<Event>, r: nat, k: nat, contribution: seq<Buffer>, w: nat, buf: Buffer)
    requires c.Valid() && IsRun(c, es) && r < c.n
    requires k < Stage(After(c, es), r) && k < c.Stages() && Isolated(c, k)
    requires Contributes(c, k, contribution, w) && Total(Lengths(contribution)) <= |buf|
    ensures |Arrivals(c, es, r, k)| == c.n - 1
    ensures var all, counts := Received(c, es, r, k, contribution), Lengths(contribution);
            && multiset(all) == multiset(contribution)
            && Exchanged(buf, Displs(counts), all, r)[..Total(counts)] == Flatten(all)
  {
    GatheredIsPermutation(c, es, r, k, contribution, w);
    ReductionIsGlobal(c, es, r, k, contribution, w);
    ExactFit(r, contribution[r], Lengths(contribution), Arrivals(c, es, r, k));
    var all := Received(c, es, r, k, contribution);
    UniformLengths(all, w);
    UniformLengths(contribution, w);
    PackedIsConcatenation(buf, all, r);
  }

  lemma TwoRankBlocks(rank: nat, contribution: seq<Buffer>)
    requires rank < 2 && |contribution| == 2
    ensures AllBlocks(rank, contribution[rank], Lengths(contribution), [contribution[1 - rank]]) == contribution
  {
    ExactFit(rank, contribution[rank], Lengths(contribution), [contribution[1 - rank]]);
    GatheredAt(rank, contribution[rank], [contribution[1 - rank]], 1 - rank);
    GatheredAt(rank, contribution[rank], [contribution[1 - rank]], rank);
  }

  lemma TwoRankArrivals(c: Config, es: seq<Event>, r: nat, k: nat, contribution: seq<Buffer>)
    requires c.Valid() && c.n == 2 && IsRun(c, es) && r < 2 && k < Stage(After(c, es), r) && k < c.Stages()
    requires |contribution| == 2 && c.input(0, k, 1) == contribution[0] && c.input(1, k, 0) == contribution[1]
    ensures Arrivals(c, es, r, k) == [contribution[1 - r]]
  {
    ArrivalsConserved(c, es, r, k);
  }

  /** With two ranks it holds them in rank order, whatever their lengths. */
  lemma TwoRankAllgatherv(c: Config, es: seq<Event>, r: nat, k: nat, contribution: seq<Buffer>, buf: Buffer)
    requires c.Valid() && c.n == 2 && IsRun(c, es) && r < 2 && k < Stage(After(c, es), r) && k < c.Stages()
    requires |contribution| == 2 && Total(Lengths(contribution)) <= |buf|
    requires c.input(0, k, 1) == contribution[0] && c.input(1, k, 0) == contribution[1]
    ensures |Arrivals(c, es, r, k)| == 1 && Received(c, es, r, k, contribution) == contribution
    ensures var counts := Lengths(contribution);
            Exchanged(buf, Displs(counts), Received(c, es, r, k, contribution), r)[..Total(counts)]
            == Flatten(contribution)
  {
    TwoRankArrivals(c, es, r, k, contribution);
    TwoRankBlocks(r, contribution);
    PackedIsConcatenation(buf, contribution, r);
  }
}
