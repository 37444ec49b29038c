/** The collective benchmark loop: barrier, then (collective; barrier) for every iteration of every
    message size, then the reductions of the timings. */
module AllreduceBenchmark {
  import opened Bytes
  import opened Arithmetic
  import opened Reductions
  import opened AllToAll
  import opened AllToAllProgress
  import opened AllToAllIsolation
  import opened RoundResults

  const BARRIER_TAG: nat := 0xBEEFCAFE
  const ALLREDUCE_TAG: nat := 0xABCDEF00
  const REDUCE_U64_TAG: nat := 0xDEADBEEF
  const MIN_TAG: nat := 0xDEAD0001
  const MAX_TAG: nat := 0xDEAD0002
  const SUM_TAG: nat := 0xDEAD0003

  function Iterations(tag: nat, times: nat): seq<nat> {
    if times == 0 then [] else Iterations(tag, times - 1) + [tag, BARRIER_TAG]
  }

  /** `allreduce_min_f64` performs an `allreduce_u64` first. */
  const TIMINGS: seq<nat> := [REDUCE_U64_TAG, MIN_TAG, MAX_TAG, SUM_TAG]

  function BenchmarkTags(tag: nat, sizes: nat, skip: nat, iterations: nat): seq<nat> {
    if sizes == 0 then [BARRIER_TAG]
    else BenchmarkTags(tag, sizes - 1, skip, iterations) + Iterations(tag, skip + iterations) + TIMINGS
  }

  /** The stages a rank goes through, as the loops of `run_benchmark` produce them. */
  method RunBenchmark(tag: nat, sizes: nat, skip: nat, iterations: nat) returns (stages: seq<nat>)
    ensures stages == BenchmarkTags(tag, sizes, skip, iterations)
  {
    stages := [BARRIER_TAG];
    for i := 0 to sizes
      invariant stages == BenchmarkTags(tag, i, skip, iterations)
    {
      ghost var before := stages;
      for j := 0 to skip
        invariant stages == before + Iterations(tag, j)
      {
        stages := stages + [tag];
        stages := stages + [BARRIER_TAG];
      }
      for j := 0 to iterations
        invariant stages == before + Iterations(tag, skip + j)
      {
        stages := stages + [tag];
        stages := stages + [BARRIER_TAG];
      }
      stages := stages + [REDUCE_U64_TAG, MIN_TAG];
      stages := stages + [MAX_TAG];
      stages := stages + [SUM_TAG];
    }
  }

  lemma {:induction false} IterationsAt(tag: nat, times: nat, j: nat)
    requires j < times
    ensures |Iterations(tag, times)| == 2 * times
    ensures Iterations(tag, times)[2 * j] == tag && Iterations(tag, times)[2 * j + 1] == 0xBEEFCAFE
  {
    IterationsLength(tag, times - 1);
    if j < times - 1 { IterationsAt(tag, times - 1, j); }
  }

  lemma {:induction false} IterationsLength(tag: nat, times: nat)
    ensures |Iterations(tag, times)| == 2 * times
  {
    if times > 0 { IterationsLength(tag, times - 1); }
  }

  lemma {:induction false} BenchmarkLength(tag: nat, sizes: nat, skip: nat, iterations: nat)
    ensures |BenchmarkTags(tag, sizes, skip, iterations)| == 1 + sizes * (2 * (skip + iterations) + 4)
    ensures BenchmarkTags(tag, sizes, skip, iterations)[0] == 0xBEEFCAFE
  {
    if sizes > 0 {
      BenchmarkLength(tag, sizes - 1, skip, iterations);
      IterationsLength(tag, skip + iterations);
      MulSucc(sizes - 1, 2 * (skip + iterations) + 4);
    }
  }

  /** Which stage is where: behind the first barrier, for message size s, iteration j is the collective and
      a barrier, warmup first, and behind the iterations are the four reductions of the timings. */
  lemma {:induction false} BenchmarkAt(tag: nat, sizes: nat, skip: nat, iterations: nat, s: nat, j: nat, start: nat)
    requires s < sizes && start == 1 + s * (2 * (skip + iterations) + 4)
    ensures var tags, n := BenchmarkTags(tag, sizes, skip, iterations), skip + iterations;
            && start + 2 * n + 4 <= |tags|
            && (j < n ==> tags[start + 2 * j] == tag && tags[start + 2 * j + 1] == 0xBEEFCAFE)
            && tags[start + 2 * n..start + 2 * n + 4] == [0xDEADBEEF, 0xDEAD0001, 0xDEAD0002, 0xDEAD0003]
  {
    var n := skip + iterations;
    var before, its := BenchmarkTags(tag, sizes - 1, skip, iterations), Iterations(tag, n);
    if s < sizes - 1 {
      BenchmarkAt(tag, sizes - 1, skip, iterations, s, j, start);
      EarlierStages(before, its, start + 2 * n);
    } else {
      LastSize(tag, sizes, skip, iterations, j);
    }
  }

  lemma LastSize(tag: nat, sizes: nat, skip: nat, iterations: nat, j: nat)
    requires sizes > 0
    ensures var tags, n := BenchmarkTags(tag, sizes, skip, iterations), skip + iterations;
            var start := 1 + (sizes - 1) * (2 * n + 4);
            && 1 <= start && start + 2 * n + 4 <= |tags|
            && (j < n ==> tags[start + 2 * j] == tag && tags[start + 2 * j + 1] == 0xBEEFCAFE)
            && tags[start + 2 * n..start + 2 * n + 4] == TIMINGS
  {
    var n := skip + iterations;
    var before, its := BenchmarkTags(tag, sizes - 1, skip, iterations), Iterations(tag, n);
    BenchmarkLength(tag, sizes - 1, skip, iterations);
    IterationsLength(tag, n);
    if j < n { IterationsAt(tag, n, j); }
    LastStages(before, its, n, tag, j);
  }

  lemma EarlierStages(before: seq<nat>, its: seq<nat>, at: nat)
    requires at + 4 <= |before|
    ensures (before + its + TIMINGS)[at..at + 4] == before[at..at + 4]
    ensures forall x :: 0 <= x < at ==> (before + its + TIMINGS)[x] == before[x]
  {
  }

  lemma LastStages(before: seq<nat>, its: seq<nat>, n: nat, tag: nat, j: nat)
    requires |its| == 2 * n && (j < n ==> its[2 * j] == tag && its[2 * j + 1] == 0xBEEFCAFE)
    ensures var all, start := before + its + TIMINGS, |before|;
            && all[start + 2 * n..start + 2 * n + 4] == TIMINGS
            && (j < n ==> all[start + 2 * j] == tag && all[start + 2 * j + 1] == 0xBEEFCAFE)
  {
  }

  predicate Alternates(s: seq<nat>) {
    forall k :: 0 <= k && k + 1 < |s| ==> s[k] != s[k + 1]
  }

  lemma JoinAlternates(a: seq<nat>, b: seq<nat>)
    requires Alternates(a) && Alternates(b) && (a != [] && b != [] ==> a[|a| - 1] != b[0])
    ensures Alternates(a + b)
  {
  }

  lemma {:induction false} IterationsAlternate(tag: nat, times: nat)
    requires tag != BARRIER_TAG
    ensures Alternates(Iterations(tag, times)) && |Iterations(tag, times)| == 2 * times
    ensures times > 0 ==> Iterations(tag, times)[0] == tag && Iterations(tag, times)[2 * times - 1] == BARRIER_TAG
  {
    if times > 0 {
      IterationsAlternate(tag, times - 1);
      JoinAlternates(Iterations(tag, times - 1), [tag, BARRIER_TAG]);
    }
  }

  /** In the benchmark no two neighbouring stages share a tag, whatever the numbers of sizes and iterations. */
  lemma {:induction false} BenchmarkAlternates(tag: nat, sizes: nat, skip: nat, iterations: nat)
    requires tag != BARRIER_TAG && tag !in TIMINGS
    ensures Alternates(BenchmarkTags(tag, sizes, skip, iterations))
    ensures BenchmarkTags(tag, sizes, skip, iterations) != []
    ensures var tags := BenchmarkTags(tag, sizes, skip, iterations); tags[|tags| - 1] in [BARRIER_TAG, SUM_TAG]
  {
    if sizes > 0 {
      BenchmarkAlternates(tag, sizes - 1, skip, iterations);
      IterationsAlternate(tag, skip + iterations);
      var before, its := BenchmarkTags(tag, sizes - 1, skip, iterations), Iterations(tag, skip + iterations);
      JoinAlternates(before, its);
      JoinAlternates(before + its, TIMINGS);
    }
  }

  /** In every schedule of the allreduce benchmark, blocking and non-blocking barriers freely mixed: no
      state is stuck, and each allreduce any rank has returned from summed exactly the contributions of
      that iteration. */
  lemma BenchmarkAllreduceExact(c: Config, sizes: nat, skip: nat, iterations: nat, es: seq<Event>, r: nat, k: nat,
                                contribution: seq<Buffer>, w: nat)
    requires c.Valid() && c.tags == BenchmarkTags(ALLREDUCE_TAG, sizes, skip, iterations) && IsRun(c, es) && r < c.n
    ensures AllDone(c, After(c, es)) || exists e :: Enabled(c, After(c, es), e)
    ensures k < Stage(After(c, es), r) && k < c.Stages() && Contributes(c, k, contribution, w) ==>
              && |Arrivals(c, es, r, k)| == c.n - 1 && Uniform(Arrivals(c, es, r, k), w)
              && SumVector(Gathered(r, contribution[r], Arrivals(c, es, r, k)), w) == SumVector(contribution, w)
  {
    BenchmarkAlternates(ALLREDUCE_TAG, sizes, skip, iterations);
    assert Alternates(c.tags);
    NeverStuck(c, es);
    if k < Stage(After(c, es), r) && k < c.Stages() && Contributes(c, k, contribution, w) {
      assert Isolated(c, k);
      ReductionIsGlobal(c, es, r, k, contribution, w);
    }
  }

  /** So every iteration of every message size, warmup included, has its allreduce, and in every schedule each
      rank that has returned from it summed that iteration's contributions. */
  lemma {:induction false} EveryIterationExact(c: Config, sizes: nat, skip: nat, iterations: nat, es: seq<Event>,
                                               r: nat, s: nat, j: nat, k: nat, contribution: seq<Buffer>, w: nat)
    requires c.Valid() && c.tags == BenchmarkTags(ALLREDUCE_TAG, sizes, skip, iterations) && IsRun(c, es) && r < c.n
    requires s < sizes && j < skip + iterations && k == 1 + s * (2 * (skip + iterations) + 4) + 2 * j
    ensures k < c.Stages() && c.tags[k] == 0xABCDEF00
    ensures k < Stage(After(c, es), r) && Contributes(c, k, contribution, w) ==>
              && |Arrivals(c, es, r, k)| == c.n - 1 && Uniform(Arrivals(c, es, r, k), w)
              && SumVector(Gathered(r, contribution[r], Arrivals(c, es, r, k)), w) == SumVector(contribution, w)
  {
    assert k < c.Stages() && c.tags[k] == 0xABCDEF00 by {
      BenchmarkAt(ALLREDUCE_TAG, sizes, skip, iterations, s, j, k - 2 * j);
    }
    BenchmarkAllreduceExact(c, sizes, skip, iterations, es, r, k, contribution, w);
  }
}
