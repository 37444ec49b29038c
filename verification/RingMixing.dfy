/** Neighbour rounds without a barrier in between can mix. */
module RingMixing {
  import opened Sums
  import opened Programs
  import opened Ring
  import opened Exchange
  import opened ExchangeGuarantees
  import opened SeparatedRounds
  import opened RingRounds

  /** A rank that has matched nothing of its current round has matched one message of each edge into it per
      completed round. Edges are first-in-first-out, so kept by every prefix of a run this says that every
      completed round took its own messages. */
  ghost predicate Apart(c: Config, s: State)
    requires Shape(c, s)
  {
    forall r: nat, e: nat :: r < c.n && IsInto(c, r, e) && s.ranks[r].got == 0 ==> s.taken[e] == s.ranks[r].round
  }

  /** In the first round there is nothing else to match. */
  lemma OneRoundApart(c: Config, s: State, r: nat, e: nat)
    requires Even(c) && Inv(c, s) && c.rounds <= 1 && r < c.n && IsInto(c, r, e) && s.ranks[r].got == 0
    ensures s.taken[e] == s.ranks[r].round
  {
    assert RankOk(c, s, r);
    var row, k := Into(c, r, s.taken), s.ranks[r].round;
    var target := Into(c, r, Constant(|c.edges|, k));
    IntoConstant(c, r, k);
    if k == 0 {
      SumTight(target, row);
    } else {
      forall i | 0 <= i < |c.edges| ensures row[i] <= target[i] {
        SentAtMost(c, s, i);
        SteadyCounts(c, c.edges[i], c.rounds);
      }
      SumTight(row, target);
    }
    assert row[e] == target[e];
  }

  lemma OneRoundRunApart(c: Config, es: seq<Event>)
    requires Even(c) && IsRun(c, es) && c.rounds <= 1
    ensures Apart(c, After(c, es))
  {
    InvRun(c, es);
    var s := After(c, es);
    forall r: nat, e: nat | r < c.n && IsInto(c, r, e) && s.ranks[r].got == 0 ensures s.taken[e] == s.ranks[r].round {
      OneRoundApart(c, s, r, e);
    }
  }

  // ---------------------------------------------------------------- a run that mixes

  ghost predicate Reachable(c: Config, s: State) {
    c.Valid() && c.kind == Blocking && c.degree == 2 && exists es :: IsRun(c, es) && After(c, es) == s
  }

  lemma ReachStep(c: Config, s: State, e: Event) returns (s': State)
    requires Reachable(c, s) && Enabled(c, s, e)
    ensures Reachable(c, s') && s' == Apply(c, s, e)
  {
    var es :| IsRun(c, es) && After(c, es) == s;
    assert (es + [e])[..|es|] == es;
    assert IsRun(c, es + [e]) && After(c, es + [e]) == Apply(c, s, e);
    s' := Apply(c, s, e);
  }

  lemma SendBoth(c: Config, s: State, r: nat, k: nat) returns (s': State)
    requires Reachable(c, s) && r < c.n == |s.ranks| && s.ranks[r] == Rank(k, 0, 0) && k < c.rounds
    ensures Reachable(c, s') && s' == State(s.ranks[r := Rank(k, 2, 0)], s.taken)
  {
    var s1 := ReachStep(c, s, Exec(r));
    s' := ReachStep(c, s1, Exec(r));
  }

  lemma PostOne(c: Config, s: State, r: nat, k: nat, g: nat) returns (s': State)
    requires Reachable(c, s) && r < c.n == |s.ranks| && s.ranks[r] == Rank(k, 2 + 2 * g, g) && k < c.rounds && g < 2
    ensures Reachable(c, s') && s' == State(s.ranks[r := Rank(k, 3 + 2 * g, g)], s.taken)
  {
    s' := ReachStep(c, s, Exec(r));
  }

  lemma MatchOne(c: Config, s: State, r: nat, e: nat, k: nat, g: nat) returns (s': State)
    requires Reachable(c, s) && IsInto(c, r, e) && |c.edges| == |s.taken| && c.edges[e].src < |s.ranks|
    requires r < c.n == |s.ranks| && s.ranks[r] == Rank(k, 3 + 2 * g, g) && k < c.rounds && g < 2
    requires s.taken[e] < SentOn(c, s, e)
    ensures Reachable(c, s')
    ensures s' == State(s.ranks[r := Rank(k, 3 + 2 * g, g + 1)], s.taken[e := s.taken[e] + 1])
  {
    s' := ReachStep(c, s, Match(e));
  }

  lemma WaitOne(c: Config, s: State, r: nat, k: nat, g: nat) returns (s': State)
    requires Reachable(c, s) && r < c.n == |s.ranks| && s.ranks[r] == Rank(k, 3 + 2 * g, g + 1) && k < c.rounds && g < 2
    ensures Reachable(c, s') && s' == State(s.ranks[r := Rank(k, 4 + 2 * g, g + 1)], s.taken)
  {
    s' := ReachStep(c, s, Exec(r));
  }

  /** Rank r posts its receive, matches the next message of edge e and waits for the receive. */
  lemma ReceiveOne(c: Config, s: State, r: nat, e: nat, k: nat, g: nat) returns (s': State)
    requires Reachable(c, s) && IsInto(c, r, e) && |c.edges| == |s.taken| && c.edges[e].src < |s.ranks|
    requires r < c.n == |s.ranks| && s.ranks[r] == Rank(k, 2 + 2 * g, g) && k < c.rounds && g < 2
    requires c.edges[e].src != r && s.taken[e] < SentOn(c, s, e)
    ensures Reachable(c, s')
    ensures s' == State(s.ranks[r := Rank(k, 4 + 2 * g, g + 1)], s.taken[e := s.taken[e] + 1])
  {
    var s1 := PostOne(c, s, r, k, g);
    assert s1.ranks[c.edges[e].src] == s.ranks[c.edges[e].src];
    var s2 := MatchOne(c, s1, r, e, k, g);
    s' := WaitOne(c, s2, r, k, g);
  }

  lemma EndRound(c: Config, s: State, r: nat, k: nat) returns (s': State)
    requires Reachable(c, s) && r < c.n == |s.ranks| && s.ranks[r] == Rank(k, 6, 2) && k < c.rounds
    ensures Reachable(c, s') && s' == State(s.ranks[r := Rank(k + 1, 0, 0)], s.taken)
  {
    s' := ReachStep(c, s, Finish(r));
  }

  /** The edges between ranks 0 and 1 and from the last rank to rank 0. */
  lemma SomeEdges(n: nat)
    requires n > 2 && Divides(n)
    ensures RingEdges(n)[1] == Edge(0, 1, 1) && RingEdges(n)[2] == Edge(1, 0, 0)
    ensures RingEdges(n)[2 * n - 1] == Edge(n - 1, 1, 0)
  {
    RingTargets(n, 0);
    RingTargets(n, 1);
    PrevIsPredecessorIff(0, n);
    PrevIsPredecessorIff(1, n);
    NextIsSuccessor(0, n);
  }

  /** A rank that has made both sends of round k has sent k + 1 messages on each of its edges. */
  lemma SentBoth(n: nat, rounds: nat, s: State, e: nat, k: nat)
    requires n >= 2 && |s.ranks| == n && e < 2 * n && s.ranks[RingEdges(n)[e].src] == Rank(k, 2, 0)
    ensures SentOn(BlockingRounds(n, rounds), s, e) == k + 1
  {
    SteadyCounts(BlockingRounds(n, rounds), RingEdges(n)[e], k + 1);
  }

  lemma ThreeSend(n: nat, rounds: nat) returns (s: State)
    requires n > 2 && rounds >= 1
    ensures Reachable(BlockingRounds(n, rounds), s) && |s.ranks| == n && s.taken == seq(2 * n, e => 0)
    ensures s.ranks[0] == s.ranks[1] == s.ranks[n - 1] == Rank(0, 2, 0)
  {
    var c := BlockingRounds(n, rounds);
    assert IsRun(c, []) && After(c, []) == Init(c);
    s := SendBoth(c, Init(c), 0, 0);
    s := SendBoth(c, s, 1, 0);
    s := SendBoth(c, s, n - 1, 0);
  }

  /** Rank 0 completes its first round while rank 1 has only sent, and sends for the next. */
  lemma ZeroAhead(n: nat, rounds: nat) returns (s: State)
    requires n > 2 && Divides(n) && rounds >= 2
    ensures Reachable(BlockingRounds(n, rounds), s) && |s.ranks| == n && |s.taken| == 2 * n && s.taken[1] == 0
    ensures s.ranks[0] == Rank(1, 2, 0) && s.ranks[1] == Rank(0, 2, 0)
  {
    var c := BlockingRounds(n, rounds);
    SomeEdges(n);
    var s0 := ThreeSend(n, rounds);
    SentBoth(n, rounds, s0, 2, 0);
    var s1 := ReceiveOne(c, s0, 0, 2, 0, 0);
    SentBoth(n, rounds, s1, 2 * n - 1, 0);
    var s2 := ReceiveOne(c, s1, 0, 2 * n - 1, 0, 1);
    var s3 := EndRound(c, s2, 0, 0);
    s := SendBoth(c, s3, 0, 1);
  }

  /** Rank 1 then takes both of rank 0's messages for its first round and none of rank 2's. */
  lemma RankOneMixes(n: nat, rounds: nat) returns (s: State)
    requires n > 2 && Divides(n) && rounds >= 2
    ensures Reachable(BlockingRounds(n, rounds), s) && Shape(BlockingRounds(n, rounds), s)
    ensures !Apart(BlockingRounds(n, rounds), s)
  {
    var c := BlockingRounds(n, rounds);
    SomeEdges(n);
    var s0 := ZeroAhead(n, rounds);
    SentBoth(n, rounds, s0, 1, 1);
    var s1 := ReceiveOne(c, s0, 1, 1, 0, 0);
    SentBoth(n, rounds, s1, 1, 1);
    var s2 := ReceiveOne(c, s1, 1, 1, 0, 1);
    s := EndRound(c, s2, 1, 0);
    assert IsInto(c, 1, 1) && s.taken[1] == 2;
  }

  ghost predicate AlwaysApart(c: Config)
    requires c.Valid()
  {
    forall es :: IsRun(c, es) ==> Apart(c, After(c, es))
  }

  lemma NotAlwaysApart(c: Config, s: State)
    requires Reachable(c, s) && Shape(c, s) && !Apart(c, s)
    ensures !AlwaysApart(c)
  {
    var es :| IsRun(c, es) && After(c, es) == s;
  }

  /** On a right ring of more than two ranks, unseparated blocking rounds keep apart in every schedule if and
      only if there is at most one. */
  lemma UnseparatedApartIff(n: nat, rounds: nat)
    requires n > 2 && Divides(n)
    ensures AlwaysApart(BlockingRounds(n, rounds)) <==> rounds <= 1
  {
    var c := BlockingRounds(n, rounds);
    if rounds <= 1 {
      RingIsEven(n, rounds);
      forall es | IsRun(c, es) ensures Apart(c, After(c, es)) { OneRoundRunApart(c, es); }
    } else {
      var s := RankOneMixes(n, rounds);
      NotAlwaysApart(c, s);
    }
  }
}
