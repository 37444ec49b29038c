/** When repeated exchanges can go on, and what is left at the end. */
module ExchangeGuarantees {
  import opened Sums
  import opened Programs
  import opened Arithmetic
  import opened Exchange

  /** By every round, every rank has been sent at least what it receives up to there. */
  ghost predicate Fed(c: Config) {
    forall r: nat, k: nat :: r < c.n && k <= c.rounds ==> Supply(c, r, k) >= c.degree * k
  }

  lemma Slowest(s: State) returns (p: nat)
    requires s.ranks != []
    ensures p < |s.ranks| && forall q: nat :: q < |s.ranks| ==> s.ranks[p].round <= s.ranks[q].round
  {
    p := 0;
    for i := 1 to |s.ranks|
      invariant p < |s.ranks| && forall q: nat :: q < i ==> s.ranks[p].round <= s.ranks[q].round
    {
      if s.ranks[i].round < s.ranks[p].round { p := i; }
    }
  }

  ghost predicate Blocked(c: Config, s: State, r: nat)
    requires Shape(c, s)
  {
    Working(c, s, r) && !Enabled(c, s, Exec(r)) && !Enabled(c, s, Finish(r))
  }

  lemma BlockedInWait(c: Config, s: State, r: nat)
    requires Inv(c, s) && Blocked(c, s, r)
    ensures s.ranks[r].got < Posted(c.kind, c.degree, s.ranks[r].pc) <= c.degree
    ensures Sent(c.kind, c.degree, s.ranks[r].pc) == c.degree
  {
    assert RankOk(c, s, r);
    CounterBounds(c.kind, c.degree, s.ranks[r].pc);
    CountersFollowProgram(c.kind, c.degree, s.ranks[r].pc);
  }

  /** A slowest rank that waits has a message coming: all its feeders have sent for this round. */
  lemma SlowestCanMatch(c: Config, s: State, p: nat) returns (i: nat)
    requires Inv(c, s) && p < c.n && Blocked(c, s, p) && Fed(c)
    requires forall q: nat :: q < c.n ==> s.ranks[p].round <= s.ranks[q].round
    requires forall q: nat :: q < c.n && s.ranks[q].round == s.ranks[p].round ==>
               Sent(c.kind, c.degree, s.ranks[q].pc) == c.degree
    ensures Enabled(c, s, Match(i))
  {
    BlockedInWait(c, s, p);
    assert RankOk(c, s, p);
    var k := s.ranks[p].round;
    if e: nat :| e < |c.edges| && c.edges[e].dst == p && s.taken[e] < SentOn(c, s, e) {
      i := e;
    } else {
      var low := Carried(c, k + 1);
      assert Supply(c, p, k + 1) >= c.degree * (k + 1);
      forall e | 0 <= e < |c.edges| ensures Into(c, p, low)[e] <= Into(c, p, s.taken)[e] {
        if c.edges[e].dst == p { FeederHasSent(c, s, p, e); }
      }
      SumMonotone(Into(c, p, low), Into(c, p, s.taken));
      MulSucc(k, c.degree);
      assert false;
    }
  }

  lemma {:induction false} MadeInMonotone(c: Config, e: Edge, j: nat, k: nat)
    requires j <= k
    ensures MadeIn(c, e, j) <= MadeIn(c, e, k)
    decreases k - j
  {
    if j < k { MadeInMonotone(c, e, j, k - 1); }
  }

  /** A rank at least as far as p, and through its sends if no further, has sent all up to p's round. */
  lemma FeederHasSent(c: Config, s: State, p: nat, e: nat)
    requires Inv(c, s) && p < c.n && e < |c.edges| && s.ranks[p].round <= s.ranks[c.edges[e].src].round
    requires s.ranks[c.edges[e].src].round == s.ranks[p].round ==>
               Sent(c.kind, c.degree, s.ranks[c.edges[e].src].pc) == c.degree
    ensures MadeIn(c, c.edges[e], s.ranks[p].round + 1) <= SentOn(c, s, e)
  {
    var rank := s.ranks[c.edges[e].src];
    MadeInMonotone(c, c.edges[e], s.ranks[p].round + 1, rank.round + 1);
    if rank.round > s.ranks[p].round { MadeInMonotone(c, c.edges[e], s.ranks[p].round + 1, rank.round); }
  }

  lemma NeverStuck(c: Config, es: seq<Event>)
    requires c.Valid() && Fed(c) && IsRun(c, es)
    ensures AllDone(c, After(c, es)) || exists e :: Enabled(c, After(c, es), e)
  {
    InvRun(c, es);
    var s := After(c, es);
    if !AllDone(c, s) {
      var p := Slowest(s);
      var late :| 0 <= late < c.n && s.ranks[late].round != c.rounds;
      assert RankOk(c, s, late);
      if q: nat :| q < c.n && s.ranks[q].round == s.ranks[p].round && !Blocked(c, s, q) {
        assert Enabled(c, s, Exec(q)) || Enabled(c, s, Finish(q));
      } else {
        forall q: nat | q < c.n && s.ranks[q].round == s.ranks[p].round
          ensures Sent(c.kind, c.degree, s.ranks[q].pc) == c.degree
        {
          BlockedInWait(c, s, q);
        }
        var i := SlowestCanMatch(c, s, p);
      }
    }
  }

  /** A rank that is sent less than it receives never finishes all its rounds. */
  lemma StarvedNeverDone(c: Config, s: State, r: nat)
    requires Inv(c, s) && r < c.n && Supply(c, r, c.rounds) < c.degree * c.rounds
    ensures s.ranks[r].round < c.rounds
  {
    assert RankOk(c, s, r);
    if s.ranks[r].round == c.rounds {
      var high := Carried(c, c.rounds);
      CounterBounds(c.kind, c.degree, 0);
      forall e | 0 <= e < |c.edges| ensures Into(c, r, s.taken)[e] <= Into(c, r, high)[e] { SentAtMost(c, s, e); }
      SumMonotone(Into(c, r, s.taken), Into(c, r, high));
      assert false;
    }
  }

  lemma SentAtMost(c: Config, s: State, e: nat)
    requires Inv(c, s) && e < |c.edges|
    ensures s.taken[e] <= SentOn(c, s, e) <= MadeIn(c, c.edges[e], c.rounds)
  {
    var rank := s.ranks[c.edges[e].src];
    assert EdgeOk(c, s, e) && RankOk(c, s, c.edges[e].src);
    CounterBounds(c.kind, c.degree, 0);
    MadeInMonotone(c, c.edges[e], rank.round, c.rounds);
    if rank.round < c.rounds { MadeInMonotone(c, c.edges[e], rank.round + 1, c.rounds); }
  }

  ghost predicate Stuck(c: Config, es: seq<Event>)
    requires c.Valid() && IsRun(c, es)
  {
    !AllDone(c, After(c, es)) && forall e :: !Enabled(c, After(c, es), e)
  }

  lemma {:induction false} StarvedGetsStuck(c: Config, es: seq<Event>, r: nat) returns (stuck: seq<Event>)
    requires c.Valid() && IsRun(c, es) && r < c.n && Supply(c, r, c.rounds) < c.degree * c.rounds
    ensures IsRun(c, stuck) && Stuck(c, stuck)
    decreases c.rounds * PerRound(c) * c.n - |es|
  {
    RunsAreFinite(c, es);
    InvRun(c, es);
    StarvedNeverDone(c, After(c, es), r);
    if e :| Enabled(c, After(c, es), e) {
      assert (es + [e])[..|es|] == es;
      RunsAreFinite(c, es + [e]);
      stuck := StarvedGetsStuck(c, es + [e], r);
    } else {
      stuck := es;
    }
  }

  /** Rounds without skipped sends can go on in every schedule exactly when every rank is the target of
      at least `degree` sends per round. */
  lemma DeadlockFreeIffFed(c: Config)
    requires c.Valid() && Steady(c) && c.rounds >= 1
    ensures (forall es :: IsRun(c, es) ==> !Stuck(c, es)) <==> forall r: nat :: r < c.n ==> EdgesTo(c, r) >= c.degree
  {
    if r: nat :| r < c.n && EdgesTo(c, r) < c.degree {
      SteadySupply(c, r, c.rounds);
      MulLe(EdgesTo(c, r) + 1, c.degree, c.rounds);
      MulSucc(EdgesTo(c, r), c.rounds);
      assert IsRun(c, []);
      var stuck := StarvedGetsStuck(c, [], r);
    } else {
      forall r: nat, k: nat | r < c.n && k <= c.rounds ensures Supply(c, r, k) >= c.degree * k {
        SteadySupply(c, r, k);
        MulLe(c.degree, EdgesTo(c, r), k);
      }
      forall es | IsRun(c, es) ensures !Stuck(c, es) { NeverStuck(c, es); }
    }
  }

  lemma {:induction false} SupplyAtMost(c: Config, r: nat, k: nat)
    requires forall i: nat :: i < k ==> InDegree(c, r, i) <= c.degree
    ensures Supply(c, r, k) <= c.degree * k
    ensures Supply(c, r, k) == c.degree * k <==> forall i: nat :: i < k ==> InDegree(c, r, i) == c.degree
  {
    if k == 0 {
      SupplyStep(c, r, 0);
    } else {
      SupplyAtMost(c, r, k - 1);
      SupplyStep(c, r, k - 1);
      MulSucc(k - 1, c.degree);
    }
  }

  /** Where no rank is ever sent more in a round than it receives, rounds can go on in every schedule
      exactly when none is ever sent less. */
  lemma DeadlockFreeIffExact(c: Config)
    requires c.Valid() && forall r: nat, k: nat :: r < c.n && k < c.rounds ==> InDegree(c, r, k) <= c.degree
    ensures (forall es :: IsRun(c, es) ==> !Stuck(c, es))
            <==> forall r: nat, k: nat :: r < c.n && k < c.rounds ==> InDegree(c, r, k) == c.degree
  {
    if r: nat, k: nat :| r < c.n && k < c.rounds && InDegree(c, r, k) < c.degree {
      SupplyAtMost(c, r, c.rounds);
      assert IsRun(c, []);
      var stuck := StarvedGetsStuck(c, [], r);
    } else {
      forall r: nat, k: nat | r < c.n && k <= c.rounds ensures Supply(c, r, k) >= c.degree * k {
        SupplyAtMost(c, r, k);
      }
      forall es | IsRun(c, es) ensures !Stuck(c, es) { NeverStuck(c, es); }
    }
  }

  /** If a rank is sent exactly what it receives, nothing for it is left behind at the end. */
  lemma NothingLeftBehind(c: Config, es: seq<Event>, e: nat)
    requires c.Valid() && IsRun(c, es) && AllDone(c, After(c, es))
    requires e < |c.edges| && c.edges[e].dst < c.n && Supply(c, c.edges[e].dst, c.rounds) == c.degree * c.rounds
    ensures After(c, es).taken[e] == SentOn(c, After(c, es), e) == MadeIn(c, c.edges[e], c.rounds)
  {
    InvRun(c, es);
    var s, r := After(c, es), c.edges[e].dst;
    var high := Carried(c, c.rounds);
    forall i | 0 <= i < |c.edges| ensures s.taken[i] <= SentOn(c, s, i) <= high[i] { SentAtMost(c, s, i); }
    DoneRank(c, s, r);
    SumTight(Into(c, r, s.taken), Into(c, r, high));
    assert Into(c, r, s.taken)[e] == Into(c, r, high)[e];
  }

  lemma DoneRank(c: Config, s: State, r: nat)
    requires Inv(c, s) && AllDone(c, s) && r < c.n
    ensures Sum(Into(c, r, s.taken)) == c.degree * c.rounds
  {
    assert RankOk(c, s, r);
    CounterBounds(c.kind, c.degree, 0);
  }
}
