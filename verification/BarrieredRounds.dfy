/** Neighbour rounds with a real barrier between them: the barrier's own calls and messages, interleaved
    with those of the exchange in any way the code allows. */
module BarrieredRounds {
  import opened Bytes
  import opened Arithmetic
  import opened Programs
  import opened Exchange
  import opened ExchangeGuarantees
  import opened SeparatedRounds
  import opened Ring
  import opened RingRounds
  import AllToAll
  import AllToAllInvariant
  import AllToAllProgress

  /** Stage k of `barriers` is the barrier after round k; its tag is not that of the exchange. */
  datatype Both = Both(rounds: Traced, barriers: AllToAll.State)

  datatype Event = Round(step: Exchange.Event) | Barrier(move: AllToAll.Event)

  ghost predicate Fits(c: Config, b: AllToAll.Config) {
    c.Valid() && b.Valid() && b.n == c.n && b.Stages() == c.rounds
  }

  ghost predicate Shaped(c: Config, b: AllToAll.Config, s: Both) {
    Fits(c, b) && Formed(c, s.rounds) && |s.barriers.ranks| == c.n
  }

  /** Rank r has made all calls of its round and is in the barrier behind it. */
  predicate Arrived(c: Config, s: Both, r: nat)
    requires r < |s.rounds.base.ranks| && r < |s.barriers.ranks|
  {
    var rank := s.rounds.base.ranks[r];
    rank.pc == c.Calls() && rank.round == AllToAll.Stage(s.barriers, r)
  }

  ghost predicate Can(c: Config, b: AllToAll.Config, s: Both, e: Event)
    requires Shaped(c, b, s)
  {
    match e
    case Round(x) => !x.Finish? && Enabled(c, s.rounds.base, x)
    case Barrier(x) => AllToAll.Enabled(b, s.barriers, x) && Arrived(c, s, x.rank)
  }

  /** Rank r goes on to its next round. */
  ghost function NextRound(c: Config, t: Traced, r: nat): (t': Traced)
    requires Formed(c, t) && Enabled(c, t.base, Exchange.Finish(r))
    ensures Formed(c, t')
  {
    Traced(Apply(c, t.base, Exchange.Finish(r)), t.inbox[r := []], t.done[r := t.done[r] + [t.inbox[r]]])
  }

  /** The end of the barrier is the end of the round. */
  ghost function Do(c: Config, b: AllToAll.Config, s: Both, e: Event): (s': Both)
    requires Shaped(c, b, s) && Can(c, b, s, e)
    ensures Shaped(c, b, s')
  {
    match e
    case Round(x) => s.(rounds := Go(c, s.rounds, x))
    case Barrier(x) =>
      Both(if x.Finish? then NextRound(c, s.rounds, x.rank) else s.rounds, AllToAll.Apply(b, s.barriers, x))
  }

  ghost predicate IsRunOfBoth(c: Config, b: AllToAll.Config, es: seq<Event>)
    requires Fits(c, b)
    decreases |es|, 0
  {
    es == [] || (IsRunOfBoth(c, b, es[..|es| - 1]) && Can(c, b, Result(c, b, es[..|es| - 1]), es[|es| - 1]))
  }

  ghost function Result(c: Config, b: AllToAll.Config, es: seq<Event>): (s: Both)
    requires Fits(c, b) && IsRunOfBoth(c, b, es)
    ensures Shaped(c, b, s)
    decreases |es|, 1
  {
    if es == [] then Both(Start(c), AllToAll.Init(b))
    else Do(c, b, Result(c, b, es[..|es| - 1]), es[|es| - 1])
  }

  // ---------------------------------------------------------------- the barrier is one

  ghost predicate LinkedAt(c: Config, s: Both, x: nat)
    requires x < |s.rounds.base.ranks| && x < |s.barriers.ranks|
  {
    var rank := s.rounds.base.ranks[x];
    && AllToAll.Stage(s.barriers, x) == rank.round
    && (s.barriers.ranks[x].pc > 0 ==> rank.pc == c.Calls())
  }

  ghost predicate Linked(c: Config, b: AllToAll.Config, s: Both) {
    Shaped(c, b, s) && forall x: nat :: x < c.n ==> LinkedAt(c, s, x)
  }

  lemma LinkedStep(c: Config, b: AllToAll.Config, s: Both, e: Event)
    requires Linked(c, b, s) && Can(c, b, s, e)
    ensures Linked(c, b, Do(c, b, s, e))
  {
    forall x: nat | x < c.n ensures LinkedAt(c, Do(c, b, s, e), x) { assert LinkedAt(c, s, x); }
  }

  /** When r leaves barrier k every rank is through the exchange of round k. */
  lemma BarrierSeparates(c: Config, b: AllToAll.Config, s: Both, ys: seq<AllToAll.Event>, r: nat, x: nat)
    requires Linked(c, b, s) && Can(c, b, s, Barrier(AllToAll.Finish(r))) && x < c.n
    requires AllToAll.IsRun(b, ys) && AllToAll.After(b, ys) == s.barriers
    ensures Through(c, s.rounds.base, r, x)
  {
    if x != r {
      assert LinkedAt(c, s, x);
      AllEntered(b, ys, r, x);
    }
  }

  /** By then every other rank has begun the barrier. */
  lemma AllEntered(b: AllToAll.Config, ys: seq<AllToAll.Event>, r: nat, x: nat)
    requires b.Valid() && AllToAll.IsRun(b, ys) && AllToAll.Enabled(b, AllToAll.After(b, ys), AllToAll.Finish(r))
    requires x < b.n && r < b.n && x != r
    ensures var s := AllToAll.After(b, ys);
            && AllToAll.Stage(s, r) <= AllToAll.Stage(s, x)
            && (AllToAll.Stage(s, x) == AllToAll.Stage(s, r) ==> s.ranks[x].pc > 0)
  {
    var s, e := AllToAll.After(b, ys), AllToAll.Finish(r);
    BarrierStep(b, ys, e);
    AllToAllInvariant.NoneCompletesBeforeAllEnter(b, ys + [e], r, x, AllToAll.Stage(s, r));
    CounterBounds(AllToAll.KindOf(b, s, x), b.Peers(), 0);
  }

  lemma {:induction false} BarrierStep(b: AllToAll.Config, ys: seq<AllToAll.Event>, e: AllToAll.Event)
    requires AllToAll.IsRun(b, ys) && AllToAll.Enabled(b, AllToAll.After(b, ys), e)
    ensures AllToAll.IsRun(b, ys + [e]) && AllToAll.After(b, ys + [e]) == AllToAll.Apply(b, AllToAll.After(b, ys), e)
  {
    var zs := ys + [e];
    assert zs[..|zs| - 1] == ys && zs[|zs| - 1] == e;
  }

  lemma RoundStep(c: Config, xs: seq<Exchange.Event>, e: Exchange.Event)
    requires c.Valid() && IsSeparatedRun(c, xs) && CanGo(c, Trace(c, xs), e)
    ensures IsSeparatedRun(c, xs + [e]) && Trace(c, xs + [e]) == Go(c, Trace(c, xs), e)
  {
    assert (xs + [e])[..|xs|] == xs;
  }

  /** A run of both is a run of separated rounds and a run of barriers. */
  lemma {:induction false} Projects(c: Config, b: AllToAll.Config, es: seq<Event>)
    returns (xs: seq<Exchange.Event>, ys: seq<AllToAll.Event>)
    requires Fits(c, b) && IsRunOfBoth(c, b, es)
    ensures Linked(c, b, Result(c, b, es))
    ensures IsSeparatedRun(c, xs) && Trace(c, xs) == Result(c, b, es).rounds
    ensures AllToAll.IsRun(b, ys) && AllToAll.After(b, ys) == Result(c, b, es).barriers
  {
    if es == [] {
      xs, ys := [], [];
    } else {
      var s, e := Result(c, b, es[..|es| - 1]), es[|es| - 1];
      xs, ys := Projects(c, b, es[..|es| - 1]);
      LinkedStep(c, b, s, e);
      xs, ys := OneMore(c, b, s, e, xs, ys);
    }
  }

  lemma OneMore(c: Config, b: AllToAll.Config, s: Both, e: Event, xs: seq<Exchange.Event>, ys: seq<AllToAll.Event>)
    returns (xs': seq<Exchange.Event>, ys': seq<AllToAll.Event>)
    requires Linked(c, b, s) && Can(c, b, s, e)
    requires IsSeparatedRun(c, xs) && Trace(c, xs) == s.rounds
    requires AllToAll.IsRun(b, ys) && AllToAll.After(b, ys) == s.barriers
    ensures IsSeparatedRun(c, xs') && Trace(c, xs') == Do(c, b, s, e).rounds
    ensures AllToAll.IsRun(b, ys') && AllToAll.After(b, ys') == Do(c, b, s, e).barriers
  {
    xs', ys' := xs, ys;
    if e.Round? {
      RoundStep(c, xs, e.step);
      xs' := xs + [e.step];
    } else {
      BarrierStep(b, ys, e.move);
      ys' := ys + [e.move];
      if e.move.Finish? {
        var r := e.move.rank;
        forall x: nat | x < c.n ensures Through(c, s.rounds.base, r, x) { BarrierSeparates(c, b, s, ys, r, x); }
        RoundStep(c, xs, Exchange.Finish(r));
        xs' := xs + [Exchange.Finish(r)];
      }
    }
  }

  /** With the barrier's own messages in flight too, every completed round received exactly one message of
      each edge into the rank, sent in that round. */
  lemma BarrieredRoundsAreExact(c: Config, b: AllToAll.Config, es: seq<Event>, r: nat, k: nat)
    requires Even(c) && Fits(c, b) && IsRunOfBoth(c, b, es) && r < c.n && k < |Result(c, b, es).rounds.done[r]|
    ensures Exact(c, r, k, Result(c, b, es).rounds.done[r][k])
  {
    var xs, ys := Projects(c, b, es);
    RoundsAreExact(c, xs, r, k);
  }

  /** Barriers whose sends wait for nobody: `barrier`, and `ibarrier` followed by its wait. */
  ghost predicate EagerBarriers(b: AllToAll.Config) {
    forall r: nat, k: nat {:trigger b.kind(r, k)} :: b.kind(r, k) != PostFirst(true)
  }

  /** Exchange and barrier together never get stuck. */
  lemma BarrieredNeverStuck(c: Config, b: AllToAll.Config, es: seq<Event>)
    requires Even(c) && Fits(c, b) && EagerBarriers(b) && IsRunOfBoth(c, b, es)
    ensures AllDone(c, Result(c, b, es).rounds.base) || exists e :: Can(c, b, Result(c, b, es), e)
  {
    var xs, ys := Projects(c, b, es);
    var s := Result(c, b, es);
    SeparatedInvRun(c, xs);
    var base := s.rounds.base;
    if !AllDone(c, base) {
      var p := Slowest(base);
      var late :| 0 <= late < c.n && base.ranks[late].round != c.rounds;
      assert RankOk(c, base, late);
      if q: nat :| q < c.n && base.ranks[q].round == base.ranks[p].round && Enabled(c, base, Exec(q)) {
        assert Can(c, b, s, Round(Exec(q)));
      } else if q: nat :| q < c.n && base.ranks[q].round == base.ranks[p].round && base.ranks[q].pc < c.Calls() {
        BlockedRankMatches(c, s.rounds, q);
        var i :| CanGo(c, s.rounds, Match(i));
        assert Can(c, b, s, Round(Match(i)));
      } else {
        forall q: nat | q < c.n && base.ranks[q].round == base.ranks[p].round ensures base.ranks[q].pc == c.Calls() {
          assert RankOk(c, base, q);
        }
        BarrierMoves(c, b, s, ys, p);
      }
    }
  }

  /** Once all slowest ranks are through their exchange, one of them can go on in the barrier. */
  lemma BarrierMoves(c: Config, b: AllToAll.Config, s: Both, ys: seq<AllToAll.Event>, p: nat)
    requires Linked(c, b, s) && EagerBarriers(b) && AllToAll.IsRun(b, ys) && AllToAll.After(b, ys) == s.barriers
    requires p < c.n && s.rounds.base.ranks[p].round < c.rounds
    requires forall q: nat :: q < c.n ==> s.rounds.base.ranks[p].round <= s.rounds.base.ranks[q].round
    requires forall q: nat :: q < c.n && s.rounds.base.ranks[q].round == s.rounds.base.ranks[p].round ==>
               s.rounds.base.ranks[q].pc == c.Calls()
    ensures exists e :: Can(c, b, s, e)
  {
    AllToAllInvariant.InvRun(b, ys);
    assert LinkedAt(c, s, p);
    var e := AllToAllProgress.SlowestEvent(b, s.barriers);
    assert LinkedAt(c, s, e.rank);
    assert Can(c, b, s, Barrier(e));
  }

  /** On a right ring the rounds `neighbor_allgather` and `barrier` repeat deliver, in every schedule, exactly
      that round's blocks of the next and the previous rank. */
  lemma BarrieredRingIsExact(n: nat, rounds: nat, b: AllToAll.Config, block: (nat, nat, nat) -> Buffer, es: seq<Event>,
                             r: nat, k: nat)
    requires n >= 2 && Divides(n) && r < n && Fits(BlockingRounds(n, rounds), b)
    requires IsRunOfBoth(BlockingRounds(n, rounds), b, es)
    requires k < |Result(BlockingRounds(n, rounds), b, es).rounds.done[r]|
    ensures multiset(RoundBlocks(block, Result(BlockingRounds(n, rounds), b, es).rounds.done[r][k]))
            == multiset{block(Next(r, n), k, 0), block(Prev(r, n), k, 1)}
  {
    var xs, ys := Projects(BlockingRounds(n, rounds), b, es);
    NeighborRoundsAreExact(n, rounds, block, xs, r, k);
  }

  /** For `neighbor_allgather` these are the fronts of their send buffers. */
  lemma BarrieredAllgatherIsExact(n: nat, rounds: nat, b: AllToAll.Config, w: nat, sendbuf: (nat, nat) -> Buffer,
                                  es: seq<Event>, r: nat, k: nat)
    requires n >= 2 && Divides(n) && r < n && Fits(BlockingRounds(n, rounds), b)
    requires IsRunOfBoth(BlockingRounds(n, rounds), b, es)
    requires k < |Result(BlockingRounds(n, rounds), b, es).rounds.done[r]|
    ensures var next, prev := sendbuf(Next(r, n), k), sendbuf(Prev(r, n), k);
            multiset(RoundBlocks(FrontOf(w, sendbuf), Result(BlockingRounds(n, rounds), b, es).rounds.done[r][k]))
            == multiset{next[..Min(w, |next|)], prev[..Min(w, |prev|)]}
  {
    var xs, ys := Projects(BlockingRounds(n, rounds), b, es);
    AllgatherRoundsAreExact(n, rounds, w, sendbuf, xs, r, k);
  }

  /** For `neighbor_alltoall` with both pieces inside every buffer, next's first piece and prev's second. */
  lemma BarrieredAlltoallIsExact(n: nat, rounds: nat, b: AllToAll.Config, w: nat, sendbuf: (nat, nat) -> Buffer,
                                 es: seq<Event>, r: nat, k: nat)
    requires n >= 2 && Divides(n) && r < n && Fits(BlockingRounds(n, rounds), b)
    requires IsRunOfBoth(BlockingRounds(n, rounds), b, es)
    requires k < |Result(BlockingRounds(n, rounds), b, es).rounds.done[r]|
    requires forall q: nat :: q < n ==> w < |sendbuf(q, k)|
    ensures var next, prev := sendbuf(Next(r, n), k), sendbuf(Prev(r, n), k);
            multiset(RoundBlocks(PieceOf(w, sendbuf), Result(BlockingRounds(n, rounds), b, es).rounds.done[r][k]))
            == multiset{next[..w], prev[w..Min(w + w, |prev|)]}
  {
    var xs, ys := Projects(BlockingRounds(n, rounds), b, es);
    AlltoallRoundsAreExact(n, rounds, w, sendbuf, xs, r, k);
  }

  lemma BarrieredRingNeverStuck(n: nat, rounds: nat, b: AllToAll.Config, es: seq<Event>)
    requires n >= 2 && Divides(n) && Fits(BlockingRounds(n, rounds), b) && EagerBarriers(b)
    requires IsRunOfBoth(BlockingRounds(n, rounds), b, es)
    ensures var c, s := BlockingRounds(n, rounds), Result(BlockingRounds(n, rounds), b, es);
            AllDone(c, s.rounds.base) || exists e :: Can(c, b, s, e)
  {
    RingIsEven(n, rounds);
    BarrieredNeverStuck(BlockingRounds(n, rounds), b, es);
  }
}
