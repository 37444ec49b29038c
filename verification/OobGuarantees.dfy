/** What back-to-back out-of-band rounds guarantee: exact results, bounded skew, progress, conservation. */
module OobGuarantees {
  import opened Arithmetic
  import opened Sums
  import opened Network
  import opened Programs
  import opened OobAllgather

  /** Over any number of back-to-back rounds: what rank r holds for its j-th peer after round k is that
      peer's round-k input. */
  lemma RoundsAreExact(c: Config, es: seq<Event>, r: nat, k: nat, j: nat)
    requires c.n >= 1 && IsRun(c, es) && r < c.n
    requires k < |After(c, es).ranks[r].done| && j < c.n - 1
    ensures |After(c, es).ranks[r].done[k]| == c.n - 1
    ensures After(c, es).ranks[r].done[k][j] == Full(Msg(PeerAt(r, j), k, c.input(PeerAt(r, j), k)))
  {
    InvRun(c, es);
    assert RankOk(c, After(c, es), r);
  }

  /** Ranks never differ by more than one completed round. */
  lemma SkewAtMostOne(c: Config, es: seq<Event>, p: nat, q: nat)
    requires c.n >= 1 && IsRun(c, es) && p < c.n && q < c.n
    ensures |After(c, es).ranks[q].done| <= |After(c, es).ranks[p].done| + 1
  {
    InvRun(c, es);
    assert ChannelOk(c, After(c, es), p, q, TagOf(p));
  }

  predicate AllDone(c: Config, s: State) {
    forall r :: 0 <= r < |s.ranks| ==> |s.ranks[r].done| == c.rounds
  }

  lemma Slowest(s: State) returns (p: nat)
    requires s.ranks != []
    ensures p < |s.ranks| && forall q: nat :: q < |s.ranks| ==> |s.ranks[p].done| <= |s.ranks[q].done|
  {
    p := 0;
    for i := 1 to |s.ranks|
      invariant p < |s.ranks| && forall q: nat :: q < i ==> |s.ranks[p].done| <= |s.ranks[q].done|
    {
      if |s.ranks[i].done| < |s.ranks[p].done| { p := i; }
    }
  }

  ghost predicate Blocked(c: Config, s: State, r: nat) {
    Working(c, s, r) && !Enabled(c, s, Exec(r)) && !Enabled(c, s, Finish(r))
  }

  predicate InSend(c: Config, s: State, r: nat) {
    Working(c, s, r) && s.ranks[r].pc < Length(c.Kind(), c.Peers()) && NextOp(c, s, r).AwaitSend?
  }

  lemma BlockedShape(c: Config, s: State, r: nat)
    requires Inv(c, s) && Blocked(c, s, r)
    ensures s.ranks[r].pc < Length(c.Kind(), c.Peers()) && Posted(c.Kind(), c.Peers(), s.ranks[r].pc) == c.Peers()
    ensures NextOp(c, s, r).AwaitSend?
            || (NextOp(c, s, r).Wait? && Sent(c.Kind(), c.Peers(), s.ranks[r].pc) == c.Peers())
  {
    assert RankOk(c, s, r);
    CountersFollowProgram(c.Kind(), c.Peers(), s.ranks[r].pc);
  }

  lemma SendUnblocks(c: Config, s: State, r: nat) returns (e: Event)
    requires Inv(c, s) && r < c.n && Blocked(c, s, r) && InSend(c, s, r)
    requires forall q: nat :: q < c.n ==> |s.ranks[r].done| <= |s.ranks[q].done|
    requires forall q: nat :: q < c.n && |s.ranks[q].done| == |s.ranks[r].done| ==> Blocked(c, s, q)
    ensures Enabled(c, s, e)
  {
    var j := NextOp(c, s, r).peer;
    var d := PeerAt(r, j);
    CountersFollowProgram(c.Kind(), c.Peers(), s.ranks[r].pc);
    PeerIndexInverse(c.n, r, j, d);
    PeerIndexInverse(c.n, d, 0, r);
    assert ChannelOk(c, s, r, d, TagOf(r)) && RankOk(c, s, d);
    assert |s.ranks[d].done| == |s.ranks[r].done|;
    BlockedShape(c, s, d);
    e := Match(d, IndexOf(d, r), r);
  }

  lemma WaitUnblocks(c: Config, s: State, r: nat) returns (e: Event)
    requires Inv(c, s) && r < c.n && Blocked(c, s, r) && !InSend(c, s, r)
    requires forall q: nat :: q < c.n ==> |s.ranks[r].done| <= |s.ranks[q].done|
    requires forall q: nat :: q < c.n && |s.ranks[q].done| == |s.ranks[r].done| ==> Blocked(c, s, q) && !InSend(c, s, q)
    ensures Enabled(c, s, e)
  {
    BlockedShape(c, s, r);
    CountersFollowProgram(c.Kind(), c.Peers(), s.ranks[r].pc);
    var j := NextOp(c, s, r).slot;
    var q := PeerAt(r, j);
    PeerIndexInverse(c.n, r, j, q);
    PeerIndexInverse(c.n, q, 0, r);
    assert ChannelOk(c, s, q, r, TagOf(q)) && RankOk(c, s, r);
    if |s.ranks[q].done| == |s.ranks[r].done| { BlockedShape(c, s, q); }
    e := Match(r, j, q);
  }

  /** Receives before sends: no reachable state is stuck, even when a send completes only once a
      posted receive has matched it. */
  lemma NeverStuck(c: Config, es: seq<Event>)
    requires c.n >= 1 && IsRun(c, es)
    ensures AllDone(c, After(c, es)) || exists e :: Enabled(c, After(c, es), e)
  {
    InvRun(c, es);
    var s := After(c, es);
    if !AllDone(c, s) {
      var p := Slowest(s);
      var late :| 0 <= late < c.n && |s.ranks[late].done| != c.rounds;
      assert RankOk(c, s, late);
      if r: nat :| r < c.n && |s.ranks[r].done| == |s.ranks[p].done| && !Blocked(c, s, r) {
        assert Enabled(c, s, Exec(r)) || Enabled(c, s, Finish(r));
      } else if r: nat :| r < c.n && |s.ranks[r].done| == |s.ranks[p].done| && InSend(c, s, r) {
        var e := SendUnblocks(c, s, r);
      } else {
        var e := WaitUnblocks(c, s, p);
      }
    }
  }

  /** When all rounds are done nothing is left in any channel. */
  lemma NothingLeftBehind(c: Config, es: seq<Event>, ch: Chan)
    requires c.n >= 1 && IsRun(c, es) && AllDone(c, After(c, es))
    ensures !After(c, es).net.Pending(ch)
  {
    InvRun(c, es);
    var s := After(c, es);
    assert ChannelOk(c, s, ch.src, ch.dst, ch.tag);
    if ch.src < c.n && ch.dst < c.n && ch.src != ch.dst && ch.tag == TagOf(ch.src) {
      assert RankOk(c, s, ch.src) && RankOk(c, s, ch.dst);
      CounterBounds(c.Kind(), c.Peers(), 0);
    }
  }

  // ---------------------------------------------------------------- length of runs

  function Filled(slots: seq<Slot>): nat {
    if slots == [] then 0 else Filled(slots[..|slots| - 1]) + if slots[|slots| - 1].Full? then 1 else 0
  }

  lemma {:induction false} FilledOne(slots: seq<Slot>, j: nat, m: Msg)
    requires j < |slots| && slots[j].Open?
    ensures Filled(slots[j := Full(m)]) == Filled(slots) + 1
  {
    var last := |slots| - 1;
    if j == last {
      assert slots[j := Full(m)][..last] == slots[..last];
    } else {
      assert slots[j := Full(m)][..last] == slots[..last][j := Full(m)];
      FilledOne(slots[..last], j, m);
    }
  }

  lemma {:induction false} FilledAllOrNone(slots: seq<Slot>)
    ensures Filled(slots) <= |slots|
    ensures (forall j :: 0 <= j < |slots| ==> slots[j].Full?) ==> Filled(slots) == |slots|
    ensures (forall j :: 0 <= j < |slots| ==> slots[j].Open?) ==> Filled(slots) == 0
  {
    if slots != [] { FilledAllOrNone(slots[..|slots| - 1]); }
  }

  /** Calls, matches and the return of one round. */
  function PerRound(c: Config): nat
    requires c.n >= 1
  {
    5 * c.Peers() + 1
  }

  function RankPerformed(c: Config, rank: Rank): nat
    requires c.n >= 1
  {
    |rank.done| * PerRound(c) + rank.pc + Filled(rank.slots)
  }

  function Performed(c: Config, s: State): (row: seq<int>)
    requires c.n >= 1
  {
    seq(|s.ranks|, r requires 0 <= r < |s.ranks| => RankPerformed(c, s.ranks[r]))
  }

  lemma FinishPerforms(c: Config, s: State, r: nat)
    requires Inv(c, s) && Enabled(c, s, Finish(r))
    ensures RankPerformed(c, Apply(c, s, Finish(r)).ranks[r]) == RankPerformed(c, s.ranks[r]) + 1
  {
    assert RankOk(c, s, r);
    CounterBounds(c.Kind(), c.Peers(), s.ranks[r].pc);
    FilledAllOrNone(s.ranks[r].slots);
    FilledAllOrNone(AllOpen(c));
    MulSucc(|s.ranks[r].done|, PerRound(c));
  }

  lemma RankPerforms(c: Config, s: State, e: Event)
    requires Inv(c, s) && Enabled(c, s, e)
    ensures RankPerformed(c, Apply(c, s, e).ranks[e.rank]) == RankPerformed(c, s.ranks[e.rank]) + 1
  {
    match e
    case Exec(r) =>
    case Match(r, j, q) => FilledOne(s.ranks[r].slots, j, s.net.Head(Chan(q, r, TagOf(PeerAt(r, j)))));
    case Finish(r) => FinishPerforms(c, s, r);
  }

  lemma StepPerforms(c: Config, s: State, e: Event)
    requires Inv(c, s) && Enabled(c, s, e)
    ensures Sum(Performed(c, Apply(c, s, e))) == Sum(Performed(c, s)) + 1
  {
    RankPerforms(c, s, e);
    OthersUnmoved(c, s, e);
    var row := Performed(c, s);
    assert Performed(c, Apply(c, s, e)) == row[e.rank := row[e.rank] + 1];
    SumUpdate(row, e.rank, row[e.rank] + 1);
  }

  lemma OthersUnmoved(c: Config, s: State, e: Event)
    requires Enabled(c, s, e)
    ensures Apply(c, s, e).ranks == s.ranks[e.rank := Apply(c, s, e).ranks[e.rank]]
  {
  }

  lemma RankSettled(c: Config, s: State, r: nat)
    requires Inv(c, s) && r < c.n && |s.ranks[r].done| == c.rounds
    ensures RankPerformed(c, s.ranks[r]) == c.rounds * PerRound(c)
  {
    assert RankOk(c, s, r);
    CounterBounds(c.Kind(), c.Peers(), 0);
    FilledAllOrNone(s.ranks[r].slots);
  }

  /** Runs cannot go on for ever: the number of events is read off the state, and a complete run has
      exactly 5 * (n - 1) + 1 of them per rank and round. */
  lemma {:induction false} RunLength(c: Config, es: seq<Event>)
    requires c.n >= 1 && IsRun(c, es)
    ensures |es| == Sum(Performed(c, After(c, es)))
    ensures AllDone(c, After(c, es)) ==> |es| == c.rounds * PerRound(c) * c.n
  {
    var s := After(c, es);
    if es == [] {
      FilledAllOrNone(AllOpen(c));
      SumOthers(c.n, c.n, 0);
      assert Performed(c, Init(c)) == Others(c.n, c.n, 0);
    } else {
      var before := es[..|es| - 1];
      RunLength(c, before);
      InvRun(c, before);
      StepPerforms(c, After(c, before), es[|es| - 1]);
    }
    InvRun(c, es);
    if AllDone(c, s) {
      forall r: nat | r < c.n ensures Performed(c, s)[r] == c.rounds * PerRound(c) { RankSettled(c, s, r); }
      assert Performed(c, s) == Others(c.n, c.n, c.rounds * PerRound(c));
      SumOthers(c.n, c.n, c.rounds * PerRound(c));
    }
  }
}
