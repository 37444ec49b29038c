/** What every step of an all-to-all run keeps, and the synchronisation it gives. */
module AllToAllInvariant {
  import opened Arithmetic
  import opened Sums
  import opened Network
  import opened Programs
  import opened AllToAll

  /** How many of the first k stages use tag t. */
  function Count(tags: seq<nat>, t: nat, k: nat): nat
    requires k <= |tags|
  {
    if k == 0 then 0 else Count(tags, t, k - 1) + (if tags[k - 1] == t then 1 else 0)
  }

  /** Everything q sends to r on tag t in its first k stages, in order. */
  function Expected(c: Config, q: nat, r: nat, t: nat, k: nat): seq<Msg>
    requires k <= c.Stages()
  {
    if k == 0 then []
    else if c.tags[k - 1] == t then Expected(c, q, r, t, k - 1) + [Msg(q, k - 1, c.input(q, k - 1, r))]
    else Expected(c, q, r, t, k - 1)
  }

  lemma {:induction false} ExpectedLength(c: Config, q: nat, r: nat, t: nat, k: nat)
    requires k <= c.Stages()
    ensures |Expected(c, q, r, t, k)| == Count(c.tags, t, k)
  {
    if k > 0 {
      ExpectedLength(c, q, r, t, k - 1);
    }
  }

  lemma {:induction false} CountMonotone(tags: seq<nat>, t: nat, j: nat, k: nat)
    requires j <= k <= |tags|
    ensures Count(tags, t, j) <= Count(tags, t, k)
    decreases k - j
  {
    if j < k {
      CountMonotone(tags, t, j, k - 1);
    }
  }

  /** The stage-j message sits at its own place of the channel, however far the sender has run ahead. */
  lemma {:induction false} ExpectedAt(c: Config, q: nat, r: nat, t: nat, j: nat, k: nat)
    requires j < k <= c.Stages() && c.tags[j] == t
    ensures Count(c.tags, t, j) < |Expected(c, q, r, t, k)|
    ensures Expected(c, q, r, t, k)[Count(c.tags, t, j)] == Msg(q, j, c.input(q, j, r))
    decreases k - j
  {
    ExpectedLength(c, q, r, t, j);
    if j + 1 < k {
      ExpectedAt(c, q, r, t, j, k - 1);
    }
  }

  /** Rank q has sent to r in its stages before this one. */
  function SentUpTo(c: Config, s: State, q: nat, r: nat): nat
    requires c.n >= 1 && q < |s.ranks| && q != r
  {
    Stage(s, q) + if IndexOf(q, r) < SentBy(c, s, q) then 1 else 0
  }

  ghost predicate RankOk(c: Config, s: State, r: nat) {
    c.n >= 1 && r < |s.ranks| ==>
      && Stage(s, r) <= c.Stages()
      && (Stage(s, r) == c.Stages() ==> s.ranks[r].pc == 0 && s.ranks[r].inbox == [])
      && s.ranks[r].pc <= LengthOf(c, s, r)
      && Waited(KindOf(c, s, r), c.Peers(), s.ranks[r].pc) <= |s.ranks[r].inbox| <= PostedBy(c, s, r)
  }

  /** Channels carry what the senders' progress says, in stage order; there are no self channels. */
  ghost predicate LogOk(c: Config, s: State, q: nat, r: nat, t: nat) {
    && s.net.Taken(Chan(q, r, t)) <= |s.net.Log(Chan(q, r, t))|
    && if c.n >= 1 && q < |s.ranks| && r < |s.ranks| && q != r
       then SentUpTo(c, s, q, r) <= c.Stages()
            && s.net.Log(Chan(q, r, t)) == Expected(c, q, r, t, SentUpTo(c, s, q, r))
       else s.net.Log(Chan(q, r, t)) == []
  }

  function Row(s: State, r: nat, t: nat): (row: seq<int>)
  {
    seq(|s.ranks|, q requires 0 <= q => s.net.Taken(Chan(q, r, t)))
  }

  function CurrentInbox(c: Config, s: State, r: nat, t: nat): nat
    requires r < |s.ranks|
  {
    if Stage(s, r) < c.Stages() && c.tags[Stage(s, r)] == t then |s.ranks[r].inbox| else 0
  }

  /** Cumulative count: how much r has matched on t, whoever it came from. */
  ghost predicate TotalOk(c: Config, s: State, r: nat, t: nat) {
    c.n >= 1 && r < |s.ranks| && Stage(s, r) <= c.Stages() ==>
      Sum(Row(s, r, t)) == Count(c.tags, t, Stage(s, r)) * c.Peers() + CurrentInbox(c, s, r, t)
  }

  /** Nobody is past a stage that somebody has not begun. */
  ghost predicate SyncOk(c: Config, s: State, p: nat, q: nat) {
    c.n >= 1 && p < |s.ranks| && q < |s.ranks| && p != q ==>
      Stage(s, q) <= Stage(s, p) + if SentBy(c, s, p) > 0 then 1 else 0
  }

  ghost predicate Inv(c: Config, s: State) {
    && c.n >= 1
    && |s.ranks| == c.n
    && (forall r: nat :: RankOk(c, s, r))
    && (forall q: nat, r: nat, t: nat :: LogOk(c, s, q, r, t))
    && (forall r: nat, t: nat :: TotalOk(c, s, r, t))
    && (forall p: nat, q: nat :: SyncOk(c, s, p, q))
  }

  lemma InvInit(c: Config)
    requires c.Valid()
    ensures Inv(c, Init(c))
  {
    var s := Init(c);
    forall r: nat, t: nat ensures TotalOk(c, s, r, t) {
      SumOthers(c.n, r, 0);
      assert Row(s, r, t) == Others(c.n, r, 0);
    }
    forall r: nat ensures RankOk(c, s, r) {
      if r < c.n { CounterBounds(KindOf(c, s, r), c.Peers(), 0); }
    }
  }

  predicate Sends(c: Config, s: State, r: nat)
    requires Working(c, s, r) && s.ranks[r].pc < LengthOf(c, s, r)
  {
    OpAt(KindOf(c, s, r), c.Peers(), s.ranks[r].pc).Send?
  }

  /** What a call does to its rank's counters, and to the network: a send goes to the next peer in line. */
  lemma ExecEffect(c: Config, s: State, r: nat)
    requires c.n >= 1 && |s.ranks| == c.n && Enabled(c, s, Exec(r))
    ensures var s' := Apply(c, s, Exec(r));
            && SentBy(c, s', r) == SentBy(c, s, r) + (if Sends(c, s, r) then 1 else 0)
            && (Sends(c, s, r) ==> SentBy(c, s, r) < c.Peers())
            && s'.net == if Sends(c, s, r) then s.net.Push(NextChan(c, s, r), NextMsg(c, s, r)) else s.net
  {
    CountersFollowProgram(KindOf(c, s, r), c.Peers(), s.ranks[r].pc);
  }

  function NextChan(c: Config, s: State, r: nat): Chan
    requires Working(c, s, r)
  {
    Chan(r, PeerAt(r, SentBy(c, s, r)), TagOf(c, s, r))
  }

  function NextMsg(c: Config, s: State, r: nat): Msg
    requires Working(c, s, r)
  {
    Msg(r, Stage(s, r), c.input(r, Stage(s, r), PeerAt(r, SentBy(c, s, r))))
  }

  lemma ExecSelfRankOk(c: Config, s: State, r: nat)
    requires RankOk(c, s, r) && Enabled(c, s, Exec(r))
    ensures RankOk(c, Apply(c, s, Exec(r)), r)
  {
    var kind, m, rank := KindOf(c, s, r), c.Peers(), s.ranks[r];
    NextCounters(kind, m, rank.pc, |rank.inbox|);
    assert OpAt(kind, m, rank.pc).Wait? ==> OpAt(kind, m, rank.pc).slot < |rank.inbox|;
  }

  /** A call keeps the matched receives between those waited for and those posted. */
  lemma NextCounters(kind: Kind, m: nat, pc: nat, got: nat)
    requires pc < Length(kind, m) && Waited(kind, m, pc) <= got <= Posted(kind, m, pc)
    requires OpAt(kind, m, pc).Wait? ==> OpAt(kind, m, pc).slot < got
    ensures Waited(kind, m, pc + 1) <= got <= Posted(kind, m, pc + 1)
  {
    CountersFollowProgram(kind, m, pc);
  }

  lemma ExecRankOk(c: Config, s: State, r: nat, x: nat)
    requires Inv(c, s) && Enabled(c, s, Exec(r))
    ensures RankOk(c, Apply(c, s, Exec(r)), x)
  {
    assert RankOk(c, s, x);
    if x == r { ExecSelfRankOk(c, s, r); }
  }

  /** A channel the caller does not send on. */
  lemma OtherLogOk(c: Config, s: State, r: nat, q: nat, x: nat, t: nat)
    requires LogOk(c, s, q, x, t) && Enabled(c, s, Exec(r)) && |s.ranks| == c.n
    requires q != r || x >= c.n || x == r
    ensures LogOk(c, Apply(c, s, Exec(r)), q, x, t)
  {
    ExecEffect(c, s, r);
    if Sends(c, s, r) {
      PeerIndexInverse(c.n, r, SentBy(c, s, r), PeerAt(r, SentBy(c, s, r)));
    }
  }

  /** A channel from the caller: a send extends one of them, by the message expected there next. */
  lemma OwnLogOk(c: Config, s: State, r: nat, x: nat, t: nat)
    requires LogOk(c, s, r, x, t) && Enabled(c, s, Exec(r)) && |s.ranks| == c.n && x < c.n && x != r
    ensures LogOk(c, Apply(c, s, Exec(r)), r, x, t)
  {
    ExecEffect(c, s, r);
    PeerIndexInverse(c.n, r, SentBy(c, s, r), x);
  }

  lemma ExecLogOk(c: Config, s: State, r: nat, q: nat, x: nat, t: nat)
    requires Inv(c, s) && Enabled(c, s, Exec(r))
    ensures LogOk(c, Apply(c, s, Exec(r)), q, x, t)
  {
    assert LogOk(c, s, q, x, t);
    if q == r && x < c.n && x != r {
      OwnLogOk(c, s, r, x, t);
    } else {
      OtherLogOk(c, s, r, q, x, t);
    }
  }

  lemma ExecTotalOk(c: Config, s: State, r: nat, x: nat, t: nat)
    requires Inv(c, s) && Enabled(c, s, Exec(r))
    ensures TotalOk(c, Apply(c, s, Exec(r)), x, t)
  {
    var s' := Apply(c, s, Exec(r));
    assert TotalOk(c, s, x, t);
    assert Row(s', x, t) == Row(s, x, t);
  }

  lemma InvExec(c: Config, s: State, r: nat)
    requires Inv(c, s) && Enabled(c, s, Exec(r))
    ensures Inv(c, Apply(c, s, Exec(r)))
  {
    var s' := Apply(c, s, Exec(r));
    forall x: nat ensures RankOk(c, s', x) { ExecRankOk(c, s, r, x); }
    forall q: nat, x: nat, t: nat ensures LogOk(c, s', q, x, t) { ExecLogOk(c, s, r, q, x, t); }
    forall x: nat, t: nat ensures TotalOk(c, s', x, t) { ExecTotalOk(c, s, r, x, t); }
    ExecEffect(c, s, r);
    forall p: nat, q: nat ensures SyncOk(c, s', p, q) { assert SyncOk(c, s, p, q); }
  }

  lemma MatchTotalOk(c: Config, s: State, r: nat, q: nat, x: nat, t: nat)
    requires Inv(c, s) && Enabled(c, s, Match(r, q))
    ensures TotalOk(c, Apply(c, s, Match(r, q)), x, t)
  {
    var s' := Apply(c, s, Match(r, q));
    assert TotalOk(c, s, x, t);
    if x == r && t == TagOf(c, s, r) {
      assert Row(s', x, t) == Row(s, x, t)[q := Row(s, x, t)[q] + 1];
      SumUpdate(Row(s, x, t), q, Row(s, x, t)[q] + 1);
    } else {
      assert Row(s', x, t) == Row(s, x, t);
    }
  }

  lemma InvMatch(c: Config, s: State, r: nat, q: nat)
    requires Inv(c, s) && Enabled(c, s, Match(r, q))
    ensures Inv(c, Apply(c, s, Match(r, q)))
  {
    var s' := Apply(c, s, Match(r, q));
    forall x: nat ensures RankOk(c, s', x) { assert RankOk(c, s, x); }
    forall p: nat, x: nat, t: nat ensures LogOk(c, s', p, x, t) { assert LogOk(c, s, p, x, t); }
    forall x: nat, t: nat ensures TotalOk(c, s', x, t) { MatchTotalOk(c, s, r, q, x, t); }
    forall p: nat, x: nat ensures SyncOk(c, s', p, x) { assert SyncOk(c, s, p, x); }
  }

  /** The pigeonhole: if nobody can have sent r more than k messages' worth on t, and r has matched
      that much in all, then r has matched exactly that much from every peer. */
  lemma FullRow(c: Config, s: State, r: nat, t: nat, v: nat)
    requires Inv(c, s) && r < c.n
    requires forall q: nat :: q < c.n && q != r ==> s.net.Taken(Chan(q, r, t)) <= v
    requires Sum(Row(s, r, t)) >= v * c.Peers()
    ensures forall q: nat :: q < c.n && q != r ==> s.net.Taken(Chan(q, r, t)) == v
  {
    assert LogOk(c, s, r, r, t);
    SumOthers(c.n, r, v);
    SumTight(Row(s, r, t), Others(c.n, r, v));
    forall q: nat | q < c.n && q != r ensures s.net.Taken(Chan(q, r, t)) == v {
      assert Row(s, r, t)[q] == Others(c.n, r, v)[q];
    }
  }

  /** The first rank to complete a stage has heard from everybody in it. */
  lemma FirstFinisher(c: Config, s: State, r: nat, p: nat)
    requires Inv(c, s) && Enabled(c, s, Finish(r)) && p < c.n && p != r
    requires forall q: nat :: q < c.n ==> Stage(s, q) <= Stage(s, r)
    ensures Stage(s, p) == Stage(s, r) && SentBy(c, s, p) > 0 && SentUpTo(c, s, p, r) > Stage(s, r)
  {
    var k, t := Stage(s, r), TagOf(c, s, r);
    FinisherTotal(c, s, r);
    forall q: nat | q < c.n && q != r ensures s.net.Taken(Chan(q, r, t)) <= Count(c.tags, t, k + 1) {
      TakenAtMost(c, s, r, t, k, q);
    }
    FullRow(c, s, r, t, Count(c.tags, t, k + 1));
    assert LogOk(c, s, p, r, t);
    ExpectedLength(c, p, r, t, SentUpTo(c, s, p, r));
    if SentUpTo(c, s, p, r) <= k {
      CountMonotone(c.tags, t, SentUpTo(c, s, p, r), k);
    }
  }

  lemma FinisherTotal(c: Config, s: State, r: nat)
    requires Inv(c, s) && Enabled(c, s, Finish(r))
    ensures Sum(Row(s, r, TagOf(c, s, r))) == Count(c.tags, TagOf(c, s, r), Stage(s, r) + 1) * c.Peers()
  {
    assert RankOk(c, s, r) && TotalOk(c, s, r, TagOf(c, s, r));
    CounterBounds(KindOf(c, s, r), c.Peers(), s.ranks[r].pc);
  }

  lemma TakenAtMost(c: Config, s: State, r: nat, t: nat, k: nat, q: nat)
    requires Inv(c, s) && q < c.n && r < c.n && q != r && Stage(s, q) <= k < c.Stages()
    ensures s.net.Taken(Chan(q, r, t)) <= Count(c.tags, t, k + 1)
  {
    assert LogOk(c, s, q, r, t);
    ExpectedLength(c, q, r, t, SentUpTo(c, s, q, r));
    CountMonotone(c.tags, t, SentUpTo(c, s, q, r), k + 1);
  }

  lemma FinishSyncOk(c: Config, s: State, r: nat, p: nat, q: nat)
    requires Inv(c, s) && Enabled(c, s, Finish(r))
    ensures SyncOk(c, Apply(c, s, Finish(r)), p, q)
  {
    assert SyncOk(c, s, p, q);
    if p < c.n && q == r && p != r {
      if x: nat :| x < c.n && Stage(s, x) > Stage(s, r) {
        assert SyncOk(c, s, p, x);
      } else {
        FirstFinisher(c, s, r, p);
      }
    } else if p == r {
      CounterBounds(KindOf(c, s, r), c.Peers(), s.ranks[r].pc);
    }
  }

  lemma FinishLogOk(c: Config, s: State, r: nat, q: nat, x: nat, t: nat)
    requires Inv(c, s) && Enabled(c, s, Finish(r))
    ensures LogOk(c, Apply(c, s, Finish(r)), q, x, t)
  {
    var s' := Apply(c, s, Finish(r));
    assert LogOk(c, s, q, x, t) && RankOk(c, s, r);
    if q == r && x < c.n && x != r {
      PeerIndexInverse(c.n, r, 0, x);
      CounterBounds(KindOf(c, s, r), c.Peers(), s.ranks[r].pc);
      CounterBounds(KindOf(c, s', r), c.Peers(), 0);
      assert SentUpTo(c, s, r, x) == SentUpTo(c, s', r, x);
    }
  }

  lemma FinishRankOk(c: Config, s: State, r: nat, x: nat)
    requires Inv(c, s) && Enabled(c, s, Finish(r))
    ensures RankOk(c, Apply(c, s, Finish(r)), x)
  {
    var s' := Apply(c, s, Finish(r));
    assert RankOk(c, s, x);
    if x == r { CounterBounds(KindOf(c, s', r), c.Peers(), 0); }
  }

  lemma FinishTotalOk(c: Config, s: State, r: nat, x: nat, t: nat)
    requires Inv(c, s) && Enabled(c, s, Finish(r))
    ensures TotalOk(c, Apply(c, s, Finish(r)), x, t)
  {
    var s' := Apply(c, s, Finish(r));
    assert TotalOk(c, s, x, t);
    assert Row(s', x, t) == Row(s, x, t);
    if x == r {
      FullInbox(c, s, r);
      MulSucc(Count(c.tags, t, Stage(s, r)), c.Peers());
    }
  }

  lemma FullInbox(c: Config, s: State, r: nat)
    requires Inv(c, s) && Enabled(c, s, Finish(r))
    ensures |s.ranks[r].inbox| == c.Peers()
  {
    assert RankOk(c, s, r);
    CounterBounds(KindOf(c, s, r), c.Peers(), s.ranks[r].pc);
  }

  lemma InvFinish(c: Config, s: State, r: nat)
    requires Inv(c, s) && Enabled(c, s, Finish(r))
    ensures Inv(c, Apply(c, s, Finish(r)))
  {
    var s' := Apply(c, s, Finish(r));
    forall x: nat ensures RankOk(c, s', x) { FinishRankOk(c, s, r, x); }
    forall p: nat, x: nat, t: nat ensures LogOk(c, s', p, x, t) { FinishLogOk(c, s, r, p, x, t); }
    forall x: nat, t: nat ensures TotalOk(c, s', x, t) { FinishTotalOk(c, s, r, x, t); }
    forall p: nat, x: nat ensures SyncOk(c, s', p, x) { FinishSyncOk(c, s, r, p, x); }
  }

  lemma InvStep(c: Config, s: State, e: Event)
    requires Inv(c, s) && Enabled(c, s, e)
    ensures Inv(c, Apply(c, s, e))
  {
    match e
    case Exec(r) => InvExec(c, s, r);
    case Match(r, q) => InvMatch(c, s, r, q);
    case Finish(r) => InvFinish(c, s, r);
  }

  lemma {:induction false} InvRun(c: Config, es: seq<Event>)
    requires c.Valid() && IsRun(c, es)
    ensures Inv(c, After(c, es))
  {
    if es == [] {
      InvInit(c);
    } else {
      InvRun(c, es[..|es| - 1]);
      InvStep(c, After(c, es[..|es| - 1]), es[|es| - 1]);
    }
  }

  /** Barrier safety (section 5.3 of MPI 3.1): no rank completes stage k before every rank has entered
      it, although a receive may be satisfied by a message of a later stage. */
  lemma NoneCompletesBeforeAllEnter(c: Config, es: seq<Event>, q: nat, p: nat, k: nat)
    requires c.Valid() && IsRun(c, es)
    requires p < c.n && q < c.n && Stage(After(c, es), q) > k
    ensures Entered(c, After(c, es), p, k)
  {
    InvRun(c, es);
    assert SyncOk(c, After(c, es), p, q);
  }

  lemma SkewAtMostOne(c: Config, es: seq<Event>, p: nat, q: nat)
    requires c.Valid() && IsRun(c, es) && p < c.n && q < c.n
    ensures Stage(After(c, es), q) <= Stage(After(c, es), p) + 1
  {
    InvRun(c, es);
    assert SyncOk(c, After(c, es), p, q);
  }
}
