/** Progress and conservation of all-to-all runs. With one tag throughout, Blocking and NonBlocking
    stages freely mixed, these are guarantees of `barrier` and `ibarrier`. */
module AllToAllProgress {
  import opened Arithmetic
  import opened Sums
  import opened Network
  import opened Programs
  import opened AllToAll
  import opened AllToAllInvariant

  /** Calls, matches and returns rank r still owes from stage k on. */
  function Work(c: Config, r: nat, k: nat): nat
    requires c.n >= 1 && k <= c.Stages()
    decreases c.Stages() - k
  {
    if k == c.Stages() then 0 else Length(c.kind(r, k), c.Peers()) + c.Peers() + 1 + Work(c, r, k + 1)
  }

  function RankWork(c: Config, s: State, r: nat): int
    requires c.n >= 1 && r < |s.ranks|
  {
    if Stage(s, r) <= c.Stages() then Work(c, r, Stage(s, r)) - s.ranks[r].pc - |s.ranks[r].inbox| else 0
  }

  function RowOfWork(c: Config, s: State): (row: seq<int>)
    requires c.n >= 1
  {
    seq(|s.ranks|, r requires 0 <= r < |s.ranks| => RankWork(c, s, r))
  }

  function Remaining(c: Config, s: State): int
    requires c.n >= 1
  {
    Sum(RowOfWork(c, s))
  }

  lemma StepDecreases(c: Config, s: State, e: Event)
    requires Inv(c, s) && Enabled(c, s, e)
    ensures Remaining(c, Apply(c, s, e)) == Remaining(c, s) - 1
  {
    var s', r := Apply(c, s, e), e.rank;
    RankWorkDecreases(c, s, e);
    assert RowOfWork(c, s') == RowOfWork(c, s)[r := RowOfWork(c, s)[r] - 1];
    SumUpdate(RowOfWork(c, s), r, RowOfWork(c, s)[r] - 1);
  }

  lemma RankWorkDecreases(c: Config, s: State, e: Event)
    requires Inv(c, s) && Enabled(c, s, e)
    ensures RankWork(c, Apply(c, s, e), e.rank) == RankWork(c, s, e.rank) - 1
  {
    assert RankOk(c, s, e.rank);
    CounterBounds(KindOf(c, s, e.rank), c.Peers(), s.ranks[e.rank].pc);
  }

  lemma RemainingNonNegative(c: Config, s: State)
    requires Inv(c, s)
    ensures Remaining(c, s) >= 0
  {
    forall r: nat | r < c.n ensures RankWork(c, s, r) >= 0 {
      assert RankOk(c, s, r);
      CounterBounds(KindOf(c, s, r), c.Peers(), s.ranks[r].pc);
    }
    SumOthers(c.n, c.n, 0);
    SumMonotone(Others(c.n, c.n, 0), RowOfWork(c, s));
  }

  /** In stage k, whose tag the next stage uses again, the sends of both a and b wait for a match. */
  ghost predicate KnotAt(c: Config, k: nat, a: nat, b: nat) {
    && k + 1 < c.Stages() && c.tags[k] == c.tags[k + 1]
    && 1 <= a < b < c.n && c.kind(a, k) == PostFirst(true) && c.kind(b, k) == PostFirst(true)
  }

  ghost predicate Knotted(c: Config) {
    exists k: nat, a: nat, b: nat :: KnotAt(c, k, a, b)
  }

  // ---------------------------------------------------------------- the first rank through a stage

  /** Rank x is past stage k and every other rank has sent it its stage-k message. */
  ghost predicate HeardFromAll(c: Config, s: State, x: nat, k: nat) {
    && x < c.n == |s.ranks| && Stage(s, x) > k
    && forall q: nat :: q < c.n && q != x ==> SentUpTo(c, s, q, x) > k
  }

  /** If anybody is past stage k, then some such rank has heard from all. */
  ghost predicate Opened(c: Config, s: State, k: nat) {
    |s.ranks| == c.n && ((exists r: nat :: r < c.n && Stage(s, r) > k) ==> exists x: nat :: HeardFromAll(c, s, x, k))
  }

  lemma SentGrows(c: Config, s: State, e: Event, q: nat, x: nat)
    requires Inv(c, s) && Enabled(c, s, e) && q < c.n && x < c.n && q != x
    ensures SentUpTo(c, s, q, x) <= SentUpTo(c, Apply(c, s, e), q, x)
  {
    if e.rank == q && e.Exec? {
      ExecEffect(c, s, q);
    } else if e.rank == q && e.Finish? {
      PeerIndexInverse(c.n, q, 0, x);
      CounterBounds(KindOf(c, s, q), c.Peers(), s.ranks[q].pc);
    }
  }

  lemma OpenedStep(c: Config, s: State, e: Event, k: nat)
    requires Inv(c, s) && Enabled(c, s, e) && Opened(c, s, k)
    ensures Opened(c, Apply(c, s, e), k)
  {
    var s' := Apply(c, s, e);
    if x: nat :| HeardFromAll(c, s, x, k) {
      forall q: nat | q < c.n && q != x ensures SentUpTo(c, s', q, x) > k { SentGrows(c, s, e, q, x); }
      assert HeardFromAll(c, s', x, k);
    } else if e.Finish? && Stage(s, e.rank) == k {
      forall q: nat | q < c.n && q != e.rank ensures SentUpTo(c, s', q, e.rank) > k {
        FirstFinisher(c, s, e.rank, q);
        SentGrows(c, s, e, q, e.rank);
      }
      assert HeardFromAll(c, s', e.rank, k);
    } else {
      forall r: nat | r < c.n ensures Stage(s', r) <= k {
        assert Stage(s, r) <= k;
        assert r != e.rank ==> s'.ranks[r] == s.ranks[r];
      }
    }
  }

  lemma {:induction false} OpenedRun(c: Config, es: seq<Event>, k: nat)
    requires c.Valid() && IsRun(c, es)
    ensures Opened(c, After(c, es), k)
  {
    if es != [] {
      var before := es[..|es| - 1];
      OpenedRun(c, before, k);
      InvRun(c, before);
      OpenedStep(c, After(c, before), es[|es| - 1], k);
    }
  }

  // ---------------------------------------------------------------- what a blocked rank waits for

  lemma SlowestRank(s: State) returns (p: nat)
    requires s.ranks != []
    ensures p < |s.ranks| && forall q: nat :: q < |s.ranks| ==> Stage(s, p) <= Stage(s, q)
  {
    p := 0;
    for i := 1 to |s.ranks|
      invariant p < |s.ranks| && forall q: nat :: q < i ==> Stage(s, p) <= Stage(s, q)
    {
      if Stage(s, i) < Stage(s, p) {
        p := i;
      }
    }
  }

  /** A rank past stage k, or with all its stage-k receives matched, has matched every peer's stage-k message. */
  lemma AllHeard(c: Config, s: State, d: nat, k: nat, p: nat)
    requires Inv(c, s) && d < c.n && p < c.n && p != d && k < c.Stages()
    requires forall q: nat :: q < c.n ==> Stage(s, q) <= k + 1
    requires Stage(s, d) == k + 1 || (Stage(s, d) == k && |s.ranks[d].inbox| == c.Peers())
    requires c.n <= 2 || k + 1 == c.Stages() || c.tags[k + 1] != c.tags[k]
    ensures Count(c.tags, c.tags[k], k + 1) <= s.net.Taken(Chan(p, d, c.tags[k]))
    ensures Stage(s, d) == k ==> Count(c.tags, c.tags[k], k + 1) == s.net.Taken(Chan(p, d, c.tags[k]))
  {
    HeardTotal(c, s, d, k);
    if c.n <= 2 {
      PeerTotal(c, s, d, c.tags[k], p);
    } else {
      var t := c.tags[k];
      var v := Count(c.tags, t, k + 1);
      forall q: nat | q < c.n && q != d ensures s.net.Taken(Chan(q, d, t)) <= v { HeardAtMost(c, s, d, k, q); }
      FullRow(c, s, d, t, v);
    }
  }

  lemma HeardTotal(c: Config, s: State, d: nat, k: nat)
    requires Inv(c, s) && d < c.n && k < c.Stages()
    requires Stage(s, d) == k + 1 || (Stage(s, d) == k && |s.ranks[d].inbox| == c.Peers())
    ensures Sum(Row(s, d, c.tags[k])) >= Count(c.tags, c.tags[k], k + 1) * c.Peers()
    ensures Stage(s, d) == k ==> Sum(Row(s, d, c.tags[k])) == Count(c.tags, c.tags[k], k + 1) * c.Peers()
  {
    assert TotalOk(c, s, d, c.tags[k]) && RankOk(c, s, d);
    MulSucc(Count(c.tags, c.tags[k], k), c.Peers());
  }

  /** With two ranks the total is what the peer sent. */
  lemma PeerTotal(c: Config, s: State, d: nat, t: nat, p: nat)
    requires Inv(c, s) && c.n == 2 && d < 2 && p == 1 - d
    ensures Sum(Row(s, d, t)) == s.net.Taken(Chan(p, d, t))
  {
    assert LogOk(c, s, d, d, t);
    var row := Row(s, d, t);
    assert row == [row[0], row[1]] && row[d] == 0;
    SumTwo(row[0], row[1]);
  }

  lemma HeardAtMost(c: Config, s: State, d: nat, k: nat, q: nat)
    requires Inv(c, s) && d < c.n && q < c.n && q != d && k < c.Stages()
    requires Stage(s, q) <= k + 1 && (k + 1 == c.Stages() || c.tags[k + 1] != c.tags[k])
    ensures s.net.Taken(Chan(q, d, c.tags[k])) <= Count(c.tags, c.tags[k], k + 1)
  {
    var t := c.tags[k];
    assert LogOk(c, s, q, d, t);
    ExpectedLength(c, q, d, t, SentUpTo(c, s, q, d));
    var top := if k + 2 <= c.Stages() then k + 2 else k + 1;
    CountMonotone(c.tags, t, SentUpTo(c, s, q, d), top);
  }

  lemma NotPendingAtHearer(c: Config, s: State, d: nat, k: nat, p: nat)
    requires Inv(c, s) && d < c.n && p < c.n && p != d && k < c.Stages() && Stage(s, p) == k
    requires Count(c.tags, c.tags[k], k + 1) <= s.net.Taken(Chan(p, d, c.tags[k]))
    ensures !s.net.Pending(Chan(p, d, c.tags[k]))
  {
    assert LogOk(c, s, p, d, c.tags[k]);
    ExpectedLength(c, p, d, c.tags[k], SentUpTo(c, s, p, d));
    CountMonotone(c.tags, c.tags[k], SentUpTo(c, s, p, d), k + 1);
  }

  ghost predicate Blocked(c: Config, s: State, r: nat) {
    Working(c, s, r) && !Enabled(c, s, Exec(r)) && !Enabled(c, s, Finish(r))
  }

  predicate InSend(c: Config, s: State, r: nat) {
    Working(c, s, r) && s.ranks[r].pc < LengthOf(c, s, r) && OpAt(KindOf(c, s, r), c.Peers(), s.ranks[r].pc).AwaitSend?
  }

  predicate InWait(c: Config, s: State, r: nat) {
    Working(c, s, r) && s.ranks[r].pc < LengthOf(c, s, r) && OpAt(KindOf(c, s, r), c.Peers(), s.ranks[r].pc).Wait?
  }

  lemma BlockedShape(c: Config, s: State, r: nat)
    requires Inv(c, s) && Blocked(c, s, r)
    ensures InSend(c, s, r) || InWait(c, s, r)
    ensures InWait(c, s, r) ==> |s.ranks[r].inbox| < PostedBy(c, s, r) && SentBy(c, s, r) == c.Peers()
    ensures InSend(c, s, r) ==> PostedBy(c, s, r) == c.Peers() && KindOf(c, s, r) == PostFirst(true)
    ensures PostedBy(c, s, r) <= c.Peers()
  {
    assert RankOk(c, s, r);
    CountersFollowProgram(KindOf(c, s, r), c.Peers(), s.ranks[r].pc);
    CounterBounds(KindOf(c, s, r), c.Peers(), s.ranks[r].pc);
  }

  /** A rank one stage ahead on the same tag cannot be full while a stage-k message to it is pending. */
  lemma AheadHasRoom(c: Config, s: State, r: nat, d: nat, k: nat)
    requires Inv(c, s) && r < c.n && d < c.n && r != d && forall q: nat :: q < c.n ==> Stage(s, q) <= k + 1
    requires Stage(s, r) == k && Stage(s, d) == k + 1 < c.Stages() && c.tags[k + 1] == c.tags[k]
    requires s.net.Pending(Chan(r, d, c.tags[k]))
    ensures |s.ranks[d].inbox| < c.Peers()
  {
    var t, v := c.tags[k], Count(c.tags, c.tags[k], k + 1);
    var most := Others(c.n, d, v + 1);
    assert TotalOk(c, s, d, t);
    forall q: nat | q < c.n ensures Row(s, d, t)[q] <= most[r := v - 1][q] { SentMost(c, s, q, r, d, k); }
    SumOthers(c.n, d, v + 1);
    SumUpdate(most, r, v - 1);
    SumMonotone(Row(s, d, t), most[r := v - 1]);
    MulSucc(v, c.Peers());
  }

  lemma SentMost(c: Config, s: State, q: nat, r: nat, d: nat, k: nat)
    requires Inv(c, s) && q < c.n && r < c.n && d < c.n && r != d && Stage(s, q) <= k + 1 < c.Stages()
    requires Stage(s, r) == k && c.tags[k + 1] == c.tags[k] && s.net.Pending(Chan(r, d, c.tags[k]))
    ensures var v, taken := Count(c.tags, c.tags[k], k + 1), s.net.Taken(Chan(q, d, c.tags[k]));
            taken <= if q == r then v - 1 else if q == d then 0 else v + 1
  {
    var t := c.tags[k];
    assert LogOk(c, s, q, d, t);
    if q != d {
      ExpectedLength(c, q, d, t, SentUpTo(c, s, q, d));
      CountMonotone(c.tags, t, SentUpTo(c, s, q, d), if q == r then k + 1 else k + 2);
    }
  }

  /** A slowest rank that is full without r's pending stage-k message: somebody ahead has filled it. */
  lemma FilledFromAhead(c: Config, s: State, r: nat, d: nat, k: nat)
    requires Inv(c, s) && r < c.n && d < c.n && r != d && k < c.Stages()
    requires forall q: nat :: q < c.n ==> k <= Stage(s, q) <= k + 1
    requires Stage(s, r) == k && Stage(s, d) == k && |s.ranks[d].inbox| == c.Peers()
    requires s.net.Pending(Chan(r, d, c.tags[k]))
    ensures k + 1 < c.Stages() && c.tags[k + 1] == c.tags[k] && exists x: nat :: x < c.n && Stage(s, x) > k
  {
    if c.n <= 2 || k + 1 == c.Stages() || c.tags[k + 1] != c.tags[k] {
      AllHeard(c, s, d, k, r);
      NotPendingAtHearer(c, s, d, k, r);
      assert false;
    }
    if forall x: nat :: x < c.n ==> Stage(s, x) <= k {
      var v := Count(c.tags, c.tags[k], k + 1);
      HeardTotal(c, s, d, k);
      forall q: nat | q < c.n && q != d ensures s.net.Taken(Chan(q, d, c.tags[k])) <= v {
        TakenAtMost(c, s, d, c.tags[k], k, q);
      }
      FullRow(c, s, d, c.tags[k], v);
      NotPendingAtHearer(c, s, d, k, r);
      assert false;
    }
  }

  /** The rank that has heard from all comes before d in the order in which r, now at d, serves its peers. */
  lemma ServedBefore(c: Config, s: State, r: nat, d: nat, x: nat, k: nat)
    requires HeardFromAll(c, s, x, k) && r < c.n && d < c.n && r != d && d != x && r != x
    requires Stage(s, r) == k && SentBy(c, s, r) == IndexOf(r, d) + 1
    ensures x < d
  {
    assert SentUpTo(c, s, r, x) > k;
  }

  /** Rank d, not rank 0, is full in the slowest stage k and waits for one of its own sends. */
  ghost predicate Clogged(c: Config, s: State, d: nat, k: nat) {
    && 1 <= d < c.n == |s.ranks| && Stage(s, d) == k && InSend(c, s, d) && c.kind(d, k) == PostFirst(true)
    && k + 1 < c.Stages() && c.tags[k + 1] == c.tags[k]
  }

  /** What the next call of a rank in a wait for its send to d says. */
  lemma AwaitedPeer(c: Config, s: State, r: nat) returns (d: nat)
    requires Inv(c, s) && r < c.n && InSend(c, s, r) && Blocked(c, s, r)
    ensures d < c.n && d != r && SentBy(c, s, r) == IndexOf(r, d) + 1 && s.net.Pending(Chan(r, d, TagOf(c, s, r)))
  {
    BlockedShape(c, s, r);
    CountersFollowProgram(KindOf(c, s, r), c.Peers(), s.ranks[r].pc);
    var j := OpAt(KindOf(c, s, r), c.Peers(), s.ranks[r].pc).peer;
    d := PeerAt(r, j);
    PeerIndexInverse(c.n, r, j, d);
  }

  /** A blocked send of a slowest rank: its receiver can match it now, or go on, or is clogged. */
  lemma SendUnblocks(c: Config, s: State, r: nat, k: nat) returns (e: Event, d: nat)
    requires Inv(c, s) && Opened(c, s, k)
    requires forall q: nat :: q < c.n ==> k <= Stage(s, q) <= k + 1
    requires forall q: nat :: q < c.n && Stage(s, q) == k ==> Blocked(c, s, q)
    requires r < c.n && Stage(s, r) == k && InSend(c, s, r)
    ensures Enabled(c, s, e) || (Clogged(c, s, d, k) && d != r)
  {
    d := AwaitedPeer(c, s, r);
    assert RankOk(c, s, d);
    e := Match(d, r);
    if Stage(s, d) == k + 1 {
      if k + 1 == c.Stages() || c.tags[k + 1] != c.tags[k] {
        AllHeard(c, s, d, k, r);
        NotPendingAtHearer(c, s, d, k, r);
        assert false;
      }
      AheadHasRoom(c, s, r, d, k);
      if Blocked(c, s, d) {
        BlockedShape(c, s, d);
      } else {
        e := if Enabled(c, s, Exec(d)) then Exec(d) else Finish(d);
      }
    } else {
      BlockedShape(c, s, d);
      if |s.ranks[d].inbox| == PostedBy(c, s, d) {
        FilledFromAhead(c, s, r, d, k);
        var x: nat :| HeardFromAll(c, s, x, k);
        ServedBefore(c, s, r, d, x, k);
      }
    }
  }

  lemma SlowestHasMail(c: Config, s: State, r: nat, k: nat) returns (p: nat)
    requires Inv(c, s)
    requires forall q: nat :: q < c.n ==> k <= Stage(s, q)
    requires forall q: nat :: q < c.n && Stage(s, q) == k ==> SentBy(c, s, q) == c.Peers()
    requires r < c.n && Working(c, s, r) && Stage(s, r) == k && |s.ranks[r].inbox| < c.Peers()
    ensures p < c.n && s.net.Pending(Chan(p, r, c.tags[k]))
  {
    var t := c.tags[k];
    var v := Count(c.tags, t, k + 1);
    assert TotalOk(c, s, r, t);
    assert v * c.Peers() == Count(c.tags, t, k) * c.Peers() + c.Peers();
    if q: nat :| q < c.n && s.net.Pending(Chan(q, r, t)) {
      p := q;
    } else {
      forall q: nat | q < c.n && q != r ensures v <= s.net.Taken(Chan(q, r, t)) { PeerHasSent(c, s, q, r, k); }
      SumOthers(c.n, r, v);
      SumMonotone(Others(c.n, r, v), Row(s, r, t));
      assert false;
    }
  }

  /** A drained channel from a rank that has sent its stage-k messages. */
  lemma PeerHasSent(c: Config, s: State, q: nat, r: nat, k: nat)
    requires Inv(c, s) && q < c.n && r < c.n && q != r && k < c.Stages() && k <= Stage(s, q)
    requires Stage(s, q) == k ==> SentBy(c, s, q) == c.Peers()
    requires !s.net.Pending(Chan(q, r, c.tags[k]))
    ensures Count(c.tags, c.tags[k], k + 1) <= s.net.Taken(Chan(q, r, c.tags[k]))
  {
    var t := c.tags[k];
    assert LogOk(c, s, q, r, t);
    PeerIndexInverse(c.n, q, 0, r);
    ExpectedLength(c, q, r, t, SentUpTo(c, s, q, r));
    CountMonotone(c.tags, t, k + 1, SentUpTo(c, s, q, r));
  }

  /** A slowest rank that waits while every slowest rank has sent everything: something is there for it. */
  lemma WaitUnblocks(c: Config, s: State, r: nat, k: nat) returns (e: Event)
    requires Inv(c, s)
    requires forall q: nat :: q < c.n ==> k <= Stage(s, q)
    requires forall q: nat :: q < c.n && Stage(s, q) == k ==> SentBy(c, s, q) == c.Peers()
    requires r < c.n && Stage(s, r) == k && Blocked(c, s, r) && InWait(c, s, r)
    ensures Enabled(c, s, e) && e.rank == r
  {
    BlockedShape(c, s, r);
    var p := SlowestHasMail(c, s, r, k);
    e := Match(r, p);
  }

  /** Two clogged ranks are a knot. */
  lemma ClogsAreKnot(c: Config, s: State, k: nat, d: nat, d': nat)
    requires Clogged(c, s, d, k) && Clogged(c, s, d', k) && d != d'
    ensures Knotted(c)
  {
    assert if d < d' then KnotAt(c, k, d, d') else KnotAt(c, k, d', d);
  }

  /** Deadlock freedom: some event is enabled until every rank has returned from its last stage. */
  lemma NextEvent(c: Config, s: State) returns (e: Event)
    requires Inv(c, s) && !AllDone(c, s) && !Knotted(c)
    requires forall k: nat :: Opened(c, s, k)
    ensures Enabled(c, s, e)
  {
    var p := SlowestRank(s);
    var k := Stage(s, p);
    var late: nat :| late < c.n && Stage(s, late) != c.Stages();
    assert RankOk(c, s, late) && k <= Stage(s, late);
    forall q: nat | q < c.n ensures Stage(s, q) <= k + 1 { assert SyncOk(c, s, p, q); }
    if r: nat :| r < c.n && Stage(s, r) == k && !Blocked(c, s, r) {
      e := if Enabled(c, s, Exec(r)) then Exec(r) else Finish(r);
    } else if r: nat :| r < c.n && Stage(s, r) == k && InSend(c, s, r) {
      var d, d';
      assert Opened(c, s, k);
      e, d := SendUnblocks(c, s, r, k);
      if !Enabled(c, s, e) {
        e, d' := SendUnblocks(c, s, d, k);
        if !Enabled(c, s, e) { ClogsAreKnot(c, s, k, d, d'); }
      }
    } else {
      forall q: nat | q < c.n && Stage(s, q) == k ensures InWait(c, s, q) && SentBy(c, s, q) == c.Peers() {
        BlockedShape(c, s, q);
      }
      e := WaitUnblocks(c, s, p, k);
    }
  }

  /** Where sends wait for nobody, it is one of a slowest rank. */
  lemma SlowestEvent(c: Config, s: State) returns (e: Event)
    requires Inv(c, s) && !AllDone(c, s)
    requires forall r: nat, k: nat {:trigger c.kind(r, k)} :: c.kind(r, k) != PostFirst(true)
    ensures Enabled(c, s, e) && forall q: nat :: q < c.n ==> Stage(s, e.rank) <= Stage(s, q)
  {
    var p := SlowestRank(s);
    var late: nat :| late < c.n && Stage(s, late) != c.Stages();
    assert RankOk(c, s, late) && Stage(s, p) <= Stage(s, late);
    if r: nat :| r < c.n && Stage(s, r) == Stage(s, p) && !Blocked(c, s, r) {
      e := if Enabled(c, s, Exec(r)) then Exec(r) else Finish(r);
    } else {
      forall q: nat | q < c.n && Stage(s, q) == Stage(s, p) ensures InWait(c, s, q) && SentBy(c, s, q) == c.Peers() {
        BlockedShape(c, s, q);
      }
      e := WaitUnblocks(c, s, p, Stage(s, p));
    }
  }

  /** Every event does one unit of the work; so no run is longer than the work there is, and all
      complete runs are equally long. */
  lemma {:induction false} RunLength(c: Config, es: seq<Event>)
    requires c.Valid() && IsRun(c, es)
    ensures |es| + Remaining(c, After(c, es)) == Remaining(c, Init(c))
    ensures 0 <= Remaining(c, After(c, es))
  {
    InvRun(c, es);
    RemainingNonNegative(c, After(c, es));
    if es != [] {
      var before := es[..|es| - 1];
      RunLength(c, before);
      InvRun(c, before);
      StepDecreases(c, After(c, before), es[|es| - 1]);
    }
  }

  /** No reachable state is stuck, unless two ranks other than rank 0 wait for matches of their sends in one
      stage and the next stage uses its tag. */
  lemma NeverStuck(c: Config, es: seq<Event>)
    requires c.Valid() && IsRun(c, es) && !Knotted(c)
    ensures AllDone(c, After(c, es)) || exists e :: Enabled(c, After(c, es), e)
  {
    InvRun(c, es);
    forall k: nat ensures Opened(c, After(c, es), k) { OpenedRun(c, es, k); }
    if !AllDone(c, After(c, es)) {
      var e := NextEvent(c, After(c, es));
    }
  }

  lemma SentAll(c: Config, s: State, q: nat, r: nat, t: nat)
    requires Inv(c, s) && AllDone(c, s) && q < c.n && r < c.n && q != r
    ensures s.net.Taken(Chan(q, r, t)) <= |s.net.Log(Chan(q, r, t))| == Count(c.tags, t, c.Stages())
  {
    assert LogOk(c, s, q, r, t) && RankOk(c, s, q);
    CounterBounds(KindOf(c, s, q), c.Peers(), 0);
    ExpectedLength(c, q, r, t, c.Stages());
  }

  /** Conservation: when all ranks are done every message sent has been matched. */
  lemma NothingLeftBehind(c: Config, es: seq<Event>, ch: Chan)
    requires c.Valid() && IsRun(c, es) && AllDone(c, After(c, es))
    ensures After(c, es).net.Taken(ch) == |After(c, es).net.Log(ch)|
    ensures |After(c, es).net.Log(ch)| ==
            if ch.src < c.n && ch.dst < c.n && ch.src != ch.dst then Count(c.tags, ch.tag, c.Stages()) else 0
  {
    InvRun(c, es);
    var s, r, t := After(c, es), ch.dst, ch.tag;
    assert LogOk(c, s, ch.src, r, t);
    if ch.src < c.n && r < c.n && ch.src != r {
      assert TotalOk(c, s, r, t) && RankOk(c, s, r);
      forall q: nat | q < c.n && q != r
        ensures s.net.Taken(Chan(q, r, t)) <= |s.net.Log(Chan(q, r, t))| == Count(c.tags, t, c.Stages())
      {
        SentAll(c, s, q, r, t);
      }
      FullRow(c, s, r, t, Count(c.tags, t, c.Stages()));
    }
  }

  /** Every run can be carried on to one in which all ranks have done all stages. */
  lemma {:induction false} Complete(c: Config, es: seq<Event>) returns (whole: seq<Event>)
    requires c.Valid() && IsRun(c, es) && !Knotted(c)
    ensures IsRun(c, whole) && es <= whole && AllDone(c, After(c, whole))
    decreases Remaining(c, After(c, es))
  {
    InvRun(c, es);
    RunLength(c, es);
    if AllDone(c, After(c, es)) {
      whole := es;
    } else {
      forall k: nat ensures Opened(c, After(c, es), k) { OpenedRun(c, es, k); }
      var e := NextEvent(c, After(c, es));
      assert (es + [e])[..|es|] == es;
      StepDecreases(c, After(c, es), e);
      RunLength(c, es + [e]);
      whole := Complete(c, es + [e]);
    }
  }
}
