/** Building blocks for schedules: how one rank, of any kind, is led through a stage, and how all ranks can
    be brought to serve any chosen number of their peers. */
module AllToAllSchedules {
  import opened Sums
  import opened Network
  import opened Programs
  import opened AllToAll
  import opened AllToAllInvariant
  import opened AllToAllProgress
  import opened AllToAllLimits

  ghost predicate Known(c: Config, s: State) {
    c.Valid() && Reachable(c, s) && |s.ranks| == c.n
  }

  /** The sends of rank r in stage k are over only when matched. */
  predicate Slow(c: Config, r: nat, k: nat) {
    c.kind(r, k) == PostFirst(true)
  }

  ghost predicate SameBut(s: State, s': State, r: nat) {
    |s'.ranks| == |s.ranks| && forall x :: 0 <= x < |s.ranks| && x != r ==> s'.ranks[x] == s.ranks[x]
  }

  predicate Busy(c: Config, s: State, r: nat) {
    Working(c, s, r) && s.ranks[r].pc < LengthOf(c, s, r)
  }

  lemma Call(c: Config, s: State, r: nat) returns (s': State)
    requires Known(c, s) && Busy(c, s, r) && CallReturns(c, s, r)
    ensures Known(c, s') && SameBut(s, s', r) && s'.ranks[r] == s.ranks[r].(pc := s.ranks[r].pc + 1)
    ensures s'.net.taken == s.net.taken
    ensures !OpAt(KindOf(c, s, r), c.Peers(), s.ranks[r].pc).Send? ==> s'.net == s.net
  {
    s' := Apply(c, s, Exec(r));
    ReachStep(c, s, Exec(r));
  }

  // ---------------------------------------------------------------- one rank

  /** Rank r is in stage k with j peers served, if its sends wait for matches, and otherwise all its
      messages sent; `got` of its receives have matched. */
  ghost predicate Ready(c: Config, s: State, r: nat, k: nat, j: nat, got: int) {
    && c.n >= 1 && r < c.n == |s.ranks| && k < c.Stages() && j <= c.Peers()
    && Stage(s, r) == k && |s.ranks[r].inbox| == got
    && if Slow(c, r, k) then s.ranks[r].pc == c.Peers() + 2 * j else SentBy(c, s, r) == c.Peers()
  }

  /** Rank d can take another message in its stage, and needs nobody for it. */
  ghost predicate Open(c: Config, s: State, d: nat) {
    && Working(c, s, d) && d < c.n && |s.ranks[d].inbox| < c.Peers()
    && if Slow(c, d, Stage(s, d)) then s.ranks[d].pc >= c.Peers() else SentBy(c, s, d) == c.Peers()
  }

  /** Rank d has at most gone on to post receives. */
  ghost predicate Posting(c: Config, s: State, s': State, d: nat) {
    && c.n >= 1 && d < |s.ranks| == |s'.ranks| && s'.ranks[d].done == s.ranks[d].done
    && if Slow(c, d, Stage(s, d)) then s'.ranks[d].pc == s.ranks[d].pc else SentBy(c, s', d) == c.Peers()
  }

  /** From the beginning of a stage: post everything, or send everything. */
  lemma Prepare(c: Config, s: State, r: nat, k: nat) returns (s': State)
    requires Known(c, s) && r < c.n && k < c.Stages() && At(s, r) == View(k, 0, 0)
    ensures Known(c, s') && SameBut(s, s', r) && s'.net.taken == s.net.taken && s'.ranks[r].done == s.ranks[r].done
    ensures Ready(c, s', r, k, 0, 0)
  {
    CounterBounds(KindOf(c, s, r), c.Peers(), 0);
    if Slow(c, r, k) { s' := PostAll(c, s, r); } else { s' := SendAll(c, s, r); }
  }

  lemma PostAll(c: Config, s: State, r: nat) returns (s': State)
    requires Known(c, s) && Working(c, s, r) && Slow(c, r, Stage(s, r)) && s.ranks[r].pc == 0
    ensures Known(c, s') && SameBut(s, s', r) && s'.net.taken == s.net.taken
    ensures s'.ranks[r] == s.ranks[r].(pc := c.Peers())
  {
    s' := s;
    for i := 0 to c.Peers()
      invariant Known(c, s') && SameBut(s, s', r) && s'.net.taken == s.net.taken
      invariant s'.ranks[r] == s.ranks[r].(pc := i)
    {
      s' := Call(c, s', r);
    }
  }

  /** All sends come before all waits. */
  lemma SendAll(c: Config, s: State, r: nat) returns (s': State)
    requires Known(c, s) && Working(c, s, r) && !Slow(c, r, Stage(s, r))
    ensures Known(c, s') && SameBut(s, s', r) && s'.net.taken == s.net.taken
    ensures s'.ranks[r] == s.ranks[r].(pc := s'.ranks[r].pc) && SentBy(c, s', r) == c.Peers()
  {
    s' := s;
    ReachInv(c, s);
    assert RankOk(c, s, r);
    while SentBy(c, s', r) != c.Peers()
      invariant Known(c, s') && SameBut(s, s', r) && s'.net.taken == s.net.taken
      invariant s'.ranks[r] == s.ranks[r].(pc := s'.ranks[r].pc) && s'.ranks[r].pc <= LengthOf(c, s', r)
      decreases LengthOf(c, s', r) - s'.ranks[r].pc
    {
      CounterBounds(KindOf(c, s', r), c.Peers(), s'.ranks[r].pc);
      CountersFollowProgram(KindOf(c, s', r), c.Peers(), s'.ranks[r].pc);
      s' := Call(c, s', r);
    }
  }

  /** An open rank goes on until one more receive is posted than matched. */
  lemma MakeRoom(c: Config, s: State, d: nat) returns (s': State)
    requires Known(c, s) && Open(c, s, d)
    ensures Known(c, s') && SameBut(s, s', d) && s'.net == s.net && Posting(c, s, s', d)
    ensures s'.ranks[d].inbox == s.ranks[d].inbox && PostedBy(c, s', d) > |s'.ranks[d].inbox|
  {
    s' := s;
    ReachInv(c, s);
    assert RankOk(c, s, d);
    CounterBounds(KindOf(c, s, d), c.Peers(), s.ranks[d].pc);
    while PostedBy(c, s', d) <= |s.ranks[d].inbox|
      invariant Known(c, s') && SameBut(s, s', d) && s'.net == s.net && Posting(c, s, s', d)
      invariant s'.ranks[d] == s.ranks[d].(pc := s'.ranks[d].pc) && s'.ranks[d].pc <= LengthOf(c, s', d)
      decreases LengthOf(c, s', d) - s'.ranks[d].pc
    {
      CounterBounds(KindOf(c, s', d), c.Peers(), s'.ranks[d].pc);
      CountersFollowProgram(KindOf(c, s', d), c.Peers(), s'.ranks[d].pc);
      s' := Call(c, s', d);
    }
  }

  /** A rank that has served and matched everything completes its stage. */
  lemma FinishStage(c: Config, s: State, r: nat, k: nat) returns (s': State)
    requires Known(c, s) && Ready(c, s, r, k, c.Peers(), c.Peers())
    ensures Known(c, s') && SameBut(s, s', r) && s'.net == s.net
    ensures s'.ranks[r] == Rank(s.ranks[r].done + [s.ranks[r].inbox], 0, [])
  {
    var s1 := WaitAll(c, s, r, k);
    s' := Apply(c, s1, Finish(r));
    ReachStep(c, s1, Finish(r));
  }

  lemma WaitAll(c: Config, s: State, r: nat, k: nat) returns (s': State)
    requires Known(c, s) && Ready(c, s, r, k, c.Peers(), c.Peers())
    ensures Known(c, s') && SameBut(s, s', r) && s'.net == s.net
    ensures s'.ranks[r] == s.ranks[r].(pc := LengthOf(c, s, r))
  {
    s' := s;
    ReachInv(c, s);
    assert RankOk(c, s, r);
    while s'.ranks[r].pc < LengthOf(c, s', r)
      invariant Known(c, s') && SameBut(s, s', r) && s'.net == s.net && SentBy(c, s', r) == c.Peers()
      invariant s'.ranks[r] == s.ranks[r].(pc := s'.ranks[r].pc) && s'.ranks[r].pc <= LengthOf(c, s', r)
      invariant Slow(c, r, k) ==> s'.ranks[r].pc >= 3 * c.Peers()
      decreases LengthOf(c, s', r) - s'.ranks[r].pc
    {
      CounterBounds(KindOf(c, s', r), c.Peers(), s'.ranks[r].pc);
      CountersFollowProgram(KindOf(c, s', r), c.Peers(), s'.ranks[r].pc);
      s' := Call(c, s', r);
    }
  }

  /** And begins the next one. */
  lemma GoOn(c: Config, s: State, r: nat, k: nat) returns (s': State)
    requires Known(c, s) && Ready(c, s, r, k, c.Peers(), c.Peers()) && k + 1 < c.Stages()
    ensures Known(c, s') && SameBut(s, s', r) && s'.net.taken == s.net.taken && Ready(c, s', r, k + 1, 0, 0)
  {
    var s1 := FinishStage(c, s, r, k);
    s' := Prepare(c, s1, r, k + 1);
  }

  // ---------------------------------------------------------------- one message

  /** Nothing z sent d in stage k has been matched. */
  ghost predicate Untaken(c: Config, s: State, z: nat, d: nat, k: nat) {
    k < c.Stages() && s.net.Taken(Chan(z, d, c.tags[k])) == Count(c.tags, c.tags[k], k)
  }

  /** A slow rank makes its next send; the others have made theirs. Either way the message is there. */
  lemma Offer(c: Config, s: State, z: nat, d: nat, k: nat, j: nat) returns (s': State)
    requires Known(c, s) && z < c.n && d < c.n && z != d && j == IndexOf(z, d)
    requires Ready(c, s, z, k, j, |s.ranks[z].inbox|) && Untaken(c, s, z, d, k)
    ensures Known(c, s') && SameBut(s, s', z) && s'.net.taken == s.net.taken
    ensures s'.ranks[z] == s.ranks[z].(pc := if Slow(c, z, k) then s.ranks[z].pc + 1 else s.ranks[z].pc)
    ensures var ch := Chan(z, d, c.tags[k]);
            s'.net.Pending(ch) && s'.net.Head(ch) == Msg(z, k, c.input(z, k, d))
    ensures |s'.net.Log(Chan(z, d, c.tags[k]))| == Count(c.tags, c.tags[k], k) + 1
  {
    PeerIndexInverse(c.n, z, j, d);
    if Slow(c, z, k) { s' := Call(c, s, z); } else { s' := s; }
    SentOffer(c, s', z, d, k);
  }

  lemma SentOffer(c: Config, s: State, z: nat, d: nat, k: nat)
    requires Known(c, s) && z < c.n && d < c.n && z != d && Untaken(c, s, z, d, k)
    requires Stage(s, z) == k && IndexOf(z, d) < SentBy(c, s, z)
    ensures var ch := Chan(z, d, c.tags[k]);
            s.net.Pending(ch) && s.net.Head(ch) == Msg(z, k, c.input(z, k, d))
    ensures |s.net.Log(Chan(z, d, c.tags[k]))| == Count(c.tags, c.tags[k], k) + 1
  {
    ReachInv(c, s);
    assert LogOk(c, s, z, d, c.tags[k]);
    ExpectedLength(c, z, d, c.tags[k], k + 1);
    ExpectedAt(c, z, d, c.tags[k], k, k + 1);
  }

  /** An open rank matches the message at the head of z's channel. */
  lemma Receive(c: Config, s: State, d: nat, z: nat) returns (s': State)
    requires Known(c, s) && Open(c, s, d) && z < c.n && s.net.Pending(Chan(z, d, TagOf(c, s, d)))
    ensures Known(c, s') && SameBut(s, s', d) && Posting(c, s, s', d)
    ensures s'.net == s.net.Pop(Chan(z, d, TagOf(c, s, d)))
    ensures s'.ranks[d].inbox == s.ranks[d].inbox + [s.net.Head(Chan(z, d, TagOf(c, s, d)))]
  {
    var s1 := MakeRoom(c, s, d);
    s' := Apply(c, s1, Match(d, z));
    ReachStep(c, s1, Match(d, z));
  }

  /** A slow rank's wait for its j-th send is over once that is matched. */
  lemma SendOver(c: Config, s: State, z: nat, d: nat, k: nat, j: nat) returns (s': State)
    requires Known(c, s) && z < c.n && d < c.n && z != d && j == IndexOf(z, d) && j < c.Peers() && k < c.Stages()
    requires Stage(s, z) == k && !s.net.Pending(Chan(z, d, c.tags[k]))
    requires if Slow(c, z, k) then s.ranks[z].pc == c.Peers() + 2 * j + 1 else SentBy(c, s, z) == c.Peers()
    ensures Known(c, s') && SameBut(s, s', z) && s'.net == s.net
    ensures Ready(c, s', z, k, j + 1, |s.ranks[z].inbox|)
    ensures s'.ranks[z].inbox == s.ranks[z].inbox && s'.ranks[z].done == s.ranks[z].done
  {
    PeerIndexInverse(c.n, z, j, d);
    if Slow(c, z, k) { s' := Call(c, s, z); } else { s' := s; }
  }

  /** Everybody but z and d is where it was, and only the channel from z to d has been read, by one message. */
  ghost predicate OneDelivered(s: State, s': State, z: nat, d: nat, t: nat) {
    && |s'.ranks| == |s.ranks| && (forall x :: 0 <= x < |s.ranks| && x != z && x != d ==> s'.ranks[x] == s.ranks[x])
    && forall ch: Chan :: s'.net.Taken(ch) == s.net.Taken(ch) + if ch == Chan(z, d, t) then 1 else 0
  }

  /** Rank z's next message in line, to d, is sent and matched at once. */
  lemma Deliver(c: Config, s: State, z: nat, d: nat, k: nat, j: nat) returns (s': State)
    requires Known(c, s) && z < c.n && d < c.n && z != d && j == IndexOf(z, d) && j < c.Peers()
    requires Ready(c, s, z, k, j, |s.ranks[z].inbox|) && Untaken(c, s, z, d, k)
    requires Open(c, s, d) && TagOf(c, s, d) == c.tags[k]
    ensures Known(c, s') && OneDelivered(s, s', z, d, c.tags[k])
    ensures Ready(c, s', z, k, j + 1, |s.ranks[z].inbox|)
    ensures s'.ranks[z].inbox == s.ranks[z].inbox && s'.ranks[z].done == s.ranks[z].done
    ensures Posting(c, s, s', d) && s'.ranks[d].inbox == s.ranks[d].inbox + [Msg(z, k, c.input(z, k, d))]
  {
    var s1 := Offer(c, s, z, d, k, j);
    assert s1.ranks[d] == s.ranks[d];
    var s2 := Receive(c, s1, d, z);
    assert s2.ranks[z] == s1.ranks[z];
    s' := SendOver(c, s2, z, d, k, j);
  }

  // ---------------------------------------------------------------- all ranks

  /** The peers y with v[y] served of which r is one. */
  function Served(v: seq<nat>, r: nat): (row: seq<int>) {
    seq(|v|, y requires 0 <= y < |v| => if y != r && IndexOf(y, r) < v[y] then 1 else 0)
  }

  /** In stage k each rank y has served its first v[y] peers. */
  ghost predicate Serving(c: Config, s: State, k: nat, v: seq<nat>) {
    && Known(c, s) && |v| == c.n
    && (forall r: nat :: r < c.n ==> ServingOne(c, s, k, v, r))
    && forall y: nat, d: nat :: y < c.n && d < c.n ==> TakenSoFar(c, s, k, v, y, d)
  }

  ghost predicate ServingOne(c: Config, s: State, k: nat, v: seq<nat>, r: nat)
    requires r < |v|
  {
    Ready(c, s, r, k, v[r], Sum(Served(v, r)))
  }

  /** Of y's stage-k messages those it has served have been matched. */
  ghost predicate TakenSoFar(c: Config, s: State, k: nat, v: seq<nat>, y: nat, d: nat)
    requires y < |v|
  {
    y != d && k < c.Stages() ==>
      s.net.Taken(Chan(y, d, c.tags[k])) == Count(c.tags, c.tags[k], k) + if IndexOf(y, d) < v[y] then 1 else 0
  }

  lemma ServedStep(n: nat, v: seq<nat>, y: nat, d: nat, r: nat)
    requires |v| == n && y < n && d < n && y != d && v[y] == IndexOf(y, d)
    ensures Sum(Served(v[y := v[y] + 1], r)) == Sum(Served(v, r)) + if r == d then 1 else 0
  {
    var row, row' := Served(v, r), Served(v[y := v[y] + 1], r);
    if r == d {
      assert row' == row[y := 1];
      SumUpdate(row, y, 1);
    } else {
      assert row' == row;
    }
  }

  /** A rank not yet served by some peer has room for it. */
  lemma NotAllServed(v: seq<nat>, r: nat, q: nat)
    requires r < |v| && q < |v| && q != r && IndexOf(q, r) >= v[q]
    ensures Sum(Served(v, r)) <= |v| - 2
    ensures (forall y: nat :: y < |v| && y != r && y != q ==> IndexOf(y, r) < v[y]) ==> Sum(Served(v, r)) == |v| - 2
  {
    var most := Others(|v|, r, 1)[q := 0];
    SumOthers(|v|, r, 1);
    SumUpdate(Others(|v|, r, 1), q, 0);
    SumMonotone(Served(v, r), most);
    if forall y: nat :: y < |v| && y != r && y != q ==> IndexOf(y, r) < v[y] {
      assert Served(v, r) == most;
    }
  }

  lemma AllServed(v: seq<nat>, r: nat)
    requires r < |v| && forall y: nat :: y < |v| && y != r ==> IndexOf(y, r) < v[y]
    ensures Sum(Served(v, r)) == |v| - 1
  {
    SumOthers(|v|, r, 1);
    assert Served(v, r) == Others(|v|, r, 1);
  }

  /** The peer next in line. */
  lemma ServeOne(c: Config, s: State, k: nat, v: seq<nat>, y: nat) returns (s': State)
    requires Serving(c, s, k, v) && y < c.n && v[y] < c.Peers()
    ensures Serving(c, s', k, v[y := v[y] + 1])
  {
    var d := PeerAt(y, v[y]);
    PeerIndexInverse(c.n, y, v[y], d);
    NotAllServed(v, d, y);
    assert ServingOne(c, s, k, v, d) && ServingOne(c, s, k, v, y) && TakenSoFar(c, s, k, v, y, d);
    s' := Deliver(c, s, y, d, k, v[y]);
    OnwardServing(c, s, s', k, v, v[y := v[y] + 1], y, d);
  }

  lemma OnwardServing(c: Config, s: State, s': State, k: nat, v: seq<nat>, w: seq<nat>, y: nat, d: nat)
    requires Serving(c, s, k, v) && Known(c, s') && k < c.Stages()
    requires y < c.n && v[y] < c.Peers() && d < c.n && y != d && v[y] == IndexOf(y, d) && w == v[y := v[y] + 1]
    requires OneDelivered(s, s', y, d, c.tags[k]) && Ready(c, s', y, k, w[y], |s.ranks[y].inbox|)
    requires Posting(c, s, s', d) && |s'.ranks[d].inbox| == |s.ranks[d].inbox| + 1
    ensures Serving(c, s', k, w)
  {
    forall r: nat | r < c.n ensures ServingOne(c, s', k, w, r) { ServedReady(c, s, s', k, v, y, d, r); }
    forall x: nat, z: nat | x < c.n && z < c.n ensures TakenSoFar(c, s', k, w, x, z) {
      assert TakenSoFar(c, s, k, v, x, z);
    }
  }

  lemma ServedReady(c: Config, s: State, s': State, k: nat, v: seq<nat>, y: nat, d: nat, r: nat)
    requires |v| == c.n && r < c.n && ServingOne(c, s, k, v, r)
    requires y < c.n && v[y] < c.Peers() && d < c.n && y != d && v[y] == IndexOf(y, d) && k < c.Stages()
    requires OneDelivered(s, s', y, d, c.tags[k])
    requires |s.ranks| == c.n && Ready(c, s', y, k, v[y] + 1, |s.ranks[y].inbox|)
    requires Posting(c, s, s', d) && |s'.ranks[d].inbox| == |s.ranks[d].inbox| + 1
    ensures ServingOne(c, s', k, v[y := v[y] + 1], r)
  {
    ServedStep(c.n, v, y, d, r);
    assert r != y && r != d ==> s'.ranks[r] == s.ranks[r];
  }

  lemma {:induction false} ServeUpTo(c: Config, s: State, k: nat, v: seq<nat>, y: nat, upTo: nat) returns (s': State)
    requires Serving(c, s, k, v) && y < c.n && v[y] == 0 && upTo <= c.Peers()
    ensures Serving(c, s', k, v[y := upTo])
  {
    if upTo == 0 {
      s' := s;
      assert v[y := 0] == v;
    } else {
      var s1 := ServeUpTo(c, s, k, v, y, upTo - 1);
      s' := ServeOne(c, s1, k, v[y := upTo - 1], y);
      assert v[y := upTo - 1][y := upTo] == v[y := upTo];
    }
  }

  /** The first i entries of v, and zeros behind them. */
  function Upto(v: seq<nat>, i: nat): (u: seq<nat>)
    ensures |u| == |v|
  {
    seq(|v|, y requires 0 <= y < |v| => if y < i then v[y] else 0)
  }

  lemma {:induction false} ServeFirst(c: Config, s: State, k: nat, v: seq<nat>, i: nat) returns (s': State)
    requires |v| == c.n && i <= c.n && (forall y :: 0 <= y < c.n ==> v[y] <= c.n - 1) && Serving(c, s, k, Upto(v, 0))
    ensures Serving(c, s', k, Upto(v, i))
  {
    if i == 0 {
      s' := s;
    } else {
      var s1 := ServeFirst(c, s, k, v, i - 1);
      s' := ServeUpTo(c, s1, k, Upto(v, i - 1), i - 1, v[i - 1]);
      assert Upto(v, i - 1)[i - 1 := v[i - 1]] == Upto(v, i);
    }
  }

  /** Whatever stage all ranks can begin together, they can come to have served any numbers of peers. */
  lemma ReachServing(c: Config, k: nat, v: seq<nat>) returns (s: State)
    requires c.Valid() && k < c.Stages() && !Knotted(c.(tags := c.tags[..k]))
    requires |v| == c.n && forall y :: 0 <= y < c.n ==> v[y] <= c.n - 1
    ensures Serving(c, s, k, v)
  {
    s := ReachPrepared(c, k);
    assert Upto(v, 0) == seq(c.n, y => 0);
    s := ServeFirst(c, s, k, v, c.n);
    assert Upto(v, c.n) == v;
  }

  lemma ReachPrepared(c: Config, k: nat) returns (s: State)
    requires c.Valid() && k < c.Stages() && !Knotted(c.(tags := c.tags[..k]))
    ensures Serving(c, s, k, seq(c.n, y => 0))
  {
    s := ReachStage(c, k);
    var start := s;
    for i := 0 to c.n
      invariant Known(c, s) && s.net.taken == start.net.taken
      invariant forall r: nat :: r < i ==> Ready(c, s, r, k, 0, 0)
      invariant forall r: nat :: i <= r < c.n ==> At(s, r) == View(k, 0, 0)
    {
      var before := s;
      s := Prepare(c, s, i, k);
      OthersStay(c, before, s, i, k);
    }
    var v := seq(c.n, y => 0);
    forall r: nat | r < c.n ensures ServingOne(c, s, k, v, r) {
      SumOthers(c.n, c.n, 0);
      assert Served(v, r) == Others(c.n, c.n, 0);
    }
    forall y: nat, d: nat | y < c.n && d < c.n ensures TakenSoFar(c, s, k, v, y, d) {
      if y != d { CleanIsUntaken(c, start, k, y, d); }
    }
  }

  /** A step of one rank leaves every other where it is. */
  lemma OthersStay(c: Config, s: State, s': State, i: nat, k: nat)
    requires SameBut(s, s', i)
    ensures forall r: nat, j: nat, got: int :: r != i && Ready(c, s, r, k, j, got) ==> Ready(c, s', r, k, j, got)
    ensures forall r: nat :: r < |s.ranks| && r != i ==> At(s', r) == At(s, r)
  {
  }

  lemma CleanIsUntaken(c: Config, s: State, k: nat, q: nat, to: nat)
    requires Known(c, s) && k < c.Stages() && q < c.n && to < c.n && q != to && Clean(s)
    requires At(s, q) == View(k, 0, 0)
    ensures Untaken(c, s, q, to, k)
  {
    ReachInv(c, s);
    assert LogOk(c, s, q, to, c.tags[k]);
    CounterBounds(KindOf(c, s, q), c.Peers(), 0);
    ExpectedLength(c, q, to, c.tags[k], k);
  }
}
