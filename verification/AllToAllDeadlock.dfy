/** Which all-to-all programs can get stuck, for any kinds of stages at any ranks. */
module AllToAllDeadlock {
  import opened Sums
  import opened Network
  import opened Programs
  import opened AllToAll
  import opened AllToAllProgress
  import opened AllToAllLimits
  import opened AllToAllSchedules

  /** Ranks a and b each wait for a send the other one will never match. */
  ghost predicate Doomed(c: Config, s: State, k: nat, a: nat, b: nat) {
    && KnotAt(c, k, a, b) && |s.ranks| == c.n
    && At(s, a) == View(k, c.Peers() + 2 * (b - 1) + 1, c.Peers())
    && At(s, b) == View(k, c.Peers() + 2 * a + 1, c.Peers())
    && s.net.Pending(Chan(a, b, c.tags[k])) && s.net.Pending(Chan(b, a, c.tags[k]))
  }

  lemma DoomedForever(c: Config, s: State, k: nat, a: nat, b: nat, e: Event)
    requires Doomed(c, s, k, a, b) && Enabled(c, s, e)
    ensures Doomed(c, Apply(c, s, e), k, a, b)
  {
    DoomedStay(c, s, k, a, b, e);
    if e.Match? { assert e.rank != a && e.rank != b; }
  }

  /** Neither can do anything. */
  lemma DoomedStay(c: Config, s: State, k: nat, a: nat, b: nat, e: Event)
    requires Doomed(c, s, k, a, b) && Enabled(c, s, e)
    ensures e.rank != a && e.rank != b
  {
    var m := c.Peers();
    assert OpAt(PostFirst(true), m, m + 2 * (b - 1) + 1) == AwaitSend(b - 1) && PeerAt(a, b - 1) == b;
    assert OpAt(PostFirst(true), m, m + 2 * a + 1) == AwaitSend(a) && PeerAt(b, a) == a;
    CounterBounds(PostFirst(true), m, m + 2 * (b - 1) + 1);
    CounterBounds(PostFirst(true), m, m + 2 * a + 1);
  }

  /** A doomed state runs into one where nothing is enabled and ranks a and b are not done. */
  lemma {:induction false} DoomedGetsStuck(c: Config, s: State, k: nat, a: nat, b: nat) returns (s': State)
    requires c.Valid() && Reachable(c, s) && Doomed(c, s, k, a, b)
    ensures Reachable(c, s') && !AllDone(c, s') && forall e :: !Enabled(c, s', e)
    decreases Remaining(c, s)
  {
    ReachInv(c, s);
    if e :| Enabled(c, s, e) {
      StepDecreases(c, s, e);
      DoomedForever(c, s, k, a, b, e);
      ReachStep(c, s, e);
      s' := DoomedGetsStuck(c, Apply(c, s, e), k, a, b);
    } else {
      s' := s;
      assert Stage(s, a) == k;
    }
  }

  // ---------------------------------------------------------------- how a knot is pulled tight

  /** Everybody serves all peers, except that a stops before b and b before a. */
  function Turns(n: nat, a: nat, b: nat): (v: seq<nat>)
    requires 1 <= a < b < n
  {
    seq(n, y => if y == a then b - 1 else if y == b then a else n - 1)
  }

  lemma TurnCounts(n: nat, a: nat, b: nat, r: nat)
    requires 1 <= a < b < n && r < n
    ensures Sum(Served(Turns(n, a, b), r)) <= n - 1
    ensures r < a ==> Sum(Served(Turns(n, a, b), r)) == n - 1
    ensures r == a || r == b ==> Sum(Served(Turns(n, a, b), r)) == n - 2
    ensures a < r < b ==> Sum(Served(Turns(n, a, b), r)) < n - 1
  {
    var v := Turns(n, a, b);
    if r < a {
      AllServed(v, r);
    } else if r == b {
      NotAllServed(v, r, a);
    } else {
      NotAllServed(v, r, b);
    }
  }

  /** Rank d has served and matched all there is in stage k, and nothing of rank 0's next stage. */
  ghost predicate Upcoming(c: Config, s: State, k: nat, a: nat, b: nat, d: nat) {
    1 <= a < b < c.n && d < c.n && ServingOne(c, s, k, Turns(c.n, a, b), d) && Untaken(c, s, 0, d, k + 1)
  }

  /** Rank 0 is in stage k + 1 and has served its first j peers there; a and b are full once they are
      among them. */
  ghost predicate Ahead(c: Config, s: State, k: nat, a: nat, b: nat, j: nat) {
    && Known(c, s) && KnotAt(c, k, a, b) && j <= b && Ready(c, s, 0, k + 1, j, 0)
    && (forall d: nat :: j < d <= b ==> Upcoming(c, s, k, a, b, d))
    && (j >= a ==> Ready(c, s, a, k, b - 1, c.Peers())) && (j >= b ==> Ready(c, s, b, k, a, c.Peers()))
    && Untaken(c, s, a, b, k) && Untaken(c, s, b, a, k)
  }

  /** Rank 0, which has heard from everybody, completes stage k and begins the next. */
  lemma GoAhead(c: Config, k: nat, a: nat, b: nat) returns (s: State)
    requires c.Valid() && KnotAt(c, k, a, b) && !Knotted(c.(tags := c.tags[..k]))
    ensures Ahead(c, s, k, a, b, 0)
  {
    var v := Turns(c.n, a, b);
    var s0 := ReachServing(c, k, v);
    s := ZeroGoesOn(c, s0, k, a, b);
    forall d: nat | 0 < d <= b ensures Upcoming(c, s, k, a, b, d) {
      assert ServingOne(c, s0, k, v, d) && TakenSoFar(c, s0, k, v, 0, d);
    }
    assert TakenSoFar(c, s0, k, v, a, b) && TakenSoFar(c, s0, k, v, b, a);
  }

  lemma ZeroGoesOn(c: Config, s: State, k: nat, a: nat, b: nat) returns (s': State)
    requires 1 <= a < b < c.n && k + 1 < c.Stages() && Serving(c, s, k, Turns(c.n, a, b))
    ensures Known(c, s') && Ready(c, s', 0, k + 1, 0, 0) && s'.net.taken == s.net.taken
    ensures forall d: nat :: 0 < d < c.n ==> ServingOne(c, s', k, Turns(c.n, a, b), d)
  {
    var v := Turns(c.n, a, b);
    TurnCounts(c.n, a, b, 0);
    assert ServingOne(c, s, k, v, 0);
    s' := GoOn(c, s, 0, k);
    OthersStay(c, s, s', 0, k);
    forall d: nat | 0 < d < c.n ensures ServingOne(c, s', k, v, d) { assert ServingOne(c, s, k, v, d); }
  }

  /** Rank d has room for rank 0's next message, or makes it by going on to stage k + 1 as well. */
  lemma MakeOpen(c: Config, s: State, k: nat, a: nat, b: nat, j: nat) returns (s': State)
    requires Ahead(c, s, k, a, b, j) && j < b
    ensures Known(c, s') && s'.net.taken == s.net.taken && SameBut(s, s', j + 1)
    ensures Open(c, s', j + 1) && TagOf(c, s', j + 1) == c.tags[k]
    ensures j + 1 >= a ==> s' == s
  {
    var d := j + 1;
    TurnCounts(c.n, a, b, d);
    assert Upcoming(c, s, k, a, b, d);
    if d < a {
      s' := GoOn(c, s, d, k);
    } else {
      s' := s;
    }
  }

  lemma AheadOne(c: Config, s: State, k: nat, a: nat, b: nat, j: nat) returns (s': State)
    requires Ahead(c, s, k, a, b, j) && j < b
    ensures Ahead(c, s', k, a, b, j + 1)
  {
    var d := j + 1;
    var s1 := MakeOpen(c, s, k, a, b, j);
    assert Upcoming(c, s, k, a, b, d);
    OthersStay(c, s, s1, d, k);
    OthersStay(c, s, s1, d, k + 1);
    s' := Deliver(c, s1, 0, d, k + 1, j);
    AheadAfter(c, s, s1, s', k, a, b, j);
  }

  lemma AheadAfter(c: Config, s: State, s1: State, s': State, k: nat, a: nat, b: nat, j: nat)
    requires Ahead(c, s, k, a, b, j) && j < b && Known(c, s') && s1.net.taken == s.net.taken && SameBut(s, s1, j + 1)
    requires OneDelivered(s1, s', 0, j + 1, c.tags[k + 1]) && Ready(c, s', 0, k + 1, j + 1, 0)
    requires j + 1 >= a ==> s1 == s && Posting(c, s, s', j + 1)
                            && |s'.ranks[j + 1].inbox| == |s.ranks[j + 1].inbox| + 1
    ensures Ahead(c, s', k, a, b, j + 1)
  {
    var d := j + 1;
    forall x: nat | d < x <= b ensures Upcoming(c, s', k, a, b, x) {
      assert Upcoming(c, s, k, a, b, x);
      assert s'.ranks[x] == s1.ranks[x] == s.ranks[x];
    }
    if d >= a { FullAfter(c, s, s', k, a, b, j); }
  }

  lemma FullAfter(c: Config, s: State, s': State, k: nat, a: nat, b: nat, j: nat)
    requires Ahead(c, s, k, a, b, j) && j < b && j + 1 >= a
    requires OneDelivered(s, s', 0, j + 1, c.tags[k + 1])
    requires Posting(c, s, s', j + 1) && |s'.ranks[j + 1].inbox| == |s.ranks[j + 1].inbox| + 1
    ensures Ready(c, s', a, k, b - 1, c.Peers()) && (j + 1 == b ==> Ready(c, s', b, k, a, c.Peers()))
  {
    var d := j + 1;
    assert Upcoming(c, s, k, a, b, d);
    TurnCounts(c.n, a, b, d);
    if d > a { assert s'.ranks[a] == s.ranks[a]; }
  }

  /** Rank 0's next-stage messages fill the last posted receive of both; then they wait for each other. */
  lemma ReachDoom(c: Config, k: nat, a: nat, b: nat) returns (s: State)
    requires c.Valid() && KnotAt(c, k, a, b) && !Knotted(c.(tags := c.tags[..k]))
    ensures Reachable(c, s) && Doomed(c, s, k, a, b)
  {
    s := GoAhead(c, k, a, b);
    for j := 0 to b
      invariant Ahead(c, s, k, a, b, j)
    {
      s := AheadOne(c, s, k, a, b, j);
    }
    s := BothSend(c, s, k, a, b);
  }

  lemma BothSend(c: Config, s: State, k: nat, a: nat, b: nat) returns (s': State)
    requires Ahead(c, s, k, a, b, b)
    ensures Reachable(c, s') && Doomed(c, s', k, a, b)
  {
    var s1 := Offer(c, s, a, b, k, b - 1);
    assert s1.ranks[b] == s.ranks[b];
    s' := Offer(c, s1, b, a, k, a);
    SentOffer(c, s', a, b, k);
  }

  /** The first stage with a knot; the stages before it can be completed by all. */
  lemma {:induction false} FirstKnot(c: Config, upTo: nat) returns (k: nat, a: nat, b: nat)
    requires upTo <= c.Stages() && Knotted(c.(tags := c.tags[..upTo]))
    ensures KnotAt(c, k, a, b) && !Knotted(c.(tags := c.tags[..k]))
  {
    k, a, b :| KnotAt(c.(tags := c.tags[..upTo]), k, a, b);
    if Knotted(c.(tags := c.tags[..k])) {
      k, a, b := FirstKnot(c, k);
    }
  }

  /** Any program of all-to-all stages is deadlock free in every schedule if and only if it has no knot:
      two ranks above 0 whose sends wait for a match in one stage, the next stage using its tag. */
  lemma DeadlockFreeIff(c: Config)
    requires c.Valid()
    ensures (forall s :: Reachable(c, s) ==> AllDone(c, s) || exists e :: Enabled(c, s, e)) <==> !Knotted(c)
  {
    if Knotted(c) {
      assert c.(tags := c.tags[..c.Stages()]) == c;
      var k, a, b := FirstKnot(c, c.Stages());
      var s := ReachDoom(c, k, a, b);
      var stuck := DoomedGetsStuck(c, s, k, a, b);
    } else {
      forall s | Reachable(c, s) ensures AllDone(c, s) || exists e :: Enabled(c, s, e) {
        var es :| IsRun(c, es) && After(c, es) == s;
        NeverStuck(c, es);
      }
    }
  }

  /** Every stage's sends wait for a match at every rank. */
  ghost predicate Rendezvous(c: Config) {
    c.Valid() && forall r: nat, k: nat {:trigger c.kind(r, k)} :: c.kind(r, k) == PostFirst(true)
  }

  /** Post-first exchanges whose sends wait for a match (`allgatherv`, `alltoallv`, `reducescatter`)
      are deadlock free in every schedule exactly when neighbouring stages use different tags, as
      with a barrier in between, or there are at most two ranks. */
  lemma RendezvousDeadlockFreeIff(c: Config)
    requires Rendezvous(c)
    ensures (forall s :: Reachable(c, s) ==> AllDone(c, s) || exists e :: Enabled(c, s, e))
            <==> (c.n <= 2 || TagsAlternate(c))
  {
    DeadlockFreeIff(c);
    if !TagsAlternate(c) && c.n > 2 {
      var k := FirstRepeat(c);
      assert KnotAt(c, k, 1, 2);
    }
  }
}
