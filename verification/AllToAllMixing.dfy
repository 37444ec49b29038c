/** Back-to-back collectives on one tag can mix their rounds; alternating tags never do. */
module AllToAllMixing {
  import opened AllToAll
  import opened AllToAllInvariant
  import opened AllToAllProgress
  import opened AllToAllIsolation
  import opened AllToAllLimits
  import opened AllToAllSchedules

  /** Every completed stage of every schedule received exactly its peers' messages of that stage. */
  ghost predicate AlwaysExact(c: Config)
    requires c.Valid()
  {
    forall s: State, r: nat, k: nat :: Reachable(c, s) && r < |s.ranks| && k < |s.ranks[r].done| ==>
      multiset(s.ranks[r].done[k]) == multiset(PeerMessages(c, r, k))
  }

  lemma AlternatingIsExact(c: Config)
    requires c.Valid() && (c.n <= 2 || TagsAlternate(c))
    ensures AlwaysExact(c)
  {
    forall s: State, r: nat, k: nat | Reachable(c, s) && r < |s.ranks| && k < |s.ranks[r].done|
      ensures multiset(s.ranks[r].done[k]) == multiset(PeerMessages(c, r, k))
    {
      var es :| IsRun(c, es) && After(c, es) == s;
      InvRun(c, es);
      assert RankOk(c, s, r);
      IsolatedStageIsExact(c, es, r, k);
    }
  }

  /** One message of another stage spoils a round. */
  lemma ForeignMessage(c: Config, s: State, r: nat, k: nat, i: nat)
    requires c.Valid() && Reachable(c, s) && r < |s.ranks| && k < |s.ranks[r].done|
    requires i < |s.ranks[r].done[k]| && s.ranks[r].done[k][i].stage != k
    ensures !AlwaysExact(c)
  {
    var odd := s.ranks[r].done[k][i];
    assert odd in multiset(s.ranks[r].done[k]);
    assert forall m :: m in PeerMessages(c, r, k) ==> m.stage == k;
    assert odd !in multiset(PeerMessages(c, r, k));
  }

  // ---------------------------------------------------------------- how a round takes a later message

  /** Everybody serves all peers, except that rank 2 stops after rank 0. */
  function Withheld(n: nat): (v: seq<nat>)
    requires n >= 3
  {
    seq(n, y => if y == 2 then 1 else n - 1)
  }

  lemma AlternatingHasNoKnot(c: Config, k: nat)
    requires k <= c.Stages() && forall i :: 0 <= i < k && i + 1 < c.Stages() ==> c.tags[i] != c.tags[i + 1]
    ensures !Knotted(c.(tags := c.tags[..k]))
  {
  }

  /** Rank 0 has begun stage k + 1 while rank 1 still has one receive of stage k to match. */
  lemma ZeroAhead(c: Config, k: nat) returns (s: State)
    requires c.Valid() && c.n >= 3 && k + 1 < c.Stages() && c.tags[k] == c.tags[k + 1]
    requires forall i :: 0 <= i < k ==> c.tags[i] != c.tags[i + 1]
    ensures Known(c, s) && Ready(c, s, 0, k + 1, 0, 0) && Untaken(c, s, 0, 1, k + 1)
    ensures Ready(c, s, 1, k, c.n - 1, c.n - 2)
  {
    var v := Withheld(c.n);
    AlternatingHasNoKnot(c, k);
    var s0 := ReachServing(c, k, v);
    AllServed(v, 0);
    NotAllServed(v, 1, 2);
    assert ServingOne(c, s0, k, v, 0) && ServingOne(c, s0, k, v, 1) && TakenSoFar(c, s0, k, v, 0, 1);
    s := GoOn(c, s0, 0, k);
  }

  /** It fills it with rank 0's next message, and completes stage k without rank 2's. */
  lemma RankOneMixes(c: Config, k: nat) returns (s: State)
    requires c.Valid() && c.n >= 3 && k + 1 < c.Stages() && c.tags[k] == c.tags[k + 1]
    requires forall i :: 0 <= i < k ==> c.tags[i] != c.tags[i + 1]
    ensures Known(c, s) && |s.ranks[1].done| == k + 1
    ensures |s.ranks[1].done[k]| == c.Peers() && s.ranks[1].done[k][c.Peers() - 1].stage == k + 1
  {
    var s0 := ZeroAhead(c, k);
    var s1 := Deliver(c, s0, 0, 1, k + 1, 0);
    s := FinishStage(c, s1, 1, k);
  }

  /** Collectives of any kinds, in any mixture over stages and ranks, deliver exactly their own round's
      messages in every schedule if and only if no two neighbouring ones share a tag, or there are at most
      two ranks. */
  lemma ExactIffTagsAlternate(c: Config)
    requires c.Valid()
    ensures AlwaysExact(c) <==> (c.n <= 2 || TagsAlternate(c))
  {
    if c.n <= 2 || TagsAlternate(c) {
      AlternatingIsExact(c);
    } else {
      var k := FirstRepeat(c);
      var s := RankOneMixes(c, k);
      ForeignMessage(c, s, 1, k, c.Peers() - 1);
    }
  }
}
