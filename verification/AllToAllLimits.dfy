/** Why the benchmark loops put a barrier between collectives: what goes wrong without one, and
    exactly when. */
module AllToAllLimits {
  import opened Network
  import opened AllToAll
  import opened AllToAllInvariant
  import opened AllToAllProgress

  /** No two neighbouring stages share a tag. */
  predicate TagsAlternate(c: Config) {
    forall k :: 0 <= k && k + 1 < c.Stages() ==> c.tags[k] != c.tags[k + 1]
  }

  lemma FirstRepeat(c: Config) returns (k: nat)
    requires !TagsAlternate(c)
    ensures k + 1 < c.Stages() && c.tags[k] == c.tags[k + 1]
    ensures forall i :: 0 <= i < k ==> c.tags[i] != c.tags[i + 1]
  {
    k := 0;
    while c.tags[k] != c.tags[k + 1]
      invariant k + 1 < c.Stages()
      invariant forall i :: 0 <= i < k ==> c.tags[i] != c.tags[i + 1]
      decreases c.Stages() - k
    {
      if k + 2 == c.Stages() {
        assert false;
      }
      k := k + 1;
    }
  }

  ghost predicate Reachable(c: Config, s: State) {
    exists es :: IsRun(c, es) && After(c, es) == s
  }

  lemma ReachStep(c: Config, s: State, e: Event)
    requires Reachable(c, s) && Enabled(c, s, e)
    ensures Reachable(c, Apply(c, s, e))
  {
    var es :| IsRun(c, es) && After(c, es) == s;
    assert (es + [e])[..|es|] == es;
    assert IsRun(c, es + [e]) && After(c, es + [e]) == Apply(c, s, e);
  }

  lemma ReachInv(c: Config, s: State)
    requires c.Valid() && Reachable(c, s)
    ensures Inv(c, s) && Remaining(c, s) >= 0
  {
    var es :| IsRun(c, es) && After(c, es) == s;
    InvRun(c, es);
    RunLength(c, es);
  }

  lemma StepTruncated(c: Config, k: nat, s: State, e: Event)
    requires k <= c.Stages() && Enabled(c.(tags := c.tags[..k]), s, e)
    ensures Enabled(c, s, e) && Apply(c, s, e) == Apply(c.(tags := c.tags[..k]), s, e)
  {
  }

  lemma {:induction false} Truncated(c: Config, k: nat, es: seq<Event>)
    requires k <= c.Stages() && IsRun(c.(tags := c.tags[..k]), es)
    ensures IsRun(c, es) && After(c, es) == After(c.(tags := c.tags[..k]), es)
  {
    if es != [] {
      Truncated(c, k, es[..|es| - 1]);
      StepTruncated(c, k, After(c, es[..|es| - 1]), es[|es| - 1]);
    }
  }

  lemma {:induction false} CountTruncated(tags: seq<nat>, t: nat, k: nat, j: nat)
    requires j <= k <= |tags|
    ensures Count(tags[..k], t, j) == Count(tags, t, j)
  {
    if j > 0 { CountTruncated(tags, t, k, j - 1); }
  }

  ghost predicate Clean(s: State) {
    forall ch: Chan :: s.net.Taken(ch) == |s.net.Log(ch)|
  }

  datatype View = View(stage: nat, pc: nat, got: nat)

  function At(s: State, r: nat): View
    requires r < |s.ranks|
  {
    View(|s.ranks[r].done|, s.ranks[r].pc, |s.ranks[r].inbox|)
  }

  /** All ranks can reach the start of stage k together, with nothing in flight. */
  lemma ReachStage(c: Config, k: nat) returns (s: State)
    requires c.Valid() && k <= c.Stages() && !Knotted(c.(tags := c.tags[..k]))
    ensures Reachable(c, s) && |s.ranks| == c.n && Clean(s)
    ensures forall r :: 0 <= r < c.n ==> At(s, r) == View(k, 0, 0)
  {
    var short := c.(tags := c.tags[..k]);
    var es := Complete(short, []);
    Truncated(c, k, es);
    InvRun(short, es);
    s := After(short, es);
    forall r: nat | r < c.n ensures At(s, r) == View(k, 0, 0) {
      assert RankOk(short, s, r);
    }
    forall ch: Chan ensures s.net.Taken(ch) == |s.net.Log(ch)| {
      NothingLeftBehind(short, es, ch);
    }
  }
}
