/** When an all-to-all stage delivers exactly its own messages, one per peer. */
module AllToAllIsolation {
  import opened Permutations
  import opened Network
  import opened Programs
  import opened AllToAll
  import opened AllToAllInvariant
  import opened AllToAllProgress

  /** The stages next to k use other tags than k does; with two ranks there is nobody to confuse. */
  predicate Isolated(c: Config, k: nat)
    requires k < c.Stages()
  {
    c.n <= 2 || ((k > 0 ==> c.tags[k - 1] != c.tags[k]) && (k + 1 < c.Stages() ==> c.tags[k + 1] != c.tags[k]))
  }

  /** What the peers of r address to it in stage k, in rank order. */
  function PeerMessages(c: Config, r: nat, k: nat): (ms: seq<Msg>)
    requires c.n >= 1
  {
    seq(c.Peers(), j requires 0 <= j => Msg(PeerAt(r, j), k, c.input(PeerAt(r, j), k, r)))
  }

  function FromPeer(inbox: seq<Msg>, q: nat): nat {
    if inbox == [] then 0 else FromPeer(inbox[..|inbox| - 1], q) + (if inbox[|inbox| - 1].src == q then 1 else 0)
  }

  lemma {:induction false} FromPeerZero(inbox: seq<Msg>, q: nat)
    ensures FromPeer(inbox, q) <= |inbox|
    ensures FromPeer(inbox, q) == 0 <==> forall i :: 0 <= i < |inbox| ==> inbox[i].src != q
  {
    if inbox != [] {
      FromPeerZero(inbox[..|inbox| - 1], q);
    }
  }

  /** Tag t is not carried across the boundary before stage k. */
  predicate Quiet(c: Config, t: nat, k: nat) {
    c.n <= 2 || !(0 < k < c.Stages() && c.tags[k - 1] == t && c.tags[k] == t)
  }

  ghost predicate QuietOk(c: Config, s: State, r: nat, t: nat, q: nat) {
    c.n >= 1 && q < |s.ranks| && r < |s.ranks| && q != r && Stage(s, r) <= c.Stages() && Quiet(c, t, Stage(s, r)) ==>
      s.net.Taken(Chan(q, r, t)) == Count(c.tags, t, Stage(s, r))
        + (if Stage(s, r) < c.Stages() && c.tags[Stage(s, r)] == t then FromPeer(s.ranks[r].inbox, q) else 0)
  }

  ghost predicate Fitting(c: Config, r: nat, k: nat, inbox: seq<Msg>) {
    && c.n >= 1
    && (forall i :: 0 <= i < |inbox| ==> inbox[i] in PeerMessages(c, r, k))
    && (forall i, j :: 0 <= i < j < |inbox| ==> inbox[i].src != inbox[j].src)
  }

  ghost predicate InboxOk(c: Config, s: State, r: nat) {
    r < |s.ranks| && Stage(s, r) < c.Stages() && Isolated(c, Stage(s, r)) ==>
      Fitting(c, r, Stage(s, r), s.ranks[r].inbox)
  }

  ghost predicate DoneOk(c: Config, s: State, r: nat, k: nat) {
    c.n >= 1 && r < |s.ranks| && k < Stage(s, r) <= c.Stages() && Isolated(c, k) ==>
      multiset(s.ranks[r].done[k]) == multiset(PeerMessages(c, r, k))
  }

  ghost predicate ExactInv(c: Config, s: State) {
    && (forall r: nat, t: nat, q: nat :: QuietOk(c, s, r, t, q))
    && (forall r: nat :: InboxOk(c, s, r))
    && (forall r: nat, k: nat :: DoneOk(c, s, r, k))
  }

  lemma PeerMessagesDistinct(c: Config, r: nat, k: nat)
    requires c.n >= 1
    ensures Distinct(PeerMessages(c, r, k))
  {
    forall i, j | 0 <= i < j < c.Peers() ensures PeerMessages(c, r, k)[i] != PeerMessages(c, r, k)[j] {
      assert PeerMessages(c, r, k)[i].src == PeerAt(r, i) && PeerMessages(c, r, k)[j].src == PeerAt(r, j);
    }
  }

  lemma FullInboxExact(c: Config, r: nat, k: nat, inbox: seq<Msg>)
    requires Fitting(c, r, k, inbox) && |inbox| == c.Peers()
    ensures multiset(inbox) == multiset(PeerMessages(c, r, k))
  {
    PeerMessagesDistinct(c, r, k);
    SelectionIsPermutation(inbox, PeerMessages(c, r, k));
  }

  lemma ExactExec(c: Config, s: State, r: nat)
    requires Inv(c, s) && ExactInv(c, s) && Enabled(c, s, Exec(r))
    ensures ExactInv(c, Apply(c, s, Exec(r)))
  {
    var s' := Apply(c, s, Exec(r));
    forall x: nat, t: nat, q: nat ensures QuietOk(c, s', x, t, q) { assert QuietOk(c, s, x, t, q); }
    forall x: nat ensures InboxOk(c, s', x) { assert InboxOk(c, s, x); }
    forall x: nat, k: nat ensures DoneOk(c, s', x, k) { assert DoneOk(c, s, x, k); }
  }

  lemma MatchQuietOk(c: Config, s: State, r: nat, p: nat, x: nat, t: nat, q: nat)
    requires Inv(c, s) && ExactInv(c, s) && Enabled(c, s, Match(r, p))
    ensures QuietOk(c, Apply(c, s, Match(r, p)), x, t, q)
  {
    var s' := Apply(c, s, Match(r, p));
    assert QuietOk(c, s, x, t, q);
    if x == r && q < c.n && q != r {
      var ch := Chan(p, r, TagOf(c, s, r));
      assert LogOk(c, s, p, r, TagOf(c, s, r));
      HeadSource(c, s, r, p);
      assert s'.ranks[r].inbox[..|s.ranks[r].inbox|] == s.ranks[r].inbox;
    }
  }

  lemma {:induction false} ExpectedSource(c: Config, q: nat, r: nat, t: nat, k: nat)
    requires k <= c.Stages()
    ensures forall i :: 0 <= i < |Expected(c, q, r, t, k)| ==> Expected(c, q, r, t, k)[i].src == q
  {
    if k > 0 {
      ExpectedSource(c, q, r, t, k - 1);
    }
  }

  lemma HeadSource(c: Config, s: State, r: nat, p: nat)
    requires Inv(c, s) && Enabled(c, s, Match(r, p))
    ensures p != r && s.net.Head(Chan(p, r, TagOf(c, s, r))).src == p
  {
    assert LogOk(c, s, p, r, TagOf(c, s, r));
    ExpectedSource(c, p, r, TagOf(c, s, r), SentUpTo(c, s, p, r));
  }

  /** In an isolated stage nothing p sent r on this tag lies beyond the stage. */
  lemma NothingBeyond(c: Config, s: State, r: nat, p: nat)
    requires Inv(c, s) && Enabled(c, s, Match(r, p)) && Isolated(c, Stage(s, r)) && p != r
    ensures var k, t := Stage(s, r), TagOf(c, s, r);
            c.n > 2 ==> |s.net.Log(Chan(p, r, t))| <= Count(c.tags, t, k + 1)
  {
    var k, t := Stage(s, r), TagOf(c, s, r);
    assert LogOk(c, s, p, r, t) && SyncOk(c, s, r, p);
    ExpectedLength(c, p, r, t, SentUpTo(c, s, p, r));
    if c.n > 2 {
      CountMonotone(c.tags, t, SentUpTo(c, s, p, r), if k + 2 <= c.Stages() then k + 2 else k + 1);
    }
  }

  /** A peer with a message to match has sent in this stage, or is past it. */
  lemma PendingIsCurrent(c: Config, s: State, r: nat, p: nat)
    requires Inv(c, s) && Enabled(c, s, Match(r, p)) && p != r
    requires s.net.Taken(Chan(p, r, TagOf(c, s, r))) >= Count(c.tags, TagOf(c, s, r), Stage(s, r))
    ensures SentUpTo(c, s, p, r) > Stage(s, r)
  {
    var t, up := TagOf(c, s, r), SentUpTo(c, s, p, r);
    assert LogOk(c, s, p, r, t);
    ExpectedLength(c, p, r, t, up);
    if up <= Stage(s, r) { CountMonotone(c.tags, t, up, Stage(s, r)); }
  }

  lemma InboxNotFull(c: Config, s: State, r: nat, p: nat)
    requires Inv(c, s) && Enabled(c, s, Match(r, p))
    ensures |s.ranks[r].inbox| < c.Peers()
  {
    assert RankOk(c, s, r);
    CounterBounds(KindOf(c, s, r), c.Peers(), s.ranks[r].pc);
  }

  /** In an isolated stage a match takes the peer's message of that stage, and its first. */
  lemma MatchTakesOwnStage(c: Config, s: State, r: nat, p: nat)
    requires Inv(c, s) && ExactInv(c, s) && Enabled(c, s, Match(r, p)) && Isolated(c, Stage(s, r))
    ensures p != r && FromPeer(s.ranks[r].inbox, p) == 0
    ensures s.net.Head(Chan(p, r, TagOf(c, s, r))) == Msg(p, Stage(s, r), c.input(p, Stage(s, r), r))
  {
    var k, t := Stage(s, r), TagOf(c, s, r);
    HeadSource(c, s, r, p);
    assert QuietOk(c, s, r, t, p) && LogOk(c, s, p, r, t);
    FromPeerZero(s.ranks[r].inbox, p);
    InboxNotFull(c, s, r, p);
    NothingBeyond(c, s, r, p);
    PendingIsCurrent(c, s, r, p);
    ExpectedAt(c, p, r, t, k, SentUpTo(c, s, p, r));
  }

  lemma MatchInboxOk(c: Config, s: State, r: nat, p: nat, x: nat)
    requires Inv(c, s) && ExactInv(c, s) && Enabled(c, s, Match(r, p))
    ensures InboxOk(c, Apply(c, s, Match(r, p)), x)
  {
    assert InboxOk(c, s, x);
    var k := Stage(s, r);
    if x == r && Isolated(c, k) {
      MatchTakesOwnStage(c, s, r, p);
      FromPeerZero(s.ranks[r].inbox, p);
      PeerIndexInverse(c.n, r, 0, p);
      assert PeerMessages(c, r, k)[IndexOf(r, p)] == Msg(p, k, c.input(p, k, r));
    }
  }

  lemma ExactMatch(c: Config, s: State, r: nat, p: nat)
    requires Inv(c, s) && ExactInv(c, s) && Enabled(c, s, Match(r, p))
    ensures ExactInv(c, Apply(c, s, Match(r, p)))
  {
    var s' := Apply(c, s, Match(r, p));
    forall x: nat, t: nat, q: nat ensures QuietOk(c, s', x, t, q) { MatchQuietOk(c, s, r, p, x, t, q); }
    forall x: nat ensures InboxOk(c, s', x) { MatchInboxOk(c, s, r, p, x); }
    forall x: nat, k: nat ensures DoneOk(c, s', x, k) { assert DoneOk(c, s, x, k); }
  }

  lemma FinishQuietOk(c: Config, s: State, r: nat, x: nat, t: nat, q: nat)
    requires Inv(c, s) && ExactInv(c, s) && Enabled(c, s, Finish(r))
    ensures QuietOk(c, Apply(c, s, Finish(r)), x, t, q)
  {
    var s' := Apply(c, s, Finish(r));
    assert QuietOk(c, s, x, t, q);
    if x == r && q < c.n && q != r && Quiet(c, t, Stage(s', r)) && t == TagOf(c, s, r) {
      var k := Stage(s, r);
      CounterBounds(KindOf(c, s, r), c.Peers(), s.ranks[r].pc);
      assert RankOk(c, s, r);
      forall p: nat | p < c.n ensures Stage(s, p) <= k + 1 { assert SyncOk(c, s, r, p); }
      AllHeard(c, s, r, k, q);
    }
  }

  lemma FinishDoneOk(c: Config, s: State, r: nat, x: nat, k: nat)
    requires Inv(c, s) && ExactInv(c, s) && Enabled(c, s, Finish(r))
    ensures DoneOk(c, Apply(c, s, Finish(r)), x, k)
  {
    assert DoneOk(c, s, x, k);
    if x == r && k == Stage(s, r) && Isolated(c, k) {
      assert InboxOk(c, s, r) && RankOk(c, s, r);
      CounterBounds(KindOf(c, s, r), c.Peers(), s.ranks[r].pc);
      FullInboxExact(c, r, k, s.ranks[r].inbox);
    }
  }

  lemma ExactFinish(c: Config, s: State, r: nat)
    requires Inv(c, s) && ExactInv(c, s) && Enabled(c, s, Finish(r))
    ensures ExactInv(c, Apply(c, s, Finish(r)))
  {
    var s' := Apply(c, s, Finish(r));
    forall x: nat, t: nat, q: nat ensures QuietOk(c, s', x, t, q) { FinishQuietOk(c, s, r, x, t, q); }
    forall x: nat ensures InboxOk(c, s', x) { assert InboxOk(c, s, x); }
    forall x: nat, k: nat ensures DoneOk(c, s', x, k) { FinishDoneOk(c, s, r, x, k); }
  }

  lemma ExactStep(c: Config, s: State, e: Event)
    requires Inv(c, s) && ExactInv(c, s) && Enabled(c, s, e)
    ensures ExactInv(c, Apply(c, s, e))
  {
    match e
    case Exec(r) => ExactExec(c, s, r);
    case Match(r, q) => ExactMatch(c, s, r, q);
    case Finish(r) => ExactFinish(c, s, r);
  }

  lemma {:induction false} ExactRun(c: Config, es: seq<Event>)
    requires c.Valid() && IsRun(c, es)
    ensures ExactInv(c, After(c, es))
  {
    if es != [] {
      var before := es[..|es| - 1];
      ExactRun(c, before);
      InvRun(c, before);
      ExactStep(c, After(c, before), es[|es| - 1]);
    }
  }

  /** In every run, what a completed isolated stage matched is one message per peer, each the one that
      peer sent in that very stage. */
  lemma IsolatedStageIsExact(c: Config, es: seq<Event>, r: nat, k: nat)
    requires c.Valid() && IsRun(c, es) && r < c.n
    requires k < Stage(After(c, es), r) && k < c.Stages() && Isolated(c, k)
    ensures multiset(After(c, es).ranks[r].done[k]) == multiset(PeerMessages(c, r, k))
  {
    InvRun(c, es);
    ExactRun(c, es);
    assert RankOk(c, After(c, es), r) && DoneOk(c, After(c, es), r, k);
  }
}
