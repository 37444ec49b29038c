/** The out-of-band allgather: receives are posted per source, each under that source's own tag, then
    the rank sends to every peer, then it waits. Rounds follow each other with no barrier. */
module OobAllgather {
  import opened Bytes
  import opened Network
  import opened Programs

  const UCC_OOB_TAG_BASE: nat := 0xCC0000

  datatype Msg = Msg(src: nat, round: nat, data: Buffer)

  datatype Slot = Open | Full(msg: Msg)

  datatype Config = Config(n: nat, rounds: nat, rendezvous: bool, input: (nat, nat) -> Buffer) {
    function Peers(): nat
      requires n >= 1
    {
      n - 1
    }

    function Kind(): Kind { PostFirst(rendezvous) }
  }

  /** `slots[j]` is the receive posted for the j-th peer. */
  datatype Rank = Rank(done: seq<seq<Slot>>, pc: nat, slots: seq<Slot>)

  datatype State = State(ranks: seq<Rank>, net: Net<Msg>)

  /** `Match` pairs a posted receive with a message from whatever sender used its tag. */
  datatype Event = Exec(rank: nat) | Match(rank: nat, slot: nat, from: nat) | Finish(rank: nat)

  function TagOf(sender: nat): nat { UCC_OOB_TAG_BASE + sender }

  function AllOpen(c: Config): (slots: seq<Slot>)
    requires c.n >= 1
  {
    seq(c.Peers(), j => Open)
  }

  function Init(c: Config): State
    requires c.n >= 1
  {
    State(seq(c.n, r => Rank([], 0, AllOpen(c))), Empty())
  }

  predicate Working(c: Config, s: State, r: nat) {
    c.n >= 1 && r < |s.ranks| && |s.ranks[r].done| < c.rounds
  }

  function NextOp(c: Config, s: State, r: nat): Op
    requires Working(c, s, r) && s.ranks[r].pc < Length(c.Kind(), c.Peers())
  {
    OpAt(c.Kind(), c.Peers(), s.ranks[r].pc)
  }

  predicate CallReturns(c: Config, s: State, r: nat)
    requires Working(c, s, r) && s.ranks[r].pc < Length(c.Kind(), c.Peers())
  {
    match NextOp(c, s, r)
    case AwaitSend(j) => c.rendezvous ==> !s.net.Pending(Chan(r, PeerAt(r, j), TagOf(r)))
    case Wait(j) => j < |s.ranks[r].slots| && s.ranks[r].slots[j].Full?
    case _ => true
  }

  predicate Enabled(c: Config, s: State, e: Event) {
    && Working(c, s, e.rank)
    && match e
       case Exec(r) => s.ranks[r].pc < Length(c.Kind(), c.Peers()) && CallReturns(c, s, r)
       case Match(r, j, q) =>
         && j < |s.ranks[r].slots| && s.ranks[r].slots[j].Open?
         && j < Posted(c.Kind(), c.Peers(), s.ranks[r].pc)
         && q < c.n
         && s.net.Pending(Chan(q, r, TagOf(PeerAt(r, j))))
       case Finish(r) => s.ranks[r].pc == Length(c.Kind(), c.Peers())
  }

  function Apply(c: Config, s: State, e: Event): (s': State)
    requires Enabled(c, s, e)
    ensures |s'.ranks| == |s.ranks|
  {
    var rank := s.ranks[e.rank];
    match e
    case Exec(r) =>
      var ranks := s.ranks[r := rank.(pc := rank.pc + 1)];
      if NextOp(c, s, r).Send? then
        var dst := PeerAt(r, NextOp(c, s, r).peer);
        State(ranks, s.net.Push(Chan(r, dst, TagOf(r)), Msg(r, |rank.done|, c.input(r, |rank.done|))))
      else
        State(ranks, s.net)
    case Match(r, j, q) =>
      var ch := Chan(q, r, TagOf(PeerAt(r, j)));
      State(s.ranks[r := rank.(slots := rank.slots[j := Full(s.net.Head(ch))])], s.net.Pop(ch))
    case Finish(r) =>
      State(s.ranks[r := Rank(rank.done + [rank.slots], 0, AllOpen(c))], s.net)
  }

  predicate IsRun(c: Config, es: seq<Event>)
    requires c.n >= 1
    decreases |es|, 0
  {
    es == [] || (IsRun(c, es[..|es| - 1]) && Enabled(c, After(c, es[..|es| - 1]), es[|es| - 1]))
  }

  function After(c: Config, es: seq<Event>): (s: State)
    requires c.n >= 1 && IsRun(c, es)
    ensures |s.ranks| == c.n
    decreases |es|, 1
  {
    if es == [] then Init(c) else Apply(c, After(c, es[..|es| - 1]), es[|es| - 1])
  }

  /** How many rounds' messages q has sent to r. */
  function SentUpTo(c: Config, s: State, q: nat, r: nat): nat
    requires c.n >= 1 && q < |s.ranks| && q != r
  {
    |s.ranks[q].done| + if IndexOf(q, r) < Sent(c.Kind(), c.Peers(), s.ranks[q].pc) then 1 else 0
  }

  /** The messages q sends to anyone, round by round. */
  function Stream(c: Config, q: nat, k: nat): (ms: seq<Msg>)
  {
    seq(k, i requires 0 <= i => Msg(q, i, c.input(q, i)))
  }

  function RoundSlots(c: Config, r: nat, k: nat): (slots: seq<Slot>)
    requires c.n >= 1
  {
    seq(c.Peers(), j requires 0 <= j => Full(Msg(PeerAt(r, j), k, c.input(PeerAt(r, j), k))))
  }

  ghost predicate RankOk(c: Config, s: State, r: nat) {
    c.n >= 1 && r < |s.ranks| ==>
      var rank := s.ranks[r];
      && |rank.done| <= c.rounds && |rank.slots| == c.Peers()
      && (|rank.done| == c.rounds ==> rank.pc == 0)
      && rank.pc <= Length(c.Kind(), c.Peers())
      && (forall j :: 0 <= j < c.Peers() && rank.slots[j].Full? ==>
            j < Posted(c.Kind(), c.Peers(), rank.pc) && rank.slots[j] == RoundSlots(c, r, |rank.done|)[j])
      && (forall j :: 0 <= j < Waited(c.Kind(), c.Peers(), rank.pc) && j < c.Peers() ==> rank.slots[j].Full?)
      && (forall k :: 0 <= k < |rank.done| ==> rank.done[k] == RoundSlots(c, r, k))
  }

  function TakenBy(c: Config, s: State, r: nat, q: nat): nat
    requires r < |s.ranks| && q != r && IndexOf(r, q) < |s.ranks[r].slots|
  {
    |s.ranks[r].done| + if s.ranks[r].slots[IndexOf(r, q)].Full? then 1 else 0
  }

  ghost predicate ChannelOk(c: Config, s: State, q: nat, r: nat, t: nat) {
    var ch := Chan(q, r, t);
    && s.net.Taken(ch) <= |s.net.Log(ch)|
    && if c.n >= 1 && q < |s.ranks| && r < |s.ranks| && q != r && t == TagOf(q)
       then s.net.Log(ch) == Stream(c, q, SentUpTo(c, s, q, r))
            && IndexOf(r, q) < |s.ranks[r].slots| && s.net.Taken(ch) == TakenBy(c, s, r, q)
       else s.net.Log(ch) == []
  }

  ghost predicate Inv(c: Config, s: State) {
    && c.n >= 1 && |s.ranks| == c.n
    && (forall r: nat :: RankOk(c, s, r))
    && (forall q: nat, r: nat, t: nat :: ChannelOk(c, s, q, r, t))
  }

  /** A receive posted for peer p matches only messages of p: the tag names its sender. */
  lemma TagNamesSender(c: Config, s: State, r: nat, j: nat, q: nat)
    requires Inv(c, s) && Enabled(c, s, Match(r, j, q))
    ensures q == PeerAt(r, j) && q != r && j == IndexOf(r, q)
    ensures s.net.Head(Chan(q, r, TagOf(q))) == Msg(q, |s.ranks[r].done|, c.input(q, |s.ranks[r].done|))
  {
    assert ChannelOk(c, s, q, r, TagOf(PeerAt(r, j))) && RankOk(c, s, r);
    PeerIndexInverse(c.n, r, j, PeerAt(r, j));
  }

  predicate Sends(c: Config, s: State, r: nat)
    requires Working(c, s, r) && s.ranks[r].pc < Length(c.Kind(), c.Peers())
  {
    NextOp(c, s, r).Send?
  }

  function SentBy(c: Config, s: State, r: nat): nat
    requires c.n >= 1 && r < |s.ranks|
  {
    Sent(c.Kind(), c.Peers(), s.ranks[r].pc)
  }

  function NextMsg(c: Config, s: State, r: nat): Msg
    requires r < |s.ranks|
  {
    Msg(r, |s.ranks[r].done|, c.input(r, |s.ranks[r].done|))
  }

  /** What a call does to its rank's counter of sends, and to the network. */
  lemma ExecEffect(c: Config, s: State, r: nat)
    requires c.n >= 1 && Enabled(c, s, Exec(r))
    ensures var s' := Apply(c, s, Exec(r));
            && s'.ranks == s.ranks[r := s.ranks[r].(pc := s.ranks[r].pc + 1)]
            && SentBy(c, s', r) == SentBy(c, s, r) + (if Sends(c, s, r) then 1 else 0)
            && (Sends(c, s, r) ==> SentBy(c, s, r) < c.Peers())
            && s'.net == if Sends(c, s, r)
                         then s.net.Push(Chan(r, PeerAt(r, SentBy(c, s, r)), TagOf(r)), NextMsg(c, s, r))
                         else s.net
  {
    CountersFollowProgram(c.Kind(), c.Peers(), s.ranks[r].pc);
  }

  lemma ExecSelfRankOk(c: Config, s: State, r: nat)
    requires RankOk(c, s, r) && Enabled(c, s, Exec(r))
    ensures RankOk(c, Apply(c, s, Exec(r)), r)
  {
    CountersFollowProgram(c.Kind(), c.Peers(), s.ranks[r].pc);
  }

  lemma ExecRankOk(c: Config, s: State, r: nat, x: nat)
    requires Inv(c, s) && Enabled(c, s, Exec(r))
    ensures RankOk(c, Apply(c, s, Exec(r)), x)
  {
    assert RankOk(c, s, x);
    if x == r { ExecSelfRankOk(c, s, r); }
  }

  /** A channel the caller does not send on. */
  lemma OtherChannelOk(c: Config, s: State, r: nat, q: nat, x: nat, t: nat)
    requires c.n >= 1 && |s.ranks| == c.n && ChannelOk(c, s, q, x, t) && Enabled(c, s, Exec(r))
    requires q != r || x >= c.n || x == r
    ensures ChannelOk(c, Apply(c, s, Exec(r)), q, x, t)
  {
    ExecEffect(c, s, r);
    if Sends(c, s, r) {
      PeerIndexInverse(c.n, r, SentBy(c, s, r), PeerAt(r, SentBy(c, s, r)));
    }
  }

  /** A channel from the caller: a send extends the stream to one peer by this round's message. */
  lemma OwnChannelOk(c: Config, s: State, r: nat, x: nat, t: nat)
    requires c.n >= 1 && |s.ranks| == c.n && ChannelOk(c, s, r, x, t) && Enabled(c, s, Exec(r)) && x < c.n && x != r
    ensures ChannelOk(c, Apply(c, s, Exec(r)), r, x, t)
  {
    ExecEffect(c, s, r);
    PeerIndexInverse(c.n, r, SentBy(c, s, r), x);
    assert Stream(c, r, |s.ranks[r].done| + 1) == Stream(c, r, |s.ranks[r].done|) + [NextMsg(c, s, r)];
  }

  lemma ExecChannelOk(c: Config, s: State, r: nat, q: nat, x: nat, t: nat)
    requires Inv(c, s) && Enabled(c, s, Exec(r))
    ensures ChannelOk(c, Apply(c, s, Exec(r)), q, x, t)
  {
    assert ChannelOk(c, s, q, x, t);
    if q == r && x < c.n && x != r {
      OwnChannelOk(c, s, r, x, t);
    } else {
      OtherChannelOk(c, s, r, q, x, t);
    }
  }

  lemma ExecInv(c: Config, s: State, r: nat)
    requires Inv(c, s) && Enabled(c, s, Exec(r))
    ensures Inv(c, Apply(c, s, Exec(r)))
  {
    var s' := Apply(c, s, Exec(r));
    forall x: nat ensures RankOk(c, s', x) { ExecRankOk(c, s, r, x); }
    forall q: nat, x: nat, t: nat ensures ChannelOk(c, s', q, x, t) { ExecChannelOk(c, s, r, q, x, t); }
  }

  lemma MatchRankOk(c: Config, s: State, r: nat, j: nat, p: nat, x: nat)
    requires Inv(c, s) && Enabled(c, s, Match(r, j, p))
    ensures RankOk(c, Apply(c, s, Match(r, j, p)), x)
  {
    TagNamesSender(c, s, r, j, p);
    assert RankOk(c, s, x);
  }

  lemma MatchChannelOk(c: Config, s: State, r: nat, j: nat, p: nat, q: nat, x: nat, t: nat)
    requires Inv(c, s) && Enabled(c, s, Match(r, j, p))
    ensures ChannelOk(c, Apply(c, s, Match(r, j, p)), q, x, t)
  {
    TagNamesSender(c, s, r, j, p);
    assert ChannelOk(c, s, q, x, t);
    if q != x && q < c.n && x < c.n { PeerIndexInverse(c.n, x, j, q); }
  }

  lemma MatchInv(c: Config, s: State, r: nat, j: nat, p: nat)
    requires Inv(c, s) && Enabled(c, s, Match(r, j, p))
    ensures Inv(c, Apply(c, s, Match(r, j, p)))
  {
    var s' := Apply(c, s, Match(r, j, p));
    forall x: nat ensures RankOk(c, s', x) { MatchRankOk(c, s, r, j, p, x); }
    forall q: nat, x: nat, t: nat ensures ChannelOk(c, s', q, x, t) { MatchChannelOk(c, s, r, j, p, q, x, t); }
  }

  /** A rank that returns has all of its round's messages. */
  lemma RoundFull(c: Config, s: State, r: nat)
    requires Inv(c, s) && Enabled(c, s, Finish(r))
    ensures s.ranks[r].slots == RoundSlots(c, r, |s.ranks[r].done|)
    ensures SentBy(c, s, r) == c.Peers() && SentBy(c, Apply(c, s, Finish(r)), r) == 0
  {
    CounterBounds(c.Kind(), c.Peers(), s.ranks[r].pc);
    CounterBounds(c.Kind(), c.Peers(), 0);
    assert RankOk(c, s, r);
  }

  lemma FinishRankOk(c: Config, s: State, r: nat, x: nat)
    requires Inv(c, s) && Enabled(c, s, Finish(r))
    ensures RankOk(c, Apply(c, s, Finish(r)), x)
  {
    RoundFull(c, s, r);
    assert RankOk(c, s, x);
    CounterBounds(c.Kind(), c.Peers(), 0);
  }

  lemma FinishChannelOk(c: Config, s: State, r: nat, q: nat, x: nat, t: nat)
    requires Inv(c, s) && Enabled(c, s, Finish(r))
    ensures ChannelOk(c, Apply(c, s, Finish(r)), q, x, t)
  {
    RoundFull(c, s, r);
    assert ChannelOk(c, s, q, x, t);
    if q != x && q < c.n && x < c.n {
      PeerIndexInverse(c.n, x, 0, q);
      PeerIndexInverse(c.n, q, 0, x);
    }
  }

  lemma FinishInv(c: Config, s: State, r: nat)
    requires Inv(c, s) && Enabled(c, s, Finish(r))
    ensures Inv(c, Apply(c, s, Finish(r)))
  {
    var s' := Apply(c, s, Finish(r));
    forall x: nat ensures RankOk(c, s', x) { FinishRankOk(c, s, r, x); }
    forall q: nat, x: nat, t: nat ensures ChannelOk(c, s', q, x, t) { FinishChannelOk(c, s, r, q, x, t); }
  }

  lemma {:induction false} InvRun(c: Config, es: seq<Event>)
    requires c.n >= 1 && IsRun(c, es)
    ensures Inv(c, After(c, es))
  {
    if es == [] {
      CounterBounds(c.Kind(), c.Peers(), 0);
    } else {
      var s := After(c, es[..|es| - 1]);
      InvRun(c, es[..|es| - 1]);
      match es[|es| - 1]
      case Exec(r) => ExecInv(c, s, r);
      case Match(r, j, q) => MatchInv(c, s, r, j, q);
      case Finish(r) => FinishInv(c, s, r);
    }
  }
}
