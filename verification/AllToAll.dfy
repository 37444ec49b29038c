/** A whole run of all-to-all exchanges: n ranks each work through the same list of stages, and in
    every stage send one message to every peer and match one receive per peer. Stage k uses the tag
    `tags[k]`; tags may repeat, adjacent or not. A receive matches on its tag alone. The `src` and
    `stage` labels of a message are there to state theorems: no guard below looks at them. */
module AllToAll {
  import opened Bytes
  import opened Network
  import opened Programs

  datatype Msg = Msg(src: nat, stage: nat, data: Buffer)

  /** `kind(r, k)` is how rank r performs stage k, `input(r, k, p)` what it sends to peer p there. */
  datatype Config = Config(n: nat, tags: seq<nat>, kind: (nat, nat) -> Kind, input: (nat, nat, nat) -> Buffer) {
    ghost predicate Valid() { n >= 1 }

    function Peers(): nat
      requires n >= 1
    {
      n - 1
    }

    function Stages(): nat { |tags| }
  }

  /** `done[k]` is what the receives of stage k matched, in posting order; `inbox` the current stage's. */
  datatype Rank = Rank(done: seq<seq<Msg>>, pc: nat, inbox: seq<Msg>)

  datatype State = State(ranks: seq<Rank>, net: Net<Msg>)

  /** A rank performs its next call, a posted receive matches a message from `peer`, or a rank
      returns from its collective. */
  datatype Event = Exec(rank: nat) | Match(rank: nat, peer: nat) | Finish(rank: nat)

  function Init(c: Config): State {
    State(seq(c.n, r => Rank([], 0, [])), Empty())
  }

  function Stage(s: State, r: nat): nat
    requires r < |s.ranks|
  {
    |s.ranks[r].done|
  }

  function KindOf(c: Config, s: State, r: nat): Kind
    requires r < |s.ranks|
  {
    c.kind(r, Stage(s, r))
  }

  function LengthOf(c: Config, s: State, r: nat): nat
    requires c.n >= 1 && r < |s.ranks|
  {
    Length(KindOf(c, s, r), c.Peers())
  }

  function SentBy(c: Config, s: State, r: nat): nat
    requires c.n >= 1 && r < |s.ranks|
  {
    Sent(KindOf(c, s, r), c.Peers(), s.ranks[r].pc)
  }

  function PostedBy(c: Config, s: State, r: nat): nat
    requires c.n >= 1 && r < |s.ranks|
  {
    Posted(KindOf(c, s, r), c.Peers(), s.ranks[r].pc)
  }

  predicate Working(c: Config, s: State, r: nat) {
    c.n >= 1 && r < |s.ranks| && Stage(s, r) < c.Stages()
  }

  function TagOf(c: Config, s: State, r: nat): nat
    requires Working(c, s, r)
  {
    c.tags[Stage(s, r)]
  }

  /** A send is waited for only by PostFirst ranks; under rendezvous it is over once matched. A wait
      for slot i is over once i + 1 receives have matched: equal tags match in posting order. */
  predicate CallReturns(c: Config, s: State, r: nat)
    requires Working(c, s, r) && s.ranks[r].pc < LengthOf(c, s, r)
  {
    match OpAt(KindOf(c, s, r), c.Peers(), s.ranks[r].pc)
    case Send(_) => true
    case AwaitSend(j) =>
      KindOf(c, s, r).PostFirst? && KindOf(c, s, r).rendezvous ==>
        !s.net.Pending(Chan(r, PeerAt(r, j), TagOf(c, s, r)))
    case Post(_) => true
    case Wait(i) => i < |s.ranks[r].inbox|
  }

  predicate Enabled(c: Config, s: State, e: Event) {
    && Working(c, s, e.rank)
    && match e
       case Exec(r) => s.ranks[r].pc < LengthOf(c, s, r) && CallReturns(c, s, r)
       case Match(r, q) =>
         && q < c.n
         && |s.ranks[r].inbox| < PostedBy(c, s, r)
         && s.net.Pending(Chan(q, r, TagOf(c, s, r)))
       case Finish(r) => s.ranks[r].pc == LengthOf(c, s, r)
  }

  function Apply(c: Config, s: State, e: Event): (s': State)
    requires Enabled(c, s, e)
    ensures |s'.ranks| == |s.ranks|
  {
    var rank := s.ranks[e.rank];
    match e
    case Exec(r) =>
      var ranks := s.ranks[r := rank.(pc := rank.pc + 1)];
      var op := OpAt(KindOf(c, s, r), c.Peers(), rank.pc);
      if op.Send? then
        var dst := PeerAt(r, op.peer);
        State(ranks, s.net.Push(Chan(r, dst, TagOf(c, s, r)), Msg(r, Stage(s, r), c.input(r, Stage(s, r), dst))))
      else
        State(ranks, s.net)
    case Match(r, q) =>
      var ch := Chan(q, r, TagOf(c, s, r));
      State(s.ranks[r := rank.(inbox := rank.inbox + [s.net.Head(ch)])], s.net.Pop(ch))
    case Finish(r) =>
      State(s.ranks[r := Rank(rank.done + [rank.inbox], 0, [])], s.net)
  }

  /** A schedule: any interleaving the guards allow, from the initial state. */
  predicate IsRun(c: Config, es: seq<Event>)
    decreases |es|, 0
  {
    es == [] || (IsRun(c, es[..|es| - 1]) && Enabled(c, After(c, es[..|es| - 1]), es[|es| - 1]))
  }

  function After(c: Config, es: seq<Event>): (s: State)
    requires IsRun(c, es)
    ensures |s.ranks| == c.n
    decreases |es|, 1
  {
    if es == [] then Init(c) else Apply(c, After(c, es[..|es| - 1]), es[|es| - 1])
  }

  predicate AllDone(c: Config, s: State) {
    forall r :: 0 <= r < |s.ranks| ==> Stage(s, r) == c.Stages()
  }

  /** Rank p has begun stage k: it is past it, or in it and has sent its first message. */
  predicate Entered(c: Config, s: State, p: nat, k: nat)
    requires c.n >= 1 && p < |s.ranks|
  {
    Stage(s, p) > k || (Stage(s, p) == k && SentBy(c, s, p) > 0)
  }
}
