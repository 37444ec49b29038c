/** Repeated exchanges in which every rank sends along its own edges and then matches `degree` messages
    from anyone; rounds follow each other on one tag with no barrier. */
module Exchange {
  import opened Sums
  import opened Programs
  import opened Arithmetic

  /** The `slot`-th send of `src` goes to `dst`. */
  datatype Edge = Edge(src: nat, slot: nat, dst: nat)

  /** `made(e, k)`: the send of edge e is made in round k, not skipped. */
  datatype Config = Config(n: nat, rounds: nat, degree: nat, kind: Kind, edges: seq<Edge>, made: (Edge, nat) -> bool) {
    ghost predicate Valid() {
      n >= 1 && kind != PostFirst(true) && forall e :: 0 <= e < |edges| ==> edges[e].src < n && edges[e].slot < degree
    }

    function Calls(): nat { Length(kind, degree) }
  }

  /** `got`: receives of this round matched so far. */
  datatype Rank = Rank(round: nat, pc: nat, got: nat)

  /** `taken[e]`: messages matched on edge e. */
  datatype State = State(ranks: seq<Rank>, taken: seq<nat>)

  datatype Event = Exec(rank: nat) | Match(edge: nat) | Finish(rank: nat)

  function Init(c: Config): State {
    State(seq(c.n, r => Rank(0, 0, 0)), seq(|c.edges|, e => 0))
  }

  ghost predicate Shape(c: Config, s: State) {
    c.Valid() && |s.ranks| == c.n && |s.taken| == |c.edges|
  }

  /** Sends made on an edge in the first k rounds. */
  function MadeIn(c: Config, e: Edge, k: nat): nat {
    if k == 0 then 0 else MadeIn(c, e, k - 1) + if c.made(e, k - 1) then 1 else 0
  }

  /** Messages sent on an edge: those of completed rounds, and this round's once it is sent. */
  function SentOn(c: Config, s: State, e: nat): nat
    requires e < |c.edges| && c.edges[e].src < |s.ranks|
  {
    var edge, rank := c.edges[e], s.ranks[c.edges[e].src];
    MadeIn(c, edge, if edge.slot < Sent(c.kind, c.degree, rank.pc) then rank.round + 1 else rank.round)
  }

  predicate Working(c: Config, s: State, r: nat) {
    r < |s.ranks| && s.ranks[r].round < c.rounds
  }

  ghost predicate Enabled(c: Config, s: State, e: Event)
    requires Shape(c, s)
  {
    match e
    case Exec(r) =>
      && Working(c, s, r) && s.ranks[r].pc < c.Calls()
      && (OpAt(c.kind, c.degree, s.ranks[r].pc).Wait? ==> OpAt(c.kind, c.degree, s.ranks[r].pc).slot < s.ranks[r].got)
    case Match(i) =>
      && i < |c.edges| && Working(c, s, c.edges[i].dst)
      && s.ranks[c.edges[i].dst].got < Posted(c.kind, c.degree, s.ranks[c.edges[i].dst].pc)
      && s.taken[i] < SentOn(c, s, i)
    case Finish(r) => Working(c, s, r) && s.ranks[r].pc == c.Calls()
  }

  ghost function Apply(c: Config, s: State, e: Event): (s': State)
    requires Shape(c, s) && Enabled(c, s, e)
    ensures Shape(c, s')
  {
    match e
    case Exec(r) => s.(ranks := s.ranks[r := s.ranks[r].(pc := s.ranks[r].pc + 1)])
    case Match(i) =>
      var r := c.edges[i].dst;
      State(s.ranks[r := s.ranks[r].(got := s.ranks[r].got + 1)], s.taken[i := s.taken[i] + 1])
    case Finish(r) => s.(ranks := s.ranks[r := Rank(s.ranks[r].round + 1, 0, 0)])
  }

  ghost predicate IsRun(c: Config, es: seq<Event>)
    requires c.Valid()
    decreases |es|, 0
  {
    es == [] || (IsRun(c, es[..|es| - 1]) && Enabled(c, After(c, es[..|es| - 1]), es[|es| - 1]))
  }

  ghost function After(c: Config, es: seq<Event>): (s: State)
    requires c.Valid() && IsRun(c, es)
    ensures Shape(c, s)
    decreases |es|, 1
  {
    if es == [] then Init(c) else Apply(c, After(c, es[..|es| - 1]), es[|es| - 1])
  }

  /** A weight on each edge, restricted to the edges into r. */
  function Into(c: Config, r: nat, weight: seq<int>): (row: seq<int>)
    requires |weight| == |c.edges|
  {
    seq(|c.edges|, e requires 0 <= e < |c.edges| => if c.edges[e].dst == r then weight[e] else 0)
  }

  function Constant(n: nat, v: int): (row: seq<int>)
  {
    seq(n, e => v)
  }

  /** What all edges carry in the first k rounds. */
  function Carried(c: Config, k: nat): (row: seq<int>)
  {
    seq(|c.edges|, e requires 0 <= e < |c.edges| => MadeIn(c, c.edges[e], k))
  }

  /** How much is sent to r in the first k rounds, and in round k. */
  function Supply(c: Config, r: nat, k: nat): int { Sum(Into(c, r, Carried(c, k))) }

  function InDegree(c: Config, r: nat, k: nat): int { Sum(Into(c, r, MadeNow(c, k))) }

  function MadeNow(c: Config, k: nat): (row: seq<int>)
  {
    seq(|c.edges|, e requires 0 <= e < |c.edges| => if c.made(c.edges[e], k) then 1 else 0)
  }

  lemma {:induction false} SumPlus(a: seq<int>, b: seq<int>, both: seq<int>)
    requires |a| == |b| == |both| && forall i :: 0 <= i < |a| ==> both[i] == a[i] + b[i]
    ensures Sum(both) == Sum(a) + Sum(b)
  {
    if a != [] { SumPlus(a[..|a| - 1], b[..|b| - 1], both[..|a| - 1]); }
  }

  lemma SupplyStep(c: Config, r: nat, k: nat)
    ensures Supply(c, r, 0) == 0
    ensures Supply(c, r, k + 1) == Supply(c, r, k) + InDegree(c, r, k)
  {
    SumPlus(Into(c, r, Carried(c, k)), Into(c, r, MadeNow(c, k)), Into(c, r, Carried(c, k + 1)));
    assert Into(c, r, Carried(c, 0)) == Others(|c.edges|, |c.edges|, 0);
    SumOthers(|c.edges|, |c.edges|, 0);
  }

  /** No send is ever skipped. */
  ghost predicate Steady(c: Config) {
    forall e: Edge, k: nat :: c.made(e, k)
  }

  /** How many edges lead to r. */
  function EdgesTo(c: Config, r: nat): int { Sum(Into(c, r, Constant(|c.edges|, 1))) }

  lemma {:induction false} SteadyCounts(c: Config, e: Edge, k: nat)
    requires Steady(c)
    ensures MadeIn(c, e, k) == k
  {
    if k > 0 { SteadyCounts(c, e, k - 1); }
  }

  lemma SteadySupply(c: Config, r: nat, k: nat)
    requires Steady(c)
    ensures Supply(c, r, k) == k * EdgesTo(c, r)
  {
    forall e: Edge ensures MadeIn(c, e, k) == k { SteadyCounts(c, e, k); }
    assert Carried(c, k) == Constant(|c.edges|, k);
    IntoConstant(c, r, k);
  }

  lemma {:induction false} SumScale(a: seq<int>, b: seq<int>, k: int)
    requires |a| == |b| && forall i :: 0 <= i < |a| ==> b[i] == k * a[i]
    ensures Sum(b) == k * Sum(a)
  {
    if a != [] {
      SumScale(a[..|a| - 1], b[..|b| - 1], k);
    }
  }

  lemma IntoConstant(c: Config, r: nat, k: int)
    ensures Sum(Into(c, r, Constant(|c.edges|, k))) == k * EdgesTo(c, r)
  {
    SumScale(Into(c, r, Constant(|c.edges|, 1)), Into(c, r, Constant(|c.edges|, k)), k);
  }

  ghost predicate RankOk(c: Config, s: State, r: nat)
    requires Shape(c, s)
  {
    r < c.n ==>
      var rank := s.ranks[r];
      && rank.round <= c.rounds && rank.pc <= c.Calls()
      && (rank.round == c.rounds ==> rank.pc == 0)
      && Waited(c.kind, c.degree, rank.pc) <= rank.got <= Posted(c.kind, c.degree, rank.pc)
      && Sum(Into(c, r, s.taken)) == c.degree * rank.round + rank.got
  }

  ghost predicate EdgeOk(c: Config, s: State, e: nat)
    requires Shape(c, s)
  {
    e < |c.edges| ==> s.taken[e] <= SentOn(c, s, e)
  }

  ghost predicate Inv(c: Config, s: State) {
    Shape(c, s) && (forall r: nat :: RankOk(c, s, r)) && (forall e: nat :: EdgeOk(c, s, e))
  }

  lemma InvInit(c: Config)
    requires c.Valid()
    ensures Inv(c, Init(c))
  {
    CounterBounds(c.kind, c.degree, 0);
    forall r: nat ensures RankOk(c, Init(c), r) {
      assert Into(c, r, Init(c).taken) == Into(c, r, Constant(|c.edges|, 0));
      IntoConstant(c, r, 0);
    }
  }

  lemma ExecInv(c: Config, s: State, r: nat)
    requires Inv(c, s) && Enabled(c, s, Exec(r))
    ensures Inv(c, Apply(c, s, Exec(r)))
  {
    var s' := Apply(c, s, Exec(r));
    forall x: nat ensures RankOk(c, s', x) { ExecRankOk(c, s, r, x); }
    forall e: nat ensures EdgeOk(c, s', e) { ExecEdgeOk(c, s, r, e); }
  }

  lemma ExecCounters(c: Config, s: State, r: nat)
    requires Inv(c, s) && Enabled(c, s, Exec(r))
    ensures var pc := s.ranks[r].pc + 1;
      Waited(c.kind, c.degree, pc) <= s.ranks[r].got <= Posted(c.kind, c.degree, pc)
  {
    assert RankOk(c, s, r);
    CountersFollowProgram(c.kind, c.degree, s.ranks[r].pc);
  }

  lemma ExecRankOk(c: Config, s: State, r: nat, x: nat)
    requires Inv(c, s) && Enabled(c, s, Exec(r))
    ensures RankOk(c, Apply(c, s, Exec(r)), x)
  {
    assert RankOk(c, s, x);
    if x == r { ExecCounters(c, s, r); }
  }

  lemma ExecEdgeOk(c: Config, s: State, r: nat, e: nat)
    requires Inv(c, s) && Enabled(c, s, Exec(r))
    ensures EdgeOk(c, Apply(c, s, Exec(r)), e)
  {
    assert EdgeOk(c, s, e);
    CountersFollowProgram(c.kind, c.degree, s.ranks[r].pc);
  }

  lemma FinishInv(c: Config, s: State, r: nat)
    requires Inv(c, s) && Enabled(c, s, Finish(r))
    ensures Inv(c, Apply(c, s, Finish(r)))
  {
    var s' := Apply(c, s, Finish(r));
    CounterBounds(c.kind, c.degree, s.ranks[r].pc);
    CounterBounds(c.kind, c.degree, 0);
    MulSucc(s.ranks[r].round, c.degree);
    forall x: nat ensures RankOk(c, s', x) { assert RankOk(c, s, x); }
    forall e: nat ensures EdgeOk(c, s', e) { assert EdgeOk(c, s, e); }
  }

  lemma MatchSupply(c: Config, s: State, i: nat, x: nat)
    requires Inv(c, s) && i < |c.edges|
    ensures Sum(Into(c, x, s.taken[i := s.taken[i] + 1])) ==
            Sum(Into(c, x, s.taken)) + if c.edges[i].dst == x then 1 else 0
  {
    var row, row' := Into(c, x, s.taken), Into(c, x, s.taken[i := s.taken[i] + 1]);
    if c.edges[i].dst == x {
      assert row' == row[i := s.taken[i] + 1];
      SumUpdate(row, i, s.taken[i] + 1);
    } else {
      assert row' == row;
    }
  }

  lemma MatchRankOk(c: Config, s: State, i: nat, x: nat)
    requires Inv(c, s) && Enabled(c, s, Match(i))
    ensures RankOk(c, Apply(c, s, Match(i)), x)
  {
    assert RankOk(c, s, x);
    MatchSupply(c, s, i, x);
  }

  lemma MatchInv(c: Config, s: State, i: nat)
    requires Inv(c, s) && Enabled(c, s, Match(i))
    ensures Inv(c, Apply(c, s, Match(i)))
  {
    var s' := Apply(c, s, Match(i));
    forall x: nat ensures RankOk(c, s', x) { MatchRankOk(c, s, i, x); }
    forall e: nat ensures EdgeOk(c, s', e) { assert EdgeOk(c, s, e); }
  }

  /** Calls, matches and completions so far, read off the state. */
  function Performed(c: Config, s: State): (row: seq<int>)
  {
    seq(|s.ranks|, r requires 0 <= r < |s.ranks| => RankPerformed(c, s.ranks[r]))
  }

  function RankPerformed(c: Config, rank: Rank): nat {
    PerRound(c) * rank.round + rank.pc + rank.got
  }

  function PerRound(c: Config): nat { c.Calls() + c.degree + 1 }

  lemma StepPerforms(c: Config, s: State, e: Event)
    requires Inv(c, s) && Enabled(c, s, e)
    ensures Sum(Performed(c, Apply(c, s, e))) == Sum(Performed(c, s)) + 1
  {
    var r := Actor(c, e);
    ActorPerforms(c, s, e);
    assert Performed(c, Apply(c, s, e)) == Performed(c, s)[r := Performed(c, s)[r] + 1];
    SumUpdate(Performed(c, s), r, Performed(c, s)[r] + 1);
  }

  /** The rank whose progress an event is. */
  function Actor(c: Config, e: Event): nat
    requires e.Match? ==> e.edge < |c.edges|
  {
    if e.Match? then c.edges[e.edge].dst else e.rank
  }

  lemma ActorPerforms(c: Config, s: State, e: Event)
    requires Inv(c, s) && Enabled(c, s, e)
    ensures RankPerformed(c, Apply(c, s, e).ranks[Actor(c, e)]) == RankPerformed(c, s.ranks[Actor(c, e)]) + 1
  {
    var r := Actor(c, e);
    assert RankOk(c, s, r);
    CounterBounds(c.kind, c.degree, s.ranks[r].pc);
    MulSucc(s.ranks[r].round, PerRound(c));
  }

  lemma {:induction false} InvRun(c: Config, es: seq<Event>)
    requires c.Valid() && IsRun(c, es)
    ensures Inv(c, After(c, es))
    ensures |es| == Sum(Performed(c, After(c, es)))
  {
    if es == [] {
      InvInit(c);
      SumOthers(c.n, c.n, 0);
      assert Performed(c, Init(c)) == Others(c.n, c.n, 0);
    } else {
      var s, e := After(c, es[..|es| - 1]), es[|es| - 1];
      InvRun(c, es[..|es| - 1]);
      StepPerforms(c, s, e);
      match e
      case Exec(r) => ExecInv(c, s, r);
      case Match(i) => MatchInv(c, s, i);
      case Finish(r) => FinishInv(c, s, r);
    }
  }

  lemma RankPerforms(c: Config, s: State, r: nat)
    requires Inv(c, s) && r < c.n
    ensures Performed(c, s)[r] <= c.rounds * PerRound(c)
  {
    assert RankOk(c, s, r);
    CounterBounds(c.kind, c.degree, s.ranks[r].pc);
    CounterBounds(c.kind, c.degree, 0);
    if s.ranks[r].round < c.rounds {
      MulSucc(s.ranks[r].round, PerRound(c));
      MulLe(s.ranks[r].round + 1, c.rounds, PerRound(c));
    } else {
      MulAssoc(PerRound(c), c.rounds, 1);
    }
  }

  /** No run is longer than this. */
  lemma RunsAreFinite(c: Config, es: seq<Event>)
    requires c.Valid() && IsRun(c, es)
    ensures |es| <= c.rounds * PerRound(c) * c.n
  {
    InvRun(c, es);
    var s, v := After(c, es), c.rounds * PerRound(c);
    var full := Others(c.n, c.n, v);
    forall r | 0 <= r < c.n ensures Performed(c, s)[r] <= full[r] { RankPerforms(c, s, r); }
    SumMonotone(Performed(c, s), full);
    SumOthers(c.n, c.n, v);
  }

  predicate AllDone(c: Config, s: State) {
    forall r :: 0 <= r < |s.ranks| ==> s.ranks[r].round == c.rounds
  }
}
