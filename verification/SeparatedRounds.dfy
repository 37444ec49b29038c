/** Exchanges with a barrier between rounds, and what each round receives. The barrier is represented by
    what it guarantees: a rank goes on to the next round only when every rank has come through its
    exchange. Barrier messages have a tag of their own and never meet those of the exchange; that the
    barrier's calls and messages give this guarantee is the subject of `BarrieredRounds`. */
module SeparatedRounds {
  import opened Arithmetic
  import opened Sums
  import opened Permutations
  import opened Programs
  import opened Exchange
  import opened ExchangeGuarantees

  /** A message: the edge it travelled and the round it was sent in. Edges are first-in-first-out. */
  datatype Item = Item(edge: nat, round: nat)

  /** `inbox` and `done`: what each rank has matched in its current round, and in the completed ones. */
  datatype Traced = Traced(base: State, inbox: seq<seq<Item>>, done: seq<seq<seq<Item>>>)

  ghost predicate Formed(c: Config, t: Traced) {
    Shape(c, t.base) && |t.inbox| == |t.done| == c.n
  }

  function Start(c: Config): Traced {
    Traced(Init(c), seq(c.n, r => []), seq(c.n, r => []))
  }

  predicate Through(c: Config, s: State, r: nat, x: nat)
    requires r < |s.ranks| && x < |s.ranks|
  {
    s.ranks[x].round > s.ranks[r].round || (s.ranks[x].round == s.ranks[r].round && s.ranks[x].pc == c.Calls())
  }

  ghost predicate CanGo(c: Config, t: Traced, e: Event)
    requires Formed(c, t)
  {
    Enabled(c, t.base, e) && (e.Finish? ==> forall x: nat :: x < c.n ==> Through(c, t.base, e.rank, x))
  }

  ghost function Go(c: Config, t: Traced, e: Event): (t': Traced)
    requires Formed(c, t) && CanGo(c, t, e)
    ensures Formed(c, t')
  {
    var base := Apply(c, t.base, e);
    match e
    case Exec(_) => t.(base := base)
    case Match(i) =>
      var r := c.edges[i].dst;
      Traced(base, t.inbox[r := t.inbox[r] + [Item(i, t.base.taken[i])]], t.done)
    case Finish(r) => Traced(base, t.inbox[r := []], t.done[r := t.done[r] + [t.inbox[r]]])
  }

  ghost predicate IsSeparatedRun(c: Config, es: seq<Event>)
    requires c.Valid()
    decreases |es|, 0
  {
    es == [] || (IsSeparatedRun(c, es[..|es| - 1]) && CanGo(c, Trace(c, es[..|es| - 1]), es[|es| - 1]))
  }

  ghost function Trace(c: Config, es: seq<Event>): (t: Traced)
    requires c.Valid() && IsSeparatedRun(c, es)
    ensures Formed(c, t)
    decreases |es|, 1
  {
    if es == [] then Start(c) else Go(c, Trace(c, es[..|es| - 1]), es[|es| - 1])
  }

  /** Every rank is the target of exactly as many sends per round as it receives. */
  ghost predicate Even(c: Config) {
    && c.Valid() && Steady(c)
    && (forall r: nat :: r < c.n ==> EdgesTo(c, r) == c.degree)
    && forall e :: 0 <= e < |c.edges| ==> c.edges[e].dst < c.n
  }

  predicate IsInto(c: Config, r: nat, e: nat) {
    e < |c.edges| && c.edges[e].dst == r
  }

  /** Items of round k from edges into r, each edge at most once. */
  ghost predicate Fitting(c: Config, r: nat, k: nat, items: seq<Item>) {
    Distinct(items) && forall m :: m in items ==> m.round == k && IsInto(c, r, m.edge)
  }

  /** And each edge exactly once. */
  ghost predicate Exact(c: Config, r: nat, k: nat, items: seq<Item>) {
    Fitting(c, r, k, items) && forall e: nat :: IsInto(c, r, e) ==> Item(e, k) in items
  }

  ghost predicate EdgeTaken(c: Config, t: Traced, r: nat, e: nat)
    requires Formed(c, t) && r < c.n
  {
    IsInto(c, r, e) ==>
      t.base.taken[e] == t.base.ranks[r].round + if Item(e, t.base.ranks[r].round) in t.inbox[r] then 1 else 0
  }

  ghost predicate TraceOk(c: Config, t: Traced, r: nat)
    requires Formed(c, t)
  {
    r < c.n ==>
      var rank := t.base.ranks[r];
      && |t.inbox[r]| == rank.got && |t.done[r]| == rank.round
      && Fitting(c, r, rank.round, t.inbox[r])
      && (forall e: nat :: EdgeTaken(c, t, r, e))
      && forall k: nat :: k < |t.done[r]| ==> Exact(c, r, k, t.done[r][k])
  }

  ghost predicate InStep(c: Config, s: State, x: nat, y: nat)
    requires Shape(c, s)
  {
    x < c.n && y < c.n ==>
      && s.ranks[y].round <= s.ranks[x].round + 1
      && (s.ranks[y].round == s.ranks[x].round + 1 ==> s.ranks[x].pc == c.Calls())
  }

  ghost predicate SeparatedInv(c: Config, t: Traced) {
    && Formed(c, t) && Inv(c, t.base)
    && (forall r: nat :: TraceOk(c, t, r))
    && forall x: nat, y: nat :: InStep(c, t.base, x, y)
  }

  lemma ExecKeeps(c: Config, t: Traced, r: nat)
    requires SeparatedInv(c, t) && CanGo(c, t, Exec(r))
    ensures SeparatedInv(c, Go(c, t, Exec(r)))
  {
    var t' := Go(c, t, Exec(r));
    ExecInv(c, t.base, r);
    forall x: nat ensures TraceOk(c, t', x) {
      assert TraceOk(c, t, x);
      if x < c.n { forall e: nat ensures EdgeTaken(c, t', x, e) { assert EdgeTaken(c, t, x, e); } }
    }
    forall x: nat, y: nat ensures InStep(c, t'.base, x, y) { assert InStep(c, t.base, x, y); }
  }

  /** Between barriers a match takes the message its edge carries in this very round. */
  lemma MatchIsCurrent(c: Config, t: Traced, i: nat)
    requires SeparatedInv(c, t) && Steady(c) && CanGo(c, t, Match(i))
    ensures var r := c.edges[i].dst;
            && t.base.taken[i] == t.base.ranks[r].round && Item(i, t.base.ranks[r].round) !in t.inbox[r]
  {
    var r, q := c.edges[i].dst, c.edges[i].src;
    assert TraceOk(c, t, r) && RankOk(c, t.base, r) && InStep(c, t.base, r, q);
    assert EdgeTaken(c, t, r, i);
    forall k: nat ensures MadeIn(c, c.edges[i], k) == k { SteadyCounts(c, c.edges[i], k); }
    CounterBounds(c.kind, c.degree, t.base.ranks[r].pc);
  }

  lemma MatchTraceOk(c: Config, t: Traced, i: nat, x: nat)
    requires SeparatedInv(c, t) && Steady(c) && CanGo(c, t, Match(i))
    ensures TraceOk(c, Go(c, t, Match(i)), x)
  {
    var t' := Go(c, t, Match(i));
    assert TraceOk(c, t, x);
    MatchIsCurrent(c, t, i);
    if x < c.n {
      forall e: nat ensures EdgeTaken(c, t', x, e) { assert EdgeTaken(c, t, x, e); }
    }
  }

  lemma MatchKeeps(c: Config, t: Traced, i: nat)
    requires SeparatedInv(c, t) && Steady(c) && CanGo(c, t, Match(i))
    ensures SeparatedInv(c, Go(c, t, Match(i)))
  {
    var t' := Go(c, t, Match(i));
    Exchange.MatchInv(c, t.base, i);
    forall x: nat ensures TraceOk(c, t', x) { MatchTraceOk(c, t, i, x); }
    forall x: nat, y: nat ensures InStep(c, t'.base, x, y) { assert InStep(c, t.base, x, y); }
  }

  /** A rank that has come through its exchange has matched one message of every edge into it. */
  lemma RoundComplete(c: Config, t: Traced, r: nat)
    requires SeparatedInv(c, t) && Even(c) && CanGo(c, t, Finish(r))
    ensures Exact(c, r, t.base.ranks[r].round, t.inbox[r])
    ensures forall e: nat :: IsInto(c, r, e) ==> t.base.taken[e] == t.base.ranks[r].round + 1
  {
    var s, k := t.base, t.base.ranks[r].round;
    var full := Constant(|c.edges|, k + 1);
    assert RankOk(c, s, r) && TraceOk(c, t, r);
    CounterBounds(c.kind, c.degree, s.ranks[r].pc);
    forall e | 0 <= e < |c.edges| ensures Into(c, r, s.taken)[e] <= Into(c, r, full)[e]
    {
      assert EdgeTaken(c, t, r, e);
    }
    IntoConstant(c, r, k + 1);
    MulSucc(k, c.degree);
    SumTight(Into(c, r, s.taken), Into(c, r, full));
    forall e: nat | IsInto(c, r, e) ensures s.taken[e] == k + 1 && Item(e, k) in t.inbox[r] {
      assert Into(c, r, s.taken)[e] == Into(c, r, full)[e];
      assert EdgeTaken(c, t, r, e);
    }
  }

  lemma FinishTraceOk(c: Config, t: Traced, r: nat, x: nat)
    requires SeparatedInv(c, t) && Even(c) && CanGo(c, t, Finish(r))
    ensures TraceOk(c, Go(c, t, Finish(r)), x)
  {
    var t' := Go(c, t, Finish(r));
    assert TraceOk(c, t, x);
    RoundComplete(c, t, r);
    if x < c.n {
      forall e: nat ensures EdgeTaken(c, t', x, e) { assert EdgeTaken(c, t, x, e); }
    }
  }

  lemma FinishKeeps(c: Config, t: Traced, r: nat)
    requires SeparatedInv(c, t) && Even(c) && CanGo(c, t, Finish(r))
    ensures SeparatedInv(c, Go(c, t, Finish(r)))
  {
    var t' := Go(c, t, Finish(r));
    Exchange.FinishInv(c, t.base, r);
    forall x: nat ensures TraceOk(c, t', x) { FinishTraceOk(c, t, r, x); }
    forall x: nat, y: nat ensures InStep(c, t'.base, x, y) {
      assert InStep(c, t.base, x, y) && InStep(c, t.base, r, y);
      if x < c.n { assert Through(c, t.base, r, x); }
    }
  }

  lemma {:induction false} SeparatedInvRun(c: Config, es: seq<Event>)
    requires Even(c) && IsSeparatedRun(c, es)
    ensures SeparatedInv(c, Trace(c, es))
  {
    if es == [] {
      InvInit(c);
    } else {
      var t := Trace(c, es[..|es| - 1]);
      SeparatedInvRun(c, es[..|es| - 1]);
      match es[|es| - 1]
      case Exec(r) => ExecKeeps(c, t, r);
      case Match(i) => MatchKeeps(c, t, i);
      case Finish(r) => FinishKeeps(c, t, r);
    }
  }

  /** Every completed round of every separated run received exactly one message of each edge into the
      rank, sent in that round. */
  lemma RoundsAreExact(c: Config, es: seq<Event>, r: nat, k: nat)
    requires Even(c) && IsSeparatedRun(c, es) && r < c.n && k < |Trace(c, es).done[r]|
    ensures Exact(c, r, k, Trace(c, es).done[r][k])
  {
    SeparatedInvRun(c, es);
    assert TraceOk(c, Trace(c, es), r);
  }

  /** The barrier adds no deadlock. */
  lemma SeparatedNeverStuck(c: Config, es: seq<Event>)
    requires Even(c) && IsSeparatedRun(c, es)
    ensures AllDone(c, Trace(c, es).base) || exists e :: CanGo(c, Trace(c, es), e)
  {
    SeparatedInvRun(c, es);
    var t := Trace(c, es);
    var s := t.base;
    if !AllDone(c, s) {
      var p := Slowest(s);
      var late :| 0 <= late < c.n && s.ranks[late].round != c.rounds;
      assert RankOk(c, s, late);
      if q: nat :| q < c.n && s.ranks[q].round == s.ranks[p].round && Enabled(c, s, Exec(q)) {
        assert CanGo(c, t, Exec(q));
      } else if q: nat :| q < c.n && s.ranks[q].round == s.ranks[p].round && s.ranks[q].pc < c.Calls() {
        BlockedRankMatches(c, t, q);
        var i :| CanGo(c, t, Match(i));
      } else {
        assert CanGo(c, t, Finish(p)) by {
          assert RankOk(c, s, p);
          forall x: nat | x < c.n ensures Through(c, s, p, x) { assert RankOk(c, s, x); }
        }
      }
    }
  }

  lemma EvenIsFed(c: Config)
    requires Even(c)
    ensures Fed(c)
  {
    forall r: nat, k: nat | r < c.n && k <= c.rounds ensures Supply(c, r, k) >= c.degree * k { SteadySupply(c, r, k); }
  }

  lemma BlockedRankMatches(c: Config, t: Traced, q: nat)
    requires SeparatedInv(c, t) && Even(c) && q < c.n
    requires t.base.ranks[q].round < c.rounds && t.base.ranks[q].pc < c.Calls()
    requires forall x: nat :: x < c.n ==> t.base.ranks[q].round <= t.base.ranks[x].round
    requires forall x: nat :: x < c.n && t.base.ranks[x].round == t.base.ranks[q].round ==> !Enabled(c, t.base, Exec(x))
    ensures exists i :: CanGo(c, t, Match(i))
  {
    var s := t.base;
    forall x: nat | x < c.n && s.ranks[x].round == s.ranks[q].round
      ensures Sent(c.kind, c.degree, s.ranks[x].pc) == c.degree
    {
      assert RankOk(c, s, x);
      if s.ranks[x].pc < c.Calls() { BlockedInWait(c, s, x); } else { CounterBounds(c.kind, c.degree, s.ranks[x].pc); }
    }
    EvenIsFed(c);
    var i := SlowestCanMatch(c, s, q);
    assert CanGo(c, t, Match(i));
  }
}
