/** Two ranks exchange windows in both directions at once; nothing is acknowledged. Iteration k uses
    messages of `sizes[k]` bytes. */
module BiBandwidth {
  import opened Arithmetic
  import opened SizeStream

  datatype Config = Config(window: nat, sizes: seq<nat>, rendezvous: bool) {
    function Iterations(): nat { |sizes| }
  }

  /** `window` receives posted, `window` sends, then the waits for the sends and for the receives. */
  datatype Call = Post | Send | AwaitSend(slot: nat) | WaitRecv(slot: nat)

  function CallAt(window: nat, pc: nat): Call {
    if pc < window then Post
    else if pc < 2 * window then Send
    else if pc < 3 * window then AwaitSend(pc - 2 * window)
    else WaitRecv(pc - 3 * window)
  }

  function CallsUpTo(window: nat, n: nat): (cs: seq<Call>)
  {
    seq(n, pc requires 0 <= pc => CallAt(window, pc))
  }

  /** `do_bibw_iteration`, the same on both ranks but for the tags. */
  method BibwIteration(window: nat) returns (calls: seq<Call>)
    ensures calls == CallsUpTo(window, 4 * window)
    ensures |calls| == 4 * window
    ensures forall i :: 0 <= i < window ==> calls[i] == Post
    ensures forall i :: window <= i < 2 * window ==> calls[i] == Send
    ensures forall i: nat :: i < window ==> calls[2 * window + i] == AwaitSend(i)
    ensures forall i: nat :: i < window ==> calls[3 * window + i] == WaitRecv(i)
  {
    calls := [];
    var recvReqs, sendReqs := 0, 0;
    for i := 0 to window
      invariant calls == CallsUpTo(window, i) && recvReqs == i
    {
      calls := calls + [Post];
      recvReqs := recvReqs + 1;
    }
    for i := 0 to window
      invariant calls == CallsUpTo(window, window + i) && sendReqs == i
    {
      calls := calls + [Send];
      sendReqs := sendReqs + 1;
    }
    for i := 0 to sendReqs
      invariant calls == CallsUpTo(window, 2 * window + i)
    {
      calls := calls + [AwaitSend(i)];
    }
    for i := 0 to recvReqs
      invariant calls == CallsUpTo(window, 3 * window + i)
    {
      calls := calls + [WaitRecv(i)];
    }
  }

  datatype Rank = Rank(iter: nat, pc: nat, got: nat)

  /** `data[r]` is what rank r sent (the sizes), `matched[r]` how much rank r has matched of what the
      other one sent. */
  datatype State = State(ranks: seq<Rank>, data: seq<seq<nat>>, matched: seq<nat>)

  datatype Event = Exec(rank: nat) | Match(rank: nat) | Finish(rank: nat)

  function Init(): State {
    State([Rank(0, 0, 0), Rank(0, 0, 0)], [[], []], [0, 0])
  }

  ghost predicate Shape(s: State) {
    |s.ranks| == |s.data| == |s.matched| == 2
  }

  ghost predicate Enabled(c: Config, s: State, e: Event)
    requires Shape(s)
  {
    && e.rank < 2 && s.ranks[e.rank].iter < c.Iterations()
    && match e
       case Exec(r) =>
         && s.ranks[r].pc < 4 * c.window
         && (match CallAt(c.window, s.ranks[r].pc)
             case AwaitSend(k) => c.rendezvous ==> s.matched[1 - r] > s.ranks[r].iter * c.window + k
             case WaitRecv(k) => s.ranks[r].got > k
             case _ => true)
       case Match(r) => s.ranks[r].got < s.ranks[r].pc && s.ranks[r].got < c.window && s.matched[r] < |s.data[1 - r]|
       case Finish(r) => s.ranks[r].pc == 4 * c.window
  }

  ghost function Apply(c: Config, s: State, e: Event): (s': State)
    requires Shape(s) && Enabled(c, s, e)
    ensures Shape(s')
  {
    var rank := s.ranks[e.rank];
    match e
    case Exec(r) =>
      s.(ranks := s.ranks[r := rank.(pc := rank.pc + 1)],
         data := if CallAt(c.window, rank.pc).Send? then s.data[r := s.data[r] + [c.sizes[rank.iter]]] else s.data)
    case Match(r) =>
      s.(ranks := s.ranks[r := rank.(got := rank.got + 1)], matched := s.matched[r := s.matched[r] + 1])
    case Finish(r) => s.(ranks := s.ranks[r := Rank(rank.iter + 1, 0, 0)])
  }

  ghost predicate IsRun(c: Config, es: seq<Event>)
    decreases |es|, 0
  {
    es == [] || (IsRun(c, es[..|es| - 1]) && Enabled(c, After(c, es[..|es| - 1]), es[|es| - 1]))
  }

  ghost function After(c: Config, es: seq<Event>): (s: State)
    requires IsRun(c, es)
    ensures Shape(s)
    decreases |es|, 1
  {
    if es == [] then Init() else Apply(c, After(c, es[..|es| - 1]), es[|es| - 1])
  }

  function Clamp(x: int, hi: nat): nat { if x <= 0 then 0 else if x <= hi then x else hi }

  function Sent(c: Config, rank: Rank): nat { rank.iter * c.window + Clamp(rank.pc - c.window, c.window) }

  ghost predicate RankIs(c: Config, rank: Rank, matched: nat, data: seq<nat>) {
    && rank.iter <= c.Iterations() && rank.pc <= 4 * c.window
    && (rank.iter == c.Iterations() ==> rank.pc == 0)
    && rank.got <= rank.pc && rank.got <= c.window
    && (rank.pc > 3 * c.window ==> rank.got >= rank.pc - 3 * c.window)
    && matched == rank.iter * c.window + rank.got
    && Sent(c, rank) <= c.Iterations() * c.window
    && data == Stream(c.sizes, c.window, Sent(c, rank))
  }

  ghost predicate RankOk(c: Config, s: State, r: nat)
    requires Shape(s) && r < 2
  {
    RankIs(c, s.ranks[r], s.matched[r], s.data[r])
  }

  ghost predicate Inv(c: Config, s: State) {
    && Shape(s) && RankOk(c, s, 0) && RankOk(c, s, 1)
    && s.matched[0] <= |s.data[1]| && s.matched[1] <= |s.data[0]|
  }

  lemma RankSends(c: Config, rank: Rank, matched: nat, data: seq<nat>)
    requires RankIs(c, rank, matched, data) && rank.iter < c.Iterations() && c.window <= rank.pc < 2 * c.window
    ensures RankIs(c, rank.(pc := rank.pc + 1), matched, data + [c.sizes[rank.iter]])
  {
    StreamStep(c.sizes, c.window, rank.iter, rank.pc - c.window);
  }

  lemma RankCalls(c: Config, rank: Rank, matched: nat, data: seq<nat>)
    requires RankIs(c, rank, matched, data) && rank.iter < c.Iterations() && rank.pc < 4 * c.window
    requires !CallAt(c.window, rank.pc).Send? && (rank.pc >= 3 * c.window ==> rank.got > rank.pc - 3 * c.window)
    ensures RankIs(c, rank.(pc := rank.pc + 1), matched, data)
  {
    assert Sent(c, rank.(pc := rank.pc + 1)) == Sent(c, rank);
  }

  lemma RankMatches(c: Config, rank: Rank, matched: nat, data: seq<nat>)
    requires RankIs(c, rank, matched, data) && rank.got < rank.pc && rank.got < c.window
    ensures RankIs(c, rank.(got := rank.got + 1), matched + 1, data)
  {
    assert Sent(c, rank.(got := rank.got + 1)) == Sent(c, rank);
  }

  lemma RankFinishes(c: Config, rank: Rank, matched: nat, data: seq<nat>)
    requires RankIs(c, rank, matched, data) && rank.iter < c.Iterations() && rank.pc == 4 * c.window
    ensures RankIs(c, Rank(rank.iter + 1, 0, 0), matched, data)
  {
    MulSucc(rank.iter, c.window);
    assert Sent(c, Rank(rank.iter + 1, 0, 0)) == Sent(c, rank);
  }

  /** A step of one rank leaves the other one's part of the invariant alone. */
  lemma Rebuild(c: Config, s: State, s': State, r: nat)
    requires Inv(c, s) && Shape(s') && r < 2
    requires RankIs(c, s'.ranks[r], s'.matched[r], s'.data[r])
    requires s'.ranks[1 - r] == s.ranks[1 - r] && s'.matched[1 - r] == s.matched[1 - r]
              && s'.data[1 - r] == s.data[1 - r]
    requires |s.data[r]| <= |s'.data[r]| && s'.matched[r] <= |s.data[1 - r]|
    ensures Inv(c, s')
  {
    if r == 0 {
      assert RankOk(c, s', 0) && RankOk(c, s, 1);
    } else {
      assert RankOk(c, s', 1) && RankOk(c, s, 0);
    }
  }

  lemma CallGuards(c: Config, s: State, r: nat)
    requires Shape(s) && Enabled(c, s, Exec(r))
    ensures var pc, send := s.ranks[r].pc, CallAt(c.window, s.ranks[r].pc).Send?;
            && pc < 4 * c.window && (send <==> c.window <= pc < 2 * c.window)
            && (pc >= 3 * c.window ==> s.ranks[r].got > pc - 3 * c.window)
  {
  }

  lemma ExecEffect(c: Config, s: State, r: nat)
    requires Shape(s) && Enabled(c, s, Exec(r))
    ensures var s' := Apply(c, s, Exec(r));
            && s'.ranks == s.ranks[r := s.ranks[r].(pc := s.ranks[r].pc + 1)] && s'.matched == s.matched
            && s'.data == if CallAt(c.window, s.ranks[r].pc).Send?
                          then s.data[r := s.data[r] + [c.sizes[s.ranks[r].iter]]] else s.data
  {
  }

  lemma ExecRank(c: Config, s: State, r: nat)
    requires Shape(s) && Enabled(c, s, Exec(r)) && RankIs(c, s.ranks[r], s.matched[r], s.data[r])
    ensures var s' := Apply(c, s, Exec(r)); RankIs(c, s'.ranks[r], s'.matched[r], s'.data[r])
  {
    CallGuards(c, s, r);
    ExecEffect(c, s, r);
    if CallAt(c.window, s.ranks[r].pc).Send? {
      RankSends(c, s.ranks[r], s.matched[r], s.data[r]);
    } else {
      RankCalls(c, s.ranks[r], s.matched[r], s.data[r]);
    }
  }

  lemma ExecStep(c: Config, s: State, r: nat)
    requires Inv(c, s) && Enabled(c, s, Exec(r))
    ensures Inv(c, Apply(c, s, Exec(r)))
  {
    assert RankOk(c, s, r);
    ExecRank(c, s, r);
    ExecEffect(c, s, r);
    Rebuild(c, s, Apply(c, s, Exec(r)), r);
  }

  lemma InvStep(c: Config, s: State, e: Event)
    requires Inv(c, s) && Enabled(c, s, e)
    ensures Inv(c, Apply(c, s, e))
  {
    match e
    case Exec(r) => ExecStep(c, s, r);
    case Match(r) => MatchStep(c, s, r);
    case Finish(r) => FinishStep(c, s, r);
  }

  lemma MatchStep(c: Config, s: State, r: nat)
    requires Inv(c, s) && Enabled(c, s, Match(r))
    ensures Inv(c, Apply(c, s, Match(r)))
  {
    MatchEffect(c, s, r);
    MatchRank(c, s, r);
    Rebuild(c, s, Apply(c, s, Match(r)), r);
  }

  lemma MatchRank(c: Config, s: State, r: nat)
    requires Inv(c, s) && Enabled(c, s, Match(r))
    ensures RankIs(c, s.ranks[r].(got := s.ranks[r].got + 1), s.matched[r] + 1, s.data[r])
  {
    assert RankOk(c, s, r);
    RankMatches(c, s.ranks[r], s.matched[r], s.data[r]);
  }

  lemma MatchEffect(c: Config, s: State, r: nat)
    requires Shape(s) && Enabled(c, s, Match(r))
    ensures Apply(c, s, Match(r)) == s.(ranks := s.ranks[r := s.ranks[r].(got := s.ranks[r].got + 1)],
                                        matched := s.matched[r := s.matched[r] + 1])
    ensures s.ranks[r].got < s.ranks[r].pc && s.ranks[r].got < c.window && s.matched[r] < |s.data[1 - r]|
  {
  }

  lemma FinishStep(c: Config, s: State, r: nat)
    requires Inv(c, s) && Enabled(c, s, Finish(r))
    ensures Inv(c, Apply(c, s, Finish(r)))
  {
    assert RankOk(c, s, r);
    RankFinishes(c, s.ranks[r], s.matched[r], s.data[r]);
    Rebuild(c, s, Apply(c, s, Finish(r)), r);
  }

  lemma {:induction false} InvRun(c: Config, es: seq<Event>)
    requires IsRun(c, es)
    ensures Inv(c, After(c, es))
  {
    if es != [] {
      var s := After(c, es[..|es| - 1]);
      InvRun(c, es[..|es| - 1]);
      InvStep(c, s, es[|es| - 1]);
    }
  }
}
