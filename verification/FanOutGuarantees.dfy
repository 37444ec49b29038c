/** What the one-to-many protocol guarantees: sizes stay in step, bounded data in flight, progress,
    conservation, and where acknowledgements come from. */
module FanOutGuarantees {
  import opened Arithmetic
  import opened Sums
  import opened SizeStream
  import opened FanOut

  /** Every receive of every child, in every schedule, matches a message of the size of the iteration
      the child is in, across the whole list of sizes and without any barrier between them. */
  lemma MatchesCurrentSize(c: Config, es: seq<Event>, i: nat)
    requires c.Valid() && IsRun(c, es) && Enabled(c, After(c, es), Match(i))
    ensures After(c, es).children[i].iter < c.Iterations()
    ensures After(c, es).data[i][After(c, es).taken[i]] == c.sizes[After(c, es).children[i].iter]
  {
    InvRun(c, es);
    HeadHasCurrentSize(c, After(c, es), i);
  }

  /** Data in flight towards child i. */
  ghost function InFlight(c: Config, s: State, i: nat): int
    requires Shape(c, s) && i < c.children
  {
    |s.data[i]| - s.taken[i]
  }

  /** At most one child has data in flight, and at most one window of it. */
  lemma InFlightBound(c: Config, es: seq<Event>, i: nat)
    requires c.Valid() && IsRun(c, es) && i < c.children
    ensures 0 <= InFlight(c, After(c, es), i) <= c.window
    ensures InFlight(c, After(c, es), i) > 0 ==> i == After(c, es).parent.idx
  {
    var s := After(c, es);
    if c.window == 0 {
      InvZeroRun(c, es);
      assert ZeroChildOk(c, s, i);
    } else {
      InvRun(c, es);
      assert ChildOk(c, s, i) && DataOk(c, s, i) && Quiet(c, s, i);
      MulLe(s.parent.iter, s.children[i].iter, c.window);
    }
  }

  predicate AllDone(c: Config, s: State) {
    s.parent.iter == c.Iterations() && forall i :: 0 <= i < |s.children| ==> s.children[i].iter == c.Iterations()
  }

  /** While the parent waits, the child it serves can act, match, or has acknowledged. */
  lemma ServedChildActs(c: Config, s: State) returns (e: Event)
    requires Inv(c, s) && s.parent.iter < c.Iterations() && !Enabled(c, s, ParentStep)
    ensures Enabled(c, s, e)
  {
    var i := s.parent.idx;
    assert ChildOk(c, s, i) && DataOk(c, s, i);
    MulSucc(s.parent.iter, c.window);
    if Enabled(c, s, ChildStep(i)) {
      e := ChildStep(i);
    } else if s.taken[i] < |s.data[i]| {
      e := Match(i);
    } else {
      e := TakeAck(i);
    }
  }

  lemma ParentDone(c: Config, s: State)
    requires Inv(c, s) && s.parent.iter == c.Iterations()
    ensures AllDone(c, s)
  {
    forall i: nat | i < c.children ensures s.children[i].iter == c.Iterations() { assert ChildOk(c, s, i); }
  }

  /** With an empty window nothing is sent and nothing matched, and the acknowledgements still balance. */
  ghost predicate InvZero(c: Config, s: State) {
    && c.Valid() && c.window == 0 && Shape(c, s)
    && (forall i: nat :: i < c.children ==> ZeroChildOk(c, s, i))
    && s.parent.pc == 0 && s.parent.iter <= c.Iterations() && s.parent.idx < c.children
    && (s.parent.iter == c.Iterations() ==> s.parent.idx == 0)
    && Sum(s.heard) == s.parent.iter * c.children + s.parent.idx
  }

  ghost predicate ZeroChildOk(c: Config, s: State, i: nat)
    requires Shape(c, s) && i < c.children
  {
    && s.children[i].pc == 0 && s.children[i].iter <= c.Iterations()
    && s.heard[i] <= s.acks[i] == s.children[i].iter
    && s.data[i] == [] && s.taken[i] == 0 && s.children[i].got == 0
  }

  lemma InvZeroStep(c: Config, s: State, e: Event)
    requires InvZero(c, s) && Enabled(c, s, e)
    ensures InvZero(c, Apply(c, s, e))
  {
    forall i: nat | i < c.children ensures ZeroChildOk(c, Apply(c, s, e), i) { assert ZeroChildOk(c, s, i); }
    if e.TakeAck? {
      SumUpdate(s.heard, e.child, s.heard[e.child] + 1);
      MulSucc(s.parent.iter, c.children);
    }
  }

  lemma {:induction false} InvZeroRun(c: Config, es: seq<Event>)
    requires c.Valid() && c.window == 0 && IsRun(c, es)
    ensures InvZero(c, After(c, es))
  {
    if es == [] {
      SumOthers(c.children, c.children, 0);
      assert Init(c).heard == Others(c.children, c.children, 0);
    } else {
      InvZeroRun(c, es[..|es| - 1]);
      InvZeroStep(c, After(c, es[..|es| - 1]), es[|es| - 1]);
    }
  }

  lemma ZeroParentDone(c: Config, s: State)
    requires InvZero(c, s) && s.parent.iter == c.Iterations()
    ensures forall i :: 0 <= i < c.children ==> s.heard[i] == s.acks[i] == c.Iterations()
  {
    var full := Others(c.children, c.children, c.Iterations());
    SumOthers(c.children, c.children, c.Iterations());
    forall i: nat | i < c.children ensures s.heard[i] <= full[i] { assert ZeroChildOk(c, s, i); }
    SumTight(s.heard, full);
    forall i: nat | i < c.children ensures s.heard[i] == s.acks[i] == c.Iterations() {
      assert s.heard[i] == full[i] && ZeroChildOk(c, s, i);
    }
  }

  lemma ZeroParentNotDone(c: Config, s: State)
    requires InvZero(c, s) && s.parent.iter < c.Iterations()
    ensures exists i :: 0 <= i < c.children && s.heard[i] < c.Iterations()
  {
    var full := Others(c.children, c.children, c.Iterations());
    SumOthers(c.children, c.children, c.Iterations());
    MulSucc(s.parent.iter, c.children);
    MulLe(s.parent.iter + 1, c.Iterations(), c.children);
    if forall i :: 0 <= i < c.children ==> s.heard[i] >= c.Iterations() {
      SumMonotone(full, s.heard);
    }
  }

  lemma ZeroWindowActs(c: Config, s: State) returns (e: Event)
    requires InvZero(c, s) && !AllDone(c, s)
    ensures Enabled(c, s, e)
  {
    if i: nat :| i < c.children && s.children[i].iter < c.Iterations() {
      assert ZeroChildOk(c, s, i);
      e := ChildStep(i);
    } else {
      forall i: nat | i < c.children ensures s.children[i].iter == c.Iterations() { assert ZeroChildOk(c, s, i); }
      ZeroParentNotDone(c, s);
      var i: nat :| i < c.children && s.heard[i] < c.Iterations();
      assert ZeroChildOk(c, s, i);
      e := TakeAck(i);
    }
  }

  /** Deadlock freedom, with or without rendezvous sends, for any window. */
  lemma NeverStuck(c: Config, es: seq<Event>)
    requires c.Valid() && IsRun(c, es)
    ensures AllDone(c, After(c, es)) || exists e :: Enabled(c, After(c, es), e)
  {
    var s := After(c, es);
    if AllDone(c, s) {
    } else if c.window == 0 {
      InvZeroRun(c, es);
      var e := ZeroWindowActs(c, s);
    } else {
      InvRun(c, es);
      if s.parent.iter == c.Iterations() {
        ParentDone(c, s);
      } else if !Enabled(c, s, ParentStep) {
        var e := ServedChildActs(c, s);
      }
    }
  }

  /** When all is done each child was sent its windows, no more, and matched all of them. */
  lemma Conservation(c: Config, es: seq<Event>, i: nat)
    requires c.Valid() && IsRun(c, es) && AllDone(c, After(c, es)) && i < c.children
    ensures After(c, es).data[i] == Stream(c.sizes, c.window, c.Iterations() * c.window)
    ensures After(c, es).taken[i] == |After(c, es).data[i]| == c.Iterations() * c.window
    ensures After(c, es).heard[i] == After(c, es).acks[i] == c.Iterations()
  {
    if c.window == 0 {
      InvZeroRun(c, es);
      ZeroParentDone(c, After(c, es));
      assert ZeroChildOk(c, After(c, es), i);
      assert Stream(c.sizes, c.window, 0) == [];
    } else {
      InvRun(c, es);
      assert ChildOk(c, After(c, es), i) && DataOk(c, After(c, es), i);
    }
  }

  /** The parent's acknowledgement receive names no source. In every schedule it takes one from the
      child just served, unless the window is empty: then, with several children, it need not. */
  lemma AckFromServedIff(c: Config)
    requires c.Valid()
    ensures (forall es, i :: IsRun(c, es) && Enabled(c, After(c, es), TakeAck(i)) ==> i == After(c, es).parent.idx)
            <==> (c.window > 0 || c.children == 1 || c.Iterations() == 0)
  {
    if c.window > 0 {
      forall es, i | IsRun(c, es) && Enabled(c, After(c, es), TakeAck(i)) ensures i == After(c, es).parent.idx {
        InvRun(c, es);
        AckIsFromServed(c, After(c, es), i);
      }
    } else {
      if c.children == 1 || c.Iterations() == 0 {
        forall es, i | IsRun(c, es) && Enabled(c, After(c, es), TakeAck(i)) ensures i == After(c, es).parent.idx {
          InvZeroRun(c, es);
        }
      } else {
        var es := [ChildStep(1)];
        assert es[..|es| - 1] == [];
        assert IsRun(c, []) && IsRun(c, es);
        assert Enabled(c, After(c, es), TakeAck(1));
      }
    }
  }

  // ---------------------------------------------------------------- length of runs

  function CallsPerTurn(c: Config): nat { 2 * c.window + 1 }

  function ChildCalls(c: Config, child: Child): nat { child.iter * CallsPerTurn(c) + child.pc }

  ghost function ChildWork(c: Config, s: State): (row: seq<int>)
    requires Shape(c, s)
  {
    seq(c.children, i requires 0 <= i < c.children => ChildCalls(c, s.children[i]))
  }

  function ParentCalls(c: Config, p: Parent): nat { (p.iter * c.children + p.idx) * CallsPerTurn(c) + p.pc }

  /** Calls and matches performed so far, read off the state. */
  ghost function Performed(c: Config, s: State): int
    requires Shape(c, s)
  {
    Sum(ChildWork(c, s)) + ParentCalls(c, s.parent) + Sum(s.taken)
  }

  /** No program counter is past its window's last call. */
  ghost predicate CountersBounded(c: Config, s: State) {
    && Shape(c, s) && s.parent.pc <= 2 * c.window && s.parent.idx < c.children
    && forall i :: 0 <= i < c.children ==> s.children[i].pc <= 2 * c.window
  }

  lemma RunCountersBounded(c: Config, es: seq<Event>)
    requires c.Valid() && IsRun(c, es)
    ensures CountersBounded(c, After(c, es))
  {
    if c.window == 0 {
      InvZeroRun(c, es);
      forall i: nat | i < c.children ensures After(c, es).children[i].pc == 0
      {
        assert ZeroChildOk(c, After(c, es), i);
      }
    } else {
      InvRun(c, es);
      forall i: nat | i < c.children ensures After(c, es).children[i].pc <= 2 * c.window {
        assert ChildOk(c, After(c, es), i);
      }
    }
  }

  lemma ChildPerforms(c: Config, s: State, i: nat)
    requires CountersBounded(c, s) && Enabled(c, s, ChildStep(i))
    ensures Performed(c, Apply(c, s, ChildStep(i))) == Performed(c, s) + 1
  {
    var s' := Apply(c, s, ChildStep(i));
    MulSucc(s.children[i].iter, CallsPerTurn(c));
    assert ChildCalls(c, s'.children[i]) == ChildCalls(c, s.children[i]) + 1;
    assert ChildWork(c, s') == ChildWork(c, s)[i := ChildWork(c, s)[i] + 1];
    SumUpdate(ChildWork(c, s), i, ChildWork(c, s)[i] + 1);
  }

  lemma ParentPerforms(c: Config, s: State, e: Event)
    requires CountersBounded(c, s) && Enabled(c, s, e) && (e.ParentStep? || e.TakeAck?)
    ensures ParentCalls(c, Apply(c, s, e).parent) == ParentCalls(c, s.parent) + 1
  {
    MulSucc(s.parent.iter, c.children);
    MulSucc(s.parent.iter * c.children + s.parent.idx, CallsPerTurn(c));
  }

  lemma OthersPerform(c: Config, s: State, e: Event)
    requires CountersBounded(c, s) && Enabled(c, s, e) && !e.ChildStep?
    ensures Performed(c, Apply(c, s, e)) == Performed(c, s) + 1
  {
    assert ChildWork(c, Apply(c, s, e)) == ChildWork(c, s);
    if e.Match? {
      SumUpdate(s.taken, e.child, s.taken[e.child] + 1);
    } else {
      ParentPerforms(c, s, e);
    }
  }

  /** Runs cannot go on for ever: the number of events is read off the state, and a complete run has
      exactly 5 * window + 2 of them per child and iteration. */
  lemma {:induction false} RunLength(c: Config, es: seq<Event>)
    requires c.Valid() && IsRun(c, es)
    ensures |es| == Performed(c, After(c, es))
    ensures AllDone(c, After(c, es)) ==> |es| == c.Iterations() * c.children * (5 * c.window + 2)
  {
    if es == [] {
      SumOthers(c.children, c.children, 0);
      assert ChildWork(c, Init(c)) == Others(c.children, c.children, 0) == Init(c).taken;
    } else {
      var before, e := es[..|es| - 1], es[|es| - 1];
      RunLength(c, before);
      RunCountersBounded(c, before);
      if e.ChildStep? { ChildPerforms(c, After(c, before), e.child); } else { OthersPerform(c, After(c, before), e); }
    }
    if AllDone(c, After(c, es)) {
      CompleteLength(c, es);
    }
  }

  /** At the end all counters are back at the start of a window. */
  lemma Settled(c: Config, es: seq<Event>)
    requires c.Valid() && IsRun(c, es) && AllDone(c, After(c, es))
    ensures After(c, es).parent == Parent(c.Iterations(), 0, 0)
    ensures forall i :: 0 <= i < c.children ==> After(c, es).children[i].pc == 0
  {
    if c.window == 0 {
      InvZeroRun(c, es);
      forall i: nat | i < c.children ensures After(c, es).children[i].pc == 0
      {
        assert ZeroChildOk(c, After(c, es), i);
      }
    } else {
      InvRun(c, es);
      forall i: nat | i < c.children ensures After(c, es).children[i].pc == 0 { assert ChildOk(c, After(c, es), i); }
    }
  }

  lemma CompleteChildren(c: Config, es: seq<Event>)
    requires c.Valid() && IsRun(c, es) && AllDone(c, After(c, es))
    ensures Sum(ChildWork(c, After(c, es))) == c.Iterations() * CallsPerTurn(c) * c.children
  {
    Settled(c, es);
    assert ChildWork(c, After(c, es)) == Others(c.children, c.children, c.Iterations() * CallsPerTurn(c));
    SumOthers(c.children, c.children, c.Iterations() * CallsPerTurn(c));
  }

  lemma CompleteMatches(c: Config, es: seq<Event>)
    requires c.Valid() && IsRun(c, es) && AllDone(c, After(c, es))
    ensures Sum(After(c, es).taken) == c.Iterations() * c.window * c.children
  {
    var matches := c.Iterations() * c.window;
    forall i: nat | i < c.children ensures After(c, es).taken[i] == matches { Conservation(c, es, i); }
    assert After(c, es).taken == Others(c.children, c.children, matches);
    SumOthers(c.children, c.children, matches);
  }

  lemma CompleteLength(c: Config, es: seq<Event>)
    requires c.Valid() && IsRun(c, es) && AllDone(c, After(c, es))
    ensures Performed(c, After(c, es)) == c.Iterations() * c.children * (5 * c.window + 2)
  {
    Settled(c, es);
    CompleteChildren(c, es);
    CompleteMatches(c, es);
    PerChild(c.Iterations(), c.children, c.window);
  }

  lemma PerChild(t: nat, n: nat, w: nat)
    ensures t * (2 * w + 1) * n + (t * n + 0) * (2 * w + 1) + t * w * n == t * n * (5 * w + 2)
  {
    MulAssoc(t, 2 * w + 1, n);
    MulAssoc(t, n, 2 * w + 1);
    MulAssoc(t, w, n);
    MulAssoc(t, n, w);
    Combine(t * n, w);
  }

  lemma Combine(n: nat, w: nat)
    ensures n * (2 * w + 1) + n * (2 * w + 1) + n * w == n * (5 * w + 2)
  {
  }
}
