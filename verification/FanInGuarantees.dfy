/** What the many-to-one protocol guarantees: bounded data in flight, progress, conservation. */
module FanInGuarantees {
  import opened Arithmetic
  import opened Sums
  import opened FanIn

  /** v in the first i places, u in the others. */
  function Steps(n: nat, i: nat, v: int, u: int): (row: seq<int>)
  {
    seq(n, x => if x < i then v else u)
  }

  lemma {:induction false} SumSteps(n: nat, i: nat, v: int, u: int)
    ensures Sum(Steps(n, i, v, u)) == if i <= n then v * i + u * (n - i) else v * n
  {
    if n > 0 {
      assert Steps(n, i, v, u)[..n - 1] == Steps(n - 1, i, v, u);
      SumSteps(n - 1, i, v, u);
      if i < n { MulSucc(n - 1 - i, u); } else { MulSucc(n - 1, v); }
    }
  }

  lemma SentBound(c: Config, s: State, i: nat)
    requires Inv(c, s) && i < c.children
    ensures s.sent[i] <= (s.acks[i] + 1) * c.window
  {
    assert ChildOk(c, s, i);
    MulSucc(s.children[i].iter, c.window);
    MulLe(s.children[i].iter + 1, s.acks[i] + 1, c.window);
  }

  function SentBounds(c: Config, p: Parent): (row: seq<int>)
  {
    Steps(c.children, p.idx, (p.iter + 2) * c.window, (p.iter + 1) * c.window)
  }

  lemma SentWithin(c: Config, s: State, i: nat)
    requires Inv(c, s) && i < c.children
    ensures s.sent[i] <= SentBounds(c, s.parent)[i]
  {
    SentBound(c, s, i);
    assert ChildOk(c, s, i);
    if i < s.parent.idx {
      assert s.acks[i] + 1 == s.parent.iter + 2;
    }
  }

  lemma SentBoundsTotal(c: Config, p: Parent)
    requires p.idx < c.children
    ensures Sum(SentBounds(c, p)) == c.window * Turns(c, p) + c.children * c.window
  {
    SumSteps(c.children, p.idx, (p.iter + 2) * c.window, (p.iter + 1) * c.window);
    StairTotal(c.children, p.idx, p.iter, c.window);
  }

  lemma SentTotalBound(c: Config, s: State)
    requires Inv(c, s)
    ensures Sum(s.sent) <= c.window * Turns(c, s.parent) + c.children * c.window
  {
    forall i | 0 <= i < c.children ensures s.sent[i] <= SentBounds(c, s.parent)[i] { SentWithin(c, s, i); }
    SumMonotone(s.sent, SentBounds(c, s.parent));
    SentBoundsTotal(c, s.parent);
  }

  /** At most children * window data messages are ever in flight together, although an acknowledgement
      may have been earned by another child's messages. */
  lemma InFlightBound(c: Config, es: seq<Event>)
    requires c.Valid() && IsRun(c, es)
    ensures Sum(After(c, es).sent) - Sum(After(c, es).taken) <= c.children * c.window
  {
    InvRun(c, es);
    SentTotalBound(c, After(c, es));
  }

  lemma StairTotal(n: nat, i: nat, k: nat, w: nat)
    requires i <= n
    ensures (k + 2) * w * i + (k + 1) * w * (n - i) == w * (k * n + i) + n * w
  {
    var u := (k + 1) * w;
    assert (k + 2) * w == u + w;
    assert (u + w) * i + u * (n - i) == u * n + w * i;
    assert u * n == w * (k * n) + n * w by {
      MulAssoc(k, w, n);
      assert u == k * w + w;
      assert u * n == k * w * n + w * n;
    }
    assert w * (k * n + i) == w * (k * n) + w * i;
  }

  predicate AllDone(c: Config, s: State) {
    s.parent.iter == c.iterations && forall i :: 0 <= i < |s.children| ==> s.children[i].iter == c.iterations
  }

  lemma StuckChild(c: Config, s: State, i: nat)
    requires Inv(c, s) && i < c.children && s.children[i].iter < c.iterations && !Enabled(c, s, ChildStep(i))
    requires s.taken[i] == s.sent[i]
    ensures s.children[i].pc == 2 * c.window && s.heard[i] == s.acks[i]
    ensures s.sent[i] == (s.children[i].iter + 1) * c.window
  {
    assert ChildOk(c, s, i);
    assert (s.children[i].iter + 1) * c.window == s.children[i].iter * c.window + c.window;
  }

  lemma BlockedChildHasSent(c: Config, s: State, i: nat)
    requires Inv(c, s) && s.parent.iter < c.iterations && i < c.children
    requires !Enabled(c, s, ChildStep(i)) && s.taken[i] == s.sent[i]
    ensures (s.parent.iter + 1) * c.window <= s.taken[i]
  {
    assert ChildOk(c, s, i);
    if s.children[i].iter < c.iterations {
      StuckChild(c, s, i);
      MulLe(s.parent.iter + 1, s.children[i].iter + 1, c.window);
    } else {
      MulLe(s.parent.iter + 1, s.children[i].iter, c.window);
    }
  }

  lemma TurnsBound(c: Config, s: State)
    requires Inv(c, s) && s.parent.got < c.window
    ensures Sum(s.taken) < (s.parent.iter + 1) * c.window * c.children
  {
    var p, w := s.parent, c.window;
    MulSucc(Turns(c, p), w);
    MulLe(Turns(c, p) + 1, (p.iter + 1) * c.children, w) by { MulSucc(p.iter, c.children); }
    MulAssoc(p.iter + 1, w, c.children);
  }

  /** While the parent waits for data with none in flight, some child can act. */
  lemma SomeChildActs(c: Config, s: State) returns (e: Event)
    requires Inv(c, s) && s.parent.iter < c.iterations && s.parent.got < c.window
    requires forall i :: 0 <= i < c.children ==> s.taken[i] == s.sent[i]
    ensures Enabled(c, s, e)
  {
    if i: nat :| i < c.children && Enabled(c, s, ChildStep(i)) {
      e := ChildStep(i);
    } else {
      var v := (s.parent.iter + 1) * c.window;
      forall i | 0 <= i < c.children ensures v <= s.taken[i] { BlockedChildHasSent(c, s, i); }
      SumMonotone(Others(c.children, c.children, v), s.taken);
      SumOthers(c.children, c.children, v);
      TurnsBound(c, s);
      assert false;
    }
  }

  lemma ChildSentAtMost(c: Config, s: State, i: nat)
    requires Inv(c, s) && i < c.children
    ensures s.taken[i] <= s.sent[i] <= c.iterations * c.window
  {
    assert ChildOk(c, s, i);
    if s.children[i].iter < c.iterations {
      MulSucc(s.children[i].iter, c.window);
      MulLe(s.children[i].iter + 1, c.iterations, c.window);
    }
  }

  /** Once the parent is done, nobody waits in vain. */
  lemma ParentDone(c: Config, s: State, i: nat)
    requires Inv(c, s) && s.parent.iter == c.iterations
    ensures forall x :: 0 <= x < c.children ==> s.taken[x] == s.sent[x] == c.iterations * c.window
    ensures i < c.children && s.children[i].iter < c.iterations ==> Enabled(c, s, ChildStep(i))
  {
    var v := c.iterations * c.window;
    var full := Others(c.children, c.children, v);
    forall x | 0 <= x < c.children ensures s.taken[x] <= full[x] { ChildSentAtMost(c, s, x); }
    SumOthers(c.children, c.children, v);
    MulAssoc(c.iterations, c.window, c.children);
    MulAssoc(c.iterations, c.children, c.window);
    SumTight(s.taken, full);
    forall x | 0 <= x < c.children ensures s.taken[x] == s.sent[x] == v {
      ChildSentAtMost(c, s, x);
      assert s.taken[x] == full[x];
    }
    if i < c.children && s.children[i].iter < c.iterations && !Enabled(c, s, ChildStep(i)) {
      assert ChildOk(c, s, i);
      StuckChild(c, s, i);
      assert false;
    }
  }

  /** Deadlock freedom, with or without rendezvous sends. */
  lemma NeverStuck(c: Config, es: seq<Event>)
    requires c.Valid() && IsRun(c, es)
    ensures AllDone(c, After(c, es)) || exists e :: Enabled(c, After(c, es), e)
  {
    InvRun(c, es);
    var s := After(c, es);
    if s.parent.iter == c.iterations {
      if i: nat :| i < c.children && s.children[i].iter != c.iterations {
        assert ChildOk(c, s, i);
        ParentDone(c, s, i);
      }
    } else if Enabled(c, s, ParentStep) {
    } else if i: nat :| i < c.children && s.taken[i] < s.sent[i] {
      assert Enabled(c, s, Match(i));
    } else {
      forall i | 0 <= i < c.children ensures s.taken[i] == s.sent[i] { assert ChildOk(c, s, i); }
      var e := SomeChildActs(c, s);
    }
  }

  /** After T iterations exactly children * T * window messages were sent, and all were consumed. */
  lemma Conservation(c: Config, es: seq<Event>)
    requires c.Valid() && IsRun(c, es) && AllDone(c, After(c, es))
    ensures After(c, es).sent == After(c, es).taken && After(c, es).acks == After(c, es).heard
    ensures Sum(After(c, es).sent) == c.window * (c.iterations * c.children)
  {
    InvRun(c, es);
    var s := After(c, es);
    ParentDone(c, s, 0);
    forall i | 0 <= i < c.children ensures s.acks[i] == s.heard[i] { assert ChildOk(c, s, i); }
  }

  /** Calls and matches performed so far, read off the state. */
  ghost function Performed(c: Config, s: State): int
    requires Shape(c, s)
  {
    Sum(ChildWork(c, s)) + Turns(c, s.parent) * CallsPerTurn(c) + s.parent.pc + Sum(s.taken)
  }

  function CallsPerTurn(c: Config): nat { 2 * c.window + 1 }

  function ChildCalls(c: Config, child: Child): nat { child.iter * CallsPerTurn(c) + child.pc }

  ghost function ChildWork(c: Config, s: State): (row: seq<int>)
    requires Shape(c, s)
  {
    seq(c.children, i requires 0 <= i < c.children => ChildCalls(c, s.children[i]))
  }

  lemma ChildPerforms(c: Config, s: State, i: nat)
    requires Inv(c, s) && Enabled(c, s, ChildStep(i))
    ensures Performed(c, Apply(c, s, ChildStep(i))) == Performed(c, s) + 1
  {
    var s' := Apply(c, s, ChildStep(i));
    OneMoreCall(c, s, i);
    assert ChildWork(c, s') == ChildWork(c, s)[i := ChildWork(c, s)[i] + 1];
    SumUpdate(ChildWork(c, s), i, ChildWork(c, s)[i] + 1);
  }

  lemma OneMoreCall(c: Config, s: State, i: nat)
    requires Inv(c, s) && Enabled(c, s, ChildStep(i))
    ensures ChildCalls(c, Apply(c, s, ChildStep(i)).children[i]) == ChildCalls(c, s.children[i]) + 1
  {
    assert ChildOk(c, s, i);
    MulSucc(s.children[i].iter, CallsPerTurn(c));
  }

  lemma OthersPerform(c: Config, s: State, e: Event)
    requires Inv(c, s) && Enabled(c, s, e) && !e.ChildStep?
    ensures Performed(c, Apply(c, s, e)) == Performed(c, s) + 1
  {
    assert ChildWork(c, Apply(c, s, e)) == ChildWork(c, s);
    if e.Match? {
      SumUpdate(s.taken, e.child, s.taken[e.child] + 1);
    } else if s.parent.pc == 2 * c.window {
      TurnTaken(c, s);
      MulSucc(Turns(c, s.parent), CallsPerTurn(c));
    }
  }

  /** Runs cannot go on for ever: the number of events is read off the state, and a complete run has
      exactly 5 * window + 2 of them per child and iteration. */
  lemma {:induction false} RunLength(c: Config, es: seq<Event>)
    requires c.Valid() && IsRun(c, es)
    ensures |es| == Performed(c, After(c, es))
    ensures AllDone(c, After(c, es)) ==> |es| == c.iterations * c.children * (5 * c.window + 2)
  {
    if es == [] {
      SumOthers(c.children, c.children, 0);
      assert ChildWork(c, Init(c)) == Others(c.children, c.children, 0) == Init(c).taken;
    } else {
      var before, e := es[..|es| - 1], es[|es| - 1];
      RunLength(c, before);
      InvRun(c, before);
      if e.ChildStep? { ChildPerforms(c, After(c, before), e.child); } else { OthersPerform(c, After(c, before), e); }
    }
    InvRun(c, es);
    if AllDone(c, After(c, es)) {
      CompleteLength(c, After(c, es));
    }
  }

  lemma CompleteLength(c: Config, s: State)
    requires Inv(c, s) && AllDone(c, s)
    ensures Performed(c, s) == c.iterations * c.children * (5 * c.window + 2)
  {
    var n, calls := c.iterations * c.children, CallsPerTurn(c);
    assert ChildWork(c, s) == Others(c.children, c.children, c.iterations * calls) by {
      forall i | 0 <= i < c.children ensures s.children[i].pc == 0 { assert ChildOk(c, s, i); }
    }
    SumOthers(c.children, c.children, c.iterations * calls);
    MulAssoc(c.iterations, calls, c.children);
    MulAssoc(c.iterations, c.children, calls);
    Combine(n, c.window);
  }

  lemma Combine(n: nat, w: nat)
    ensures (2 * w + 1) * n + n * (2 * w + 1) + w * n == n * (5 * w + 2)
  {
  }
}
