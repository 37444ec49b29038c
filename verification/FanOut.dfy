/** One-to-many flow control: the parent sends each place of its queue a window and takes one
    acknowledgement, from any source, before it turns to the next. `osu_bw` with two ranks is the case
    of one child. Iteration k uses messages of `sizes[k]` bytes; size changes are not announced. */
module FanOut {
  import opened Arithmetic
  import opened SizeStream
  import opened WindowCalls

  datatype Config = Config(children: nat, window: nat, sizes: seq<nat>, rendezvous: bool) {
    ghost predicate Valid() { children >= 1 }
    function Iterations(): nat { |sizes| }
  }

  datatype Parent = Parent(iter: nat, idx: nat, pc: nat)

  datatype Child = Child(iter: nat, pc: nat, got: nat)

  /** `data[i]` is everything sent to child i (the sizes), `taken[i]` how much of it matched; `acks[i]`
      what child i acknowledged, `heard[i]` how much of that the parent matched. */
  datatype State = State(parent: Parent, children: seq<Child>, data: seq<seq<nat>>, taken: seq<nat>, acks: seq<nat>,
                         heard: seq<nat>)

  /** `TakeAck(i)`: the parent's acknowledgement receive matches one from child i. */
  datatype Event = ParentStep | TakeAck(child: nat) | ChildStep(child: nat) | Match(child: nat)

  function Init(c: Config): State {
    var zeros := seq(c.children, i => 0);
    State(Parent(0, 0, 0), seq(c.children, i => Child(0, 0, 0)), seq(c.children, i => []), zeros, zeros, zeros)
  }

  ghost predicate Shape(c: Config, s: State) {
    |s.children| == |s.data| == |s.taken| == |s.acks| == |s.heard| == c.children
  }

  predicate AtAck(c: Config, s: State) {
    s.parent.iter < c.Iterations() && s.parent.idx < c.children && SenderCall(c.window, s.parent.pc).ReceiveAck?
  }

  ghost predicate Enabled(c: Config, s: State, e: Event)
    requires Shape(c, s)
  {
    match e
    case ParentStep =>
      && s.parent.iter < c.Iterations() && s.parent.idx < c.children
      && (match SenderCall(c.window, s.parent.pc)
          case SendData => true
          case AwaitData(k) => c.rendezvous ==> s.taken[s.parent.idx] > s.parent.iter * c.window + k
          case _ => false)
    case TakeAck(i) => AtAck(c, s) && i < c.children && s.heard[i] < s.acks[i]
    case ChildStep(i) =>
      && i < c.children && s.children[i].iter < c.Iterations()
      && (match ReceiverCall(c.window, s.children[i].pc)
          case WaitData(k) => s.children[i].got > k
          case _ => true)
    case Match(i) =>
      && i < c.children && s.children[i].iter < c.Iterations()
      && s.children[i].got < s.children[i].pc && s.children[i].got < c.window
      && s.taken[i] < |s.data[i]|
  }

  ghost function Apply(c: Config, s: State, e: Event): (s': State)
    requires Shape(c, s) && Enabled(c, s, e)
    ensures Shape(c, s')
  {
    var p := s.parent;
    match e
    case ParentStep =>
      s.(parent := p.(pc := p.pc + 1),
         data := if SenderCall(c.window, p.pc).SendData?
                 then s.data[p.idx := s.data[p.idx] + [c.sizes[p.iter]]] else s.data)
    case TakeAck(i) =>
      s.(parent := if p.idx + 1 == c.children then Parent(p.iter + 1, 0, 0) else Parent(p.iter, p.idx + 1, 0),
         heard := s.heard[i := s.heard[i] + 1])
    case ChildStep(i) =>
      var child := s.children[i];
      if ReceiverCall(c.window, child.pc).SendAck? then
        s.(children := s.children[i := Child(child.iter + 1, 0, 0)], acks := s.acks[i := s.acks[i] + 1])
      else
        s.(children := s.children[i := child.(pc := child.pc + 1)])
    case Match(i) =>
      s.(children := s.children[i := s.children[i].(got := s.children[i].got + 1)],
          taken := s.taken[i := s.taken[i] + 1])
  }

  ghost predicate IsRun(c: Config, es: seq<Event>)
    decreases |es|, 0
  {
    es == [] || (IsRun(c, es[..|es| - 1]) && Enabled(c, After(c, es[..|es| - 1]), es[|es| - 1]))
  }

  ghost function After(c: Config, es: seq<Event>): (s: State)
    requires IsRun(c, es)
    ensures Shape(c, s)
    decreases |es|, 1
  {
    if es == [] then Init(c) else Apply(c, After(c, es[..|es| - 1]), es[|es| - 1])
  }

  /** Windows sent to child i in full, before the one in progress. */
  function Served(s: State, i: nat): nat { s.parent.iter + if i < s.parent.idx then 1 else 0 }

  ghost predicate ChildOk(c: Config, s: State, i: nat)
    requires Shape(c, s)
  {
    i < c.children ==>
      var child, w := s.children[i], c.window;
      && child.iter <= c.Iterations() && child.pc <= 2 * w
      && (child.iter == c.Iterations() ==> child.pc == 0)
      && child.got <= Min(child.pc, w) && (child.pc > w ==> child.got >= child.pc - w)
      && s.taken[i] == child.iter * w + child.got <= |s.data[i]|
      && s.acks[i] == child.iter && s.heard[i] == Served(s, i)
      && Served(s, i) <= child.iter
  }

  ghost predicate DataOk(c: Config, s: State, i: nat)
    requires Shape(c, s)
  {
    i < c.children ==>
      var n := Served(s, i) * c.window + (if i == s.parent.idx then Min(s.parent.pc, c.window) else 0);
      && n <= c.Iterations() * c.window
      && s.data[i] == Stream(c.sizes, c.window, n)
  }

  /** Only the child being served can have data in flight, a receive matched, or an acknowledgement out. */
  ghost predicate Quiet(c: Config, s: State, i: nat)
    requires Shape(c, s)
  {
    i < c.children && i != s.parent.idx ==>
      s.children[i].iter == Served(s, i) && s.children[i].got == 0 && s.taken[i] == |s.data[i]|
  }

  ghost predicate Inv(c: Config, s: State) {
    && c.Valid() && c.window > 0 && Shape(c, s)
    && (forall i: nat :: ChildOk(c, s, i))
    && (forall i: nat :: DataOk(c, s, i))
    && (forall i: nat :: Quiet(c, s, i))
    && var p := s.parent;
       && p.iter <= c.Iterations() && p.idx < c.children && p.pc <= 2 * c.window
       && (p.iter == c.Iterations() ==> p.idx == 0 && p.pc == 0)
       && s.children[p.idx].iter <= p.iter + 1
       && (s.children[p.idx].iter == p.iter + 1 ==> s.children[p.idx].got == 0 && p.pc >= c.window)
  }

  /** The message a child matches now has the size of the iteration the child is in. */
  lemma HeadHasCurrentSize(c: Config, s: State, i: nat)
    requires Inv(c, s) && Enabled(c, s, Match(i))
    ensures i == s.parent.idx
    ensures s.data[i][s.taken[i]] == c.sizes[s.children[i].iter]
  {
    assert ChildOk(c, s, i) && DataOk(c, s, i) && Quiet(c, s, i);
    StreamAt(c.sizes, c.window, |s.data[i]|, s.children[i].iter, s.children[i].got);
  }

  lemma ParentStepChild(c: Config, s: State, i: nat)
    requires Inv(c, s) && Enabled(c, s, ParentStep)
    ensures ChildOk(c, Apply(c, s, ParentStep), i) && DataOk(c, Apply(c, s, ParentStep), i)
              && Quiet(c, Apply(c, s, ParentStep), i)
  {
    assert ChildOk(c, s, i) && DataOk(c, s, i) && Quiet(c, s, i);
    if i == s.parent.idx && s.parent.pc < c.window {
      StreamStep(c.sizes, c.window, s.parent.iter, s.parent.pc);
    }
  }

  lemma ParentStepInv(c: Config, s: State)
    requires Inv(c, s) && Enabled(c, s, ParentStep)
    ensures Inv(c, Apply(c, s, ParentStep))
  {
    var s' := Apply(c, s, ParentStep);
    forall i: nat ensures ChildOk(c, s', i) && DataOk(c, s', i) && Quiet(c, s', i) { ParentStepChild(c, s, i); }
  }

  /** Every acknowledgement the parent takes comes from the child it has just served. */
  lemma AckIsFromServed(c: Config, s: State, i: nat)
    requires Inv(c, s) && Enabled(c, s, TakeAck(i))
    ensures i == s.parent.idx && s.children[i].iter == s.parent.iter + 1 && s.taken[i] == |s.data[i]|
  {
    assert ChildOk(c, s, i) && Quiet(c, s, i) && DataOk(c, s, i);
    MulSucc(s.parent.iter, c.window);
  }

  lemma TakeAckChild(c: Config, s: State, x: nat, i: nat)
    requires Inv(c, s) && Enabled(c, s, TakeAck(x))
    ensures ChildOk(c, Apply(c, s, TakeAck(x)), i) && DataOk(c, Apply(c, s, TakeAck(x)), i)
              && Quiet(c, Apply(c, s, TakeAck(x)), i)
  {
    AckIsFromServed(c, s, x);
    assert ChildOk(c, s, i) && DataOk(c, s, i) && Quiet(c, s, i);
    MulSucc(s.parent.iter, c.window);
  }

  lemma TakeAckInv(c: Config, s: State, x: nat)
    requires Inv(c, s) && Enabled(c, s, TakeAck(x))
    ensures Inv(c, Apply(c, s, TakeAck(x)))
  {
    var s' := Apply(c, s, TakeAck(x));
    AckIsFromServed(c, s, x);
    forall i: nat ensures ChildOk(c, s', i) && DataOk(c, s', i) && Quiet(c, s', i) { TakeAckChild(c, s, x, i); }
    assert ChildOk(c, s, s'.parent.idx) && Quiet(c, s, s'.parent.idx) && ChildOk(c, s, x);
  }

  /** A child that acknowledges has received a whole window, so it is the one being served. */
  lemma AckerIsServed(c: Config, s: State, i: nat)
    requires Inv(c, s) && Enabled(c, s, ChildStep(i)) && s.children[i].pc > c.window
    ensures i == s.parent.idx && s.children[i].iter == s.parent.iter
  {
    assert ChildOk(c, s, i) && Quiet(c, s, i) && DataOk(c, s, i);
    MulSucc(s.parent.iter, c.window);
  }

  lemma ChildEventChild(c: Config, s: State, e: Event, i: nat)
    requires Inv(c, s) && Enabled(c, s, e) && (e.ChildStep? || e.Match?)
    ensures ChildOk(c, Apply(c, s, e), i) && DataOk(c, Apply(c, s, e), i) && Quiet(c, Apply(c, s, e), i)
  {
    if i == e.child {
      assert DataOk(c, s, i);
      if e.ChildStep? { ChildStepSelf(c, s, i); } else { MatchSelf(c, s, i); }
    } else {
      ChildEventOther(c, s, e, i);
    }
  }

  lemma ChildEventOther(c: Config, s: State, e: Event, i: nat)
    requires Inv(c, s) && Enabled(c, s, e) && (e.ChildStep? || e.Match?) && i != e.child
    ensures ChildOk(c, Apply(c, s, e), i) && DataOk(c, Apply(c, s, e), i) && Quiet(c, Apply(c, s, e), i)
  {
    assert ChildOk(c, s, i) && DataOk(c, s, i) && Quiet(c, s, i);
  }

  lemma ChildStepSelf(c: Config, s: State, i: nat)
    requires Inv(c, s) && Enabled(c, s, ChildStep(i))
    ensures var s' := Apply(c, s, ChildStep(i)); ChildOk(c, s', i) && Quiet(c, s', i)
  {
    assert ChildOk(c, s, i) && Quiet(c, s, i);
    MulSucc(s.children[i].iter, c.window);
    if s.children[i].pc > c.window { AckerIsServed(c, s, i); }
  }

  lemma MatchSelf(c: Config, s: State, i: nat)
    requires Inv(c, s) && Enabled(c, s, Match(i))
    ensures var s' := Apply(c, s, Match(i)); ChildOk(c, s', i) && Quiet(c, s', i)
  {
    assert ChildOk(c, s, i) && Quiet(c, s, i);
  }

  lemma ChildEventInv(c: Config, s: State, e: Event)
    requires Inv(c, s) && Enabled(c, s, e) && (e.ChildStep? || e.Match?)
    ensures Inv(c, Apply(c, s, e))
  {
    var s' := Apply(c, s, e);
    forall i: nat ensures ChildOk(c, s', i) && DataOk(c, s', i) && Quiet(c, s', i) { ChildEventChild(c, s, e, i); }
    assert ChildOk(c, s, e.child) && DataOk(c, s, e.child) && Quiet(c, s, e.child);
    MulSucc(s.parent.iter, c.window);
    if e.ChildStep? && s.children[e.child].pc > c.window { AckerIsServed(c, s, e.child); }
  }

  lemma InvInit(c: Config)
    requires c.Valid() && c.window > 0
    ensures Inv(c, Init(c))
  {
    MulLe(0, c.Iterations(), c.window);
    forall i: nat ensures DataOk(c, Init(c), i) { }
  }

  lemma {:induction false} InvRun(c: Config, es: seq<Event>)
    requires c.Valid() && c.window > 0 && IsRun(c, es)
    ensures Inv(c, After(c, es))
  {
    if es == [] {
      InvInit(c);
    } else {
      var s, e := After(c, es[..|es| - 1]), es[|es| - 1];
      InvRun(c, es[..|es| - 1]);
      match e
      case ParentStep => ParentStepInv(c, s);
      case TakeAck(i) => TakeAckInv(c, s, i);
      case _ => ChildEventInv(c, s, e);
    }
  }
}
