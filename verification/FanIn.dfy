/** Many-to-one flow control: every child sends a window and waits for an acknowledgement; the parent
    receives a window from any source for each place of its queue, then acknowledges that place. */
module FanIn {
  import opened Arithmetic
  import opened Sums
  import opened WindowCalls

  /** `children` is the length of the parent's ranks_queue; children are named by their place in it. */
  datatype Config = Config(children: nat, window: nat, iterations: nat, rendezvous: bool) {
    ghost predicate Valid() { children >= 1 }
  }

  /** pc: `window` sends, `window` waits for them, then the wait for the acknowledgement. */
  datatype Child = Child(iter: nat, pc: nat)

  /** pc: `window` posts, `window` waits, then the acknowledgement to place `idx`. */
  datatype Parent = Parent(iter: nat, idx: nat, pc: nat, got: nat)

  /** Messages sent and matched so far, per child: data towards the parent, acknowledgements back. */
  datatype State = State(children: seq<Child>, parent: Parent, sent: seq<nat>, taken: seq<nat>, acks: seq<nat>,
                         heard: seq<nat>)

  datatype Event = ChildStep(child: nat) | ParentStep | Match(child: nat)

  function Init(c: Config): State {
    var zeros := seq(c.children, i => 0);
    State(seq(c.children, i => Child(0, 0)), Parent(0, 0, 0, 0), zeros, zeros, zeros, zeros)
  }

  ghost predicate Shape(c: Config, s: State) {
    |s.children| == |s.sent| == |s.taken| == |s.acks| == |s.heard| == c.children
  }

  /** Children perform a window's sending side, the parent its receiving side for each place in turn.
      With `rendezvous` a send is over only once matched. A wait for slot i is over once i + 1 of the
      turn's receives have matched, whoever sent the data. */
  ghost predicate Enabled(c: Config, s: State, e: Event)
    requires Shape(c, s)
  {
    match e
    case ChildStep(i) =>
      && i < c.children && s.children[i].iter < c.iterations
      && (match SenderCall(c.window, s.children[i].pc)
          case AwaitData(k) => c.rendezvous ==> s.taken[i] > s.children[i].iter * c.window + k
          case ReceiveAck => s.heard[i] < s.acks[i]
          case _ => true)
    case ParentStep =>
      && s.parent.iter < c.iterations && s.parent.idx < c.children
      && (match ReceiverCall(c.window, s.parent.pc)
          case WaitData(k) => s.parent.got > k
          case _ => true)
    case Match(i) =>
      && i < c.children && s.parent.iter < c.iterations
      && s.parent.got < s.parent.pc && s.parent.got < c.window
      && s.taken[i] < s.sent[i]
  }

  ghost function Apply(c: Config, s: State, e: Event): (s': State)
    requires Shape(c, s) && Enabled(c, s, e)
    ensures Shape(c, s')
  {
    match e
    case ChildStep(i) =>
      var child := s.children[i];
      var call := SenderCall(c.window, child.pc);
      if call.ReceiveAck? then
        s.(children := s.children[i := Child(child.iter + 1, 0)], heard := s.heard[i := s.heard[i] + 1])
      else
        s.(children := s.children[i := child.(pc := child.pc + 1)],
           sent := if call.SendData? then s.sent[i := s.sent[i] + 1] else s.sent)
    case ParentStep =>
      var p := s.parent;
      if ReceiverCall(c.window, p.pc).SendAck? then
        s.(acks := s.acks[p.idx := s.acks[p.idx] + 1],
           parent := if p.idx + 1 == c.children then Parent(p.iter + 1, 0, 0, 0) else Parent(p.iter, p.idx + 1, 0, 0))
      else
        s.(parent := p.(pc := p.pc + 1))
    case Match(i) =>
      s.(taken := s.taken[i := s.taken[i] + 1], parent := s.parent.(got := s.parent.got + 1))
  }

  ghost predicate IsRun(c: Config, es: seq<Event>)
    decreases |es|, 0
  {
    es == [] || (IsRun(c, es[..|es| - 1]) && Enabled(c, After(c, es[..|es| - 1]), es[|es| - 1]))
  }

  ghost function After(c: Config, es: seq<Event>): (s: State)
    requires IsRun(c, es)
    ensures Shape(c, s)
    decreases |es|, 1
  {
    if es == [] then Init(c) else Apply(c, After(c, es[..|es| - 1]), es[|es| - 1])
  }

  ghost predicate ChildOk(c: Config, s: State, i: nat)
    requires Shape(c, s)
  {
    i < c.children ==>
      var child := s.children[i];
      && child.iter <= c.iterations && child.pc <= 2 * c.window
      && (child.iter == c.iterations ==> child.pc == 0)
      && s.sent[i] == child.iter * c.window + Min(child.pc, c.window)
      && s.taken[i] <= s.sent[i]
      && (c.rendezvous && child.pc > c.window ==> s.taken[i] >= child.iter * c.window + (child.pc - c.window))
      && s.heard[i] == child.iter <= s.acks[i]
      && s.acks[i] == s.parent.iter + (if i < s.parent.idx then 1 else 0)
  }

  /** Windows the parent has completed. */
  function Turns(c: Config, p: Parent): nat { p.iter * c.children + p.idx }

  ghost predicate Inv(c: Config, s: State) {
    && c.Valid() && Shape(c, s)
    && (forall i: nat :: ChildOk(c, s, i))
    && var p := s.parent;
       && p.iter <= c.iterations && p.idx < c.children && p.pc <= 2 * c.window
       && (p.iter == c.iterations ==> p.idx == 0 && p.pc == 0)
       && p.got <= Min(p.pc, c.window) && (p.pc > c.window ==> p.got >= p.pc - c.window)
       && Sum(s.taken) == c.window * Turns(c, p) + p.got
  }

  lemma InvInit(c: Config)
    requires c.Valid()
    ensures Inv(c, Init(c))
  {
    SumOthers(c.children, c.children, 0);
    assert Init(c).taken == Others(c.children, c.children, 0);
    assert Turns(c, Parent(0, 0, 0, 0)) == 0;
  }

  lemma ChildStepOk(c: Config, s: State, i: nat, x: nat)
    requires Inv(c, s) && Enabled(c, s, ChildStep(i))
    ensures ChildOk(c, Apply(c, s, ChildStep(i)), x)
  {
    assert ChildOk(c, s, i) && ChildOk(c, s, x);
    MulSucc(s.children[i].iter, c.window);
  }

  lemma ChildStepInv(c: Config, s: State, i: nat)
    requires Inv(c, s) && Enabled(c, s, ChildStep(i))
    ensures Inv(c, Apply(c, s, ChildStep(i)))
  {
    forall x: nat ensures ChildOk(c, Apply(c, s, ChildStep(i)), x) { ChildStepOk(c, s, i, x); }
  }

  lemma MatchInv(c: Config, s: State, i: nat)
    requires Inv(c, s) && Enabled(c, s, Match(i))
    ensures Inv(c, Apply(c, s, Match(i)))
  {
    var s' := Apply(c, s, Match(i));
    SumUpdate(s.taken, i, s.taken[i] + 1);
    forall x: nat ensures ChildOk(c, s', x) { assert ChildOk(c, s, x); }
  }

  lemma TurnTaken(c: Config, s: State)
    requires Inv(c, s) && Enabled(c, s, ParentStep) && s.parent.pc == 2 * c.window
    ensures Turns(c, Apply(c, s, ParentStep).parent) == Turns(c, s.parent) + 1
  {
    MulSucc(s.parent.iter, c.children);
  }

  lemma ParentStepInv(c: Config, s: State)
    requires Inv(c, s) && Enabled(c, s, ParentStep)
    ensures Inv(c, Apply(c, s, ParentStep))
  {
    var s' := Apply(c, s, ParentStep);
    forall x: nat ensures ChildOk(c, s', x) { assert ChildOk(c, s, x); }
    if s.parent.pc == 2 * c.window {
      TurnTaken(c, s);
      MulSucc(Turns(c, s.parent), c.window);
    }
  }

  lemma {:induction false} InvRun(c: Config, es: seq<Event>)
    requires c.Valid() && IsRun(c, es)
    ensures Inv(c, After(c, es))
  {
    if es == [] {
      InvInit(c);
    } else {
      var s := After(c, es[..|es| - 1]);
      InvRun(c, es[..|es| - 1]);
      match es[|es| - 1]
      case ChildStep(i) => ChildStepInv(c, s, i);
      case ParentStep => ParentStepInv(c, s);
      case Match(i) => MatchInv(c, s, i);
    }
  }
}
