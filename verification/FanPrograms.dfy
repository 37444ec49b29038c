/** The flow-control machines name children by their place in the parent's queue. Here each step of a run is
    the call the rank-local code makes there, and whom it is addressed to is the rank at that place. */
module FanPrograms {
  import opened Permutations
  import opened WindowCalls
  import FanIn
  import FanOut

  /** The call of a parent at place idx of its queue and call pc of that turn. */
  function ParentCall(queue: seq<nat>, window: nat, sending: bool, idx: nat, pc: nat): (call: Addressed)
    requires idx < |queue| && pc <= 2 * window
  {
    QueueTurnAt(queue, window, sending, idx, pc);
    QueueTurns(queue, window, sending)[idx * (2 * window + 1) + pc]
  }

  lemma ReceivingCall(queue: seq<nat>, window: nat, idx: nat, pc: nat)
    requires idx < |queue| && pc <= 2 * window
    ensures ParentCall(queue, window, false, idx, pc) ==
              if pc < window then Local(PostData)
              else if pc < 2 * window then Local(WaitData(pc - window)) else To(queue[idx], SendAck)
  {
    QueueTurnAt(queue, window, false, idx, pc);
  }

  lemma SendingCall(queue: seq<nat>, window: nat, idx: nat, pc: nat)
    requires idx < |queue| && pc <= 2 * window
    ensures ParentCall(queue, window, true, idx, pc) ==
              if pc < window then To(queue[idx], SendData)
              else if pc < 2 * window then Local(AwaitData(pc - window)) else Local(ReceiveAck)
  {
    QueueTurnAt(queue, window, true, idx, pc);
  }

  /** Fan-in: an acknowledgement reaches place i exactly when the parent's next call sends one to the rank
      there; a wait it completes is for a receive that has matched. */
  lemma FanInParentStep(c: FanIn.Config, es: seq<FanIn.Event>, queue: seq<nat>, i: nat)
    requires c.Valid() && FanIn.IsRun(c, es) && |queue| == c.children && Distinct(queue) && i < c.children
    requires FanIn.Enabled(c, FanIn.After(c, es), FanIn.ParentStep)
    ensures var s := FanIn.After(c, es);
            var s', p := FanIn.Apply(c, s, FanIn.ParentStep), s.parent;
            && p.idx < |queue| && p.pc <= 2 * c.window
            && var call := ParentCall(queue, c.window, false, p.idx, p.pc);
               && s'.acks[i] == s.acks[i] + (if call == To(queue[i], SendAck) then 1 else 0)
               && (call.To? ==> call == To(queue[p.idx], SendAck))
               && (call.Local? && call.call.WaitData? ==> call.call.slot < p.got)
  {
    FanIn.InvRun(c, es);
    var p := FanIn.After(c, es).parent;
    ReceivingCall(queue, c.window, p.idx, p.pc);
    assert queue[i] == queue[p.idx] ==> i == p.idx;
  }

  /** Fan-in: a child's data counter moves exactly when its next call sends to its parent, its acknowledgement
      counter exactly when it has taken the acknowledgement of the window. */
  lemma FanInChildStep(c: FanIn.Config, es: seq<FanIn.Event>, i: nat, parent: nat)
    requires c.Valid() && FanIn.IsRun(c, es) && i < c.children
    requires FanIn.Enabled(c, FanIn.After(c, es), FanIn.ChildStep(i))
    ensures var s := FanIn.After(c, es);
            var s', pc := FanIn.Apply(c, s, FanIn.ChildStep(i)), s.children[i].pc;
            && pc <= 2 * c.window
            && var call := SenderSide(c.window, parent, 2 * c.window + 1)[pc];
               && s'.sent[i] == s.sent[i] + (if call == To(parent, SendData) then 1 else 0)
               && s'.heard[i] == s.heard[i] + (if call == Local(ReceiveAck) then 1 else 0)
               && (pc < c.window ==> call == To(parent, SendData))
               && (pc == 2 * c.window ==> call == Local(ReceiveAck) && s.heard[i] < s.acks[i])
  {
    FanIn.InvRun(c, es);
    assert FanIn.ChildOk(c, FanIn.After(c, es), i);
  }

  /** Where a fan-out parent is stays inside its program, for an empty window too. */
  lemma {:induction false} FanOutPlace(c: FanOut.Config, es: seq<FanOut.Event>)
    requires c.Valid() && FanOut.IsRun(c, es)
    ensures var p := FanOut.After(c, es).parent; p.pc <= 2 * c.window && p.idx < c.children
    ensures forall i :: 0 <= i < c.children ==> FanOut.After(c, es).children[i].pc <= 2 * c.window
  {
    if es != [] { FanOutPlace(c, es[..|es| - 1]); }
  }

  /** Fan-out: data is sent to place i exactly when the parent's next call sends to the rank there, and it
      has the size of the iteration. */
  lemma FanOutParentStep(c: FanOut.Config, es: seq<FanOut.Event>, queue: seq<nat>, i: nat)
    requires c.Valid() && FanOut.IsRun(c, es) && |queue| == c.children && Distinct(queue) && i < c.children
    requires FanOut.Enabled(c, FanOut.After(c, es), FanOut.ParentStep)
    ensures var s := FanOut.After(c, es);
            var s', p := FanOut.Apply(c, s, FanOut.ParentStep), s.parent;
            && p.idx < |queue| && p.pc <= 2 * c.window && p.iter < |c.sizes|
            && var call := ParentCall(queue, c.window, true, p.idx, p.pc);
               && s'.data[i] == s.data[i] + (if call == To(queue[i], SendData) then [c.sizes[p.iter]] else [])
               && (call.To? ==> call == To(queue[p.idx], SendData))
               && (p.pc < c.window <==> call.To?) && call != Local(ReceiveAck)
  {
    FanOutPlace(c, es);
    var p := FanOut.After(c, es).parent;
    SendingCall(queue, c.window, p.idx, p.pc);
    assert queue[i] == queue[p.idx] ==> i == p.idx;
  }

  /** Fan-out: the parent takes an acknowledgement exactly at the last call of a turn, and then goes on to the
      next place of its queue. */
  lemma FanOutTakeAck(c: FanOut.Config, es: seq<FanOut.Event>, queue: seq<nat>, i: nat)
    requires c.Valid() && FanOut.IsRun(c, es) && |queue| == c.children
    requires FanOut.Enabled(c, FanOut.After(c, es), FanOut.TakeAck(i))
    ensures var s := FanOut.After(c, es);
            var s', p := FanOut.Apply(c, s, FanOut.TakeAck(i)), s.parent;
            && p.idx < |queue| && p.pc <= 2 * c.window
            && ParentCall(queue, c.window, true, p.idx, p.pc) == Local(ReceiveAck)
            && s'.parent.pc == 0
            && (p.idx + 1 < |queue| ==> s'.parent.idx == p.idx + 1 && s'.parent.iter == p.iter)
            && (p.idx + 1 == |queue| ==> s'.parent.idx == 0 && s'.parent.iter == p.iter + 1)
  {
    FanOutPlace(c, es);
    var p := FanOut.After(c, es).parent;
    SendingCall(queue, c.window, p.idx, p.pc);
  }

  /** Fan-out: place i acknowledges exactly when the child's next call sends the acknowledgement to its parent. */
  lemma FanOutChildStep(c: FanOut.Config, es: seq<FanOut.Event>, i: nat, parent: nat)
    requires c.Valid() && FanOut.IsRun(c, es) && i < c.children
    requires FanOut.Enabled(c, FanOut.After(c, es), FanOut.ChildStep(i))
    ensures var s := FanOut.After(c, es);
            var s', pc := FanOut.Apply(c, s, FanOut.ChildStep(i)), s.children[i].pc;
            && pc <= 2 * c.window
            && var call := ReceiverSide(c.window, parent, 2 * c.window + 1)[pc];
               && s'.acks[i] == s.acks[i] + (if call == To(parent, SendAck) then 1 else 0)
               && (pc == 2 * c.window ==> call == To(parent, SendAck))
               && (call.Local? && call.call.WaitData? ==> call.call.slot < s.children[i].got)
  {
    FanOutPlace(c, es);
  }
}
