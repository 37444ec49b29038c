/** The two sides of one window, as the fan and bandwidth benchmarks perform them. */
module WindowCalls {
  import opened Arithmetic

  /** `SendData` and `PostData` on the data tag, the acknowledgement on its own tag. */
  datatype Call = SendData | AwaitData(slot: nat) | ReceiveAck | PostData | WaitData(slot: nat) | SendAck

  /** Call pc of the sending side: window sends, waits for them in order, then the acknowledgement. */
  function SenderCall(window: nat, pc: nat): Call {
    if pc < window then SendData else if pc < 2 * window then AwaitData(pc - window) else ReceiveAck
  }

  /** Call pc of the receiving side. */
  function ReceiverCall(window: nat, pc: nat): Call {
    if pc < window then PostData else if pc < 2 * window then WaitData(pc - window) else SendAck
  }

  /** A call and the rank it is addressed to; receives and waits name no rank. */
  datatype Addressed = To(rank: nat, call: Call) | Local(call: Call)

  function Address(partner: nat, call: Call): Addressed {
    if call.SendData? || call.SendAck? then To(partner, call) else Local(call)
  }

  function SenderSide(window: nat, partner: nat, upTo: nat): (cs: seq<Addressed>)
  {
    seq(upTo, pc requires 0 <= pc => Address(partner, SenderCall(window, pc)))
  }

  function ReceiverSide(window: nat, partner: nat, upTo: nat): (cs: seq<Addressed>)
  {
    seq(upTo, pc requires 0 <= pc => Address(partner, ReceiverCall(window, pc)))
  }

  /** One window to `partner`: the body of `run_fan_in_send`, of one turn of `run_fan_out_send`, and of
      rank 0 in `do_bw_iteration`. */
  method SendWindow(window: nat, partner: nat) returns (calls: seq<Addressed>)
    ensures calls == SenderSide(window, partner, 2 * window + 1)
    ensures |calls| == 2 * window + 1 && calls[2 * window] == Local(ReceiveAck)
    ensures forall i :: 0 <= i < window ==> calls[i] == To(partner, SendData)
    ensures forall i: nat :: i < window ==> calls[window + i] == Local(AwaitData(i))
  {
    calls := [];
    var requests := 0;
    for i := 0 to window
      invariant calls == SenderSide(window, partner, i) && requests == i
    {
      calls := calls + [To(partner, SendData)];
      requests := requests + 1;
    }
    for i := 0 to requests
      invariant calls == SenderSide(window, partner, window + i)
    {
      calls := calls + [Local(AwaitData(i))];
    }
    calls := calls + [Local(ReceiveAck)];
  }

  /** One window from anyone, acknowledged to `partner`: one turn of `run_fan_in_recv`, the body of
      `run_fan_out_recv`, and rank 1 in `do_bw_iteration`. */
  method ReceiveWindow(window: nat, partner: nat) returns (calls: seq<Addressed>)
    ensures calls == ReceiverSide(window, partner, 2 * window + 1)
    ensures |calls| == 2 * window + 1 && calls[2 * window] == To(partner, SendAck)
    ensures forall i :: 0 <= i < window ==> calls[i] == Local(PostData)
    ensures forall i: nat :: i < window ==> calls[window + i] == Local(WaitData(i))
  {
    calls := [];
    var requests := 0;
    for i := 0 to window
      invariant calls == ReceiverSide(window, partner, i) && requests == i
    {
      calls := calls + [Local(PostData)];
      requests := requests + 1;
    }
    for i := 0 to requests
      invariant calls == ReceiverSide(window, partner, window + i)
    {
      calls := calls + [Local(WaitData(i))];
    }
    calls := calls + [To(partner, SendAck)];
  }

  function QueueTurns(queue: seq<nat>, window: nat, sending: bool): seq<Addressed> {
    if queue == [] then []
    else QueueTurns(queue[..|queue| - 1], window, sending)
         + (if sending then SenderSide(window, queue[|queue| - 1], 2 * window + 1)
            else ReceiverSide(window, queue[|queue| - 1], 2 * window + 1))
  }

  /** The parent of either benchmark serves its ranks_queue in order, one whole window per place. */
  method ServeQueue(queue: seq<nat>, window: nat, sending: bool) returns (calls: seq<Addressed>)
    ensures calls == QueueTurns(queue, window, sending)
  {
    calls := [];
    for i := 0 to |queue|
      invariant calls == QueueTurns(queue[..i], window, sending)
    {
      assert queue[..i + 1][..i] == queue[..i];
      var turn;
      if sending {
        turn := SendWindow(window, queue[i]);
      } else {
        turn := ReceiveWindow(window, queue[i]);
      }
      calls := calls + turn;
    }
    assert queue[..|queue|] == queue;
  }

  lemma {:induction false} QueueLength(queue: seq<nat>, window: nat, sending: bool)
    ensures |QueueTurns(queue, window, sending)| == |queue| * (2 * window + 1)
  {
    if queue != [] {
      QueueLength(queue[..|queue| - 1], window, sending);
      MulSucc(|queue| - 1, 2 * window + 1);
    }
  }

  /** The calls of place i of the queue, which begin at i times a window's calls. Of a sending parent only
      the data names a rank, of a receiving one only the acknowledgement: that at this place. */
  lemma {:induction false} QueueTurnAt(queue: seq<nat>, window: nat, sending: bool, i: nat, pc: nat)
    requires i < |queue| && pc <= 2 * window
    ensures 0 <= i * (2 * window + 1) + pc < |QueueTurns(queue, window, sending)|
    ensures QueueTurns(queue, window, sending)[i * (2 * window + 1) + pc] ==
              if sending then
                if pc < window then To(queue[i], SendData)
                else if pc < 2 * window then Local(AwaitData(pc - window)) else Local(ReceiveAck)
              else
                if pc < window then Local(PostData)
                else if pc < 2 * window then Local(WaitData(pc - window)) else To(queue[i], SendAck)
  {
    var before := queue[..|queue| - 1];
    QueueLength(before, window, sending);
    QueueLength(queue, window, sending);
    MulLe(i + 1, |queue|, 2 * window + 1);
    MulSucc(i, 2 * window + 1);
    if i < |before| {
      QueueTurnAt(before, window, sending, i, pc);
      assert before[i] == queue[i];
    }
  }
}
