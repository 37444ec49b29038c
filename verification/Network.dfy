/** The transport: one reliable first-in-first-out channel per (sender, receiver, tag). */
module Network {

  datatype Chan = Chan(src: nat, dst: nat, tag: nat)

  /** `log` is everything ever sent on a channel, `taken` how much of it a receive has matched. */
  datatype Net<M> = Net(log: map<Chan, seq<M>>, taken: map<Chan, nat>) {

    function Log(c: Chan): seq<M> {
      if c in log then log[c] else []
    }

    function Taken(c: Chan): nat {
      if c in taken then taken[c] else 0
    }

    predicate Pending(c: Chan) {
      Taken(c) < |Log(c)|
    }

    function Push(c: Chan, m: M): Net<M> {
      Net(log[c := Log(c) + [m]], taken)
    }

    function Head(c: Chan): M
      requires Pending(c)
    {
      Log(c)[Taken(c)]
    }

    function Pop(c: Chan): Net<M>
      requires Pending(c)
    {
      Net(log, taken[c := Taken(c) + 1])
    }

    /** What is still in flight, oldest first. */
    function InFlight(c: Chan): seq<M>
      requires Taken(c) <= |Log(c)|
    {
      Log(c)[Taken(c)..]
    }
  }

  function Empty<M>(): Net<M> {
    Net(map[], map[])
  }

  /** The two ends of a channel are those of a queue, and touch no other channel. */
  lemma ChannelIsQueue<M>(net: Net<M>, c: Chan, m: M, d: Chan)
    requires net.Taken(c) <= |net.Log(c)| && net.Taken(d) <= |net.Log(d)|
    ensures net.Push(c, m).InFlight(c) == net.InFlight(c) + [m]
    ensures net.Pending(c) ==> net.InFlight(c) == [net.Head(c)] + net.Pop(c).InFlight(c)
    ensures d != c ==> net.Push(c, m).InFlight(d) == net.InFlight(d)
    ensures d != c && net.Pending(c) ==> net.Pop(c).InFlight(d) == net.InFlight(d)
  {
    PushLog(net, c, m, d);
    PushLog(net, c, m, c);
    assert (net.Log(c) + [m])[net.Taken(c)..] == net.Log(c)[net.Taken(c)..] + [m];
    if net.Pending(c) {
      PopLog(net, c, d);
      PopLog(net, c, c);
      assert net.Log(c)[net.Taken(c)..] == [net.Head(c)] + net.Log(c)[net.Taken(c) + 1..];
    }
  }

  lemma PushLog<M>(net: Net<M>, c: Chan, m: M, d: Chan)
    ensures net.Push(c, m).Log(d) == if d == c then net.Log(c) + [m] else net.Log(d)
    ensures net.Push(c, m).Taken(d) == net.Taken(d)
  {
  }

  lemma PopLog<M>(net: Net<M>, c: Chan, d: Chan)
    requires net.Pending(c)
    ensures net.Pop(c).Log(d) == net.Log(d)
    ensures net.Pop(c).Taken(d) == if d == c then net.Taken(c) + 1 else net.Taken(d)
  {
  }
}
