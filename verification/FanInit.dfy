/** Fan-in and fan-out topology discovery: the grouping loop, the single-node rewrite, and who talks
    to whom. */
module FanInit {
  import opened Wrappers
  import opened LittleEndian
  import opened MapEncoding
  import opened HostOrder
  import opened FanTopology

  datatype Error = TooFewProcesses | UnequalPpn(first: nat, got: nat)

  /** What rank 0 computes and broadcasts. */
  datatype Maps = Maps(nodeId: seq<nat>, localRank: seq<nat>, totalNodes: nat, ppn: nat)

  datatype Fan = Fan(totalNodes: nat, ppn: nat, isParent: bool, ranksQueue: seq<nat>)

  function Nodes(hosts: seq<string>): (ids: seq<nat>)
  {
    seq(|hosts|, r requires 0 <= r < |hosts| => NodeOf(hosts, r))
  }

  function Locals(hosts: seq<string>): (ids: seq<nat>)
  {
    seq(|hosts|, r requires 0 <= r < |hosts| => LocalOf(hosts, r))
  }

  function FirstGroup(hosts: seq<string>): nat
    requires hosts != []
  {
    var first := SortedRanks(hosts, |hosts|)[0];
    assert first in SortedRanks(hosts, |hosts|);
    GroupSize(hosts, hosts[first])
  }

  /** The maps of a run that passes validation. On a single node rank 0 alone plays the parent node. */
  function Grouped(hosts: seq<string>): (m: Maps)
    requires |hosts| >= 2
  {
    if NumNodes(hosts) == 1 then
      Maps(seq(|hosts|, r => if r == 0 then 1 else 2), seq(|hosts|, r => 0), 2, 1)
    else
      Maps(Nodes(hosts), Locals(hosts), NumNodes(hosts), FirstGroup(hosts))
  }

  /** The loop has left behind every group whose host is below h, all of size `first`. */
  ghost predicate Validated(hosts: seq<string>, h: string, first: Option<nat>) {
    && (first.None? <==> HostsBelow(hosts, h) == {})
    && forall g :: g in HostsBelow(hosts, h) ==> first == Some(GroupSize(hosts, g))
  }

  /** What the loop has written after `idx` places of the sorted order. */
  ghost predicate Placed(hosts: seq<string>, order: seq<nat>, idx: nat, node: seq<nat>, local: seq<nat>) {
    && |node| == |local| == |hosts| == |order| && idx <= |order|
    && forall i {:trigger order[i]} :: 0 <= i < idx ==>
         order[i] < |hosts| && node[order[i]] == NodeOf(hosts, order[i]) && local[order[i]] == LocalOf(hosts, order[i])
  }

  lemma PlaceNext(hosts: seq<string>, idx: nat, node: seq<nat>, local: seq<nat>, r: nat)
    requires var order := SortedRanks(hosts, |hosts|);
             Placed(hosts, order, idx, node, local) && idx < |order| && order[idx] == r
    ensures r < |hosts|
    ensures Placed(hosts, SortedRanks(hosts, |hosts|), idx + 1,
                   node[r := NodeOf(hosts, r)], local[r := LocalOf(hosts, r)])
  {
    var order := SortedRanks(hosts, |hosts|);
    assert r in order;
    forall i | 0 <= i < idx ensures order[i] != r {
      assert Precedes(hosts, order[i], order[idx]);
      PrecedesTotal(hosts, r, r);
    }
  }

  lemma AllPlaced(hosts: seq<string>, order: seq<nat>, node: seq<nat>, local: seq<nat>)
    requires Placed(hosts, order, |order|, node, local) && Lists(order, |hosts|)
    ensures node == Nodes(hosts) && local == Locals(hosts)
  {
    forall r: nat | r < |hosts| ensures node[r] == NodeOf(hosts, r) && local[r] == LocalOf(hosts, r) {
      PlacedAt(hosts, order, node, local, r);
    }
  }

  lemma PlacedAt(hosts: seq<string>, order: seq<nat>, node: seq<nat>, local: seq<nat>, r: nat)
    requires Placed(hosts, order, |order|, node, local) && r in order
    ensures r < |hosts| && node[r] == NodeOf(hosts, r) && local[r] == LocalOf(hosts, r)
  {
    var i :| 0 <= i < |order| && order[i] == r;
  }

  /** When the last group is reached, validation has seen exactly the groups it is about. */
  lemma ValidatedAll(hosts: seq<string>, l: string, first: Option<nat>)
    requires l in hosts && (forall h :: h in hosts ==> h == l || Below(h, l)) && Validated(hosts, l, first)
    ensures EqualPpn(hosts)
  {
    forall h | NotLast(hosts, h) ensures h in HostsBelow(hosts, l) {
      var g :| g in hosts && Below(h, g);
      BelowTotal(h, g);
    }
  }

  lemma Mismatch(hosts: seq<string>, p: string, r: string, fp: nat)
    requires p in hosts && r in hosts && Below(p, r) && Validated(hosts, p, Some(fp)) && fp != GroupSize(hosts, p)
    ensures !EqualPpn(hosts) && NotLast(hosts, p) && exists g :: NotLast(hosts, g) && GroupSize(hosts, g) == fp
  {
    var g :| g in HostsBelow(hosts, p);
    assert NotLast(hosts, g) && NotLast(hosts, p);
  }

  /** The rank at place i of the sorted pairs. */
  function At(hosts: seq<string>, i: nat): (r: nat)
    requires i < |hosts|
    ensures r < |hosts|
  {
    assert SortedRanks(hosts, |hosts|)[i] in SortedRanks(hosts, |hosts|);
    SortedRanks(hosts, |hosts|)[i]
  }

  /** The loop variables after place i of the sorted order. */
  ghost predicate Reached(hosts: seq<string>, i: nat, numNodes: nat, counter: nat, first: Option<nat>) {
    && i < |hosts|
    && numNodes == NodeOf(hosts, At(hosts, i)) && counter == LocalOf(hosts, At(hosts, i)) + 1
    && Validated(hosts, hosts[At(hosts, i)], first)
    && (first.None? ==> hosts[At(hosts, i)] == hosts[At(hosts, 0)])
    && (first.Some? ==> first.value == FirstGroup(hosts))
  }

  ghost predicate IsMismatch(hosts: seq<string>, a: nat, b: nat) {
    && a != b && (exists g :: NotLast(hosts, g) && GroupSize(hosts, g) == a)
    && exists g :: NotLast(hosts, g) && GroupSize(hosts, g) == b
  }

  lemma Start(hosts: seq<string>)
    requires hosts != []
    ensures Reached(hosts, 0, 1, 1, None) && NodeOf(hosts, At(hosts, 0)) == 1 && LocalOf(hosts, At(hosts, 0)) == 0
  {
    First(hosts, SortedRanks(hosts, |hosts|));
  }

  lemma StaysOnNode(hosts: seq<string>, i: nat, numNodes: nat, counter: nat, first: Option<nat>)
    requires Reached(hosts, i, numNodes, counter, first) && i + 1 < |hosts|
    requires hosts[At(hosts, i)] == hosts[At(hosts, i + 1)]
    ensures Reached(hosts, i + 1, numNodes, counter + 1, first)
    ensures NodeOf(hosts, At(hosts, i + 1)) == numNodes && LocalOf(hosts, At(hosts, i + 1)) == counter
  {
    Successor(hosts, SortedRanks(hosts, |hosts|), i + 1);
  }

  lemma NextNode(hosts: seq<string>, i: nat, numNodes: nat, counter: nat, first: Option<nat>)
    requires Reached(hosts, i, numNodes, counter, first) && i + 1 < |hosts|
    requires hosts[At(hosts, i)] != hosts[At(hosts, i + 1)]
    ensures NodeOf(hosts, At(hosts, i + 1)) == numNodes + 1 && LocalOf(hosts, At(hosts, i + 1)) == 0
    ensures first.None? || first.value == counter ==> Reached(hosts, i + 1, numNodes + 1, 1, Some(counter))
    ensures first.Some? && first.value != counter ==> !EqualPpn(hosts) && IsMismatch(hosts, first.value, counter)
  {
    Successor(hosts, SortedRanks(hosts, |hosts|), i + 1);
    var p, r := hosts[At(hosts, i)], hosts[At(hosts, i + 1)];
    BelowIrreflexive(p);
    assert p in HostsBelow(hosts, r);
    if first.Some? && first.value != counter {
      Mismatch(hosts, p, r, first.value);
    }
  }

  lemma Finished(hosts: seq<string>, numNodes: nat, counter: nat, first: Option<nat>)
    requires hosts != [] && Reached(hosts, |hosts| - 1, numNodes, counter, first)
    ensures EqualPpn(hosts) && numNodes == NumNodes(hosts)
    ensures (if first.Some? then first.value else counter) == FirstGroup(hosts)
  {
    Last(hosts, SortedRanks(hosts, |hosts|));
    ValidatedAll(hosts, hosts[At(hosts, |hosts| - 1)], first);
  }

  /** Records node and local rank of the rank at place idx of the sorted order. */
  method PlaceRank(hosts: seq<string>, idx: nat, nodeId: array<nat>, localRank: array<nat>, node: nat, local: nat)
    requires nodeId != localRank && idx < |hosts|
    requires Placed(hosts, SortedRanks(hosts, |hosts|), idx, nodeId[..], localRank[..])
    requires node == NodeOf(hosts, At(hosts, idx)) && local == LocalOf(hosts, At(hosts, idx))
    modifies nodeId, localRank
    ensures Placed(hosts, SortedRanks(hosts, |hosts|), idx + 1, nodeId[..], localRank[..])
  {
    var origRank := At(hosts, idx);
    PlaceNext(hosts, idx, nodeId[..], localRank[..], origRank);
    ghost var n, l := nodeId[..], localRank[..];
    nodeId[origRank] := node;
    localRank[origRank] := local;
    assert nodeId[..] == n[origRank := node] && localRank[..] == l[origRank := local];
  }

  /** The assignment loop over the sorted pairs. */
  method AssignNodes(hosts: seq<string>) returns (res: Result<Maps, Error>)
    requires |hosts| >= 2
    ensures res.Ok? <==> EqualPpn(hosts)
    ensures res.Ok? ==> res.value == Maps(Nodes(hosts), Locals(hosts), NumNodes(hosts), FirstGroup(hosts))
    ensures res.Err? ==>
              && res.error.UnequalPpn? && res.error.first != res.error.got
              && (exists g :: NotLast(hosts, g) && GroupSize(hosts, g) == res.error.first)
              && exists g :: NotLast(hosts, g) && GroupSize(hosts, g) == res.error.got
  {
    var n := |hosts|;
    ghost var order := SortedRanks(hosts, n);
    var nodeId, localRank := new nat[n](_ => 0), new nat[n](_ => 0);
    var numNodes, localRankCounter := 1, 0;
    var firstPpn: Option<nat> := None;
    Start(hosts);
    for idx := 0 to n
      invariant Placed(hosts, order, idx, nodeId[..], localRank[..])
      invariant idx == 0 ==> numNodes == 1 && localRankCounter == 0 && firstPpn == None
      invariant idx > 0 ==> Reached(hosts, idx - 1, numNodes, localRankCounter, firstPpn)
    {
      if idx > 0 && hosts[At(hosts, idx)] != hosts[At(hosts, idx - 1)] {
        NextNode(hosts, idx - 1, numNodes, localRankCounter, firstPpn);
        if firstPpn.Some? {
          if firstPpn.value != localRankCounter {
            return Err(UnequalPpn(firstPpn.value, localRankCounter));
          }
        } else {
          firstPpn := Some(localRankCounter);
        }
        numNodes := numNodes + 1;
        localRankCounter := 0;
      } else if idx > 0 {
        StaysOnNode(hosts, idx - 1, numNodes, localRankCounter, firstPpn);
      }
      PlaceRank(hosts, idx, nodeId, localRank, numNodes, localRankCounter);
      localRankCounter := localRankCounter + 1;
    }
    Finished(hosts, numNodes, localRankCounter, firstPpn);
    AllPlaced(hosts, order, nodeId[..], localRank[..]);
    var ppn := if firstPpn.Some? then firstPpn.value else localRankCounter;
    res := Ok(Maps(nodeId[..], localRank[..], numNodes, ppn));
  }

  // ---------------------------------------------------------------- who talks to whom

  /** The leaders of the other nodes, in rank order. */
  function ChildLeaders(m: Maps, upTo: nat): (queue: seq<nat>)
    requires upTo <= |m.nodeId| == |m.localRank|
    ensures forall r: nat :: r in queue <==> r < upTo && m.nodeId[r] >= 2 && m.localRank[r] == 0
    ensures forall i, j :: 0 <= i < j < |queue| ==> queue[i] < queue[j]
  {
    if upTo == 0 then [] else
      var r: nat := upTo - 1;
      var before := ChildLeaders(m, r);
      assert forall i :: 0 <= i < |before| ==> before[i] in before;
      if m.nodeId[r] >= 2 && m.localRank[r] == 0 then before + [r] else before
  }

  predicate IsParentLeader(m: Maps, r: nat) {
    r < |m.nodeId| && r < |m.localRank| && m.nodeId[r] == 1 && m.localRank[r] == 0
  }

  /** The first rank from `from` on that leads the parent node. */
  function FindParentLeader(m: Maps, from: nat): (p: Option<nat>)
    requires from <= |m.nodeId| == |m.localRank|
    ensures p.None? <==> forall r: nat :: from <= r ==> !IsParentLeader(m, r)
    ensures p.Some? ==> from <= p.value && IsParentLeader(m, p.value)
    ensures p.Some? ==> forall r: nat :: from <= r < p.value ==> !IsParentLeader(m, r)
    decreases |m.nodeId| - from
  {
    if from == |m.nodeId| then None
    else if IsParentLeader(m, from) then Some(from)
    else FindParentLeader(m, from + 1)
  }

  function FanOf(m: Maps, rank: nat): Fan
    requires rank < |m.nodeId| == |m.localRank|
  {
    var isParent := m.nodeId[rank] == 1;
    var queue :=
      if isParent then ChildLeaders(m, |m.nodeId|)
      else [if FindParentLeader(m, 0).Some? then FindParentLeader(m, 0).value else 0];
    Fan(m.totalNodes, m.ppn, isParent, queue)
  }

  /** How discovery ends at a rank. Rank 0 alone checks and encodes the maps; if it ends the process there,
      the others have begun the broadcast and go on waiting for it. */
  datatype Outcome = Returns(fan: Fan) | Exits(error: Error) | Panics | Waits

  /** What the broadcasts carry. */
  lemma MapsFit(hosts: seq<string>)
    requires 2 <= |hosts| < Pow256(4)
    ensures var m := Grouped(hosts);
            && Decoded(Encoded(m.nodeId)) == m.nodeId && Decoded(Encoded(m.localRank)) == m.localRank
            && FromLe(ToLe(m.totalNodes, 4)) == m.totalNodes && FromLe(ToLe(m.ppn, 4)) == m.ppn
  {
    var m := Grouped(hosts);
    forall r: nat | r < |hosts| ensures m.nodeId[r] < Pow256(4) && m.localRank[r] < Pow256(4) {
      TopologyBounds(hosts, r);
    }
    TopologyBounds(hosts, At(hosts, 0));
    DecodedEncoded(m.nodeId);
    DecodedEncoded(m.localRank);
    RoundTrip(m.totalNodes, 4);
    RoundTrip(m.ppn, 4);
  }

  /** Topology discovery as seen by one rank, on a machine with words of `usizeBytes` bytes, which hold
      the number of ranks: four broadcasts hand rank 0's maps to everyone. */
  method DiscoverTopology(hosts: seq<string>, rank: nat, usizeBytes: nat) returns (o: Outcome)
    requires rank < |hosts| < Pow256(usizeBytes)
    ensures |hosts| < 2 <==> o == Exits(TooFewProcesses)
    ensures |hosts| >= 2 && EqualPpn(hosts) && usizeBytes == 4 ==> o == Returns(FanOf(Grouped(hosts), rank))
    ensures o.Returns? && NumNodes(hosts) > 1 ==>
              && o.fan.totalNodes == NumNodes(hosts) && o.fan.ppn == FirstGroup(hosts)
              && (o.fan.isParent <==> NodeOf(hosts, rank) == 1)
    ensures o.Returns? && NumNodes(hosts) == 1 ==>
              o.fan.totalNodes == 2 && o.fan.ppn == 1 && (o.fan.isParent <==> rank == 0)
    ensures |hosts| >= 2 && EqualPpn(hosts) && usizeBytes != 4 ==> o == if rank == 0 then Panics else Waits
    ensures |hosts| >= 2 && !EqualPpn(hosts) ==>
              if rank == 0 then
                && o.Exits? && o.error.UnequalPpn? && o.error.first != o.error.got
                && (exists g :: NotLast(hosts, g) && GroupSize(hosts, g) == o.error.first)
                && exists g :: NotLast(hosts, g) && GroupSize(hosts, g) == o.error.got
              else o == Waits
  {
    if |hosts| < 2 {
      return Exits(TooFewProcesses);
    }
    var maps := AssignNodes(hosts);
    if maps.Err? {
      return if rank == 0 then Exits(maps.error) else Waits;
    }
    var m := maps.value;
    if m.totalNodes == 1 {
      m := SimulateTwoNodes(m);
    }
    var nodes := EncodeMap(m.nodeId, usizeBytes);
    var locals := EncodeMap(m.localRank, usizeBytes);
    if nodes.None? || locals.None? {
      return if rank == 0 then Panics else Waits;
    }
    MapsFit(hosts);
    var totalNodes, ppn := FromLe(ToLe(m.totalNodes, 4)), FromLe(ToLe(m.ppn, 4));
    var seen := Maps(Decoded(nodes.value), Decoded(locals.value), totalNodes, ppn);
    o := Returns(FanOf(seen, rank));
  }

  /** Rank 0 becomes the parent node, every other rank a child. */
  method SimulateTwoNodes(m: Maps) returns (m': Maps)
    requires |m.nodeId| == |m.localRank| >= 2
    ensures m' == Maps(seq(|m.nodeId|, r => if r == 0 then 1 else 2), seq(|m.nodeId|, r => 0), 2, 1)
  {
    var node, local := m.nodeId, m.localRank;
    for r := 1 to |node|
      invariant |node| == |local| == |m.nodeId|
      invariant forall x :: 1 <= x < r ==> node[x] == 2 && local[x] == 0
    {
      node, local := node[r := 2], local[r := 0];
    }
    node, local := node[0 := 1], local[0 := 0];
    m' := Maps(node, local, 2, 1);
  }
}
