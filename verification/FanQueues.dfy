/** What the fan queues guarantee: node ids and local ranks without gaps, one leader per node, and
    queues that are dual to each other. */
module FanQueues {
  import opened Wrappers
  import opened HostOrder
  import opened FanTopology
  import opened FanInit
  import opened Permutations

  /** Every node id from 1 to the number of nodes is in use, and no other. */
  lemma NodeIdsExact(hosts: seq<string>, k: nat)
    requires hosts != []
    ensures 1 <= k <= NumNodes(hosts) <==> exists r: nat :: r < |hosts| && NodeOf(hosts, r) == k
  {
    Last(hosts, SortedRanks(hosts, |hosts|));
    var last := At(hosts, |hosts| - 1);
    if 1 <= k <= NumNodes(hosts) {
      var i := WalkToNode(hosts, |hosts| - 1, k);
      assert NodeOf(hosts, At(hosts, i)) == k;
    }
    if r: nat :| r < |hosts| && NodeOf(hosts, r) == k {
      assert hosts[r] in hosts;
      SameHostSameNode(hosts, r, last);
    }
  }

  lemma {:induction false} WalkToNode(hosts: seq<string>, i: nat, k: nat) returns (j: nat)
    requires i < |hosts| && 1 <= k <= NodeOf(hosts, At(hosts, i))
    ensures j <= i && NodeOf(hosts, At(hosts, j)) == k && LocalOf(hosts, At(hosts, j)) == 0
  {
    Start(hosts);
    if i > 0 { Successor(hosts, SortedRanks(hosts, |hosts|), i); }
    if k == NodeOf(hosts, At(hosts, i)) && LocalOf(hosts, At(hosts, i)) == 0 {
      j := i;
    } else {
      j := WalkToNode(hosts, i - 1, k);
    }
  }

  /** Local ranks on a node are 0, 1, .. with no gap: every smaller local rank is taken by a smaller
      rank of the same host. */
  lemma {:induction false} LocalRanksContiguous(hosts: seq<string>, r: nat, j: nat) returns (q: nat)
    requires r < |hosts| && j <= LocalOf(hosts, r)
    ensures q <= r && hosts[q] == hosts[r] && LocalOf(hosts, q) == j
    decreases r
  {
    if j == LocalOf(hosts, r) {
      q := r;
    } else {
      var p := PreviousOnHost(hosts, r);
      q := LocalRanksContiguous(hosts, p, j);
    }
  }

  lemma PreviousOnHost(hosts: seq<string>, r: nat) returns (p: nat)
    requires r < |hosts| && LocalOf(hosts, r) > 0
    ensures p < r && hosts[p] == hosts[r] && LocalOf(hosts, p) == LocalOf(hosts, r) - 1
  {
    p := Nearest(hosts, hosts[r], r);
    assert RanksOn(hosts, hosts[r], r) == RanksOn(hosts, hosts[p], p) + {p};
  }

  lemma {:induction false} Nearest(hosts: seq<string>, h: string, r: nat) returns (p: nat)
    requires r <= |hosts| && RanksOn(hosts, h, r) != {}
    ensures p < r && hosts[p] == h && forall x :: p < x < r ==> hosts[x] != h
  {
    var any :| any in RanksOn(hosts, h, r);
    if hosts[r - 1] == h {
      p := r - 1;
    } else {
      assert any in RanksOn(hosts, h, r - 1);
      p := Nearest(hosts, h, r - 1);
    }
  }

  /** The leader of a node: exactly one rank has local rank 0 there. */
  lemma UniqueLeader(hosts: seq<string>, k: nat) returns (l: nat)
    requires hosts != [] && 1 <= k <= NumNodes(hosts)
    ensures l < |hosts| && NodeOf(hosts, l) == k && LocalOf(hosts, l) == 0
    ensures forall r: nat :: r < |hosts| && NodeOf(hosts, r) == k && LocalOf(hosts, r) == 0 ==> r == l
  {
    Last(hosts, SortedRanks(hosts, |hosts|));
    var i := WalkToNode(hosts, |hosts| - 1, k);
    l := At(hosts, i);
    forall r: nat | r < |hosts| && NodeOf(hosts, r) == k && LocalOf(hosts, r) == 0 ensures r == l {
      if r < l { NodeLocalInjective(hosts, r, l); }
      if l < r { NodeLocalInjective(hosts, l, r); }
    }
  }

  /** A run that passes validation has exactly ppn ranks on every node but the last in name order. */
  lemma PassingGroups(hosts: seq<string>, h: string)
    requires hosts != [] && EqualPpn(hosts) && NotLast(hosts, h)
    ensures GroupSize(hosts, h) == FirstGroup(hosts)
  {
    var first := hosts[At(hosts, 0)];
    First(hosts, SortedRanks(hosts, |hosts|));
    assert first in hosts;
    if h != first {
      BelowTotal(h, first);
      assert h !in HostsBelow(hosts, first);
      assert NotLast(hosts, first);
    }
  }

  ghost predicate SamePpnEverywhere(hosts: seq<string>) {
    forall g, h :: g in hosts && h in hosts ==> GroupSize(hosts, g) == GroupSize(hosts, h)
  }

  function LastHost(hosts: seq<string>): string
    requires hosts != []
  {
    hosts[At(hosts, |hosts| - 1)]
  }

  /** Equal ppn everywhere, which the validation announces, is what it checks plus one comparison it
      never makes: the last group's. */
  lemma SamePpnIff(hosts: seq<string>)
    requires hosts != []
    ensures SamePpnEverywhere(hosts) <==> EqualPpn(hosts) && GroupSize(hosts, LastHost(hosts)) == FirstGroup(hosts)
  {
    var first, last := hosts[At(hosts, 0)], LastHost(hosts);
    Last(hosts, SortedRanks(hosts, |hosts|));
    assert first in hosts && last in hosts;
    if EqualPpn(hosts) && GroupSize(hosts, last) == FirstGroup(hosts) {
      forall h | h in hosts ensures GroupSize(hosts, h) == FirstGroup(hosts) {
        if h != last {
          assert NotLast(hosts, h);
          PassingGroups(hosts, h);
        }
      }
    }
  }

  /** Two ranks on one host and one on the last host pass. */
  lemma LastGroupUnchecked()
    ensures var hosts := ["a", "a", "b"]; EqualPpn(hosts) && !SamePpnEverywhere(hosts)
  {
    var hosts := ["a", "a", "b"];
    assert RanksOn(hosts, "a", 3) == {0, 1} && RanksOn(hosts, "b", 3) == {2};
    assert GroupSize(hosts, "a") == 2 && GroupSize(hosts, "b") == 1;
    assert hosts[0] in hosts && hosts[2] in hosts;
    forall h | NotLast(hosts, h) ensures h == "a" {
      BelowIrreflexive("b");
      assert !Below("b", "a");
    }
  }

  /** How many places the parent serves: the other nodes, or all other ranks when there is one node. */
  function Children(hosts: seq<string>): int {
    if NumNodes(hosts) == 1 then |hosts| - 1 else NumNodes(hosts) - 1
  }

  lemma ParentQueueLength(hosts: seq<string>)
    requires |hosts| >= 2
    ensures |ChildLeaders(Grouped(hosts), |hosts|)| == Children(hosts)
  {
    if NumNodes(hosts) == 1 {
      SingleNode(hosts);
    } else {
      SeveralNodes(hosts);
    }
  }

  lemma SingleNode(hosts: seq<string>)
    requires |hosts| >= 2 && NumNodes(hosts) == 1
    ensures |ChildLeaders(Grouped(hosts), |hosts|)| == |hosts| - 1
  {
    AllButFirst(Grouped(hosts), |hosts|);
  }

  lemma {:induction false} AllButFirst(m: Maps, upTo: nat)
    requires 1 <= upTo <= |m.nodeId| == |m.localRank|
    requires forall r :: 0 <= r < |m.nodeId| ==> m.nodeId[r] == (if r == 0 then 1 else 2) && m.localRank[r] == 0
    ensures |ChildLeaders(m, upTo)| == upTo - 1
  {
    if upTo == 1 {
      assert ChildLeaders(m, 0) == [];
    } else {
      AllButFirst(m, upTo - 1);
    }
  }

  lemma SeveralNodes(hosts: seq<string>)
    requires |hosts| >= 2 && NumNodes(hosts) != 1
    ensures |ChildLeaders(Grouped(hosts), |hosts|)| == NumNodes(hosts) - 1
  {
    var queue := ChildLeaders(Grouped(hosts), |hosts|);
    forall r: nat ensures r in queue <==> LeadsChild(hosts, r) { QueueMembers(hosts, r); }
    forall i | 0 <= i < |queue| ensures LeadsChild(hosts, queue[i]) { assert queue[i] in queue; }
    var ids := seq(|queue|, i requires 0 <= i < |queue| => NodeOf(hosts, queue[i]));
    LeaderIds(hosts, queue, ids);
    DistinctSetSize(ids);
    NodeIdsExact(hosts, NodeOf(hosts, 0));
    LeaderIdsSet(hosts, queue, ids);
  }

  function Interval(a: nat, b: nat): (s: set<nat>)
    requires a <= b
    ensures (forall r: nat :: r in s <==> a <= r < b) && |s| == b - a
  {
    if a == b then {} else Interval(a, b - 1) + {b - 1}
  }

  predicate LeadsChild(hosts: seq<string>, r: nat) {
    r < |hosts| && LocalOf(hosts, r) == 0 && NodeOf(hosts, r) >= 2
  }

  lemma QueueMembers(hosts: seq<string>, r: nat)
    requires |hosts| >= 2 && NumNodes(hosts) != 1
    ensures r in ChildLeaders(Grouped(hosts), |hosts|) <==> LeadsChild(hosts, r)
  {
    var m := Grouped(hosts);
    if r < |hosts| { assert m.nodeId[r] == NodeOf(hosts, r) && m.localRank[r] == LocalOf(hosts, r); }
  }

  /** The node ids of a list of leaders: each once. */
  lemma LeaderIds(hosts: seq<string>, queue: seq<nat>, ids: seq<nat>)
    requires forall i, j :: 0 <= i < j < |queue| ==> queue[i] < queue[j]
    requires |ids| == |queue| && forall i :: 0 <= i < |queue| ==>
              LeadsChild(hosts, queue[i]) && ids[i] == NodeOf(hosts, queue[i])
    ensures Distinct(ids)
  {
    forall i, j | 0 <= i < j < |queue| ensures ids[i] != ids[j] {
      if ids[i] == ids[j] { NodeLocalInjective(hosts, queue[i], queue[j]); }
    }
  }

  lemma LeaderIdsSet(hosts: seq<string>, queue: seq<nat>, ids: seq<nat>)
    requires hosts != [] && forall r: nat :: r in queue <==> LeadsChild(hosts, r)
    requires |ids| == |queue| && forall i :: 0 <= i < |queue| ==>
              LeadsChild(hosts, queue[i]) && ids[i] == NodeOf(hosts, queue[i])
    requires NumNodes(hosts) >= 1
    ensures (set k | k in ids) == Interval(2, NumNodes(hosts) + 1)
  {
    forall k: nat ensures k in ids <==> 2 <= k <= NumNodes(hosts) {
      if 2 <= k <= NumNodes(hosts) {
        var l := UniqueLeader(hosts, k);
        assert l in queue;
        var i :| 0 <= i < |queue| && queue[i] == l;
        assert ids[i] == k;
      }
      if k in ids {
        var i :| 0 <= i < |ids| && ids[i] == k;
        NodeIdsExact(hosts, k);
      }
    }
  }

  /** In both topologies exactly one rank leads the parent node, so no queue falls back to rank 0. */
  lemma ParentLeader(hosts: seq<string>) returns (p: nat)
    requires |hosts| >= 2
    ensures IsParentLeader(Grouped(hosts), p) && forall r: nat :: IsParentLeader(Grouped(hosts), r) ==> r == p
    ensures FindParentLeader(Grouped(hosts), 0) == Some(p)
  {
    if NumNodes(hosts) == 1 {
      p := 0;
    } else {
      NodeIdsExact(hosts, NodeOf(hosts, 0));
      p := UniqueLeader(hosts, 1);
    }
    assert IsParentLeader(Grouped(hosts), p);
  }

  /** The queues are dual: every rank off the parent node addresses the one leader p of the parent
      node; p's queue, which every rank of its node shares, lists each other node's leader once, in
      rank order, and nobody else. */
  lemma {:induction false} QueuesDual(hosts: seq<string>, rank: nat) returns (p: nat)
    requires |hosts| >= 2 && rank < |hosts|
    ensures var m := Grouped(hosts);
            && IsParentLeader(m, p) && (forall r: nat :: IsParentLeader(m, r) ==> r == p)
            && FanOf(m, p).isParent
            && (!FanOf(m, rank).isParent ==> FanOf(m, rank).ranksQueue == [p])
            && (FanOf(m, rank).isParent ==> FanOf(m, rank).ranksQueue == FanOf(m, p).ranksQueue)
            && |FanOf(m, p).ranksQueue| == Children(hosts)
            && (rank in FanOf(m, p).ranksQueue <==> !FanOf(m, rank).isParent && m.localRank[rank] == 0)
            && Distinct(FanOf(m, p).ranksQueue)
  {
    p := ParentLeader(hosts);
    ParentQueueLength(hosts);
    NodesFromOne(hosts);
    var m := Grouped(hosts);
    FanOfCases(m, p, rank);
    var queue := FanOf(m, p).ranksQueue;
    assert forall i, j :: 0 <= i < j < |queue| ==> queue[i] < queue[j];
  }

  lemma NodesFromOne(hosts: seq<string>)
    requires |hosts| >= 2
    ensures |Grouped(hosts).nodeId| == |Grouped(hosts).localRank| == |hosts|
    ensures forall r: nat :: r < |hosts| ==> Grouped(hosts).nodeId[r] >= 1
  {
  }

  /** A rank's view of the maps, by role. */
  lemma FanOfCases(m: Maps, p: nat, rank: nat)
    requires rank < |m.nodeId| == |m.localRank| && FindParentLeader(m, 0) == Some(p)
    requires forall r: nat :: r < |m.nodeId| ==> m.nodeId[r] >= 1
    ensures FanOf(m, p).isParent && FanOf(m, p).ranksQueue == ChildLeaders(m, |m.nodeId|)
    ensures FanOf(m, rank).isParent ==> FanOf(m, rank).ranksQueue == ChildLeaders(m, |m.nodeId|)
    ensures !FanOf(m, rank).isParent ==> FanOf(m, rank).ranksQueue == [p]
    ensures rank in ChildLeaders(m, |m.nodeId|) <==> !FanOf(m, rank).isParent && m.localRank[rank] == 0
  {
  }

  /** With one process per node every rank off the parent node is served. */
  lemma EveryChildServed(hosts: seq<string>, rank: nat) returns (p: nat)
    requires |hosts| >= 2 && rank < |hosts|
    requires NumNodes(hosts) == 1 || forall a, b :: 0 <= a < b < |hosts| ==> hosts[a] != hosts[b]
    ensures IsParentLeader(Grouped(hosts), p)
    ensures rank != p <==> rank in FanOf(Grouped(hosts), p).ranksQueue
    ensures rank != p ==> FanOf(Grouped(hosts), rank).ranksQueue == [p]
  {
    p := QueuesDual(hosts, rank);
    if NumNodes(hosts) != 1 {
      assert RanksOn(hosts, hosts[rank], rank) == {};
      assert Locals(hosts)[rank] == 0;
      if rank != p && NodeOf(hosts, rank) == 1 { assert IsParentLeader(Grouped(hosts), rank); }
    }
  }

  /** No two ranks share a host, except on the parent node. */
  ghost predicate OnePerChildNode(hosts: seq<string>) {
    forall a, b :: 0 <= a < b < |hosts| && hosts[a] == hosts[b] ==> NodeOf(hosts, a) == 1
  }

  /** On several nodes every rank that addresses the parent's leader is also in its queue if and only if
      every node but the parent's has one process. Any further one addresses a rank that never serves it. */
  lemma EveryChildServedIff(hosts: seq<string>) returns (p: nat)
    requires |hosts| >= 2 && NumNodes(hosts) > 1
    ensures IsParentLeader(Grouped(hosts), p)
    ensures (forall r: nat :: r < |hosts| && FanOf(Grouped(hosts), r).ranksQueue == [p] && NodeOf(hosts, r) != 1 ==>
              r in FanOf(Grouped(hosts), p).ranksQueue) <==> OnePerChildNode(hosts)
  {
    p := QueuesDual(hosts, 0);
    forall r: nat | r < |hosts| ensures NodeOf(hosts, r) != 1 ==>
      FanOf(Grouped(hosts), r).ranksQueue == [p]
      && (r in FanOf(Grouped(hosts), p).ranksQueue <==> LocalOf(hosts, r) == 0)
    {
      if NodeOf(hosts, r) != 1 { ServedIffLeader(hosts, p, r); }
    }
    if OnePerChildNode(hosts) {
      forall r: nat | r < |hosts| && NodeOf(hosts, r) != 1 ensures LocalOf(hosts, r) == 0 {
        if LocalOf(hosts, r) > 0 {
          var q := PreviousOnHost(hosts, r);
          SameHostSameNode(hosts, q, r);
        }
      }
    } else {
      var a, b :| 0 <= a < b < |hosts| && hosts[a] == hosts[b] && NodeOf(hosts, a) != 1;
      SameHostSameNode(hosts, a, b);
      assert a in RanksOn(hosts, hosts[b], b);
    }
  }

  lemma ServedIffLeader(hosts: seq<string>, p: nat, r: nat)
    requires |hosts| >= 2 && NumNodes(hosts) > 1 && r < |hosts| && NodeOf(hosts, r) != 1
    requires IsParentLeader(Grouped(hosts), p)
    ensures FanOf(Grouped(hosts), r).ranksQueue == [p]
    ensures r in FanOf(Grouped(hosts), p).ranksQueue <==> LocalOf(hosts, r) == 0
  {
    var leader := QueuesDual(hosts, r);
    assert leader == p;
    assert Grouped(hosts).nodeId[r] == NodeOf(hosts, r) && Grouped(hosts).localRank[r] == LocalOf(hosts, r);
  }
}
