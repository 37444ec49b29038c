/** What node ids and local ranks mean, and how they follow each other in sorted order. */
module FanTopology {
  import opened HostOrder

  function HostsBelow(hosts: seq<string>, h: string): set<string> {
    set x | x in hosts && Below(x, h)
  }

  function RanksOn(hosts: seq<string>, h: string, upTo: nat): set<nat>
    requires upTo <= |hosts|
  {
    set q: nat | q < upTo && hosts[q] == h
  }

  /** One more than the number of different host names before r's. */
  function NodeOf(hosts: seq<string>, r: nat): nat
    requires r < |hosts|
  {
    |HostsBelow(hosts, hosts[r])| + 1
  }

  /** The number of smaller ranks on r's host. */
  function LocalOf(hosts: seq<string>, r: nat): nat
    requires r < |hosts|
  {
    |RanksOn(hosts, hosts[r], r)|
  }

  function NumNodes(hosts: seq<string>): nat {
    |set h | h in hosts|
  }

  function GroupSize(hosts: seq<string>, h: string): nat {
    |RanksOn(hosts, h, |hosts|)|
  }

  predicate NotLast(hosts: seq<string>, h: string) {
    h in hosts && exists g :: g in hosts && Below(h, g)
  }

  /** All hosts but the last one in name order have the same number of ranks. */
  ghost predicate EqualPpn(hosts: seq<string>) {
    forall g, h :: NotLast(hosts, g) && NotLast(hosts, h) ==> GroupSize(hosts, g) == GroupSize(hosts, h)
  }

  lemma SameHostSameNode(hosts: seq<string>, a: nat, b: nat)
    requires a < |hosts| && b < |hosts|
    ensures NodeOf(hosts, a) == NodeOf(hosts, b) <==> hosts[a] == hosts[b]
    ensures Below(hosts[a], hosts[b]) ==> NodeOf(hosts, a) < NodeOf(hosts, b)
  {
    BelowTotal(hosts[a], hosts[b]);
    if Below(hosts[a], hosts[b]) { FewerBelow(hosts, hosts[a], hosts[b]); }
    if Below(hosts[b], hosts[a]) { FewerBelow(hosts, hosts[b], hosts[a]); }
  }

  lemma FewerBelow(hosts: seq<string>, g: string, h: string)
    requires g in hosts && Below(g, h)
    ensures |HostsBelow(hosts, g)| < |HostsBelow(hosts, h)|
  {
    var a, b := HostsBelow(hosts, g), HostsBelow(hosts, h);
    forall x | x in a ensures x in b { BelowTransitive(x, g, h); }
    BelowIrreflexive(g);
    assert g in b && g !in a;
    ProperSubsetSmaller(a, b);
  }

  lemma ProperSubsetSmaller<T>(a: set<T>, b: set<T>)
    requires a < b
    ensures |a| < |b|
  {
    assert |b - a| == |b| - |a|;
  }

  /** No two ranks share both node and local rank. */
  lemma NodeLocalInjective(hosts: seq<string>, a: nat, b: nat)
    requires a < b < |hosts| && NodeOf(hosts, a) == NodeOf(hosts, b)
    ensures LocalOf(hosts, a) < LocalOf(hosts, b)
  {
    SameHostSameNode(hosts, a, b);
    var x, y := RanksOn(hosts, hosts[a], a), RanksOn(hosts, hosts[b], b);
    assert a in y && a !in x && x <= y;
    ProperSubsetSmaller(x, y);
  }

  /** Neighbours in sorted order: the next local rank on the same node, or the first of the next node,
      in which case the node just left is complete. */
  lemma Successor(hosts: seq<string>, order: seq<nat>, i: nat)
    requires order == SortedRanks(hosts, |hosts|) && 0 < i < |hosts|
    ensures var p, r := order[i - 1], order[i];
            if hosts[p] == hosts[r]
            then NodeOf(hosts, r) == NodeOf(hosts, p) && LocalOf(hosts, r) == LocalOf(hosts, p) + 1
            else NodeOf(hosts, r) == NodeOf(hosts, p) + 1 && LocalOf(hosts, r) == 0
                 && GroupSize(hosts, hosts[p]) == LocalOf(hosts, p) + 1
                 && HostsBelow(hosts, hosts[r]) == HostsBelow(hosts, hosts[p]) + {hosts[p]}
  {
    var p, r := order[i - 1], order[i];
    assert p in order && r in order && Precedes(hosts, p, r);
    NothingBetween(hosts, order, i);
    if hosts[p] == hosts[r] {
      SameHostNext(hosts, p, r);
    } else {
      BelowIrreflexive(hosts[p]);
      assert Below(hosts[p], hosts[r]);
      HostsBelowNext(hosts, p, r);
      FirstAndLast(hosts, p, r);
    }
  }

  lemma SameHostNext(hosts: seq<string>, p: nat, r: nat)
    requires Adjacent(hosts, p, r) && hosts[p] == hosts[r]
    ensures LocalOf(hosts, r) == LocalOf(hosts, p) + 1
  {
    BelowIrreflexive(hosts[p]);
    forall q: nat | q < |hosts| && q != p && hosts[q] == hosts[p] ensures q < r <==> q < p {
      assert !(Precedes(hosts, p, q) && Precedes(hosts, q, r));
    }
    assert RanksOn(hosts, hosts[r], r) == RanksOn(hosts, hosts[p], p) + {p};
  }

  ghost predicate Adjacent(hosts: seq<string>, p: nat, r: nat) {
    Precedes(hosts, p, r) && forall q: nat :: !(Precedes(hosts, p, q) && Precedes(hosts, q, r))
  }

  lemma NothingBetween(hosts: seq<string>, order: seq<nat>, i: nat)
    requires Lists(order, |hosts|) && InOrder(hosts, order) && 0 < i < |order|
    ensures Adjacent(hosts, order[i - 1], order[i])
  {
    assert order[i - 1] in order && order[i] in order;
    forall q: nat ensures !(Precedes(hosts, order[i - 1], q) && Precedes(hosts, q, order[i])) {
      if q < |hosts| {
        assert q in order;
        var j :| 0 <= j < |order| && order[j] == q;
        if j < i { NotBefore(hosts, order, j, i - 1); } else { NotBefore(hosts, order, i, j); }
      }
    }
  }

  lemma NotBefore(hosts: seq<string>, order: seq<nat>, i: nat, j: nat)
    requires InOrder(hosts, order) && i <= j < |order| && order[i] < |hosts| && order[j] < |hosts|
    ensures !Precedes(hosts, order[j], order[i])
  {
    if i < j { assert Precedes(hosts, order[i], order[j]); }
    PrecedesTotal(hosts, order[i], order[j]);
  }

  lemma HostsBelowNext(hosts: seq<string>, p: nat, r: nat)
    requires Adjacent(hosts, p, r) && Below(hosts[p], hosts[r])
    ensures HostsBelow(hosts, hosts[r]) == HostsBelow(hosts, hosts[p]) + {hosts[p]}
    ensures NodeOf(hosts, r) == NodeOf(hosts, p) + 1
  {
    BelowIrreflexive(hosts[p]);
    forall h | h in hosts ensures Below(h, hosts[r]) <==> Below(h, hosts[p]) || h == hosts[p] {
      var q :| 0 <= q < |hosts| && hosts[q] == h;
      BelowTotal(h, hosts[p]);
      if Below(h, hosts[p]) { BelowTransitive(h, hosts[p], hosts[r]); }
      assert !(Precedes(hosts, p, q) && Precedes(hosts, q, r));
    }
  }

  lemma FirstAndLast(hosts: seq<string>, p: nat, r: nat)
    requires Adjacent(hosts, p, r) && Below(hosts[p], hosts[r])
    ensures LocalOf(hosts, r) == 0 && GroupSize(hosts, hosts[p]) == LocalOf(hosts, p) + 1
  {
    forall q: nat | q < r && hosts[q] == hosts[r] ensures false {
      assert Precedes(hosts, p, q) && Precedes(hosts, q, r);
    }
    assert RanksOn(hosts, hosts[r], r) == {};
    forall q: nat | q < |hosts| && hosts[q] == hosts[p] ensures q <= p {
      assert !(Precedes(hosts, p, q) && Precedes(hosts, q, r));
    }
    assert RanksOn(hosts, hosts[p], |hosts|) == RanksOn(hosts, hosts[p], p) + {p};
  }

  lemma First(hosts: seq<string>, order: seq<nat>)
    requires order == SortedRanks(hosts, |hosts|) && |hosts| > 0
    ensures NodeOf(hosts, order[0]) == 1 && LocalOf(hosts, order[0]) == 0
    ensures HostsBelow(hosts, hosts[order[0]]) == {}
  {
    var r := order[0];
    assert r in order;
    forall q: nat | q < |hosts| && Precedes(hosts, q, r) ensures false {
      assert q in order;
      var j :| 0 <= j < |order| && order[j] == q;
      if j > 0 { assert Precedes(hosts, r, q); }
      PrecedesTotal(hosts, q, r);
    }
    forall h | h in hosts && Below(h, hosts[r]) ensures false {
      var q :| 0 <= q < |hosts| && hosts[q] == h;
      assert Precedes(hosts, q, r);
    }
    assert HostsBelow(hosts, hosts[r]) == {};
    forall q: nat | q < r && hosts[q] == hosts[r] ensures false { assert Precedes(hosts, q, r); }
    assert RanksOn(hosts, hosts[r], r) == {};
  }

  lemma Last(hosts: seq<string>, order: seq<nat>)
    requires order == SortedRanks(hosts, |hosts|) && |hosts| > 0
    ensures var l := order[|hosts| - 1];
            NodeOf(hosts, l) == NumNodes(hosts) && GroupSize(hosts, hosts[l]) == LocalOf(hosts, l) + 1
    ensures forall h :: h in hosts ==> h == hosts[order[|hosts| - 1]] || Below(h, hosts[order[|hosts| - 1]])
  {
    var l := order[|hosts| - 1];
    assert l in order;
    forall q: nat | q < |hosts| && q != l ensures Precedes(hosts, q, l) {
      assert q in order;
      var j :| 0 <= j < |order| && order[j] == q;
    }
    Greatest(hosts, l);
  }

  lemma Greatest(hosts: seq<string>, l: nat)
    requires l < |hosts| && forall q: nat :: q < |hosts| && q != l ==> Precedes(hosts, q, l)
    ensures NodeOf(hosts, l) == NumNodes(hosts) && GroupSize(hosts, hosts[l]) == LocalOf(hosts, l) + 1
    ensures forall h :: h in hosts ==> h == hosts[l] || Below(h, hosts[l])
  {
    BelowIrreflexive(hosts[l]);
    forall h | h in hosts ensures h == hosts[l] || Below(h, hosts[l]) {
      var q :| 0 <= q < |hosts| && hosts[q] == h;
      assert q != l ==> Precedes(hosts, q, l);
    }
    assert (set h | h in hosts) == HostsBelow(hosts, hosts[l]) + {hosts[l]};
    forall q: nat | q < |hosts| && hosts[q] == hosts[l] ensures q <= l { assert q != l ==> Precedes(hosts, q, l); }
    assert RanksOn(hosts, hosts[l], |hosts|) == RanksOn(hosts, hosts[l], l) + {l};
  }

  /** A rank's node id, local rank and group size are at most the number of ranks. */
  lemma TopologyBounds(hosts: seq<string>, r: nat)
    requires r < |hosts|
    ensures NodeOf(hosts, r) <= NumNodes(hosts) <= |hosts|
    ensures LocalOf(hosts, r) <= r && GroupSize(hosts, hosts[r]) <= |hosts|
  {
    BelowIrreflexive(hosts[r]);
    var below, all := HostsBelow(hosts, hosts[r]), set h | h in hosts;
    assert hosts[r] in all && hosts[r] !in below && below <= all;
    ProperSubsetSmaller(below, all);
    FewNames(hosts);
    FewRanks(hosts, hosts[r], r);
    FewRanks(hosts, hosts[r], |hosts|);
  }

  lemma {:induction false} FewNames(hosts: seq<string>)
    ensures NumNodes(hosts) <= |hosts|
  {
    if hosts != [] {
      var last := |hosts| - 1;
      FewNames(hosts[..last]);
      assert hosts == hosts[..last] + [hosts[last]];
      assert (set h | h in hosts) == (set h | h in hosts[..last]) + {hosts[last]};
    }
  }

  lemma {:induction false} FewRanks(hosts: seq<string>, h: string, upTo: nat)
    requires upTo <= |hosts|
    ensures |RanksOn(hosts, h, upTo)| <= upTo
  {
    if upTo > 0 {
      FewRanks(hosts, h, upTo - 1);
      assert RanksOn(hosts, h, upTo) <= RanksOn(hosts, h, upTo - 1) + {upTo - 1};
      SubsetAtMost(RanksOn(hosts, h, upTo), RanksOn(hosts, h, upTo - 1) + {upTo - 1});
    }
  }

  lemma SubsetAtMost<T>(a: set<T>, b: set<T>)
    requires a <= b
    ensures |a| <= |b|
  {
    if a != b { ProperSubsetSmaller(a, b); }
  }
}
