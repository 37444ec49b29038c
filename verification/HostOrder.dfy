/** Ranks in the order of the stable sort by host name. */
module HostOrder {

  /** The strict lexicographic order of `String::cmp`. */
  predicate Below(a: string, b: string) {
    b != [] && (a == [] || a[0] < b[0] || (a[0] == b[0] && Below(a[1..], b[1..])))
  }

  /** The order is lexicographic: the first difference decides, and a proper prefix is less. */
  lemma {:induction false} FirstDifference(p: string, a: char, b: char, x: string, y: string)
    requires a < b
    ensures Below(p + [a] + x, p + [b] + y) && Below(p, p + [b] + y)
  {
    if p != [] {
      FirstDifference(p[1..], a, b, x, y);
      assert (p + [a] + x)[1..] == p[1..] + [a] + x && (p + [b] + y)[1..] == p[1..] + [b] + y;
    }
  }

  lemma {:induction false} BelowTransitive(a: string, b: string, c: string)
    requires Below(a, b) && Below(b, c)
    ensures Below(a, c)
  {
    if a != [] && a[0] == b[0] == c[0] {
      BelowTransitive(a[1..], b[1..], c[1..]);
    }
  }

  lemma {:induction false} BelowIrreflexive(a: string)
    ensures !Below(a, a)
  {
    if a != [] { BelowIrreflexive(a[1..]); }
  }

  /** Exactly one of less, equal, greater. */
  lemma {:induction false} BelowTotal(a: string, b: string)
    ensures Below(a, b) || a == b || Below(b, a)
    ensures !Below(a, a)
    ensures Below(a, b) ==> !Below(b, a)
  {
    BelowIrreflexive(a);
    if a != [] && b != [] && a[0] == b[0] {
      BelowTotal(a[1..], b[1..]);
      assert a == [a[0]] + a[1..] && b == [b[0]] + b[1..];
    }
  }

  /** Rank a comes before rank b: smaller name, or the same name and the smaller rank. */
  predicate Precedes(hosts: seq<string>, a: nat, b: nat) {
    a < |hosts| && b < |hosts| && (Below(hosts[a], hosts[b]) || (hosts[a] == hosts[b] && a < b))
  }

  lemma PrecedesTotal(hosts: seq<string>, a: nat, b: nat)
    requires a < |hosts| && b < |hosts|
    ensures a != b ==> (Precedes(hosts, a, b) <==> !Precedes(hosts, b, a))
    ensures !Precedes(hosts, a, a)
  {
    BelowTotal(hosts[a], hosts[b]);
    BelowTotal(hosts[a], hosts[a]);
  }

  lemma PrecedesTransitive(hosts: seq<string>, a: nat, b: nat, c: nat)
    requires Precedes(hosts, a, b) && Precedes(hosts, b, c)
    ensures Precedes(hosts, a, c)
  {
    if Below(hosts[a], hosts[b]) && Below(hosts[b], hosts[c]) {
      BelowTransitive(hosts[a], hosts[b], hosts[c]);
    }
  }

  ghost predicate InOrder(hosts: seq<string>, order: seq<nat>) {
    forall i, j :: 0 <= i < j < |order| ==> Precedes(hosts, order[i], order[j])
  }

  ghost predicate Lists(order: seq<nat>, n: nat) {
    forall r: nat :: r < n <==> r in order
  }

  /** The order a stable sort by host name puts the ranks in. */
  function SortedRanks(hosts: seq<string>, n: nat): (order: seq<nat>)
    requires n <= |hosts|
    ensures |order| == n && Lists(order, n) && InOrder(hosts, order)
  {
    if n == 0 then [] else
      var before := SortedRanks(hosts, n - 1);
      var i := InsertionPoint(hosts, before, n - 1);
      InsertInOrder(hosts, before, n - 1, i);
      before[..i] + [n - 1] + before[i..]
  }

  function InsertionPoint(hosts: seq<string>, order: seq<nat>, r: nat): (i: nat)
    requires r < |hosts| && InOrder(hosts, order) && (forall x :: x in order ==> x < |hosts| && x != r)
    ensures i <= |order|
    ensures forall j :: 0 <= j < i ==> Precedes(hosts, order[j], r)
    ensures forall j :: i <= j < |order| ==> Precedes(hosts, r, order[j])
  {
    if order == [] then 0 else
      var last := |order| - 1;
      assert order[last] in order;
      PrecedesTotal(hosts, order[last], r);
      assert InOrder(hosts, order[..last]) && forall x :: x in order[..last] ==> x in order;
      if Precedes(hosts, r, order[last]) then InsertionPoint(hosts, order[..last], r) else
      (AllPrecede(hosts, order, r); |order|)
  }

  lemma AllPrecede(hosts: seq<string>, order: seq<nat>, r: nat)
    requires InOrder(hosts, order) && order != [] && Precedes(hosts, order[|order| - 1], r)
    ensures forall j :: 0 <= j < |order| ==> Precedes(hosts, order[j], r)
  {
    forall j | 0 <= j < |order| - 1 ensures Precedes(hosts, order[j], r) {
      PrecedesTransitive(hosts, order[j], order[|order| - 1], r);
    }
  }

  lemma InsertInOrder(hosts: seq<string>, before: seq<nat>, r: nat, i: nat)
    requires i <= |before| && InOrder(hosts, before) && Lists(before, r)
    requires forall j :: 0 <= j < i ==> Precedes(hosts, before[j], r)
    requires forall j :: i <= j < |before| ==> Precedes(hosts, r, before[j])
    ensures Lists(before[..i] + [r] + before[i..], r + 1) && InOrder(hosts, before[..i] + [r] + before[i..])
  {
    var order := before[..i] + [r] + before[i..];
    forall x: nat ensures x < r + 1 <==> x in order {
      if x < r { assert x in before; assert before == before[..i] + before[i..]; }
      if x == r { assert order[i] == r; }
      if x in order && x != r { assert x in before; }
    }
  }

  /** Any list of the ranks sorted by name in which equal names keep their rank order is this one, so
      it does not matter how the library sorts. */
  lemma {:induction false} StableSortUnique(hosts: seq<string>, a: seq<nat>, b: seq<nat>)
    requires |a| == |b| && InOrder(hosts, a) && InOrder(hosts, b)
    requires forall x: nat :: x in a <==> x in b
    ensures a == b
  {
    if a != [] {
      var last := |a| - 1;
      if a[last] != b[last] {
        assert a[last] in b && b[last] in a;
        var i :| 0 <= i < |b| && b[i] == a[last];
        var j :| 0 <= j < |a| && a[j] == b[last];
        assert Precedes(hosts, b[i], b[last]) && Precedes(hosts, a[j], a[last]);
        PrecedesTotal(hosts, a[last], b[last]);
        assert false;
      }
      forall x: nat ensures x in a[..last] <==> x in b[..last] {
        NotAgain(hosts, a, x);
        NotAgain(hosts, b, x);
      }
      StableSortUnique(hosts, a[..last], b[..last]);
      assert a == a[..last] + [a[last]] && b == b[..last] + [b[last]];
    }
  }

  lemma NotAgain(hosts: seq<string>, a: seq<nat>, x: nat)
    requires InOrder(hosts, a) && a != []
    ensures x in a[..|a| - 1] <==> x in a && x != a[|a| - 1]
  {
    var last := |a| - 1;
    assert a == a[..last] + [a[last]];
    if x in a[..last] && x == a[last] {
      var i :| 0 <= i < last && a[i] == x;
      assert Precedes(hosts, a[i], a[last]);
      PrecedesTotal(hosts, x, x);
      assert false;
    }
  }
}
