/** The list of message sizes a benchmark runs through: geometric, then linear. */
module MessageSizes {
  import opened Wrappers
  import opened Arithmetic
  import opened Bytes

  const LARGE_MESSAGE_SIZE: nat := 8192

  datatype Overflow = Overflow

  function Grow(size: nat, incr: nat): nat {
    if size == 0 then 1 else if size <= LARGE_MESSAGE_SIZE then size * incr else size + incr
  }

  /** The k-th value of `size`, in exact arithmetic. */
  function SizeAt(min: nat, incr: nat, k: nat): nat {
    if k == 0 then min else Grow(SizeAt(min, incr, k - 1), incr)
  }

  /** The guard a caller can check: for these arguments, and no others, the loop ends. */
  predicate Terminates(min: nat, max: nat, incr: nat) {
    min > max || incr >= 2 || (incr == 1 && min > LARGE_MESSAGE_SIZE) || max == 0
  }

  lemma Grows(size: nat, incr: nat)
    requires incr >= 2 || (incr == 1 && size > LARGE_MESSAGE_SIZE) || size == 0
    ensures Grow(size, incr) > size
  {
    if 0 < size <= LARGE_MESSAGE_SIZE {
      MulLe(2, incr, size);
    }
  }

  lemma KeepsGrowing(size: nat, max: nat, incr: nat)
    requires Terminates(size, max, incr) && size <= max
    ensures Grow(size, incr) > size
    ensures Terminates(Grow(size, incr), max, incr)
  {
    Grows(size, incr);
  }

  /** The first values, all within `max`. */
  ghost predicate IsPrefix(min: nat, max: nat, incr: nat, sizes: seq<nat>) {
    && (forall k :: 0 <= k < |sizes| ==> sizes[k] == SizeAt(min, incr, k))
    && (forall k: nat :: k < |sizes| ==> SizeAt(min, incr, k) <= max)
  }

  /** The values before the first one above `max`. */
  ghost predicate IsList(min: nat, max: nat, incr: nat, sizes: seq<nat>) {
    IsPrefix(min, max, incr, sizes) && SizeAt(min, incr, |sizes|) > max
  }

  lemma NextValue(min: nat, max: nat, incr: nat, sizes: seq<nat>, size: nat)
    requires IsPrefix(min, max, incr, sizes) && size == SizeAt(min, incr, |sizes|) <= max && Terminates(size, max, incr)
    ensures IsPrefix(min, max, incr, sizes + [size]) && Grow(size, incr) == SizeAt(min, incr, |sizes + [size]|)
    ensures Grow(size, incr) > size && Terminates(Grow(size, incr), max, incr)
    ensures Grow(size, incr) >= TWO_TO_64 ==> Overflows(min, max, incr, |sizes + [size]|)
  {
    KeepsGrowing(size, max, incr);
    assert IsPrefix(min, max, incr, sizes + [size]);
  }

  /** Growing from the k-th value passes the 64-bit range although all values so far were in range. */
  ghost predicate Overflows(min: nat, max: nat, incr: nat, k: nat) {
    SizeAt(min, incr, k) >= TWO_TO_64 && forall i: nat :: i < k ==> SizeAt(min, incr, i) <= max
  }

  /** `message_sizes`; an overflow of the 64-bit size panics. */
  method MessageSizeList(min: nat, max: nat, incr: nat) returns (res: Result<seq<nat>, Overflow>)
    requires min < TWO_TO_64 && max < TWO_TO_64 && incr < TWO_TO_64
    requires Terminates(min, max, incr)
    ensures res.Ok? ==>
              && IsList(min, max, incr, res.value)
              && (forall k :: 0 <= k < |res.value| ==> res.value[k] == SizeAt(min, incr, k) <= max)
              && max < SizeAt(min, incr, |res.value|) < TWO_TO_64
    ensures res.Err? ==>
              exists k: nat :: SizeAt(min, incr, k) >= TWO_TO_64
                && forall i: nat :: i < k ==> SizeAt(min, incr, i) <= max
  {
    var sizes: seq<nat> := [];
    var size := min;
    while size <= max
      invariant size == SizeAt(min, incr, |sizes|) < TWO_TO_64
      invariant IsPrefix(min, max, incr, sizes)
      invariant Terminates(size, max, incr)
      decreases max + 1 - size
    {
      NextValue(min, max, incr, sizes, size);
      sizes := sizes + [size];
      var grown := Grow(size, incr);
      if grown >= TWO_TO_64 {
        return Err(Overflow);
      }
      size := grown;
    }
    res := Ok(sizes);
  }

  /** The growth rule with its numbers: from zero to one, then by the factor up to 8192 and by the increment
      above. */
  lemma NextSize(min: nat, incr: nat, k: nat)
    ensures SizeAt(min, incr, 0) == min
    ensures var size := SizeAt(min, incr, k);
            SizeAt(min, incr, k + 1) == if size == 0 then 1 else if size <= 8192 then size * incr else size + incr
  {
  }

  lemma {:induction false} AlwaysGrows(min: nat, incr: nat, k: nat)
    requires incr >= 2
    ensures SizeAt(min, incr, k) >= min + k
  {
    if k > 0 {
      AlwaysGrows(min, incr, k - 1);
      Grows(SizeAt(min, incr, k - 1), incr);
    }
  }

  lemma {:induction false} LinearGrows(min: nat, k: nat)
    requires min > LARGE_MESSAGE_SIZE
    ensures SizeAt(min, 1, k) == min + k
  {
    if k > 0 { LinearGrows(min, k - 1); }
  }

  /** Without growth the values stay at the start or circle among 0 and 1. */
  lemma {:induction false} Circles(min: nat, max: nat, incr: nat, k: nat)
    requires !Terminates(min, max, incr)
    ensures SizeAt(min, incr, k) <= max
    ensures SizeAt(min, incr, k) <= 1 || SizeAt(min, incr, k) == min
  {
    if k > 0 { Circles(min, max, incr, k - 1); }
  }

  /** The loop ends exactly for these arguments. */
  lemma EndsIff(min: nat, max: nat, incr: nat)
    ensures (exists k: nat :: SizeAt(min, incr, k) > max) <==> Terminates(min, max, incr)
  {
    if Terminates(min, max, incr) {
      if min > max {
        assert SizeAt(min, incr, 0) > max;
      } else if incr >= 2 {
        AlwaysGrows(min, incr, max + 1);
      } else if incr == 1 && min > LARGE_MESSAGE_SIZE {
        LinearGrows(min, max + 1);
      } else {
        assert SizeAt(min, incr, 0) == 0;
        assert SizeAt(min, incr, 1) > max;
      }
    } else {
      forall k: nat ensures SizeAt(min, incr, k) <= max { Circles(min, max, incr, k); }
    }
  }

  /** The list is strictly increasing, within [min, max], and cannot be continued. */
  lemma {:induction false} Increasing(min: nat, max: nat, incr: nat, sizes: seq<nat>, i: nat, j: nat)
    requires incr >= 2 && IsList(min, max, incr, sizes) && i < j < |sizes|
    ensures min <= sizes[i] < sizes[j] <= max
  {
    AlwaysGrows(min, incr, i);
    Grows(sizes[j - 1], incr);
    if i < j - 1 { Increasing(min, max, incr, sizes, i, j - 1); }
  }

  // ---------------------------------------------------------------- closed form

  function Power(b: nat, k: nat): nat {
    if k == 0 then 1 else b * Power(b, k - 1)
  }

  /** The first power step that passes the cutoff. */
  function Crossing(first: nat, incr: nat): (j: nat)
    requires first >= 1 && incr >= 2
    decreases LARGE_MESSAGE_SIZE + 1 - first
  {
    if first > LARGE_MESSAGE_SIZE then 0
    else (MulLe(2, incr, first); 1 + Crossing(first * incr, incr))
  }

  /** Geometric up to and including the first value above the cutoff, then an arithmetic progression. */
  function Closed(first: nat, incr: nat, k: nat): nat
    requires first >= 1 && incr >= 2
  {
    var j := Crossing(first, incr);
    if k <= j then first * Power(incr, k) else first * Power(incr, j) + (k - j) * incr
  }

  lemma {:induction false} ShiftStart(min: nat, incr: nat, k: nat)
    ensures SizeAt(Grow(min, incr), incr, k) == SizeAt(min, incr, k + 1)
  {
    if k > 0 { ShiftStart(min, incr, k - 1); }
  }

  lemma {:induction false} LinearPart(first: nat, incr: nat, k: nat)
    requires first > LARGE_MESSAGE_SIZE
    ensures SizeAt(first, incr, k) == first + k * incr
  {
    if k > 0 { LinearPart(first, incr, k - 1); MulSucc(k - 1, incr); }
  }

  lemma {:induction false} ClosedForm(first: nat, incr: nat, k: nat)
    requires first >= 1 && incr >= 2
    ensures SizeAt(first, incr, k) == Closed(first, incr, k)
    decreases k
  {
    if first > LARGE_MESSAGE_SIZE {
      LinearPart(first, incr, k);
    } else if k > 0 {
      MulLe(2, incr, first);
      ClosedForm(first * incr, incr, k - 1);
      ShiftStart(first, incr, k - 1);
      ShiftClosed(first, incr, k);
    }
  }

  lemma ShiftClosed(first: nat, incr: nat, k: nat)
    requires 1 <= first <= LARGE_MESSAGE_SIZE && incr >= 2 && k > 0
    ensures first * incr >= 1 && Closed(first * incr, incr, k - 1) == Closed(first, incr, k)
  {
    MulLe(2, incr, first);
    var j := Crossing(first, incr);
    MulAssoc(first, incr, Power(incr, k - 1));
    MulAssoc(first, incr, Power(incr, j - 1));
  }

  /** A zero minimum contributes itself and then starts at one. */
  lemma ZeroStart(incr: nat, k: nat)
    requires incr >= 2 && k >= 1
    ensures SizeAt(0, incr, k) == Closed(1, incr, k - 1)
  {
    ShiftStart(0, incr, k - 1);
    ClosedForm(1, incr, k - 1);
  }

  lemma {:induction false} CrossingBound(first: nat, incr: nat, n: nat)
    requires first >= 1 && incr >= 2 && first * Power(2, n) > LARGE_MESSAGE_SIZE
    ensures Crossing(first, incr) <= n
    decreases n
  {
    if n == 0 {
      assert Power(2, 0) == 1;
    } else if first <= LARGE_MESSAGE_SIZE {
      MulLe(2, incr, first);
      MulAssoc(first, 2, Power(2, n - 1));
      MulLe(first * 2, first * incr, Power(2, n - 1));
      CrossingBound(first * incr, incr, n - 1);
    }
  }

  /** At most 14 geometric steps, and one linear step for each `incr` of the remaining distance. */
  lemma LengthBound(first: nat, max: nat, incr: nat, sizes: seq<nat>)
    requires first >= 1 && incr >= 2 && IsList(first, max, incr, sizes)
    ensures Crossing(first, incr) <= 14
    ensures var j := Crossing(first, incr);
            var large := first * Power(incr, j);
            if max < large then |sizes| <= j else |sizes| == j + (max - large) / incr + 1
  {
    var j := Crossing(first, incr);
    var large := first * Power(incr, j);
    FourteenDoublings();
    MulLe(1, first, Power(2, 14));
    CrossingBound(first, incr, 14);
    if max < large {
      ClosedForm(first, incr, j);
    } else {
      LinearLength(first, max, incr, sizes);
    }
  }

  /** Behind a zero minimum comes the list from one. */
  lemma ZeroTail(max: nat, incr: nat, sizes: seq<nat>)
    requires IsList(0, max, incr, sizes)
    ensures sizes != [] && sizes[0] == 0 && IsList(1, max, incr, sizes[1..])
  {
    assert SizeAt(0, incr, 0) == 0;
    forall k: nat ensures SizeAt(1, incr, k) == SizeAt(0, incr, k + 1) { ShiftStart(0, incr, k); }
  }

  /** A zero minimum adds one to the length of the list from one. */
  lemma ZeroLengthBound(max: nat, incr: nat, sizes: seq<nat>)
    requires incr >= 2 && IsList(0, max, incr, sizes)
    ensures var j := Crossing(1, incr);
            var large := Power(incr, j);
            if max < large then |sizes| <= 1 + j else |sizes| == 1 + j + (max - large) / incr + 1
  {
    ZeroTail(max, incr, sizes);
    LengthBound(1, max, incr, sizes[1..]);
  }

  lemma FourteenDoublings()
    ensures Power(2, 14) == 16384
  {
    assert Power(2, 7) == 128;
    assert Power(2, 10) == 8 * Power(2, 7);
    assert Power(2, 14) == 16 * Power(2, 10);
  }

  lemma LinearLength(first: nat, max: nat, incr: nat, sizes: seq<nat>)
    requires first >= 1 && incr >= 2 && IsList(first, max, incr, sizes)
    requires Large(first, incr) <= max
    ensures |sizes| == Crossing(first, incr) + (max - Large(first, incr)) / incr + 1
  {
    var d := (max - Large(first, incr)) / incr;
    Quotient(max - Large(first, incr), incr);
    LastLinear(first, max, incr, d);
    ListLength(first, max, incr, sizes, Crossing(first, incr) + d);
  }

  /** The first value above the cutoff. */
  function Large(first: nat, incr: nat): nat
    requires first >= 1 && incr >= 2
  {
    first * Power(incr, Crossing(first, incr))
  }

  lemma Quotient(x: nat, incr: nat)
    requires incr >= 2
    ensures (x / incr) * incr <= x < (x / incr + 1) * incr
  {
    MulSucc(x / incr, incr);
  }

  lemma LastLinear(first: nat, max: nat, incr: nat, d: nat)
    requires first >= 1 && incr >= 2
    requires Large(first, incr) + d * incr <= max < Large(first, incr) + (d + 1) * incr
    ensures SizeAt(first, incr, Crossing(first, incr) + d) <= max < SizeAt(first, incr, Crossing(first, incr) + d + 1)
  {
    var j := Crossing(first, incr);
    ClosedForm(first, incr, j + d);
    ClosedForm(first, incr, j + d + 1);
    if d == 0 { assert Closed(first, incr, j) == Large(first, incr); }
  }

  lemma ListLength(first: nat, max: nat, incr: nat, sizes: seq<nat>, last: nat)
    requires incr >= 2 && IsList(first, max, incr, sizes)
    requires SizeAt(first, incr, last) <= max < SizeAt(first, incr, last + 1)
    ensures |sizes| == last + 1
  {
    if |sizes| <= last { Monotone(first, incr, |sizes|, last); }
  }

  lemma {:induction false} Monotone(first: nat, incr: nat, i: nat, k: nat)
    requires incr >= 2 && i <= k
    ensures SizeAt(first, incr, i) <= SizeAt(first, incr, k)
  {
    if i < k {
      Monotone(first, incr, i, k - 1);
      Grows(SizeAt(first, incr, k - 1), incr);
    }
  }
}
