/** The messages of a windowed benchmark in sending order: a window of each size, size after size. */
module SizeStream {
  import opened Arithmetic

  /** The sizes of the first n messages. */
  function Stream(sizes: seq<nat>, window: nat, n: nat): (ms: seq<nat>)
    requires n <= |sizes| * window
    ensures |ms| == n
  {
    seq(n, i requires 0 <= i < n => SizeAt(sizes, window, i))
  }

  function SizeAt(sizes: seq<nat>, window: nat, i: nat): nat
    requires i < |sizes| * window
  {
    InStream(sizes, window, i);
    sizes[i / window]
  }

  lemma InStream(sizes: seq<nat>, window: nat, i: nat)
    requires i < |sizes| * window
    ensures window > 0 && 0 <= i / window < |sizes|
  {
    if window > 0 && i / window >= |sizes| {
      MulLe(|sizes|, i / window, window);
    }
  }

  /** Message j of window k has the k-th size. */
  lemma StreamAt(sizes: seq<nat>, window: nat, n: nat, k: nat, j: nat)
    requires n <= |sizes| * window && j < window && 0 <= k * window + j < n
    ensures k < |sizes| && Stream(sizes, window, n)[k * window + j] == sizes[k]
  {
    InStream(sizes, window, k * window + j);
    DivModUnique(k * window + j, window, k, j);
  }

  lemma StreamStep(sizes: seq<nat>, window: nat, k: nat, j: nat)
    requires j < window && k < |sizes|
    ensures 0 <= k * window + j && k * window + j + 1 <= |sizes| * window
    ensures Stream(sizes, window, k * window + j + 1) == Stream(sizes, window, k * window + j) + [sizes[k]]
  {
    MulSucc(k, window);
    MulLe(k + 1, |sizes|, window);
    StreamAt(sizes, window, k * window + j + 1, k, j);
  }
}
