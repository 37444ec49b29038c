/** The one-sided atomics benchmarks: chunked operations, all on the same remote 64-bit word. */
module Atomics {
  import opened Arithmetic
  import opened Bytes
  import opened LittleEndian
  import opened Chunks

  /** The remote word and the operations the transport performs on it. */
  class RemoteWord {
    var value: nat

    ghost predicate Valid()
      reads this
    {
      value < TWO_TO_64
    }

    constructor (value: nat)
      requires value < TWO_TO_64
      ensures Valid() && this.value == value
    {
      this.value := value;
    }

    method AmoFadd64(operand: nat) returns (reply: nat)
      requires Valid()
      modifies this
      ensures Valid() && reply == old(value) && value == (old(value) + operand) % TWO_TO_64
    {
      reply := value;
      value := (value + operand) % TWO_TO_64;
    }

    method AmoAdd64(operand: nat)
      requires Valid()
      modifies this
      ensures Valid() && value == (old(value) + operand) % TWO_TO_64
    {
      value := (value + operand) % TWO_TO_64;
    }

    method AmoCswap64(expected: nat, replacement: nat)
      requires Valid() && replacement < TWO_TO_64
      modifies this
      ensures Valid() && value == if old(value) == expected then replacement else old(value)
    {
      if value == expected {
        value := replacement;
      }
    }
  }

  /** The first `upTo` places of `dst` hold reply bytes, the others what they held before. */
  ghost predicate Replied(dst: Buffer, was: Buffer, v: nat, buf: Buffer, upTo: nat) {
    |dst| == |was| && forall x :: 0 <= x < |dst| ==>
      dst[x] == if x < upTo && x < |buf| then ReplyByte(v, buf, x) else was[x]
  }

  /** Fetch-and-add of a buffer, chunk by chunk, keeping the replies. */
  method DoGetAcc(word: RemoteWord, sendBuf: Buffer, compareBuf: array<byte>)
    requires word.Valid()
    requires compareBuf.Length >= if |sendBuf| <= 8 then |sendBuf| else |sendBuf| / 8 * 8
    modifies word, compareBuf
    ensures word.Valid() && word.value == Running(old(word.value), Words(sendBuf), ChunkCount(sendBuf))
    ensures forall x :: 0 <= x < compareBuf.Length ==>
              compareBuf[x] == if x < |sendBuf| then ToLe(Running(old(word.value), Words(sendBuf), x / 8), 8)[x % 8]
                               else old(compareBuf[x])
  {
    ghost var was := word.value;
    ghost var ws := Words(sendBuf);
    RunningStart(was, ws);
    if sendBuf == [] {
      return;
    }
    if |sendBuf| <= 8 {
      ShortStep(was, sendBuf);
      var reply := word.AmoFadd64(Padded(sendBuf));
      StoreReply(compareBuf, 0, reply, |sendBuf|, was, sendBuf, old(compareBuf[..]));
    } else {
      var chunkCount := |sendBuf| / 8;
      var remainderOffset := chunkCount * 8;
      GetAccFullChunks(word, sendBuf, compareBuf);
      TailChunk(sendBuf);
      if remainderOffset < |sendBuf| {
        GetAccRemainder(word, sendBuf, compareBuf, was, old(compareBuf[..]));
      }
    }
  }

  /** The loop over the full chunks of a longer buffer. */
  method GetAccFullChunks(word: RemoteWord, sendBuf: Buffer, compareBuf: array<byte>)
    requires word.Valid() && compareBuf.Length >= |sendBuf| / 8 * 8
    modifies word, compareBuf
    ensures word.Valid() && word.value == Running(old(word.value), Words(sendBuf), |sendBuf| / 8)
    ensures Replied(compareBuf[..], old(compareBuf[..]), old(word.value), sendBuf, |sendBuf| / 8 * 8)
  {
    ghost var was := word.value;
    RunningStart(was, Words(sendBuf));
    for i := 0 to |sendBuf| / 8
      invariant word.Valid() && word.value == Running(was, Words(sendBuf), i)
      invariant Replied(compareBuf[..], old(compareBuf[..]), was, sendBuf, 8 * i)
    {
      FullChunkStep(was, sendBuf, i);
      var reply := word.AmoFadd64(FromLe(sendBuf[8 * i..8 * i + 8]));
      StoreReply(compareBuf, i, reply, 8, was, sendBuf, old(compareBuf[..]));
    }
  }

  /** The last, partial chunk; the compare buffer may be shorter than it, even end before it. */
  method GetAccRemainder(word: RemoteWord, sendBuf: Buffer, compareBuf: array<byte>, ghost was: nat,
                         ghost before: Buffer)
    requires |sendBuf| % 8 != 0 && word.Valid() && word.value == Running(was, Words(sendBuf), |sendBuf| / 8)
    requires compareBuf.Length >= |sendBuf| / 8 * 8
    requires Replied(compareBuf[..], before, was, sendBuf, |sendBuf| / 8 * 8)
    modifies word, compareBuf
    ensures word.Valid() && word.value == Running(was, Words(sendBuf), ChunkCount(sendBuf))
    ensures Replied(compareBuf[..], before, was, sendBuf, |sendBuf|)
  {
    var reply := AddRemainder(word, sendBuf, was);
    var remainderOffset := |sendBuf| / 8 * 8;
    var room := compareBuf.Length - remainderOffset;
    if room > 0 {
      StoreReply(compareBuf, |sendBuf| / 8, reply, Min(|sendBuf| - remainderOffset, room), was, sendBuf, before);
    }
  }

  method AddRemainder(word: RemoteWord, sendBuf: Buffer, ghost was: nat) returns (reply: nat)
    requires |sendBuf| % 8 != 0 && word.Valid() && word.value == Running(was, Words(sendBuf), |sendBuf| / 8)
    modifies word
    ensures word.Valid() && word.value == Running(was, Words(sendBuf), ChunkCount(sendBuf))
    ensures |sendBuf| / 8 < ChunkCount(sendBuf) && reply == Running(was, Words(sendBuf), |sendBuf| / 8)
  {
    TailStep(was, sendBuf);
    TailChunk(sendBuf);
    reply := word.AmoFadd64(Padded(sendBuf[|sendBuf| / 8 * 8..]));
  }

  /** The first `n` bytes of the reply to chunk i, as many as the chunk and the buffer have room for. */
  method StoreReply(dst: array<byte>, i: nat, reply: nat, n: nat, ghost was: nat, ghost buf: Buffer,
                    ghost before: Buffer)
    requires i < ChunkCount(buf) && reply == Running(was, Words(buf), i)
    requires n <= 8 && 8 * i + n <= dst.Length && 8 * i + n <= |buf|
    requires n == 8 || 8 * i + n == dst.Length || 8 * i + n == |buf|
    requires Replied(dst[..], before, was, buf, 8 * i)
    modifies dst
    ensures Replied(dst[..], before, was, buf, 8 * i + n)
    ensures n < 8 ==> Replied(dst[..], before, was, buf, |buf|)
  {
    var bytes := ToLe(reply, 8);
    forall k | 0 <= k < n {
      dst[8 * i + k] := bytes[k];
    }
    forall x | 8 * i <= x < 8 * i + n ensures dst[x] == ReplyByte(was, buf, x) {
      assert x / 8 == i && x % 8 == x - 8 * i;
    }
  }

  method DoAccumulate(word: RemoteWord, buf: Buffer)
    requires word.Valid()
    modifies word
    ensures word.Valid() && word.value == Running(old(word.value), Words(buf), ChunkCount(buf))
  {
    ghost var was := word.value;
    RunningStart(was, Words(buf));
    if buf == [] {
      return;
    }
    if |buf| <= 8 {
      ShortStep(was, buf);
      word.AmoAdd64(Padded(buf));
    } else {
      DoAccumulateFullChunks(word, buf);
      DoAccumulateRemainder(word, buf, was);
    }
  }

  /** The last, partial chunk, if there is one. */
  method DoAccumulateRemainder(word: RemoteWord, buf: Buffer, ghost was: nat)
    requires |buf| > 8 && word.Valid() && word.value == Running(was, Words(buf), |buf| / 8)
    modifies word
    ensures word.Valid() && word.value == Running(was, Words(buf), ChunkCount(buf))
  {
    var remainder := buf[|buf| / 8 * 8..];
    TailStep(was, buf);
    if remainder != [] {
      word.AmoAdd64(Padded(remainder));
    }
  }

  /** The loop over the full chunks of a longer buffer. */
  method DoAccumulateFullChunks(word: RemoteWord, buf: Buffer)
    requires word.Valid()
    modifies word
    ensures word.Valid() && word.value == Running(old(word.value), Words(buf), |buf| / 8)
  {
    ghost var was := word.value;
    RunningStart(was, Words(buf));
    for i := 0 to |buf| / 8
      invariant word.Valid() && word.value == Running(was, Words(buf), i)
    {
      FullChunkStep(was, buf, i);
      word.AmoAdd64(FromLe(buf[8 * i..8 * i + 8]));
    }
  }

  /** Fetch-and-add with the replies discarded. */
  method DoFop(word: RemoteWord, buf: Buffer)
    requires word.Valid()
    modifies word
    ensures word.Valid() && word.value == Running(old(word.value), Words(buf), ChunkCount(buf))
  {
    ghost var was := word.value;
    RunningStart(was, Words(buf));
    if buf == [] {
      return;
    }
    if |buf| <= 8 {
      ShortStep(was, buf);
      var _ := word.AmoFadd64(Padded(buf));
    } else {
      DoFopFullChunks(word, buf);
      DoFopRemainder(word, buf, was);
    }
  }

  /** The last, partial chunk, if there is one. */
  method DoFopRemainder(word: RemoteWord, buf: Buffer, ghost was: nat)
    requires |buf| > 8 && word.Valid() && word.value == Running(was, Words(buf), |buf| / 8)
    modifies word
    ensures word.Valid() && word.value == Running(was, Words(buf), ChunkCount(buf))
  {
    var remainder := buf[|buf| / 8 * 8..];
    TailStep(was, buf);
    if remainder != [] {
      var _ := word.AmoFadd64(Padded(remainder));
    }
  }

  /** The loop over the full chunks of a longer buffer. */
  method DoFopFullChunks(word: RemoteWord, buf: Buffer)
    requires word.Valid()
    modifies word
    ensures word.Valid() && word.value == Running(old(word.value), Words(buf), |buf| / 8)
  {
    ghost var was := word.value;
    RunningStart(was, Words(buf));
    for i := 0 to |buf| / 8
      invariant word.Valid() && word.value == Running(was, Words(buf), i)
    {
      FullChunkStep(was, buf, i);
      var _ := word.AmoFadd64(FromLe(buf[8 * i..8 * i + 8]));
    }
  }

  // ---------------------------------------------------------------- compare-and-swap chains

  datatype Swap = Swap(expected: nat, replacement: nat)

  function Cas(v: nat, s: Swap): nat {
    if v == s.expected then s.replacement else v
  }

  function CasChain(v: nat, swaps: seq<Swap>): nat
    decreases |swaps|
  {
    if swaps == [] then v else Cas(CasChain(v, swaps[..|swaps| - 1]), swaps[|swaps| - 1])
  }

  function FullSwaps(replacement: Buffer, expected: Buffer, n: nat): (s: seq<Swap>)
    requires 8 * n <= |replacement| && 8 * n <= |expected|
    ensures |s| == n
  {
    seq(n, i requires 0 <= i < n => Swap(FromLe(expected[8 * i..8 * i + 8]), FromLe(replacement[8 * i..8 * i + 8])))
  }

  /** The swaps one call performs: one padded pair for a short buffer; else the full chunks both
      buffers have, then one padded pair if either has a remainder. */
  function Swaps(replacement: Buffer, expected: Buffer): (s: seq<Swap>)
    requires 0 < |replacement| <= 8 ==> |expected| <= 8
  {
    if replacement == [] then []
    else if |replacement| <= 8 then [Swap(Padded(expected), Padded(replacement))]
    else
      var n := if |replacement| <= |expected| then |replacement| / 8 else |expected| / 8;
      FullSwaps(replacement, expected, n)
      + if |replacement| % 8 == 0 && |expected| % 8 == 0 then []
        else [Swap(Padded(expected[|expected| / 8 * 8..]), Padded(replacement[|replacement| / 8 * 8..]))]
  }

  /** The swaps of a call with a short replacement: at most one. */
  lemma ShortSwap(replacement: Buffer, expected: Buffer)
    requires |replacement| <= 8 && (replacement != [] ==> |expected| <= 8)
    ensures Swaps(replacement, expected) ==
              if replacement == [] then [] else [Swap(FromLe(expected), FromLe(replacement))]
  {
    if replacement != [] {
      PaddedValue(expected);
      PaddedValue(replacement);
    }
  }

  /** Of a longer one: every full chunk both buffers have and, if either is no whole number of chunks, the
      remainders of both. */
  lemma LongSwap(replacement: Buffer, expected: Buffer, i: nat)
    requires |replacement| > 8
    ensures var swaps, n := Swaps(replacement, expected), Min(|replacement|, |expected|) / 8;
            && |swaps| == n + (if |replacement| % 8 == 0 && |expected| % 8 == 0 then 0 else 1)
            && (i < n ==> swaps[i] == Swap(FromLe(expected[8 * i..8 * i + 8]), FromLe(replacement[8 * i..8 * i + 8])))
  {
  }

  lemma LastSwap(replacement: Buffer, expected: Buffer)
    requires |replacement| > 8 && (|replacement| % 8 != 0 || |expected| % 8 != 0)
    ensures var swaps, n := Swaps(replacement, expected), Min(|replacement|, |expected|) / 8;
            n < |swaps| && swaps[n] == Swap(FromLe(expected[|expected| / 8 * 8..]),
                                            FromLe(replacement[|replacement| / 8 * 8..]))
  {
    LongSwap(replacement, expected, 0);
    PaddedValue(expected[|expected| / 8 * 8..]);
    PaddedValue(replacement[|replacement| / 8 * 8..]);
  }

  lemma ChainAppend(v: nat, swaps: seq<Swap>, s: Swap)
    ensures CasChain(v, swaps + [s]) == Cas(CasChain(v, swaps), s)
  {
    assert (swaps + [s])[..|swaps|] == swaps;
  }

  lemma NextSwap(v: nat, replacement: Buffer, expected: Buffer, i: nat)
    requires 8 * i + 8 <= |replacement| && 8 * i + 8 <= |expected|
    ensures FromLe(replacement[8 * i..8 * i + 8]) < TWO_TO_64
    ensures CasChain(v, FullSwaps(replacement, expected, i + 1)) ==
            Cas(CasChain(v, FullSwaps(replacement, expected, i)),
                Swap(FromLe(expected[8 * i..8 * i + 8]), FromLe(replacement[8 * i..8 * i + 8])))
  {
    U64Bound(replacement[8 * i..8 * i + 8]);
    var s := Swap(FromLe(expected[8 * i..8 * i + 8]), FromLe(replacement[8 * i..8 * i + 8]));
    assert FullSwaps(replacement, expected, i + 1) == FullSwaps(replacement, expected, i) + [s];
    ChainAppend(v, FullSwaps(replacement, expected, i), s);
  }

  method DoCas(word: RemoteWord, replacement: Buffer, expected: Buffer)
    requires word.Valid()
    requires 0 < |replacement| <= 8 ==> |expected| <= 8
    modifies word
    ensures word.Valid() && word.value == CasChain(old(word.value), Swaps(replacement, expected))
  {
    ghost var was := word.value;
    ghost var all := Swaps(replacement, expected);
    if replacement == [] {
      return;
    }
    if |replacement| <= 8 {
      word.AmoCswap64(Padded(expected), Padded(replacement));
      assert all[..0] == [];
    } else {
      var n := if |replacement| <= |expected| then |replacement| / 8 else |expected| / 8;
      for i := 0 to n
        invariant word.Valid() && word.value == CasChain(was, FullSwaps(replacement, expected, i))
      {
        NextSwap(was, replacement, expected, i);
        word.AmoCswap64(FromLe(expected[8 * i..8 * i + 8]), FromLe(replacement[8 * i..8 * i + 8]));
      }
      var repRem, expRem := replacement[|replacement| / 8 * 8..], expected[|expected| / 8 * 8..];
      if repRem != [] || expRem != [] {
        ChainAppend(was, FullSwaps(replacement, expected, n), Swap(Padded(expRem), Padded(repRem)));
        word.AmoCswap64(Padded(expRem), Padded(repRem));
      } else {
        assert all == FullSwaps(replacement, expected, n);
      }
    }
  }

  /** The first replacement that differs from e. */
  function FirstOther(swaps: seq<Swap>, e: nat): nat {
    if swaps == [] then e
    else if swaps[0].replacement != e then swaps[0].replacement
    else FirstOther(swaps[1..], e)
  }

  ghost predicate AllExpect(swaps: seq<Swap>, e: nat) {
    forall i :: 0 <= i < |swaps| ==> swaps[i].expected == e
  }

  lemma {:induction false} ChainFromFront(v: nat, swaps: seq<Swap>)
    requires swaps != []
    ensures CasChain(v, swaps) == CasChain(Cas(v, swaps[0]), swaps[1..])
    decreases |swaps|
  {
    var last := |swaps| - 1;
    if last == 0 {
      assert swaps[..0] == [] && swaps[1..] == [];
    } else {
      ChainFromFront(v, swaps[..last]);
      assert swaps[..last][1..] == swaps[1..][..last - 1];
    }
  }

  /** When every chunk expects the same value e, a call changes the word at most once: from e to the
      first replacement that is not e. */
  lemma {:induction false} UniformChain(v: nat, swaps: seq<Swap>, e: nat)
    requires AllExpect(swaps, e)
    ensures CasChain(v, swaps) == if v == e then FirstOther(swaps, e) else v
    decreases |swaps|
  {
    if swaps != [] {
      ChainFromFront(v, swaps);
      UniformChain(Cas(v, swaps[0]), swaps[1..], e);
    }
  }

  /** So repeating the call changes nothing. */
  lemma SecondCallNoOp(v: nat, swaps: seq<Swap>, e: nat)
    requires AllExpect(swaps, e)
    ensures CasChain(CasChain(v, swaps), swaps) == CasChain(v, swaps)
  {
    UniformChain(v, swaps, e);
    UniformChain(CasChain(v, swaps), swaps, e);
  }

  /** The result is the old word or some replacement, and the old word if no chunk expects it. */
  lemma {:induction false} ChainResult(v: nat, swaps: seq<Swap>)
    ensures CasChain(v, swaps) == v || exists i :: 0 <= i < |swaps| && CasChain(v, swaps) == swaps[i].replacement
    ensures (forall i :: 0 <= i < |swaps| ==> swaps[i].expected != v) ==> CasChain(v, swaps) == v
    decreases |swaps|
  {
    if swaps != [] { ChainResult(v, swaps[..|swaps| - 1]); }
  }

  lemma {:induction false} ZerosValue(n: nat)
    ensures FromLe(Zeros(n)) == 0
  {
    if n > 0 {
      assert Zeros(n)[1..] == Zeros(n - 1);
      ZerosValue(n - 1);
    }
  }

  /** The benchmark compares with a zero buffer as long as the replacement. */
  lemma BenchmarkExpectsZero(replacement: Buffer)
    ensures AllExpect(Swaps(replacement, Zeros(|replacement|)), 0)
  {
    var expected := Zeros(|replacement|);
    forall i | 0 <= i < |Swaps(replacement, expected)| ensures Swaps(replacement, expected)[i].expected == 0 {
      ExpectedZero(replacement, i);
    }
  }

  lemma ExpectedZero(replacement: Buffer, i: nat)
    requires i < |Swaps(replacement, Zeros(|replacement|))|
    ensures Swaps(replacement, Zeros(|replacement|))[i].expected == 0
  {
    TailChunk(replacement);
    if replacement != [] {
      SwapsAreWords(replacement, Zeros(|replacement|), i);
      ZeroWord(|replacement|, i);
    }
  }

  lemma ZeroWord(n: nat, i: nat)
    requires i < ChunkCount(Zeros(n))
    ensures Words(Zeros(n))[i] == 0
  {
    var c := Chunk(Zeros(n), i);
    assert c == Zeros(|c|);
    PadValue(c, 8 - |c|);
    ZerosValue(|c|);
  }

  /** The words a call chains are those of the two buffers, chunk by chunk. */
  lemma SwapsAreWords(replacement: Buffer, expected: Buffer, i: nat)
    requires |replacement| == |expected| && i < ChunkCount(replacement)
    ensures |Swaps(replacement, expected)| == ChunkCount(replacement)
    ensures Swaps(replacement, expected)[i] == Swap(Words(expected)[i], Words(replacement)[i])
  {
    TailChunk(replacement);
    TailChunk(expected);
    if |replacement| <= 8 {
      ShortBuffer(replacement);
      ShortBuffer(expected);
    } else {
      LongSwaps(replacement, expected, i);
    }
  }

  lemma LongSwaps(replacement: Buffer, expected: Buffer, i: nat)
    requires |replacement| == |expected| > 8 && i < ChunkCount(replacement)
    ensures |Swaps(replacement, expected)| == ChunkCount(replacement)
    ensures Swaps(replacement, expected)[i] == Swap(Words(expected)[i], Words(replacement)[i])
  {
    var n := |replacement| / 8;
    TailChunk(replacement);
    TailChunk(expected);
    SwapsSplit(replacement, expected);
    if i < n { FullSwapAt(replacement, expected, n, i); }
  }

  /** For longer buffers of equal length: the full chunks, then the tails if there are any. */
  lemma SwapsSplit(replacement: Buffer, expected: Buffer)
    requires |replacement| == |expected| > 8
    ensures var n := |replacement| / 8;
            Swaps(replacement, expected) == FullSwaps(replacement, expected, n)
              + if |replacement| % 8 == 0 then [] else [Swap(Padded(expected[n * 8..]), Padded(replacement[n * 8..]))]
  {
  }

  lemma FullSwapAt(replacement: Buffer, expected: Buffer, n: nat, i: nat)
    requires 8 * n <= |replacement| && 8 * n <= |expected| && i < n
    ensures FullSwaps(replacement, expected, n)[i] == Swap(Words(expected)[i], Words(replacement)[i])
  {
    FullChunk(replacement, i);
    FullChunk(expected, i);
  }
}
