/** A byte buffer as little-endian 64-bit words, the last one zero-padded, and running totals. */
module Chunks {
  import opened Bytes
  import opened LittleEndian
  import opened Sums
  import opened Arithmetic

  function ChunkCount(buf: Buffer): nat { (|buf| + 7) / 8 }

  function Chunk(buf: Buffer, i: nat): (c: Buffer)
    requires i < ChunkCount(buf)
    ensures 0 < |c| <= 8
    ensures 8 * i + 8 <= |buf| ==> |c| == 8
  {
    if 8 * i + 8 <= |buf| then buf[8 * i..8 * i + 8] else buf[8 * i..]
  }

  /** The value of a chunk of at most eight bytes, zero-padded to eight. */
  function Padded(c: Buffer): (w: nat)
    requires |c| <= 8
    ensures w < TWO_TO_64
  {
    U64Bound(c + Zeros(8 - |c|));
    FromLe(c + Zeros(8 - |c|))
  }

  lemma {:induction false} PaddedValue(c: Buffer)
    requires |c| <= 8
    ensures Padded(c) == FromLe(c)
  {
    PadValue(c, 8 - |c|);
  }

  function Words(buf: Buffer): (ws: seq<int>)
  {
    seq(ChunkCount(buf), i requires 0 <= i < ChunkCount(buf) => Padded(Chunk(buf, i)))
  }

  /** The remote word after the first i additions. */
  function Running(old_: nat, ws: seq<int>, i: nat): (v: nat)
    requires i <= |ws|
    ensures v < TWO_TO_64
  {
    (old_ + Sum(ws[..i])) % TWO_TO_64
  }

  lemma RunningStep(old_: nat, ws: seq<int>, i: nat)
    requires i < |ws|
    ensures Running(old_, ws, i + 1) == (Running(old_, ws, i) + ws[i]) % TWO_TO_64
  {
    assert ws[..i + 1][..i] == ws[..i];
    ModAdd(old_ + Sum(ws[..i]), ws[i], TWO_TO_64);
  }

  lemma RunningStart(old_: nat, ws: seq<int>)
    requires old_ < TWO_TO_64
    ensures Running(old_, ws, 0) == old_
  {
  }

  /** Byte x of the reply stream: chunk x / 8 holds the remote word as it was before that chunk. */
  function ReplyByte(old_: nat, buf: Buffer, x: nat): byte
    requires x < |buf|
  {
    ToLe(Running(old_, Words(buf), x / 8), 8)[x % 8]
  }

  function Replies(old_: nat, buf: Buffer): (r: Buffer)
  {
    seq(|buf|, x requires 0 <= x < |buf| => ReplyByte(old_, buf, x))
  }

  lemma FullReply(old_: nat, buf: Buffer, i: nat)
    requires 8 * i + 8 <= |buf|
    ensures ReplyAt(Replies(old_, buf), i) == Running(old_, Words(buf), i)
  {
    var r := Running(old_, Words(buf), i);
    assert Replies(old_, buf)[8 * i..8 * i + 8] == ToLe(r, 8);
    U64RoundTrip(r);
  }

  /** What a reader of the replies and of the final remote word computes for chunk i. */
  function Recovered(replies: Buffer, final: nat, i: nat): (w: nat)
    requires 8 * i + 8 <= |replies|
  {
    (Next(replies, final, i) - ReplyAt(replies, i)) % TWO_TO_64
  }

  function ReplyAt(replies: Buffer, i: nat): nat
    requires 8 * i + 8 <= |replies|
  {
    FromLe(replies[8 * i..8 * i + 8])
  }

  function Next(replies: Buffer, final: nat, i: nat): nat {
    if 8 * (i + 1) + 8 <= |replies| then ReplyAt(replies, i + 1) else final
  }

  /** The data sent can be read back: a full chunk is the difference of its reply and the next one, or
      of its reply and the final remote word for the last chunk. */
  lemma RepliesRecoverData(old_: nat, buf: Buffer, i: nat)
    requires 8 * i + 16 <= |buf| || 8 * i + 8 == |buf|
    ensures ToLe(Recovered(Replies(old_, buf), Running(old_, Words(buf), ChunkCount(buf)), i), 8) ==
              buf[8 * i..8 * i + 8]
  {
    RecoveredWord(old_, buf, i);
    SentBytes(buf, i);
  }

  lemma RecoveredWord(old_: nat, buf: Buffer, i: nat)
    requires 8 * i + 16 <= |buf| || 8 * i + 8 == |buf|
    ensures Recovered(Replies(old_, buf), Running(old_, Words(buf), ChunkCount(buf)), i) == Words(buf)[i]
  {
    var ws := Words(buf);
    FullReply(old_, buf, i);
    NextIs(old_, buf, i);
    WordRange(buf, i);
    FromDifference(Replies(old_, buf), Running(old_, ws, ChunkCount(buf)), i, old_, ws);
  }

  lemma FromDifference(replies: Buffer, final: nat, i: nat, old_: nat, ws: seq<int>)
    requires 8 * i + 8 <= |replies| && i < |ws| && 0 <= ws[i] < TWO_TO_64
    requires ReplyAt(replies, i) == Running(old_, ws, i) && Next(replies, final, i) == Running(old_, ws, i + 1)
    ensures Recovered(replies, final, i) == ws[i]
  {
    StepUndone(old_, ws, i);
  }

  lemma WordRange(buf: Buffer, i: nat)
    requires i < ChunkCount(buf)
    ensures 0 <= Words(buf)[i] < TWO_TO_64
  {
  }

  lemma NextIs(old_: nat, buf: Buffer, i: nat)
    requires 8 * i + 16 <= |buf| || 8 * i + 8 == |buf|
    ensures Next(Replies(old_, buf), Running(old_, Words(buf), ChunkCount(buf)), i) == Running(old_, Words(buf), i + 1)
  {
    if 8 * i + 16 <= |buf| {
      FullReply(old_, buf, i + 1);
    } else {
      assert ChunkCount(buf) == i + 1;
    }
  }

  lemma StepUndone(old_: nat, ws: seq<int>, i: nat)
    requires i < |ws| && 0 <= ws[i] < TWO_TO_64
    ensures (Running(old_, ws, i + 1) - Running(old_, ws, i)) % TWO_TO_64 == ws[i]
  {
    RunningStep(old_, ws, i);
    Undo(Running(old_, ws, i), ws[i]);
  }

  lemma SentBytes(buf: Buffer, i: nat)
    requires 8 * i + 8 <= |buf|
    ensures Words(buf)[i] >= 0 && ToLe(Words(buf)[i], 8) == buf[8 * i..8 * i + 8]
  {
    FullChunk(buf, i);
    RoundTripBytes(buf[8 * i..8 * i + 8]);
  }

  lemma Undo(a: int, w: int)
    requires 0 <= w < TWO_TO_64
    ensures ((a + w) % TWO_TO_64 - a) % TWO_TO_64 == w
  {
    ModAdd(a + w, -a, TWO_TO_64);
  }

  lemma FullChunk(buf: Buffer, i: nat)
    requires 8 * i + 8 <= |buf|
    ensures Words(buf)[i] == FromLe(buf[8 * i..8 * i + 8])
  {
    PadValue(Chunk(buf, i), 0);
  }

  /** What is left after the full chunks is the last word, if any. */
  lemma TailChunk(buf: Buffer)
    ensures |buf| % 8 == 0 ==> ChunkCount(buf) == |buf| / 8
    ensures |buf| % 8 != 0 ==> ChunkCount(buf) == |buf| / 8 + 1 && Words(buf)[|buf| / 8] == Padded(buf[|buf| / 8 * 8..])
  {
  }

  lemma ShortStep(old_: nat, buf: Buffer)
    requires 0 < |buf| <= 8 && old_ < TWO_TO_64
    ensures ChunkCount(buf) == 1 && Running(old_, Words(buf), 1) == (old_ + Padded(buf)) % TWO_TO_64
  {
    ShortBuffer(buf);
    RunningStep(old_, Words(buf), 0);
  }

  lemma FullChunkStep(old_: nat, buf: Buffer, i: nat)
    requires 8 * i + 8 <= |buf|
    ensures Running(old_, Words(buf), i + 1) ==
            (Running(old_, Words(buf), i) + FromLe(buf[8 * i..8 * i + 8])) % TWO_TO_64
  {
    RunningStep(old_, Words(buf), i);
    FullChunk(buf, i);
  }

  lemma TailStep(old_: nat, buf: Buffer)
    ensures var remainder := buf[|buf| / 8 * 8..];
            if remainder == [] then ChunkCount(buf) == |buf| / 8
            else |remainder| <= 8
                 && Running(old_, Words(buf), ChunkCount(buf)) ==
                    (Running(old_, Words(buf), |buf| / 8) + Padded(remainder)) % TWO_TO_64
  {
    TailChunk(buf);
    if |buf| % 8 != 0 { RunningStep(old_, Words(buf), |buf| / 8); }
  }

  /** Additions may take effect in any order: the final word is the same. */
  lemma AnyOrderSameTotal(old_: nat, ws: seq<int>, order: seq<int>)
    requires multiset(ws) == multiset(order)
    ensures |ws| == |order| && Running(old_, ws, |ws|) == Running(old_, order, |order|)
  {
    assert |ws| == |multiset(ws)| == |multiset(order)| == |order|;
    assert ws[..|ws|] == ws && order[..|order|] == order;
    SumPermutation(ws, order);
  }

  /** A buffer of at most eight bytes is one word: its own value. */
  lemma ShortBuffer(buf: Buffer)
    requires 0 < |buf| <= 8
    ensures ChunkCount(buf) == 1 && Chunk(buf, 0) == buf && Words(buf) == [Padded(buf)]
    ensures Padded(buf) == FromLe(buf)
  {
    assert buf[0..] == buf && (|buf| == 8 ==> buf[0..8] == buf);
    PadValue(buf, 8 - |buf|);
  }
}
