/** `bcast` and `scatter` in a run: from the root's messages to the receivers' buffers. */
module RootResults {
  import opened Bytes
  import opened CollectiveBlocking
  import opened RootStream
  import opened RootDirected

  /** A receiver's buffer after its call: the message in front, what was there behind it. */
  ghost predicate FrontReplaced(buf: Buffer, was: Buffer, data: Buffer) {
    |data| <= |buf| == |was| && buf[..|data|] == data && buf[|data|..] == was[|data|..]
  }

  /** Call k of a receiver leaves the root's round-k payload in its buffer, in every run. */
  lemma BcastInRun(n: nat, root: nat, rounds: nat, payload: nat -> Buffer, es: seq<Event>, r: nat, k: nat, buf: Buffer,
                   was: Buffer)
    requires n >= 2 && root < n && r < n && r != root && IsRun(Broadcasts(n, root, rounds, payload), es)
    requires k < |After(Broadcasts(n, root, rounds, payload), es).ranks[r].results|
    requires FrontReplaced(buf, was, After(Broadcasts(n, root, rounds, payload), es).ranks[r].results[k])
    ensures |payload(k)| <= |buf| && buf[..|payload(k)|] == payload(k) && buf[|payload(k)|..] == was[|payload(k)|..]
  {
    BroadcastStream(n, root, rounds, payload, es, r);
  }

  /** The messages of the root's round-k call are those of round k of the machine. */
  lemma ScatterMessages(n: nat, root: nat, rounds: nat, w: nat, sendbuf: nat -> Buffer, k: nat, r: nat, data: Buffer)
    requires n >= 2 && root < n && r < n && r != root
    ensures Outgoing(r, data) in Chunks(root, sendbuf(k), w, n) <==>
              var c := Scatters(n, root, rounds, w, sendbuf); c.sends(k, r) && c.payload(k, r) == data
  {
    ChunksReach(root, sendbuf(k), w, n, Outgoing(r, data));
  }

  lemma OwnChunk(n: nat, root: nat, rounds: nat, w: nat, sendbuf: nat -> Buffer, es: seq<Event>, r: nat, k: nat)
    requires n >= 2 && root < n && r < n && r != root && IsRun(Scatters(n, root, rounds, w, sendbuf), es)
    requires NeverLongAgain(rounds, w, sendbuf, r)
    requires k < |After(Scatters(n, root, rounds, w, sendbuf), es).ranks[r].results|
    ensures ChunkOf(rounds, w, sendbuf, k, r, After(Scatters(n, root, rounds, w, sendbuf), es).ranks[r].results[k])
  {
    var c := Scatters(n, root, rounds, w, sendbuf);
    SkippedIsShort(n, root, rounds, w, sendbuf, r);
    CallIsOwn(c, es, r, k);
    SentInIsChunk(n, root, rounds, w, sendbuf, k, r, After(c, es).ranks[r].results[k]);
  }

  lemma NeverLongAt(rounds: nat, w: nat, sendbuf: nat -> Buffer, r: nat, off: nat)
    requires off == r * w
    requires forall i: nat, j: nat :: i < j < rounds && off + w <= |sendbuf(j)| ==> off + w <= |sendbuf(i)|
    ensures NeverLongAgain(rounds, w, sendbuf, r)
  {
  }

  /** If no buffer that holds r's chunk, at off = r * w, follows one too short for it, call k of r leaves that
      chunk of the root's round-k buffer in front of its own, in every run. */
  lemma ScatterInRun(n: nat, root: nat, rounds: nat, w: nat, sendbuf: nat -> Buffer, es: seq<Event>, r: nat, k: nat,
                     buf: Buffer, was: Buffer, off: nat)
    requires n >= 2 && root < n && r < n && r != root && IsRun(Scatters(n, root, rounds, w, sendbuf), es)
    requires off == r * w
    requires forall i: nat, j: nat :: i < j < rounds && off + w <= |sendbuf(j)| ==> off + w <= |sendbuf(i)|
    requires k < |After(Scatters(n, root, rounds, w, sendbuf), es).ranks[r].results|
    requires FrontReplaced(buf, was, After(Scatters(n, root, rounds, w, sendbuf), es).ranks[r].results[k])
    ensures off + w <= |sendbuf(k)| && w <= |buf|
    ensures buf[..w] == sendbuf(k)[off..off + w] && buf[w..] == was[w..]
  {
    NeverLongAt(rounds, w, sendbuf, r, off);
    OwnChunk(n, root, rounds, w, sendbuf, es, r, k);
  }
}
