/** What one rank does in one all-to-all exchange, as a list of transport calls. */
module Programs {
  import opened Arithmetic

  /** Blocking: `barrier`, `allreduce_u64`, `reduce`, `allgather`, `alltoall` send to every peer and
      then post and wait for one receive at a time. NonBlocking: the `i*` methods followed by `wait`.
      PostFirst: `allgatherv`, `alltoallv`, `reducescatter` post every receive, then send, waiting for
      each send; with `rendezvous` a send completes only when a posted receive has matched it. */
  datatype Kind = Blocking | NonBlocking | PostFirst(rendezvous: bool)

  /** Peers and receive slots are numbered 0 .. size-2, in loop order. */
  datatype Op = Send(peer: nat) | AwaitSend(peer: nat) | Post(slot: nat) | Wait(slot: nat)

  /** The j-th peer of `rank` when the peers are visited in rank order. */
  function PeerAt(rank: nat, j: nat): nat {
    if j < rank then j else j + 1
  }

  function IndexOf(rank: nat, peer: nat): nat
    requires peer != rank
  {
    if peer < rank then peer else peer - 1
  }

  lemma PeerIndexInverse(n: nat, rank: nat, j: nat, peer: nat)
    requires rank < n && peer != rank
    ensures PeerAt(rank, j) != rank && IndexOf(rank, PeerAt(rank, j)) == j
    ensures PeerAt(rank, IndexOf(rank, peer)) == peer
    ensures j < n - 1 <==> PeerAt(rank, j) < n
    ensures IndexOf(rank, peer) < n - 1 <==> peer < n
  {
  }

  function Length(kind: Kind, m: nat): nat {
    if kind.PostFirst? then 4 * m else 3 * m
  }

  function OpAt(kind: Kind, m: nat, pc: nat): Op
    requires pc < Length(kind, m)
  {
    match kind
    case Blocking =>
      if pc < m then Send(pc) else if (pc - m) % 2 == 0 then Post((pc - m) / 2) else Wait((pc - m) / 2)
    case NonBlocking =>
      if pc < m then Send(pc) else if pc < 2 * m then Post(pc - m) else Wait(pc - 2 * m)
    case PostFirst(_) =>
      if pc < m then Post(pc)
      else if pc < 3 * m then if (pc - m) % 2 == 0 then Send((pc - m) / 2) else AwaitSend((pc - m) / 2)
      else Wait(pc - 3 * m)
  }

  function Program(kind: Kind, m: nat): (ops: seq<Op>)
  {
    seq(Length(kind, m), pc requires 0 <= pc < Length(kind, m) => OpAt(kind, m, pc))
  }

  /** The first k calls. */
  function Prefix(kind: Kind, m: nat, k: nat): (ops: seq<Op>)
    requires k <= Length(kind, m)
  {
    seq(k, pc requires 0 <= pc < k => OpAt(kind, m, pc))
  }

  lemma PrefixStep(kind: Kind, m: nat, k: nat)
    requires k < Length(kind, m)
    ensures Prefix(kind, m, k + 1) == Prefix(kind, m, k) + [OpAt(kind, m, k)]
  {
  }

  /** In the sending phase of a post-first program each send is followed by the wait for it. */
  lemma SendPairStep(m: nat, j: nat)
    requires j < m
    ensures Prefix(PostFirst(true), m, m + 2 * j + 2) == Prefix(PostFirst(true), m, m + 2 * j) + [Send(j), AwaitSend(j)]
  {
    PrefixStep(PostFirst(true), m, m + 2 * j);
    PrefixStep(PostFirst(true), m, m + 2 * j + 1);
  }

  lemma PrefixOfProgram(kind: Kind, m: nat, k: nat)
    requires k <= Length(kind, m)
    ensures Prefix(kind, m, k) == Program(kind, m)[..k]
  {
  }

  lemma WholePrefix(kind: Kind, m: nat)
    ensures Prefix(kind, m, 0) == []
    ensures Prefix(kind, m, Length(kind, m)) == Program(kind, m)
  {
  }

  /** The programs call by call. Blocking: all sends, then post and wait, slot by slot. */
  lemma BlockingCalls(m: nat, j: nat)
    requires j < m
    ensures |Program(Blocking, m)| == 3 * m && Program(Blocking, m)[j] == Send(j)
    ensures Program(Blocking, m)[m + 2 * j] == Post(j) && Program(Blocking, m)[m + 2 * j + 1] == Wait(j)
  {
  }

  /** Non-blocking: all sends, all posts, all waits. */
  lemma NonBlockingCalls(m: nat, j: nat)
    requires j < m
    ensures |Program(NonBlocking, m)| == 3 * m && Program(NonBlocking, m)[j] == Send(j)
    ensures Program(NonBlocking, m)[m + j] == Post(j) && Program(NonBlocking, m)[2 * m + j] == Wait(j)
  {
  }

  /** Post-first: all posts, then every send with the wait for it, then all waits. */
  lemma PostFirstCalls(rendezvous: bool, m: nat, j: nat)
    requires j < m
    ensures var calls := Program(PostFirst(rendezvous), m);
            && |calls| == 4 * m && calls[j] == Post(j)
            && calls[m + 2 * j] == Send(j) && calls[m + 2 * j + 1] == AwaitSend(j) && calls[3 * m + j] == Wait(j)
  {
  }

  /** Sends issued, receives posted and receives waited for by the first `pc` calls. */
  function Sent(kind: Kind, m: nat, pc: nat): nat {
    if !kind.PostFirst? then Min(pc, m)
    else if pc <= m then 0 else Min((pc - m + 1) / 2, m)
  }

  function Posted(kind: Kind, m: nat, pc: nat): nat {
    if kind.PostFirst? then Min(pc, m)
    else if pc <= m then 0
    else if kind.Blocking? then Min((pc - m + 1) / 2, m) else Min(pc - m, m)
  }

  function Waited(kind: Kind, m: nat, pc: nat): nat {
    match kind
    case Blocking => if pc <= m then 0 else Min((pc - m) / 2, m)
    case NonBlocking => if pc <= 2 * m then 0 else Min(pc - 2 * m, m)
    case PostFirst(_) => if pc <= 3 * m then 0 else Min(pc - 3 * m, m)
  }

  /** One call moves the counter it should, to the peer or slot next in line. */
  ghost predicate CallCounted(kind: Kind, m: nat, pc: nat)
    requires pc < Length(kind, m)
  {
    var op := OpAt(kind, m, pc);
    && Sent(kind, m, pc + 1) == Sent(kind, m, pc) + (if op.Send? then 1 else 0)
    && Posted(kind, m, pc + 1) == Posted(kind, m, pc) + (if op.Post? then 1 else 0)
    && Waited(kind, m, pc + 1) == Waited(kind, m, pc) + (if op.Wait? then 1 else 0)
    && (op.Send? ==> op.peer == Sent(kind, m, pc) < m)
    && (op.AwaitSend? ==> kind.PostFirst? && op.peer + 1 == Sent(kind, m, pc) <= m && Posted(kind, m, pc) == m)
    && (op.Post? ==> op.slot == Posted(kind, m, pc) < m)
    && (op.Wait? ==> op.slot == Waited(kind, m, pc) < Posted(kind, m, pc) && Sent(kind, m, pc) == m)
  }

  lemma BlockingCounted(m: nat, pc: nat)
    requires pc < Length(Blocking, m)
    ensures CallCounted(Blocking, m, pc)
  {
  }

  lemma NonBlockingCounted(m: nat, pc: nat)
    requires pc < Length(NonBlocking, m)
    ensures CallCounted(NonBlocking, m, pc)
  {
  }

  lemma PostFirstCounted(rendezvous: bool, m: nat, pc: nat)
    requires pc < Length(PostFirst(rendezvous), m)
    ensures CallCounted(PostFirst(rendezvous), m, pc)
  {
    if pc < m {
      PostingTurn(rendezvous, m, pc);
    } else if pc >= 3 * m {
      WaitingTurn(rendezvous, m, pc - 3 * m);
    } else {
      SendPhase(rendezvous, m, pc - m);
    }
  }

  lemma SendPhase(rendezvous: bool, m: nat, i: nat)
    requires i < 2 * m
    ensures CallCounted(PostFirst(rendezvous), m, m + i)
  {
    if i % 2 == 0 {
      SendingTurn(rendezvous, m, i / 2);
    } else {
      AwaitingTurn(rendezvous, m, i / 2);
    }
  }

  lemma PostingTurn(rendezvous: bool, m: nat, j: nat)
    requires j < m
    ensures CallCounted(PostFirst(rendezvous), m, j)
  {
  }

  lemma WaitingTurn(rendezvous: bool, m: nat, j: nat)
    requires j < m
    ensures CallCounted(PostFirst(rendezvous), m, 3 * m + j)
  {
  }

  lemma SendingTurn(rendezvous: bool, m: nat, j: nat)
    requires j < m
    ensures CallCounted(PostFirst(rendezvous), m, m + 2 * j)
  {
  }

  lemma AwaitingTurn(rendezvous: bool, m: nat, j: nat)
    requires j < m
    ensures CallCounted(PostFirst(rendezvous), m, m + 2 * j + 1)
  {
  }

  /** The three counters count exactly the calls of their sort: a program performs `m` of each. */
  lemma CountersFollowProgram(kind: Kind, m: nat, pc: nat)
    requires pc < Length(kind, m)
    ensures CallCounted(kind, m, pc)
    ensures Sent(kind, m, 0) == Posted(kind, m, 0) == Waited(kind, m, 0) == 0
    ensures Sent(kind, m, Length(kind, m)) == Posted(kind, m, Length(kind, m)) == Waited(kind, m, Length(kind, m)) == m
  {
    match kind
    case Blocking => BlockingCounted(m, pc);
    case NonBlocking => NonBlockingCounted(m, pc);
    case PostFirst(rendezvous) => PostFirstCounted(rendezvous, m, pc);
    CounterBounds(kind, m, Length(kind, m));
  }

  lemma CounterBounds(kind: Kind, m: nat, pc: nat)
    requires pc <= Length(kind, m)
    ensures Sent(kind, m, pc) <= m && Posted(kind, m, pc) <= m && Waited(kind, m, pc) <= Posted(kind, m, pc)
    ensures Sent(kind, m, 0) == Posted(kind, m, 0) == Waited(kind, m, 0) == 0
    ensures pc == Length(kind, m) ==> Sent(kind, m, pc) == Posted(kind, m, pc) == Waited(kind, m, pc) == m
  {
  }
}
