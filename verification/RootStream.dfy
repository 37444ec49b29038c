/** Back-to-back rounds of `bcast` or `scatter` from one root: no barrier, one tag, and a root that may
    run ahead of its receivers without limit. */
module RootStream {
  import opened Bytes
  import opened Sums
  import opened Programs
  import opened Arithmetic

  /** `payload(k, r)` is what round k holds for rank r; `sends(k, r)` is the bounds guard of `scatter`,
      true throughout for `bcast`. */
  datatype Config = Config(n: nat, root: nat, rounds: nat, payload: (nat, nat) -> Buffer, sends: (nat, nat) -> bool) {
    predicate Valid() { n >= 2 && root < n }

    predicate Receiver(r: nat) { r < n && r != root }
  }

  datatype Phase = Idle | Posted | Matched(data: Buffer)

  datatype Rank = Rank(results: seq<Buffer>, phase: Phase)

  /** The root is about to serve its `next`-th peer in `round`; `log[r]` is all it has sent to r. */
  datatype State = State(round: nat, next: nat, ranks: seq<Rank>, log: seq<seq<Buffer>>)

  datatype Event = RootStep | Post(rank: nat) | Match(rank: nat) | Finish(rank: nat)

  function Taken(rank: Rank): nat {
    |rank.results| + if rank.phase.Matched? then 1 else 0
  }

  function Init(c: Config): State {
    State(0, 0, seq(c.n, r => Rank([], Idle)), seq(c.n, r => []))
  }

  predicate Shape(c: Config, s: State) {
    c.Valid() && |s.ranks| == |s.log| == c.n
  }

  predicate Enabled(c: Config, s: State, e: Event)
    requires Shape(c, s)
  {
    match e
    case RootStep => s.round < c.rounds && s.next < c.n
    case Post(r) => c.Receiver(r) && s.ranks[r].phase.Idle? && |s.ranks[r].results| < c.rounds
    case Match(r) => c.Receiver(r) && s.ranks[r].phase.Posted? && Taken(s.ranks[r]) < |s.log[r]|
    case Finish(r) => c.Receiver(r) && s.ranks[r].phase.Matched?
  }

  function Apply(c: Config, s: State, e: Event): (s': State)
    requires Shape(c, s) && Enabled(c, s, e)
    ensures Shape(c, s')
  {
    match e
    case RootStep =>
      if s.next == c.n - 1 then s.(round := s.round + 1, next := 0)
      else
        var peer := PeerAt(c.root, s.next);
        s.(next := s.next + 1,
           log := if c.sends(s.round, peer) then s.log[peer := s.log[peer] + [c.payload(s.round, peer)]] else s.log)
    case Post(r) => s.(ranks := s.ranks[r := s.ranks[r].(phase := Posted)])
    case Match(r) => s.(ranks := s.ranks[r := s.ranks[r].(phase := Matched(s.log[r][Taken(s.ranks[r])]))])
    case Finish(r) => s.(ranks := s.ranks[r := Rank(s.ranks[r].results + [s.ranks[r].phase.data], Idle)])
  }

  predicate IsRun(c: Config, es: seq<Event>)
    requires c.Valid()
    decreases |es|, 0
  {
    es == [] || (IsRun(c, es[..|es| - 1]) && Enabled(c, After(c, es[..|es| - 1]), es[|es| - 1]))
  }

  function After(c: Config, es: seq<Event>): (s: State)
    requires c.Valid() && IsRun(c, es)
    ensures Shape(c, s)
    decreases |es|, 1
  {
    if es == [] then Init(c) else Apply(c, After(c, es[..|es| - 1]), es[|es| - 1])
  }

  /** What the first k rounds send to r. */
  function Stream(c: Config, r: nat, k: nat): (ms: seq<Buffer>)
    ensures |ms| <= k
  {
    if k == 0 then [] else Stream(c, r, k - 1) + if c.sends(k - 1, r) then [c.payload(k - 1, r)] else []
  }

  ghost predicate NothingSkipped(c: Config, r: nat, k: nat) {
    forall i: nat :: i < k ==> c.sends(i, r)
  }

  lemma {:induction false} StreamAt(c: Config, r: nat, k: nat)
    ensures NothingSkipped(c, r, k) ==> |Stream(c, r, k)| == k
    ensures NothingSkipped(c, r, k) ==> forall i :: 0 <= i < k ==> Stream(c, r, k)[i] == c.payload(i, r)
    ensures !NothingSkipped(c, r, k) ==> |Stream(c, r, k)| < k
  {
    if k > 0 { StreamAt(c, r, k - 1); }
  }

  lemma {:induction false} StreamExtends(c: Config, r: nat, j: nat, k: nat)
    requires j <= k
    ensures Stream(c, r, j) <= Stream(c, r, k)
    ensures j < k && c.sends(j, r) ==> |Stream(c, r, j)| < |Stream(c, r, k)|
    decreases k - j
  {
    if j < k { StreamExtends(c, r, j, k - 1); }
  }

  /** Round i is the one whose payload is r's j-th message, counting from 0. */
  ghost predicate IsMessage(c: Config, r: nat, j: nat, i: nat) {
    i < c.rounds && c.sends(i, r) && |Stream(c, r, i)| == j
  }

  lemma {:induction false} MessageRound(c: Config, r: nat, j: nat, k: nat) returns (i: nat)
    requires k <= c.rounds && j < |Stream(c, r, k)|
    ensures j <= i < k && IsMessage(c, r, j, i) && Stream(c, r, k)[j] == c.payload(i, r)
  {
    if j < |Stream(c, r, k - 1)| {
      i := MessageRound(c, r, j, k - 1);
    } else {
      i := k - 1;
    }
  }

  /** Rounds whose send to r is behind the root. */
  function SentRounds(c: Config, s: State, r: nat): nat
    requires r != c.root
  {
    s.round + if IndexOf(c.root, r) < s.next then 1 else 0
  }

  ghost predicate RankOk(c: Config, s: State, r: nat)
    requires Shape(c, s)
  {
    c.Receiver(r) ==>
      var rank := s.ranks[r];
      && s.log[r] == Stream(c, r, SentRounds(c, s, r))
      && Taken(rank) <= |s.log[r]| && |rank.results| <= c.rounds && (|rank.results| == c.rounds ==> rank.phase.Idle?)
      && rank.results == s.log[r][..|rank.results|]
      && (rank.phase.Matched? ==> rank.phase.data == s.log[r][|rank.results|])
  }

  ghost predicate Inv(c: Config, s: State) {
    && Shape(c, s) && s.next < c.n && s.round <= c.rounds && (s.round == c.rounds ==> s.next == 0)
    && (c.root < c.n && s.ranks[c.root] == Rank([], Idle))
    && forall r: nat :: RankOk(c, s, r)
  }

  lemma RootStepRankOk(c: Config, s: State, x: nat)
    requires Inv(c, s) && Enabled(c, s, RootStep)
    ensures RankOk(c, Apply(c, s, RootStep), x)
  {
    assert RankOk(c, s, x);
    if c.Receiver(x) {
      PeerIndexInverse(c.n, c.root, s.next, x);
    }
  }

  lemma StepInv(c: Config, s: State, e: Event)
    requires Inv(c, s) && Enabled(c, s, e)
    ensures Inv(c, Apply(c, s, e))
  {
    var s' := Apply(c, s, e);
    forall x: nat ensures RankOk(c, s', x) {
      if e.RootStep? { RootStepRankOk(c, s, x); } else { assert RankOk(c, s, x); }
    }
  }

  /** Events so far, read off the state. */
  function Work(s: State): (row: seq<int>)
  {
    seq(|s.ranks|, r requires 0 <= r < |s.ranks| =>
      3 * |s.ranks[r].results| + match s.ranks[r].phase case Idle => 0 case Posted => 1 case Matched(_) => 2)
  }

  function Performed(c: Config, s: State): int {
    s.round * c.n + s.next + Sum(Work(s))
  }

  lemma StepPerforms(c: Config, s: State, e: Event)
    requires Inv(c, s) && Enabled(c, s, e)
    ensures Performed(c, Apply(c, s, e)) == Performed(c, s) + 1
  {
    var s' := Apply(c, s, e);
    if e.RootStep? {
      assert Work(s') == Work(s);
      MulSucc(s.round, c.n);
    } else {
      assert Work(s') == Work(s)[e.rank := Work(s)[e.rank] + 1];
      SumUpdate(Work(s), e.rank, Work(s)[e.rank] + 1);
    }
  }

  lemma {:induction false} InvRun(c: Config, es: seq<Event>)
    requires c.Valid() && IsRun(c, es)
    ensures Inv(c, After(c, es)) && |es| == Performed(c, After(c, es))
  {
    if es == [] {
      SumOthers(c.n, c.n, 0);
      assert Work(Init(c)) == Others(c.n, c.n, 0);
    } else {
      InvRun(c, es[..|es| - 1]);
      StepInv(c, After(c, es[..|es| - 1]), es[|es| - 1]);
      StepPerforms(c, After(c, es[..|es| - 1]), es[|es| - 1]);
    }
  }

  /** The k-th call at a non-root rank delivers the payload of the k-th round, counting from 0, in which
      the root did not skip it; that is round k itself if the root has skipped none up to there. */
  lemma CallsTakeMessages(c: Config, es: seq<Event>, r: nat, k: nat)
    requires c.Valid() && IsRun(c, es) && c.Receiver(r) && k < |After(c, es).ranks[r].results|
    ensures exists i :: k <= i && IsMessage(c, r, k, i) && After(c, es).ranks[r].results[k] == c.payload(i, r)
    ensures NothingSkipped(c, r, k + 1) ==> After(c, es).ranks[r].results[k] == c.payload(k, r)
  {
    ResultsInStream(c, es, r);
    var i := MessageRound(c, r, k, c.rounds);
    if NothingSkipped(c, r, k + 1) {
      StreamAt(c, r, k);
      StreamExtends(c, r, k, i);
    }
  }

  lemma ResultsInStream(c: Config, es: seq<Event>, r: nat)
    requires c.Valid() && IsRun(c, es) && c.Receiver(r)
    ensures After(c, es).ranks[r].results <= Stream(c, r, c.rounds)
  {
    InvRun(c, es);
    var s := After(c, es);
    assert RankOk(c, s, r);
    StreamExtends(c, r, SentRounds(c, s, r), c.rounds);
  }

  predicate AllDone(c: Config, s: State) {
    s.round == c.rounds && forall r :: 0 <= r < |s.ranks| && r != c.root ==> |s.ranks[r].results| == c.rounds
  }

  ghost predicate Stuck(c: Config, es: seq<Event>)
    requires c.Valid() && IsRun(c, es)
  {
    !AllDone(c, After(c, es)) && forall e :: !Enabled(c, After(c, es), e)
  }

  /** The root never waits, and once it is done everything it owes is in the channels. */
  lemma NeverStuck(c: Config, es: seq<Event>)
    requires c.Valid() && IsRun(c, es)
    requires forall r: nat :: c.Receiver(r) ==> NothingSkipped(c, r, c.rounds)
    ensures !Stuck(c, es)
  {
    InvRun(c, es);
    var s := After(c, es);
    if s.round < c.rounds {
      assert Enabled(c, s, RootStep);
    } else if r: nat :| c.Receiver(r) && |s.ranks[r].results| != c.rounds {
      assert RankOk(c, s, r);
      StreamAt(c, r, c.rounds);
      assert Enabled(c, s, Event.Post(r)) || Enabled(c, s, Match(r)) || Enabled(c, s, Finish(r));
    }
  }

  /** Nothing is left in a channel at the end. */
  lemma NothingLeftBehind(c: Config, es: seq<Event>, r: nat)
    requires c.Valid() && IsRun(c, es) && AllDone(c, After(c, es)) && c.Receiver(r)
    ensures Taken(After(c, es).ranks[r]) == |After(c, es).log[r]| == c.rounds
  {
    InvRun(c, es);
    assert RankOk(c, After(c, es), r);
  }

  lemma WorkBound(c: Config, s: State)
    requires Inv(c, s)
    ensures Performed(c, s) <= c.rounds * c.n + 3 * c.rounds * c.n
  {
    var full := Others(c.n, c.n, 3 * c.rounds);
    forall r | 0 <= r < c.n ensures Work(s)[r] <= full[r] { assert RankOk(c, s, r); }
    SumMonotone(Work(s), full);
    SumOthers(c.n, c.n, 3 * c.rounds);
    if s.round < c.rounds {
      MulSucc(s.round, c.n);
      MulLe(s.round + 1, c.rounds, c.n);
    }
  }

  /** Any run can be carried on until nothing is enabled. */
  lemma {:induction false} Exhaust(c: Config, es: seq<Event>) returns (full: seq<Event>)
    requires c.Valid() && IsRun(c, es)
    ensures IsRun(c, full) && forall e :: !Enabled(c, After(c, full), e)
    decreases c.rounds * c.n + 3 * c.rounds * c.n - |es|
  {
    InvRun(c, es);
    WorkBound(c, After(c, es));
    if e :| Enabled(c, After(c, es), e) {
      assert (es + [e])[..|es|] == es;
      InvRun(c, es + [e]);
      WorkBound(c, After(c, es + [e]));
      full := Exhaust(c, es + [e]);
    } else {
      full := es;
    }
  }

  /** A receiver then has taken all that was ever addressed to it. */
  lemma ExhaustedTookAll(c: Config, es: seq<Event>, r: nat)
    requires c.Valid() && IsRun(c, es) && c.Receiver(r) && forall e :: !Enabled(c, After(c, es), e)
    ensures After(c, es).ranks[r].results == Stream(c, r, c.rounds)
  {
    InvRun(c, es);
    var s := After(c, es);
    assert RankOk(c, s, r);
    assert !Enabled(c, s, RootStep) && !Enabled(c, s, Event.Post(r));
    assert !Enabled(c, s, Match(r)) && !Enabled(c, s, Finish(r));
  }

  /** No schedule gets stuck exactly when the root skips no chunk: a receiver has no bounds guard. */
  lemma DeadlockFreeIff(c: Config)
    requires c.Valid()
    ensures (forall es :: IsRun(c, es) ==> !Stuck(c, es))
            <==> forall r: nat :: c.Receiver(r) ==> NothingSkipped(c, r, c.rounds)
  {
    if r: nat :| c.Receiver(r) && !NothingSkipped(c, r, c.rounds) {
      assert IsRun(c, []);
      var full := Exhaust(c, []);
      ExhaustedTookAll(c, full, r);
      StreamAt(c, r, c.rounds);
      assert Stuck(c, full);
    } else {
      forall es | IsRun(c, es) ensures !Stuck(c, es) { NeverStuck(c, es); }
    }
  }

  /** Round k sends r this. */
  ghost predicate SentIn(c: Config, k: nat, r: nat, data: Buffer) {
    k < c.rounds && c.sends(k, r) && data == c.payload(k, r)
  }

  /** Every completed call of r delivered what the root sent it in that very round. */
  ghost predicate OwnRounds(c: Config, es: seq<Event>, r: nat)
    requires c.Valid() && IsRun(c, es) && c.Receiver(r)
  {
    forall k: nat :: k < |After(c, es).ranks[r].results| ==> SentIn(c, k, r, After(c, es).ranks[r].results[k])
  }

  /** The same of the contents alone. */
  ghost predicate OwnPayloads(c: Config, es: seq<Event>, r: nat)
    requires c.Valid() && IsRun(c, es) && c.Receiver(r)
  {
    forall k: nat :: k < |After(c, es).ranks[r].results| ==> After(c, es).ranks[r].results[k] == c.payload(k, r)
  }

  /** Once r has been skipped the root sends it nothing more. */
  ghost predicate NoneAfterSkipped(c: Config, r: nat) {
    forall i: nat, k: nat :: i < k < c.rounds && c.sends(k, r) ==> c.sends(i, r)
  }

  lemma CallIsOwn(c: Config, es: seq<Event>, r: nat, k: nat)
    requires c.Valid() && IsRun(c, es) && c.Receiver(r) && NoneAfterSkipped(c, r)
    requires k < |After(c, es).ranks[r].results|
    ensures SentIn(c, k, r, After(c, es).ranks[r].results[k])
  {
    ResultsInStream(c, es, r);
    var i := MessageRound(c, r, k, c.rounds);
    assert forall x: nat :: x <= k ==> x == i || c.sends(x, r);
    CallsTakeMessages(c, es, r, k);
  }

  lemma NoneAfterSkippedIsExact(c: Config, es: seq<Event>, r: nat)
    requires c.Valid() && IsRun(c, es) && c.Receiver(r) && NoneAfterSkipped(c, r)
    ensures OwnRounds(c, es, r) && OwnPayloads(c, es, r)
  {
    forall k: nat | k < |After(c, es).ranks[r].results|
      ensures SentIn(c, k, r, After(c, es).ranks[r].results[k])
    {
      CallIsOwn(c, es, r, k);
    }
  }

  lemma FirstSkipped(c: Config, r: nat, late: nat) returns (i: nat)
    requires !NothingSkipped(c, r, late)
    ensures i < late && NothingSkipped(c, r, i) && !c.sends(i, r)
  {
    i := 0;
    while c.sends(i, r)
      invariant NothingSkipped(c, r, i) && i <= late
      decreases late - i
    {
      i := i + 1;
    }
  }

  /** Otherwise the first skipped call takes the payload of a later round in its place. */
  lemma SkippedTakesLater(c: Config, r: nat) returns (es: seq<Event>, i: nat, k: nat)
    requires c.Valid() && c.Receiver(r) && !NoneAfterSkipped(c, r)
    ensures IsRun(c, es) && i < k < c.rounds && !c.sends(i, r) && c.sends(k, r)
    ensures i < |After(c, es).ranks[r].results| && After(c, es).ranks[r].results[i] == c.payload(k, r)
  {
    var late: nat :| late < c.rounds && c.sends(late, r) && !NothingSkipped(c, r, late);
    i := FirstSkipped(c, r, late);
    LaterMessage(c, r, i, late);
    assert IsRun(c, []);
    es := Exhaust(c, []);
    ExhaustedTookAll(c, es, r);
    k := MessageRound(c, r, i, c.rounds);
  }

  lemma LaterMessage(c: Config, r: nat, i: nat, late: nat)
    requires NothingSkipped(c, r, i) && i < late < c.rounds && c.sends(late, r)
    ensures i < |Stream(c, r, c.rounds)|
  {
    StreamAt(c, r, i);
    StreamExtends(c, r, i, late);
    StreamExtends(c, r, late, c.rounds);
  }

  /** A payload that is skipped is not that of a later round that is sent. */
  ghost predicate SkippedDiffer(c: Config, r: nat) {
    forall i: nat, k: nat :: i < k < c.rounds && !c.sends(i, r) && c.sends(k, r) ==> c.payload(i, r) != c.payload(k, r)
  }

  /** Every completed call of every schedule delivers its own round if and only if nothing is sent to r
      after it has been skipped. */
  lemma RoundsAreExactIff(c: Config, r: nat)
    requires c.Valid() && c.Receiver(r)
    ensures (forall es :: IsRun(c, es) ==> OwnRounds(c, es, r)) <==> NoneAfterSkipped(c, r)
    ensures SkippedDiffer(c, r) ==> ((forall es :: IsRun(c, es) ==> OwnPayloads(c, es, r)) <==> NoneAfterSkipped(c, r))
  {
    if NoneAfterSkipped(c, r) {
      forall es | IsRun(c, es) ensures OwnRounds(c, es, r) && OwnPayloads(c, es, r) {
        NoneAfterSkippedIsExact(c, es, r);
      }
    } else {
      var es, i, k := SkippedTakesLater(c, r);
      assert !OwnRounds(c, es, r);
      assert c.payload(i, r) != c.payload(k, r) ==> !OwnPayloads(c, es, r);
    }
  }

  /** Rounds of `bcast`, whose payloads may differ in length. */
  function Broadcasts(n: nat, root: nat, rounds: nat, payload: nat -> Buffer): Config {
    Config(n, root, rounds, (k: nat, r: nat) => payload(k), (k: nat, r: nat) => true)
  }

  lemma BroadcastStream(n: nat, root: nat, rounds: nat, payload: nat -> Buffer, es: seq<Event>, r: nat)
    requires n >= 2 && root < n && r < n && r != root && IsRun(Broadcasts(n, root, rounds, payload), es)
    ensures var s := After(Broadcasts(n, root, rounds, payload), es);
            && !Stuck(Broadcasts(n, root, rounds, payload), es)
            && forall k :: 0 <= k < |s.ranks[r].results| ==> s.ranks[r].results[k] == payload(k)
  {
    var c := Broadcasts(n, root, rounds, payload);
    NeverStuck(c, es);
    forall k | 0 <= k < |After(c, es).ranks[r].results| ensures After(c, es).ranks[r].results[k] == payload(k) {
      CallsTakeMessages(c, es, r, k);
    }
  }

  predicate ChunkInside(buf: Buffer, w: nat, r: nat) {
    r * w + w <= |buf|
  }

  /** Rounds of `scatter` with chunks of w bytes. */
  function Scatters(n: nat, root: nat, rounds: nat, w: nat, sendbuf: nat -> Buffer): Config {
    Config(n, root, rounds,
           (k: nat, r: nat) => if ChunkInside(sendbuf(k), w, r) then sendbuf(k)[r * w..r * w + w] else [],
           (k: nat, r: nat) => ChunkInside(sendbuf(k), w, r))
  }

  /** Scatter rounds are deadlock free exactly when every round's buffer holds the chunk of the highest
      receiving rank. */
  lemma ScatterStream(n: nat, root: nat, rounds: nat, w: nat, sendbuf: nat -> Buffer)
    requires n >= 2 && root < n
    ensures var c := Scatters(n, root, rounds, w, sendbuf);
            var top := if root == n - 1 then n - 2 else n - 1;
            (forall es :: IsRun(c, es) ==> !Stuck(c, es))
            <==> forall k: nat :: k < rounds ==> ChunkInside(sendbuf(k), w, top)
  {
    var c := Scatters(n, root, rounds, w, sendbuf);
    var top := if root == n - 1 then n - 2 else n - 1;
    DeadlockFreeIff(c);
    assert c.Receiver(top);
    if forall k: nat :: k < rounds ==> ChunkInside(sendbuf(k), w, top) {
      forall r: nat, k: nat | c.Receiver(r) && k < rounds ensures c.sends(k, r) {
        assert ChunkInside(sendbuf(k), w, top);
        MulLe(r, top, w);
      }
    } else {
      var k: nat :| k < rounds && !ChunkInside(sendbuf(k), w, top);
      assert !c.sends(k, top);
      assert !NothingSkipped(c, top, rounds);
    }
  }

  /** The chunk of round k's buffer at r * w. */
  ghost predicate ChunkOf(rounds: nat, w: nat, sendbuf: nat -> Buffer, k: nat, r: nat, data: Buffer) {
    k < rounds && ChunkInside(sendbuf(k), w, r) && data == sendbuf(k)[r * w..r * w + w]
  }

  /** r's call k delivered its chunk of round k's buffer. */
  ghost predicate OwnChunks(n: nat, root: nat, rounds: nat, w: nat, sendbuf: nat -> Buffer, es: seq<Event>, r: nat)
    requires n >= 2 && root < n && r < n && r != root && IsRun(Scatters(n, root, rounds, w, sendbuf), es)
  {
    var results := After(Scatters(n, root, rounds, w, sendbuf), es).ranks[r].results;
    forall k: nat :: k < |results| ==> ChunkOf(rounds, w, sendbuf, k, r, results[k])
  }

  /** No buffer that holds r's chunk follows one that is too short for it. */
  ghost predicate NeverLongAgain(rounds: nat, w: nat, sendbuf: nat -> Buffer, r: nat) {
    forall i: nat, k: nat :: i < k < rounds && ChunkInside(sendbuf(k), w, r) ==> ChunkInside(sendbuf(i), w, r)
  }

  lemma SentInIsChunk(n: nat, root: nat, rounds: nat, w: nat, sendbuf: nat -> Buffer, k: nat, r: nat, data: Buffer)
    ensures SentIn(Scatters(n, root, rounds, w, sendbuf), k, r, data) <==> ChunkOf(rounds, w, sendbuf, k, r, data)
  {
  }

  lemma OwnRoundsOwnChunks(n: nat, root: nat, rounds: nat, w: nat, sendbuf: nat -> Buffer, es: seq<Event>, r: nat)
    requires n >= 2 && root < n && r < n && r != root && IsRun(Scatters(n, root, rounds, w, sendbuf), es)
    ensures OwnRounds(Scatters(n, root, rounds, w, sendbuf), es, r) <==> OwnChunks(n, root, rounds, w, sendbuf, es, r)
  {
    var results := After(Scatters(n, root, rounds, w, sendbuf), es).ranks[r].results;
    forall k: nat | k < |results|
      ensures SentIn(Scatters(n, root, rounds, w, sendbuf), k, r, results[k])
              <==> ChunkOf(rounds, w, sendbuf, k, r, results[k])
    {
      SentInIsChunk(n, root, rounds, w, sendbuf, k, r, results[k]);
    }
  }

  lemma SkippedIsShort(n: nat, root: nat, rounds: nat, w: nat, sendbuf: nat -> Buffer, r: nat)
    ensures NoneAfterSkipped(Scatters(n, root, rounds, w, sendbuf), r) <==> NeverLongAgain(rounds, w, sendbuf, r)
  {
    var c := Scatters(n, root, rounds, w, sendbuf);
    assert forall k: nat :: c.sends(k, r) == ChunkInside(sendbuf(k), w, r);
  }

  /** Every completed scatter call of r delivers its chunk of its own round's buffer, in every schedule, if
      and only if no buffer that holds r's chunk follows one that is too short for it. */
  lemma ScatterExactIff(n: nat, root: nat, rounds: nat, w: nat, sendbuf: nat -> Buffer, r: nat)
    requires n >= 2 && root < n && r < n && r != root
    ensures (forall es :: IsRun(Scatters(n, root, rounds, w, sendbuf), es) ==>
               OwnChunks(n, root, rounds, w, sendbuf, es, r)) <==> NeverLongAgain(rounds, w, sendbuf, r)
  {
    var c := Scatters(n, root, rounds, w, sendbuf);
    SkippedIsShort(n, root, rounds, w, sendbuf, r);
    if NoneAfterSkipped(c, r) {
      forall es | IsRun(c, es) ensures OwnChunks(n, root, rounds, w, sendbuf, es, r) {
        NoneAfterSkippedIsExact(c, es, r);
        OwnRoundsOwnChunks(n, root, rounds, w, sendbuf, es, r);
      }
    } else {
      var es, i, k := SkippedTakesLater(c, r);
      OwnRoundsOwnChunks(n, root, rounds, w, sendbuf, es, r);
    }
  }
}
