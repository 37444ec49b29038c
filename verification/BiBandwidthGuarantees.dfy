/** What the two-way window protocol guarantees: aligned iterations, bounded data in flight, progress,
    conservation. */
module BiBandwidthGuarantees {
  import opened Arithmetic
  import opened SizeStream
  import opened BiBandwidth

  /** What rank r has matched, the other one has sent. */
  lemma MatchedWasSent(c: Config, s: State, r: nat)
    requires Inv(c, s) && r < 2
    ensures s.matched[r] == s.ranks[r].iter * c.window + s.ranks[r].got <= |s.data[1 - r]|
    ensures |s.data[1 - r]| <= (s.ranks[1 - r].iter + 1) * c.window
    ensures s.ranks[1 - r].iter * c.window <= |s.data[1 - r]|
    ensures s.ranks[1 - r].pc >= 2 * c.window ==> |s.data[1 - r]| == (s.ranks[1 - r].iter + 1) * c.window
  {
    assert RankOk(c, s, r) && RankOk(c, s, 1 - r);
    SentRange(c, s.ranks[1 - r]);
  }

  lemma SentRange(c: Config, rank: Rank)
    ensures rank.iter * c.window <= Sent(c, rank) <= (rank.iter + 1) * c.window
    ensures rank.pc >= 2 * c.window ==> Sent(c, rank) == (rank.iter + 1) * c.window
  {
    MulSucc(rank.iter, c.window);
  }

  lemma Quotients(a: nat, b: nat, w: nat)
    requires w > 0 && a * w <= b * w
    ensures a <= b
  {
    if a > b {
      MulLe(b + 1, a, w);
      MulSucc(b, w);
    }
  }

  lemma SkewBound(c: Config, s: State, r: nat)
    requires Inv(c, s) && r < 2 && c.window > 0
    ensures s.ranks[r].iter <= s.ranks[1 - r].iter + 1
  {
    MatchedWasSent(c, s, r);
    Quotients(s.ranks[r].iter, s.ranks[1 - r].iter + 1, c.window);
  }

  /** Every matched message has the size of the matching rank's iteration, and at most two windows are
      in flight per direction; with a window of at least one, iteration counts differ by at most one. */
  lemma WindowsStayAligned(c: Config, es: seq<Event>, r: nat)
    requires IsRun(c, es) && r < 2
    ensures c.window > 0 ==> After(c, es).ranks[r].iter <= After(c, es).ranks[1 - r].iter + 1
    ensures 0 <= |After(c, es).data[r]| - After(c, es).matched[1 - r] <= 2 * c.window
    ensures Enabled(c, After(c, es), Match(r)) ==>
              After(c, es).data[1 - r][After(c, es).matched[r]] == c.sizes[After(c, es).ranks[r].iter]
  {
    InvRun(c, es);
    if c.window > 0 { SkewBound(c, After(c, es), r); }
    InFlightBound(c, After(c, es), r);
    if Enabled(c, After(c, es), Match(r)) {
      HeadHasCurrentSize(c, After(c, es), r);
    }
  }

  ghost predicate SkewAtMostOne(c: Config, es: seq<Event>)
    requires IsRun(c, es)
  {
    forall r :: 0 <= r < 2 ==> After(c, es).ranks[r].iter <= After(c, es).ranks[1 - r].iter + 1
  }

  /** No schedule takes one rank more than one iteration ahead, exactly when there is a window to wait
      for or at most one iteration: with an empty window a rank goes through its iterations alone. */
  lemma AlignedIff(c: Config)
    ensures (forall es :: IsRun(c, es) ==> SkewAtMostOne(c, es)) <==> (c.window > 0 || c.Iterations() <= 1)
  {
    if c.window > 0 || c.Iterations() <= 1 {
      forall es | IsRun(c, es) ensures SkewAtMostOne(c, es) {
        InvRun(c, es);
        if c.window > 0 {
          SkewBound(c, After(c, es), 0);
          SkewBound(c, After(c, es), 1);
        }
      }
    } else {
      var once, twice := [Finish(0)], [Finish(0), Finish(0)];
      assert once[..0] == [] && twice[..1] == once;
      assert IsRun(c, []) && IsRun(c, once) && IsRun(c, twice);
      assert After(c, twice).ranks[0].iter == 2 && After(c, twice).ranks[1].iter == 0;
      assert !SkewAtMostOne(c, twice);
    }
  }

  lemma InFlightBound(c: Config, s: State, r: nat)
    requires Inv(c, s) && r < 2
    ensures 0 <= |s.data[r]| - s.matched[1 - r] <= 2 * c.window
  {
    MatchedWasSent(c, s, 1 - r);
    if c.window > 0 { SkewBound(c, s, r); }
    TwoWindows(s.ranks[r].iter, s.ranks[1 - r].iter, c.window);
  }

  lemma TwoWindows(a: nat, b: nat, w: nat)
    requires w == 0 || a <= b + 1
    ensures (a + 1) * w <= b * w + 2 * w
  {
    if w > 0 { MulLe(a + 1, b + 2, w); }
  }

  lemma HeadHasCurrentSize(c: Config, s: State, r: nat)
    requires Inv(c, s) && Enabled(c, s, Match(r))
    ensures s.data[1 - r][s.matched[r]] == c.sizes[s.ranks[r].iter]
  {
    assert RankOk(c, s, r) && RankOk(c, s, 1 - r);
    StreamAt(c.sizes, c.window, |s.data[1 - r]|, s.ranks[r].iter, s.ranks[r].got);
  }

  predicate AllDone(c: Config, s: State) {
    forall r :: 0 <= r < |s.ranks| ==> s.ranks[r].iter == c.Iterations()
  }

  ghost predicate Blocked(c: Config, s: State, r: nat)
    requires Shape(s) && r < 2
  {
    s.ranks[r].iter < c.Iterations() && !Enabled(c, s, Exec(r)) && !Enabled(c, s, Finish(r))
  }

  lemma BlockedShape(c: Config, s: State, r: nat)
    requires Inv(c, s) && r < 2 && Blocked(c, s, r)
    ensures 2 * c.window <= s.ranks[r].pc < 4 * c.window
    ensures CallAt(c.window, s.ranks[r].pc).AwaitSend? ==>
              c.rendezvous && s.matched[1 - r] < (s.ranks[r].iter + 1) * c.window
    ensures CallAt(c.window, s.ranks[r].pc).WaitRecv? ==> s.ranks[r].got < c.window
  {
    MulSucc(s.ranks[r].iter, c.window);
  }

  lemma NotAhead(c: Config, s: State, r: nat)
    requires Inv(c, s) && r < 2 && s.matched[1 - r] < (s.ranks[r].iter + 1) * c.window
    ensures s.ranks[1 - r].iter <= s.ranks[r].iter
  {
    MatchedWasSent(c, s, 1 - r);
    if s.ranks[1 - r].iter > s.ranks[r].iter {
      MulLe(s.ranks[r].iter + 1, s.ranks[1 - r].iter, c.window);
      assert false;
    }
  }

  /** A rank that is not ahead and waits for a send: the other one can match. */
  lemma AwaitUnblocks(c: Config, s: State, r: nat) returns (e: Event)
    requires Inv(c, s) && r < 2 && Blocked(c, s, r) && CallAt(c.window, s.ranks[r].pc).AwaitSend?
    requires s.ranks[r].iter <= s.ranks[1 - r].iter
    requires s.ranks[1 - r].iter == s.ranks[r].iter ==> Blocked(c, s, 1 - r)
    ensures Enabled(c, s, e)
  {
    BlockedShape(c, s, r);
    NotAhead(c, s, r);
    AllIsSent(c, s, r);
    PartnerCanMatch(c, s, 1 - r);
    e := Match(1 - r);
  }

  /** Past its sends a rank has sent its windows up to this one. */
  lemma AllIsSent(c: Config, s: State, r: nat)
    requires Inv(c, s) && r < 2 && s.ranks[r].pc >= 2 * c.window
    ensures |s.data[r]| == (s.ranks[r].iter + 1) * c.window
  {
    MatchedWasSent(c, s, 1 - r);
  }

  /** A blocked rank that lags behind what was sent to it can match. */
  lemma PartnerCanMatch(c: Config, s: State, r: nat)
    requires Inv(c, s) && r < 2 && Blocked(c, s, r)
    requires s.matched[r] < (s.ranks[r].iter + 1) * c.window && |s.data[1 - r]| >= (s.ranks[r].iter + 1) * c.window
    ensures Enabled(c, s, Match(r))
  {
    BlockedShape(c, s, r);
    MatchedWasSent(c, s, r);
    MulSucc(s.ranks[r].iter, c.window);
  }

  /** A rank that is not ahead and waits for a receive: there is something for it. */
  lemma WaitUnblocks(c: Config, s: State, r: nat) returns (e: Event)
    requires Inv(c, s) && r < 2 && Blocked(c, s, r) && CallAt(c.window, s.ranks[r].pc).WaitRecv?
    requires s.ranks[r].iter <= s.ranks[1 - r].iter
    requires s.ranks[1 - r].iter == s.ranks[r].iter ==> Blocked(c, s, 1 - r)
    ensures Enabled(c, s, e)
  {
    BlockedShape(c, s, r);
    PartnerHasSent(c, s, r);
    StillOwed(c, s, r);
    PartnerCanMatch(c, s, r);
    e := Match(r);
  }

  lemma StillOwed(c: Config, s: State, r: nat)
    requires Inv(c, s) && r < 2 && s.ranks[r].got < c.window
    ensures s.matched[r] < (s.ranks[r].iter + 1) * c.window
  {
    MatchedWasSent(c, s, r);
    MulSucc(s.ranks[r].iter, c.window);
  }

  lemma PartnerHasSent(c: Config, s: State, r: nat)
    requires Inv(c, s) && r < 2 && s.ranks[r].iter <= s.ranks[1 - r].iter
    requires s.ranks[1 - r].iter == s.ranks[r].iter ==> Blocked(c, s, 1 - r)
    ensures |s.data[1 - r]| >= (s.ranks[r].iter + 1) * c.window
  {
    if s.ranks[1 - r].iter > s.ranks[r].iter {
      MatchedWasSent(c, s, r);
      MulLe(s.ranks[r].iter + 1, s.ranks[1 - r].iter, c.window);
    } else {
      BlockedShape(c, s, 1 - r);
      AllIsSent(c, s, 1 - r);
    }
  }

  /** Deadlock freedom, with or without rendezvous sends. */
  lemma NeverStuck(c: Config, es: seq<Event>)
    requires IsRun(c, es)
    ensures AllDone(c, After(c, es)) || exists e :: Enabled(c, After(c, es), e)
  {
    InvRun(c, es);
    var s := After(c, es);
    var r := if s.ranks[0].iter <= s.ranks[1].iter then 0 else 1;
    if !AllDone(c, s) && forall e :: !Enabled(c, s, e) {
      UnfinishedIsBlocked(c, s, r);
      if CallAt(c.window, s.ranks[r].pc).AwaitSend? {
        var e := AwaitUnblocks(c, s, r);
      } else {
        var e := WaitUnblocks(c, s, r);
      }
    }
  }

  /** With nothing enabled a slowest rank is blocked in a wait, and so is the other one unless ahead. */
  lemma UnfinishedIsBlocked(c: Config, s: State, r: nat)
    requires Inv(c, s) && r < 2 && !AllDone(c, s) && (forall e :: !Enabled(c, s, e))
    requires s.ranks[r].iter <= s.ranks[1 - r].iter
    ensures Blocked(c, s, r) && (s.ranks[1 - r].iter == s.ranks[r].iter ==> Blocked(c, s, 1 - r))
    ensures CallAt(c.window, s.ranks[r].pc).AwaitSend? || CallAt(c.window, s.ranks[r].pc).WaitRecv?
  {
    assert RankOk(c, s, r) && RankOk(c, s, 1 - r);
    assert exists x :: 0 <= x < |s.ranks| && s.ranks[x].iter != c.Iterations();
    BlockedShape(c, s, r);
  }

  /** When both ranks are done each has sent its windows of every size, and the other has matched them. */
  lemma Conservation(c: Config, es: seq<Event>, r: nat)
    requires IsRun(c, es) && AllDone(c, After(c, es)) && r < 2
    ensures After(c, es).data[r] == Stream(c.sizes, c.window, c.Iterations() * c.window)
    ensures After(c, es).matched[1 - r] == |After(c, es).data[r]| == c.Iterations() * c.window
  {
    InvRun(c, es);
    assert RankOk(c, After(c, es), r) && RankOk(c, After(c, es), 1 - r);
  }

  /** Calls, matches and completions of one rank. */
  function Performed(c: Config, rank: Rank): nat {
    rank.iter * (5 * c.window + 1) + rank.pc + rank.got
  }

  function Events(c: Config, s: State): nat
    requires |s.ranks| == 2
  {
    Performed(c, s.ranks[0]) + Performed(c, s.ranks[1])
  }

  lemma StepCounts(c: Config, s: State, e: Event)
    requires Inv(c, s) && Enabled(c, s, e)
    ensures Events(c, Apply(c, s, e)) == Events(c, s) + 1
  {
    StepPerforms(c, s, e);
    if e.rank == 0 {} else { assert e.rank == 1; }
  }

  lemma StepPerforms(c: Config, s: State, e: Event)
    requires Inv(c, s) && Enabled(c, s, e)
    ensures Performed(c, Apply(c, s, e).ranks[e.rank]) == Performed(c, s.ranks[e.rank]) + 1
    ensures Apply(c, s, e).ranks[1 - e.rank] == s.ranks[1 - e.rank]
  {
    assert RankOk(c, s, e.rank);
    MulSucc(s.ranks[e.rank].iter, 5 * c.window + 1);
  }

  /** Runs cannot go on for ever: the number of events is read off the state, and a complete run has
      exactly 5 * window + 1 of them per rank and iteration. */
  lemma {:induction false} RunLength(c: Config, es: seq<Event>)
    requires IsRun(c, es)
    ensures |es| == Events(c, After(c, es))
    ensures AllDone(c, After(c, es)) ==> |es| == 2 * (c.Iterations() * (5 * c.window + 1))
  {
    if es != [] {
      var before := es[..|es| - 1];
      RunLength(c, before);
      InvRun(c, before);
      StepCounts(c, After(c, before), es[|es| - 1]);
    }
    if AllDone(c, After(c, es)) {
      InvRun(c, es);
      RankSettled(c, After(c, es), 0);
      RankSettled(c, After(c, es), 1);
    }
  }

  lemma RankSettled(c: Config, s: State, r: nat)
    requires Inv(c, s) && r < 2 && s.ranks[r].iter == c.Iterations()
    ensures Performed(c, s.ranks[r]) == c.Iterations() * (5 * c.window + 1)
  {
    assert RankOk(c, s, r);
  }
}
