/** Calls of the socket drain: what one call visits and takes, what every run of calls guarantees, and what
    failing handlers do to it. */
module DrainCalls {
  import opened Bytes
  import opened Drain

  /** One call: its budget, and what each visit of the call finds, by the visit's number and the socket's place. */
  datatype Poll = Poll(maxFrames: nat, sockets: (nat, nat) -> Answer)

  predicate QuantaOk(quanta: seq<nat>) {
    quanta != [] && forall i :: 0 <= i < |quanta| ==> 1 <= quanta[i] <= SMALL_PACKET_PATH_DRAIN_QUANTUM
  }

  // ----- one round ------------------------------------------------------------

  /** A round so far: the cursor it would leave, the frames of the call, and what each visit took. */
  datatype Walk = Walk(cursor: nat, drained: nat, counts: seq<nat>, failed: bool)

  /** The next visit of a round that began at `start` with visit number `at`. */
  function Visit(quanta: seq<nat>, poll: Poll, start: nat, at: nat, w: Walk): Walk
    requires quanta != [] && w.drained < poll.maxFrames
  {
    var n, place := |quanta|, PlaceAfter(start, |w.counts|, |quanta|);
    match poll.sockets(at + |w.counts|, place)
    case Fails => w.(counts := w.counts + [0], failed := true)
    case Waiting(datagrams) =>
      var count := Min(datagrams, SocketBudget(poll.maxFrames - w.drained, n, quanta[place]));
      Walk(if count > 0 then PlaceAfter(place, 1, n) else w.cursor, w.drained + count, w.counts + [count], false)
  }

  predicate Ended(poll: Poll, w: Walk) { w.failed || w.drained >= poll.maxFrames }

  /** At most `k` visits: a failure or a used-up budget ends the round. */
  function RoundUpTo(quanta: seq<nat>, poll: Poll, start: nat, drained: nat, at: nat, k: nat): Walk
    requires quanta != []
    decreases k
  {
    if k == 0 then Walk(start, drained, [], false)
    else
      var w := RoundUpTo(quanta, poll, start, drained, at, k - 1);
      if Ended(poll, w) then w else Visit(quanta, poll, start, at, w)
  }

  /** Visits up to and including the last that took something. */
  function Productive(counts: seq<nat>): (j: nat)
    ensures j <= |counts|
  {
    if counts == [] then 0 else if counts[|counts| - 1] > 0 then |counts| else Productive(counts[..|counts| - 1])
  }

  /** A failure is the last visit's answer, and nobody else's. */
  ghost predicate FailsLast(poll: Poll, at: nat, visits: seq<nat>, failed: bool) {
    && (failed ==> visits != [])
    && forall i :: 0 <= i < |visits| ==> (poll.sockets(at + i, visits[i]).Fails? <==> failed && i == |visits| - 1)
  }

  /** Every visit takes its share of what the visits before it, and `drained` before them, left of the budget. */
  ghost predicate Shared(quanta: seq<nat>, poll: Poll, at: nat, drained: nat, visits: seq<nat>, counts: seq<nat>) {
    && |visits| == |counts|
    && forall i :: 0 <= i < |counts| ==> SharedAt(quanta, poll, at, drained, visits, counts, i)
  }

  ghost predicate SharedAt(quanta: seq<nat>, poll: Poll, at: nat, drained: nat, visits: seq<nat>, counts: seq<nat>,
                           i: nat)
    requires i < |visits| == |counts|
  {
    && visits[i] < |quanta|
    && TakesShare(poll.sockets(at + i, visits[i]), counts[i], poll.maxFrames - drained - Sum(counts[..i]), |quanta|,
                  quanta[visits[i]])
  }

  lemma NothingShared(quanta: seq<nat>, poll: Poll)
    ensures Shared(quanta, poll, 0, 0, [], [])
  {
  }

  lemma SharedSnoc(quanta: seq<nat>, poll: Poll, at: nat, drained: nat, visits: seq<nat>, counts: seq<nat>, v: nat,
                   c: nat)
    requires Shared(quanta, poll, at, drained, visits, counts) && v < |quanta|
    requires TakesShare(poll.sockets(at + |counts|, v), c, poll.maxFrames - drained - Sum(counts), |quanta|, quanta[v])
    ensures Shared(quanta, poll, at, drained, visits + [v], counts + [c])
  {
    hide TakesShare;
    var visits', counts' := visits + [v], counts + [c];
    forall i | 0 <= i < |counts'|
      ensures SharedAt(quanta, poll, at, drained, visits', counts', i)
    {
      assert counts'[..i] == counts[..i];
      assert i < |counts| ==> SharedAt(quanta, poll, at, drained, visits, counts, i);
      assert counts[..|counts|] == counts;
    }
  }

  lemma SharedJoin(quanta: seq<nat>, poll: Poll, visits: seq<nat>, counts: seq<nat>, visits': seq<nat>,
                   counts': seq<nat>)
    requires Shared(quanta, poll, 0, 0, visits, counts) && Shared(quanta, poll, |counts|, Sum(counts), visits', counts')
    ensures Shared(quanta, poll, 0, 0, visits + visits', counts + counts')
  {
    hide TakesShare, Sum;
    var n := |counts|;
    forall i | 0 <= i < |counts + counts'|
      ensures SharedAt(quanta, poll, 0, 0, visits + visits', counts + counts', i)
    {
      if i < n {
        assert SharedAt(quanta, poll, 0, 0, visits, counts, i);
        assert (counts + counts')[..i] == counts[..i];
      } else {
        assert SharedAt(quanta, poll, n, Sum(counts), visits', counts', i - n);
        assert (counts + counts')[..i] == counts + counts'[..i - n];
        SumAppend(counts, counts'[..i - n]);
      }
    }
  }

  ghost predicate RoundOk(quanta: seq<nat>, poll: Poll, start: nat, drained: nat, at: nat, w: Walk)
    requires quanta != []
  {
    var n, visits := |quanta|, Sweep(start, |w.counts|, |quanta|);
    && Answered(poll.sockets, at, visits, w.counts) && WithinQuantum(w.counts) && FailsLast(poll, at, visits, w.failed)
    && Shared(quanta, poll, at, drained, visits, w.counts)
    && w.drained == drained + Sum(w.counts) <= poll.maxFrames
    && w.cursor == PlaceAfter(start, Productive(w.counts), n)
    && (w.drained >= poll.maxFrames ==> Productive(w.counts) == |w.counts|)
  }

  lemma RoundOkStart(quanta: seq<nat>, poll: Poll, start: nat, drained: nat, at: nat)
    requires QuantaOk(quanta) && start < |quanta| && drained < poll.maxFrames
    ensures RoundOk(quanta, poll, start, drained, at, Walk(start, drained, [], false))
  {
    hide PlaceAfter;
    Wraps(start, 0, |quanta|, start);
  }

  lemma CountOneMore(poll: Poll, at: nat, visits: seq<nat>, counts: seq<nat>, v: nat, c: nat, fails: bool)
    requires Answered(poll.sockets, at, visits, counts) && WithinQuantum(counts) && FailsLast(poll, at, visits, false)
    requires Takes(poll.sockets(at + |counts|, v), c) && c <= SMALL_PACKET_PATH_DRAIN_QUANTUM
    requires fails <==> poll.sockets(at + |counts|, v).Fails?
    ensures Answered(poll.sockets, at, visits + [v], counts + [c]) && WithinQuantum(counts + [c])
    ensures FailsLast(poll, at, visits + [v], fails)
    ensures Sum(counts + [c]) == Sum(counts) + c
    ensures Productive(counts + [c]) == if c > 0 then |counts| + 1 else Productive(counts)
  {
    hide Takes;
    assert (counts + [c])[..|counts|] == counts;
  }

  lemma VisitOk(quanta: seq<nat>, poll: Poll, start: nat, drained: nat, at: nat, w: Walk)
    requires QuantaOk(quanta) && start < |quanta| && |w.counts| < |quanta|
    requires RoundOk(quanta, poll, start, drained, at, w) && !Ended(poll, w)
    ensures RoundOk(quanta, poll, start, drained, at, Visit(quanta, poll, start, at, w))
    ensures |Visit(quanta, poll, start, at, w).counts| == |w.counts| + 1
  {
    hide Answered, WithinQuantum, FailsLast, Shared, SocketBudget, PlaceAfter, Sum, Productive, Sweep, IsShare;
    var n, k := |quanta|, |w.counts|;
    var place := PlaceAfter(start, k, n);
    VisitTakes(quanta, poll, start, at, w);
    NextCursor(start, k, n);
    var answer, w' := poll.sockets(at + k, place), Visit(quanta, poll, start, at, w);
    assert w'.counts == w.counts + [w'.counts[k]];
    SweepNext(start, k, n);
    CountOneMore(poll, at, Sweep(start, k, n), w.counts, place, w'.counts[k], answer.Fails?);
    SharedSnoc(quanta, poll, at, drained, Sweep(start, k, n), w.counts, place, w'.counts[k]);
  }

  lemma VisitTakes(quanta: seq<nat>, poll: Poll, start: nat, at: nat, w: Walk)
    requires QuantaOk(quanta) && start < |quanta| && !Ended(poll, w)
    ensures var n, k, place := |quanta|, |w.counts|, PlaceAfter(start, |w.counts|, |quanta|);
      var c := Visit(quanta, poll, start, at, w).counts[k];
      var answer, remaining := poll.sockets(at + k, place), poll.maxFrames - w.drained;
      && TakesShare(answer, c, remaining, n, quanta[place]) && Takes(answer, c)
      && c <= Min(remaining, quanta[place])
  {
    hide SocketBudget, PlaceAfter;
    BudgetFits(poll.maxFrames - w.drained, |quanta|, quanta[PlaceAfter(start, |w.counts|, |quanta|)]);
  }

  lemma SweepNext(start: nat, k: nat, n: nat)
    requires n > 0
    ensures Sweep(start, k + 1, n) == Sweep(start, k, n) + [PlaceAfter(start, k, n)]
  {
  }

  /** Every round: sockets in order from the cursor, a failure only as its last answer, the cursor behind the last
      productive visit, and the round cut short only by the budget or a failure. */
  lemma {:induction false} RoundIsOk(quanta: seq<nat>, poll: Poll, start: nat, drained: nat, at: nat, k: nat)
    requires QuantaOk(quanta) && start < |quanta| && drained < poll.maxFrames && k <= |quanta|
    ensures var w := RoundUpTo(quanta, poll, start, drained, at, k);
      RoundOk(quanta, poll, start, drained, at, w) && |w.counts| <= k && (|w.counts| < k ==> Ended(poll, w))
    decreases k
  {
    hide RoundOk, Visit;
    if k == 0 {
      RoundOkStart(quanta, poll, start, drained, at);
    } else {
      RoundIsOk(quanta, poll, start, drained, at, k - 1);
      var w := RoundUpTo(quanta, poll, start, drained, at, k - 1);
      if !Ended(poll, w) {
        VisitOk(quanta, poll, start, drained, at, w);
      }
    }
  }

  // ----- one call -------------------------------------------------------------

  /** A call so far: cursor, frames, visits and what they took; and of its last round the start and the counts. */
  datatype Call = Call(cursor: nat, drained: nat, visits: seq<nat>, counts: seq<nat>, failed: bool, start: nat,
                       round: seq<nat>)

  function NewCall(cursor: nat): Call { Call(cursor, 0, [], [], false, cursor, []) }

  function NextRound(quanta: seq<nat>, poll: Poll, c: Call): Call
    requires quanta != []
  {
    var w := RoundUpTo(quanta, poll, c.cursor, c.drained, |c.counts|, |quanta|);
    Call(w.cursor, w.drained, c.visits + Sweep(c.cursor, |w.counts|, |quanta|), c.counts + w.counts, w.failed,
      c.cursor, w.counts)
  }

  /** Round after round until the budget is used up, a round takes nothing, or a handler fails. */
  function CallFrom(quanta: seq<nat>, poll: Poll, c: Call): Call
    requires quanta != []
    decreases poll.maxFrames - c.drained
  {
    if c.drained >= poll.maxFrames then c
    else
      var c' := NextRound(quanta, poll, c);
      if c'.failed || c'.drained <= c.drained then c' else CallFrom(quanta, poll, c')
  }

  function DrainCall(quanta: seq<nat>, cursor: nat, poll: Poll): Call {
    if quanta == [] then NewCall(cursor) else CallFrom(quanta, poll, NewCall(cursor))
  }

  ghost predicate CallOk(quanta: seq<nat>, poll: Poll, c: Call) {
    && c.cursor < |quanta| && c.drained == Sum(c.counts) <= poll.maxFrames
    && Answered(poll.sockets, 0, c.visits, c.counts) && WithinQuantum(c.counts)
    && Shared(quanta, poll, 0, 0, c.visits, c.counts) && FailsLast(poll, 0, c.visits, c.failed)
  }

  /** What the last round says of the call: its visits, and where it leaves the cursor. */
  ghost predicate LastRoundOk(quanta: seq<nat>, poll: Poll, c: Call)
    requires quanta != []
  {
    var n, k := |quanta|, |c.round|;
    && c.start < n && k <= n && k <= |c.counts| && c.round == c.counts[|c.counts| - k..]
    && k <= |c.visits| && c.visits[|c.visits| - k..] == Sweep(c.start, k, n)
    && c.cursor == PlaceAfter(c.start, Productive(c.round), n)
    && (k < n && !c.failed ==> Productive(c.round) == k)
  }

  /** The last visits were a whole round, and every one of them found its socket empty. */
  ghost predicate EndsWithEmptyRound(quanta: seq<nat>, c: Call)
    requires quanta != []
  {
    var n := |quanta|;
    && |c.counts| >= n && |c.visits| >= n && c.visits[|c.visits| - n..] == Sweep(c.cursor, n, n)
    && (forall i :: |c.counts| - n <= i < |c.counts| ==> c.counts[i] == 0)
  }

  lemma NewCallOk(quanta: seq<nat>, poll: Poll, cursor: nat)
    requires QuantaOk(quanta) && cursor < |quanta|
    ensures CallOk(quanta, poll, NewCall(cursor)) && LastRoundOk(quanta, poll, NewCall(cursor))
  {
    hide PlaceAfter;
    Wraps(cursor, 0, |quanta|, cursor);
  }

  lemma {:induction false} ProductiveNothing(counts: seq<nat>)
    requires forall i :: 0 <= i < |counts| ==> counts[i] == 0
    ensures Productive(counts) == 0
    decreases |counts|
  {
    if counts == [] {
    } else {
      ProductiveNothing(counts[..|counts| - 1]);
    }
  }

  lemma JoinAnswers(poll: Poll, visits: seq<nat>, counts: seq<nat>, visits': seq<nat>, counts': seq<nat>, failed: bool)
    requires Answered(poll.sockets, 0, visits, counts) && Answered(poll.sockets, |counts|, visits', counts')
    requires FailsLast(poll, 0, visits, false) && FailsLast(poll, |counts|, visits', failed)
    requires WithinQuantum(counts) && WithinQuantum(counts')
    ensures Answered(poll.sockets, 0, visits + visits', counts + counts') && WithinQuantum(counts + counts')
    ensures FailsLast(poll, 0, visits + visits', failed)
  {
    hide Takes;
    var n := |counts|;
    forall i | 0 <= i < |counts + counts'|
      ensures Takes(poll.sockets(i, (visits + visits')[i]), (counts + counts')[i])
      ensures poll.sockets(i, (visits + visits')[i]).Fails? <==> failed && i == |visits + visits'| - 1
    {
      if i >= n {
        var m := i - n;
        assert Takes(poll.sockets(n + m, visits'[m]), counts'[m]);
        assert poll.sockets(n + m, visits'[m]).Fails? <==> failed && m == |visits'| - 1;
      }
    }
  }

  lemma NextRoundOk(quanta: seq<nat>, poll: Poll, c: Call)
    requires QuantaOk(quanta) && CallOk(quanta, poll, c) && !c.failed && c.drained < poll.maxFrames
    ensures var c' := NextRound(quanta, poll, c);
      && CallOk(quanta, poll, c') && LastRoundOk(quanta, poll, c') && c'.drained >= c.drained
      && (!c'.failed && c'.drained == c.drained ==> EndsWithEmptyRound(quanta, c'))
      && c'.visits == c.visits + Sweep(c'.start, |c'.round|, |quanta|) && c'.start == c.cursor
  {
    hide Answered, WithinQuantum, FailsLast, Shared, Sum, Productive, Sweep, PlaceAfter;
    var n := |quanta|;
    RoundIsOk(quanta, poll, c.cursor, c.drained, |c.counts|, n);
    var w, c' := RoundUpTo(quanta, poll, c.cursor, c.drained, |c.counts|, n), NextRound(quanta, poll, c);
    var visits := Sweep(c.cursor, |w.counts|, n);
    SweepLength(c.cursor, |w.counts|, n);
    SumAppend(c.counts, w.counts);
    JoinAnswers(poll, c.visits, c.counts, visits, w.counts, w.failed);
    SharedJoin(quanta, poll, c.visits, c.counts, visits, w.counts);
    assert c'.counts[|c.counts|..] == w.counts && c'.visits[|c.visits|..] == visits;
    if !c'.failed && c'.drained == c.drained {
      EmptyRound(w.counts);
      ProductiveNothing(w.counts);
      Wraps(c.cursor, 0, n, c.cursor);
    }
  }

  /** Every call, from any point of it: the budget, the answers, its last round, and why it stopped. */
  lemma {:induction false} CallFromOk(quanta: seq<nat>, poll: Poll, c: Call)
    requires QuantaOk(quanta) && CallOk(quanta, poll, c) && LastRoundOk(quanta, poll, c) && !c.failed
    ensures var r := CallFrom(quanta, poll, c);
      && CallOk(quanta, poll, r) && LastRoundOk(quanta, poll, r)
      && (!r.failed && r.drained < poll.maxFrames ==> EndsWithEmptyRound(quanta, r))
    decreases poll.maxFrames - c.drained
  {
    hide CallOk, LastRoundOk, EndsWithEmptyRound, NextRound;
    if c.drained >= poll.maxFrames {
      assert CallFrom(quanta, poll, c) == c;
    } else {
      ShowDrained(quanta, poll, c);
      NextRoundOk(quanta, poll, c);
      var c' := NextRound(quanta, poll, c);
      if !c'.failed && c'.drained > c.drained {
        CallFromOk(quanta, poll, c');
      }
    }
  }

  lemma ShowDrained(quanta: seq<nat>, poll: Poll, c: Call)
    requires CallOk(quanta, poll, c)
    ensures c.drained <= poll.maxFrames && c.cursor < |quanta|
  {
  }

  /** Every call stays within its budget; a failure is its last visit's answer and no other's; and a call that stops
      early without one ends in a whole round of sockets found empty. */
  lemma DrainCallOk(quanta: seq<nat>, cursor: nat, poll: Poll)
    requires QuantaOk(quanta) && cursor < |quanta|
    ensures var r := DrainCall(quanta, cursor, poll);
      && CallOk(quanta, poll, r) && LastRoundOk(quanta, poll, r)
      && (!r.failed && r.drained < poll.maxFrames ==> EndsWithEmptyRound(quanta, r))
  {
    NewCallOk(quanta, poll, cursor);
    CallFromOk(quanta, poll, NewCall(cursor));
  }

  // ----- fairness of one call -------------------------------------------------

  /** The visits of a call before its last round. */
  function BeforeLastRound(c: Call): seq<nat>
    requires |c.round| <= |c.visits|
  {
    c.visits[..|c.visits| - |c.round|]
  }

  ghost predicate FairUpToLastRound(quanta: seq<nat>, before: seq<nat>, c: Call) {
    && c.start < |quanta| && |c.round| <= |c.visits|
    && Promised(before + BeforeLastRound(c), c.start, |quanta|) && EverFair(before + c.visits, |quanta|)
  }

  lemma {:induction false} CallFromFair(quanta: seq<nat>, poll: Poll, c: Call, before: seq<nat>)
    requires QuantaOk(quanta) && CallOk(quanta, poll, c) && LastRoundOk(quanta, poll, c) && !c.failed
    requires FairUpToLastRound(quanta, before, c) && Promised(before + c.visits, c.cursor, |quanta|)
    ensures FairUpToLastRound(quanta, before, CallFrom(quanta, poll, c))
    decreases poll.maxFrames - c.drained
  {
    hide CallOk, LastRoundOk, NextRound, Promised, EverFair, Sweep;
    if c.drained >= poll.maxFrames {
      assert CallFrom(quanta, poll, c) == c;
    } else {
      ShowDrained(quanta, poll, c);
      NextRoundOk(quanta, poll, c);
      var c' := NextRound(quanta, poll, c);
      RoundCarriesOn(quanta, poll, c, before);
      if !c'.failed && c'.drained > c.drained {
        CallFromFair(quanta, poll, c', before);
      }
    }
  }

  lemma RoundCarriesOn(quanta: seq<nat>, poll: Poll, c: Call, before: seq<nat>)
    requires QuantaOk(quanta) && CallOk(quanta, poll, c) && !c.failed && c.drained < poll.maxFrames
    requires Promised(before + c.visits, c.cursor, |quanta|) && EverFair(before + c.visits, |quanta|)
    ensures var c' := NextRound(quanta, poll, c);
      && FairUpToLastRound(quanta, before, c') && c'.cursor < |quanta|
      && (!c'.failed ==> Promised(before + c'.visits, c'.cursor, |quanta|))
  {
    hide CallOk, NextRound, Promised, EverFair, Productive, PlaceAfter;
    NextRoundOk(quanta, poll, c);
    var c', n := NextRound(quanta, poll, c), |quanta|;
    ShowDrained(quanta, poll, c);
    ShowDrained(quanta, poll, c');
    var k, sweep := |c'.round|, Sweep(c.cursor, |c'.round|, n);
    SweepLength(c.cursor, k, n);
    assert before + c.visits + sweep == before + c'.visits;
    assert BeforeLastRound(c') == c.visits;
    RoundIsFair(before + c.visits, c.cursor, k, n);
    if !c'.failed {
      RoundKeepsPromise(before + c.visits, c.cursor, k, Productive(c'.round), n);
    }
  }

  /** At no moment of a call that begins with the promise has any socket waited longer than `2 (n - 1)` visits, failing
      or not. The promise is handed on to the next call if and only if the call did not fail, or the sockets its last
      round left out have room for the unproductive visits at that round's end. */
  lemma CallHandsOnPromise(quanta: seq<nat>, cursor: nat, poll: Poll, before: seq<nat>)
    requires QuantaOk(quanta) && cursor < |quanta| && Promised(before, cursor, |quanta|) && EverFair(before, |quanta|)
    ensures var r, n := DrainCall(quanta, cursor, poll), |quanta|;
      && r.cursor < n && FairUpToLastRound(quanta, before, r)
      && (!r.failed ==> Promised(before + r.visits, r.cursor, n))
      && (Promised(before + r.visits, r.cursor, n) <==>
          RoomLeft(before + BeforeLastRound(r), r.start, |r.round|, |r.round| - Productive(r.round), n))
  {
    hide CallFrom, Promised, EverFair, RoomLeft, CallOk, LastRoundOk, EndsWithEmptyRound, BeforeLastRound;
    NewCallOk(quanta, poll, cursor);
    NewCallFair(quanta, cursor, before);
    CallFromFair(quanta, poll, NewCall(cursor), before);
    DrainCallOk(quanta, cursor, poll);
    LastRoundDecides(quanta, poll, before, DrainCall(quanta, cursor, poll));
  }

  lemma NewCallFair(quanta: seq<nat>, cursor: nat, before: seq<nat>)
    requires QuantaOk(quanta) && cursor < |quanta| && Promised(before, cursor, |quanta|) && EverFair(before, |quanta|)
    ensures FairUpToLastRound(quanta, before, NewCall(cursor)) && before + NewCall(cursor).visits == before
  {
    assert before + [] == before;
  }

  lemma LastRoundDecides(quanta: seq<nat>, poll: Poll, before: seq<nat>, r: Call)
    requires QuantaOk(quanta) && CallOk(quanta, poll, r) && LastRoundOk(quanta, poll, r)
    requires FairUpToLastRound(quanta, before, r)
    ensures var n := |quanta|;
      && (!r.failed ==> Promised(before + r.visits, r.cursor, n))
      && (Promised(before + r.visits, r.cursor, n) <==>
          RoomLeft(before + BeforeLastRound(r), r.start, |r.round|, |r.round| - Productive(r.round), n))
  {
    hide Promised, EverFair, Productive, PlaceAfter, RoomLeft, Sweep, Answered, WithinQuantum, FailsLast, Shared;
    var n, k, j := |quanta|, |r.round|, Productive(r.round);
    assert BeforeLastRound(r) + Sweep(r.start, k, n) == r.visits;
    assert before + BeforeLastRound(r) + Sweep(r.start, k, n) == before + r.visits;
    PromiseAfterRound(before + BeforeLastRound(r), r.start, k, j, n);
    if !r.failed {
      RoundKeepsPromise(before + BeforeLastRound(r), r.start, k, j, n);
    }
  }

  // ----- runs of calls --------------------------------------------------------

  /** The socket set between calls: its cursor, and every visit ever made. */
  datatype State = State(cursor: nat, visits: seq<nat>)

  function After(quanta: seq<nat>, st: State, polls: seq<Poll>): State {
    if polls == [] then st
    else
      var before := After(quanta, st, polls[..|polls| - 1]);
      var c := DrainCall(quanta, before.cursor, polls[|polls| - 1]);
      State(c.cursor, before.visits + c.visits)
  }

  /** No handler ever fails, whatever is visited when. */
  ghost predicate NeverFails(poll: Poll) { forall i, p :: !poll.sockets(i, p).Fails? }

  lemma NeverFailsIsClean(quanta: seq<nat>, cursor: nat, poll: Poll)
    requires QuantaOk(quanta) && cursor < |quanta| && NeverFails(poll)
    ensures !DrainCall(quanta, cursor, poll).failed
  {
    hide DrainCall, Answered, LastRoundOk, EndsWithEmptyRound;
    DrainCallOk(quanta, cursor, poll);
    var r := DrainCall(quanta, cursor, poll);
    var last := |r.visits| - 1;
    assert r.visits != [] ==> !poll.sockets(0 + last, r.visits[last]).Fails?;
  }

  lemma FairAtStart(n: nat)
    requires n > 0
    ensures Promised([], 0, n) && EverFair([], n)
  {
    forall p: nat | p < n ensures InTime([], 0, n, p) {
    }
  }

  /** Over every run of calls without handler failures: fair at every moment, and the promise stands. */
  lemma {:induction false} RunIsFair(quanta: seq<nat>, polls: seq<Poll>)
    requires QuantaOk(quanta) && forall i :: 0 <= i < |polls| ==> NeverFails(polls[i])
    ensures var st := After(quanta, State(0, []), polls);
      st.cursor < |quanta| && Promised(st.visits, st.cursor, |quanta|) && EverFair(st.visits, |quanta|)
    decreases |polls|
  {
    hide DrainCall, NeverFails, Promised, EverFair, RoomLeft;
    if polls == [] {
      FairAtStart(|quanta|);
    } else {
      var init, poll := polls[..|polls| - 1], polls[|polls| - 1];
      RunIsFair(quanta, init);
      var before := After(quanta, State(0, []), init);
      NeverFailsIsClean(quanta, before.cursor, poll);
      CallHandsOnPromise(quanta, before.cursor, poll, before.visits);
    }
  }

  /** So in such a run at most `2 (n - 1)` visits to others fall between two visits to a socket. */
  lemma RunVisitsBetween(quanta: seq<nat>, polls: seq<Poll>, i: nat, j: nat)
    requires QuantaOk(quanta) && forall k :: 0 <= k < |polls| ==> NeverFails(polls[k])
    requires var visits := After(quanta, State(0, []), polls).visits;
      i < j < |visits| && visits[i] == visits[j] < |quanta| && forall m :: i < m < j ==> visits[m] != visits[i]
    ensures j - i - 1 <= 2 * (|quanta| - 1)
  {
    hide After, EverFair, Promised;
    RunIsFair(quanta, polls);
    VisitsBetween(After(quanta, State(0, []), polls).visits, |quanta|, i, j);
  }

  // ----- failing handlers starve the others -----------------------------------

  lemma FirstVisitFails(quanta: seq<nat>, cursor: nat, poll: Poll)
    requires QuantaOk(quanta) && cursor < |quanta| && poll.maxFrames > 0 && poll.sockets(0, cursor).Fails?
    ensures DrainCall(quanta, cursor, poll) == Call(cursor, 0, [cursor], [0], true, cursor, [0])
  {
    var n := |quanta|;
    Wraps(cursor, 0, n, cursor);
    assert RoundUpTo(quanta, poll, cursor, 0, 0, 0) == Walk(cursor, 0, [], false);
    assert RoundUpTo(quanta, poll, cursor, 0, 0, 1) == Walk(cursor, 0, [0], true);
    EndedStays(quanta, poll, cursor, 0, 0, 1, n);
    assert Sweep(cursor, 0, n) == [] && Sweep(cursor, 1, n) == [cursor];
    assert NextRound(quanta, poll, NewCall(cursor)) == Call(cursor, 0, [cursor], [0], true, cursor, [0]);
  }

  lemma {:induction false} EndedStays(quanta: seq<nat>, poll: Poll, start: nat, drained: nat, at: nat, j: nat, k: nat)
    requires quanta != [] && j <= k && Ended(poll, RoundUpTo(quanta, poll, start, drained, at, j))
    ensures RoundUpTo(quanta, poll, start, drained, at, k) == RoundUpTo(quanta, poll, start, drained, at, j)
    decreases k
  {
    hide Visit;
    if j < k {
      EndedStays(quanta, poll, start, drained, at, j, k - 1);
    }
  }

  /** While the socket under the cursor fails in every call, no other socket is ever visited: each waits one visit
      longer with every call, without bound. */
  lemma {:induction false} FailingSocketStarvesOthers(quanta: seq<nat>, st: State, polls: seq<Poll>, q: nat)
    requires QuantaOk(quanta) && st.cursor < |quanta| && q < |quanta| && q != st.cursor
    requires forall i :: 0 <= i < |polls| ==> polls[i].maxFrames > 0 && polls[i].sockets(0, st.cursor).Fails?
    ensures var after := After(quanta, st, polls);
      after.cursor == st.cursor && Since(after.visits, q) == Since(st.visits, q) + |polls|
    decreases |polls|
  {
    hide DrainCall, Since;
    if polls == [] {
      assert After(quanta, st, polls) == st;
    } else {
      var init, poll := polls[..|polls| - 1], polls[|polls| - 1];
      FailingSocketStarvesOthers(quanta, st, init, q);
      FirstVisitFails(quanta, st.cursor, poll);
      SinceSnoc(After(quanta, st, init).visits, st.cursor, q);
    }
  }

  /** So with two sockets or more no bound on waiting survives failing handlers. */
  lemma StarvationIsUnfair(quanta: seq<nat>, st: State, polls: seq<Poll>)
    requires QuantaOk(quanta) && |quanta| >= 2 && st.cursor < |quanta| && |polls| > 2 * (|quanta| - 1)
    requires forall i :: 0 <= i < |polls| ==> polls[i].maxFrames > 0 && polls[i].sockets(0, st.cursor).Fails?
    ensures !EverFair(After(quanta, st, polls).visits, |quanta|)
  {
    hide After, Since;
    FailingSocketStarvesOthers(quanta, st, polls, if st.cursor == 0 then 1 else 0);
  }

  // ----- the bound is exact ---------------------------------------------------

  /** One datagram at the first visit, one at the last of the second round, nothing else. */
  function Sparse(n: nat): Poll { Poll(2, (i, p) => if i == 0 || i == 2 * n - 2 then Waiting(1) else Waiting(0)) }

  lemma TakesOne(poll: Poll, drained: nat, n: nat, quantum: nat)
    requires n > 0 && quantum >= 1 && drained < poll.maxFrames
    ensures Min(1, SocketBudget(poll.maxFrames - drained, n, quantum)) == 1
    ensures Min(0, SocketBudget(poll.maxFrames - drained, n, quantum)) == 0
  {
    hide SocketBudget;
    BudgetFits(poll.maxFrames - drained, n, quantum);
  }

  lemma {:induction false} SparseFirstRound(quanta: seq<nat>, k: nat)
    requires QuantaOk(quanta) && |quanta| >= 2 && 1 <= k <= |quanta|
    ensures var w := RoundUpTo(quanta, Sparse(|quanta|), 0, 0, 0, k);
      w.cursor == 1 && w.drained == 1 && |w.counts| == k && !w.failed
    decreases k
  {
    hide SocketBudget, PlaceAfter;
    var n, poll := |quanta|, Sparse(|quanta|);
    var place := PlaceAfter(0, k - 1, n);
    Wraps(0, k - 1, n, 0);
    Wraps(0, 1, n, 0);
    if k == 1 {
      TakesOne(poll, 0, n, quanta[0]);
      assert RoundUpTo(quanta, poll, 0, 0, 0, 0) == Walk(0, 0, [], false);
    } else {
      SparseFirstRound(quanta, k - 1);
      TakesOne(poll, 1, n, quanta[place]);
    }
  }

  lemma {:induction false} SparseSecondRound(quanta: seq<nat>, k: nat)
    requires QuantaOk(quanta) && |quanta| >= 2 && k <= |quanta| - 1
    ensures var n := |quanta|;
      var w := RoundUpTo(quanta, Sparse(n), 1, 1, n, k);
      |w.counts| == k && !w.failed && w.drained == if k == n - 1 then 2 else 1
    decreases k
  {
    hide SocketBudget, PlaceAfter;
    var n, poll := |quanta|, Sparse(|quanta|);
    if k > 0 {
      SparseSecondRound(quanta, k - 1);
      TakesOne(poll, 1, n, quanta[PlaceAfter(1, k - 1, n)]);
    } else {
      assert RoundUpTo(quanta, poll, 1, 1, n, 0) == Walk(1, 1, [], false);
    }
  }

  /** The bound is attained: for every number of sockets a single call, from the start, leaves the first socket waiting
      exactly `2 (n - 1)` visits. */
  lemma BoundIsReached(quanta: seq<nat>)
    requires QuantaOk(quanta) && |quanta| >= 2
    ensures var n := |quanta|;
      var c := DrainCall(quanta, 0, Sparse(n));
      c.visits == Sweep(0, n, n) + Sweep(1, n - 1, n) && !c.failed && Since(c.visits, 0) == 2 * (n - 1)
  {
    hide Since, Sweep, RoundUpTo;
    var n, poll := |quanta|, Sparse(|quanta|);
    SparseFirstRound(quanta, n);
    SparseSecondRound(quanta, n - 1);
    EndedStays(quanta, poll, 1, 1, n, n - 1, n);
    var c0, c1 := NewCall(0), NextRound(quanta, poll, NewCall(0));
    assert [] + Sweep(0, n, n) == Sweep(0, n, n);
    assert c1.cursor == 1 && c1.drained == 1 && |c1.counts| == n && c1.visits == Sweep(0, n, n);
    var c2 := NextRound(quanta, poll, c1);
    assert c2.drained == 2 && c2.visits == Sweep(0, n, n) + Sweep(1, n - 1, n);
    assert CallFrom(quanta, poll, c2) == c2;
    assert CallFrom(quanta, poll, c1) == c2;
    SinceDuringRound([], 0, n, n, 0);
    SinceDuringRound(Sweep(0, n, n), 1, n - 1, n, 0);
  }

  // ----- the socket set -------------------------------------------------------

  class PathTransportSet {
    const quanta: seq<nat>
    var drainCursor: nat
    ghost var visits: seq<nat>

    ghost predicate Valid()
      reads this
    {
      quanta != [] ==> QuantaOk(quanta) && drainCursor < |quanta|
    }

    ghost predicate Fair()
      requires Valid()
      reads this
    {
      quanta != [] ==> Promised(visits, drainCursor, |quanta|) && EverFair(visits, |quanta|)
    }

    constructor (mtus: seq<nat>)
      ensures Valid() && Fair() && visits == [] && drainCursor == 0 && |quanta| == |mtus|
      ensures forall i :: 0 <= i < |mtus| ==> quanta[i] == if mtus[i] <= 1500 then 32 else 16
    {
      quanta := seq(|mtus|, i requires 0 <= i < |mtus| => DrainQuantumForPath(mtus[i]));
      drainCursor := 0;
      visits := [];
      new;
      if mtus != [] {
        FairAtStart(|mtus|);
      }
    }

    /** One round: every socket once from the cursor on, or until the budget is used up or a handler fails. */
    method DrainRound(poll: Poll, drained: nat, at: nat)
      returns (drained': nat, at': nat, failed: bool, ghost counts: seq<nat>)
      requires Valid() && quanta != [] && drained < poll.maxFrames
      modifies this
      ensures var w := RoundUpTo(quanta, poll, old(drainCursor), drained, at, |quanta|);
        && (drainCursor, drained', counts, failed) == (w.cursor, w.drained, w.counts, w.failed) && at' == at + |counts|
        && visits == old(visits) + Sweep(old(drainCursor), |counts|, |quanta|)
        && RoundOk(quanta, poll, old(drainCursor), drained, at, w)
    {
      hide SocketBudget, PlaceAfter, Sweep, RoundUpTo, RoundOk;
      RoundIsOk(quanta, poll, drainCursor, drained, at, |quanta|);
      var n, start := |quanta|, drainCursor;
      drained', at', failed, counts := drained, at, false, [];
      var offset := 0;
      NoVisits(quanta, poll, visits, start, drained, at);
      while offset < n && drained' < poll.maxFrames
        invariant offset == |counts| <= n && !failed && at' == at + offset
        invariant visits == old(visits) + Sweep(start, offset, n)
        invariant RoundUpTo(quanta, poll, start, drained, at, offset) == Walk(drainCursor, drained', counts, false)
      {
        var cursor := PlaceAfter(start, offset, n);
        var remaining := poll.maxFrames - drained';
        var budget := SocketBudget(remaining, n, quanta[cursor]);
        var answer := poll.sockets(at', cursor);
        at' := at' + 1;
        SweepNext(start, offset, n);
        RoundStep(quanta, poll, start, drained, at, offset);
        visits := visits + [cursor];
        offset := offset + 1;
        if answer.Fails? {
          counts := counts + [0];
          failed := true;
          EndedStays(quanta, poll, start, drained, at, offset, n);
          return;
        }
        var count := Min(answer.datagrams, budget);
        counts := counts + [count];
        if count > 0 {
          drained' := drained' + count;
          drainCursor := PlaceAfter(cursor, 1, n);
        }
      }
      if offset < n {
        EndedStays(quanta, poll, start, drained, at, offset, n);
      }
    }

    /** Drains until the budget is used up, a whole round finds nothing, or a handler fails: never more than the budget;
        a failure exactly when some visit's handler fails, which is then the last; an early stop without one only after
        a whole round of empty sockets; no socket ever kept waiting beyond the bound by a call that began fair, and
        fairness handed on exactly as `CallHandsOnPromise` says. */
    method DrainAvailable(poll: Poll) returns (drained: nat, failed: bool, ghost call: Call)
      requires Valid()
      modifies this
      ensures Valid() && call == DrainCall(quanta, old(drainCursor), poll)
      ensures (drainCursor, drained, failed) == (call.cursor, call.drained, call.failed)
      ensures visits == old(visits) + call.visits
      ensures drained == Sum(call.counts) <= poll.maxFrames && WithinQuantum(call.counts)
      ensures Answered(poll.sockets, 0, call.visits, call.counts) && FailsLast(poll, 0, call.visits, failed)
      ensures Shared(quanta, poll, 0, 0, call.visits, call.counts)
      ensures !failed && drained < poll.maxFrames && quanta != [] ==> EndsWithEmptyRound(quanta, call)
      ensures old(Fair()) && quanta != [] ==> EverFair(visits, |quanta|)
      ensures old(Fair()) && !failed ==> Fair()
    {
      hide CallFrom, NextRound, RoundUpTo, EverFair, Promised, EndsWithEmptyRound, LastRoundOk, RoomLeft, Sweep;
      hide RoundOk, Shared;
      call := NewCall(drainCursor);
      drained, failed := 0, false;
      NothingShared(quanta, poll);
      if quanta == [] {
        return;
      }
      DrainCallOk(quanta, drainCursor, poll);
      if Fair() {
        CallHandsOnPromise(quanta, drainCursor, poll, visits);
      }
      var at := 0;
      while drained < poll.maxFrames
        invariant !failed && !call.failed && Valid()
        invariant (drainCursor, drained, at) == (call.cursor, call.drained, |call.counts|)
        invariant visits == old(visits) + call.visits
        invariant CallFrom(quanta, poll, call) == DrainCall(quanta, old(drainCursor), poll)
        invariant CallOk(quanta, poll, call)
      {
        ghost var c := call;
        var before := drained;
        ghost var counts;
        drained, at, failed, counts := DrainRound(poll, drained, at);
        NextRoundOk(quanta, poll, c);
        CallFromStep(quanta, poll, c);
        call := NextRound(quanta, poll, c);
        NextRoundIs(quanta, poll, c);
        if failed || drained == before {
          return;
        }
      }
      CallFromEnds(quanta, poll, call);
    }
  }

  lemma NoVisits(quanta: seq<nat>, poll: Poll, visits: seq<nat>, start: nat, drained: nat, at: nat)
    requires quanta != []
    ensures visits + Sweep(start, 0, |quanta|) == visits
    ensures RoundUpTo(quanta, poll, start, drained, at, 0) == Walk(start, drained, [], false)
  {
  }

  lemma RoundStep(quanta: seq<nat>, poll: Poll, start: nat, drained: nat, at: nat, k: nat)
    requires quanta != []
    ensures var w := RoundUpTo(quanta, poll, start, drained, at, k);
      !Ended(poll, w) ==> RoundUpTo(quanta, poll, start, drained, at, k + 1) == Visit(quanta, poll, start, at, w)
  {
    hide Visit;
  }

  lemma CallFromStep(quanta: seq<nat>, poll: Poll, c: Call)
    requires quanta != [] && c.drained < poll.maxFrames
    ensures var c' := NextRound(quanta, poll, c);
      CallFrom(quanta, poll, c) == if c'.failed || c'.drained <= c.drained then c' else CallFrom(quanta, poll, c')
  {
    hide NextRound;
  }

  lemma CallFromEnds(quanta: seq<nat>, poll: Poll, c: Call)
    requires quanta != [] && c.drained >= poll.maxFrames
    ensures CallFrom(quanta, poll, c) == c
  {
  }

  lemma NextRoundIs(quanta: seq<nat>, poll: Poll, c: Call)
    requires quanta != []
    ensures var w, c' := RoundUpTo(quanta, poll, c.cursor, c.drained, |c.counts|, |quanta|), NextRound(quanta, poll, c);
      && (c'.cursor, c'.drained, c'.failed) == (w.cursor, w.drained, w.failed) && c'.counts == c.counts + w.counts
      && c'.visits == c.visits + Sweep(c.cursor, |w.counts|, |quanta|)
  {
    hide RoundUpTo;
  }
}
