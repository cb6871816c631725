/** What a drain call takes in all: everything that waits, or the whole budget. */
module DrainTotals {
  import opened Bytes
  import opened Drain
  import opened DrainCalls

  /** What the visits to one socket took together. */
  function TakenFrom(visits: seq<nat>, counts: seq<nat>, p: nat): nat
    requires |visits| == |counts|
  {
    if visits == [] then 0
    else
      var k := |visits| - 1;
      TakenFrom(visits[..k], counts[..k], p) + if visits[k] == p then counts[k] else 0
  }

  lemma TakenFromSnoc(visits: seq<nat>, counts: seq<nat>, v: nat, c: nat, p: nat)
    requires |visits| == |counts|
    ensures TakenFrom(visits + [v], counts + [c], p) == TakenFrom(visits, counts, p) + if v == p then c else 0
  {
    assert (visits + [v])[..|visits|] == visits && (counts + [c])[..|counts|] == counts;
  }

  /** What the visits to the sockets below `n` took. */
  function TakenBelow(visits: seq<nat>, counts: seq<nat>, n: nat): nat
    requires |visits| == |counts|
    decreases n
  {
    if n == 0 then 0 else TakenBelow(visits, counts, n - 1) + TakenFrom(visits, counts, n - 1)
  }

  lemma {:induction false} TakenBelowSnoc(visits: seq<nat>, counts: seq<nat>, v: nat, c: nat, n: nat)
    requires |visits| == |counts|
    ensures TakenBelow(visits + [v], counts + [c], n) == TakenBelow(visits, counts, n) + if v < n then c else 0
    decreases n
  {
    hide TakenFrom;
    if n == 0 {
    } else {
      TakenBelowSnoc(visits, counts, v, c, n - 1);
      TakenFromSnoc(visits, counts, v, c, n - 1);
    }
  }

  /** Counting by socket or by visit comes to the same. */
  lemma {:induction false} EveryCountIsSomeSockets(visits: seq<nat>, counts: seq<nat>, n: nat)
    requires |visits| == |counts| && forall i :: 0 <= i < |visits| ==> visits[i] < n
    ensures TakenBelow(visits, counts, n) == Sum(counts)
    decreases |visits|
  {
    hide TakenBelow, Sum;
    if visits == [] {
      NothingTaken(n);
      assert Sum([]) == 0 by { SumOfNone(); }
    } else {
      var k := |visits| - 1;
      assert visits == visits[..k] + [visits[k]] && counts == counts[..k] + [counts[k]];
      EveryCountIsSomeSockets(visits[..k], counts[..k], n);
      TakenBelowSnoc(visits[..k], counts[..k], visits[k], counts[k], n);
      SumAppend(counts[..k], [counts[k]]);
      SumOfOne(counts[k]);
    }
  }

  lemma {:induction false} NothingTaken(n: nat)
    ensures TakenBelow([], [], n) == 0
    decreases n
  {
    if n == 0 {
    } else {
      NothingTaken(n - 1);
    }
  }

  lemma SumOfNone()
    ensures Sum([]) == 0
  {
  }

  lemma SumOfOne(c: nat)
    ensures Sum([c]) == c
  {
  }

  /** The sockets held so much before the call, nothing arrives during it and no handler fails: every visit finds what
      the visits before it left. */
  ghost predicate Stocked(poll: Poll, held: seq<nat>, visits: seq<nat>, counts: seq<nat>) {
    && |visits| == |counts|
    && forall i :: 0 <= i < |visits| ==> FindsRest(poll, held, visits, counts, i)
  }

  ghost predicate FindsRest(poll: Poll, held: seq<nat>, visits: seq<nat>, counts: seq<nat>, i: nat)
    requires i < |visits| == |counts|
  {
    && visits[i] < |held| && poll.sockets(i, visits[i]).Waiting?
    && TakenFrom(visits[..i], counts[..i], visits[i]) + poll.sockets(i, visits[i]).datagrams == held[visits[i]]
  }

  /** No socket gives more than it held. */
  lemma {:induction false} NoneGivesMore(poll: Poll, held: seq<nat>, visits: seq<nat>, counts: seq<nat>, p: nat)
    requires Stocked(poll, held, visits, counts) && Answered(poll.sockets, 0, visits, counts) && p < |held|
    ensures TakenFrom(visits, counts, p) <= held[p]
    decreases |visits|
  {
    if visits == [] {
    } else {
      var k := |visits| - 1;
      forall i | 0 <= i < k
        ensures FindsRest(poll, held, visits[..k], counts[..k], i)
      {
        assert FindsRest(poll, held, visits, counts, i);
        assert visits[..k][..i] == visits[..i] && counts[..k][..i] == counts[..i];
      }
      NoneGivesMore(poll, held, visits[..k], counts[..k], p);
      assert FindsRest(poll, held, visits, counts, k) && Takes(poll.sockets(0 + k, visits[k]), counts[k]);
    }
  }

  /** Visits that took nothing add nothing. */
  lemma {:induction false} NothingMore(visits: seq<nat>, counts: seq<nat>, i: nat, p: nat)
    requires i <= |visits| == |counts| && forall j :: i <= j < |counts| ==> counts[j] == 0
    ensures TakenFrom(visits, counts, p) == TakenFrom(visits[..i], counts[..i], p)
    decreases |visits|
  {
    if i == |visits| {
      assert visits[..i] == visits && counts[..i] == counts;
    } else {
      var k := |visits| - 1;
      NothingMore(visits[..k], counts[..k], i, p);
      assert visits[..k][..i] == visits[..i] && counts[..k][..i] == counts[..i];
    }
  }

  lemma {:induction false} SweepReaches(start: nat, k: nat, n: nat, p: nat)
    requires start < n && k <= n && p < n && Ahead(start, p, n) < k
    ensures |Sweep(start, k, n)| == k && Sweep(start, k, n)[Ahead(start, p, n)] == p
    decreases k
  {
    hide PlaceAfter, Ahead;
    SweepLength(start, k, n);
    SweepLength(start, k - 1, n);
    Wraps(start, Ahead(start, p, n), n, p);
    if Ahead(start, p, n) < k - 1 {
      SweepReaches(start, k - 1, n, p);
    }
  }

  /** A whole round of empty visits at the end leaves nothing in any socket. */
  lemma EmptyRoundEmpties(quanta: seq<nat>, poll: Poll, held: seq<nat>, r: Call, p: nat)
    requires QuantaOk(quanta) && |held| == |quanta| && p < |quanta| && r.cursor < |quanta|
    requires Stocked(poll, held, r.visits, r.counts) && Answered(poll.sockets, 0, r.visits, r.counts)
    requires EndsWithEmptyRound(quanta, r)
    ensures TakenFrom(r.visits, r.counts, p) == held[p]
  {
    hide TakenFrom, Sweep, Ahead;
    var n := |quanta|;
    var a := Ahead(r.cursor, p, n);
    AheadIsNear(r.cursor, p, n);
    SweepReaches(r.cursor, n, n, p);
    var i := |r.visits| - n + a;
    assert r.visits[i] == r.visits[|r.visits| - n..][a] == p && r.counts[i] == 0;
    assert FindsRest(poll, held, r.visits, r.counts, i) && Takes(poll.sockets(0 + i, r.visits[i]), r.counts[i]);
    NothingMore(r.visits, r.counts, i, p);
  }

  lemma AheadIsNear(cursor: nat, p: nat, n: nat)
    requires cursor < n && p < n
    ensures Ahead(cursor, p, n) < n
  {
  }

  lemma {:induction false} TakenAgainstHeld(held: seq<nat>, visits: seq<nat>, counts: seq<nat>, n: nat)
    requires |visits| == |counts| && n <= |held|
    requires forall p :: 0 <= p < n ==> TakenFrom(visits, counts, p) <= held[p]
    ensures TakenBelow(visits, counts, n) <= Sum(held[..n])
    ensures (forall p :: 0 <= p < n ==> TakenFrom(visits, counts, p) == held[p]) ==>
              TakenBelow(visits, counts, n) == Sum(held[..n])
    decreases n
  {
    hide TakenFrom;
    if n == 0 {
    } else {
      TakenAgainstHeld(held, visits, counts, n - 1);
      assert held[..n][..n - 1] == held[..n - 1];
    }
  }

  /** With nothing arriving meanwhile and no failing handler, a call takes the smaller of its budget and all that
      waits, and from no socket more than it held. */
  lemma DrainsAllOrTheBudget(quanta: seq<nat>, cursor: nat, poll: Poll, held: seq<nat>)
    requires QuantaOk(quanta) && cursor < |quanta| && |held| == |quanta|
    requires var r := DrainCall(quanta, cursor, poll); Stocked(poll, held, r.visits, r.counts)
    ensures var r := DrainCall(quanta, cursor, poll);
      && !r.failed && r.drained == Min(poll.maxFrames, Sum(held))
      && forall p :: 0 <= p < |held| ==> TakenFrom(r.visits, r.counts, p) <= held[p]
  {
    hide DrainCall, LastRoundOk, TakenFrom, TakenBelow, Sum, Shared, WithinQuantum, EndsWithEmptyRound;
    var r, n := DrainCall(quanta, cursor, poll), |quanta|;
    DrainCallOk(quanta, cursor, poll);
    forall i | 0 <= i < |r.visits|
      ensures r.visits[i] < n && !poll.sockets(0 + i, r.visits[i]).Fails?
    {
      assert FindsRest(poll, held, r.visits, r.counts, i);
    }
    var last := |r.visits| - 1;
    assert r.visits != [] ==> !poll.sockets(0 + last, r.visits[last]).Fails?;
    EveryCountIsSomeSockets(r.visits, r.counts, n);
    forall p | 0 <= p < n
      ensures TakenFrom(r.visits, r.counts, p) <= held[p]
      ensures r.drained < poll.maxFrames ==> TakenFrom(r.visits, r.counts, p) == held[p]
    {
      NoneGivesMore(poll, held, r.visits, r.counts, p);
      if r.drained < poll.maxFrames {
        EmptyRoundEmpties(quanta, poll, held, r, p);
      }
    }
    TakenAgainstHeld(held, r.visits, r.counts, n);
    assert held[..n] == held;
  }

  /** However the answers come about: a call that never finds an empty socket or a failing handler uses its whole
      budget. */
  lemma BusySocketsFillTheBudget(quanta: seq<nat>, cursor: nat, poll: Poll)
    requires QuantaOk(quanta) && cursor < |quanta|
    requires var visits := DrainCall(quanta, cursor, poll).visits;
      forall i :: 0 <= i < |visits| ==> poll.sockets(i, visits[i]).Waiting? && poll.sockets(i, visits[i]).datagrams > 0
    ensures DrainCall(quanta, cursor, poll).drained == poll.maxFrames
  {
    hide DrainCall, LastRoundOk, Shared, WithinQuantum, Sweep, Sum;
    DrainCallOk(quanta, cursor, poll);
    var r := DrainCall(quanta, cursor, poll);
    var last := |r.visits| - 1;
    assert r.visits != [] ==> Takes(poll.sockets(0 + last, r.visits[last]), r.counts[last]);
  }
}
