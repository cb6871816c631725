/** The round-robin drain of the path sockets: its budget, when it stops, and fairness over every call ever made. */
module Drain {
  import opened Bytes

  const SMALL_PACKET_PATH_DRAIN_QUANTUM: nat := 32
  const LARGE_PACKET_PATH_DRAIN_QUANTUM: nat := 16
  const LARGE_PACKET_MTU_THRESHOLD: nat := 1500

  function DrainQuantumForPath(mtu: nat): nat {
    if mtu > LARGE_PACKET_MTU_THRESHOLD then LARGE_PACKET_PATH_DRAIN_QUANTUM else SMALL_PACKET_PATH_DRAIN_QUANTUM
  }

  /** What a visited socket turns out to hold: so many datagrams, or one whose handling fails. */
  datatype Answer = Waiting(datagrams: nat) | Fails

  function Min(a: nat, b: nat): nat { if a < b then a else b }

  function Max(a: nat, b: nat): nat { if a < b then b else a }

  /** A socket's share of what is left of the budget, at least one datagram and at most its quantum. */
  function SocketBudget(remaining: nat, n: nat, quantum: nat): nat
    requires n > 0
  {
    Max(Min(DivCeil(remaining, n), quantum), 1)
  }

  lemma {:induction false} DivCeilAtMost(n: nat, d: nat)
    requires n > 0 && d > 0
    ensures 1 <= DivCeil(n, d) <= n
    decreases n
  {
    if n > d {
      DivCeilAtMost(n - d, d);
    }
  }

  /** The share is the quantum, or the least number that, taken from each of the `n` sockets, covers what is left. */
  predicate IsShare(share: int, remaining: int, n: int, quantum: int) {
    && 1 <= share <= quantum
    && (share - 1) * n < remaining
    && (share < quantum ==> share * n >= remaining)
  }

  lemma BudgetFits(remaining: nat, n: nat, quantum: nat)
    requires n > 0 && remaining > 0 && quantum >= 1
    ensures IsShare(SocketBudget(remaining, n, quantum), remaining, n, quantum)
    ensures SocketBudget(remaining, n, quantum) <= remaining
  {
    hide DivCeil;
    DivCeilAtMost(remaining, n);
    DivCeilCovers(remaining, n);
    var q, b := DivCeil(remaining, n), SocketBudget(remaining, n, quantum);
    if b < q {
      Times(b, q - 1, n);
      Times(b - 1, b, n);
    }
  }

  lemma Times(a: int, b: int, n: nat)
    requires a <= b
    ensures a * n <= b * n
  {
  }

  /** There is no choice in it. */
  lemma OneShare(share: int, other: int, remaining: int, n: nat, quantum: nat)
    requires IsShare(share, remaining, n, quantum) && IsShare(other, remaining, n, quantum)
    ensures share == other
  {
    if share < other {
      Times(share, other - 1, n);
    } else if other < share {
      Times(other, share - 1, n);
    }
  }

  /** A visit takes all that waits, or the socket's share of what is left of the budget, whichever is less. */
  ghost predicate TakesShare(answer: Answer, count: nat, remaining: int, n: nat, quantum: nat) {
    match answer
    case Waiting(datagrams) =>
      exists share: nat :: IsShare(share, remaining, n, quantum) && count == Min(datagrams, share)
    case Fails => count == 0
  }

  /** A visit takes some of what waits if anything waits, and nothing from a socket whose handler fails. */
  predicate Takes(answer: Answer, count: nat) {
    match answer
    case Waiting(datagrams) => count <= datagrams && (count == 0 ==> datagrams == 0)
    case Fails => count == 0
  }

  /** The counts of consecutive visits against what the sockets held, the first visit being number `at`. */
  ghost predicate Answered(sockets: (nat, nat) -> Answer, at: nat, visits: seq<nat>, counts: seq<nat>) {
    |visits| == |counts| && forall i :: 0 <= i < |counts| ==> Takes(sockets(at + i, visits[i]), counts[i])
  }

  ghost predicate WithinQuantum(counts: seq<nat>) {
    forall i :: 0 <= i < |counts| ==> counts[i] <= SMALL_PACKET_PATH_DRAIN_QUANTUM
  }

  function Sum(counts: seq<nat>): nat {
    if counts == [] then 0 else Sum(counts[..|counts| - 1]) + counts[|counts| - 1]
  }

  // ----- visits ---------------------------------------------------------------

  /** Visits to other sockets since the last visit to `p`, or since the beginning. */
  function Since(visits: seq<nat>, p: nat): nat {
    if visits == [] || visits[|visits| - 1] == p then 0 else 1 + Since(visits[..|visits| - 1], p)
  }

  /** How many sockets the round robin passes before it reaches `p`. */
  function Ahead(cursor: nat, p: nat, n: nat): nat
    requires cursor < n && p < n
  {
    if p >= cursor then p - cursor else p + n - cursor
  }

  /** The socket `k` places behind `start`. */
  function PlaceAfter(start: nat, k: nat, n: nat): (p: nat)
    requires n > 0
    ensures p < n
  {
    (start + k) % n
  }

  /** The first `k` visits of a round that starts at `start`. */
  function Sweep(start: nat, k: nat, n: nat): seq<nat>
    requires n > 0
    decreases k
  {
    if k == 0 then [] else Sweep(start, k - 1, n) + [PlaceAfter(start, k - 1, n)]
  }

  lemma ModOnce(x: nat, n: nat)
    requires 0 < n && x < 2 * n
    ensures x % n == if x < n then x else x - n
  {
    var q, r := x / n, x % n;
    assert x == q * n + r;
    assert q >= 2 ==> q * n >= 2 * n;
  }

  lemma Wraps(start: nat, k: nat, n: nat, p: nat)
    requires start < n && k <= n && p < n
    ensures PlaceAfter(start, k, n) == if start + k < n then start + k else start + k - n
    ensures k < n ==> (PlaceAfter(start, k, n) == p <==> k == Ahead(start, p, n))
  {
    ModOnce(start + k, n);
  }

  lemma SinceSnoc(visits: seq<nat>, v: nat, p: nat)
    ensures Since(visits + [v], p) == if v == p then 0 else 1 + Since(visits, p)
  {
    assert (visits + [v])[..|visits|] == visits;
  }

  /** During a round: a socket still ahead waits one visit longer, one already visited waits since then. */
  lemma {:induction false} SinceDuringRound(before: seq<nat>, start: nat, k: nat, n: nat, p: nat)
    requires start < n && k <= n && p < n
    ensures Since(before + Sweep(start, k, n), p) ==
            if Ahead(start, p, n) >= k then Since(before, p) + k else k - Ahead(start, p, n) - 1
    decreases k
  {
    hide Since, Ahead;
    if k == 0 {
      assert before + Sweep(start, k, n) == before;
    } else {
      SinceDuringRound(before, start, k - 1, n, p);
      Wraps(start, k - 1, n, p);
      assert before + Sweep(start, k, n) == before + Sweep(start, k - 1, n) + [PlaceAfter(start, k - 1, n)];
      SinceSnoc(before + Sweep(start, k - 1, n), PlaceAfter(start, k - 1, n), p);
    }
  }

  // ----- fairness -------------------------------------------------------------

  /** What the cursor promises between rounds: waited so far plus still to wait is bounded. */
  ghost predicate Promised(visits: seq<nat>, cursor: nat, n: nat)
    requires cursor < n
  {
    forall p: nat | p < n :: InTime(visits, cursor, n, p)
  }

  predicate InTime(visits: seq<nat>, cursor: nat, n: nat, p: nat)
    requires cursor < n && p < n
  {
    Since(visits, p) + Ahead(cursor, p, n) <= 2 * (n - 1)
  }

  /** At no moment so far has any socket waited longer than `2 (n - 1)` visits. */
  ghost predicate EverFair(visits: seq<nat>, n: nat) {
    (forall p: nat | p < n :: Since(visits, p) <= 2 * (n - 1)) && (visits != [] ==> EverFair(visits[..|visits| - 1], n))
  }

  predicate HasRoom(before: seq<nat>, start: nat, k: nat, idle: nat, n: nat, p: nat)
    requires start < n && p < n
  {
    Ahead(start, p, n) >= k ==> Since(before, p) + Ahead(start, p, n) + idle <= 2 * (n - 1)
  }

  ghost predicate RoomLeft(before: seq<nat>, start: nat, k: nat, idle: nat, n: nat)
    requires start < n
  {
    forall p: nat | p < n :: HasRoom(before, start, k, idle, n, p)
  }

  lemma InTimeAfterRound(before: seq<nat>, start: nat, k: nat, j: nat, n: nat, p: nat)
    requires start < n && j <= k <= n && p < n && InTime(before, start, n, p)
    ensures InTime(before + Sweep(start, k, n), PlaceAfter(start, j, n), n, p) <==>
        HasRoom(before, start, k, k - j, n, p)
  {
    hide Since, Sweep, PlaceAfter;
    SinceDuringRound(before, start, k, n, p);
    Wraps(start, j, n, p);
  }

  /** After a round of `k` visits of which the `j`-th was the last productive one, the promise still holds exactly when
      every socket the round left out has room for the unproductive visits at the round's end. */
  lemma PromiseAfterRound(before: seq<nat>, start: nat, k: nat, j: nat, n: nat)
    requires start < n && j <= k <= n && Promised(before, start, n)
    ensures Promised(before + Sweep(start, k, n), PlaceAfter(start, j, n), n) <==> RoomLeft(before, start, k, k - j, n)
  {
    hide InTime, HasRoom, Sweep, PlaceAfter;
    var after, cursor, idle := before + Sweep(start, k, n), PlaceAfter(start, j, n), k - j;
    forall p: nat | p < n ensures InTime(after, cursor, n, p) <==> HasRoom(before, start, k, idle, n, p) {
      InTimeAfterRound(before, start, k, j, n, p);
    }
  }

  /** A round that is whole, or cut short right behind a productive visit, keeps the promise. */
  lemma RoundKeepsPromise(before: seq<nat>, start: nat, k: nat, j: nat, n: nat)
    requires start < n && j <= k <= n && Promised(before, start, n) && (k < n ==> j == k)
    ensures Promised(before + Sweep(start, k, n), PlaceAfter(start, j, n), n)
  {
    hide Since;
    PromiseAfterRound(before, start, k, j, n);
    var idle := k - j;
    forall p: nat | p < n ensures HasRoom(before, start, k, idle, n, p) {
      assert InTime(before, start, n, p);
    }
  }

  lemma {:induction false} RoundIsFair(before: seq<nat>, start: nat, k: nat, n: nat)
    requires start < n && k <= n && Promised(before, start, n) && EverFair(before, n)
    ensures EverFair(before + Sweep(start, k, n), n)
    decreases k
  {
    hide Since, Ahead;
    var visits := before + Sweep(start, k, n);
    if k == 0 {
      assert visits == before;
    } else {
      RoundIsFair(before, start, k - 1, n);
      assert visits[..|visits| - 1] == before + Sweep(start, k - 1, n);
      forall p: nat | p < n ensures Since(visits, p) <= 2 * (n - 1) {
        SinceDuringRound(before, start, k, n, p);
        WaitBound(before, start, k, n, p);
      }
    }
  }

  lemma WaitBound(before: seq<nat>, start: nat, k: nat, n: nat, p: nat)
    requires start < n && k <= n && p < n && Promised(before, start, n)
    ensures Ahead(start, p, n) >= k ==> Since(before, p) + k <= 2 * (n - 1)
    ensures Ahead(start, p, n) < k ==> k - Ahead(start, p, n) - 1 <= 2 * (n - 1)
  {
    hide Since;
    assert InTime(before, start, n, p);
  }

  lemma {:induction false} FairAtEveryMoment(visits: seq<nat>, n: nat, m: nat)
    requires EverFair(visits, n) && m <= |visits|
    ensures EverFair(visits[..m], n)
    decreases |visits|
  {
    hide Since;
    if m == |visits| {
      assert visits[..m] == visits;
    } else {
      FairAtEveryMoment(visits[..|visits| - 1], n, m);
      assert visits[..|visits| - 1][..m] == visits[..m];
    }
  }

  lemma {:induction false} SinceLastVisit(visits: seq<nat>, i: nat, j: nat, p: nat)
    requires i < j <= |visits| && visits[i] == p
    requires forall m :: i < m < j ==> visits[m] != p
    ensures Since(visits[..j], p) == j - i - 1
    decreases j
  {
    assert visits[..j][..j - 1] == visits[..j - 1];
    if j > i + 1 {
      SinceLastVisit(visits, i, j - 1, p);
    }
  }

  /** Between two visits to a socket lie at most `2 (n - 1)` visits to others. */
  lemma VisitsBetween(visits: seq<nat>, n: nat, i: nat, j: nat)
    requires EverFair(visits, n) && i < j < |visits| && visits[i] == visits[j] < n
    requires forall m :: i < m < j ==> visits[m] != visits[i]
    ensures j - i - 1 <= 2 * (n - 1)
  {
    hide Since;
    FairAtEveryMoment(visits, n, j);
    SinceLastVisit(visits, i, j, visits[i]);
  }

  /** A whole round visits every socket, each at its own place. */
  lemma {:induction false} RoundVisitsAll(start: nat, k: nat, n: nat, p: nat)
    requires start < n && p < n && Ahead(start, p, n) < k <= n
    ensures |Sweep(start, k, n)| == k && Sweep(start, k, n)[Ahead(start, p, n)] == p
    decreases k
  {
    hide Ahead, PlaceAfter;
    SweepLength(start, k - 1, n);
    if Ahead(start, p, n) == k - 1 {
      Wraps(start, k - 1, n, p);
    } else {
      RoundVisitsAll(start, k - 1, n, p);
    }
  }

  lemma {:induction false} SweepLength(start: nat, k: nat, n: nat)
    requires n > 0
    ensures |Sweep(start, k, n)| == k
    decreases k
  {
    if k == 0 {
    } else {
      SweepLength(start, k - 1, n);
    }
  }

  lemma {:induction false} SumAppend(a: seq<nat>, b: seq<nat>)
    ensures Sum(a + b) == Sum(a) + Sum(b)
    decreases |b|
  {
    if b == [] {
      assert a + b == a;
    } else {
      SumAppend(a, b[..|b| - 1]);
      assert (a + b)[..|a + b| - 1] == a + b[..|b| - 1];
    }
  }

  lemma {:induction false} EmptyRound(round: seq<nat>)
    requires Sum(round) == 0
    ensures forall i :: 0 <= i < |round| ==> round[i] == 0
    decreases |round|
  {
    if round == [] {
    } else {
      EmptyRound(round[..|round| - 1]);
    }
  }

  lemma NextCursor(start: nat, k: nat, n: nat)
    requires start < n && k < n
    ensures PlaceAfter(PlaceAfter(start, k, n), 1, n) == PlaceAfter(start, k + 1, n)
  {
    hide PlaceAfter;
    Wraps(start, k, n, 0);
    Wraps(start, k + 1, n, 0);
    Wraps(PlaceAfter(start, k, n), 1, n, 0);
  }
}
