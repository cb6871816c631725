/** The wrap-safe sequence tracker and an exact account of what its gap reports add up to. */
module Tracker {
  import opened Bytes

  const HALF: int := 0x8000_0000_0000_0000

  datatype Observation = Observation(missing: u64, outOfOrder: bool, late: bool)

  function WrappingSub(a: u64, b: u64): u64 { (a as int - b as int) % TWO_TO_64 }

  /** One observation: the next expected sequence afterwards and what is reported. */
  function Observe(expected: Option<u64>, sequence: u64): (r: (u64, Observation)) {
    match expected
    case None => (WrappingAdd(sequence, 1), Observation(0, false, false))
    case Some(e) =>
      if sequence == e then (WrappingAdd(e, 1), Observation(0, false, false))
      else
        var forward := WrappingSub(sequence, e);
        if forward < HALF then (WrappingAdd(sequence, 1), Observation(forward, false, false))
        else (e, Observation(0, true, true))
  }

  class GlobalSequenceTracker {
    var nextExpected: Option<u64>

    constructor ()
      ensures nextExpected == None
    {
      nextExpected := None;
    }

    method ObserveNext(sequence: u64) returns (o: Observation)
      modifies this
      ensures (nextExpected, o) ==
          (Some(Observe(old(nextExpected), sequence).0), Observe(old(nextExpected), sequence).1)
    {
      if nextExpected.None? {
        nextExpected := Some(WrappingAdd(sequence, 1));
        return Observation(0, false, false);
      }
      var expected := nextExpected.value;
      if sequence == expected {
        nextExpected := Some(WrappingAdd(expected, 1));
        return Observation(0, false, false);
      }
      var forward := WrappingSub(sequence, expected);
      if forward < HALF {
        nextExpected := Some(WrappingAdd(sequence, 1));
        return Observation(forward, false, false);
      }
      o := Observation(0, true, true);
    }
  }

  // ----- unwrapped positions --------------------------------------------------

  /** The one number congruent to `s` less than half the sequence space away from `front`, behind or ahead. */
  function Unwrap(front: int, s: u64): (p: int)
    ensures p % TWO_TO_64 == s
    ensures front - HALF <= p < front + HALF
  {
    var d := (s - front) % TWO_TO_64;
    if d < HALF then front + d else front + d - TWO_TO_64
  }

  /** A run so far: where it started, the position after the furthest one seen, all positions, and the two totals. */
  datatype Account = Account(first: int, front: int, positions: seq<int>, expected: u64, missing: nat, late: nat)

  function Begin(s: u64): Account {
    Account(s, s + 1, [s], Observe(None, s).0, 0, 0)
  }

  function Next(a: Account, s: u64): Account {
    var p := Unwrap(a.front, s);
    var (expected, o) := Observe(Some(a.expected), s);
    Account(a.first, if p >= a.front then p + 1 else a.front, a.positions + [p], expected,
            a.missing + o.missing, a.late + if o.late then 1 else 0)
  }

  function AccountOf(run: seq<u64>): (a: Account)
    requires run != []
    ensures |a.positions| == |run|
  {
    if |run| == 1 then Begin(run[0]) else Next(AccountOf(run[..|run| - 1]), run[|run| - 1])
  }

  /** One step against the positions: a report of `missing` says how far the front jumped, `late` that it did
      not move. */
  lemma ObserveMovesFront(front: int, expected: u64, s: u64)
    requires expected == front % TWO_TO_64
    ensures var p := Unwrap(front, s);
      var (expected', o) := Observe(Some(expected), s);
      && (o.late <==> p < front)
      && o.missing == (if p >= front then p - front else 0)
      && expected' == (if p >= front then p + 1 else front) % TWO_TO_64
  {
    var p := Unwrap(front, s);
    ModShift(s, front);
    if p >= front {
      assert (p + 1) % TWO_TO_64 == (p % TWO_TO_64 + 1) % TWO_TO_64;
    }
  }

  lemma ModShift(s: int, front: int)
    ensures (s - front % TWO_TO_64) % TWO_TO_64 == (s - front) % TWO_TO_64
    ensures s == front % TWO_TO_64 ==> (s - front) % TWO_TO_64 == 0
  {
  }

  lemma {:induction false} AccountBalances(run: seq<u64>)
    requires run != []
    ensures var a := AccountOf(run);
      && a.expected == a.front % TWO_TO_64
      && a.positions[0] == a.first && a.first < a.front
      && a.missing - a.late == a.front - a.first - |run|
      && forall i :: 0 <= i < |run| ==> a.positions[i] < a.front && a.positions[i] % TWO_TO_64 == run[i]
    decreases |run|
  {
    hide Observe, Unwrap;
    if |run| == 1 {
      AccountBegins(run[0]);
    } else {
      var init, s := run[..|run| - 1], run[|run| - 1];
      AccountBalances(init);
      var a := AccountOf(init);
      ObserveMovesFront(a.front, a.expected, s);
    }
  }

  lemma AccountBegins(s: u64)
    ensures var a := Begin(s); a.expected == a.front % TWO_TO_64 && a.positions[0] == s && s % TWO_TO_64 == s
  {
  }

  // ----- what the totals mean -------------------------------------------------

  ghost predicate DistinctPositions(a: Account) {
    forall i, j :: 0 <= i < j < |a.positions| ==> a.positions[i] != a.positions[j]
  }

  /** Positions between the first one and the front at which nothing has arrived. */
  ghost function Unfilled(a: Account): set<int> {
    set p | a.first <= p < a.front && p !in a.positions
  }

  /** Arrivals older than the very first one. */
  ghost function BehindFirst(a: Account): set<int> {
    set p | p in a.positions && p < a.first
  }

  ghost function Between(lo: int, hi: int): (s: set<int>)
    ensures forall p :: p in s <==> lo <= p < hi
    ensures lo <= hi ==> |s| == hi - lo
    decreases hi - lo
  {
    if lo >= hi then {} else Between(lo, hi - 1) + {hi - 1}
  }

  ghost function Elements(s: seq<int>): (elements: set<int>)
    requires forall i, j :: 0 <= i < j < |s| ==> s[i] != s[j]
    ensures forall p :: p in elements <==> p in s
    ensures |elements| == |s|
  {
    if s == [] then {}
    else
      var n := |s| - 1;
      assert s == s[..n] + [s[n]];
      assert s[n] !in s[..n];
      Elements(s[..n]) + {s[n]}
  }

  lemma CountHoles(all: set<int>, behind: set<int>, holes: set<int>, lo: int, hi: int)
    requires lo <= hi && forall p :: p in all ==> p < hi
    requires behind == set p | p in all && p < lo
    requires holes == set p | lo <= p < hi && p !in all
    ensures |holes| - |behind| == hi - lo - |all|
  {
    var inside, range := all - behind, Between(lo, hi);
    assert behind <= all;
    assert |inside| == |all| - |behind|;
    assert inside <= range;
    assert holes == range - inside;
  }

  /** For every run of distinct positions, wrapped or not: reported gaps minus late arrivals is the number of holes
      still open, less the arrivals from before the run began. */
  lemma ReportsAddUp(run: seq<u64>)
    requires run != [] && DistinctPositions(AccountOf(run))
    ensures var a := AccountOf(run);
      && a.missing - a.late == |Unfilled(a)| - |BehindFirst(a)|
      && (a.missing - a.late == |Unfilled(a)| <==> BehindFirst(a) == {})
  {
    hide AccountOf;
    var a := AccountOf(run);
    AccountBalances(run);
    CountHoles(Elements(a.positions), BehindFirst(a), Unfilled(a), a.first, a.front);
  }

  /** Every sequence of the run is less than half the space ahead of the first. */
  ghost predicate AheadOfFirst(run: seq<u64>)
    requires run != []
  {
    forall i :: 0 <= i < |run| ==> WrappingSub(run[i], run[0]) < HALF
  }

  lemma UnwrapAhead(first: u64, front: int, s: u64)
    requires first <= front <= first + HALF && WrappingSub(s, first) < HALF
    ensures Unwrap(front, s) == first + WrappingSub(s, first)
  {
    var p := first + WrappingSub(s, first);
    assert (s - front) % TWO_TO_64 == (p - front) % TWO_TO_64;
  }

  lemma {:induction false} PositionsAhead(run: seq<u64>)
    requires run != [] && AheadOfFirst(run)
    ensures var a := AccountOf(run);
      && a.first == run[0] && run[0] < a.front <= run[0] + HALF
      && forall i :: 0 <= i < |run| ==> a.positions[i] == run[0] + WrappingSub(run[i], run[0])
    decreases |run|
  {
    hide Observe, Unwrap;
    if |run| > 1 {
      var init, s := run[..|run| - 1], run[|run| - 1];
      PositionsAhead(init);
      UnwrapAhead(run[0], AccountOf(init).front, s);
    }
  }

  /** Distinct sequences less than half the space ahead of the first: the totals count the open holes exactly. */
  lemma AccountIsExact(run: seq<u64>)
    requires run != [] && AheadOfFirst(run) && forall i, j :: 0 <= i < j < |run| ==> run[i] != run[j]
    ensures var a := AccountOf(run); a.missing - a.late == |Unfilled(a)|
  {
    hide AccountOf, WrappingSub;
    var a := AccountOf(run);
    PositionsAhead(run);
    AccountBalances(run);
    assert DistinctPositions(a) by {
      forall i, j | 0 <= i < j < |run| ensures a.positions[i] != a.positions[j] {
        assert a.positions[i] % TWO_TO_64 == run[i] && a.positions[j] % TWO_TO_64 == run[j];
      }
    }
    ReportsAddUp(run);
    assert BehindFirst(a) == {};
  }
}
