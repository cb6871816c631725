/** The sliding replay window, and the set of all counters ever accepted that it stands for. */
module Replay {
  import opened Bytes

  const DEFAULT_REPLAY_WINDOW_BITS: nat := 1_048_576
  const MAX_REPLAY_WINDOW_BITS: nat := 4_194_304

  /** The largest counter of a non-empty history. */
  function Highest(accepted: seq<u64>): (h: u64)
    requires accepted != []
    ensures h in accepted
    ensures forall c :: c in accepted ==> c <= h
  {
    if |accepted| == 1 then accepted[0]
    else
      var rest := Highest(accepted[1..]);
      assert accepted == [accepted[0]] + accepted[1..];
      if accepted[0] > rest then accepted[0] else rest
  }

  /** What the window must decide, said of the whole history of accepted counters and no ring. */
  predicate Fresh(accepted: seq<u64>, window: nat, counter: u64) {
    accepted == [] || counter > Highest(accepted) || (Highest(accepted) - counter < window && counter !in accepted)
  }

  /** The counters accepted when `offered` arrives one after another. */
  function AcceptedOf(offered: seq<u64>, window: nat): (accepted: seq<u64>) {
    if offered == [] then []
    else
      var before, counter := AcceptedOf(offered[..|offered| - 1], window), offered[|offered| - 1];
      if Fresh(before, window, counter) then before + [counter] else before
  }

  ghost predicate Distinct<T>(s: seq<T>) {
    forall i, j :: 0 <= i < j < |s| ==> s[i] != s[j]
  }

  lemma FreshIsNew(accepted: seq<u64>, window: nat, counter: u64)
    requires Fresh(accepted, window, counter) && Distinct(accepted)
    ensures counter !in accepted && Distinct(accepted + [counter])
  {
    assert forall i :: 0 <= i < |accepted| ==> accepted[i] in accepted;
  }

  /** No run accepts a counter twice, and accepts nothing that was not offered. */
  lemma {:induction false} NoCounterAcceptedTwice(offered: seq<u64>, window: nat)
    ensures Distinct(AcceptedOf(offered, window))
    ensures forall c :: c in AcceptedOf(offered, window) ==> c in offered
  {
    if offered == [] {
    } else {
      var before := offered[..|offered| - 1];
      NoCounterAcceptedTwice(before, window);
      if Fresh(AcceptedOf(before, window), window, offered[|offered| - 1]) {
        FreshIsNew(AcceptedOf(before, window), window, offered[|offered| - 1]);
      }
      assert offered == before + [offered[|offered| - 1]];
    }
  }

  /** Along any run a never-accepted counter less than one window behind the highest is accepted when offered. */
  lemma RecentNewCounterNeverRefused(offered: seq<u64>, window: nat, counter: u64)
    requires var before := AcceptedOf(offered, window);
      counter !in before && (before == [] || counter as int + window > Highest(before))
    ensures AcceptedOf(offered + [counter], window) == AcceptedOf(offered, window) + [counter]
  {
    assert (offered + [counter])[..|offered|] == offered;
  }

  lemma {:induction false} MultiplesOrdered(p: int, q: int, window: nat)
    requires p < q
    ensures p * window + window <= q * window
    decreases q - p
  {
    assert (q - 1) * window + window == q * window;
    if p < q - 1 {
      MultiplesOrdered(p, q - 1, window);
    }
  }

  lemma SameSlotIsWindowApart(c: nat, d: nat, window: nat)
    requires window > 0 && c < d && c % window == d % window
    ensures d - c >= window
  {
    var p, q := c / window, d / window;
    if q < p {
      MultiplesOrdered(q, p, window);
    } else if p < q {
      MultiplesOrdered(p, q, window);
    }
  }

  /** The ring holds accepted counters in their own slots, and every accepted counter inside the window. */
  ghost predicate Ring(seen: seq<Option<u64>>, accepted: seq<u64>, highest: u64) {
    && |seen| > 0
    && (forall i :: 0 <= i < |seen| && seen[i].Some? ==> seen[i].value in accepted && seen[i].value % |seen| == i)
    && (forall c :: c in accepted && highest - c < |seen| ==> seen[c % |seen|] == Some(c))
  }

  /** Marking a counter evicts at most a counter that is a whole window behind, so the ring stays exact. */
  lemma MarkKeepsRing(seen: seq<Option<u64>>, accepted: seq<u64>, highest: u64, counter: u64, highest': u64)
    requires Ring(seen, accepted, highest)
    requires forall c :: c in accepted ==> c <= highest <= highest'
    requires highest' - |seen| < counter <= highest'
    ensures Ring(seen[counter % |seen| := Some(counter)], accepted + [counter], highest')
  {
    var w := |seen|;
    var marked := seen[counter % w := Some(counter)];
    forall c | c in accepted + [counter] && highest' - c < w
      ensures marked[c % w] == Some(c)
    {
      if c != counter && c % w == counter % w {
        if c < counter {
          SameSlotIsWindowApart(c, counter, w);
        } else {
          SameSlotIsWindowApart(counter, c, w);
        }
      }
    }
  }

  class ReplayWindow {
    var highest: u64
    var seen: array<Option<u64>>
    var initialized: bool
    const windowBits: nat
    /** Every counter accepted so far, in order of acceptance. */
    ghost var accepted: seq<u64>
    /** Every counter ever presented to the window, accepted or not. */
    ghost var offered: seq<u64>

    ghost predicate Valid()
      reads this, seen
    {
      && 1 <= windowBits <= MAX_REPLAY_WINDOW_BITS
      && seen.Length == windowBits
      && (initialized <==> accepted != [])
      && (initialized ==> highest == Highest(accepted))
      && Ring(seen[..], accepted, highest)
      && accepted == AcceptedOf(offered, windowBits)
    }

    constructor (bits: nat)
      ensures Valid() && fresh(seen) && offered == []
      ensures windowBits ==
              if bits < 1 then 1 else if bits > MAX_REPLAY_WINDOW_BITS then MAX_REPLAY_WINDOW_BITS else bits
    {
      var clamped := if bits < 1 then 1 else if bits > MAX_REPLAY_WINDOW_BITS then MAX_REPLAY_WINDOW_BITS else bits;
      highest, initialized, windowBits, accepted, offered := 0, false, clamped, [], [];
      seen := new Option<u64>[clamped](_ => None);
    }

    /** Decides freshness from the ring alone, exactly as the whole history would decide it. */
    method Accept(counter: u64) returns (ok: bool)
      requires Valid()
      modifies this`highest, this`initialized, this`accepted, this`offered, seen
      ensures Valid() && offered == old(offered) + [counter]
      ensures ok <==> Fresh(old(accepted), windowBits, counter)
      ensures accepted == if ok then old(accepted) + [counter] else old(accepted)
    {
      offered := offered + [counter];
      assert offered[..|offered| - 1] == old(offered);
      if !initialized {
        MarkKeepsRing(seen[..], accepted, highest, counter, counter);
        initialized := true;
        highest := counter;
        MarkSeen(counter);
        return true;
      }
      HighestOfExtended(accepted, counter);
      if counter > highest {
        MarkKeepsRing(seen[..], accepted, highest, counter, counter);
        highest := counter;
        MarkSeen(counter);
        return true;
      }
      var behind := highest - counter;
      if behind >= windowBits {
        return false;
      }
      assert seen[..][counter % windowBits] == Some(counter) <==> counter in accepted;
      if seen[counter % windowBits] == Some(counter) {
        return false;
      }
      MarkKeepsRing(seen[..], accepted, highest, counter, highest);
      MarkSeen(counter);
      ok := true;
    }

    method MarkSeen(counter: u64)
      requires windowBits == seen.Length > 0
      modifies this`accepted, seen
      ensures seen[..] == old(seen[..])[counter % windowBits := Some(counter)]
      ensures accepted == old(accepted) + [counter]
    {
      seen[counter % windowBits] := Some(counter);
      accepted := accepted + [counter];
    }
  }

  lemma {:induction false} HighestOfExtended(accepted: seq<u64>, counter: u64)
    requires accepted != []
    ensures Highest(accepted + [counter]) == if counter > Highest(accepted) then counter else Highest(accepted)
  {
    var all := accepted + [counter];
    assert counter in all && forall c :: c in accepted ==> c in all;
  }
}
