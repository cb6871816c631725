/** Which held entries a release keeps, exactly; and so when an entry outstays its hold. */
module Overstay {
  import opened Bytes
  import opened Plans
  import opened Reorder
  import T = Tracker

  /** The buffer once the unbroken run from its next sequence is gone. */
  function AfterRun(b: Buffer): (c: Buffer)
    ensures c.next !in c.entries
    decreases |b.entries|
  {
    if b.next !in b.entries then b
    else
      RemoveShrinks(b.entries, b.next);
      AfterRun(Buffer(NextSequence(b.next), b.entries - {b.next}))
  }

  ghost function From(entries: map<u64, Entry>, k: u64): set<u64> { set x | x in entries && x >= k }

  /** Held, with a gap in front of it. */
  predicate Head(entries: map<u64, Entry>, k: u64) { k in entries && (k == 0 || k - 1 !in entries) }

  /** A head that is still young, with no pressure on the buffer from there on: a release stops in front of it. */
  ghost predicate Blocks(entries: map<u64, Entry>, k: u64, now: nat, hold: nat) {
    Head(entries, k) && Waited(entries[k], now) < hold && |From(entries, k)| <= REMOTE_REORDER_BUFFER_LIMIT
  }

  ghost predicate BlockedBelow(entries: map<u64, Entry>, s: u64, now: nat, hold: nat) {
    exists k: u64 :: k <= s && Blocks(entries, k, now, hold)
  }

  lemma {:induction false} ReleaseAfterRun(b: Buffer, now: nat, hold: nat)
    ensures Release(b, now, hold).0 == Release(AfterRun(b), now, hold).0
    decreases |b.entries|
  {
    hide Overdue, Lowest;
    if b.next !in b.entries {
      assert AfterRun(b) == b;
    } else {
      RemoveShrinks(b.entries, b.next);
      ReleaseAfterRun(Buffer(NextSequence(b.next), b.entries - {b.next}), now, hold);
    }
  }

  /** Where the unbroken run from `next` ends, when nothing is held below it. */
  function RunEnd(b: Buffer): (e: nat)
    requires NothingBelowNext(b)
    decreases |b.entries|
  {
    if b.next !in b.entries then b.next
    else
      RemoveShrinks(b.entries, b.next);
      if b.next == U64_MAX then U64_MAX + 1 else RunEnd(Buffer(b.next + 1, b.entries - {b.next}))
  }

  /** `x` is in the run and gone, or behind it and untouched. */
  ghost predicate SplitByRun(b: Buffer, c: Buffer, e: nat, x: u64) {
    && (b.next <= x < e ==> x in b.entries && x !in c.entries)
    && (x >= e && x in b.entries ==> x in c.entries && c.entries[x] == b.entries[x])
    && (x in c.entries ==> x in b.entries && x >= e)
  }

  lemma {:induction false} RunSplits(b: Buffer, x: u64)
    requires NothingBelowNext(b)
    ensures b.next <= RunEnd(b) && SplitByRun(b, AfterRun(b), RunEnd(b), x)
    ensures RunEnd(b) <= U64_MAX ==> RunEnd(b) !in b.entries
    decreases |b.entries|
  {
    if b.next in b.entries {
      RemoveShrinks(b.entries, b.next);
      var rest := Buffer(NextSequence(b.next), b.entries - {b.next});
      if b.next == U64_MAX {
        assert rest.entries == map[];
        assert AfterRun(rest) == rest;
      } else {
        RunSplits(rest, x);
      }
    }
  }

  /** Skipping past the lowest run changes nothing for the entries behind it. */
  lemma SameBehindRun(b: Buffer, k: u64, now: nat, hold: nat)
    requires NothingBelowNext(b) && k >= RunEnd(b)
    ensures Blocks(AfterRun(b).entries, k, now, hold) <==> Blocks(b.entries, k, now, hold)
  {
    hide AfterRun, RunEnd;
    var c := AfterRun(b);
    RunSplits(b, k);
    forall x: u64 ensures x in From(c.entries, k) <==> x in From(b.entries, k) {
      RunSplits(b, x);
    }
    assert From(c.entries, k) == From(b.entries, k);
    if k in b.entries && k > 0 {
      RunSplits(b, k - 1);
    }
  }

  lemma InsideRunIsNoHead(b: Buffer, k: u64)
    requires NothingBelowNext(b) && b.next < k < RunEnd(b)
    ensures !Head(b.entries, k)
  {
    hide AfterRun, RunEnd;
    RunSplits(b, k - 1);
  }

  /** A release that skips the lowest run keeps what it would keep of the rest. */
  lemma BlockedBehindRun(b: Buffer, s: u64, now: nat, hold: nat)
    requires NothingBelowNext(b)
    requires b.next in b.entries ==> !Blocks(b.entries, b.next, now, hold)
    ensures s in AfterRun(b).entries && BlockedBelow(AfterRun(b).entries, s, now, hold) <==>
            s in b.entries && BlockedBelow(b.entries, s, now, hold)
  {
    hide AfterRun, Blocks, RunEnd;
    var c, e := AfterRun(b), RunEnd(b);
    RunSplits(b, s);
    if s in c.entries && BlockedBelow(c.entries, s, now, hold) {
      var k: u64 :| k <= s && Blocks(c.entries, k, now, hold);
      BlocksIsHeld(c.entries, k, now, hold);
      RunSplits(b, k);
      SameBehindRun(b, k, now, hold);
    }
    if s in b.entries && BlockedBelow(b.entries, s, now, hold) {
      var k: u64 :| k <= s && Blocks(b.entries, k, now, hold);
      BlocksIsHeld(b.entries, k, now, hold);
      RunSplits(b, k);
      if b.next < k < e {
        InsideRunIsNoHead(b, k);
      }
      SameBehindRun(b, k, now, hold);
    }
  }

  lemma BlocksIsHeld(entries: map<u64, Entry>, k: u64, now: nat, hold: nat)
    requires Blocks(entries, k, now, hold)
    ensures k in entries && Head(entries, k)
  {
  }

  lemma LowestBlocksUnlessOverdue(b: Buffer, now: nat, hold: nat)
    requires b.entries != map[]
    ensures Blocks(b.entries, Lowest(b.entries), now, hold) <==> !Overdue(b, now, hold)
  {
    hide Lowest;
    assert From(b.entries, Lowest(b.entries)) == b.entries.Keys;
  }

  lemma {:induction false} KeptBehindGap(c: Buffer, now: nat, hold: nat, s: u64)
    requires c.next !in c.entries
    ensures s in Release(c, now, hold).0.entries <==> s in c.entries && BlockedBelow(c.entries, s, now, hold)
    decreases |c.entries|
  {
    hide Overdue, Lowest, AfterRun, Blocks, Release;
    ReleaseStep(c, now, hold);
    if c.entries != map[] {
      var low := Lowest(c.entries);
      LowestBlocksUnlessOverdue(c, now, hold);
      if Overdue(c, now, hold) {
        var b := c.(next := low);
        ReleaseAfterRun(b, now, hold);
        RunShrinks(b);
        BlockedBehindRun(b, s, now, hold);
        KeptBehindGap(AfterRun(b), now, hold, s);
      }
    }
  }

  lemma {:induction false} RunShrinks(b: Buffer)
    ensures |AfterRun(b).entries| <= |b.entries| - if b.next in b.entries then 1 else 0
    decreases |b.entries|
  {
    if b.next in b.entries {
      RemoveShrinks(b.entries, b.next);
      RunShrinks(Buffer(NextSequence(b.next), b.entries - {b.next}));
    }
  }

  /** Exactly what a release keeps: of the entries left when the run from the next sequence is gone, those at or behind
      a young head that the limit does not push out. */
  lemma KeptExactly(b: Buffer, now: nat, hold: nat, s: u64)
    ensures s in Release(b, now, hold).0.entries <==>
            s in AfterRun(b).entries && BlockedBelow(AfterRun(b).entries, s, now, hold)
  {
    hide Release, AfterRun, Blocks;
    ReleaseAfterRun(b, now, hold);
    KeptBehindGap(AfterRun(b), now, hold, s);
  }

  /** With nothing held below the next sequence and no pressure: a held entry stays, overdue or not, exactly when a run
      of held sequences at or below it, other than the one at the next sequence, has a young head. */
  lemma StaysBehindYoungHead(b: Buffer, now: nat, hold: nat, s: u64)
    requires NothingBelowNext(b) && |b.entries| <= REMOTE_REORDER_BUFFER_LIMIT && s in b.entries
    ensures s in Release(b, now, hold).0.entries <==>
            exists k: u64 :: k <= s && YoungHead(b, k, now, hold)
  {
    hide Release, AfterRun, RunEnd, Blocks;
    KeptExactly(b, now, hold, s);
    RunSplits(b, s);
    if k: u64 :| k <= s && YoungHead(b, k, now, hold) {
      YoungHeadBlocks(b, k, now, hold);
    }
    if s in AfterRun(b).entries && BlockedBelow(AfterRun(b).entries, s, now, hold) {
      var k: u64 :| k <= s && Blocks(AfterRun(b).entries, k, now, hold);
      YoungHeadBlocks(b, k, now, hold);
    }
  }

  predicate YoungHead(b: Buffer, k: u64, now: nat, hold: nat) {
    k != b.next && Head(b.entries, k) && Waited(b.entries[k], now) < hold
  }

  lemma YoungHeadBlocks(b: Buffer, k: u64, now: nat, hold: nat)
    requires NothingBelowNext(b) && |b.entries| <= REMOTE_REORDER_BUFFER_LIMIT
    ensures YoungHead(b, k, now, hold) <==> Blocks(AfterRun(b).entries, k, now, hold)
    ensures YoungHead(b, k, now, hold) ==> k >= RunEnd(b)
  {
    hide AfterRun, RunEnd, From;
    RunSplits(b, k);
    FromIsFewer(b.entries, k);
    if b.next < k < RunEnd(b) {
      InsideRunIsNoHead(b, k);
    }
    if k >= RunEnd(b) {
      SameBehindRun(b, k, now, hold);
    }
  }

  lemma FromIsFewer(entries: map<u64, Entry>, k: u64)
    ensures |From(entries, k)| <= |entries|
  {
    Fewer(From(entries, k), entries.Keys);
  }

  lemma {:induction false} Fewer(a: set<u64>, b: set<u64>)
    requires a <= b
    ensures |a| <= |b|
  {
    if a != {} {
      var x :| x in a;
      Fewer(a - {x}, b - {x});
    }
  }

  /** Exactly what the sweep of a key keeps: the entries at or behind a head that is young by the hold of the path the
      lowest entry came on. */
  lemma SweepKeepsExactly(m: Buffers, key: Key, now: nat, holds: map<u16, nat>, low: u64, s: u64)
    requires BuffersOk(m) && key in m && low in m[key].entries && forall k :: k in m[key].entries ==> low <= k
    ensures var m', path := Expire(m, key, now, holds).0, m[key].entries[low].pathId;
      (key in m' && s in m'[key].entries) <==>
      s in m[key].entries && BlockedBelow(m[key].entries, s, now, if path in holds then holds[path] else 0)
  {
    hide Release, Blocks;
    var b, path := m[key], m[key].entries[low].pathId;
    var hold := if path in holds then holds[path] else 0;
    assert Lowest(b.entries) == low;
    if Waited(b.entries[low], now) < hold {
      LowestBlocksUnlessOverdue(b, now, hold);
    } else {
      KeptBehindGap(b, now, hold, s);
    }
  }

  // ----- a run in which an entry outstays its hold ----------------------------

  const KEY: Key := Key(300, None)

  /** Sequence 1, then 6 at time 0, then 3 at time 100; each observed by the tracker, on a path with a hold of 50. */
  function LateArrival(): seq<Event> {
    [Arrived(Reorder.Arrival(KEY, 1, Entry(1, [], T.Observe(None, 1).1, 0), 50)),
     Arrived(Reorder.Arrival(KEY, 6, Entry(1, [], T.Observe(Some(2), 6).1, 0), 50)),
     Arrived(Reorder.Arrival(KEY, 3, Entry(1, [], T.Observe(Some(7), 3).1, 100), 50))]
  }

  lemma ReleaseKeepsAll(b: Buffer, low: u64, now: nat, hold: nat)
    requires low in b.entries && (forall k :: k in b.entries ==> low <= k) && b.next !in b.entries
    requires Waited(b.entries[low], now) < hold && |b.entries| <= REMOTE_REORDER_BUFFER_LIMIT
    ensures Release(b, now, hold) == (b, [])
  {
    assert Lowest(b.entries) == low;
  }

  /** In that run sequence 6 has waited 100 and is still held: a late arrival below it restarted the wait. */
  lemma OverdueEntryMayStay()
    ensures var m := After(LateArrival());
      KEY in m && 6 in m[KEY].entries && Waited(m[KEY].entries[6], 100) == 100
  {
    hide Release, After;
    var es := LateArrival();
    var six, three := es[1].arrival.entry, es[2].arrival.entry;
    AfterSteps(es[0], es[1], es[2]);
    var b1 := Buffer(2, map[6 := six]);
    assert |b1.entries| == 1;
    ReleaseKeepsAll(b1, 6, 0, 50);
    var m1 := map[KEY := b1];
    assert Step(map[], es[0]).0 == map[];
    assert Step(map[], es[1]).0 == m1;
    var b2 := Buffer(2, map[6 := six][3 := three]);
    assert b2.entries.Keys == {3, 6};
    ReleaseKeepsAll(b2, 3, 100, 50);
    assert Step(m1, es[2]).0 == m1[KEY := b2];
  }

  lemma AfterSteps(a: Event, b: Event, c: Event)
    ensures After([a, b, c]) == Step(Step(Step(map[], a).0, b).0, c).0
  {
    hide Step;
    assert [a, b, c][..2] == [a, b] && [a, b][..1] == [a] && [a][..0] == [];
    assert After([]) == map[];
    assert After([a]) == Step(map[], a).0;
    assert After([a, b]) == Step(After([a]), b).0;
  }
}
