/** Payloads that arrive out of order come out in order: what the reorder buffer opens at, and what it hands on while
    nothing outstays its hold. */
module GapFill {
  import opened Bytes
  import opened Plans
  import opened Reorder
  import opened Overstay
  import T = Tracker

  // ----- opening a buffer -----------------------------------------------------

  /** A buffer opened by a gap waits for the sequence the tracker expected, unless sequences wrapped in the gap. */
  lemma OpensAtExpected(m: Buffers, a: Arrival, expected: u64)
    requires a.key !in m && a.entry.observation == T.Observe(Some(expected), a.sequence).1
    requires a.entry.observation.missing > 0
    ensures BufferFor(m, a).next == expected <==> a.sequence >= expected
    ensures a.sequence >= expected ==> NothingBelowNext(Stored(BufferFor(m, a), a.sequence, a.entry))
  {
    ForwardGap(expected, a.sequence);
  }

  lemma ForwardGap(expected: u64, sequence: u64)
    ensures T.WrappingSub(sequence, expected) ==
            if sequence >= expected then sequence - expected else sequence - expected + TWO_TO_64
  {
  }

  // ----- the sequence everything waits for ------------------------------------

  function Sequences(arrivals: seq<Arrival>): (s: set<u64>)
    ensures forall a :: a in arrivals ==> a.sequence in s
    ensures forall x :: x in s ==> exists j :: 0 <= j < |arrivals| && arrivals[j].sequence == x
  {
    set a | a in arrivals :: a.sequence
  }

  /** The first sequence from `e` on that has not arrived. */
  function FirstMissing(e: nat, arrived: set<u64>): (f: nat)
    ensures e <= f && f !in arrived && forall x: nat :: e <= x < f ==> x in arrived
    decreases |arrived|
  {
    if e in arrived then
      var f := FirstMissing(e + 1, arrived - {e});
      AlsoFrom(e, f, arrived);
      f
    else e
  }

  lemma AlsoFrom(e: nat, f: nat, arrived: set<u64>)
    requires e in arrived && forall x: nat :: e + 1 <= x < f ==> x in arrived - {e}
    ensures forall x: nat :: e <= x < f ==> x in arrived
  {
    forall x: nat | e <= x < f
      ensures x in arrived
    {
      assert x > e ==> x in arrived - {e};
    }
  }

  lemma IsFirstMissing(e: nat, arrived: set<u64>, f: nat)
    requires e <= f && f !in arrived && forall x: nat :: e <= x < f ==> x in arrived
    ensures FirstMissing(e, arrived) == f
  {
    hide FirstMissing;
    var g := FirstMissing(e, arrived);
    assert g < f ==> g in arrived;
    assert f < g ==> f in arrived;
  }

  /** What has arrived but cannot be handed on yet. */
  ghost function Waiting(e: nat, arrived: set<u64>): set<u64> {
    set x | x in arrived && x > FirstMissing(e, arrived)
  }

  /** The tracker's next expected sequence, from `e` on. */
  function Front(e: u64, arrivals: seq<Arrival>): u64 {
    if arrivals == [] then e
    else T.Observe(Some(Front(e, arrivals[..|arrivals| - 1])), arrivals[|arrivals| - 1].sequence).0
  }

  lemma FrontSnoc(e: u64, arrivals: seq<Arrival>, a: Arrival)
    ensures Front(e, arrivals + [a]) == T.Observe(Some(Front(e, arrivals)), a.sequence).0
  {
    assert (arrivals + [a])[..|arrivals|] == arrivals;
  }

  lemma ObserveAhead(front: u64, s: u64)
    requires front <= s < U64_MAX && s < front + T.HALF
    ensures T.Observe(Some(front), s) == (s + 1, T.Observation(s - front, false, false))
  {
    ForwardGap(front, s);
  }

  lemma ObserveBehind(front: u64, s: u64)
    requires s < front <= s + T.HALF
    ensures T.Observe(Some(front), s) == (front, T.Observation(0, true, true))
  {
    ForwardGap(front, s);
  }

  // ----- runs in which nothing outstays its hold ------------------------------

  /** Nothing that waits has waited as long as the arriving payload's hold. */
  ghost predicate StillYoung(e: nat, earlier: seq<Arrival>, now: nat, hold: nat) {
    forall a :: a in earlier && a.sequence in Waiting(e, Sequences(earlier)) ==> Waited(a.entry, now) < hold
  }

  /** Nothing that waits has waited as long as its own path's hold. */
  ghost predicate EachStillYoung(e: nat, earlier: seq<Arrival>, now: nat, holds: map<u16, nat>) {
    forall a :: a in earlier && a.sequence in Waiting(e, Sequences(earlier)) ==>
      Waited(a.entry, now) < HoldOf(holds, a.entry.pathId)
  }

  function HoldOf(holds: map<u16, nat>, pathId: u16): nat { if pathId in holds then holds[pathId] else 0 }

  /** A new sequence from `e` on, on a path with a hold, in time and without pressure; or a sweep that comes in time.
      Sequences do not wrap. */
  ghost predicate Timely(e: u64, earlier: seq<Arrival>, event: Event) {
    match event
    case Arrived(a) =>
      && e <= a.sequence < U64_MAX && a.sequence < e + T.HALF && a.sequence !in Sequences(earlier)
      && a.hold > 0 && StillYoung(e, earlier, a.entry.receivedAt, a.hold)
      && |Waiting(e, Sequences(earlier + [a]))| <= REMOTE_REORDER_BUFFER_LIMIT
    case Swept(_, now, holds) => EachStillYoung(e, earlier, now, holds)
  }

  /** The arrival carries the report of a tracker that expected `e` before the first. */
  ghost predicate Reported(e: u64, earlier: seq<Arrival>, event: Event) {
    event.Arrived? ==>
      event.arrival.entry.observation == T.Observe(Some(Front(e, earlier)), event.arrival.sequence).1
  }

  ghost predicate Smooth(e: u64, earlier: seq<Arrival>, event: Event) {
    Timely(e, earlier, event) && Reported(e, earlier, event)
  }

  /** The arrivals for `key`. */
  function ArrivalsFor(events: seq<Event>, key: Key): seq<Arrival> {
    if events == [] then []
    else
      var before, last := ArrivalsFor(events[..|events| - 1], key), events[|events| - 1];
      if last.Arrived? && last.arrival.key == key then before + [last.arrival] else before
  }

  ghost predicate AllTimely(e: u64, events: seq<Event>, key: Key) {
    forall i :: 0 <= i < |events| && KeyOf(events[i]) == key ==> Timely(e, ArrivalsFor(events[..i], key), events[i])
  }

  ghost predicate AllReported(e: u64, events: seq<Event>, key: Key) {
    forall i :: 0 <= i < |events| && KeyOf(events[i]) == key ==> Reported(e, ArrivalsFor(events[..i], key), events[i])
  }

  /** The events for `key` are all smooth; those of other keys may be anything. */
  ghost predicate AllSmooth(e: u64, events: seq<Event>, key: Key) {
    forall i :: 0 <= i < |events| && KeyOf(events[i]) == key ==> Smooth(e, ArrivalsFor(events[..i], key), events[i])
  }

  // ----- what holds between events --------------------------------------------

  ghost predicate Came(arrivals: seq<Arrival>, x: u64, entry: Entry) {
    exists j :: 0 <= j < |arrivals| && arrivals[j].sequence == x && arrivals[j].entry == entry
  }

  /** All arrivals lie between `e` and the tracker's front, and the furthest is just behind the front. */
  ghost predicate FrontOk(e: u64, arrivals: seq<Arrival>) {
    var front := Front(e, arrivals);
    && e <= front <= U64_MAX && front <= e + T.HALF
    && (forall x :: x in Sequences(arrivals) ==> e <= x < front)
    && (front == e || front - 1 in Sequences(arrivals))
  }

  /** The buffer waits for the first missing sequence and holds everything behind it; without one nothing waits. */
  ghost predicate BufferOk(e: u64, arrivals: seq<Arrival>, m: Buffers, key: Key) {
    var f, waiting := FirstMissing(e, Sequences(arrivals)), Waiting(e, Sequences(arrivals));
    && (key in m <==> waiting != {})
    && (key in m ==>
          && m[key].next == f && m[key].entries.Keys == waiting
          && forall x :: x in m[key].entries ==> Came(arrivals, x, m[key].entries[x]))
  }

  lemma FirstMissingInFront(e: u64, arrivals: seq<Arrival>)
    requires FrontOk(e, arrivals)
    ensures var f := FirstMissing(e, Sequences(arrivals));
      f <= Front(e, arrivals) && (f == Front(e, arrivals) <==> Waiting(e, Sequences(arrivals)) == {})
  {
    hide FirstMissing, Sequences, Front;
    var f: nat, front := FirstMissing(e, Sequences(arrivals)), Front(e, arrivals);
    assert front < f ==> front in Sequences(arrivals);
    if f < front {
      assert front - 1 in Sequences(arrivals) && front - 1 != f;
      assert front - 1 in Waiting(e, Sequences(arrivals));
    }
  }

  lemma SequencesSnoc(arrivals: seq<Arrival>, a: Arrival)
    ensures Sequences(arrivals + [a]) == Sequences(arrivals) + {a.sequence}
  {
  }

  lemma FrontMoves(e: u64, arrivals: seq<Arrival>, a: Arrival)
    requires FrontOk(e, arrivals) && e <= a.sequence < U64_MAX && a.sequence < e + T.HALF
    requires a.sequence !in Sequences(arrivals)
    ensures FrontOk(e, arrivals + [a])
    ensures var front := Front(e, arrivals);
      T.Observe(Some(front), a.sequence).1 ==
      if a.sequence >= front then T.Observation(a.sequence - front, false, false) else T.Observation(0, true, true)
  {
    hide Front, Sequences;
    FrontSnoc(e, arrivals, a);
    SequencesSnoc(arrivals, a);
    var front := Front(e, arrivals);
    if a.sequence >= front {
      ObserveAhead(front, a.sequence);
    } else {
      ObserveBehind(front, a.sequence);
    }
  }

  // ----- a release that skips nothing -----------------------------------------

  /** The entries from `b.next` up to `end`, in order. */
  ghost predicate IsRun(b: Buffer, end: nat, ready: seq<Item>) {
    && b.next <= end && |ready| == end - b.next
    && forall i :: 0 <= i < |ready| ==> IsEntryAt(b, b.next + i, ready[i])
  }

  predicate IsEntryAt(b: Buffer, x: nat, item: Item) {
    x in b.entries && item.0 == x && item.1 == b.entries[x]
  }

  lemma RunGoesOn(b: Buffer, end: nat, later: seq<Item>)
    requires b.next in b.entries && b.next < U64_MAX
    requires IsRun(Buffer(b.next + 1, b.entries - {b.next}), end, later)
    ensures IsRun(b, end, [(b.next, b.entries[b.next])] + later)
  {
    var rest, ready := Buffer(b.next + 1, b.entries - {b.next}), [(b.next, b.entries[b.next])] + later;
    forall i | 0 <= i < |ready|
      ensures IsEntryAt(b, b.next + i, ready[i])
    {
      if i > 0 {
        assert IsEntryAt(rest, rest.next + (i - 1), later[i - 1]);
      }
    }
  }

  lemma {:induction false} ReleasesTheRun(b: Buffer, now: nat, hold: nat)
    requires NothingBelowNext(b) && forall x :: x in b.entries ==> x < U64_MAX
    requires AfterRun(b).entries == map[] || !Overdue(AfterRun(b), now, hold)
    ensures Release(b, now, hold).0 == AfterRun(b) && AfterRun(b).next == RunEnd(b)
    ensures IsRun(b, RunEnd(b), Release(b, now, hold).1)
    decreases |b.entries|
  {
    hide Overdue, Lowest, Release, IsRun;
    ReleaseStep(b, now, hold);
    if b.next in b.entries {
      RemoveShrinks(b.entries, b.next);
      ReleasesTheRun(Buffer(b.next + 1, b.entries - {b.next}), now, hold);
      RunGoesOn(b, RunEnd(b), Release(Buffer(b.next + 1, b.entries - {b.next}), now, hold).1);
    } else {
      NoRun(b);
    }
  }

  lemma NoRun(b: Buffer)
    ensures IsRun(b, b.next, [])
  {
  }

  // ----- one event ------------------------------------------------------------

  /** What one event hands on for its key: everything from the first missing sequence before it to the one after. */
  ghost predicate HandsOn(arrivals: seq<Arrival>, from: nat, to: nat, ready: seq<Item>) {
    && from <= to && |ready| == to - from
    && forall i :: 0 <= i < |ready| ==> ready[i].0 == from + i && Came(arrivals, ready[i].0, ready[i].1)
  }

  lemma CameLonger(arrivals: seq<Arrival>, a: Arrival, x: u64, entry: Entry)
    ensures Came(arrivals, x, entry) ==> Came(arrivals + [a], x, entry)
    ensures Came(arrivals + [a], a.sequence, a.entry)
  {
    var all := arrivals + [a];
    assert all[|arrivals|] == a;
    if j :| 0 <= j < |arrivals| && arrivals[j].sequence == x && arrivals[j].entry == entry {
      assert all[j].sequence == x && all[j].entry == entry;
    }
  }

  /** The next in order with nothing waiting passes straight through. */
  lemma StraightThrough(e: u64, arrivals: seq<Arrival>, m: Buffers, a: Arrival)
    requires FrontOk(e, arrivals) && BufferOk(e, arrivals, m, a.key) && Smooth(e, arrivals, Arrived(a))
    requires a.key !in m && a.sequence == FirstMissing(e, Sequences(arrivals))
    ensures var f, f' := FirstMissing(e, Sequences(arrivals)), FirstMissing(e, Sequences(arrivals + [a]));
      BufferOk(e, arrivals + [a], Arrive(m, a).0, a.key) && HandsOn(arrivals + [a], f, f', Arrive(m, a).1)
  {
    hide FirstMissing, Sequences, Front, Release, T.Observe, StillYoung;
    var f, arrived := FirstMissing(e, Sequences(arrivals)), Sequences(arrivals);
    FirstMissingInFront(e, arrivals);
    FrontMoves(e, arrivals, a);
    SequencesSnoc(arrivals, a);
    IsFirstMissing(e, arrived + {a.sequence}, f + 1);
    assert Waiting(e, arrived + {a.sequence}) == {};
    CameLonger(arrivals, a, a.sequence, a.entry);
  }

  /** An arrival that does not pass straight through is stored in a buffer that waits for the first missing sequence. */
  lemma StoredWaits(e: u64, arrivals: seq<Arrival>, m: Buffers, a: Arrival)
    requires FrontOk(e, arrivals) && BufferOk(e, arrivals, m, a.key) && Smooth(e, arrivals, Arrived(a))
    requires a.key in m || a.sequence != FirstMissing(e, Sequences(arrivals))
    ensures !Bypasses(m, a)
    ensures var b, f := Stored(BufferFor(m, a), a.sequence, a.entry), FirstMissing(e, Sequences(arrivals));
      && a.sequence >= f && b.next == f && b.entries.Keys == Waiting(e, Sequences(arrivals)) + {a.sequence}
      && forall x :: x in b.entries ==> Came(arrivals + [a], x, b.entries[x])
  {
    hide FirstMissing, Sequences, Front, T.Observe, StillYoung, Came;
    FirstMissingInFront(e, arrivals);
    FrontMoves(e, arrivals, a);
    var b := Stored(BufferFor(m, a), a.sequence, a.entry);
    forall x | x in b.entries
      ensures Came(arrivals + [a], x, b.entries[x])
    {
      CameLonger(arrivals, a, x, b.entries[x]);
    }
  }

  lemma {:induction false} RunEndsEarly(b: Buffer)
    requires NothingBelowNext(b) && b.next < U64_MAX && forall x :: x in b.entries ==> x < U64_MAX
    ensures RunEnd(b) <= U64_MAX
    decreases |b.entries|
  {
    if b.next in b.entries {
      RemoveShrinks(b.entries, b.next);
      if b.next + 1 < U64_MAX {
        RunEndsEarly(Buffer(b.next + 1, b.entries - {b.next}));
      }
    }
  }

  /** What is left behind the run is what waits now. */
  lemma LeftBehindRun(e: u64, arrivals: seq<Arrival>, a: Arrival, b: Buffer)
    requires a.sequence !in Sequences(arrivals)
    requires var f := FirstMissing(e, Sequences(arrivals));
      a.sequence >= f && b.next == f && b.entries.Keys == Waiting(e, Sequences(arrivals)) + {a.sequence}
    requires forall x :: x in b.entries ==> x < U64_MAX
    ensures NothingBelowNext(b) && RunEnd(b) == FirstMissing(e, Sequences(arrivals + [a]))
    ensures AfterRun(b).entries.Keys == Waiting(e, Sequences(arrivals + [a]))
    ensures forall x :: x in AfterRun(b).entries ==> x in b.entries && AfterRun(b).entries[x] == b.entries[x]
  {
    hide FirstMissing, Sequences, AfterRun, RunEnd;
    SequencesSnoc(arrivals, a);
    var f: nat, end, c := FirstMissing(e, Sequences(arrivals)), RunEnd(b), AfterRun(b);
    var arrived := Sequences(arrivals + [a]);
    forall x: u64
      ensures SplitByRun(b, c, end, x)
    {
      RunSplits(b, x);
    }
    RunSplits(b, b.next);
    RunEndsEarly(b);
    forall x: nat | e <= x < end
      ensures x in arrived
    {
      assert x >= f ==> SplitByRun(b, c, end, x);
    }
    assert end in arrived ==> end in b.entries;
    IsFirstMissing(e, arrived, end);
    forall x: u64
      ensures x in c.entries <==> x in Waiting(e, arrived)
      ensures x in c.entries ==> x in b.entries && c.entries[x] == b.entries[x]
    {
      assert SplitByRun(b, c, end, x);
    }
  }

  lemma RestIsYoung(e: u64, arrivals: seq<Arrival>, a: Arrival, b: Buffer, c: Buffer)
    requires Smooth(e, arrivals, Arrived(a)) && b.entries.Keys == Waiting(e, Sequences(arrivals)) + {a.sequence}
    requires forall x :: x in b.entries ==> Came(arrivals + [a], x, b.entries[x])
    requires c.entries.Keys == Waiting(e, Sequences(arrivals + [a])) && c.entries != map[]
    requires forall x :: x in c.entries ==> x in b.entries && c.entries[x] == b.entries[x]
    ensures !Overdue(c, a.entry.receivedAt, a.hold)
  {
    hide Sequences, Waiting, T.Observe, Front;
    var low := Lowest(c.entries);
    assert Came(arrivals + [a], low, b.entries[low]);
    var j :| 0 <= j < |arrivals + [a]|
      && (arrivals + [a])[j].sequence == low && (arrivals + [a])[j].entry == b.entries[low];
    if j < |arrivals| {
      assert arrivals[j] in arrivals && low in Waiting(e, Sequences(arrivals));
      assert Waited(arrivals[j].entry, a.entry.receivedAt) < a.hold;
    }
    assert |c.entries.Keys| == |c.entries|;
  }

  lemma PutBackOk(e: u64, arrivals: seq<Arrival>, m: Buffers, key: Key, c: Buffer)
    requires c.next == FirstMissing(e, Sequences(arrivals)) && c.entries.Keys == Waiting(e, Sequences(arrivals))
    requires forall x :: x in c.entries ==> Came(arrivals, x, c.entries[x])
    ensures BufferOk(e, arrivals, PutBack(m, key, c), key)
  {
    hide FirstMissing, Sequences, Waiting, Came;
    assert c.entries == map[] <==> c.entries.Keys == {};
  }

  lemma RunHandsOn(arrivals: seq<Arrival>, b: Buffer, end: nat, ready: seq<Item>)
    requires IsRun(b, end, ready) && forall x :: x in b.entries ==> Came(arrivals, x, b.entries[x])
    ensures HandsOn(arrivals, b.next, end, ready)
  {
    hide Came;
    forall i | 0 <= i < |ready|
      ensures ready[i].0 == b.next + i && Came(arrivals, ready[i].0, ready[i].1)
    {
      assert IsEntryAt(b, b.next + i, ready[i]);
    }
  }

  /** An arrival that is stored hands on the run it completes, if any, and leaves the rest waiting. */
  lemma StoredHandsOn(e: u64, arrivals: seq<Arrival>, m: Buffers, a: Arrival)
    requires FrontOk(e, arrivals) && BufferOk(e, arrivals, m, a.key) && Smooth(e, arrivals, Arrived(a))
    requires a.key in m || a.sequence != FirstMissing(e, Sequences(arrivals))
    ensures var f, f' := FirstMissing(e, Sequences(arrivals)), FirstMissing(e, Sequences(arrivals + [a]));
      BufferOk(e, arrivals + [a], Arrive(m, a).0, a.key) && HandsOn(arrivals + [a], f, f', Arrive(m, a).1)
  {
    hide FirstMissing, Sequences, Waiting, Front, T.Observe, StillYoung, Came, AfterRun, RunEnd, Release, Overdue;
    hide IsRun, HandsOn, PutBack, Bypasses, BufferFor, Stored, NothingBelowNext, BufferOk;
    StoredWaits(e, arrivals, m, a);
    var b, now := Stored(BufferFor(m, a), a.sequence, a.entry), a.entry.receivedAt;
    KeysInRange(e, arrivals, a);
    LeftBehindRun(e, arrivals, a, b);
    if AfterRun(b).entries != map[] {
      RestIsYoung(e, arrivals, a, b, AfterRun(b));
    }
    ReleasesTheRun(b, now, a.hold);
    RunHandsOn(arrivals + [a], b, RunEnd(b), Release(b, now, a.hold).1);
    PutBackOk(e, arrivals + [a], m, a.key, AfterRun(b));
  }

  lemma KeysInRange(e: u64, arrivals: seq<Arrival>, a: Arrival)
    requires FrontOk(e, arrivals) && a.sequence < U64_MAX
    ensures forall x :: x in Waiting(e, Sequences(arrivals)) + {a.sequence} ==> x < U64_MAX
  {
    hide FirstMissing, Sequences, Front;
  }

  lemma ArrivalHandsOn(e: u64, arrivals: seq<Arrival>, m: Buffers, a: Arrival)
    requires FrontOk(e, arrivals) && BufferOk(e, arrivals, m, a.key) && Smooth(e, arrivals, Arrived(a))
    ensures var f, f' := FirstMissing(e, Sequences(arrivals)), FirstMissing(e, Sequences(arrivals + [a]));
      BufferOk(e, arrivals + [a], Arrive(m, a).0, a.key) && HandsOn(arrivals + [a], f, f', Arrive(m, a).1)
  {
    hide FirstMissing, Sequences, BufferOk, FrontOk, Smooth, HandsOn, Arrive;
    if a.key !in m && a.sequence == FirstMissing(e, Sequences(arrivals)) {
      StraightThrough(e, arrivals, m, a);
    } else {
      StoredHandsOn(e, arrivals, m, a);
    }
  }

  /** A sweep in time hands on nothing. */
  lemma SweepFindsNothing(e: u64, arrivals: seq<Arrival>, m: Buffers, key: Key, now: nat, holds: map<u16, nat>)
    requires BufferOk(e, arrivals, m, key) && Smooth(e, arrivals, Swept(key, now, holds))
    ensures Expire(m, key, now, holds) == (m, [])
  {
    hide FirstMissing, Sequences, Waiting, Release;
    if key in m && m[key].entries != map[] {
      var low := Lowest(m[key].entries);
      assert Came(arrivals, low, m[key].entries[low]);
      var j :| 0 <= j < |arrivals| && arrivals[j].sequence == low && arrivals[j].entry == m[key].entries[low];
      assert arrivals[j] in arrivals && low in Waiting(e, Sequences(arrivals));
      assert Waited(arrivals[j].entry, now) < HoldOf(holds, arrivals[j].entry.pathId);
    }
  }

  lemma OtherKeyKept(m: Buffers, event: Event, key: Key)
    requires KeyOf(event) != key
    ensures var m' := Step(m, event).0; (key in m' <==> key in m) && (key in m ==> m'[key] == m[key])
  {
    hide Release, Lowest;
  }

  // ----- any run --------------------------------------------------------------

  /** Since `start` the key's payloads came out from `e` on, one after the other, as far as they have arrived. */
  ghost predicate CameOutInOrder(e: u64, start: seq<Event>, events: seq<Event>, key: Key) {
    var arrivals, before, all := ArrivalsFor(events, key), Handed(start, key), Handed(start + events, key);
    before <= all && HandsOn(arrivals, e, FirstMissing(e, Sequences(arrivals)), all[|before|..])
  }

  lemma HandsOnMore(arrivals: seq<Arrival>, arrivals': seq<Arrival>, e: nat, f: nat, f': nat, first: seq<Item>,
                    more: seq<Item>)
    requires HandsOn(arrivals, e, f, first) && HandsOn(arrivals', f, f', more)
    requires arrivals' == arrivals || (arrivals' != [] && arrivals' == arrivals + [arrivals'[|arrivals'| - 1]])
    ensures HandsOn(arrivals', e, f', first + more)
  {
    hide Came;
    var all := first + more;
    forall i | 0 <= i < |all|
      ensures all[i].0 == e + i && Came(arrivals', all[i].0, all[i].1)
    {
      if i < |first| {
        if arrivals' != arrivals {
          CameLonger(arrivals, arrivals'[|arrivals'| - 1], first[i].0, first[i].1);
        }
      } else {
        assert all[i] == more[i - |first|];
      }
    }
  }

  lemma RunSnoc(start: seq<Event>, events: seq<Event>, event: Event, key: Key)
    ensures After(start + (events + [event])) == Step(After(start + events), event).0
    ensures Handed(start + (events + [event]), key) ==
            Handed(start + events, key) + if KeyOf(event) == key then Step(After(start + events), event).1 else []
    ensures ArrivalsFor(events + [event], key) ==
            ArrivalsFor(events, key) + if event.Arrived? && KeyOf(event) == key then [event.arrival] else []
  {
    hide Step;
    var all := start + (events + [event]);
    assert all[..|all| - 1] == start + events && (events + [event])[..|events|] == events;
    assert ArrivalsFor(events, key) + [] == ArrivalsFor(events, key);
  }

  lemma RunBegins(e: u64, start: seq<Event>, key: Key)
    requires key !in After(start)
    ensures FrontOk(e, []) && BufferOk(e, [], After(start + []), key) && CameOutInOrder(e, start, [], key)
  {
    hide Handed;
    assert start + [] == start;
    assert Sequences([]) == {} && Waiting(e, {}) == {};
  }

  lemma SmoothPrefix(e: u64, events: seq<Event>, event: Event, key: Key)
    requires AllSmooth(e, events + [event], key)
    ensures AllSmooth(e, events, key)
    ensures KeyOf(event) == key ==> Smooth(e, ArrivalsFor(events, key), event)
  {
    hide Smooth, ArrivalsFor;
    var all := events + [event];
    forall i | 0 <= i < |events| && KeyOf(events[i]) == key
      ensures Smooth(e, ArrivalsFor(events[..i], key), events[i])
    {
      assert all[i] == events[i] && all[..i] == events[..i];
    }
    assert all[|events|] == event && all[..|events|] == events;
  }

  /** One event of the key: what it hands on continues where the run has got to. */
  lemma EventHandsOn(e: u64, arrivals: seq<Arrival>, m: Buffers, event: Event)
    requires FrontOk(e, arrivals) && BufferOk(e, arrivals, m, KeyOf(event)) && Smooth(e, arrivals, event)
    ensures var arrivals' := arrivals + if event.Arrived? then [event.arrival] else [];
      && FrontOk(e, arrivals') && BufferOk(e, arrivals', Step(m, event).0, KeyOf(event))
      && HandsOn(arrivals', FirstMissing(e, Sequences(arrivals)), FirstMissing(e, Sequences(arrivals')),
                 Step(m, event).1)
  {
    hide FirstMissing, Sequences, BufferOk, FrontOk, Arrive, Expire, Front;
    assert arrivals + [] == arrivals;
    match event
    case Arrived(a) =>
      FrontMoves(e, arrivals, a);
      ArrivalHandsOn(e, arrivals, m, a);
    case Swept(key, now, holds) =>
      SweepFindsNothing(e, arrivals, m, key, now, holds);
  }

  /** From no buffer for a key and the tracker expecting `e`: however the payloads from `e` on are shuffled, and
      whatever other keys do meanwhile, as long as none outstays its hold or crowds the buffer they are handed on in
      sequence from `e`, each as soon as all before it are there; and exactly the ones behind the first missing one are
      held. */
  lemma {:induction false} ShuffledComesOutInOrder(e: u64, start: seq<Event>, events: seq<Event>, key: Key)
    requires key !in After(start) && AllSmooth(e, events, key)
    ensures var arrivals := ArrivalsFor(events, key);
      FrontOk(e, arrivals) && BufferOk(e, arrivals, After(start + events), key) && CameOutInOrder(e, start, events, key)
    decreases |events|
  {
    hide After, Handed, ArrivalsFor, FrontOk, BufferOk, AllSmooth, Smooth, FirstMissing, Sequences, HandsOn, Step;
    if events == [] {
      RunBegins(e, start, key);
      assert ArrivalsFor([], key) == [] by { NoArrivals(key); }
    } else {
      var init, event := events[..|events| - 1], events[|events| - 1];
      assert events == init + [event];
      SmoothPrefix(e, init, event, key);
      ShuffledComesOutInOrder(e, start, init, key);
      RunSnoc(start, init, event, key);
      RunGrows(e, start, init, event, key);
    }
  }

  lemma NoArrivals(key: Key)
    ensures ArrivalsFor([], key) == []
  {
  }

  lemma RunGrows(e: u64, start: seq<Event>, init: seq<Event>, event: Event, key: Key)
    requires KeyOf(event) == key ==> Smooth(e, ArrivalsFor(init, key), event)
    requires FrontOk(e, ArrivalsFor(init, key)) && BufferOk(e, ArrivalsFor(init, key), After(start + init), key)
    requires CameOutInOrder(e, start, init, key)
    ensures var arrivals, events := ArrivalsFor(init + [event], key), init + [event];
      FrontOk(e, arrivals) && BufferOk(e, arrivals, After(start + events), key) && CameOutInOrder(e, start, events, key)
  {
    hide After, Handed, ArrivalsFor, FrontOk, Smooth, FirstMissing, Sequences, Waiting, HandsOn, Step, Came;
    RunSnoc(start, init, event, key);
    var arrivals, m := ArrivalsFor(init, key), After(start + init);
    var before, all := Handed(start, key), Handed(start + init, key);
    if KeyOf(event) == key {
      EventHandsOn(e, arrivals, m, event);
      var arrivals', ready := ArrivalsFor(init + [event], key), Step(m, event).1;
      assert arrivals + [] == arrivals;
      HandsOnMore(arrivals, arrivals', e, FirstMissing(e, Sequences(arrivals)), FirstMissing(e, Sequences(arrivals')),
                  all[|before|..], ready);
      assert (all + ready)[|before|..] == all[|before|..] + ready;
    } else {
      OtherKeyKept(m, event, key);
      assert arrivals + [] == arrivals && all + [] == all;
    }
  }

  /** So once everything from `e` to `last` has arrived, in whatever order, it has been handed on as `e`, `e + 1`, ..,
      `last`, and the buffer is gone. */
  lemma GapFillsInOrder(e: u64, start: seq<Event>, events: seq<Event>, key: Key, last: u64)
    requires key !in After(start) && AllSmooth(e, events, key) && e <= last < U64_MAX
    requires forall x: u64 :: x in Sequences(ArrivalsFor(events, key)) <==> e <= x <= last
    ensures key !in After(start + events)
    ensures var before, all := Handed(start, key), Handed(start + events, key);
      && before <= all && |all| == |before| + (last - e + 1)
      && forall i :: |before| <= i < |all| ==> all[i].0 == e + (i - |before|)
  {
    hide After, Handed, ArrivalsFor, AllSmooth, FirstMissing, Sequences;
    ShuffledComesOutInOrder(e, start, events, key);
    var arrivals, before, all := ArrivalsFor(events, key), Handed(start, key), Handed(start + events, key);
    IsFirstMissing(e, Sequences(arrivals), last + 1);
    assert Waiting(e, Sequences(arrivals)) == {};
    forall i | |before| <= i < |all|
      ensures all[i].0 == e + (i - |before|)
    {
      assert all[i] == all[|before|..][i - |before|];
    }
  }

  // ----- one peer with two services -------------------------------------------

  /** Sequences 1 and 3 of one service and then 2 of another, all at time 0, observed by the one tracker of their peer,
      on a path with a hold. */
  function TwoServices(key: Key, other: Key, hold: nat): seq<Event> {
    [Arrived(Arrival(key, 1, Entry(1, [], T.Observe(None, 1).1, 0), hold)),
     Arrived(Arrival(key, 3, Entry(1, [], T.Observe(Some(2), 3).1, 0), hold)),
     Arrived(Arrival(other, 2, Entry(1, [], T.Observe(Some(4), 2).1, 0), hold))]
  }

  lemma HeldForTwo(key: Key, a: Arrival)
    requires a.key == key && a.sequence == 3 && a.hold > 0 && a.entry.observation == T.Observation(1, false, false)
    ensures Step(map[], Arrived(a)).0 == map[key := Buffer(2, map[3 := a.entry])]
  {
    hide Release;
    var b := Buffer(2, map[3 := a.entry]);
    assert |b.entries| == 1;
    ReleaseKeepsAll(b, 3, a.entry.receivedAt, a.hold);
  }

  lemma PassesLate(m: Buffers, a: Arrival)
    requires a.key !in m && a.sequence == 2 && a.hold > 0 && a.entry.observation == T.Observation(0, true, true)
    ensures Step(m, Arrived(a)).0 == m
  {
    hide Release;
    var b := Buffer(2, map[2 := a.entry]);
    ReleaseStep(b, a.entry.receivedAt, a.hold);
    var rest := Buffer(3, b.entries - {2});
    assert rest.entries == map[];
    ReleaseStep(rest, a.entry.receivedAt, a.hold);
    assert m - {a.key} == m;
  }

  /** A peer numbers the payloads of all its services in one sequence, but gaps are waited for service by service. For
      any two services of a peer and any hold: with everything up to 3 arrived, 3 is still held for 2, which went to the
      other service. */
  lemma OtherServiceFillsNoGap(key: Key, other: Key, hold: nat)
    requires key.peerScope == other.peerScope && key != other && hold > 0
    ensures var m := After(TwoServices(key, other, hold));
      key in m && m[key].next == 2 && m[key].entries.Keys == {3} && other !in m
  {
    hide Step, After;
    var es := TwoServices(key, other, hold);
    AfterSteps(es[0], es[1], es[2]);
    assert Step(map[], es[0]).0 == map[] by { PassesFirst(es[0].arrival); }
    HeldForTwo(key, es[1].arrival);
    PassesLate(map[key := Buffer(2, map[3 := es[1].arrival.entry])], es[2].arrival);
  }

  lemma PassesFirst(a: Arrival)
    requires a.entry.observation == T.Observation(0, false, false)
    ensures Step(map[], Arrived(a)).0 == map[]
  {
  }
}
