/** The receiver's reorder buffers: payloads held for a gap to fill, released in order, by age or by pressure. */
module Reorder {
  import opened Bytes
  import opened Plans
  import opened Tracker

  const REMOTE_REORDER_BUFFER_LIMIT: nat := 8192

  datatype Key = Key(serviceId: u16, peerScope: Option<u32>)

  datatype Entry = Entry(pathId: u16, payload: bytes, observation: Observation, receivedAt: nat)

  datatype Buffer = Buffer(next: u64, entries: map<u64, Entry>)

  /** Held entries leave as (sequence, entry). */
  type Item = (u64, Entry)

  lemma {:induction false} SomeLowest(keys: set<u64>) returns (low: u64)
    requires keys != {}
    ensures low in keys && forall k :: k in keys ==> low <= k
    decreases |keys|
  {
    low :| low in keys;
    if k :| k in keys && k < low {
      var above := low;
      low := SomeLowest(keys - {above});
      assert k in keys - {above} && low <= k < above;
      assert forall j :: j in keys ==> j == above || j in keys - {above};
    } else {
      assert forall k :: k in keys ==> !(k < low);
    }
  }

  lemma LowestExists(keys: set<u64>)
    requires keys != {}
    ensures exists low :: low in keys && forall k :: k in keys ==> low <= k
  {
    var low := SomeLowest(keys);
  }

  /** The first key of the ordered map. */
  function Lowest(entries: map<u64, Entry>): (low: u64)
    requires entries != map[]
    ensures low in entries && forall k :: k in entries ==> low <= k
  {
    assert entries.Keys != {};
    LowestExists(entries.Keys);
    var low :| low in entries.Keys && forall k :: k in entries.Keys ==> low <= k;
    low
  }

  function Waited(e: Entry, now: nat): nat { if now > e.receivedAt then now - e.receivedAt else 0 }

  /** Whether the buffer must give up waiting for its next sequence. */
  predicate Overdue(b: Buffer, now: nat, hold: nat)
    requires b.entries != map[]
  {
    Waited(b.entries[Lowest(b.entries)], now) >= hold || |b.entries| > REMOTE_REORDER_BUFFER_LIMIT
  }

  lemma RemoveShrinks(entries: map<u64, Entry>, k: u64)
    requires k in entries
    ensures |entries - {k}| == |entries| - 1
  {
    assert (entries - {k}).Keys == entries.Keys - {k};
  }

  /** Release from the next sequence on; skip a gap only when overdue. */
  function Release(b: Buffer, now: nat, hold: nat): (r: (Buffer, seq<Item>))
    decreases |b.entries|, if b.next in b.entries then 0 else 1
  {
    if b.next in b.entries then
      RemoveShrinks(b.entries, b.next);
      var (b', rest) := Release(Buffer(NextSequence(b.next), b.entries - {b.next}), now, hold);
      (b', [(b.next, b.entries[b.next])] + rest)
    else if b.entries == map[] || !Overdue(b, now, hold) then (b, [])
    else Release(b.(next := Lowest(b.entries)), now, hold)
  }

  // ----- what every drain does ------------------------------------------------

  lemma TakeOut(entries: map<u64, Entry>, k: u64)
    requires k in entries
    ensures multiset(entries.Items) == multiset((entries - {k}).Items) + multiset{(k, entries[k])}
  {
    var rest := entries - {k};
    forall p ensures p in entries.Items <==> p in rest.Items + {(k, entries[k])} {
      assert p in entries.Items <==> p.0 in entries && entries[p.0] == p.1;
      assert p in rest.Items <==> p.0 in rest && rest[p.0] == p.1;
    }
    assert entries.Items == rest.Items + {(k, entries[k])};
    assert (k, entries[k]) !in (entries - {k}).Items;
  }

  /** Each held entry is released once or stays; nothing else comes out. */
  lemma {:induction false} ReleaseConserves(b: Buffer, now: nat, hold: nat)
    ensures var (b', ready) := Release(b, now, hold);
      multiset(ready) + multiset(b'.entries.Items) == multiset(b.entries.Items)
    decreases |b.entries|, if b.next in b.entries then 0 else 1
  {
    hide Overdue, Lowest;
    if b.next in b.entries {
      var rest := Buffer(NextSequence(b.next), b.entries - {b.next});
      RemoveShrinks(b.entries, b.next);
      ReleaseConserves(rest, now, hold);
      TakeOut(b.entries, b.next);
      var (b', ready) := Release(rest, now, hold);
      assert multiset([(b.next, b.entries[b.next])] + ready) == multiset{(b.next, b.entries[b.next])} + multiset(ready);
    } else if b.entries != map[] && Overdue(b, now, hold) {
      ReleaseConserves(b.(next := Lowest(b.entries)), now, hold);
    }
  }

  /** A settled buffer has nothing it could release. */
  ghost predicate Settled(b: Buffer, now: nat, hold: nat) {
    b.entries == map[] || (b.next !in b.entries && !Overdue(b, now, hold))
  }

  lemma {:induction false} ReleaseSettles(b: Buffer, now: nat, hold: nat)
    ensures Settled(Release(b, now, hold).0, now, hold)
    decreases |b.entries|, if b.next in b.entries then 0 else 1
  {
    hide Overdue, Lowest;
    if b.next in b.entries {
      RemoveShrinks(b.entries, b.next);
      ReleaseSettles(Buffer(NextSequence(b.next), b.entries - {b.next}), now, hold);
    } else if b.entries != map[] && Overdue(b, now, hold) {
      ReleaseSettles(b.(next := Lowest(b.entries)), now, hold);
    }
  }

  ghost predicate NothingBelowNext(b: Buffer) {
    forall k :: k in b.entries ==> k >= b.next
  }

  ghost predicate Increasing(items: seq<Item>) {
    forall i, j :: 0 <= i < j < |items| ==> items[i].0 < items[j].0
  }

  /** With nothing held below the next sequence, what comes out is in strictly increasing order. */
  lemma {:induction false} ReleaseInOrder(b: Buffer, now: nat, hold: nat)
    requires NothingBelowNext(b)
    ensures var (b', ready) := Release(b, now, hold);
      && Increasing(ready)
      && (forall i :: 0 <= i < |ready| ==> ready[i].0 >= b.next)
      && (forall i, k :: 0 <= i < |ready| && k in b'.entries ==> ready[i].0 < k)
      && (forall k :: k in b'.entries ==> k >= b.next)
    decreases |b.entries|, if b.next in b.entries then 0 else 1
  {
    hide Overdue;
    if b.next in b.entries {
      var rest := Buffer(NextSequence(b.next), b.entries - {b.next});
      RemoveShrinks(b.entries, b.next);
      if b.next == U64_MAX {
        assert rest.entries == map[] by {
          assert forall k :: k in b.entries ==> k == U64_MAX;
        }
      } else {
        ReleaseInOrder(rest, now, hold);
      }
    } else if b.entries != map[] && Overdue(b, now, hold) {
      ReleaseInOrder(b.(next := Lowest(b.entries)), now, hold);
    }
  }

  // ----- arrivals and expiry --------------------------------------------------

  type Buffers = map<Key, Buffer>

  function SatSub(a: u64, b: u64): u64 { if a >= b then a - b else 0 }

  /** One fresh payload on a path with the given hold. */
  datatype Arrival = Arrival(key: Key, sequence: u64, entry: Entry, hold: nat)

  predicate Bypasses(m: Buffers, a: Arrival) {
    a.hold == 0 || (a.key !in m && !a.entry.observation.outOfOrder && a.entry.observation.missing == 0)
  }

  function BufferFor(m: Buffers, a: Arrival): Buffer {
    if a.key in m then m[a.key]
    else
      var missing := a.entry.observation.missing;
      Buffer(if missing > 0 then SatSub(a.sequence, missing) else a.sequence, map[])
  }

  /** A repeat of a held sequence is discarded: the first copy keeps its place. */
  predicate Discards(m: Buffers, a: Arrival) {
    !Bypasses(m, a) && a.sequence in BufferFor(m, a).entries
  }

  function Stored(b: Buffer, sequence: u64, entry: Entry): Buffer {
    if sequence in b.entries then b else b.(entries := b.entries[sequence := entry])
  }

  /** Put a drained buffer back, or forget it once empty. */
  function PutBack(m: Buffers, key: Key, b: Buffer): Buffers {
    if b.entries == map[] then m - {key} else m[key := b]
  }

  function Arrive(m: Buffers, a: Arrival): (r: (Buffers, seq<Item>)) {
    if Bypasses(m, a) then (m, [(a.sequence, a.entry)])
    else
      var (b, ready) := Release(Stored(BufferFor(m, a), a.sequence, a.entry), a.entry.receivedAt, a.hold);
      (PutBack(m, a.key, b), ready)
  }

  /** The end-of-call sweep of one key, with the hold of its lowest entry's path. */
  function Expire(m: Buffers, key: Key, now: nat, holds: map<u16, nat>): (r: (Buffers, seq<Item>)) {
    if key !in m || m[key].entries == map[] then (m, [])
    else
      var low := m[key].entries[Lowest(m[key].entries)];
      var hold := if low.pathId in holds then holds[low.pathId] else 0;
      if Waited(low, now) < hold then (m, [])
      else
        var (b, ready) := Release(m[key], now, hold);
        (PutBack(m, key, b), ready)
  }

  /** The release loop. It ends because a skipped gap is always followed by a removal. */
  method ReleaseReady(start: Buffer, now: nat, hold: nat) returns (b: Buffer, ready: seq<Item>)
    ensures (b, ready) == Release(start, now, hold)
  {
    hide Release, Lowest, Overdue;
    b, ready := start, [];
    ghost var (final, all) := Release(start, now, hold);
    assert [] + all == all;
    while true
      invariant Release(b, now, hold).0 == final && ready + Release(b, now, hold).1 == all
      decreases |b.entries|, if b.next in b.entries then 0 else 1
    {
      ReleaseStep(b, now, hold);
      if b.next in b.entries {
        var item := (b.next, b.entries[b.next]);
        RemoveShrinks(b.entries, b.next);
        b := Buffer(NextSequence(b.next), b.entries - {b.next});
        assert ready + ([item] + Release(b, now, hold).1) == ready + [item] + Release(b, now, hold).1;
        ready := ready + [item];
        continue;
      }
      if b.entries == map[] || !Overdue(b, now, hold) {
        break;
      }
      b := b.(next := Lowest(b.entries));
    }
    assert ready + [] == ready;
  }

  class RemoteReorder {
    var buffers: Buffers

    constructor ()
      ensures buffers == map[]
    {
      buffers := map[];
    }

    method DrainReorderReady(key: Key, now: nat, hold: nat) returns (ready: seq<Item>)
      modifies this
      ensures key !in old(buffers) ==> buffers == old(buffers) && ready == []
      ensures key in old(buffers) ==>
        var (b, items) := Release(old(buffers)[key], now, hold);
        ready == items && buffers == PutBack(old(buffers), key, b)
    {
      if key !in buffers {
        return [];
      }
      var b;
      b, ready := ReleaseReady(buffers[key], now, hold);
      buffers := if b.entries == map[] then buffers - {key} else buffers[key := b];
    }

    method DrainExpiredReorderReady(key: Key, now: nat, holds: map<u16, nat>) returns (ready: seq<Item>)
      modifies this
      ensures (buffers, ready) == Expire(old(buffers), key, now, holds)
    {
      hide Release, Lowest;
      if key !in buffers || buffers[key].entries == map[] {
        return [];
      }
      var oldest := buffers[key].entries[Lowest(buffers[key].entries)];
      var hold := if oldest.pathId in holds then holds[oldest.pathId] else 0;
      if Waited(oldest, now) < hold {
        return [];
      }
      ready := DrainReorderReady(key, now, hold);
    }

    method QueueWithReorder(a: Arrival) returns (ready: seq<Item>)
      modifies this
      ensures (buffers, ready) == Arrive(old(buffers), a)
    {
      hide Release;
      if a.hold == 0 {
        return [(a.sequence, a.entry)];
      }
      var observation := a.entry.observation;
      if a.key !in buffers && !observation.outOfOrder && observation.missing == 0 {
        return [(a.sequence, a.entry)];
      }
      ghost var before := buffers;
      var b := BufferFor(buffers, a);
      if a.sequence !in b.entries {
        b := b.(entries := b.entries[a.sequence := a.entry]);
      }
      buffers := buffers[a.key := b];
      ready := DrainReorderReady(a.key, a.entry.receivedAt, a.hold);
      PutBackOver(before, a.key, b, Release(b, a.entry.receivedAt, a.hold).0);
    }
  }

  lemma PutBackOver(m: Buffers, key: Key, b: Buffer, b': Buffer)
    ensures PutBack(m[key := b], key, b') == PutBack(m, key, b')
  {
    assert m[key := b] - {key} == m - {key};
  }

  lemma ReleaseStep(b: Buffer, now: nat, hold: nat)
    ensures Release(b, now, hold) ==
      if b.next in b.entries then
        var (b', rest) := Release(Buffer(NextSequence(b.next), b.entries - {b.next}), now, hold);
        (b', [(b.next, b.entries[b.next])] + rest)
      else if b.entries == map[] || !Overdue(b, now, hold) then (b, [])
      else Release(b.(next := Lowest(b.entries)), now, hold)
  {
    hide Overdue, Lowest;
  }

  /** An event makes or keeps a buffer for its own key only, and never brings another key in. */
  lemma KeysOf(m: Buffers, e: Event)
    ensures forall k :: k in Step(m, e).0 ==> k in m || k == KeyOf(e)
  {
    hide Release, Lowest;
  }

  // ----- whole runs -----------------------------------------------------------

  datatype Event =
    | Arrived(arrival: Arrival)
    | Swept(key: Key, now: nat, holds: map<u16, nat>)

  function Step(m: Buffers, e: Event): (r: (Buffers, seq<Item>)) {
    match e
    case Arrived(a) => Arrive(m, a)
    case Swept(key, now, holds) => Expire(m, key, now, holds)
  }

  function KeyOf(e: Event): Key {
    match e
    case Arrived(a) => a.key
    case Swept(key, _, _) => key
  }

  function After(events: seq<Event>): (m: Buffers) {
    if events == [] then map[] else Step(After(events[..|events| - 1]), events[|events| - 1]).0
  }

  /** Everything handed on for `key` during the run. */
  function Handed(events: seq<Event>, key: Key): (s: seq<Item>) {
    if events == [] then []
    else
      var before, e := events[..|events| - 1], events[|events| - 1];
      Handed(before, key) + if KeyOf(e) == key then Step(After(before), e).1 else []
  }

  /** The arrivals for `key`, split into those taken in and those discarded as repeats of a held sequence. */
  function Taken(events: seq<Event>, key: Key): (s: seq<Item>) {
    if events == [] then []
    else
      var before, e := events[..|events| - 1], events[|events| - 1];
      Taken(before, key) +
      if e.Arrived? && e.arrival.key == key && !Discards(After(before), e.arrival)
      then [(e.arrival.sequence, e.arrival.entry)] else []
  }

  ghost function Held(m: Buffers, key: Key): multiset<Item> {
    if key in m then multiset(m[key].entries.Items) else multiset{}
  }

  lemma StoredHolds(b: Buffer, sequence: u64, entry: Entry)
    requires sequence !in b.entries
    ensures multiset(Stored(b, sequence, entry).entries.Items) ==
        multiset(b.entries.Items) + multiset{(sequence, entry)}
  {
    var stored := Stored(b, sequence, entry);
    assert stored.entries - {sequence} == b.entries;
    TakeOut(stored.entries, sequence);
  }

  lemma PutBackHolds(m: Buffers, key: Key, b: Buffer)
    ensures Held(PutBack(m, key, b), key) == multiset(b.entries.Items)
    ensures forall k :: k != key ==> Held(PutBack(m, key, b), k) == Held(m, k)
  {
    if b.entries == map[] {
      assert b.entries.Items == {};
    }
  }

  /** One event: what it hands on and leaves held is what was held and what it took in. */
  lemma StepConserves(m: Buffers, e: Event)
    ensures var (m', ready) := Step(m, e);
      && multiset(ready) + Held(m', KeyOf(e)) ==
         Held(m, KeyOf(e)) + (if e.Arrived? && !Discards(m, e.arrival)
                              then multiset{(e.arrival.sequence, e.arrival.entry)} else multiset{})
      && forall k :: k != KeyOf(e) ==> Held(m', k) == Held(m, k)
  {
    hide Release, PutBack, Lowest;
    match e
    case Arrived(a) =>
      if Bypasses(m, a) {
        assert multiset([(a.sequence, a.entry)]) == multiset{(a.sequence, a.entry)};
      } else {
        var b0 := BufferFor(m, a);
        assert Held(m, a.key) == multiset(b0.entries.Items) by {
          if a.key !in m {
            assert b0.entries.Items == {};
          }
        }
        var b1 := Stored(b0, a.sequence, a.entry);
        if a.sequence !in b0.entries {
          StoredHolds(b0, a.sequence, a.entry);
        }
        ReleaseConserves(b1, a.entry.receivedAt, a.hold);
        PutBackHolds(m, a.key, Release(b1, a.entry.receivedAt, a.hold).0);
      }
    case Swept(key, now, holds) =>
      if key in m && m[key].entries != map[] {
        var low := m[key].entries[Lowest(m[key].entries)];
        var hold := if low.pathId in holds then holds[low.pathId] else 0;
        ReleaseConserves(m[key], now, hold);
        PutBackHolds(m, key, Release(m[key], now, hold).0);
      }
  }

  /** Over any run of arrivals and sweeps: every payload taken in for a key has been handed on exactly once
      or is still held, and nothing else was handed on. */
  lemma {:induction false} RunConserves(events: seq<Event>, key: Key)
    ensures multiset(Handed(events, key)) + Held(After(events), key) == multiset(Taken(events, key))
    decreases |events|
  {
    hide Step, Discards, Held, Handed, Taken;
    if events == [] {
      HoldsNothing(key);
    } else {
      var before, e := events[..|events| - 1], events[|events| - 1];
      assert events == before + [e];
      RunConserves(before, key);
      StepConserves(After(before), e);
      HandedNext(before, e, key);
      if KeyOf(e) == key {
        var (m', ready) := Step(After(before), e);
        Rebalance(multiset(Handed(before, key)), Held(After(before), key), multiset(ready), Held(m', key));
      }
    }
  }

  lemma Rebalance(handed: multiset<Item>, held: multiset<Item>, ready: multiset<Item>, held': multiset<Item>)
    ensures handed + ready + held' == handed + (ready + held')
    ensures forall taken: multiset<Item> :: handed + (held + taken) == handed + held + taken
  {
  }

  lemma HandedNext(before: seq<Event>, e: Event, key: Key)
    ensures multiset(Handed(before + [e], key)) ==
            multiset(Handed(before, key)) + if KeyOf(e) == key then multiset(Step(After(before), e).1) else multiset{}
    ensures multiset(Taken(before + [e], key)) ==
            multiset(Taken(before, key)) + if e.Arrived? && e.arrival.key == key && !Discards(After(before), e.arrival)
                                           then multiset{(e.arrival.sequence, e.arrival.entry)} else multiset{}
  {
    hide Step, Discards;
    assert (before + [e])[..|before|] == before;
  }

  lemma HoldsNothing(key: Key)
    ensures Held(map[], key) == multiset{} && Handed([], key) == [] && Taken([], key) == []
  {
  }

  /** What every buffer looks like between events. */
  ghost predicate BuffersOk(m: Buffers) {
    forall key :: key in m ==>
      m[key].entries != map[] && m[key].next !in m[key].entries && |m[key].entries| <= REMOTE_REORDER_BUFFER_LIMIT
  }

  lemma StepKeepsBuffersOk(m: Buffers, e: Event)
    requires BuffersOk(m)
    ensures BuffersOk(Step(m, e).0)
  {
    hide Release, Lowest;
    match e
    case Arrived(a) =>
      ReleaseSettles(Stored(BufferFor(m, a), a.sequence, a.entry), a.entry.receivedAt, a.hold);
    case Swept(key, now, holds) =>
      if key in m {
        var low := m[key].entries[Lowest(m[key].entries)];
        var hold := if low.pathId in holds then holds[low.pathId] else 0;
        ReleaseSettles(m[key], now, hold);
      }
  }

  /** After any run no buffer is empty, over the limit, or holding its own next sequence. */
  lemma {:induction false} RunKeepsBuffersOk(events: seq<Event>)
    ensures BuffersOk(After(events))
    decreases |events|
  {
    hide Step;
    if events == [] {
    } else {
      RunKeepsBuffersOk(events[..|events| - 1]);
      StepKeepsBuffersOk(After(events[..|events| - 1]), events[|events| - 1]);
    }
  }
}
