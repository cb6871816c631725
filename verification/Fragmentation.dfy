/** Splitting an oversized datagram, and the buffers that put it together again whatever order it arrives in. */
module Fragmentation {
  import opened Bytes
  import opened FrameCodec
  import opened Plans

  // ----- splitting ------------------------------------------------------------

  function Chunks(payload: bytes, size: nat): (chunks: seq<bytes>)
    requires size > 0
    ensures |chunks| == DivCeil(|payload|, size)
    ensures forall c :: c in chunks ==> 0 < |c| <= size
    decreases |payload|
  {
    if payload == [] then []
    else if |payload| <= size then [payload]
    else [payload[..size]] + Chunks(payload[size..], size)
  }

  function Concat(chunks: seq<bytes>): (s: bytes) {
    if chunks == [] then [] else chunks[0] + Concat(chunks[1..])
  }

  lemma ConcatCons(first: bytes, rest: seq<bytes>)
    ensures Concat([first] + rest) == first + Concat(rest)
  {
    assert ([first] + rest)[1..] == rest;
  }

  lemma ChunksStep(payload: bytes, size: nat)
    requires size > 0
    ensures Concat([]) == []
    ensures Chunks(payload, size) ==
            if payload == [] then [] else if |payload| <= size then [payload]
            else [payload[..size]] + Chunks(payload[size..], size)
  {
    hide DivCeil;
  }

  /** Nothing is lost or moved by splitting. */
  lemma {:induction false} ConcatOfChunks(payload: bytes, size: nat)
    requires size > 0
    ensures Concat(Chunks(payload, size)) == payload
    decreases |payload|
  {
    hide DivCeil, Chunks, Concat;
    ChunksStep(payload, size);
    if |payload| > size {
      ConcatOfChunks(payload[size..], size);
      ConcatCons(payload[..size], Chunks(payload[size..], size));
      assert payload == payload[..size] + payload[size..];
    } else if payload != [] {
      ConcatCons(payload, []);
      assert [payload] + [] == [payload];
    }
  }

  /** Fragment `index` of a payload split into `size`-byte chunks under datagram id `id`. */
  function FragmentFrame(d: Planned, id: u32, index: nat): (f: Frame)
    requires d.path.Valid() && |d.payload| <= U16_MAX
    requires var chunks := Chunks(d.payload, d.path.MaxFragmentPayload()); index < |chunks| <= U16_MAX
  {
    var chunks := Chunks(d.payload, d.path.MaxFragmentPayload());
    Frame(Data, d.serviceId, d.path.id, d.sequence, Some(FragmentInfo(id, index, |chunks|, |d.payload|)), chunks[index])
  }

  /** When the datagram can be split at all: it was given an id and its length and count fit their fields. */
  predicate Fragmentable(d: Planned)
    requires d.path.Valid()
  {
    && |Chunks(d.payload, d.path.MaxFragmentPayload())| <= U16_MAX
    && d.fragment.Some?
    && |d.payload| <= U16_MAX
  }

  method FragmentDatagram(d: Planned) returns (r: Result<seq<FramePlan>, DataplaneError>)
    requires d.path.Valid()
    ensures r.Ok? <==> Fragmentable(d)
    ensures r.Ok? ==>
      && |r.value| == |Chunks(d.payload, d.path.MaxFragmentPayload())|
      && forall i :: 0 <= i < |r.value| ==>
           r.value[i] == FramePlan(FragmentFrame(d, d.fragment.value, i), d.path, [d.ToMeta()], |r.value|)
  {
    hide DivCeil;
    var size := d.path.MaxFragmentPayload();
    var chunks := Chunks(d.payload, size);
    var count := DivCeil(|d.payload|, size);
    if count > U16_MAX {
      return Err(TooManyFragments(count));
    }
    if d.fragment.None? {
      return Err(InvalidFragmentPlan);
    }
    var id := d.fragment.value;
    var frames := [];
    for index := 0 to |chunks|
      invariant index > 0 ==> |d.payload| <= U16_MAX
      invariant |frames| == index
      invariant forall i :: 0 <= i < index ==>
                  frames[i] == FramePlan(FragmentFrame(d, id, i), d.path, [d.ToMeta()], |chunks|)
    {
      var info := NewFragmentInfo(id, index, count, |d.payload|);
      if info.Err? {
        return Err(Protocol(info.error));
      }
      assert chunks[index] in chunks;
      ChunkWithinPayload(d.payload, size, index);
      var frame := NewFrame(Data, d.serviceId, d.path.id, d.sequence, Some(info.value), chunks[index]);
      assert frame.Ok?;
      frames := frames + [FramePlan(frame.value, d.path, [d.ToMeta()], count)];
    }
    if d.payload == [] {
      assert chunks == [];
    }
    r := Ok(frames);
  }

  lemma {:induction false} ChunkWithinPayload(payload: bytes, size: nat, index: nat)
    requires size > 0 && index < |Chunks(payload, size)|
    ensures |Chunks(payload, size)[index]| <= |payload|
    decreases |payload|
  {
    hide DivCeil;
    if |payload| > size && index > 0 {
      ChunkWithinPayload(payload[size..], size, index - 1);
    }
  }

  // ----- reassembly -----------------------------------------------------------

  datatype Buffer = Buffer(originalLen: nat, chunks: seq<Option<bytes>>, received: nat)

  function NewBuffer(info: FragmentInfo): Buffer {
    Buffer(info.originalLen, seq(info.count, _ => None), 0)
  }

  function Joined(chunks: seq<Option<bytes>>): (s: bytes)
    requires forall c :: c in chunks ==> c.Some?
  {
    if chunks == [] then [] else chunks[0].value + Joined(chunks[1..])
  }

  function CountSome(chunks: seq<Option<bytes>>): (n: nat)
    ensures n <= |chunks|
  {
    if chunks == [] then 0 else (if chunks[0].Some? then 1 else 0) + CountSome(chunks[1..])
  }

  lemma {:induction false} CountSomeUpdate(chunks: seq<Option<bytes>>, k: nat, c: bytes)
    requires k < |chunks|
    ensures CountSome(chunks[k := Some(c)]) == CountSome(chunks) + (if chunks[k].Some? then 0 else 1)
  {
    var after := chunks[k := Some(c)];
    if k == 0 {
      assert after[1..] == chunks[1..];
    } else {
      assert after[1..] == chunks[1..][k - 1 := Some(c)];
      CountSomeUpdate(chunks[1..], k - 1, c);
    }
  }

  lemma {:induction false} CountSomeFull(chunks: seq<Option<bytes>>)
    ensures CountSome(chunks) == |chunks| <==> forall c :: c in chunks ==> c.Some?
  {
    if chunks == [] {
    } else {
      CountSomeFull(chunks[1..]);
      assert forall c :: c in chunks <==> c == chunks[0] || c in chunks[1..];
    }
  }

  lemma {:induction false} CountSomeOfNone(n: nat)
    ensures CountSome(seq(n, _ => None)) == 0
  {
    if n == 0 {
    } else {
      assert seq<Option<bytes>>(n, _ => None)[1..] == seq<Option<bytes>>(n - 1, _ => None);
      CountSomeOfNone(n - 1);
    }
  }

  /** The running count is always the number of slots filled. */
  predicate BufferOk(b: Buffer) { b.received == CountSome(b.chunks) }

  /** Storing one fragment: the buffer afterwards, and a payload once every slot is filled. */
  function BufferPush(b: Buffer, info: FragmentInfo, payload: bytes)
    : (r: (Buffer, Result<Option<bytes>, DataplaneError>))
    requires BufferOk(b)
    ensures BufferOk(r.0)
  {
    if info.originalLen != b.originalLen || info.index >= |b.chunks| then (b, Err(InvalidFragmentPlan))
    else
      CountSomeUpdate(b.chunks, info.index, payload);
      var chunks := b.chunks[info.index := Some(payload)];
      var b' := Buffer(b.originalLen, chunks, if b.chunks[info.index].None? then b.received + 1 else b.received);
      if b'.received != |chunks| then (b', Ok(None))
      else
        CountSomeFull(chunks);
        if |Joined(chunks)| != b.originalLen then (b', Err(InvalidFragmentPlan))
        else (b', Ok(Some(Joined(chunks))))
  }

  type Buffers = m: map<u32, Buffer> | forall id :: id in m ==> BufferOk(m[id])

  /** The buffer a fragment goes to: its datagram's, or a new empty one. */
  function BufferFor(m: Buffers, info: FragmentInfo): (b: Buffer)
    ensures BufferOk(b)
  {
    CountSomeOfNone(info.count);
    if info.datagramId in m then m[info.datagramId] else NewBuffer(info)
  }

  /** One arriving frame: whole frames pass straight through, a completed buffer is removed. */
  function Push(m: Buffers, frame: Frame): (r: (Buffers, Result<Option<bytes>, DataplaneError>)) {
    match frame.fragment
    case None => (m, Ok(Some(frame.payload)))
    case Some(info) =>
      var (b', result) := BufferPush(BufferFor(m, info), info, frame.payload);
      if result.Ok? && result.value.Some? then (m - {info.datagramId}, result)
      else (m[info.datagramId := b'], result)
  }

  method PushFragment(b: Buffer, info: FragmentInfo, payload: bytes)
    returns (b': Buffer, r: Result<Option<bytes>, DataplaneError>)
    requires BufferOk(b)
    ensures (b', r) == BufferPush(b, info, payload)
  {
    hide CountSome, Joined;
    if info.originalLen != b.originalLen || info.index >= |b.chunks| {
      return b, Err(InvalidFragmentPlan);
    }
    b' := b;
    if b'.chunks[info.index].None? {
      b' := b'.(received := b'.received + 1);
    }
    b' := b'.(chunks := b'.chunks[info.index := Some(payload)]);
    CountSomeUpdate(b.chunks, info.index, payload);
    if b'.received != |b'.chunks| {
      return b', Ok(None);
    }
    CountSomeFull(b'.chunks);
    var output := JoinChunks(b'.chunks);
    r := if |output| != b'.originalLen then Err(InvalidFragmentPlan) else Ok(Some(output));
  }

  class FragmentReassembly {
    var datagrams: Buffers

    constructor ()
      ensures datagrams == map[]
    {
      datagrams := map[];
    }

    method PushFrameOrPayload(frame: Frame) returns (r: Result<Option<bytes>, DataplaneError>)
      modifies this
      ensures (datagrams, r) == Push(old(datagrams), frame)
    {
      hide BufferPush, BufferOk;
      if frame.fragment.None? {
        return Ok(Some(frame.payload));
      }
      var info := frame.fragment.value;
      var buffer := BufferFor(datagrams, info);
      buffer, r := PushFragment(buffer, info, frame.payload);
      datagrams := datagrams[info.datagramId := buffer];
      if r.Ok? && r.value.Some? {
        datagrams := datagrams - {info.datagramId};
        assert datagrams == old(datagrams) - {info.datagramId};
      }
    }
  }

  lemma {:induction false} JoinedAppend(chunks: seq<Option<bytes>>, c: bytes)
    requires forall x :: x in chunks ==> x.Some?
    ensures Joined(chunks + [Some(c)]) == Joined(chunks) + c
  {
    if chunks == [] {
      assert chunks + [Some(c)] == [Some(c)];
      assert [Some(c)][1..] == [];
    } else {
      assert (chunks + [Some(c)])[1..] == chunks[1..] + [Some(c)];
      JoinedAppend(chunks[1..], c);
    }
  }

  method JoinChunks(chunks: seq<Option<bytes>>) returns (output: bytes)
    requires forall c :: c in chunks ==> c.Some?
    ensures output == Joined(chunks)
  {
    output := [];
    for i := 0 to |chunks|
      invariant output == Joined(chunks[..i])
    {
      assert chunks[..i + 1] == chunks[..i] + [Some(chunks[i].value)];
      JoinedAppend(chunks[..i], chunks[i].value);
      output := output + chunks[i].value;
    }
    assert chunks[..|chunks|] == chunks;
  }

  // ----- any arrival order ----------------------------------------------------

  /** The datagrams in flight, by id, and one arrival: fragment `index` of datagram `id`. */
  type Flight = map<u32, Planned>

  datatype Arrival = Arrival(id: u32, index: nat)

  function Count(d: Planned): (n: nat)
    requires d.path.Valid()
  {
    |Chunks(d.payload, d.path.MaxFragmentPayload())|
  }

  ghost predicate FlightOk(flight: Flight) {
    forall id :: id in flight ==> flight[id].path.Valid() && flight[id].fragment == Some(id) && Fragmentable(flight[id])
  }

  ghost predicate TraceOk(flight: Flight, trace: seq<Arrival>)
    requires FlightOk(flight)
  {
    forall a :: a in trace ==> a.id in flight && a.index < Count(flight[a.id])
  }

  ghost predicate Complete(indexes: set<nat>, count: nat) {
    forall k :: 0 <= k < count ==> k in indexes
  }

  /** The fragments of `id` that arrived since its last completed set. */
  ghost function Outstanding(flight: Flight, trace: seq<Arrival>, id: u32): set<nat>
    requires FlightOk(flight) && id in flight
  {
    if trace == [] then {}
    else
      var before, last := Outstanding(flight, trace[..|trace| - 1], id), trace[|trace| - 1];
      if last.id != id then before
      else if Complete(before + {last.index}, Count(flight[id])) then {}
      else before + {last.index}
  }

  function FrameOf(flight: Flight, a: Arrival): Frame
    requires FlightOk(flight) && a.id in flight && a.index < Count(flight[a.id])
  {
    FragmentFrame(flight[a.id], a.id, a.index)
  }

  ghost function BuffersAfter(flight: Flight, start: Buffers, trace: seq<Arrival>): Buffers
    requires FlightOk(flight) && TraceOk(flight, trace)
  {
    if trace == [] then start
    else Push(BuffersAfter(flight, start, trace[..|trace| - 1]), FrameOf(flight, trace[|trace| - 1])).0
  }

  /** What the receiver gets back when `a` arrives after `before`. */
  ghost function ResultOf(flight: Flight, start: Buffers, before: seq<Arrival>, a: Arrival)
    : Result<Option<bytes>, DataplaneError>
    requires FlightOk(flight) && TraceOk(flight, before + [a])
  {
    assert a in before + [a];
    Push(BuffersAfter(flight, start, before), FrameOf(flight, a)).1
  }

  function PayloadIf(complete: bool, d: Planned): Result<Option<bytes>, DataplaneError> {
    if complete then Ok(Some(d.payload)) else Ok(None)
  }

  /** The buffer that stands for a set of outstanding fragments. */
  ghost predicate Represents(b: Buffer, d: Planned, indexes: set<nat>)
    requires d.path.Valid()
  {
    && b.originalLen == |d.payload|
    && |b.chunks| == Count(d)
    && (forall k :: 0 <= k < |b.chunks| ==>
          b.chunks[k] == if k in indexes then Some(Chunks(d.payload, d.path.MaxFragmentPayload())[k]) else None)
  }

  /** A datagram has a buffer exactly while some of its fragments are outstanding. */
  ghost predicate Holds(m: Buffers, id: u32, d: Planned, indexes: set<nat>)
    requires d.path.Valid()
  {
    if indexes == {} then id !in m else id in m && Represents(m[id], d, indexes)
  }

  ghost predicate Tracks(flight: Flight, m: Buffers, trace: seq<Arrival>)
    requires FlightOk(flight)
  {
    forall id :: id in flight ==> Holds(m, id, flight[id], Outstanding(flight, trace, id))
  }

  lemma {:induction false} JoinedIsConcat(chunks: seq<Option<bytes>>, pieces: seq<bytes>)
    requires |chunks| == |pieces| && forall k :: 0 <= k < |chunks| ==> chunks[k] == Some(pieces[k])
    ensures forall c :: c in chunks ==> c.Some?
    ensures Joined(chunks) == Concat(pieces)
  {
    if chunks == [] {
    } else {
      JoinedIsConcat(chunks[1..], pieces[1..]);
    }
  }

  /** One push into a buffer that stands for `before`: complete sets give the payload, others are recorded. */
  lemma PushRepresented(b: Buffer, d: Planned, before: set<nat>, id: u32, index: nat)
    requires d.path.Valid() && d.fragment == Some(id) && Fragmentable(d) && index < Count(d)
    requires BufferOk(b) && Represents(b, d, before) && forall k :: k in before ==> k < Count(d)
    ensures var f := FragmentFrame(d, id, index);
      var (b', r) := BufferPush(b, f.fragment.value, f.payload);
      && Represents(b', d, before + {index})
      && r == PayloadIf(Complete(before + {index}, Count(d)), d)
  {
    hide DivCeil, Chunks, CountSome, Concat;
    var size := d.path.MaxFragmentPayload();
    var f := FragmentFrame(d, id, index);
    var chunks := b.chunks[index := Some(f.payload)];
    CountSomeUpdate(b.chunks, index, f.payload);
    CountSomeFull(chunks);
    if Complete(before + {index}, Count(d)) {
      forall k | 0 <= k < |chunks| ensures chunks[k] == Some(Chunks(d.payload, size)[k]) {
        assert k in before + {index};
      }
      JoinedIsConcat(chunks, Chunks(d.payload, size));
      ConcatOfChunks(d.payload, size);
    } else {
      var k :| 0 <= k < Count(d) && k !in before + {index};
      assert chunks[k] in chunks && chunks[k].None?;
    }
  }

  lemma {:induction false} OutstandingInRange(flight: Flight, trace: seq<Arrival>, id: u32)
    requires FlightOk(flight) && TraceOk(flight, trace) && id in flight
    ensures forall k :: k in Outstanding(flight, trace, id) ==> k < Count(flight[id])
  {
    if trace == [] {
    } else {
      assert trace[|trace| - 1] in trace;
      OutstandingInRange(flight, trace[..|trace| - 1], id);
    }
  }

  /** Both maps hold the same buffers for every id outside `ids`. */
  ghost predicate SameOutside(ids: set<u32>, m: Buffers, m': Buffers) {
    forall id :: id !in ids ==> (id in m <==> id in m') && (id in m ==> m[id] == m'[id])
  }

  /** One arrival seen from its own datagram: the buffer now stands for one more fragment, or is gone. */
  lemma ArrivalPush(flight: Flight, m: Buffers, set0: set<nat>, a: Arrival)
    requires FlightOk(flight) && a.id in flight && a.index < Count(flight[a.id])
    requires forall k :: k in set0 ==> k < Count(flight[a.id])
    requires Holds(m, a.id, flight[a.id], set0)
    ensures var (m', r) := Push(m, FrameOf(flight, a));
      && r == PayloadIf(Complete(set0 + {a.index}, Count(flight[a.id])), flight[a.id])
      && SameOutside({a.id}, m, m')
      && Holds(m', a.id, flight[a.id], if Complete(set0 + {a.index}, Count(flight[a.id])) then {} else set0 + {a.index})
  {
    hide DivCeil, Chunks, BufferPush, CountSome, Complete, Fragmentable, BufferOk;
    var f := FrameOf(flight, a);
    var b := BufferFor(m, f.fragment.value);
    assert Represents(b, flight[a.id], set0);
    PushRepresented(b, flight[a.id], set0, a.id, a.index);
    assert a.index in set0 + {a.index};
  }

  lemma OutstandingAfter(flight: Flight, before: seq<Arrival>, a: Arrival, id: u32)
    requires FlightOk(flight) && id in flight
    ensures Outstanding(flight, before + [a], id) ==
            var set0 := Outstanding(flight, before, id);
            if a.id != id then set0
            else if Complete(set0 + {a.index}, Count(flight[id])) then {} else set0 + {a.index}
  {
    assert (before + [a])[..|before|] == before;
  }

  lemma ArrivalStep(flight: Flight, m: Buffers, before: seq<Arrival>, a: Arrival)
    requires FlightOk(flight) && TraceOk(flight, before + [a]) && Tracks(flight, m, before)
    ensures Tracks(flight, Push(m, FrameOf(flight, a)).0, before + [a])
    ensures Push(m, FrameOf(flight, a)).1 ==
            PayloadIf(Complete(Outstanding(flight, before, a.id) + {a.index}, Count(flight[a.id])), flight[a.id])
    ensures SameOutside({a.id}, m, Push(m, FrameOf(flight, a)).0)
  {
    hide Chunks, Push, Complete, Fragmentable, Outstanding, Represents, FrameOf, Count, PayloadIf;
    assert a in before + [a];
    assert TraceOk(flight, before);
    OutstandingInRange(flight, before, a.id);
    var set0 := Outstanding(flight, before, a.id);
    ArrivalPush(flight, m, set0, a);
    forall id | id in flight
      ensures Holds(Push(m, FrameOf(flight, a)).0, id, flight[id], Outstanding(flight, before + [a], id))
    {
      OutstandingAfter(flight, before, a, id);
    }
  }

  lemma {:induction false} BuffersTrackOutstanding(flight: Flight, start: Buffers, trace: seq<Arrival>)
    requires FlightOk(flight) && TraceOk(flight, trace) && flight.Keys !! start.Keys
    ensures Tracks(flight, BuffersAfter(flight, start, trace), trace)
    ensures SameOutside(flight.Keys, start, BuffersAfter(flight, start, trace))
    decreases |trace|
  {
    hide DivCeil, Chunks, Push, Complete, Represents, Fragmentable, Count, FrameOf;
    if trace == [] {
    } else {
      var before, last := trace[..|trace| - 1], trace[|trace| - 1];
      assert trace == before + [last];
      BuffersTrackOutstanding(flight, start, before);
      ArrivalStep(flight, BuffersAfter(flight, start, before), before, last);
    }
  }

  /** However fragments of any number of datagrams arrive (in any order, repeated, interleaved), every
      arrival reports no error, yields the original payload exactly when it completes the set outstanding
      for its id, and touches no other buffer. */
  lemma ReassemblyOfAnyArrivals(flight: Flight, start: Buffers, before: seq<Arrival>, a: Arrival)
    requires FlightOk(flight) && TraceOk(flight, before + [a]) && a.id in flight && flight.Keys !! start.Keys
    ensures ResultOf(flight, start, before, a) ==
            PayloadIf(Complete(Outstanding(flight, before, a.id) + {a.index}, Count(flight[a.id])), flight[a.id])
    ensures SameOutside({a.id}, BuffersAfter(flight, start, before), BuffersAfter(flight, start, before + [a]))
  {
    hide Chunks, Push, Complete, Tracks, Fragmentable, Count, Outstanding, PayloadIf, SameOutside;
    assert a in before + [a];
    assert TraceOk(flight, before);
    BuffersTrackOutstanding(flight, start, before);
    ArrivalStep(flight, BuffersAfter(flight, start, before), before, a);
    assert (before + [a])[..|before|] == before;
  }

  ghost function Seen(trace: seq<Arrival>, id: u32): set<nat> {
    set a | a in trace && a.id == id :: a.index
  }

  /** Until the first full set, what is outstanding is simply everything seen. */
  lemma {:induction false} OutstandingIsSeen(flight: Flight, trace: seq<Arrival>, id: u32)
    requires FlightOk(flight) && id in flight && !Complete(Seen(trace, id), Count(flight[id]))
    ensures Outstanding(flight, trace, id) == Seen(trace, id)
    decreases |trace|
  {
    hide Chunks, DivCeil;
    if trace == [] {
    } else {
      var before, last := trace[..|trace| - 1], trace[|trace| - 1];
      assert trace == before + [last];
      assert Seen(trace, id) == if last.id == id then Seen(before, id) + {last.index} else Seen(before, id);
      assert Seen(before, id) <= Seen(trace, id);
      OutstandingIsSeen(flight, before, id);
    }
  }

  lemma SeenAppend(trace: seq<Arrival>, a: Arrival)
    ensures Seen(trace + [a], a.id) == Seen(trace, a.id) + {a.index}
  {
    assert a in trace + [a];
  }

  /** The payload comes out exactly at the first arrival after which every fragment has been seen. */
  lemma PayloadAtFirstFullSet(flight: Flight, start: Buffers, before: seq<Arrival>, a: Arrival)
    requires FlightOk(flight) && TraceOk(flight, before + [a]) && a.id in flight && flight.Keys !! start.Keys
    requires !Complete(Seen(before, a.id), Count(flight[a.id]))
    ensures ResultOf(flight, start, before, a) ==
            PayloadIf(Complete(Seen(before + [a], a.id), Count(flight[a.id])), flight[a.id])
  {
    hide Complete, Outstanding, ResultOf, PayloadIf, SameOutside, Fragmentable, Count, Seen;
    ReassemblyOfAnyArrivals(flight, start, before, a);
    OutstandingIsSeen(flight, before, a.id);
    SeenAppend(before, a);
  }
}
