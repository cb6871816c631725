/** Copies of one datagram, fragmented for different paths under one datagram id, meeting in one reassembly buffer. */
module MixedCopies {
  import opened Bytes
  import opened FrameCodec
  import opened Plans
  import opened Fragmentation

  /** Two copies of one datagram, as fanout plans them: same payload, sequence and datagram id, own paths. */
  ghost predicate Copies(a: Planned, b: Planned) {
    && a.path.Valid() && b.path.Valid() && Fragmentable(a) && Fragmentable(b) && a.fragment == b.fragment
    && a.payload == b.payload && a.sequence == b.sequence && a.serviceId == b.serviceId
  }

  predicate SplitAlike(a: Planned, b: Planned)
    requires a.path.Valid() && b.path.Valid()
  {
    || a.path.MaxFragmentPayload() == b.path.MaxFragmentPayload()
    || (|a.payload| <= a.path.MaxFragmentPayload() && |a.payload| <= b.path.MaxFragmentPayload())
  }

  /** `f` is one of the fragments of `d`. */
  ghost predicate Of(d: Planned, f: Frame)
    requires d.path.Valid() && Fragmentable(d)
  {
    exists i :: 0 <= i < Count(d) && f == FragmentFrame(d, d.fragment.value, i)
  }

  ghost predicate AllOf(a: Planned, b: Planned, frames: seq<Frame>)
    requires Copies(a, b)
  {
    forall k :: 0 <= k < |frames| ==> Of(a, frames[k]) || Of(b, frames[k])
  }

  function PushAll(m: Buffers, frames: seq<Frame>): Buffers {
    if frames == [] then m else Push(PushAll(m, frames[..|frames| - 1]), frames[|frames| - 1]).0
  }

  predicate Sound(r: Result<Option<bytes>, DataplaneError>, payload: bytes) {
    r.Ok? && (r.value.Some? ==> r.value.value == payload)
  }

  /** However fragments of the two copies arrive, none is an error and only the payload itself comes out. */
  ghost predicate Faithful(a: Planned, b: Planned, m: Buffers)
    requires Copies(a, b)
  {
    forall frames, f :: AllOf(a, b, frames) && (Of(a, f) || Of(b, f)) ==>
      Sound(Push(PushAll(m, frames), f).1, a.payload)
  }

  // ----- split alike, the copies are one --------------------------------------

  lemma SameChunks(payload: bytes, s: nat, t: nat)
    requires s > 0 && t > 0 && (s == t || (|payload| <= s && |payload| <= t))
    ensures Chunks(payload, s) == Chunks(payload, t)
  {
  }

  lemma PushIgnoresPath(m: Buffers, f: Frame, g: Frame)
    requires g == f.(pathId := g.pathId)
    ensures Push(m, g).0 == Push(m, f).0
    ensures f.fragment.Some? ==> Push(m, g).1 == Push(m, f).1
  {
    hide BufferPush;
  }

  /** A fragment of either copy is, but for its path, a fragment of the first. */
  lemma FragmentOfFirst(a: Planned, b: Planned, f: Frame) returns (i: nat)
    requires Copies(a, b) && SplitAlike(a, b) && (Of(a, f) || Of(b, f))
    ensures i < Count(a) && f == FragmentFrame(a, a.fragment.value, i).(pathId := f.pathId)
  {
    hide Chunks, DivCeil;
    SameChunks(a.payload, a.path.MaxFragmentPayload(), b.path.MaxFragmentPayload());
    if Of(a, f) {
      i :| 0 <= i < Count(a) && f == FragmentFrame(a, a.fragment.value, i);
    } else {
      i :| 0 <= i < Count(b) && f == FragmentFrame(b, b.fragment.value, i);
    }
  }

  /** The arrivals of the first copy's fragments that have the same effect. */
  lemma {:induction false} AsArrivals(a: Planned, b: Planned, m: Buffers, frames: seq<Frame>)
    returns (trace: seq<Arrival>)
    requires Copies(a, b) && SplitAlike(a, b) && AllOf(a, b, frames)
    ensures var flight := map[a.fragment.value := a];
      FlightOk(flight) && TraceOk(flight, trace) && PushAll(m, frames) == BuffersAfter(flight, m, trace)
    decreases |frames|
  {
    hide Push, Of, Count, Chunks, FragmentFrame, SplitAlike;
    var flight := map[a.fragment.value := a];
    if frames == [] {
      trace := [];
    } else {
      var init, f := frames[..|frames| - 1], frames[|frames| - 1];
      assert Of(a, frames[|frames| - 1]) || Of(b, frames[|frames| - 1]);
      var before := AsArrivals(a, b, m, init);
      var i := FragmentOfFirst(a, b, f);
      var last := Arrival(a.fragment.value, i);
      trace := before + [last];
      assert trace[..|before|] == before;
      PushIgnoresPath(BuffersAfter(flight, m, before), FrameOf(flight, last), f);
    }
  }

  lemma AlikeIsFaithful(a: Planned, b: Planned, m: Buffers)
    requires Copies(a, b) && SplitAlike(a, b) && a.fragment.value !in m
    ensures Faithful(a, b, m)
  {
    hide Push, Of, Count, Chunks, SplitAlike, BuffersAfter, PushAll, Complete, Outstanding, SameOutside;
    var flight := map[a.fragment.value := a];
    forall frames, f | AllOf(a, b, frames) && (Of(a, f) || Of(b, f))
      ensures Sound(Push(PushAll(m, frames), f).1, a.payload)
    {
      var before := AsArrivals(a, b, m, frames);
      var i := FragmentOfFirst(a, b, f);
      var last := Arrival(a.fragment.value, i);
      assert TraceOk(flight, before + [last]);
      ReassemblyOfAnyArrivals(flight, m, before, last);
      PushIgnoresPath(PushAll(m, frames), FrameOf(flight, last), f);
    }
  }

  // ----- split differently, they spoil each other -----------------------------

  lemma FirstChunk(payload: bytes, size: nat)
    requires size > 0 && payload != []
    ensures var chunks := Chunks(payload, size);
      && chunks != [] && chunks[0] == (if |payload| <= size then payload else payload[..size])
      && |Concat(chunks[1..])| == |payload| - |chunks[0]|
  {
    hide DivCeil;
    ChunksStep(payload, size);
    ConcatOfChunks(payload, size);
  }

  /** The buffer of `b` holds its first `n` fragments, but for the first, which is that of `a`. */
  ghost predicate Spoiled(a: Planned, b: Planned, n: nat, m: Buffers)
    requires Copies(a, b)
  {
    var id, size, as', bs := a.fragment.value, b.path.MaxFragmentPayload(),
      Chunks(a.payload, a.path.MaxFragmentPayload()), Chunks(b.payload, b.path.MaxFragmentPayload());
    && id in m && m[id].originalLen == |b.payload| && |m[id].chunks| == |bs| && as' != []
    && (forall k :: 0 <= k < |bs| ==>
          m[id].chunks[k] == if k == 0 then Some(as'[0]) else if k < n then Some(bs[k]) else None)
  }

  function Piece(d: Planned, i: nat): Frame
    requires d.path.Valid() && Fragmentable(d) && i < Count(d)
  {
    FragmentFrame(d, d.fragment.value, i)
  }

  /** The first fragment of `b`, that of `a`, and the next ones of `b`. */
  function Spoilers(a: Planned, b: Planned, n: nat): (frames: seq<Frame>)
    requires a.path.Valid() && Fragmentable(a) && b.path.Valid() && Fragmentable(b) && 1 <= n <= Count(b)
    requires 0 < Count(a)
    ensures frames != []
  {
    if n == 1 then [Piece(b, 0), Piece(a, 0)] else Spoilers(a, b, n - 1) + [Piece(b, n - 1)]
  }

  /** Uneven: `a` is cut into larger pieces than `b`, and `b` into more than one. */
  ghost predicate Uneven(a: Planned, b: Planned)
    requires a.path.Valid() && b.path.Valid()
  {
    b.path.MaxFragmentPayload() < a.path.MaxFragmentPayload() && b.path.MaxFragmentPayload() < |b.payload|
  }

  lemma UnevenCounts(a: Planned, b: Planned)
    requires Copies(a, b) && Uneven(a, b)
    ensures 1 <= Count(a) && 2 <= Count(b)
  {
    FirstChunk(a.payload, a.path.MaxFragmentPayload());
  }

  lemma SpoilersAreOf(a: Planned, b: Planned, n: nat)
    requires Copies(a, b) && 1 <= n <= Count(b) && 0 < Count(a)
    ensures AllOf(a, b, Spoilers(a, b, n))
    decreases n
  {
    hide Count, FragmentFrame, Fragmentable;
    if n == 1 {
      assert Of(b, Piece(b, 0)) && Of(a, Piece(a, 0));
    } else {
      SpoilersAreOf(a, b, n - 1);
      assert Of(b, Piece(b, n - 1));
    }
  }

  lemma SpoilStart(a: Planned, b: Planned, m: Buffers)
    requires Copies(a, b) && Uneven(a, b) && a.fragment.value !in m && 1 <= Count(a) && 2 <= Count(b)
    ensures Spoiled(a, b, 1, Push(Push(m, Piece(b, 0)).0, Piece(a, 0)).0)
  {
    hide Chunks, DivCeil, CountSome, Joined;
    var id, n := a.fragment.value, Count(b);
    var f, g := Piece(b, 0), Piece(a, 0);
    CountSomeOfNone(n);
    var b1 := NewBuffer(f.fragment.value);
    CountSomeUpdate(b1.chunks, 0, f.payload);
    var (m1, r1) := Push(m, f);
    assert m1[id] == Buffer(|b.payload|, b1.chunks[0 := Some(f.payload)], 1);
    CountSomeUpdate(m1[id].chunks, 0, g.payload);
  }

  lemma SpoilStep(a: Planned, b: Planned, n: nat, m: Buffers)
    requires Copies(a, b) && 1 <= n < Count(b) - 1 && Spoiled(a, b, n, m)
    ensures Spoiled(a, b, n + 1, Push(m, Piece(b, n)).0)
  {
    hide Chunks, DivCeil, CountSome, Joined;
    var id, f := a.fragment.value, Piece(b, n);
    var chunks := m[id].chunks[n := Some(f.payload)];
    CountSomeUpdate(m[id].chunks, n, f.payload);
    CountSomeFull(chunks);
    assert chunks[n + 1] in chunks && chunks[n + 1].None?;
  }

  lemma {:induction false} SpoilersSpoil(a: Planned, b: Planned, m: Buffers, n: nat)
    requires Copies(a, b) && Uneven(a, b) && a.fragment.value !in m && 1 <= Count(a) && 1 <= n < Count(b)
    ensures Spoiled(a, b, n, PushAll(m, Spoilers(a, b, n)))
    decreases n
  {
    hide Push, Count, Spoiled, Piece, Fragmentable;
    if n == 1 {
      SpoilStart(a, b, m);
      var frames := Spoilers(a, b, 1);
      assert frames[..1] == [Piece(b, 0)] && PushAll(m, [Piece(b, 0)]) == Push(m, Piece(b, 0)).0;
    } else {
      SpoilersSpoil(a, b, m, n - 1);
      SpoilStep(a, b, n - 1, PushAll(m, Spoilers(a, b, n - 1)));
      var frames := Spoilers(a, b, n);
      assert frames[..|frames| - 1] == Spoilers(a, b, n - 1);
    }
  }

  lemma LengthOfSpoiled(chunks: seq<Option<bytes>>, first: bytes, bs: seq<bytes>)
    requires 0 < |bs| == |chunks| && chunks[0] == Some(first) && forall k :: 0 < k < |bs| ==> chunks[k] == Some(bs[k])
    ensures forall c :: c in chunks ==> c.Some?
    ensures |Joined(chunks)| == |first| + |Concat(bs[1..])|
  {
    JoinedIsConcat(chunks[1..], bs[1..]);
  }

  /** The last fragment of `b` then makes up a length that is not the payload's. */
  lemma SpoilEnds(a: Planned, b: Planned, m: Buffers)
    requires Copies(a, b) && Uneven(a, b) && 2 <= Count(b) && Spoiled(a, b, Count(b) - 1, m)
    ensures Push(m, Piece(b, Count(b) - 1)).1.Err?
  {
    hide Chunks, DivCeil, CountSome, Joined, Concat;
    var id, n := a.fragment.value, Count(b);
    var f, bs := Piece(b, n - 1), Chunks(b.payload, b.path.MaxFragmentPayload());
    var chunks := m[id].chunks[n - 1 := Some(f.payload)];
    CountSomeUpdate(m[id].chunks, n - 1, f.payload);
    CountSomeFull(chunks);
    FirstChunk(a.payload, a.path.MaxFragmentPayload());
    FirstChunk(b.payload, b.path.MaxFragmentPayload());
    LengthOfSpoiled(chunks, Chunks(a.payload, a.path.MaxFragmentPayload())[0], bs);
  }

  lemma UnevenIsNotFaithful(a: Planned, b: Planned, m: Buffers)
    requires Copies(a, b) && Uneven(a, b) && a.fragment.value !in m
    ensures !Faithful(a, b, m)
  {
    hide Push, Count, Spoiled, Piece, Fragmentable, Spoilers, PushAll, AllOf;
    UnevenCounts(a, b);
    var n := Count(b) - 1;
    SpoilersAreOf(a, b, n);
    SpoilersSpoil(a, b, m, n);
    SpoilEnds(a, b, PushAll(m, Spoilers(a, b, n)));
    LastIsOf(b, n);
  }

  lemma LastIsOf(d: Planned, i: nat)
    requires d.path.Valid() && Fragmentable(d) && i < Count(d)
    ensures Of(d, Piece(d, i))
  {
  }

  lemma FaithfulBothWays(a: Planned, b: Planned, m: Buffers)
    requires Copies(a, b) && Faithful(a, b, m)
    ensures Faithful(b, a, m)
  {
    hide Push, Of, PushAll;
    forall frames, f | AllOf(b, a, frames) && (Of(b, f) || Of(a, f))
      ensures Sound(Push(PushAll(m, frames), f).1, b.payload)
    {
      assert AllOf(a, b, frames);
    }
  }

  /** Copies that share a datagram id can be mixed at will if and only if they are cut at the same places. */
  lemma MixIsFaithfulExactly(a: Planned, b: Planned, m: Buffers)
    requires Copies(a, b) && a.fragment.value !in m
    ensures Faithful(a, b, m) <==> SplitAlike(a, b)
  {
    hide Faithful, Fragmentable;
    if SplitAlike(a, b) {
      AlikeIsFaithful(a, b, m);
    } else if Uneven(a, b) {
      UnevenIsNotFaithful(a, b, m);
    } else {
      UnevenIsNotFaithful(b, a, m);
      if Faithful(a, b, m) {
        FaithfulBothWays(a, b, m);
      }
    }
  }
}
