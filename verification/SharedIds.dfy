/** Fragments of two senders' datagrams at one receiver, whose reassembly buffers know the datagram id and nothing of
    the sender. */
module SharedIds {
  import opened Bytes
  import opened FrameCodec
  import opened Plans
  import opened Fragmentation
  import M = MixedCopies

  /** A fragment of the first sender's datagram, or of the second's. */
  datatype Part = Part(ofFirst: bool, index: nat)

  ghost predicate Cuttable(d: Planned) { d.path.Valid() && d.fragment.Some? && Fragmentable(d) }

  function Whose(a: Planned, b: Planned, p: Part): Planned { if p.ofFirst then a else b }

  ghost predicate PartOk(a: Planned, b: Planned, p: Part)
    requires Cuttable(a) && Cuttable(b)
  {
    p.index < Count(Whose(a, b, p))
  }

  ghost predicate PartsOk(a: Planned, b: Planned, parts: seq<Part>)
    requires Cuttable(a) && Cuttable(b)
  {
    forall p :: p in parts ==> PartOk(a, b, p)
  }

  function FrameFor(a: Planned, b: Planned, p: Part): Frame
    requires Cuttable(a) && Cuttable(b) && PartOk(a, b, p)
  {
    M.Piece(Whose(a, b, p), p.index)
  }

  ghost function After(a: Planned, b: Planned, m: Buffers, parts: seq<Part>): Buffers
    requires Cuttable(a) && Cuttable(b) && PartsOk(a, b, parts)
  {
    if parts == [] then m
    else Push(After(a, b, m, parts[..|parts| - 1]), FrameFor(a, b, parts[|parts| - 1])).0
  }

  /** What the receiver gets back when `p` arrives after `parts`. */
  ghost function Result(a: Planned, b: Planned, m: Buffers, parts: seq<Part>, p: Part)
    : Result<Option<bytes>, DataplaneError>
    requires Cuttable(a) && Cuttable(b) && PartsOk(a, b, parts) && PartOk(a, b, p)
  {
    Push(After(a, b, m, parts), FrameFor(a, b, p)).1
  }

  /** One sender's fragments among them. */
  function Own(parts: seq<Part>, ofFirst: bool): (own: seq<Part>)
    ensures forall p :: p in own ==> p in parts && p.ofFirst == ofFirst
  {
    if parts == [] then []
    else Own(parts[..|parts| - 1], ofFirst) + if parts[|parts| - 1].ofFirst == ofFirst then [parts[|parts| - 1]] else []
  }

  /** In any mixture, each sender's fragments fare as if the other had sent none. */
  ghost predicate Separate(a: Planned, b: Planned, m: Buffers)
    requires Cuttable(a) && Cuttable(b)
  {
    forall parts, p :: PartsOk(a, b, parts) && PartOk(a, b, p) ==>
      Result(a, b, m, parts, p) == Result(a, b, m, Own(parts, p.ofFirst), p)
  }

  lemma AfterNone(a: Planned, b: Planned, m: Buffers)
    requires Cuttable(a) && Cuttable(b)
    ensures PartsOk(a, b, []) && After(a, b, m, []) == m
  {
  }

  lemma AfterNext(a: Planned, b: Planned, m: Buffers, parts: seq<Part>, p: Part)
    requires Cuttable(a) && Cuttable(b) && PartsOk(a, b, parts) && PartOk(a, b, p)
    ensures PartsOk(a, b, parts + [p])
    ensures After(a, b, m, parts + [p]) == Push(After(a, b, m, parts), FrameFor(a, b, p)).0
  {
    hide Push, PartOk;
    assert (parts + [p])[..|parts|] == parts;
  }

  // ----- traces of a flight ---------------------------------------------------

  function ArrivalOf(a: Planned, b: Planned, p: Part): Arrival
    requires Whose(a, b, p).fragment.Some?
  {
    Arrival(Whose(a, b, p).fragment.value, p.index)
  }

  ghost function Trace(a: Planned, b: Planned, parts: seq<Part>): seq<Arrival>
    requires Cuttable(a) && Cuttable(b)
  {
    seq(|parts|, i requires 0 <= i < |parts| => ArrivalOf(a, b, parts[i]))
  }

  /** The flight knows the datagrams of these parts by their ids. */
  ghost predicate Knows(flight: Flight, a: Planned, b: Planned, parts: seq<Part>)
    requires Cuttable(a) && Cuttable(b)
  {
    forall p :: p in parts ==>
      Whose(a, b, p).fragment.value in flight && flight[Whose(a, b, p).fragment.value] == Whose(a, b, p)
  }

  lemma {:induction false} AfterIsTrace(flight: Flight, a: Planned, b: Planned, m: Buffers, parts: seq<Part>)
    requires Cuttable(a) && Cuttable(b) && PartsOk(a, b, parts) && FlightOk(flight) && Knows(flight, a, b, parts)
    ensures TraceOk(flight, Trace(a, b, parts))
    ensures After(a, b, m, parts) == BuffersAfter(flight, m, Trace(a, b, parts))
    decreases |parts|
  {
    hide Push, Count, Fragmentable, FragmentFrame;
    var trace := Trace(a, b, parts);
    forall x | x in trace ensures x.id in flight && x.index < Count(flight[x.id]) {
      var i :| 0 <= i < |trace| && trace[i] == x;
      assert parts[i] in parts && PartOk(a, b, parts[i]);
    }
    if parts == [] {
    } else {
      var init := parts[..|parts| - 1];
      assert parts[|parts| - 1] in parts;
      AfterIsTrace(flight, a, b, m, init);
      assert trace[..|trace| - 1] == Trace(a, b, init);
    }
  }

  /** The result in terms of what is outstanding for the fragment's own datagram. */
  lemma ResultInFlight(flight: Flight, a: Planned, b: Planned, m: Buffers, parts: seq<Part>, p: Part)
    requires Cuttable(a) && Cuttable(b) && PartsOk(a, b, parts) && PartOk(a, b, p)
    requires FlightOk(flight) && flight.Keys !! m.Keys && Knows(flight, a, b, parts + [p])
    ensures var d := Whose(a, b, p);
      Result(a, b, m, parts, p) ==
      PayloadIf(Complete(Outstanding(flight, Trace(a, b, parts), d.fragment.value) + {p.index}, Count(d)), d)
  {
    hide Push, Count, Complete, Outstanding, PayloadIf, FragmentFrame, SameOutside;
    var trace, x := Trace(a, b, parts), ArrivalOf(a, b, p);
    assert p in parts + [p];
    assert Knows(flight, a, b, parts) by {
      assert forall q :: q in parts ==> q in parts + [p];
    }
    AfterIsTrace(flight, a, b, m, parts);
    forall y | y in trace + [x] ensures y.id in flight && y.index < Count(flight[y.id]) {
      assert y in trace || y == x;
    }
    ReassemblyOfAnyArrivals(flight, m, trace, x);
  }

  // ----- different ids --------------------------------------------------------

  lemma {:induction false} OutstandingIsOwn(flight: Flight, a: Planned, b: Planned, parts: seq<Part>, ofFirst: bool)
    requires Cuttable(a) && Cuttable(b) && FlightOk(flight) && a.fragment != b.fragment
    requires (if ofFirst then a else b).fragment.value in flight
    ensures var id := (if ofFirst then a else b).fragment.value;
      Outstanding(flight, Trace(a, b, parts), id) == Outstanding(flight, Trace(a, b, Own(parts, ofFirst)), id)
    decreases |parts|
  {
    hide Count, Complete, Outstanding, Fragmentable;
    var id := (if ofFirst then a else b).fragment.value;
    if parts == [] {
      assert Own(parts, ofFirst) == parts;
    } else {
      var init, p := parts[..|parts| - 1], parts[|parts| - 1];
      OutstandingIsOwn(flight, a, b, init, ofFirst);
      assert Trace(a, b, parts) == Trace(a, b, init) + [ArrivalOf(a, b, p)];
      OutstandingAfter(flight, Trace(a, b, init), ArrivalOf(a, b, p), id);
      if p.ofFirst == ofFirst {
        assert Trace(a, b, Own(parts, ofFirst)) == Trace(a, b, Own(init, ofFirst)) + [ArrivalOf(a, b, p)];
        OutstandingAfter(flight, Trace(a, b, Own(init, ofFirst)), ArrivalOf(a, b, p), id);
      } else {
        assert Own(parts, ofFirst) == Own(init, ofFirst) + [];
        assert Own(init, ofFirst) + [] == Own(init, ofFirst);
      }
    }
  }

  lemma OwnIdsAreSeparate(a: Planned, b: Planned, m: Buffers)
    requires Cuttable(a) && Cuttable(b) && a.fragment.value !in m && b.fragment.value !in m && a.fragment != b.fragment
    ensures Separate(a, b, m)
  {
    hide Count, Complete, Outstanding, Fragmentable, Result, PayloadIf, Trace, Own;
    var flight := map[a.fragment.value := a, b.fragment.value := b];
    forall parts, p | PartsOk(a, b, parts) && PartOk(a, b, p)
      ensures Result(a, b, m, parts, p) == Result(a, b, m, Own(parts, p.ofFirst), p)
    {
      ResultInFlight(flight, a, b, m, parts, p);
      ResultInFlight(flight, a, b, m, Own(parts, p.ofFirst), p);
      OutstandingIsOwn(flight, a, b, parts, p.ofFirst);
    }
  }

  // ----- one id: harmless cases -----------------------------------------------

  lemma OwnSnoc(parts: seq<Part>, p: Part, ofFirst: bool)
    ensures Own(parts + [p], ofFirst) == if p.ofFirst == ofFirst then Own(parts, ofFirst) + [p] else Own(parts, ofFirst)
  {
    assert (parts + [p])[..|parts|] == parts;
  }

  lemma {:induction false} OwnIsAll(parts: seq<Part>, ofFirst: bool)
    requires forall p :: p in parts ==> p.ofFirst == ofFirst
    ensures Own(parts, ofFirst) == parts
    decreases |parts|
  {
    if parts == [] {
    } else {
      hide Own;
      var init, p := parts[..|parts| - 1], parts[|parts| - 1];
      assert p in parts && parts == init + [p];
      OwnIsAll(init, ofFirst);
      OwnSnoc(init, p, ofFirst);
    }
  }

  lemma SilentSenderIsSeparate(a: Planned, b: Planned, m: Buffers)
    requires Cuttable(a) && Cuttable(b) && (Count(a) == 0 || Count(b) == 0)
    ensures Separate(a, b, m)
  {
    hide Count, Fragmentable, Result, Own;
    forall parts, p | PartsOk(a, b, parts) && PartOk(a, b, p)
      ensures Result(a, b, m, parts, p) == Result(a, b, m, Own(parts, p.ofFirst), p)
    {
      OwnIsAll(parts, p.ofFirst);
    }
  }

  /** The only fragment of a datagram completes it at once and leaves the buffers as they were. */
  lemma PushOnly(m: Buffers, d: Planned)
    requires Cuttable(d) && Count(d) == 1 && d.fragment.value !in m
    ensures Push(m, M.Piece(d, 0)) == (m, Ok(Some(d.payload)))
  {
    hide Push, Chunks, FragmentFrame;
    var id := d.fragment.value;
    var none: set<nat> := {};
    ArrivalPush(map[id := d], m, none, Arrival(id, 0));
    assert Complete(none + {0}, 1);
    var m' := Push(m, M.Piece(d, 0)).0;
    assert id !in m' && m' == m;
  }

  lemma {:induction false} OnlyFragmentsLeaveNothing(a: Planned, b: Planned, m: Buffers, parts: seq<Part>)
    requires Cuttable(a) && Cuttable(b) && Count(a) == 1 && Count(b) == 1 && PartsOk(a, b, parts)
    requires a.fragment.value !in m && b.fragment.value !in m
    ensures After(a, b, m, parts) == m
    decreases |parts|
  {
    hide Push, Chunks, FragmentFrame;
    if parts == [] {
    } else {
      var p := parts[|parts| - 1];
      assert p in parts && PartOk(a, b, p);
      OnlyFragmentsLeaveNothing(a, b, m, parts[..|parts| - 1]);
      PushOnly(m, Whose(a, b, p));
    }
  }

  lemma OnlyFragmentsAreSeparate(a: Planned, b: Planned, m: Buffers)
    requires Cuttable(a) && Cuttable(b) && Count(a) == 1 && Count(b) == 1
    requires a.fragment.value !in m && b.fragment.value !in m
    ensures Separate(a, b, m)
  {
    hide Count, Fragmentable, Push, After, Own;
    forall parts, p | PartsOk(a, b, parts) && PartOk(a, b, p)
      ensures Result(a, b, m, parts, p) == Result(a, b, m, Own(parts, p.ofFirst), p)
    {
      OnlyFragmentsLeaveNothing(a, b, m, parts);
      OnlyFragmentsLeaveNothing(a, b, m, Own(parts, p.ofFirst));
    }
  }

  // ----- one id: the collision ------------------------------------------------

  /** The buffer was opened for `a`, and its first `k` slots are filled. */
  ghost predicate Filled(m: Buffers, a: Planned, k: nat)
    requires Cuttable(a)
  {
    var id := a.fragment.value;
    && id in m && m[id].originalLen == |a.payload| && |m[id].chunks| == Count(a)
    && forall i :: 0 <= i < Count(a) ==> (m[id].chunks[i].Some? <==> i < k)
  }

  lemma OpensBuffer(m: Buffers, a: Planned)
    requires Cuttable(a) && a.fragment.value !in m && Count(a) >= 2
    ensures Filled(Push(m, M.Piece(a, 0)).0, a, 1)
  {
    hide Push, Chunks, FragmentFrame;
    var id := a.fragment.value;
    ArrivalPush(map[id := a], m, {}, Arrival(id, 0));
    assert !Complete({} + {0}, Count(a)) by {
      assert 1 !in {} + {0};
    }
  }

  /** The other sender's first fragment meets it: refused if the lengths differ, else just stored. */
  lemma FirstMeetsBuffer(m: Buffers, a: Planned, b: Planned)
    requires Cuttable(a) && Cuttable(b) && a.fragment == b.fragment && Filled(m, a, 1) && Count(a) >= 2 && Count(b) >= 1
    ensures Push(m, M.Piece(b, 0)).1 == if |a.payload| == |b.payload| then Ok(None) else Err(InvalidFragmentPlan)
  {
    hide Chunks, CountSome, Joined, DivCeil;
    if |a.payload| == |b.payload| {
      var id, f := a.fragment.value, M.Piece(b, 0);
      var chunks := m[id].chunks[0 := Some(f.payload)];
      CountSomeUpdate(m[id].chunks, 0, f.payload);
      CountSomeFull(chunks);
      assert chunks[1] in chunks && chunks[1].None?;
    }
  }

  /** A fragment of `b` fills the next slot; if that is the last one, the buffer answers. */
  lemma NextSlot(m: Buffers, a: Planned, b: Planned, k: nat)
    requires Cuttable(a) && Cuttable(b) && a.fragment == b.fragment && |a.payload| == |b.payload|
    requires Filled(m, a, k) && k < Count(a) <= Count(b)
    ensures k < Count(a) - 1 ==> Filled(Push(m, M.Piece(b, k)).0, a, k + 1)
    ensures k == Count(a) - 1 ==> Push(m, M.Piece(b, k)).1 != Ok(None)
  {
    hide Chunks, CountSome, Joined, DivCeil;
    var id, f := a.fragment.value, M.Piece(b, k);
    var chunks := m[id].chunks[k := Some(f.payload)];
    CountSomeUpdate(m[id].chunks, k, f.payload);
    CountSomeFull(chunks);
    if k < Count(a) - 1 {
      assert chunks[k + 1] in chunks && chunks[k + 1].None?;
    }
  }

  /** The first fragment of the first sender, then the second sender's from its second on. */
  function Crossing(n: nat): (parts: seq<Part>)
    requires n >= 1
    ensures |parts| == n && forall p :: p in parts ==> if p.ofFirst then p.index == 0 else 1 <= p.index < n
  {
    if n == 1 then [Part(true, 0)] else Crossing(n - 1) + [Part(false, n - 1)]
  }

  lemma {:induction false} CrossingFills(a: Planned, b: Planned, m: Buffers, n: nat)
    requires Cuttable(a) && Cuttable(b) && a.fragment == b.fragment && |a.payload| == |b.payload|
    requires a.fragment.value !in m && 2 <= Count(a) <= Count(b) && 1 <= n < Count(a)
    ensures PartsOk(a, b, Crossing(n)) && Filled(After(a, b, m, Crossing(n)), a, n)
    decreases n
  {
    hide Push, Count, Fragmentable, FragmentFrame, Filled, After, PartsOk;
    if n == 1 {
      AfterNone(a, b, m);
      AfterNext(a, b, m, [], Part(true, 0));
      assert [] + [Part(true, 0)] == [Part(true, 0)];
      OpensBuffer(m, a);
    } else {
      CrossingFills(a, b, m, n - 1);
      AfterNext(a, b, m, Crossing(n - 1), Part(false, n - 1));
      NextSlot(After(a, b, m, Crossing(n - 1)), a, b, n - 1);
    }
  }

  /** Without its first fragment a datagram stays incomplete. */
  lemma IncompleteAlone(a: Planned, b: Planned, m: Buffers, parts: seq<Part>, p: Part)
    requires Cuttable(a) && Cuttable(b) && PartsOk(a, b, parts) && PartOk(a, b, p) && b.fragment.value !in m
    requires Count(b) >= 2 && (forall q :: q in parts + [p] ==> !q.ofFirst)
    requires (forall q :: q in parts + [p] ==> q.index >= 1) || parts == []
    ensures Result(a, b, m, parts, p) == Ok(None)
  {
    hide Count, Complete, Outstanding, Fragmentable, Result;
    var flight := map[b.fragment.value := b];
    assert p in parts + [p];
    ResultInFlight(flight, a, b, m, parts, p);
    var trace := Trace(a, b, parts);
    MissingOne(trace, b.fragment.value, p.index, Count(b));
    OutstandingIsSeen(flight, trace, b.fragment.value);
  }

  lemma MissingOne(trace: seq<Arrival>, id: u32, index: nat, count: nat)
    requires count >= 2 && ((index >= 1 && forall x :: x in trace ==> x.index >= 1) || trace == [])
    ensures !Complete(Seen(trace, id), count) && !Complete(Seen(trace, id) + {index}, count)
  {
    var missing := if index >= 1 then 0 else 1;
    assert missing !in Seen(trace, id) + {index};
  }

  lemma FirstCollides(a: Planned, b: Planned, m: Buffers)
    requires Cuttable(a) && Cuttable(b) && a.fragment == b.fragment && a.fragment.value !in m
    requires Count(a) >= 2 && Count(b) >= 1 && (Count(b) == 1 || |a.payload| != |b.payload|)
    ensures !Separate(a, b, m)
  {
    hide Count, Fragmentable, Push, FragmentFrame;
    var parts, p := [Part(true, 0)], Part(false, 0);
    AfterNext(a, b, m, [], Part(true, 0));
    assert [] + parts == parts;
    OpensBuffer(m, a);
    FirstMeetsBuffer(After(a, b, m, parts), a, b);
    assert Own(parts, false) == [];
    if Count(b) == 1 {
      PushOnly(m, b);
    } else {
      IncompleteAlone(a, b, m, [], p);
    }
    assert Result(a, b, m, parts, p) != Result(a, b, m, Own(parts, p.ofFirst), p);
  }

  lemma CrossingCollides(a: Planned, b: Planned, m: Buffers)
    requires Cuttable(a) && Cuttable(b) && a.fragment == b.fragment && a.fragment.value !in m
    requires |a.payload| == |b.payload| && 2 <= Count(a) <= Count(b)
    ensures !Separate(a, b, m)
  {
    hide Count, Fragmentable, Push, FragmentFrame, Own, Crossing;
    var n := Count(a) - 1;
    var parts, p := Crossing(n), Part(false, n);
    CrossingFills(a, b, m, n);
    NextSlot(After(a, b, m, parts), a, b, n);
    var own := Own(parts, false);
    forall q | q in own + [p] ensures !q.ofFirst && q.index >= 1 {
      assert q in own || q == p;
    }
    IncompleteAlone(a, b, m, own, p);
    assert Result(a, b, m, parts, p) != Result(a, b, m, Own(parts, p.ofFirst), p);
  }

  // ----- exactly when ---------------------------------------------------------

  function Flipped(parts: seq<Part>): (r: seq<Part>)
    ensures |r| == |parts|
  {
    if parts == [] then [] else Flipped(parts[..|parts| - 1]) + [Flip(parts[|parts| - 1])]
  }

  function Flip(p: Part): Part { p.(ofFirst := !p.ofFirst) }

  lemma {:induction false} FlippedAfter(a: Planned, b: Planned, m: Buffers, parts: seq<Part>)
    requires Cuttable(a) && Cuttable(b) && PartsOk(a, b, parts)
    ensures PartsOk(b, a, Flipped(parts)) && After(b, a, m, Flipped(parts)) == After(a, b, m, parts)
    decreases |parts|
  {
    hide Push, Count, Fragmentable;
    if parts == [] {
    } else {
      var init, p := parts[..|parts| - 1], parts[|parts| - 1];
      assert p in parts && PartOk(a, b, p) && PartOk(b, a, Flip(p));
      FlippedAfter(a, b, m, init);
      AfterNext(b, a, m, Flipped(init), Flip(p));
    }
  }

  lemma FlippedSnoc(parts: seq<Part>, p: Part)
    ensures Flipped(parts + [p]) == Flipped(parts) + [Flip(p)]
  {
    assert (parts + [p])[..|parts|] == parts;
  }

  lemma {:induction false} FlippedOwn(parts: seq<Part>, ofFirst: bool)
    ensures Own(Flipped(parts), !ofFirst) == Flipped(Own(parts, ofFirst))
    decreases |parts|
  {
    if parts == [] {
    } else {
      hide Own, Flipped;
      var init, p := parts[..|parts| - 1], parts[|parts| - 1];
      assert parts == init + [p];
      FlippedOwn(init, ofFirst);
      FlippedSnoc(init, p);
      OwnSnoc(init, p, ofFirst);
      OwnSnoc(Flipped(init), Flip(p), !ofFirst);
      FlippedSnoc(Own(init, ofFirst), p);
    }
  }

  lemma SeparateBothWays(a: Planned, b: Planned, m: Buffers)
    requires Cuttable(a) && Cuttable(b) && Separate(a, b, m)
    ensures Separate(b, a, m)
  {
    hide Push, Count, Fragmentable, After, Own, Flipped;
    forall parts, p | PartsOk(b, a, parts) && PartOk(b, a, p)
      ensures Result(b, a, m, parts, p) == Result(b, a, m, Own(parts, p.ofFirst), p)
    {
      FlippedAfter(b, a, m, parts);
      FlippedAfter(b, a, m, Own(parts, p.ofFirst));
      FlippedOwn(parts, p.ofFirst);
      assert PartOk(a, b, Flip(p));
      assert Result(a, b, m, Flipped(parts), Flip(p)) == Result(a, b, m, Own(Flipped(parts), Flip(p).ofFirst), Flip(p));
    }
  }

  /** Two senders' fragments do not disturb each other if and only if their datagrams have different ids, or neither
      takes more than one fragment, or one takes none. */
  lemma SeparateExactly(a: Planned, b: Planned, m: Buffers)
    requires Cuttable(a) && Cuttable(b) && a.fragment.value !in m && b.fragment.value !in m
    ensures Separate(a, b, m) <==>
            a.fragment != b.fragment || Count(a) == 0 || Count(b) == 0 || (Count(a) == 1 && Count(b) == 1)
  {
    hide Separate, Count, Fragmentable;
    if a.fragment != b.fragment {
      OwnIdsAreSeparate(a, b, m);
    } else if Count(a) == 0 || Count(b) == 0 {
      SilentSenderIsSeparate(a, b, m);
    } else if Count(a) == 1 && Count(b) == 1 {
      OnlyFragmentsAreSeparate(a, b, m);
    } else if Separate(a, b, m) {
      SeparateBothWays(a, b, m);
      OneIdCollides(a, b, m);
      OneIdCollides(b, a, m);
    }
  }

  lemma OneIdCollides(a: Planned, b: Planned, m: Buffers)
    requires Cuttable(a) && Cuttable(b) && a.fragment == b.fragment && a.fragment.value !in m
    requires Count(a) >= 1 && Count(b) >= 1
    ensures (Count(a) >= 2 && (Count(b) == 1 || |a.payload| != |b.payload|)) ==> !Separate(a, b, m)
    ensures (|a.payload| == |b.payload| && 2 <= Count(a) <= Count(b)) ==> !Separate(a, b, m)
  {
    hide Separate, Count, Fragmentable;
    if Count(a) >= 2 && (Count(b) == 1 || |a.payload| != |b.payload|) {
      FirstCollides(a, b, m);
    } else if |a.payload| == |b.payload| && 2 <= Count(a) <= Count(b) {
      CrossingCollides(a, b, m);
    }
  }

  /** What is fragmented for its own path takes two fragments or more, so then only the ids decide. */
  lemma OversizedNeedOwnIds(a: Planned, b: Planned, m: Buffers)
    requires Cuttable(a) && Cuttable(b) && a.fragment.value !in m && b.fragment.value !in m
    requires |a.payload| > a.path.MaxDataPayload() && |b.payload| > b.path.MaxDataPayload()
    ensures Separate(a, b, m) <==> a.fragment != b.fragment
  {
    hide Separate, Fragmentable;
    SeparateExactly(a, b, m);
    TwoOrMore(a);
    TwoOrMore(b);
  }

  lemma TwoOrMore(d: Planned)
    requires d.path.Valid() && |d.payload| > d.path.MaxDataPayload()
    ensures Count(d) >= 2
  {
    hide DivCeil;
    ChunksStep(d.payload, d.path.MaxFragmentPayload());
    M.FirstChunk(d.payload[d.path.MaxFragmentPayload()..], d.path.MaxFragmentPayload());
  }
}
