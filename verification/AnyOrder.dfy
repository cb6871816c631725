/** Frames that arrive in any order, repeated or not at all: exactly the payloads that can be read from what arrived
    are emitted, each once. */
module AnyOrder {
  import opened Bytes
  import opened FrameCodec
  import opened Plans
  import opened Receive
  import opened EndToEnd
  import F = Fragmentation
  import L = Delivery
  import D = Dedupe

  /** What a frame brings: whole payloads, or one fragment of a datagram in flight. */
  datatype Cargo = Whole(items: seq<L.Item>) | Piece(id: u32, index: nat)

  /** A receiver at its start, the payloads on their way by sequence, and the fragmented ones by datagram id. */
  datatype Setting = Setting(cfg: Config, start: Run, serviceId: u16, scope: Option<u32>, book: map<u64, bytes>,
                             flight: F.Flight)

  ghost predicate InBook(x: Setting, i: L.Item) {
    i.serviceId == x.serviceId && i.sequence in x.book && i.payload == x.book[i.sequence]
  }

  /** The service is served, nothing on its way has been seen, the window has room for all of it, and no datagram id in
      flight is already being reassembled. */
  ghost predicate SettingOk(x: Setting) {
    && Serves(x.cfg, x.serviceId) && !IsReserved(x.serviceId) && x.start.error.None?
    && x.cfg.capacity > 0 && |x.book| <= x.cfg.capacity && |x.start.core.window| <= x.cfg.capacity
    && (forall q :: q in x.book ==> KeyOf(x, q) !in x.start.core.window)
    && F.FlightOk(x.flight) && x.flight.Keys !! x.start.core.fragments.Keys
    && (forall id :: id in x.flight ==> InBook(x, L.ItemOf(x.flight[id])))
  }

  function KeyOf(x: Setting, q: u64): D.Key { D.Key(x.serviceId, x.scope, q) }

  ghost predicate CargoOk(x: Setting, c: Cargo) {
    match c
    case Whole(items) => forall k :: 0 <= k < |items| ==> InBook(x, items[k])
    case Piece(id, index) => id in x.flight && x.flight[id].path.Valid() && index < F.Count(x.flight[id])
  }

  ghost predicate AllCargoOk(x: Setting, cargo: seq<Cargo>) {
    forall k :: 0 <= k < |cargo| ==> CargoOk(x, cargo[k])
  }

  /** `f` is a frame that brings `c`, by whichever path. */
  ghost predicate Bears(x: Setting, f: Frame, c: Cargo)
    requires F.FlightOk(x.flight) && CargoOk(x, c)
  {
    && UserFrame(f) && f.serviceId == x.serviceId
    && match c
       case Whole(items) => f.fragment.None? && L.DeliverFrame(map[], f) == L.Done(map[], items)
       case Piece(id, index) => f == F.FrameOf(x.flight, F.Arrival(id, index)).(pathId := f.pathId)
  }

  // ----- what can be read from what arrived -----------------------------------

  /** The fragments among the cargo, in order. */
  function Pieces(cargo: seq<Cargo>): seq<F.Arrival> {
    if cargo == [] then []
    else
      var c := cargo[|cargo| - 1];
      Pieces(cargo[..|cargo| - 1]) + if c.Piece? then [F.Arrival(c.id, c.index)] else []
  }

  ghost predicate Lists(items: seq<L.Item>, q: u64) { exists k :: 0 <= k < |items| && items[k].sequence == q }

  ghost predicate ReadWhole(cargo: seq<Cargo>, q: u64) {
    exists k :: 0 <= k < |cargo| && cargo[k].Whole? && Lists(cargo[k].items, q)
  }

  ghost predicate ReadId(x: Setting, cargo: seq<Cargo>, q: u64, id: u32)
    requires F.FlightOk(x.flight)
  {
    id in x.flight && x.flight[id].sequence == q && F.Complete(F.Seen(Pieces(cargo), id), F.Count(x.flight[id]))
  }

  /** Sequence `q` arrived: whole in some frame, or in all its fragments. */
  ghost predicate Readable(x: Setting, cargo: seq<Cargo>, q: u64)
    requires F.FlightOk(x.flight)
  {
    ReadWhole(cargo, q) || exists id :: ReadId(x, cargo, q, id)
  }

  lemma PiecesSnoc(cargo: seq<Cargo>, c: Cargo)
    ensures Pieces(cargo + [c]) == Pieces(cargo) + if c.Piece? then [F.Arrival(c.id, c.index)] else []
  {
    assert (cargo + [c])[..|cargo|] == cargo;
  }

  lemma ReadWholeSnoc(cargo: seq<Cargo>, c: Cargo, q: u64)
    ensures ReadWhole(cargo + [c], q) <==> ReadWhole(cargo, q) || (c.Whole? && Lists(c.items, q))
  {
    hide Lists;
    var all := cargo + [c];
    if ReadWhole(cargo, q) {
      var k :| 0 <= k < |cargo| && cargo[k].Whole? && Lists(cargo[k].items, q);
      assert all[k] == cargo[k];
    }
    if c.Whole? && Lists(c.items, q) {
      assert all[|cargo|] == c;
    }
  }

  lemma SeenElsewhere(trace: seq<F.Arrival>, a: F.Arrival, id: u32)
    ensures F.Seen(trace + [a], id) == if a.id == id then F.Seen(trace, id) + {a.index} else F.Seen(trace, id)
  {
    assert a in trace + [a];
  }

  /** One more frame with whole payloads makes exactly those readable. */
  lemma ReadableAfterWhole(x: Setting, cargo: seq<Cargo>, items: seq<L.Item>, q: u64)
    requires F.FlightOk(x.flight)
    ensures Readable(x, cargo + [Whole(items)], q) <==> Readable(x, cargo, q) || Lists(items, q)
  {
    hide Lists, ReadWhole, F.Complete, F.Count;
    var c := Whole(items);
    PiecesSnoc(cargo, c);
    assert Pieces(cargo) + [] == Pieces(cargo);
    ReadWholeSnoc(cargo, c, q);
    assert forall id :: ReadId(x, cargo + [c], q, id) <==> ReadId(x, cargo, q, id);
  }

  /** One more fragment changes nothing but whether its own datagram is complete. */
  lemma ReadableAfterPiece(x: Setting, cargo: seq<Cargo>, id: u32, index: nat, q: u64)
    requires F.FlightOk(x.flight) && id in x.flight
    ensures Readable(x, cargo + [Piece(id, index)], q) <==>
            Readable(x, cargo, q) || ReadId(x, cargo + [Piece(id, index)], q, id)
  {
    hide ReadWhole, F.Count;
    var c := Piece(id, index);
    var after := cargo + [c];
    PiecesSnoc(cargo, c);
    ReadWholeSnoc(cargo, c, q);
    forall id'
      ensures ReadId(x, after, q, id') <==> ReadId(x, cargo, q, id') || (id' == id && ReadId(x, after, q, id))
    {
      SeenElsewhere(Pieces(cargo), F.Arrival(id, index), id');
    }
  }

  // ----- where the receiver stands --------------------------------------------

  ghost predicate Distinct(order: seq<u64>) { forall i, j :: 0 <= i < j < |order| ==> order[i] != order[j] }

  function KeysOf(x: Setting, order: seq<u64>): seq<D.Key> {
    seq(|order|, i requires 0 <= i < |order| => KeyOf(x, order[i]))
  }

  function EmissionsAt(x: Setting, order: seq<u64>): seq<Emission>
    requires x.serviceId in x.cfg.services && forall q :: q in order ==> q in x.book
  {
    seq(|order|, i requires 0 <= i < |order| => EmissionOf(x.cfg, x.serviceId, x.scope, x.book[order[i]]))
  }

  /** Since the start the window has taken in exactly these sequences, each once. */
  ghost predicate Remembers(x: Setting, order: seq<u64>, window: seq<D.Key>) {
    && Distinct(order) && (forall q :: q in order ==> q in x.book)
    && window == D.Recent(x.start.core.window + KeysOf(x, order), x.cfg.capacity)
  }

  /** The payloads of `order` have been emitted, in that order, each once, and `dups` copies were turned away. */
  ghost predicate At(x: Setting, order: seq<u64>, dups: nat, d: Run) {
    && x.serviceId in x.cfg.services && d.error.None? && Remembers(x, order, d.core.window)
    && Gains(x.start.out, d.out, x.serviceId, EmissionsAt(x, order), |order|, dups)
  }

  lemma AtStart(x: Setting)
    requires SettingOk(x)
    ensures At(x, [], 0, x.start)
  {
    assert KeysOf(x, []) == [] && EmissionsAt(x, []) == [];
    assert x.start.core.window + [] == x.start.core.window;
    assert EmittedBy(x.start.out, x.serviceId) + [] == EmittedBy(x.start.out, x.serviceId);
  }

  lemma {:induction false} FewerThan(order: seq<u64>, all: set<u64>)
    requires Distinct(order) && forall q :: q in order ==> q in all
    ensures |order| <= |all|
    decreases |order|
  {
    if order == [] {
    } else {
      var init, q := order[..|order| - 1], order[|order| - 1];
      assert q in order;
      FewerThan(init, all - {q});
    }
  }

  lemma RecentKnows(past: seq<D.Key>, keys: seq<D.Key>, capacity: nat, key: D.Key)
    requires |keys| <= capacity && key !in past
    ensures key in D.Recent(past + keys, capacity) <==> key in keys
  {
    var history := past + keys;
    var recent := D.Recent(history, capacity);
    var cut := |history| - |recent|;
    if key in keys {
      var i :| 0 <= i < |keys| && keys[i] == key;
      assert recent[|past| + i - cut] == key;
    }
    if key in recent {
      var i :| 0 <= i < |recent| && recent[i] == key;
      assert history[i + cut] == key;
      assert forall j :: 0 <= j < |past| ==> past[j] != key;
    }
  }

  /** The window knows exactly what it has taken in. */
  lemma WindowKnows(x: Setting, order: seq<u64>, window: seq<D.Key>, q: u64)
    requires SettingOk(x) && Remembers(x, order, window) && q in x.book
    ensures KeyOf(x, q) in window <==> q in order
  {
    hide D.Recent, F.FlightOk, Distinct;
    FewerThan(order, x.book.Keys);
    RecentKnows(x.start.core.window, KeysOf(x, order), x.cfg.capacity, KeyOf(x, q));
    KeysList(x, order, q);
  }

  lemma RemembersOneMore(x: Setting, order: seq<u64>, window: seq<D.Key>, q: u64)
    requires Remembers(x, order, window) && x.cfg.capacity > 0 && q in x.book && q !in order
    ensures Remembers(x, order + [q], D.Remember(window, x.cfg.capacity, KeyOf(x, q)))
  {
    hide D.Recent, D.Remember;
    assert KeysOf(x, order + [q]) == KeysOf(x, order) + [KeyOf(x, q)];
    assert x.start.core.window + KeysOf(x, order) + [KeyOf(x, q)] == x.start.core.window + KeysOf(x, order + [q]);
    D.RememberIsRecent(x.start.core.window + KeysOf(x, order), x.cfg.capacity, KeyOf(x, q));
  }

  lemma KeysList(x: Setting, order: seq<u64>, q: u64)
    ensures KeyOf(x, q) in KeysOf(x, order) <==> q in order
  {
    var keys := KeysOf(x, order);
    if q in order {
      var i :| 0 <= i < |order| && order[i] == q;
      assert keys[i] == KeyOf(x, q);
    }
  }

  lemma AtRespectsSame(x: Setting, order: seq<u64>, dups: nat, d: Run, d': Run)
    requires At(x, order, dups, d) && Same(d, d')
    ensures At(x, order, dups, d')
  {
    hide Gains;
  }

  lemma AtOneMore(x: Setting, order: seq<u64>, dups: nat, d: Run, q: u64, r: Run)
    requires SettingOk(x) && At(x, order, dups, d) && q in x.book && q !in order
    requires r.error.None? && r.core.window == D.Remember(d.core.window, x.cfg.capacity, KeyOf(x, q))
    requires Gains(d.out, r.out, x.serviceId, [EmissionOf(x.cfg, x.serviceId, x.scope, x.book[q])], 1, 0)
    ensures At(x, order + [q], dups, r)
  {
    hide Gains, EmissionOf, D.Recent, D.Remember;
    var e := EmissionOf(x.cfg, x.serviceId, x.scope, x.book[q]);
    RemembersOneMore(x, order, d.core.window, q);
    assert EmissionsAt(x, order + [q]) == EmissionsAt(x, order) + [e];
    GainsTwice(x.start.out, d.out, r.out, x.serviceId, EmissionsAt(x, order), [e], |order|, 1, dups, 0);
  }

  /** One payload: emitted if it is new, counted if it is not. */
  lemma ItemAt(x: Setting, order: seq<u64>, dups: nat, d: Run, i: L.Item) returns (order': seq<u64>, dups': nat)
    requires SettingOk(x) && At(x, order, dups, d) && InBook(x, i)
    ensures At(x, order', dups', DeliverItem(x.cfg, d, x.scope, i))
    ensures (forall q :: q in order' <==> q in order || q == i.sequence) && |order'| + dups' == |order| + dups + 1
  {
    hide Gains, EmissionOf, DeliverItem, D.Remember, EmissionsAt;
    WindowKnows(x, order, d.core.window, i.sequence);
    var r := DeliverItem(x.cfg, d, x.scope, i);
    if i.sequence in order {
      RepeatedItem(x.cfg, d, x.scope, i);
      order', dups' := order, dups + 1;
      GainsTwice(x.start.out, d.out, r.out, x.serviceId, EmissionsAt(x, order), [], |order|, 0, dups, 1);
      assert EmissionsAt(x, order) + [] == EmissionsAt(x, order);
    } else {
      NewItem(x.cfg, d, x.scope, i);
      order', dups' := order + [i.sequence], dups;
      AtOneMore(x, order, dups, d, i.sequence, r);
    }
  }

  lemma {:induction false} ItemsAt(x: Setting, order: seq<u64>, dups: nat, d: Run, items: seq<L.Item>)
    returns (order': seq<u64>, dups': nat)
    requires SettingOk(x) && At(x, order, dups, d) && forall k :: 0 <= k < |items| ==> InBook(x, items[k])
    ensures At(x, order', dups', DeliverItems(x.cfg, d, x.scope, items))
    ensures forall q :: q in order' <==> q in order || Lists(items, q)
    ensures |order'| + dups' == |order| + dups + |items|
    decreases |items|
  {
    hide At, SettingOk, DeliverItem, InBook;
    if items == [] {
      order', dups' := order, dups;
    } else {
      var init, i := items[..|items| - 1], items[|items| - 1];
      assert items == init + [i] && InBook(x, items[|items| - 1]);
      var order1, dups1 := ItemsAt(x, order, dups, d, init);
      NoErrorAt(x, order1, dups1, DeliverItems(x.cfg, d, x.scope, init));
      order', dups' := ItemAt(x, order1, dups1, DeliverItems(x.cfg, d, x.scope, init), i);
      forall q ensures Lists(items, q) <==> Lists(init, q) || q == i.sequence {
        ListsSnoc(init, i, q);
      }
    }
  }

  lemma NoErrorAt(x: Setting, order: seq<u64>, dups: nat, d: Run)
    requires At(x, order, dups, d)
    ensures d.error.None?
  {
  }

  lemma ListsSnoc(items: seq<L.Item>, i: L.Item, q: u64)
    ensures Lists(items + [i], q) <==> Lists(items, q) || q == i.sequence
  {
    var all := items + [i];
    if Lists(items, q) {
      var k :| 0 <= k < |items| && items[k].sequence == q;
      assert all[k].sequence == q;
    }
    assert all[|items|] == i;
  }

  // ----- one frame ------------------------------------------------------------

  /** How many payloads a frame lets the receiver read: its own, or the one whose fragments it completes. */
  ghost function CopiesIn(x: Setting, cargo: seq<Cargo>, c: Cargo): nat
    requires F.FlightOk(x.flight) && CargoOk(x, c)
  {
    match c
    case Whole(items) => |items|
    case Piece(id, index) =>
      if F.Complete(F.Outstanding(x.flight, Pieces(cargo), id) + {index}, F.Count(x.flight[id])) then 1 else 0
  }

  /** All the payloads read so far, copies included. */
  ghost function Copies(x: Setting, cargo: seq<Cargo>): nat
    requires F.FlightOk(x.flight) && AllCargoOk(x, cargo)
  {
    if cargo == [] then 0
    else
      var n := |cargo| - 1;
      Copies(x, cargo[..n]) + CopiesIn(x, cargo[..n], cargo[n])
  }

  lemma CopiesSnoc(x: Setting, cargo: seq<Cargo>, c: Cargo)
    requires F.FlightOk(x.flight) && AllCargoOk(x, cargo) && CargoOk(x, c)
    ensures AllCargoOk(x, cargo + [c]) && Copies(x, cargo + [c]) == Copies(x, cargo) + CopiesIn(x, cargo, c)
  {
    hide CargoOk, CopiesIn;
    assert (cargo + [c])[..|cargo|] == cargo;
  }

  /** The reassembly buffers hold what these frames leave unfinished. */
  ghost predicate Reassembles(x: Setting, cargo: seq<Cargo>, fragments: F.Buffers)
    requires F.FlightOk(x.flight)
  {
    && AllCargoOk(x, cargo) && F.TraceOk(x.flight, Pieces(cargo))
    && fragments == F.BuffersAfter(x.flight, x.start.core.fragments, Pieces(cargo))
  }

  /** After these frames: emitted is exactly what can be read from them, surplus copies are counted, and the buffers
      hold the rest. */
  ghost predicate Stands(x: Setting, cargo: seq<Cargo>, order: seq<u64>, dups: nat, d: Run)
    requires F.FlightOk(x.flight)
  {
    && At(x, order, dups, d) && (forall q :: q in order <==> Readable(x, cargo, q))
    && Reassembles(x, cargo, d.core.fragments) && |order| + dups == Copies(x, cargo)
  }

  lemma WholeIgnoresBuffers(f: Frame, m: F.Buffers)
    requires f.fragment.None? && !f.kind.Control? && L.DeliverFrame(map[], f).Done?
    ensures L.DeliverFrame(m, f) == L.Done(m, L.DeliverFrame(map[], f).items)
  {
    hide DecodeBatch;
  }

  lemma SameBack(d: Run, d': Run)
    requires Same(d, d')
    ensures Same(d', d)
  {
  }

  function FrameOfPiece(x: Setting, id: u32, index: nat): (f: Frame)
    requires F.FlightOk(x.flight) && id in x.flight && index < F.Count(x.flight[id])
    ensures f.kind.Data?
  {
    F.FrameOf(x.flight, F.Arrival(id, index))
  }

  lemma OneMorePiece(flight: F.Flight, start: F.Buffers, before: seq<F.Arrival>, a: F.Arrival)
    requires F.FlightOk(flight) && F.TraceOk(flight, before) && a.id in flight && a.index < F.Count(flight[a.id])
    ensures F.TraceOk(flight, before + [a])
    ensures F.Push(F.BuffersAfter(flight, start, before), F.FrameOf(flight, a)) ==
            (F.BuffersAfter(flight, start, before + [a]), F.ResultOf(flight, start, before, a))
  {
    hide F.Push, F.Count;
    assert (before + [a])[..|before|] == before;
  }

  /** What a fragment of `id` delivers after these frames. */
  lemma PieceDelivers(x: Setting, cargo: seq<Cargo>, fragments: F.Buffers, id: u32, index: nat)
    requires SettingOk(x) && id in x.flight && index < F.Count(x.flight[id]) && F.TraceOk(x.flight, Pieces(cargo))
    requires fragments == F.BuffersAfter(x.flight, x.start.core.fragments, Pieces(cargo))
    ensures var a := F.Arrival(id, index);
      var done := L.DeliverFrame(fragments, F.FrameOf(x.flight, a));
      && F.TraceOk(x.flight, Pieces(cargo) + [a]) && done.Done?
      && done.buffers == F.BuffersAfter(x.flight, x.start.core.fragments, Pieces(cargo) + [a])
      && (done.items == [] || done.items == [L.ItemOf(x.flight[id])])
      && (done.items != [] <==>
            F.Complete(F.Outstanding(x.flight, Pieces(cargo), id) + {index}, F.Count(x.flight[id])))
      && (!F.Complete(F.Seen(Pieces(cargo), id), F.Count(x.flight[id])) ==>
            (done.items != [] <==> F.Complete(F.Seen(Pieces(cargo) + [a], id), F.Count(x.flight[id]))))
  {
    hide F.Complete, F.Seen, F.Push, F.Count, F.Outstanding, F.SameOutside, F.BuffersAfter, F.ResultOf, F.TraceOk;
    var a, before := F.Arrival(id, index), Pieces(cargo);
    OneMorePiece(x.flight, x.start.core.fragments, before, a);
    F.ReassemblyOfAnyArrivals(x.flight, x.start.core.fragments, before, a);
    if !F.Complete(F.Seen(before, id), F.Count(x.flight[id])) {
      F.PayloadAtFirstFullSet(x.flight, x.start.core.fragments, before, a);
    }
  }

  /** The path a fragment came by shows in what it delivers, and nowhere else. */
  lemma PathOnlyLabels(m: F.Buffers, f: Frame, g: Frame)
    requires f.kind.Data? && g == f.(pathId := g.pathId) && L.DeliverFrame(m, f).Done?
    ensures var here, there := L.DeliverFrame(m, f), L.DeliverFrame(m, g);
      && there.Done? && there.buffers == here.buffers && |there.items| == |here.items|
      && forall k :: 0 <= k < |here.items| ==> there.items[k] == here.items[k].(pathId := g.pathId)
  {
    hide F.BufferPush;
  }

  /** The item a fragment delivers, if any, is its datagram's, and comes first with the complete set. */
  lemma OwnItemDecides(x: Setting, cargo: seq<Cargo>, items: seq<L.Item>, id: u32, index: nat, q: u64)
    requires F.FlightOk(x.flight) && id in x.flight && |items| <= 1
    requires items != [] ==> items[0].sequence == x.flight[id].sequence
    requires !F.Complete(F.Seen(Pieces(cargo), id), F.Count(x.flight[id])) ==>
      (items != [] <==> F.Complete(F.Seen(Pieces(cargo + [Piece(id, index)]), id), F.Count(x.flight[id])))
    ensures Readable(x, cargo, q) || Lists(items, q) <==>
        Readable(x, cargo, q) || ReadId(x, cargo + [Piece(id, index)], q, id)
  {
    hide F.Complete, F.Seen, ReadWhole, Pieces;
    assert Lists(items, q) <==> items != [] && x.flight[id].sequence == q;
    if x.flight[id].sequence == q && F.Complete(F.Seen(Pieces(cargo), id), F.Count(x.flight[id])) {
      assert ReadId(x, cargo, q, id);
    }
  }

  /** What one frame delivers: the payloads it makes readable, and copies of ones that were. */
  lemma CargoDelivers(x: Setting, cargo: seq<Cargo>, fragments: F.Buffers, f: Frame, c: Cargo)
    requires SettingOk(x) && Reassembles(x, cargo, fragments) && CargoOk(x, c) && Bears(x, f, c)
    ensures var done := L.DeliverFrame(fragments, f);
      && done.Done? && Reassembles(x, cargo + [c], done.buffers) && |done.items| == CopiesIn(x, cargo, c)
      && (forall k :: 0 <= k < |done.items| ==> InBook(x, done.items[k]))
      && (forall q :: Readable(x, cargo + [c], q) <==> Readable(x, cargo, q) || Lists(done.items, q))
  {
    match c
    case Whole(items) => WholeDelivers(x, cargo, fragments, f, items);
    case Piece(id, index) => FragmentDelivers(x, cargo, fragments, f, id, index);
  }

  lemma WholeDelivers(x: Setting, cargo: seq<Cargo>, fragments: F.Buffers, f: Frame, items: seq<L.Item>)
    requires SettingOk(x) && Reassembles(x, cargo, fragments) && CargoOk(x, Whole(items)) && Bears(x, f, Whole(items))
    ensures var done := L.DeliverFrame(fragments, f);
      && done == L.Done(fragments, items) && Reassembles(x, cargo + [Whole(items)], fragments)
      && (forall q :: Readable(x, cargo + [Whole(items)], q) <==> Readable(x, cargo, q) || Lists(items, q))
  {
    hide Readable, L.DeliverFrame, Lists, F.BuffersAfter, CargoOk;
    WholeIgnoresBuffers(f, fragments);
    PiecesSnoc(cargo, Whole(items));
    assert Pieces(cargo) + [] == Pieces(cargo);
    forall q ensures Readable(x, cargo + [Whole(items)], q) <==> Readable(x, cargo, q) || Lists(items, q) {
      ReadableAfterWhole(x, cargo, items, q);
    }
  }

  lemma FragmentDelivers(x: Setting, cargo: seq<Cargo>, fragments: F.Buffers, f: Frame, id: u32, index: nat)
    requires SettingOk(x) && Reassembles(x, cargo, fragments) && CargoOk(x, Piece(id, index))
    requires Bears(x, f, Piece(id, index))
    ensures var done, c := L.DeliverFrame(fragments, f), Piece(id, index);
      && done.Done? && Reassembles(x, cargo + [c], done.buffers) && |done.items| == CopiesIn(x, cargo, c)
      && (forall k :: 0 <= k < |done.items| ==> InBook(x, done.items[k]))
      && (forall q :: Readable(x, cargo + [c], q) <==> Readable(x, cargo, q) || Lists(done.items, q))
  {
    hide L.DeliverFrame, F.BuffersAfter, F.Complete, F.Seen, F.FrameOf, F.TraceOk, F.Outstanding, Readable, Lists;
    var c := Piece(id, index);
    PieceDelivers(x, cargo, fragments, id, index);
    PathOnlyLabels(fragments, FrameOfPiece(x, id, index), f);
    PiecesSnoc(cargo, c);
    var items := L.DeliverFrame(fragments, f).items;
    assert InBook(x, L.ItemOf(x.flight[id]));
    forall q ensures Readable(x, cargo + [c], q) <==> Readable(x, cargo, q) || Lists(items, q) {
      ReadableAfterPiece(x, cargo, id, index, q);
      OwnItemDecides(x, cargo, items, id, index, q);
    }
  }

  lemma CargoArrives(x: Setting, cargo: seq<Cargo>, order: seq<u64>, dups: nat, d: Run, a: Arrival, c: Cargo)
    returns (order': seq<u64>, dups': nat)
    requires SettingOk(x) && CargoOk(x, c) && Stands(x, cargo, order, dups, d)
    requires a.content.Some? && Bears(x, a.content.value, c) && a.scope == x.scope
    ensures Stands(x, cargo + [c], order', dups', ReceiveOne(x.cfg, d, a))
  {
    hide At, Readable, ReceiveOne, L.DeliverFrame, DeliverItems, Serves, Reassembles, Lists, CargoOk, InBook,
         CopiesIn, Copies;
    NoErrorAt(x, order, dups, d);
    CargoDelivers(x, cargo, d.core.fragments, a.content.value, c);
    BearsUser(x, a.content.value, c);
    ArrivalAsItems(x.cfg, d, a, a.content.value);
    var items, r := L.DeliverFrame(d.core.fragments, a.content.value).items, ReceiveOne(x.cfg, d, a);
    order', dups' := ItemsAt(x, order, dups, d, items);
    SameBack(r, DeliverItems(x.cfg, d, x.scope, items));
    AtRespectsSame(x, order', dups', DeliverItems(x.cfg, d, x.scope, items), r);
    ReassemblesAll(x, cargo, d.core.fragments);
    CopiesSnoc(x, cargo, c);
  }

  lemma ReassemblesAll(x: Setting, cargo: seq<Cargo>, fragments: F.Buffers)
    requires F.FlightOk(x.flight) && Reassembles(x, cargo, fragments)
    ensures AllCargoOk(x, cargo)
  {
  }

  lemma BearsUser(x: Setting, f: Frame, c: Cargo)
    requires F.FlightOk(x.flight) && CargoOk(x, c) && Bears(x, f, c)
    ensures UserFrame(f) && f.serviceId == x.serviceId
  {
  }

  // ----- any frames, in any order ---------------------------------------------

  /** The arrivals are frames that bring this cargo. */
  ghost predicate Brought(x: Setting, arrivals: seq<Arrival>, cargo: seq<Cargo>)
    requires F.FlightOk(x.flight) && AllCargoOk(x, cargo)
  {
    && |arrivals| == |cargo|
    && forall k :: 0 <= k < |cargo| ==>
         arrivals[k].content.Some? && arrivals[k].scope == x.scope && Bears(x, arrivals[k].content.value, cargo[k])
  }

  lemma NothingReadable(x: Setting, q: u64)
    requires F.FlightOk(x.flight) && forall id :: id in x.flight ==> x.flight[id].payload != []
    ensures !Readable(x, [], q)
  {
    forall id | id in x.flight ensures !ReadId(x, [], q, id) {
      SomeChunk(x.flight[id]);
      assert 0 !in F.Seen([], id);
    }
  }

  lemma SomeChunk(d: Planned)
    requires d.path.Valid() && d.payload != []
    ensures F.Count(d) > 0
  {
  }

  /** Whatever frames arrive, in whatever order, repeated or missing: no error, and the emissions are exactly the
      payloads readable from what arrived, each once, in the order in which they became readable. */
  lemma {:induction false} EmitsExactlyWhatIsReadable(x: Setting, arrivals: seq<Arrival>, cargo: seq<Cargo>, n: nat)
    returns (order: seq<u64>, dups: nat)
    requires SettingOk(x) && (forall id :: id in x.flight ==> x.flight[id].payload != [])
    requires AllCargoOk(x, cargo) && Brought(x, arrivals, cargo) && n <= |cargo|
    ensures Stands(x, cargo[..n], order, dups, ReceiveUpTo(x.cfg, x.start, arrivals, n))
    decreases n
  {
    hide At, Readable, ReceiveOne, Bears, CargoOk, F.BuffersAfter, Serves;
    if n == 0 {
      order, dups := [], 0;
      AtStart(x);
      assert cargo[..0] == [] && Pieces([]) == [];
      forall q ensures !Readable(x, [], q) {
        NothingReadable(x, q);
      }
      NoPieces(x);
    } else {
      var before, c, a := cargo[..n - 1], cargo[n - 1], arrivals[n - 1];
      var order1, dups1 := EmitsExactlyWhatIsReadable(x, arrivals, cargo, n - 1);
      var d := ReceiveUpTo(x.cfg, x.start, arrivals, n - 1);
      NoErrorAt(x, order1, dups1, d);
      assert cargo[..n] == before + [c] && CargoOk(x, c) && Bears(x, a.content.value, c);
      order, dups := CargoArrives(x, before, order1, dups1, d, a, c);
    }
  }

  lemma NoPieces(x: Setting)
    requires F.FlightOk(x.flight)
    ensures F.TraceOk(x.flight, []) && F.BuffersAfter(x.flight, x.start.core.fragments, []) == x.start.core.fragments
  {
  }
}
