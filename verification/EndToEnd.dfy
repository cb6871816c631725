/** From a list of local datagrams to the sockets at the other end: each payload comes out exactly once, in order,
    whatever the fanout. */
module EndToEnd {
  import opened Bytes
  import opened FrameCodec
  import opened Plans
  import opened Receive
  import P = Planning
  import Fit = FrameFit
  import L = Delivery
  import F = Fragmentation
  import D = Dedupe
  import T = Tracker

  // ----- the receiver, seen as a reader of items ------------------------------

  /** The same deliveries so far; only reassembly and learned addresses may differ. */
  ghost predicate Same(d: Run, d': Run) {
    && d.core.window == d'.core.window && d.core.trackers == d'.core.trackers && d.core.events == d'.core.events
    && d.out == d'.out && d.outcomes == d'.outcomes && d.error == d'.error
  }

  function DeliverItem(cfg: Config, d: Run, scope: Option<u32>, i: L.Item): Run {
    DeliverUser(cfg, d, i.serviceId, i.pathId, i.sequence, i.payload, scope)
  }

  function DeliverItems(cfg: Config, d: Run, scope: Option<u32>, items: seq<L.Item>): Run
    decreases |items|
  {
    if items == [] then d
    else
      var before := DeliverItems(cfg, d, scope, items[..|items| - 1]);
      if before.error.Some? then before else DeliverItem(cfg, before, scope, items[|items| - 1])
  }

  lemma ItemKeeps(cfg: Config, d: Run, d': Run, scope: Option<u32>, i: L.Item)
    requires Same(d, d')
    ensures Same(DeliverItem(cfg, d, scope, i), DeliverItem(cfg, d', scope, i))
    ensures DeliverItem(cfg, d, scope, i).core.fragments == d.core.fragments
  {
    hide ApplyAll, T.Observe, D.Remember, EmitEffects, DuplicateEffects, ReceiveRow, TargetOf;
  }

  lemma {:induction false} ItemsKeep(cfg: Config, d: Run, d': Run, scope: Option<u32>, items: seq<L.Item>)
    requires Same(d, d')
    ensures Same(DeliverItems(cfg, d, scope, items), DeliverItems(cfg, d', scope, items))
    ensures DeliverItems(cfg, d, scope, items).core.fragments == d.core.fragments
    decreases |items|
  {
    hide DeliverItem;
    if items == [] {
    } else {
      var init, i := items[..|items| - 1], items[|items| - 1];
      ItemsKeep(cfg, d, d', scope, init);
      ItemKeeps(cfg, DeliverItems(cfg, d, scope, init), DeliverItems(cfg, d', scope, init), scope, i);
    }
  }

  lemma ItemsSnoc(cfg: Config, d: Run, scope: Option<u32>, items: seq<L.Item>, i: L.Item)
    ensures var before := DeliverItems(cfg, d, scope, items);
      DeliverItems(cfg, d, scope, items + [i]) ==
      if before.error.Some? then before else DeliverItem(cfg, before, scope, i)
  {
    hide DeliverItem;
    assert (items + [i])[..|items|] == items;
  }

  lemma {:induction false} ItemsAppend(cfg: Config, d: Run, scope: Option<u32>, a: seq<L.Item>, b: seq<L.Item>)
    ensures var first := DeliverItems(cfg, d, scope, a);
      DeliverItems(cfg, d, scope, a + b) == if first.error.Some? then first else DeliverItems(cfg, first, scope, b)
    decreases |b|
  {
    hide DeliverItem;
    if b == [] {
      assert a + b == a;
    } else {
      var init, i := b[..|b| - 1], b[|b| - 1];
      ItemsAppend(cfg, d, scope, a, init);
      assert a + b == a + init + [i];
      ItemsSnoc(cfg, d, scope, a + init, i);
    }
  }

  // ----- frames are their items -----------------------------------------------

  predicate UserFrame(f: Frame) { !f.kind.Control? && !IsReserved(f.serviceId) }

  lemma {:induction false} BatchAsItems(cfg: Config, d: Run, f: Frame, payloads: seq<bytes>, a: Arrival, n: nat)
    requires UserFrame(f) && n <= |payloads|
    ensures DeliverBatch(cfg, d, f, payloads, a, n) == DeliverItems(cfg, d, a.scope, L.BatchItems(f, payloads)[..n])
    decreases n
  {
    hide DeliverUser;
    var items := L.BatchItems(f, payloads);
    if n == 0 {
    } else {
      BatchAsItems(cfg, d, f, payloads, a, n - 1);
      assert items[..n] == items[..n - 1] + [items[n - 1]];
      ItemsSnoc(cfg, d, a.scope, items[..n - 1], items[n - 1]);
    }
  }

  lemma FrameAsItems(cfg: Config, d: Run, f: Frame, a: Arrival)
    requires UserFrame(f) && d.error.None? && L.DeliverFrame(d.core.fragments, f).Done?
    ensures var r, done := ReceiveFrame(cfg, d, f, a), L.DeliverFrame(d.core.fragments, f);
      Same(r, DeliverItems(cfg, d, a.scope, done.items)) && r.core.fragments == done.buffers
  {
    hide DeliverItem, F.Push, DecodeBatch, DeliverBatch;
    var done := L.DeliverFrame(d.core.fragments, f);
    if f.kind.Batch? {
      var payloads := DecodeBatch(f.payload).value;
      BatchAsItems(cfg, d, f, payloads, a, |payloads|);
      assert L.BatchItems(f, payloads)[..|payloads|] == done.items;
      ItemsKeep(cfg, d, d, a.scope, done.items);
    } else {
      var (fragments, result) := F.Push(d.core.fragments, f);
      var d1 := d.(core := d.core.(fragments := fragments));
      ItemsKeep(cfg, d1, d, a.scope, done.items);
      if result.value.Some? {
        SingleItem(cfg, d1, a.scope, done.items[0]);
      }
    }
  }

  lemma SingleItem(cfg: Config, d: Run, scope: Option<u32>, i: L.Item)
    requires d.error.None?
    ensures DeliverItems(cfg, d, scope, [i]) == DeliverUser(cfg, d, i.serviceId, i.pathId, i.sequence, i.payload, scope)
  {
    hide DeliverUser;
    assert DeliverItems(cfg, d, scope, []) == d;
    ItemsSnoc(cfg, d, scope, [], i);
    assert [] + [i] == [i];
  }

  // ----- packets are their items ----------------------------------------------

  /** The arrivals are the decoded packets, in order, all from one peer. */
  ghost predicate Carries(arrivals: seq<Arrival>, wire: seq<bytes>, scope: Option<u32>) {
    |arrivals| == |wire| && forall i :: 0 <= i < |wire| ==> CarriesOne(arrivals[i], wire[i], scope)
  }

  predicate CarriesOne(a: Arrival, packet: bytes, scope: Option<u32>) {
    && DecodeV1(packet).Ok? && UserFrame(DecodeV1(packet).value)
    && a.content == Some(DecodeV1(packet).value) && a.scope == scope
  }

  lemma {:induction false} ReceiveFirst(cfg: Config, d: Run, a: Arrival, rest: seq<Arrival>, n: nat)
    requires d.error.None? && n <= |rest|
    ensures var first := ReceiveOne(cfg, d, a);
      ReceiveUpTo(cfg, d, [a] + rest, n + 1) == if first.error.Some? then first else ReceiveUpTo(cfg, first, rest, n)
    decreases n
  {
    hide ReceiveOne;
    if n == 0 {
      assert ReceiveUpTo(cfg, d, [a] + rest, 0) == d;
    } else {
      ReceiveFirst(cfg, d, a, rest, n - 1);
      assert ([a] + rest)[n] == rest[n - 1];
    }
  }

  lemma ArrivalAsItems(cfg: Config, d: Run, a: Arrival, f: Frame)
    requires a.content == Some(f) && UserFrame(f) && d.error.None? && L.DeliverFrame(d.core.fragments, f).Done?
    ensures var r, done := ReceiveOne(cfg, d, a), L.DeliverFrame(d.core.fragments, f);
      Same(r, DeliverItems(cfg, d, a.scope, done.items)) && r.core.fragments == done.buffers
  {
    hide L.DeliverFrame, ReceiveFrame;
    var d1 := d.(core := Learn(d.core, a));
    FrameAsItems(cfg, d1, f, a);
    ItemsKeep(cfg, d1, d, a.scope, L.DeliverFrame(d.core.fragments, f).items);
  }

  lemma WireFirst(m: F.Buffers, wire: seq<bytes>)
    requires wire != [] && DecodeV1(wire[0]).Ok? && L.DeliverWire(m, wire).Done?
    ensures var first := L.DeliverFrame(m, DecodeV1(wire[0]).value);
      && first.Done? && var later := L.DeliverWire(first.buffers, wire[1..]);
      && later.Done? && L.DeliverWire(m, wire) == L.Done(later.buffers, first.items + later.items)
  {
    hide DecodeV1, L.DeliverFrame;
  }

  /** Receiving packets is delivering, one after another, the payloads read from them. */
  lemma {:induction false} WireAsItems(cfg: Config, d: Run, arrivals: seq<Arrival>, wire: seq<bytes>,
                                       scope: Option<u32>)
    requires Carries(arrivals, wire, scope) && d.error.None? && L.DeliverWire(d.core.fragments, wire).Done?
    ensures var r, done := ReceiveUpTo(cfg, d, arrivals, |arrivals|), L.DeliverWire(d.core.fragments, wire);
      Same(r, DeliverItems(cfg, d, scope, done.items)) && (r.error.None? ==> r.core.fragments == done.buffers)
    decreases |wire|
  {
    if wire == [] {
    } else {
      hide CarriesOne, DecodeV1, L.DeliverFrame, L.DeliverWire, ReceiveOne, ReceiveUpTo, DeliverItems, UserFrame;
      var a, rest := arrivals[0], arrivals[1..];
      assert CarriesOne(a, wire[0], scope) && arrivals == [a] + rest;
      CarriedDecodes(a, wire[0], scope);
      WireFirst(d.core.fragments, wire);
      var done := L.DeliverFrame(d.core.fragments, DecodeV1(wire[0]).value);
      ArrivalAsItems(cfg, d, a, DecodeV1(wire[0]).value);
      ReceiveFirst(cfg, d, a, rest, |rest|);
      var first := ReceiveOne(cfg, d, a);
      var later := L.DeliverWire(done.buffers, wire[1..]);
      ItemsAppend(cfg, d, scope, done.items, later.items);
      if first.error.None? {
        WireAsItems(cfg, first, rest, wire[1..], scope);
        ItemsKeep(cfg, first, DeliverItems(cfg, d, scope, done.items), scope, later.items);
      }
    }
  }

  lemma CarriedDecodes(a: Arrival, packet: bytes, scope: Option<u32>)
    requires CarriesOne(a, packet, scope)
    ensures DecodeV1(packet).Ok? && UserFrame(DecodeV1(packet).value)
    ensures a.content == Some(DecodeV1(packet).value) && a.scope == scope
  {
  }

  // ----- what one item does to the output -------------------------------------

  function Packets(out: Out, serviceId: u16): nat { RowAt(out, ServiceCell(serviceId, true)).packets }

  function Duplicates(out: Out, serviceId: u16): nat {
    var row := RowAt(out, ServiceCell(serviceId, true));
    row.expectedDuplicates + row.unexpectedDuplicates
  }

  /** `out'` has these emissions, new packets and new duplicates for the service, and nothing new for any other. */
  ghost predicate Gains(out: Out, out': Out, serviceId: u16, emissions: seq<Emission>, packets: nat, duplicates: nat) {
    && EmittedBy(out', serviceId) == EmittedBy(out, serviceId) + emissions
    && (forall s :: s != serviceId ==> EmittedBy(out', s) == EmittedBy(out, s))
    && Packets(out', serviceId) == Packets(out, serviceId) + packets
    && Duplicates(out', serviceId) == Duplicates(out, serviceId) + duplicates
  }

  lemma GainsTwice(a: Out, b: Out, c: Out, serviceId: u16, e: seq<Emission>, f: seq<Emission>, p: nat, q: nat, x: nat,
                   y: nat)
    requires Gains(a, b, serviceId, e, p, x) && Gains(b, c, serviceId, f, q, y)
    ensures Gains(a, c, serviceId, e + f, p + q, x + y)
  {
    assert EmittedBy(a, serviceId) + e + f == EmittedBy(a, serviceId) + (e + f);
  }

  lemma EmissionGains(cfg: Config, out: Out, serviceId: u16, pathId: u16, payload: bytes, scope: Option<u32>,
                      o: T.Observation)
    requires serviceId in cfg.services
    ensures Gains(out, ApplyAll(out, EmitEffects(cfg, serviceId, pathId, payload, scope, o)), serviceId,
                  [EmissionOf(cfg, serviceId, scope, payload)], 1, 0)
  {
    hide ApplyAll;
    var es := EmitEffects(cfg, serviceId, pathId, payload, scope, o);
    ApplyFew(out, es);
  }

  lemma BumpGains(out: Out, cell: Cell, row: Row, serviceId: u16)
    ensures var here := cell == ServiceCell(serviceId, true);
      Gains(out, ApplyOne(out, Bump(cell, row)), serviceId, [], if here then row.packets else 0,
            if here then row.expectedDuplicates + row.unexpectedDuplicates else 0)
  {
    assert EmittedBy(out, serviceId) + [] == EmittedBy(out, serviceId);
  }

  lemma DuplicateGains(cfg: Config, out: Out, serviceId: u16, pathId: u16, len: nat)
    requires serviceId in cfg.services
    ensures Gains(out, ApplyAll(out, DuplicateEffects(cfg, serviceId, pathId, len)), serviceId, [], 0, 1)
  {
    hide ApplyAll, ApplyOne, Gains;
    var es := DuplicateEffects(cfg, serviceId, pathId, len);
    ApplyFew(out, es);
    var one := ApplyOne(out, es[0]);
    var two := ApplyOne(one, es[1]);
    BumpGains(out, es[0].cell, es[0].row, serviceId);
    BumpGains(one, es[1].cell, es[1].row, serviceId);
    BumpGains(two, es[2].cell, es[2].row, serviceId);
    var none: seq<Emission> := [];
    assert none + none == none;
    GainsTwice(out, one, two, serviceId, none, none, 0, 0, 0, 1);
    GainsTwice(out, two, ApplyOne(two, es[2]), serviceId, none, none, 0, 0, 1, 0);
  }

  lemma PathCountGains(out: Out, serviceId: u16, pathId: u16, row: Row)
    ensures Gains(out, ApplyAll(out, [Bump(PathCell(pathId), row)]), serviceId, [], 0, 0)
  {
    hide ApplyAll, ApplyOne, Gains;
    var e := Bump(PathCell(pathId), row);
    ApplyFew(out, [e]);
    BumpGains(out, PathCell(pathId), row, serviceId);
  }

  lemma NewItem(cfg: Config, d: Run, scope: Option<u32>, i: L.Item)
    requires Serves(cfg, i.serviceId) && d.error.None? && D.Key(i.serviceId, scope, i.sequence) !in d.core.window
    ensures var r := DeliverItem(cfg, d, scope, i);
      && r.error.None?
      && r.core.window == D.Remember(d.core.window, cfg.capacity, D.Key(i.serviceId, scope, i.sequence))
      && Gains(d.out, r.out, i.serviceId, [EmissionOf(cfg, i.serviceId, scope, i.payload)], 1, 0)
  {
    hide ApplyAll, T.Observe, D.Remember, Gains, EmitEffects, EmissionOf, ReceiveRow;
    var o := T.Observe(ExpectedAt(d.core, scope), i.sequence).1;
    var row := ReceiveRow(|i.payload|, o);
    var counted := ApplyAll(d.out, [Bump(PathCell(i.pathId), row)]);
    PathCountGains(d.out, i.serviceId, i.pathId, row);
    EmissionGains(cfg, counted, i.serviceId, i.pathId, i.payload, scope, o);
    var e := EmissionOf(cfg, i.serviceId, scope, i.payload);
    GainsTwice(d.out, counted, DeliverItem(cfg, d, scope, i).out, i.serviceId, [], [e], 0, 1, 0, 0);
    assert [] + [e] == [e];
  }

  lemma RepeatedItem(cfg: Config, d: Run, scope: Option<u32>, i: L.Item)
    requires Serves(cfg, i.serviceId) && d.error.None? && D.Key(i.serviceId, scope, i.sequence) in d.core.window
    ensures var r := DeliverItem(cfg, d, scope, i);
      r.error.None? && r.core.window == d.core.window && Gains(d.out, r.out, i.serviceId, [], 0, 1)
  {
    hide ApplyAll, Gains, DuplicateEffects;
    DuplicateGains(cfg, d.out, i.serviceId, i.pathId, |i.payload|);
  }

  /** Copies of one payload, on any paths. */
  ghost predicate AreCopies(items: seq<L.Item>, serviceId: u16, sequence: u64, payload: bytes) {
    forall k :: 0 <= k < |items| ==>
      items[k].serviceId == serviceId && items[k].sequence == sequence && items[k].payload == payload
  }

  /** However many copies arrive in a row, the payload is emitted once and the rest are counted as duplicates. */
  lemma {:induction false} CopiesEmitOnce(cfg: Config, d: Run, scope: Option<u32>, items: seq<L.Item>, serviceId: u16,
                                          sequence: u64, payload: bytes)
    requires items != [] && AreCopies(items, serviceId, sequence, payload)
    requires Serves(cfg, serviceId) && cfg.capacity > 0 && d.error.None?
    requires D.Key(serviceId, scope, sequence) !in d.core.window
    ensures var r := DeliverItems(cfg, d, scope, items);
      && r.error.None? && r.core.window == D.Remember(d.core.window, cfg.capacity, D.Key(serviceId, scope, sequence))
      && Gains(d.out, r.out, serviceId, [EmissionOf(cfg, serviceId, scope, payload)], 1, |items| - 1)
    decreases |items|
  {
    hide DeliverItem, Gains, EmissionOf, D.Remember;
    var init, i := items[..|items| - 1], items[|items| - 1];
    assert items == init + [i];
    var key := D.Key(serviceId, scope, sequence);
    if init == [] {
      NewItem(cfg, d, scope, i);
      assert DeliverItems(cfg, d, scope, init) == d;
    } else {
      CopiesEmitOnce(cfg, d, scope, init, serviceId, sequence, payload);
      var before := DeliverItems(cfg, d, scope, init);
      RememberedIsIn(d.core.window, cfg.capacity, key);
      RepeatedItem(cfg, before, scope, i);
      var e := [EmissionOf(cfg, serviceId, scope, payload)];
      GainsTwice(d.out, before.out, DeliverItems(cfg, d, scope, items).out, serviceId, e, [], 1, 0, |init| - 1, 1);
      assert e + [] == e;
    }
  }

  lemma RememberedIsIn(window: seq<D.Key>, capacity: nat, key: D.Key)
    requires capacity > 0
    ensures key in D.Remember(window, capacity, key)
    ensures forall k :: k in D.Remember(window, capacity, key) ==> k in window || k == key
  {
    var all := window + [key];
    assert D.Remember(window, capacity, key)[|D.Remember(window, capacity, key)| - 1] == all[|window|];
  }

  // ----- a whole plan ---------------------------------------------------------

  ghost predicate OneScope(req: P.Request, peer: Option<u32>) {
    forall i :: 0 <= i < |req.datagrams| ==> req.datagrams[i].peerScope == peer
  }

  /** The window remembers nothing of this service and peer from `from` on. */
  ghost predicate NothingFrom(window: seq<D.Key>, serviceId: u16, scope: Option<u32>, from: nat) {
    forall k :: k in window && k.serviceId == serviceId && k.peerScope == scope ==> k.sequence < from
  }

  function EmissionsOf(cfg: Config, serviceId: u16, scope: Option<u32>, datagrams: seq<Received>): seq<Emission>
    requires serviceId in cfg.services
  {
    seq(|datagrams|, i requires 0 <= i < |datagrams| => EmissionOf(cfg, serviceId, scope, datagrams[i].payload))
  }

  /** One datagram's step: one more sequence, and copies of its payload under it. */
  lemma PlanStepCopies(req: P.Request, st: P.PlanState, d: Received, choice: seq<Path>, first: nat)
    requires P.BurstOk(st.burst) && !st.failed && (forall p :: p in choice ==> p.Valid())
    requires first == P.SequenceFor(st.counters, d.peerScope) < U64_MAX && !P.PlanStep(req, st, d, choice).failed
    ensures var st' := P.PlanStep(req, st, d, choice);
      && P.SequenceFor(st'.counters, d.peerScope) == first + 1
      && st.planned < st'.planned
      && AreCopies(L.ItemsOf(st'.planned)[|st.planned|..], req.serviceId, first, d.payload)
      && (forall k :: |st.planned| <= k < |st'.planned| ==> st'.planned[k].sequence == first)
  {
    hide P.UpdateBurst, P.KeepsPath;
    var st' := P.PlanStep(req, st, d, choice);
    var paths := P.SelectPaths(req, st.burst, d, choice).0;
    assert |st'.planned| == |st.planned| + |paths|;
  }

  ghost predicate PlanDelivered(cfg: Config, d: Run, req: P.Request, start: P.Counters, scope: Option<u32>,
                                peer: Option<u32>, n: nat)
    requires req.Valid() && n <= |req.datagrams| && req.serviceId in cfg.services
  {
    var st := P.PlanUpTo(req, start, n);
    var first, r := P.SequenceFor(start, peer), DeliverItems(cfg, d, scope, L.ItemsOf(st.planned));
    && P.SequenceFor(st.counters, peer) == first + n && n <= |st.planned|
    && (forall k :: 0 <= k < |st.planned| ==> st.planned[k].sequence < first + n)
    && r.error.None? && NothingFrom(r.core.window, req.serviceId, scope, first + n)
    && Gains(d.out, r.out, req.serviceId, EmissionsOf(cfg, req.serviceId, scope, req.datagrams[..n]), n,
             |st.planned| - n)
  }

  /** The receiver's premises: the service is served, and nothing from this point on has been seen yet. */
  ghost predicate Ready(cfg: Config, d: Run, req: P.Request, start: P.Counters, scope: Option<u32>, peer: Option<u32>) {
    && req.Valid() && OneScope(req, peer) && Serves(cfg, req.serviceId) && cfg.capacity > 0 && d.error.None?
    && P.SequenceFor(start, peer) + |req.datagrams| <= U64_MAX
    && NothingFrom(d.core.window, req.serviceId, scope, P.SequenceFor(start, peer))
  }

  lemma NothingPlanned(cfg: Config, d: Run, req: P.Request, start: P.Counters, scope: Option<u32>, peer: Option<u32>)
    requires Ready(cfg, d, req, start, scope, peer)
    ensures PlanDelivered(cfg, d, req, start, scope, peer, 0)
  {
    assert L.ItemsOf([]) == [];
    assert EmittedBy(d.out, req.serviceId) + [] == EmittedBy(d.out, req.serviceId);
  }

  lemma {:induction false} PlanDelivers(cfg: Config, d: Run, req: P.Request, start: P.Counters, scope: Option<u32>,
                                        peer: Option<u32>, n: nat)
    requires Ready(cfg, d, req, start, scope, peer) && n <= |req.datagrams| && !P.PlanUpTo(req, start, n).failed
    ensures PlanDelivered(cfg, d, req, start, scope, peer, n)
    decreases n
  {
    hide P.PlanStep, DeliverItems, Gains, EmissionOf, NothingFrom, D.Remember;
    if n == 0 {
      NothingPlanned(cfg, d, req, start, scope, peer);
    } else {
      PlanDelivers(cfg, d, req, start, scope, peer, n - 1);
      DeliverNext(cfg, d, req, start, scope, peer, n);
    }
  }

  lemma DeliverNext(cfg: Config, d: Run, req: P.Request, start: P.Counters, scope: Option<u32>, peer: Option<u32>,
                    n: nat)
    requires Ready(cfg, d, req, start, scope, peer) && 0 < n <= |req.datagrams| && !P.PlanUpTo(req, start, n).failed
    requires PlanDelivered(cfg, d, req, start, scope, peer, n - 1)
    ensures PlanDelivered(cfg, d, req, start, scope, peer, n)
  {
    hide P.PlanStep, DeliverItems, Gains, EmissionOf, NothingFrom, D.Remember, AreCopies;
    var st, datagram := P.PlanUpTo(req, start, n - 1), req.datagrams[n - 1];
    var sequence := P.SequenceFor(st.counters, peer);
    PlanStepCopies(req, st, datagram, req.choices[n - 1], sequence);
    var st' := P.PlanUpTo(req, start, n);
    var old', copies := L.ItemsOf(st.planned), L.ItemsOf(st'.planned)[|st.planned|..];
    assert L.ItemsOf(st'.planned) == old' + copies;
    ItemsAppend(cfg, d, scope, old', copies);
    var before := DeliverItems(cfg, d, scope, old');
    StillNew(before.core.window, req.serviceId, scope, sequence, cfg.capacity);
    CopiesEmitOnce(cfg, before, scope, copies, req.serviceId, sequence, datagram.payload);
    var after := DeliverItems(cfg, before, scope, copies);
    var sofar, one := EmissionsOf(cfg, req.serviceId, scope, req.datagrams[..n - 1]),
      [EmissionOf(cfg, req.serviceId, scope, datagram.payload)];
    GainsTwice(d.out, before.out, after.out, req.serviceId, sofar, one, n - 1, 1, |st.planned| - (n - 1), |copies| - 1);
    assert sofar + one == EmissionsOf(cfg, req.serviceId, scope, req.datagrams[..n]);
  }

  lemma StillNew(window: seq<D.Key>, serviceId: u16, scope: Option<u32>, sequence: u64, capacity: nat)
    requires NothingFrom(window, serviceId, scope, sequence) && capacity > 0
    ensures D.Key(serviceId, scope, sequence) !in window
    ensures NothingFrom(D.Remember(window, capacity, D.Key(serviceId, scope, sequence)), serviceId, scope, sequence + 1)
  {
    hide D.Remember;
    RememberedIsIn(window, capacity, D.Key(serviceId, scope, sequence));
  }

  // ----- end to end -----------------------------------------------------------

  ghost predicate UserPlans(plans: seq<FramePlan>) {
    forall k :: 0 <= k < |plans| ==> WellFormed(plans[k].frame) && UserFrame(plans[k].frame)
  }

  lemma GroupIsUser(serviceId: u16, group: seq<Planned>)
    requires group != [] && group[0].path.Valid() && group[0].serviceId == serviceId && !IsReserved(serviceId)
    requires P.GroupFrames(serviceId, group).Some?
    ensures UserPlans(P.GroupFrames(serviceId, group).value)
  {
    hide F.Chunks, BatchEncodable, EncodeBatch;
    var plans := P.GroupFrames(serviceId, group).value;
    if group[0].fragment.Some? {
      forall k | 0 <= k < |plans| ensures WellFormed(plans[k].frame) && UserFrame(plans[k].frame) {
        L.FragmentWellFormed(group[0], group[0].fragment.value, k);
      }
    } else if |group| > 1 {
      L.BatchFits(P.PayloadsOf(group));
    }
  }

  /** The coalescer builds well-formed user frames only. */
  lemma {:induction false} CoalescedIsUser(serviceId: u16, planned: seq<Planned>)
    requires P.PathsValid(planned) && (forall e :: e in planned ==> e.serviceId == serviceId) && !IsReserved(serviceId)
    requires P.Coalesce(serviceId, planned).Some?
    ensures UserPlans(P.Coalesce(serviceId, planned).value)
    decreases |planned|
  {
    hide P.GroupFrames, P.GroupSize, P.Coalesce, WellFormed, UserFrame;
    if planned == [] {
      P.CoalesceEmpty(serviceId);
    } else {
      var n := P.GroupSize(planned);
      P.CoalesceStep(serviceId, planned);
      assert planned[0] in planned && planned[..n][0] == planned[0];
      GroupIsUser(serviceId, planned[..n]);
      CoalescedIsUser(serviceId, planned[n..]);
    }
  }

  /** The frames of a request that fits, in the order they are handed to the sockets. */
  ghost function FramesFor(req: P.Request, start: P.Counters): seq<FramePlan>
    requires req.Valid() && Fit.RequestFits(req) && !P.PlanUpTo(req, start, |req.datagrams|).failed
  {
    Fit.PlannedFramesFit(req, start);
    L.FramesFor(req, start).value
  }

  /** The arrivals are these frames, in order, all from one peer. */
  ghost predicate Brings(arrivals: seq<Arrival>, plans: seq<FramePlan>, scope: Option<u32>) {
    && |arrivals| == |plans|
    && forall i :: 0 <= i < |plans| ==> arrivals[i].content == Some(plans[i].frame) && arrivals[i].scope == scope
  }

  lemma BroughtIsCarried(arrivals: seq<Arrival>, plans: seq<FramePlan>, scope: Option<u32>)
    requires Brings(arrivals, plans, scope) && UserPlans(plans)
    ensures Carries(arrivals, L.WireOf(plans), scope)
  {
    hide EncodeV1, DecodeV1;
    forall i | 0 <= i < |plans| ensures CarriesOne(arrivals[i], L.WireOf(plans)[i], scope) {
      V1Bijection(plans[i].frame, []);
    }
  }

  /** Every list of datagrams for one peer, over any choice of paths, copied or fragmented as planned: when its frames
      arrive in order, the receiver emits each payload exactly once, in the order of the datagrams, counts exactly
      the surplus copies as duplicates, emits nothing for any other service, and leaves no fragment behind. */
  lemma EachPayloadOnceInOrder(cfg: Config, d: Run, req: P.Request, start: P.Counters, arrivals: seq<Arrival>,
                               scope: Option<u32>, peer: Option<u32>)
    requires Ready(cfg, d, req, start, scope, peer) && !IsReserved(req.serviceId) && Fit.RequestFits(req)
    requires !P.PlanUpTo(req, start, |req.datagrams|).failed
    requires forall e :: e in P.PlanUpTo(req, start, |req.datagrams|).planned && e.fragment.Some? ==>
               e.fragment.value !in d.core.fragments
    requires Brings(arrivals, FramesFor(req, start), scope)
    ensures var n, planned := |req.datagrams|, P.PlanUpTo(req, start, |req.datagrams|).planned;
      var r := ReceiveUpTo(cfg, d, arrivals, |arrivals|);
      && r.error.None? && r.core.fragments == d.core.fragments && n <= |planned|
      && Gains(d.out, r.out, req.serviceId, EmissionsOf(cfg, req.serviceId, scope, req.datagrams), n, |planned| - n)
  {
    hide P.PlanUpTo, P.Coalesce, L.DeliverWire, L.WireOf, DeliverItems, Gains, EmissionsOf, NothingFrom, Carries,
         L.NoFrameWraps, ReceiveUpTo, Fit.RequestFits, UserPlans, Brings;
    var n := |req.datagrams|;
    var planned, plans := P.PlanUpTo(req, start, n).planned, FramesFor(req, start);
    PlanDelivers(cfg, d, req, start, scope, peer, n);
    assert req.datagrams[..n] == req.datagrams;
    Fit.PlannedFramesFit(req, start);
    L.PlannedEntriesOk(req, start, n);
    CoalescedIsUser(req.serviceId, planned);
    BroughtIsCarried(arrivals, plans, scope);
    P.PlannedNeighboursFollow(req, start, n);
    L.SmallSequencesDoNotWrap(planned);
    L.PlanCoalesceDeliver(req, start, d.core.fragments);
    WireAsItems(cfg, d, arrivals, L.WireOf(plans), scope);
  }
}
