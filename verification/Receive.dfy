/** The receiver after authentication, frame by frame: reassembly, duplicates, gap accounting, emission. */
module Receive {
  import opened Bytes
  import opened FrameCodec
  import opened Plans
  import F = Fragmentation
  import D = Dedupe
  import T = Tracker

  const RESERVED_SERVICE_ID_END: u16 := 255

  predicate IsReserved(serviceId: u16) { serviceId <= RESERVED_SERVICE_ID_END }

  // ----- what a call reads but does not change --------------------------------

  datatype ReturnMode = Fixed | LearnedSingleSource | PeerScopedSource

  datatype Service = Service(mode: ReturnMode, target: Addr)

  datatype Config = Config(
    services: map<u16, Service>,
    disabled: set<u16>,
    sources: map<u16, Addr>,
    expectedFanout: (u16, nat) -> bool,
    holds: map<u16, nat>,
    capacity: nat)

  predicate Serves(cfg: Config, serviceId: u16) {
    serviceId in cfg.services && serviceId !in cfg.disabled
  }

  function TargetOf(cfg: Config, serviceId: u16): Addr
    requires serviceId in cfg.services
  {
    var service := cfg.services[serviceId];
    if service.mode.LearnedSingleSource? && serviceId in cfg.sources then cfg.sources[serviceId] else service.target
  }

  /** Payloads of a peer-scoped service from a known peer leave through that peer's own source socket. */
  predicate PeerSourced(cfg: Config, serviceId: u16, scope: Option<u32>)
    requires serviceId in cfg.services
  {
    cfg.services[serviceId].mode.PeerScopedSource? && scope.Some?
  }

  function HoldFor(cfg: Config, pathId: u16): nat { if pathId in cfg.holds then cfg.holds[pathId] else 0 }

  function ServeError(cfg: Config, serviceId: u16): Option<DataplaneError> {
    if serviceId !in cfg.services then Some(UnknownServiceId(serviceId))
    else if serviceId in cfg.disabled then Some(ServiceDisabled(serviceId))
    else None
  }

  // ----- counters and emissions -----------------------------------------------

  datatype Row = Row(packets: nat, bytes: nat, rxPackets: nat, rxBytes: nat, reordered: nat, needingReorder: nat,
                     expectedDuplicates: nat, unexpectedDuplicates: nat)
  {
    function Plus(r: Row): Row {
      Row(packets + r.packets, bytes + r.bytes, rxPackets + r.rxPackets, rxBytes + r.rxBytes, reordered + r.reordered,
          needingReorder + r.needingReorder, expectedDuplicates + r.expectedDuplicates,
          unexpectedDuplicates + r.unexpectedDuplicates)
    }
  }

  const ZERO: Row := Row(0, 0, 0, 0, 0, 0, 0, 0)

  datatype Cell =
    | ServiceCell(serviceId: u16, known: bool)
    | PathCell(pathId: u16)
    | ServicePathCell(serviceId: u16, known: bool, pathId: u16)
    | ControlCell
    | ControlPathCell(pathId: u16)
    | DropCell
    | DropPathCell(pathId: u16)

  /** A payload leaving a service socket: to whom, through which peer source socket if any. */
  datatype Emission = Emission(target: Addr, from: Option<u32>, payload: bytes)

  datatype Out = Out(metrics: map<Cell, Row>, emitted: map<u16, seq<Emission>>)

  datatype Effect = Bump(cell: Cell, row: Row) | Emit(serviceId: u16, emission: Emission)

  function RowAt(out: Out, cell: Cell): Row { if cell in out.metrics then out.metrics[cell] else ZERO }

  function EmittedBy(out: Out, serviceId: u16): seq<Emission> {
    if serviceId in out.emitted then out.emitted[serviceId] else []
  }

  function ApplyOne(out: Out, e: Effect): Out {
    match e
    case Bump(cell, row) => out.(metrics := out.metrics[cell := RowAt(out, cell).Plus(row)])
    case Emit(serviceId, emission) => out.(emitted := out.emitted[serviceId := EmittedBy(out, serviceId) + [emission]])
  }

  function ApplyAll(out: Out, es: seq<Effect>): Out {
    if es == [] then out else ApplyOne(ApplyAll(out, es[..|es| - 1]), es[|es| - 1])
  }

  /** Effects that may change places: counters add up, and different services do not see each other. */
  predicate Independent(e: Effect, f: Effect) {
    e.Bump? || f.Bump? || e.serviceId != f.serviceId
  }

  lemma SwapUpdates<K, V>(m: map<K, V>, k: K, v: V, l: K, w: V)
    requires k != l
    ensures m[k := v][l := w] == m[l := w][k := v]
  {
  }

  lemma PlusCommutes(r: Row, a: Row, b: Row)
    ensures r.Plus(a).Plus(b) == r.Plus(b).Plus(a)
  {
  }

  lemma BumpTwice(out: Out, cell: Cell, a: Row, b: Row)
    ensures ApplyOne(ApplyOne(out, Bump(cell, a)), Bump(cell, b)).metrics
            == out.metrics[cell := RowAt(out, cell).Plus(a).Plus(b)]
  {
    hide Row.Plus;
    var once := ApplyOne(out, Bump(cell, a));
    assert RowAt(once, cell) == RowAt(out, cell).Plus(a);
  }

  lemma SwapBumps(out: Out, e: Effect, f: Effect)
    requires e.Bump? && f.Bump?
    ensures ApplyOne(ApplyOne(out, e), f) == ApplyOne(ApplyOne(out, f), e)
  {
    hide Row.Plus;
    if e.cell == f.cell {
      BumpTwice(out, e.cell, e.row, f.row);
      BumpTwice(out, e.cell, f.row, e.row);
      PlusCommutes(RowAt(out, e.cell), e.row, f.row);
    } else {
      SwapUpdates(out.metrics, e.cell, RowAt(out, e.cell).Plus(e.row), f.cell, RowAt(out, f.cell).Plus(f.row));
    }
  }

  lemma SwapOne(out: Out, e: Effect, f: Effect)
    requires Independent(e, f)
    ensures ApplyOne(ApplyOne(out, e), f) == ApplyOne(ApplyOne(out, f), e)
  {
    if e.Bump? && f.Bump? {
      SwapBumps(out, e, f);
    } else if e.Emit? && f.Emit? {
      SwapUpdates(out.emitted, e.serviceId, EmittedBy(out, e.serviceId) + [e.emission],
                  f.serviceId, EmittedBy(out, f.serviceId) + [f.emission]);
    }
  }

  lemma ApplyNone(out: Out)
    ensures ApplyAll(out, []) == out
  {
  }

  lemma ApplySnoc(out: Out, es: seq<Effect>, e: Effect)
    ensures ApplyAll(out, es + [e]) == ApplyOne(ApplyAll(out, es), e)
  {
    assert (es + [e])[..|es|] == es;
  }

  lemma ApplyFew(out: Out, es: seq<Effect>)
    ensures |es| == 1 ==> ApplyAll(out, es) == ApplyOne(out, es[0])
    ensures |es| == 2 ==> ApplyAll(out, es) == ApplyOne(ApplyOne(out, es[0]), es[1])
    ensures |es| == 3 ==> ApplyAll(out, es) == ApplyOne(ApplyOne(ApplyOne(out, es[0]), es[1]), es[2])
  {
    hide ApplyOne;
    ApplyNone(out);
    if |es| == 3 {
      assert es[..2][..1] == es[..1] && es[..1][..0] == [];
      assert ApplyAll(out, es[..1]) == ApplyOne(out, es[0]);
      assert ApplyAll(out, es[..2]) == ApplyOne(ApplyAll(out, es[..1]), es[1]);
    } else if |es| == 2 {
      assert es[..1][..0] == [];
      assert ApplyAll(out, es[..1]) == ApplyOne(out, es[0]);
    }
  }

  lemma {:induction false} ApplyAppend(out: Out, es: seq<Effect>, fs: seq<Effect>)
    ensures ApplyAll(out, es + fs) == ApplyAll(ApplyAll(out, es), fs)
    decreases |fs|
  {
    hide ApplyAll, ApplyOne;
    if fs == [] {
      assert es + fs == es;
      ApplyNone(ApplyAll(out, es));
    } else {
      var init, f := fs[..|fs| - 1], fs[|fs| - 1];
      assert fs == init + [f] && es + fs == es + init + [f];
      ApplyAppend(out, es, init);
      ApplySnoc(out, es + init, f);
      ApplySnoc(ApplyAll(out, es), init, f);
    }
  }

  ghost predicate AllIndependent(es: seq<Effect>, f: Effect) {
    forall i :: 0 <= i < |es| ==> Independent(es[i], f)
  }

  lemma {:induction false} PastAll(out: Out, es: seq<Effect>, f: Effect)
    requires AllIndependent(es, f)
    ensures ApplyOne(ApplyAll(out, es), f) == ApplyAll(ApplyOne(out, f), es)
    decreases |es|
  {
    hide ApplyAll, ApplyOne, Independent;
    if es == [] {
      ApplyNone(out);
      ApplyNone(ApplyOne(out, f));
    } else {
      var init, e := es[..|es| - 1], es[|es| - 1];
      assert es == init + [e];
      assert AllIndependent(init, f) && Independent(e, f);
      PastAll(out, init, f);
      ApplySnoc(out, init, e);
      ApplySnoc(ApplyOne(out, f), init, e);
      SwapOne(ApplyAll(out, init), e, f);
    }
  }

  /** Delaying a run of effects past another changes nothing when each pair may change places. */
  lemma {:induction false} PastSeq(out: Out, es: seq<Effect>, fs: seq<Effect>)
    requires forall j :: 0 <= j < |fs| ==> AllIndependent(es, fs[j])
    ensures ApplyAll(ApplyAll(out, es), fs) == ApplyAll(ApplyAll(out, fs), es)
    decreases |fs|
  {
    hide ApplyAll, ApplyOne, AllIndependent;
    if fs == [] {
      ApplyNone(ApplyAll(out, es));
      ApplyNone(out);
    } else {
      var init, f := fs[..|fs| - 1], fs[|fs| - 1];
      assert fs == init + [f];
      assert forall j :: 0 <= j < |init| ==> AllIndependent(es, init[j]) by {
        assert forall j :: 0 <= j < |init| ==> init[j] == fs[j];
      }
      PastSeq(out, es, init);
      ApplySnoc(ApplyAll(out, es), init, f);
      ApplySnoc(out, init, f);
      assert AllIndependent(es, f);
      PastAll(ApplyAll(out, init), es, f);
    }
  }

  // ----- receive state --------------------------------------------------------

  datatype Event = Event(serviceId: u16, pathId: u16, sequence: u64, payload: bytes, frameBytes: nat,
                         scope: Option<u32>)

  datatype Core = Core(
    fragments: F.Buffers,
    window: seq<D.Key>,
    trackers: map<Option<u32>, u64>,
    events: seq<Event>,
    remotes: map<(u32, u16), Addr>)

  /** A received packet after authentication: dropped, or a frame, the session it came from, and what the clock reads
      when each of its payloads is put in a reorder buffer. */
  datatype Arrival = Arrival(pathId: u16, source: Addr, length: nat, content: Option<Frame>, scope: Option<u32>,
                             clock: nat -> nat)

  function ExpectedAt(core: Core, scope: Option<u32>): Option<u64> {
    if scope in core.trackers then Some(core.trackers[scope]) else None
  }

  function ReceiveRow(len: nat, o: T.Observation): Row {
    Row(1, len, 1, len, if o.outOfOrder then 1 else 0, if o.outOfOrder then 1 else o.missing, 0, 0)
  }

  function DuplicateEffects(cfg: Config, serviceId: u16, pathId: u16, len: nat): seq<Effect> {
    var known := serviceId in cfg.services;
    var expected := cfg.expectedFanout(serviceId, len);
    var e, u := if expected then 1 else 0, if expected then 0 else 1;
    [Bump(PathCell(pathId), Row(0, 0, 1, len, 0, 0, e, u)),
     Bump(ServiceCell(serviceId, known), Row(0, 0, 0, 0, 0, 0, e, u)),
     Bump(ServicePathCell(serviceId, known, pathId), Row(0, 0, 1, len, 0, 0, e, u))]
  }

  datatype Observed = Observed(core: Core, effects: seq<Effect>, news: Option<T.Observation>)

  /** First sight or duplicate, and the gap account of a first sight. */
  function ObserveUser(cfg: Config, core: Core, serviceId: u16, pathId: u16, sequence: u64, len: nat,
                       scope: Option<u32>)
    : (r: Observed)
    ensures forall i :: 0 <= i < |r.effects| ==> r.effects[i].Bump?
  {
    var key := D.Key(serviceId, scope, sequence);
    if key in core.window then Observed(core, DuplicateEffects(cfg, serviceId, pathId, len), None)
    else
      var (next, o) := T.Observe(ExpectedAt(core, scope), sequence);
      Observed(core.(window := D.Remember(core.window, cfg.capacity, key), trackers := core.trackers[scope := next]),
               [Bump(PathCell(pathId), ReceiveRow(len, o))], Some(o))
  }

  /** A payload as its service's socket sends it. */
  function EmissionOf(cfg: Config, serviceId: u16, scope: Option<u32>, payload: bytes): Emission
    requires serviceId in cfg.services
  {
    Emission(TargetOf(cfg, serviceId), if PeerSourced(cfg, serviceId, scope) then scope else None, payload)
  }

  function EmitEffects(cfg: Config, serviceId: u16, pathId: u16, payload: bytes, scope: Option<u32>, o: T.Observation)
    : (es: seq<Effect>)
    requires serviceId in cfg.services
  {
    [Emit(serviceId,
          Emission(TargetOf(cfg, serviceId), if PeerSourced(cfg, serviceId, scope) then scope else None, payload)),
     Bump(ServiceCell(serviceId, true), ReceiveRow(|payload|, o)),
     Bump(ServicePathCell(serviceId, true, pathId), ReceiveRow(|payload|, o))]
  }

  /** A payload for Gatherlink itself: queued for the control plane, counted, and part of the sequence account. */
  function ReservedCore(core: Core, e: Event): Core {
    core.(events := core.events + [e],
          trackers := core.trackers[e.scope := T.Observe(ExpectedAt(core, e.scope), e.sequence).0])
  }

  function ReservedEffects(e: Event): seq<Effect> {
    var row := Row(1, e.frameBytes, 0, 0, 0, 0, 0, 0);
    [Bump(ControlCell, row), Bump(ControlPathCell(e.pathId), row)]
  }

  // ----- the detailed form ----------------------------------------------------

  datatype Outcome = Outcome(serviceId: u16, target: Addr, payloadLen: nat, sequence: u64, pathId: u16)

  datatype Run = Run(core: Core, out: Out, outcomes: seq<Outcome>, error: Option<DataplaneError>)

  function DeliverReserved(d: Run, e: Event): Run {
    d.(core := ReservedCore(d.core, e), out := ApplyAll(d.out, ReservedEffects(e)))
  }

  /** One user payload: observed, and emitted at once if it is new. */
  function DeliverUser(cfg: Config, d: Run, serviceId: u16, pathId: u16, sequence: u64, payload: bytes,
                       scope: Option<u32>): Run {
    var seen := ObserveUser(cfg, d.core, serviceId, pathId, sequence, |payload|, scope);
    var d1 := d.(core := seen.core, out := ApplyAll(d.out, seen.effects));
    if seen.news.None? then d1
    else if ServeError(cfg, serviceId).Some? then d1.(error := ServeError(cfg, serviceId))
    else d1.(out := ApplyAll(d1.out, EmitEffects(cfg, serviceId, pathId, payload, scope, seen.news.value)),
             outcomes := d1.outcomes + [Outcome(serviceId, TargetOf(cfg, serviceId), |payload|, sequence, pathId)])
  }

  function DeliverPayload(cfg: Config, d: Run, f: Frame, sequence: u64, payload: bytes, a: Arrival): Run {
    if IsReserved(f.serviceId) then
      DeliverReserved(d, Event(f.serviceId, f.pathId, sequence, payload, a.length, a.scope))
    else DeliverUser(cfg, d, f.serviceId, f.pathId, sequence, payload, a.scope)
  }

  /** The first `n` payloads of a batch frame, each under its implicit sequence. */
  function DeliverBatch(cfg: Config, d: Run, f: Frame, payloads: seq<bytes>, a: Arrival, n: nat): Run
    requires n <= |payloads|
    decreases n
  {
    if n == 0 then d
    else
      var before := DeliverBatch(cfg, d, f, payloads, a, n - 1);
      if before.error.Some? then before
      else DeliverPayload(cfg, before, f, WrappingAdd(f.sequence, n - 1), payloads[n - 1], a)
  }

  function Learn(core: Core, a: Arrival): Core {
    if a.scope.Some? then core.(remotes := core.remotes[(a.scope.value, a.pathId) := a.source]) else core
  }

  function DropEffects(a: Arrival): seq<Effect> {
    var row := Row(1, a.length, 0, 0, 0, 0, 0, 0);
    [Bump(DropCell, row), Bump(DropPathCell(a.pathId), row)]
  }

  function ReceiveFrame(cfg: Config, d: Run, f: Frame, a: Arrival): Run {
    match f.kind
    case Control => DeliverReserved(d, Event(f.serviceId, f.pathId, f.sequence, f.payload, a.length, a.scope))
    case Batch =>
      var payloads := DecodeBatch(f.payload);
      if payloads.Err? then d.(error := Some(Protocol(payloads.error)))
      else DeliverBatch(cfg, d, f, payloads.value, a, |payloads.value|)
    case Data =>
      var (fragments, result) := F.Push(d.core.fragments, f);
      var d1 := d.(core := d.core.(fragments := fragments));
      if result.Err? then d1.(error := Some(result.error))
      else if result.value.None? then d1
      else DeliverPayload(cfg, d1, f, f.sequence, result.value.value, a)
  }

  function ReceiveOne(cfg: Config, d: Run, a: Arrival): Run {
    if a.content.None? then d.(out := ApplyAll(d.out, DropEffects(a)))
    else ReceiveFrame(cfg, d.(core := Learn(d.core, a)), a.content.value, a)
  }

  /** The first `n` arrivals; an error ends the call. */
  function ReceiveUpTo(cfg: Config, d: Run, arrivals: seq<Arrival>, n: nat): Run
    requires n <= |arrivals|
    decreases n
  {
    if n == 0 then d
    else
      var before := ReceiveUpTo(cfg, d, arrivals, n - 1);
      if before.error.Some? then before else ReceiveOne(cfg, before, arrivals[n - 1])
  }

  lemma {:induction false} ErrorEndsCall(cfg: Config, d: Run, arrivals: seq<Arrival>, m: nat, n: nat)
    requires m <= n <= |arrivals| && ReceiveUpTo(cfg, d, arrivals, m).error.Some?
    ensures ReceiveUpTo(cfg, d, arrivals, n) == ReceiveUpTo(cfg, d, arrivals, m)
    decreases n
  {
    hide ReceiveOne;
    if m < n {
      ErrorEndsCall(cfg, d, arrivals, m, n - 1);
    }
  }

  lemma {:induction false} ErrorEndsBatch(cfg: Config, d: Run, f: Frame, payloads: seq<bytes>, a: Arrival, m: nat,
                                          n: nat)
    requires m <= n <= |payloads| && DeliverBatch(cfg, d, f, payloads, a, m).error.Some?
    ensures DeliverBatch(cfg, d, f, payloads, a, n) == DeliverBatch(cfg, d, f, payloads, a, m)
    decreases n
  {
    hide DeliverPayload;
    if m < n {
      ErrorEndsBatch(cfg, d, f, payloads, a, m, n - 1);
    }
  }
}
