/** What becomes of a datagram that is fragmented for two paths of different size and whose fragments mix. */
module UnevenFanout {
  import opened Bytes
  import opened FrameCodec
  import opened Plans
  import opened Receive
  import opened EndToEnd
  import A = AnyOrderPlan
  import M = MixedCopies
  import P = Planning
  import Fit = FrameFit
  import F = Fragmentation
  import L = Delivery
  import D = Dedupe

  /** One datagram, too large for the first of its two paths, whose length is the sum of their fragment sizes. */
  ghost predicate Uneven(req: P.Request, p: Path, q: Path) {
    && req.Valid() && |req.datagrams| == 1 && req.choices == [[p, q]] && p.Valid() && q.Valid()
    && |req.datagrams[0].payload| > p.MaxDataPayload() && q.MaxFragmentPayload() < p.MaxFragmentPayload()
    && |req.datagrams[0].payload| == p.MaxFragmentPayload() + q.MaxFragmentPayload()
  }

  function CopyOn(req: P.Request, start: P.Counters, path: Path): Planned
    requires |req.datagrams| == 1
  {
    var d := req.datagrams[0];
    Planned(d.payload, d.source, d.peerScope, P.SequenceFor(start, d.peerScope), req.serviceId, path,
            Some(start.nextDatagramId), true)
  }

  lemma PlansTwoCopies(req: P.Request, start: P.Counters, p: Path, q: Path)
    requires Uneven(req, p, q)
    ensures var st := P.PlanUpTo(req, start, 1);
        !st.failed && st.planned == [CopyOn(req, start, p), CopyOn(req, start, q)]
  {
    hide P.UpdateBurst, P.KeepsPath, P.SequenceFor;
    P.PlanUpToStart(req, start);
    P.PlanUpToNext(req, start, 0);
    assert P.SelectPaths(req, P.NO_BURST, req.datagrams[0], req.choices[0]).0 == [p, q];
    assert P.PlanUpTo(req, start, 1).planned == [] + P.Copies(req.serviceId, req.datagrams[0], [p, q],
      P.SequenceFor(start, req.datagrams[0].peerScope), Some(start.nextDatagramId));
  }

  lemma FramesOfTwo(serviceId: u16, a: Planned, b: Planned)
    requires P.PathsValid([a, b]) && a.path.Valid() && b.path.Valid() && a.fragment.Some? && b.fragment.Some?
    requires P.Coalesce(serviceId, [a, b]).Some?
    ensures F.Fragmentable(a) && F.Fragmentable(b)
    ensures P.Coalesce(serviceId, [a, b]).value == P.FragmentPlans(a) + P.FragmentPlans(b)
  {
    hide P.GroupFrames, P.GroupSize, F.Fragmentable, P.FragmentPlans, P.Coalesce;
    var both := [a, b];
    P.CoalesceStep(serviceId, both);
    P.GroupOfOne(serviceId, both);
    assert both[1..] == [b] && b in both;
    P.CoalesceStep(serviceId, [b]);
    P.GroupOfOne(serviceId, [b]);
    P.CoalesceEmpty(serviceId);
    assert [b][1..] == [];
    assert P.FragmentPlans(b) + [] == P.FragmentPlans(b);
  }

  /** The first piece at the larger size and the second at the smaller one. */
  function Garbled(payload: bytes, s: nat, t: nat): bytes
    requires s + t == |payload| && t < s
  {
    payload[..s] + payload[t..2 * t]
  }

  lemma ChunksMeet(payload: bytes, s: nat, t: nat)
    requires s + t == |payload| && 0 < t < s
    ensures F.Chunks(payload, s) == [payload[..s], payload[s..]]
    ensures |F.Chunks(payload, t)| > 2 && F.Chunks(payload, t)[1] == payload[t..2 * t]
  {
    hide F.Chunks, DivCeil;
    F.ChunksStep(payload, s);
    F.ChunksStep(payload[s..], s);
    F.ChunksStep(payload, t);
    F.ChunksStep(payload[t..], t);
    M.FirstChunk(payload[2 * t..], t);
    assert payload[t..][..t] == payload[t..2 * t] && payload[t..][t..] == payload[2 * t..];
  }

  lemma HalfFull(len: nat, first: bytes, second: bytes)
    ensures F.BufferOk(F.Buffer(len, [None, None], 0)) && F.BufferOk(F.Buffer(len, [Some(first), None], 1))
    ensures F.BufferOk(F.Buffer(len, [Some(first), Some(second)], 2))
    ensures F.Joined([Some(first), Some(second)]) == first + second
  {
    F.CountSomeUpdate([None, None], 0, first);
    F.CountSomeUpdate([Some(first), None], 1, second);
    assert [None, None][0 := Some(first)] == [Some(first), None];
    assert [Some(first), None][1 := Some(second)] == [Some(first), Some(second)];
    F.JoinedAppend([Some(first)], second);
    assert [Some(first)] + [Some(second)] == [Some(first), Some(second)];
    assert [Some(first)][1..] == [] && first + [] == first;
  }

  /** Any two pieces of the right total length fill a buffer of two. */
  lemma FillsBuffer(len: nat, first: FragmentInfo, x: bytes, second: FragmentInfo, y: bytes)
    requires first.count == 2 && first.index == 0 && second.index == 1
    requires first.originalLen == len == second.originalLen && |x| + |y| == len
    ensures F.BufferOk(F.NewBuffer(first)) && F.BufferOk(F.Buffer(len, [Some(x), None], 1))
    ensures F.BufferPush(F.NewBuffer(first), first, x) == (F.Buffer(len, [Some(x), None], 1), Ok(None))
    ensures F.BufferPush(F.Buffer(len, [Some(x), None], 1), second, y).1 == Ok(Some(x + y))
  {
    hide F.CountSome, F.Joined;
    HalfFull(len, x, y);
    assert F.NewBuffer(first).chunks == [None, None];
    assert [None, None][0 := Some(x)] == [Some(x), None];
    assert [Some(x), None][1 := Some(y)] == [Some(x), Some(y)];
  }

  /** The two meet in one buffer, fill it, and pass for the datagram. */
  lemma PiecesMeet(m: F.Buffers, a: Planned, b: Planned)
    requires M.Copies(a, b) && a.fragment.value !in m
    requires var s, t := a.path.MaxFragmentPayload(), b.path.MaxFragmentPayload(); s + t == |a.payload| && t < s
    ensures F.Count(a) == 2 && F.Count(b) > 2
    ensures var (m1, r1) := F.Push(m, M.Piece(a, 0));
      r1 == Ok(None) && F.Push(m1, M.Piece(b, 1)) ==
                          (m, Ok(Some(Garbled(a.payload, a.path.MaxFragmentPayload(), b.path.MaxFragmentPayload()))))
  {
    hide F.Chunks, DivCeil, F.CountSome, F.BufferPush, F.BufferOk;
    var id := a.fragment.value;
    ChunksMeet(a.payload, a.path.MaxFragmentPayload(), b.path.MaxFragmentPayload());
    var f, g := M.Piece(a, 0), M.Piece(b, 1);
    FillsBuffer(|a.payload|, f.fragment.value, f.payload, g.fragment.value, g.payload);
    assert m[id := F.Buffer(|a.payload|, [Some(f.payload), None], 1)] - {id} == m;
  }

  /** Both fragments are received without error, and a payload is emitted that is not the one sent, unless the bytes
      that were swapped are equal. */
  lemma MixedFragmentsEmitGarbled(cfg: Config, d: Run, req: P.Request, start: P.Counters, p: Path, q: Path,
                                  arrivals: seq<Arrival>, scope: Option<u32>)
    requires Uneven(req, p, q) && Fit.RequestFits(req) && !IsReserved(req.serviceId)
    requires !P.PlanUpTo(req, start, 1).failed && Ready(cfg, d, req, start, scope, req.datagrams[0].peerScope)
    requires start.nextDatagramId !in d.core.fragments
    requires A.BringsAt(arrivals, FramesFor(req, start), [0, 3], scope)
    ensures var sent, s, t := req.datagrams[0].payload, p.MaxFragmentPayload(), q.MaxFragmentPayload();
      && ReceiveUpTo(cfg, d, arrivals, 2).error.None?
      && Gains(d.out, ReceiveUpTo(cfg, d, arrivals, 2).out, req.serviceId,
               [EmissionOf(cfg, req.serviceId, scope, Garbled(sent, s, t))], 1, 0)
      && (Garbled(sent, s, t) == sent <==> sent[t..2 * t] == sent[s..])
  {
    hide P.PlanUpTo, P.Coalesce, ReceiveOne, F.Push, Gains, EmissionOf, D.Remember, DeliverItem, Garbled, Serves,
         Fit.RequestFits, F.Chunks, DivCeil, P.SequenceFor;
    var a, b := CopyOn(req, start, p), CopyOn(req, start, q);
    PlansTwoCopies(req, start, p, q);
    assert a.path.Valid() && b.path.Valid();
    Fit.PlannedFramesFit(req, start);
    FramesOfTwo(req.serviceId, a, b);
    PiecesMeet(d.core.fragments, a, b);
    var f, g := M.Piece(a, 0), M.Piece(b, 1);
    SecondOfSecond(a, b);
    TwoArrivals(cfg, d, arrivals, f, g);
    var item := L.Item(req.serviceId, q.id, a.sequence,
      Garbled(a.payload, p.MaxFragmentPayload(), q.MaxFragmentPayload()));
    SingleItem(cfg, d, scope, item);
    NewItem(cfg, d, scope, item);
    GarbledDiffers(a.payload, p.MaxFragmentPayload(), q.MaxFragmentPayload());
  }

  lemma GarbledDiffers(payload: bytes, s: nat, t: nat)
    requires s + t == |payload| && t < s
    ensures Garbled(payload, s, t) == payload <==> payload[t..2 * t] == payload[s..]
  {
    assert payload == payload[..s] + payload[s..];
    assert Garbled(payload, s, t)[s..] == payload[t..2 * t];
  }

  lemma SecondOfSecond(a: Planned, b: Planned)
    requires a.path.Valid() && F.Fragmentable(a) && b.path.Valid() && F.Fragmentable(b) && F.Count(a) == 2
    requires F.Count(b) > 2
    ensures var plans := P.FragmentPlans(a) + P.FragmentPlans(b);
      |plans| > 3 && plans[0].frame == M.Piece(a, 0) && plans[3].frame == M.Piece(b, 1)
  {
    hide F.Count, F.Fragmentable, F.FragmentFrame;
  }

  /** Two fragments received one after the other, when only the second completes a payload. */
  lemma TwoArrivals(cfg: Config, d: Run, arrivals: seq<Arrival>, f: Frame, g: Frame)
    requires |arrivals| == 2 && d.error.None? && arrivals[0].content == Some(f) && arrivals[1].content == Some(g)
    requires UserFrame(f) && UserFrame(g) && f.kind.Data? && g.kind.Data?
    requires var (m1, r1) := F.Push(d.core.fragments, f);
        r1 == Ok(None) && F.Push(m1, g).1.Ok? && F.Push(m1, g).1.value.Some?
    ensures var payload := F.Push(F.Push(d.core.fragments, f).0, g).1.value.value;
      Same(ReceiveUpTo(cfg, d, arrivals, 2),
        DeliverItems(cfg, d, arrivals[1].scope, [L.Item(g.serviceId, g.pathId, g.sequence, payload)]))
  {
    hide ReceiveOne, F.Push, DeliverItems;
    var d1 := ReceiveOne(cfg, d, arrivals[0]);
    ArrivalAsItems(cfg, d, arrivals[0], f);
    NoItems(cfg, d, arrivals[0].scope);
    ArrivalAsItems(cfg, d1, arrivals[1], g);
    var items := L.DeliverFrame(d1.core.fragments, g).items;
    ItemsKeep(cfg, d1, d, arrivals[1].scope, items);
    assert ReceiveUpTo(cfg, d, arrivals, 1) == d1;
  }

  lemma NoItems(cfg: Config, d: Run, scope: Option<u32>)
    ensures DeliverItems(cfg, d, scope, []) == d
  {
  }

  // ----- an input -------------------------------------------------------------

  const WIDE: Path := Path(1, 54, None, true, Active)

  const NARROW: Path := Path(2, 36, None, true, Active)

  function Ramp(): bytes { seq(42, i requires 0 <= i < 42 => i) }

  /** 42 bytes of one service over paths of 54 and 36. */
  function RampRequest(policy: P.Policy): P.Request {
    P.Request(300, [Received(Ramp(), 0, None)], [[WIDE, NARROW]], policy)
  }

  lemma UnevenRequest(policy: P.Policy)
    ensures var req := RampRequest(policy);
      Uneven(req, WIDE, NARROW) && Fit.RequestFits(req) && !IsReserved(req.serviceId) && !A.EvenlySplit(req)
    ensures Garbled(Ramp(), 30, 12) != Ramp()
  {
    var req := RampRequest(policy);
    assert WIDE in req.choices[0] && NARROW in req.choices[0];
    assert Fit.Oversized(req.choices[0], |req.datagrams[0].payload|);
    assert Garbled(Ramp(), 30, 12)[30] == 12 && Ramp()[30] == 30;
  }

  /** A planner and a receiver that have seen nothing. */
  const FIRST: P.Counters := P.Counters(map[], 1)

  const EMPTY: Run := Run(Core(map[], [], map[], [], map[]), Out(map[], map[]), [], None)

  const FIXED: Config := Config(map[300 := Service(Fixed, 9)], {}, map[], (s, n) => true, map[], 1024)

  function Bringing(plan: FramePlan): Arrival { Arrival(plan.path.id, 0, 0, Some(plan.frame), None, i => 0) }

  /** From a fresh start: 42 bytes are sent, two of the six fragments arrive, and 42 other bytes come out. */
  lemma RampComesOutGarbled(policy: P.Policy)
    ensures var req := RampRequest(policy);
      && req.Valid() && Fit.RequestFits(req) && !P.PlanUpTo(req, FIRST, 1).failed && |FramesFor(req, FIRST)| > 3
      && var arrivals := [Bringing(FramesFor(req, FIRST)[0]), Bringing(FramesFor(req, FIRST)[3])];
      var r := ReceiveUpTo(FIXED, EMPTY, arrivals, 2);
      && r.error.None?
      && EmittedBy(r.out, 300) == [Emission(9, None, Garbled(Ramp(), 30, 12))] && Garbled(Ramp(), 30, 12) != Ramp()
  {
    hide P.PlanUpTo, ReceiveUpTo, Garbled, Fit.RequestFits, P.Coalesce, Ramp, Uneven;
    var req := RampRequest(policy);
    UnevenRequest(policy);
    UnevenIsPlanned(req, FIRST, WIDE, NARROW);
    var arrivals := [Bringing(FramesFor(req, FIRST)[0]), Bringing(FramesFor(req, FIRST)[3])];
    MixedFragmentsEmitGarbled(FIXED, EMPTY, req, FIRST, WIDE, NARROW, arrivals, None);
  }

  lemma UnevenIsPlanned(req: P.Request, start: P.Counters, p: Path, q: Path)
    requires Uneven(req, p, q) && Fit.RequestFits(req)
    ensures req.Valid() && |req.datagrams| == 1
    ensures |req.datagrams[0].payload| == p.MaxFragmentPayload() + q.MaxFragmentPayload()
    ensures !P.PlanUpTo(req, start, 1).failed && |FramesFor(req, start)| > 3
  {
    hide P.PlanUpTo, Fit.RequestFits, P.Coalesce, F.Chunks, P.SequenceFor, DivCeil;
    var a, b := CopyOn(req, start, p), CopyOn(req, start, q);
    PlansTwoCopies(req, start, p, q);
    assert a.path.Valid() && b.path.Valid();
    Fit.PlannedFramesFit(req, start);
    FramesOfTwo(req.serviceId, a, b);
    ChunksMeet(a.payload, p.MaxFragmentPayload(), q.MaxFragmentPayload());
  }
}
