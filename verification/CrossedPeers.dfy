/** A hub with two peers that number their datagrams alike: bytes of one come out as a payload of the other. */
module CrossedPeers {
  import opened Bytes
  import opened FrameCodec
  import opened Plans
  import opened Receive
  import opened EndToEnd
  import U = UnevenFanout
  import M = MixedCopies
  import P = Planning
  import Fit = FrameFit
  import F = Fragmentation
  import L = Delivery
  import D = Dedupe

  /** One datagram on one path, fragmented in two. */
  ghost predicate CutInTwo(req: P.Request, p: Path) {
    && req.Valid() && |req.datagrams| == 1 && req.choices == [[p]] && p.Valid()
    && p.MaxDataPayload() < |req.datagrams[0].payload| <= 2 * p.MaxFragmentPayload()
  }

  function CopyOn(req: P.Request, start: P.Counters, path: Path): Planned
    requires |req.datagrams| == 1
  {
    var d := req.datagrams[0];
    Planned(d.payload, d.source, d.peerScope, P.SequenceFor(start, d.peerScope), req.serviceId, path,
            Some(start.nextDatagramId), false)
  }

  lemma PlansOneCopy(req: P.Request, start: P.Counters, p: Path)
    requires CutInTwo(req, p)
    ensures var st := P.PlanUpTo(req, start, 1); !st.failed && st.planned == [CopyOn(req, start, p)]
  {
    hide P.UpdateBurst, P.KeepsPath, P.SequenceFor;
    P.PlanUpToStart(req, start);
    P.PlanUpToNext(req, start, 0);
    assert P.SelectPaths(req, P.NO_BURST, req.datagrams[0], req.choices[0]).0 == [p];
    assert P.PlanUpTo(req, start, 1).planned == [] + P.Copies(req.serviceId, req.datagrams[0], [p],
      P.SequenceFor(start, req.datagrams[0].peerScope), Some(start.nextDatagramId));
  }

  lemma FramesOfOne(serviceId: u16, a: Planned)
    requires P.PathsValid([a]) && a.path.Valid() && a.fragment.Some? && P.Coalesce(serviceId, [a]).Some?
    ensures F.Fragmentable(a) && P.Coalesce(serviceId, [a]).value == P.FragmentPlans(a)
  {
    hide P.GroupFrames, P.GroupSize, F.Fragmentable, P.FragmentPlans, P.Coalesce;
    P.CoalesceStep(serviceId, [a]);
    P.GroupOfOne(serviceId, [a]);
    P.CoalesceEmpty(serviceId);
    assert [a][1..] == [];
    assert P.FragmentPlans(a) + [] == P.FragmentPlans(a);
  }

  lemma TwoChunks(payload: bytes, size: nat)
    requires 0 < size < |payload| <= 2 * size
    ensures F.Chunks(payload, size) == [payload[..size], payload[size..]]
  {
    hide F.Chunks, DivCeil;
    F.ChunksStep(payload, size);
    F.ChunksStep(payload[size..], size);
  }

  /** What such a request sends: two frames, its payload's two parts. */
  lemma SendsTwo(req: P.Request, start: P.Counters, p: Path)
    requires CutInTwo(req, p) && Fit.RequestFits(req)
    ensures !P.PlanUpTo(req, start, 1).failed
    ensures var a, payload := CopyOn(req, start, p), req.datagrams[0].payload;
      && F.Fragmentable(a) && F.Count(a) == 2 && |FramesFor(req, start)| == 2
      && FramesFor(req, start)[0].frame == M.Piece(a, 0) && FramesFor(req, start)[1].frame == M.Piece(a, 1)
      && M.Piece(a, 0).payload == payload[..p.MaxFragmentPayload()]
      && M.Piece(a, 1).payload == payload[p.MaxFragmentPayload()..]
  {
    hide P.PlanUpTo, Fit.RequestFits, P.Coalesce, F.Chunks, DivCeil, P.SequenceFor;
    var a := CopyOn(req, start, p);
    PlansOneCopy(req, start, p);
    assert a.path.Valid();
    Fit.PlannedFramesFit(req, start);
    FramesOfOne(req.serviceId, a);
    TwoChunks(a.payload, p.MaxFragmentPayload());
  }

  function Crossed(a: bytes, b: bytes, size: nat): bytes
    requires size <= |a| && size <= |b|
  {
    a[..size] + b[size..]
  }

  lemma PiecesCross(m: F.Buffers, a: Planned, b: Planned)
    requires a.path.Valid() && F.Fragmentable(a) && b.path.Valid() && F.Fragmentable(b) && a.fragment == b.fragment
    requires F.Count(a) == 2 && F.Count(b) == 2 && |a.payload| == |b.payload| && a.fragment.value !in m
    requires |M.Piece(a, 0).payload| + |M.Piece(b, 1).payload| == |a.payload|
    ensures var (m1, r1) := F.Push(m, M.Piece(a, 0));
      && r1 == Ok(None)
      && F.Push(m1, M.Piece(b, 1)) == (m, Ok(Some(M.Piece(a, 0).payload + M.Piece(b, 1).payload)))
  {
    hide F.Chunks, DivCeil, F.CountSome, F.BufferPush, F.BufferOk;
    var id := a.fragment.value;
    var f, g := M.Piece(a, 0), M.Piece(b, 1);
    U.FillsBuffer(|a.payload|, f.fragment.value, f.payload, g.fragment.value, g.payload);
    assert m[id := F.Buffer(|a.payload|, [Some(f.payload), None], 1)] - {id} == m;
  }

  /** Two peers' datagrams of one length, cut alike, under one datagram id: the first fragment of the first and the
      second of the second are received without error, and emitted as a payload of the second peer, which is the one it
      sent only if the other's bytes happen to be the same. */
  lemma PeersCross(cfg: Config, d: Run, first: P.Request, startA: P.Counters, p: Path, second: P.Request,
                   startB: P.Counters, q: Path, arrivals: seq<Arrival>)
    requires CutInTwo(first, p) && Fit.RequestFits(first) && !P.PlanUpTo(first, startA, 1).failed
    requires CutInTwo(second, q) && Fit.RequestFits(second) && !P.PlanUpTo(second, startB, 1).failed
    requires |first.datagrams[0].payload| == |second.datagrams[0].payload| && p.mtu == q.mtu
    requires startA.nextDatagramId == startB.nextDatagramId && startA.nextDatagramId !in d.core.fragments
    requires !IsReserved(first.serviceId) && !IsReserved(second.serviceId)
    requires |FramesFor(first, startA)| == 2 == |FramesFor(second, startB)| && |arrivals| == 2
    requires arrivals[0].content == Some(FramesFor(first, startA)[0].frame)
    requires arrivals[1].content == Some(FramesFor(second, startB)[1].frame)
    requires Ready(cfg, d, second, startB, arrivals[1].scope, second.datagrams[0].peerScope)
    ensures var x, y, s := first.datagrams[0].payload, second.datagrams[0].payload, p.MaxFragmentPayload();
      && ReceiveUpTo(cfg, d, arrivals, 2).error.None?
      && Gains(d.out, ReceiveUpTo(cfg, d, arrivals, 2).out, second.serviceId,
               [EmissionOf(cfg, second.serviceId, arrivals[1].scope, Crossed(x, y, s))], 1, 0)
      && (Crossed(x, y, s) == y <==> x[..s] == y[..s])
  {
    hide P.PlanUpTo, P.Coalesce, ReceiveUpTo, F.Push, Gains, EmissionOf, D.Remember, DeliverItem, Serves,
         Fit.RequestFits, F.Chunks, DivCeil, P.SequenceFor, NothingFrom;
    hide ReceiveOne, ObserveUser, ApplyAll, TargetOf, D.Recent, P.Copies, DeliverItems;
    var a, b := CopyOn(first, startA, p), CopyOn(second, startB, q);
    SendsTwo(first, startA, p);
    SendsTwo(second, startB, q);
    PiecesCross(d.core.fragments, a, b);
    var f, g := M.Piece(a, 0), M.Piece(b, 1);
    U.TwoArrivals(cfg, d, arrivals, f, g);
    OneFreshItem(cfg, d, second, startB, arrivals[1].scope, q.id, f.payload + g.payload);
    CrossedIs(first.datagrams[0].payload, second.datagrams[0].payload, p.MaxFragmentPayload());
  }

  lemma OneFreshItem(cfg: Config, d: Run, req: P.Request, start: P.Counters, scope: Option<u32>, pathId: u16,
                     payload: bytes)
    requires |req.datagrams| == 1 && Ready(cfg, d, req, start, scope, req.datagrams[0].peerScope)
    ensures var item := L.Item(req.serviceId, pathId, P.SequenceFor(start, req.datagrams[0].peerScope), payload);
      var r := DeliverItems(cfg, d, scope, [item]);
      r.error.None? && Gains(d.out, r.out, req.serviceId, [EmissionOf(cfg, req.serviceId, scope, payload)], 1, 0)
  {
    hide Gains, EmissionOf, D.Remember, DeliverItem, Serves, P.SequenceFor, NothingFrom;
    var item := L.Item(req.serviceId, pathId, P.SequenceFor(start, req.datagrams[0].peerScope), payload);
    SingleItem(cfg, d, scope, item);
    FreshSequence(cfg, d, req, start, scope);
    NewItem(cfg, d, scope, item);
  }

  lemma FreshSequence(cfg: Config, d: Run, req: P.Request, start: P.Counters, scope: Option<u32>)
    requires |req.datagrams| == 1 && Ready(cfg, d, req, start, scope, req.datagrams[0].peerScope)
    ensures D.Key(req.serviceId, scope, P.SequenceFor(start, req.datagrams[0].peerScope)) !in d.core.window
  {
    hide P.SequenceFor;
  }

  lemma CrossedIs(x: bytes, y: bytes, s: nat)
    requires s <= |x| && s <= |y|
    ensures Crossed(x, y, s) == y <==> x[..s] == y[..s]
  {
    assert y == y[..s] + y[s..];
    assert Crossed(x, y, s)[..s] == x[..s];
  }

  // ----- an input -------------------------------------------------------------

  const LINK: Path := Path(1, 54, None, true, Active)

  function Fill(b: byte): bytes { seq(42, i requires 0 <= i < 42 => b) }

  function FillRequest(b: byte, policy: P.Policy): P.Request {
    P.Request(300, [Received(Fill(b), 0, None)], [[LINK]], policy)
  }

  lemma FillIsCutInTwo(b: byte, policy: P.Policy)
    ensures CutInTwo(FillRequest(b, policy), LINK) && Fit.RequestFits(FillRequest(b, policy))
  {
  }

  function From(scope: u32, plan: FramePlan): Arrival {
    Arrival(plan.path.id, 0, 0, Some(plan.frame), Some(scope), i => 0)
  }

  /** Each peer's first fragmented datagram has id 1. One peer sends 42 ones and another 42 twos; half of each arrives,
      and 30 ones and 12 twos come out. */
  lemma FirstDatagramsCross(policy: P.Policy)
    ensures var ones, twos := FillRequest(1, policy), FillRequest(2, policy);
      && ones.Valid() && Fit.RequestFits(ones) && !P.PlanUpTo(ones, U.FIRST, 1).failed
      && twos.Valid() && Fit.RequestFits(twos) && !P.PlanUpTo(twos, U.FIRST, 1).failed
      && |FramesFor(ones, U.FIRST)| == 2 == |FramesFor(twos, U.FIRST)|
      && var arrivals := [From(1, FramesFor(ones, U.FIRST)[0]), From(2, FramesFor(twos, U.FIRST)[1])];
      var r := ReceiveUpTo(U.FIXED, U.EMPTY, arrivals, 2);
      && r.error.None?
      && EmittedBy(r.out, 300) == [Emission(9, None, Crossed(Fill(1), Fill(2), 30))]
      && Crossed(Fill(1), Fill(2), 30) != Fill(2)
  {
    hide P.PlanUpTo, ReceiveUpTo, Fit.RequestFits, P.Coalesce, Crossed, P.SequenceFor;
    var ones, twos := FillRequest(1, policy), FillRequest(2, policy);
    FillIsCutInTwo(1, policy);
    FillIsCutInTwo(2, policy);
    SendsTwo(ones, U.FIRST, LINK);
    SendsTwo(twos, U.FIRST, LINK);
    var arrivals := [From(1, FramesFor(ones, U.FIRST)[0]), From(2, FramesFor(twos, U.FIRST)[1])];
    FreshIsReady(twos);
    PeersCross(U.FIXED, U.EMPTY, ones, U.FIRST, LINK, twos, U.FIRST, LINK, arrivals);
    assert Fill(1)[..30][0] != Fill(2)[..30][0];
  }

  lemma FreshIsReady(req: P.Request)
    requires req.Valid() && |req.datagrams| == 1 && req.serviceId == 300
    ensures Ready(U.FIXED, U.EMPTY, req, U.FIRST, Some(2), req.datagrams[0].peerScope)
  {
  }
}
