/** The receiver's reading of coalesced frames, and why it is what the planner meant. */
module Delivery {
  import opened Bytes
  import opened FrameCodec
  import opened Plans
  import opened Fragmentation
  import opened Planning

  /** A payload as the receiver attributes it. */
  datatype Item = Item(serviceId: u16, pathId: u16, sequence: u64, payload: bytes)

  function ItemOf(e: Planned): Item { Item(e.serviceId, e.path.id, e.sequence, e.payload) }

  function ItemsOf(planned: seq<Planned>): (s: seq<Item>)
    ensures |s| == |planned|
  {
    seq(|planned|, i requires 0 <= i < |planned| => ItemOf(planned[i]))
  }

  function BatchItems(frame: Frame, payloads: seq<bytes>): (s: seq<Item>) {
    seq(|payloads|, i requires 0 <= i < |payloads| =>
      Item(frame.serviceId, frame.pathId, WrappingAdd(frame.sequence, i), payloads[i]))
  }

  /** Outcome of reading frames: an error, or the buffers left and the payloads handed on. */
  datatype Outcome = Fault | Done(buffers: Buffers, items: seq<Item>)

  function After(items: seq<Item>, rest: Outcome): Outcome {
    if rest.Done? then Done(rest.buffers, items + rest.items) else Fault
  }

  /** One decoded frame: reassembly for data, implicit consecutive sequences for a batch. */
  function DeliverFrame(m: Buffers, frame: Frame): (r: Outcome) {
    match frame.kind
    case Control => Done(m, [])
    case Batch =>
      var payloads := DecodeBatch(frame.payload);
      if payloads.Err? then Fault else Done(m, BatchItems(frame, payloads.value))
    case Data =>
      var (m', result) := Push(m, frame);
      if result.Err? then Fault
      else if result.value.None? then Done(m', [])
      else Done(m', [Item(frame.serviceId, frame.pathId, frame.sequence, result.value.value)])
  }

  /** A sequence of v1 packets, each decoded and delivered. */
  function DeliverWire(m: Buffers, wire: seq<bytes>): (r: Outcome)
    decreases |wire|
  {
    if wire == [] then Done(m, [])
    else
      var frame := DecodeV1(wire[0]);
      if frame.Err? then Fault
      else
        var first := DeliverFrame(m, frame.value);
        if first.Fault? then Fault else After(first.items, DeliverWire(first.buffers, wire[1..]))
  }

  function WireOf(plans: seq<FramePlan>): (s: seq<bytes>)
    ensures |s| == |plans|
  {
    seq(|plans|, i requires 0 <= i < |plans| => EncodeV1(plans[i].frame))
  }

  // ----- one frame ------------------------------------------------------------

  lemma DeliverOne(m: Buffers, frame: Frame, wire: seq<bytes>)
    requires WellFormed(frame)
    ensures DeliverWire(m, [EncodeV1(frame)] + wire) ==
            var first := DeliverFrame(m, frame);
            if first.Fault? then Fault else After(first.items, DeliverWire(first.buffers, wire))
  {
    hide EncodeV1, DecodeV1, DeliverFrame, EncodeV2;
    V1Bijection(frame, []);
    assert ([EncodeV1(frame)] + wire)[1..] == wire;
  }

  lemma {:induction false} DeliverAppend(m: Buffers, first: seq<bytes>, second: seq<bytes>)
    requires DeliverWire(m, first).Done?
    ensures var done := DeliverWire(m, first);
      DeliverWire(m, first + second) == After(done.items, DeliverWire(done.buffers, second))
    decreases |first|
  {
    hide DecodeV1, DeliverFrame;
    if first == [] {
      assert first + second == second;
      AfterNothing(DeliverWire(m, second));
    } else {
      var one := DeliverFrame(m, DecodeV1(first[0]).value);
      var rest := DeliverWire(one.buffers, first[1..]);
      DeliverAppend(one.buffers, first[1..], second);
      assert (first + second)[1..] == first[1..] + second;
      AfterTwice(one.items, rest.items, DeliverWire(rest.buffers, second));
    }
  }

  lemma AfterNothing(r: Outcome)
    ensures After([], r) == r
  {
    if r.Done? {
      assert [] + r.items == r.items;
    }
  }

  lemma AfterTwice(a: seq<Item>, b: seq<Item>, r: Outcome)
    ensures After(a, After(b, r)) == After(a + b, r)
  {
    if r.Done? {
      assert a + (b + r.items) == a + b + r.items;
    }
  }

  // ----- one group ------------------------------------------------------------

  /** What the receiver makes of one group. */
  function GroupItems(serviceId: u16, group: seq<Planned>): (s: seq<Item>)
    requires group != []
  {
    if group[0].fragment.Some? then [ItemOf(group[0])]
    else seq(|group|, i requires 0 <= i < |group| =>
           Item(serviceId, group[0].path.id, WrappingAdd(group[0].sequence, i), group[i].payload))
  }

  lemma SameMap(m: Buffers, m': Buffers, id: u32)
    requires SameOutside({id}, m, m') && id !in m && id !in m'
    ensures m == m'
  {
    assert m.Keys == m'.Keys;
  }

  ghost function Below(k: nat): (s: set<nat>)
    ensures forall i: nat :: i in s <==> i < k
  {
    if k == 0 then {} else Below(k - 1) + {k - 1}
  }

  lemma FragmentWellFormed(d: Planned, id: u32, k: nat)
    requires d.path.Valid() && Fragmentable(d) && k < Count(d)
    ensures WellFormed(FragmentFrame(d, id, k))
  {
    hide Chunks;
    ChunkWithinPayload(d.payload, d.path.MaxFragmentPayload(), k);
  }

  lemma PushFragment(m: Buffers, d: Planned, id: u32, k: nat)
    requires d.path.Valid() && d.fragment == Some(id) && Fragmentable(d) && k < Count(d)
    requires Holds(m, id, d, Below(k))
    ensures var (m', r) := Push(m, FragmentFrame(d, id, k));
      && SameOutside({id}, m, m')
      && (if k + 1 == Count(d) then r == Ok(Some(d.payload)) && id !in m'
          else r == Ok(None) && Holds(m', id, d, Below(k + 1)))
  {
    hide Chunks, Push, Holds, SameOutside;
    var flight := map[id := d];
    assert FlightOk(flight);
    assert FrameOf(flight, Arrival(id, k)) == FragmentFrame(d, id, k);
    ArrivalPush(flight, m, Below(k), Arrival(id, k));
    assert Below(k) + {k} == Below(k + 1);
    if k + 1 == Count(d) {
      assert Complete(Below(k + 1), Count(d));
      HoldsNothing(Push(m, FragmentFrame(d, id, k)).0, id, d);
    } else {
      assert k + 1 !in Below(k + 1);
      assert !Complete(Below(k + 1), Count(d));
    }
  }

  lemma HoldsNothing(m: Buffers, id: u32, d: Planned)
    requires d.path.Valid()
    ensures Holds(m, id, d, {}) <==> id !in m
  {
  }

  lemma {:induction false} DeliverFragments(m0: Buffers, m: Buffers, d: Planned, id: u32, k: nat)
    requires d.path.Valid() && d.fragment == Some(id) && Fragmentable(d) && k < Count(d)
    requires id !in m0 && SameOutside({id}, m0, m) && Holds(m, id, d, Below(k))
    ensures DeliverWire(m, WireOf(FragmentPlans(d)[k..])) == Done(m0, [ItemOf(d)])
    decreases Count(d) - k
  {
    hide Chunks, Push, Holds, EncodeV1, DeliverWire, SameOutside;
    var plans := FragmentPlans(d);
    var f := FragmentFrame(d, id, k);
    FragmentWellFormed(d, id, k);
    assert WireOf(plans[k..]) == [EncodeV1(f)] + WireOf(plans[k + 1..]);
    DeliverOne(m, f, WireOf(plans[k + 1..]));
    PushFragment(m, d, id, k);
    var m' := Push(m, f).0;
    SameOutsideTrans(id, m0, m, m');
    if k + 1 == Count(d) {
      SameMap(m0, m', id);
      assert WireOf(plans[k + 1..]) == [];
      DeliverNothing(m0);
    } else {
      DeliverFragments(m0, m', d, id, k + 1);
      assert [] + [ItemOf(d)] == [ItemOf(d)];
    }
  }

  lemma SameOutsideTrans(id: u32, a: Buffers, b: Buffers, c: Buffers)
    requires SameOutside({id}, a, b) && SameOutside({id}, b, c)
    ensures SameOutside({id}, a, c)
  {
  }

  lemma DeliverNothing(m: Buffers)
    ensures DeliverWire(m, []) == Done(m, [])
  {
  }

  lemma DeliverFragmentGroup(m: Buffers, d: Planned)
    requires d.path.Valid() && d.fragment.Some? && Fragmentable(d) && d.payload != [] && d.fragment.value !in m
    ensures DeliverWire(m, WireOf(FragmentPlans(d))) == Done(m, [ItemOf(d)])
  {
    hide Fragmentable, DeliverWire, FragmentFrame;
    assert FragmentPlans(d)[0..] == FragmentPlans(d);
    assert Below(0) == {};
    DeliverFragments(m, m, d, d.fragment.value, 0);
  }

  lemma DeliverBatchGroup(m: Buffers, serviceId: u16, group: seq<Planned>, f: Frame)
    requires |group| > 1 && group[0].fragment.None? && BatchEncodable(PayloadsOf(group))
    requires f == Frame(Batch, serviceId, group[0].path.id, group[0].sequence, None, EncodeBatch(PayloadsOf(group)))
    ensures DeliverFrame(m, f) == Done(m, GroupItems(serviceId, group))
  {
    hide DecodeBatch, EncodeBatch, BatchEncodable;
    BatchRoundTrip(PayloadsOf(group), []);
    assert BatchItems(f, PayloadsOf(group)) == GroupItems(serviceId, group);
  }

  lemma DeliverGroup(m: Buffers, serviceId: u16, group: seq<Planned>)
    requires group != [] && group[0].path.Valid() && GroupFrames(serviceId, group).Some?
    requires group[0].fragment.Some? ==> group[0].payload != [] && group[0].fragment.value !in m
    ensures DeliverWire(m, WireOf(GroupFrames(serviceId, group).value)) == Done(m, GroupItems(serviceId, group))
  {
    hide Fragmentable, FragmentFrame, DeliverWire, EncodeV1, BatchEncodable;
    var plans := GroupFrames(serviceId, group).value;
    if group[0].fragment.Some? {
      DeliverFragmentGroup(m, group[0]);
    } else {
      var f := plans[0].frame;
      assert WellFormed(f) by { if |group| > 1 { BatchFits(PayloadsOf(group)); } }
      assert WireOf(plans) == [EncodeV1(f)] + [];
      DeliverOne(m, f, []);
      DeliverNothing(m);
      if |group| > 1 {
        DeliverBatchGroup(m, serviceId, group, f);
      } else {
        assert WrappingAdd(group[0].sequence, 0) == group[0].sequence;
        assert GroupItems(serviceId, group) == [Item(serviceId, group[0].path.id, group[0].sequence, group[0].payload)];
      }
      var items := GroupItems(serviceId, group);
      assert items + [] == items;
    }
  }

  lemma BatchFits(payloads: seq<bytes>)
    requires BatchEncodable(payloads)
    ensures |EncodeBatch(payloads)| <= MAX_FRAME_PAYLOAD_LEN
  {
  }

  // ----- the whole list -------------------------------------------------------

  /** Everything the receiver hands on, group after group. */
  function DeliveredItems(serviceId: u16, planned: seq<Planned>): (s: seq<Item>) {
    if planned == [] then []
    else
      var n := GroupSize(planned);
      GroupItems(serviceId, planned[..n]) + DeliveredItems(serviceId, planned[n..])
  }

  /** Entries as the planner makes them for one service, none of whose ids is already being reassembled. */
  ghost predicate PlannedFor(serviceId: u16, planned: seq<Planned>, m: Buffers) {
    forall e :: e in planned ==>
      && e.path.Valid() && e.serviceId == serviceId
      && (e.fragment.Some? ==> e.payload != [] && e.fragment.value !in m)
  }

  lemma {:induction false} DeliverCoalesced(m: Buffers, serviceId: u16, planned: seq<Planned>)
    requires PlannedFor(serviceId, planned, m) && PathsValid(planned) && Coalesce(serviceId, planned).Some?
    ensures DeliverWire(m, WireOf(Coalesce(serviceId, planned).value)) == Done(m, DeliveredItems(serviceId, planned))
    decreases |planned|
  {
    hide DeliverWire, GroupFrames, GroupItems, EncodeV1, GroupSize, Coalesce;
    if planned == [] {
      CoalesceEmpty(serviceId);
      DeliverNothing(m);
    } else {
      var n := GroupSize(planned);
      CoalesceStep(serviceId, planned);
      SuffixPathsValid(planned, n);
      var frames := GroupFrames(serviceId, planned[..n]).value;
      var rest := Coalesce(serviceId, planned[n..]).value;
      assert planned[0] in planned && planned[..n][0] == planned[0];
      DeliverGroup(m, serviceId, planned[..n]);
      assert PlannedFor(serviceId, planned[n..], m);
      DeliverCoalesced(m, serviceId, planned[n..]);
      assert WireOf(frames + rest) == WireOf(frames) + WireOf(rest);
      DeliverAppend(m, WireOf(frames), WireOf(rest));
    }
  }

  // ----- batch sequences ------------------------------------------------------

  /** No frame's implicit sequences run past the largest sequence number. */
  ghost predicate NoFrameWraps(planned: seq<Planned>) {
    planned == [] ||
    var n := GroupSize(planned);
    planned[0].sequence + n - 1 <= U64_MAX && NoFrameWraps(planned[n..])
  }

  lemma {:induction false} JoinedShareRoute(rest: seq<Planned>, path: Path, scope: Option<u32>, len: nat, i: nat)
    requires i < JoinCount(rest, path, scope, len)
    ensures rest[i].path.id == path.id && rest[i].peerScope == scope && rest[i].fragment.None?
    decreases |rest|
  {
    if i == 0 {
    } else {
      JoinedShareRoute(rest[1..], path, scope, len + 2 + |rest[0].payload|, i - 1);
    }
  }

  lemma GroupSharesRoute(planned: seq<Planned>, i: nat)
    requires planned != [] && i < GroupSize(planned)
    ensures planned[i].path.id == planned[0].path.id && planned[i].peerScope == planned[0].peerScope
  {
    if i > 0 {
      JoinedShareRoute(planned[1..], planned[0].path, planned[0].peerScope, NextBatchLen(0, |planned[0].payload|),
        i - 1);
    }
  }

  lemma {:induction false} SequenceInGroup(planned: seq<Planned>, i: nat)
    requires planned != [] && i < GroupSize(planned) && Consecutive(planned)
    ensures planned[0].sequence + i <= U64_MAX ==> planned[i].sequence == planned[0].sequence + i
    ensures planned[0].sequence + i == U64_MAX + 1 ==> planned[i].sequence == 1
  {
    hide GroupSize, JoinCount;
    if i == 0 {
    } else {
      SequenceInGroup(planned, i - 1);
      GroupSharesRoute(planned, i);
      GroupSharesRoute(planned, i - 1);
      assert Follows(planned[i - 1], planned[i]);
    }
  }

  /** A group is read back as planned exactly when its sequences do not run past the maximum. */
  lemma GroupReadBack(serviceId: u16, planned: seq<Planned>)
    requires planned != [] && Consecutive(planned) && forall e :: e in planned ==> e.serviceId == serviceId
    ensures var n := GroupSize(planned);
      && |GroupItems(serviceId, planned[..n])| == n
      && (GroupItems(serviceId, planned[..n]) == ItemsOf(planned[..n]) <==> planned[0].sequence + n - 1 <= U64_MAX)
  {
    hide JoinCount, NextBatchLen;
    var n := GroupSize(planned);
    var group := planned[..n];
    var items := GroupItems(serviceId, group);
    if planned[0].fragment.Some? {
      assert items == ItemsOf(group);
    } else if planned[0].sequence + n - 1 <= U64_MAX {
      forall i | 0 <= i < n ensures items[i] == ItemsOf(group)[i] {
        assert planned[i] in planned;
        SequenceInGroup(planned, i);
        GroupSharesRoute(planned, i);
      }
      assert items == ItemsOf(group);
    } else {
      var i := U64_MAX + 1 - planned[0].sequence;
      SequenceInGroup(planned, i);
      assert items[i].sequence == 0 && ItemsOf(group)[i].sequence == 1;
    }
  }

  lemma {:induction false} ReadBackAsPlanned(serviceId: u16, planned: seq<Planned>)
    requires Consecutive(planned) && forall e :: e in planned ==> e.serviceId == serviceId
    ensures |DeliveredItems(serviceId, planned)| == |planned|
    ensures DeliveredItems(serviceId, planned) == ItemsOf(planned) <==> NoFrameWraps(planned)
    decreases |planned|
  {
    hide GroupItems, GroupSize, Follows;
    if planned != [] {
      var n := GroupSize(planned);
      GroupReadBack(serviceId, planned);
      assert Consecutive(planned[n..]) by {
        forall k | 0 <= k < |planned[n..]| - 1 ensures Follows(planned[n..][k], planned[n..][k + 1]) {
          assert Follows(planned[n + k], planned[n + k + 1]);
        }
      }
      ReadBackAsPlanned(serviceId, planned[n..]);
      assert ItemsOf(planned) == ItemsOf(planned[..n]) + ItemsOf(planned[n..]);
      SameHalves(GroupItems(serviceId, planned[..n]), DeliveredItems(serviceId, planned[n..]),
                 ItemsOf(planned[..n]), ItemsOf(planned[n..]));
    } else {
      assert DeliveredItems(serviceId, planned) == ItemsOf(planned);
    }
  }

  lemma SameHalves(a: seq<Item>, b: seq<Item>, c: seq<Item>, d: seq<Item>)
    requires |a| == |c|
    ensures a + b == c + d <==> a == c && b == d
  {
    if a + b == c + d {
      assert a == (a + b)[..|a|] == (c + d)[..|c|] == c;
      assert b == (a + b)[|a|..] == (c + d)[|c|..] == d;
    }
  }

  lemma {:induction false} SmallSequencesDoNotWrap(planned: seq<Planned>)
    requires Consecutive(planned) && forall e :: e in planned ==> e.sequence < U64_MAX
    ensures NoFrameWraps(planned)
    decreases |planned|
  {
    hide GroupSize, Follows;
    if planned == [] {
    } else {
      var n := GroupSize(planned);
      if planned[0].sequence + n - 1 > U64_MAX {
        var i := U64_MAX - planned[0].sequence;
        assert planned[i] in planned;
        SequenceInGroup(planned, i);
      }
      assert Consecutive(planned[n..]) by {
        forall k | 0 <= k < |planned[n..]| - 1 ensures Follows(planned[n..][k], planned[n..][k + 1]) {
          assert Follows(planned[n + k], planned[n + k + 1]);
        }
      }
      SmallSequencesDoNotWrap(planned[n..]);
    }
  }

  // ----- what the planner hands the coalescer ---------------------------------

  lemma PlanStepEntries(req: Request, st: PlanState, d: Received, choice: seq<Path>)
    requires BurstOk(st.burst) && !st.failed && forall p :: p in choice ==> p.Valid()
    ensures var st' := PlanStep(req, st, d, choice); !st'.failed ==>
      && st.planned <= st'.planned
      && forall k :: |st.planned| <= k < |st'.planned| ==>
           && st'.planned[k].path.Valid() && st'.planned[k].serviceId == req.serviceId
           && st'.planned[k].payload == d.payload
           && (st'.planned[k].fragment.Some? ==> d.payload != [])
  {
    hide CanExtendBatch, CanReuseBurstPathWithoutCoalescing, UpdateBurst;
    var paths := SelectPaths(req, st.burst, d, choice).0;
    assert forall i :: 0 <= i < |paths| ==> paths[i].Valid();
    var st' := PlanStep(req, st, d, choice);
    forall k | !st'.failed && |st.planned| <= k < |st'.planned| ensures st'.planned[k].path.Valid() {
      assert st'.planned[k].path == paths[k - |st.planned|];
    }
  }

  ghost predicate EntriesOk(serviceId: u16, planned: seq<Planned>) {
    forall k :: 0 <= k < |planned| ==>
      && planned[k].path.Valid() && planned[k].serviceId == serviceId
      && (planned[k].fragment.Some? ==> planned[k].payload != [])
  }

  lemma {:induction false} PlannedEntriesOk(req: Request, start: Counters, n: nat)
    requires req.Valid() && n <= |req.datagrams| && !PlanUpTo(req, start, n).failed
    ensures EntriesOk(req.serviceId, PlanUpTo(req, start, n).planned)
    decreases n
  {
    hide PlanStep;
    if n == 0 {
    } else {
      PlannedEntriesOk(req, start, n - 1);
      PlanStepEntries(req, PlanUpTo(req, start, n - 1), req.datagrams[n - 1], req.choices[n - 1]);
    }
  }

  /** The frames of a planned request, or `None` where the coalescer would fail. */
  ghost function FramesFor(req: Request, start: Counters): Option<seq<FramePlan>>
    requires req.Valid() && !PlanUpTo(req, start, |req.datagrams|).failed
  {
    PlannedEntriesOk(req, start, |req.datagrams|);
    Coalesce(req.serviceId, PlanUpTo(req, start, |req.datagrams|).planned)
  }

  /** Planning, coalescing, encoding, decoding, unbatching and reassembling any list of datagrams gives
      back exactly the planned payloads, paths and sequences, in the planned order, if and only if no
      frame's sequences run past the maximum. Holds for every choice of distinct paths, fanout included. */
  lemma PlanCoalesceDeliver(req: Request, start: Counters, m: Buffers)
    requires req.Valid() && !PlanUpTo(req, start, |req.datagrams|).failed && FramesFor(req, start).Some?
    requires forall e :: e in PlanUpTo(req, start, |req.datagrams|).planned && e.fragment.Some? ==>
        e.fragment.value !in m
    ensures var planned, wire := PlanUpTo(req, start, |req.datagrams|).planned, WireOf(FramesFor(req, start).value);
      && DeliverWire(m, wire).Done? && DeliverWire(m, wire).buffers == m
      && (DeliverWire(m, wire).items == ItemsOf(planned) <==> NoFrameWraps(planned))
  {
    hide PlanUpTo, Coalesce, DeliverWire, WireOf, NoFrameWraps, DeliveredItems;
    var n := |req.datagrams|;
    var planned := PlanUpTo(req, start, n).planned;
    PlannedEntriesOk(req, start, n);
    PlannedNeighboursFollow(req, start, n);
    assert PlannedFor(req.serviceId, planned, m);
    DeliverCoalesced(m, req.serviceId, planned);
    ReadBackAsPlanned(req.serviceId, planned);
  }

  // ----- the wrap -------------------------------------------------------------

  const WRAP_PATH: Path := Path(1, 100, None, true, Active)

  /** Two one-byte datagrams planned at the top of the sequence space. */
  const AT_THE_TOP: Request :=
    Request(300, [Received([7], 0, None), Received([7], 0, None)], [[WRAP_PATH], [WRAP_PATH]], Policy(true, true, 4096))

  const TOP: Counters := Counters(map[None := U64_MAX], 1)

  function TopEntries(): seq<Planned> {
    var one := Planned([7], 0, None, U64_MAX, 300, WRAP_PATH, None, false);
    [one, one.(sequence := 1)]
  }

  lemma TopIsPlanned()
    ensures AT_THE_TOP.Valid()
    ensures var st := PlanUpTo(AT_THE_TOP, TOP, 2); !st.failed && st.planned == TopEntries()
  {
    var d, e := AT_THE_TOP.datagrams[0], TopEntries();
    var st0 := PlanState(TOP, NO_BURST, [], false);
    var st1 := PlanStep(AT_THE_TOP, st0, d, [WRAP_PATH]);
    assert Copies(300, d, [WRAP_PATH], U64_MAX, None) == [e[0]];
    assert [] + [e[0]] == [e[0]];
    assert st1.planned == [e[0]] && st1.burst == Burst(Some(WRAP_PATH), 19, 1) && !st1.failed;
    var st2 := PlanStep(AT_THE_TOP, st1, d, [WRAP_PATH]);
    assert Copies(300, d, [WRAP_PATH], 1, None) == [e[1]];
    assert st2.planned == [e[0]] + [e[1]] && !st2.failed;
    PlanUpToStart(AT_THE_TOP, TOP);
    PlanUpToNext(AT_THE_TOP, TOP, 0);
    PlanUpToNext(AT_THE_TOP, TOP, 1);
  }

  lemma TopIsOneFrame()
    ensures GroupSize(TopEntries()) == 2 && Coalesce(300, TopEntries()).Some?
    ensures DeliveredItems(300, TopEntries()) == [Item(300, 1, U64_MAX, [7]), Item(300, 1, 0, [7])]
  {
    var planned := TopEntries();
    assert planned[1..] == [planned[1]] && [planned[1]][1..] == [];
    assert JoinCount([], WRAP_PATH, None, 22) == 0;
    assert JoinCount([planned[1]], WRAP_PATH, None, 19) == 1;
    assert planned[..2] == planned && planned[2..] == [];
    assert GroupItems(300, planned) == [Item(300, 1, U64_MAX, [7]), Item(300, 1, 0, [7])];
    assert DeliveredItems(300, []) == [];
    TopIsEncodable();
    CoalesceStep(300, planned);
    CoalesceEmpty(300);
  }

  lemma TopIsEncodable()
    ensures BatchEncodable(PayloadsOf(TopEntries()))
  {
    assert PayloadsOf(TopEntries()) == [[7], [7]];
    assert [[7], [7]][1..] == [[7]] && [[7]][1..] == [];
    assert BatchLen([]) == 2;
    assert BatchLen([[7]]) == 5;
    assert BatchLen([[7], [7]]) == 8;
  }

  /** The condition bites: planned at the maximum and at 1, the two payloads share a frame, and the receiver reads the
      second one as sequence 0. */
  lemma SequenceWrapIsMisread()
    ensures AT_THE_TOP.Valid() && !PlanUpTo(AT_THE_TOP, TOP, 2).failed && FramesFor(AT_THE_TOP, TOP).Some?
    ensures ItemsOf(PlanUpTo(AT_THE_TOP, TOP, 2).planned) == [Item(300, 1, U64_MAX, [7]), Item(300, 1, 1, [7])]
    ensures DeliverWire(map[], WireOf(FramesFor(AT_THE_TOP, TOP).value))
            == Done(map[], [Item(300, 1, U64_MAX, [7]), Item(300, 1, 0, [7])])
  {
    hide PlanUpTo, Coalesce, DeliverWire, WireOf, DeliveredItems, GroupSize;
    TopIsPlanned();
    TopIsOneFrame();
    PlannedEntriesOk(AT_THE_TOP, TOP, 2);
    DeliverCoalesced(map[], 300, TopEntries());
    assert ItemsOf(TopEntries()) == [Item(300, 1, U64_MAX, [7]), Item(300, 1, 1, [7])];
  }
}
