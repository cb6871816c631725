/** A planned request whose frames are delivered in any order, repeated or lost: each datagram that can be read is
    emitted exactly once. */
module AnyOrderPlan {
  import opened Bytes
  import opened FrameCodec
  import opened Plans
  import opened Receive
  import opened EndToEnd
  import opened AnyOrder
  import P = Planning
  import Fit = FrameFit
  import F = Fragmentation
  import L = Delivery
  import D = Dedupe

  // ----- what the planned entries carry ---------------------------------------

  function PayloadAt(first: nat, datagrams: seq<Received>, q: nat): bytes
    requires first <= q < first + |datagrams|
  {
    datagrams[q - first].payload
  }

  /** The payloads of the datagrams, under the sequences they are given. */
  function BookOf(first: nat, datagrams: seq<Received>): (book: map<u64, bytes>)
    requires first + |datagrams| <= U64_MAX + 1
  {
    map q: u64 | first <= q < first + |datagrams| :: PayloadAt(first, datagrams, q)
  }

  lemma {:induction false} BookSize(first: nat, datagrams: seq<Received>)
    requires first + |datagrams| <= U64_MAX + 1
    ensures |BookOf(first, datagrams)| == |datagrams|
    decreases |datagrams|
  {
    var book := BookOf(first, datagrams);
    if datagrams == [] {
      assert book == map[];
    } else {
      var n := |datagrams| - 1;
      var before := BookOf(first, datagrams[..n]);
      BookSize(first, datagrams[..n]);
      assert book == before[first + n := datagrams[n].payload];
      assert book.Keys == before.Keys + {first + n};
    }
  }

  ghost predicate EntryOk(req: P.Request, first: nat, n: nat, e: Planned)
    requires n <= |req.datagrams|
  {
    && e.path.Valid() && e.serviceId == req.serviceId && first <= e.sequence < first + n
    && e.payload == req.datagrams[e.sequence - first].payload && (e.fragment.Some? ==> e.payload != [])
  }

  ghost predicate EntriesAre(req: P.Request, first: nat, n: nat, planned: seq<Planned>)
    requires n <= |req.datagrams|
  {
    && (forall k :: 0 <= k < |planned| ==> EntryOk(req, first, n, planned[k]))
    && (forall q: nat | first <= q < first + n :: HasEntry(planned, q))
  }

  ghost predicate HasEntry(planned: seq<Planned>, q: nat) { exists k :: 0 <= k < |planned| && planned[k].sequence == q }

  lemma HasEntryGrows(planned: seq<Planned>, planned': seq<Planned>, q: nat)
    requires planned <= planned' && HasEntry(planned, q)
    ensures HasEntry(planned', q)
  {
    var k :| 0 <= k < |planned| && planned[k].sequence == q;
    assert planned'[k] == planned[k];
  }

  lemma EntryStep(req: P.Request, st: P.PlanState, first: nat, n: nat)
    requires req.Valid() && n < |req.datagrams| && P.BurstOk(st.burst) && !st.failed && first + n < U64_MAX
    requires EntriesAre(req, first, n, st.planned)
    requires P.SequenceFor(st.counters, req.datagrams[n].peerScope) == first + n
    requires !P.PlanStep(req, st, req.datagrams[n], req.choices[n]).failed
    ensures EntriesAre(req, first, n + 1, P.PlanStep(req, st, req.datagrams[n], req.choices[n]).planned)
  {
    hide P.PlanStep;
    var d, st' := req.datagrams[n], P.PlanStep(req, st, req.datagrams[n], req.choices[n]);
    PlanStepCopies(req, st, d, req.choices[n], first + n);
    L.PlanStepEntries(req, st, d, req.choices[n]);
    forall k | 0 <= k < |st'.planned| ensures EntryOk(req, first, n + 1, st'.planned[k]) {
      if k < |st.planned| {
        assert EntryOk(req, first, n, st.planned[k]);
      }
    }
    forall q: nat | first <= q < first + n + 1 ensures HasEntry(st'.planned, q) {
      if q < first + n {
        HasEntryGrows(st.planned, st'.planned, q);
      } else {
        assert st'.planned[|st.planned|].sequence == q;
      }
    }
  }

  /** Every entry is a copy of its datagram, and every datagram has one. */
  lemma {:induction false} PlannedEntriesAre(req: P.Request, start: P.Counters, peer: Option<u32>, n: nat)
    requires req.Valid() && OneScope(req, peer) && P.SequenceFor(start, peer) + |req.datagrams| <= U64_MAX
    requires n <= |req.datagrams| && !P.PlanUpTo(req, start, n).failed
    ensures var st, first := P.PlanUpTo(req, start, n), P.SequenceFor(start, peer);
      EntriesAre(req, first, n, st.planned) && P.SequenceFor(st.counters, peer) == first + n
    decreases n
  {
    hide P.PlanStep, EntriesAre, P.SequenceFor;
    var first := P.SequenceFor(start, peer);
    if n == 0 {
      NoEntries(req, first);
    } else {
      PlannedEntriesAre(req, start, peer, n - 1);
      var st := P.PlanUpTo(req, start, n - 1);
      EntryStep(req, st, first, n - 1);
      PlanStepCopies(req, st, req.datagrams[n - 1], req.choices[n - 1], first + n - 1);
    }
  }

  lemma NoEntries(req: P.Request, first: nat)
    ensures EntriesAre(req, first, 0, [])
  {
  }

  // ----- the datagrams in flight ----------------------------------------------

  /** Copies of one datagram that are split at the same places. */
  predicate Alike(a: Planned, b: Planned) {
    a.sequence == b.sequence && a.payload == b.payload && a.serviceId == b.serviceId && a.path.mtu == b.path.mtu
  }

  /** Entries under one datagram id are copies of one datagram, split alike. */
  ghost predicate IdsAgree(planned: seq<Planned>) {
    forall i, k ::
      0 <= i < |planned| && 0 <= k < |planned| && planned[i].fragment.Some?
        && planned[i].fragment == planned[k].fragment
      ==> Alike(planned[i], planned[k])
  }

  /** A datagram too large for its first path is sent over paths of one size only. */
  ghost predicate EvenlySplit(req: P.Request) {
    forall i, p, q ::
      0 <= i < |req.choices| <= |req.datagrams| && Fit.Oversized(req.choices[i], |req.datagrams[i].payload|)
      && p in req.choices[i] && q in req.choices[i]
      ==> p.mtu == q.mtu
  }

  /** The id handed out after `j` others. */
  function IdAt(start: u32, j: nat): (id: nat) { if start + j <= U32_MAX then start + j else start + j - U32_MAX }

  ghost predicate Handed(start: u32, m: nat, id: u32) { exists j :: 0 <= j < m && id == IdAt(start, j) }

  /** After `m` fragmented datagrams: their ids are the first `m`, and the next one is new. */
  ghost predicate IdsRun(start: u32, m: nat, st: P.PlanState) {
    && st.counters.nextDatagramId == IdAt(start, m) && IdsAgree(st.planned)
    && forall k :: 0 <= k < |st.planned| && st.planned[k].fragment.Some? ==>
      Handed(start, m, st.planned[k].fragment.value)
  }

  lemma HandedOn(start: u32, m: nat, id: u32)
    requires m < U32_MAX
    ensures !Handed(start, m, IdAt(start, m)) && Handed(start, m + 1, IdAt(start, m))
    ensures P.NextDatagramId(IdAt(start, m)) == IdAt(start, m + 1)
    ensures Handed(start, m, id) ==> Handed(start, m + 1, id)
  {
  }

  lemma IdsStep(req: P.Request, st: P.PlanState, start: u32, m: nat, i: nat) returns (m': nat)
    requires req.Valid() && EvenlySplit(req) && i < |req.datagrams| && P.BurstOk(st.burst) && !st.failed && m < U32_MAX
    requires IdsRun(start, m, st) && !P.PlanStep(req, st, req.datagrams[i], req.choices[i]).failed
    ensures m' <= m + 1 && IdsRun(start, m', P.PlanStep(req, st, req.datagrams[i], req.choices[i]))
  {
    hide P.UpdateBurst, P.CanExtendBatch, P.CanReuseBurstPathWithoutCoalescing, IdAt, Handed, P.NextDatagramId;
    var d, st' := req.datagrams[i], P.PlanStep(req, st, req.datagrams[i], req.choices[i]);
    var paths := P.SelectPaths(req, st.burst, d, req.choices[i]).0;
    var had, has := |st.planned|, |st'.planned|;
    assert has == had + |paths| && (forall k :: 0 <= k < had ==> st'.planned[k] == st.planned[k]);
    HandedOn(start, m, IdAt(start, m));
    forall k | 0 <= k < had && st.planned[k].fragment.Some? ensures Handed(start, m + 1, st.planned[k].fragment.value) {
      HandedOn(start, m, st.planned[k].fragment.value);
    }
    assert paths[0].Valid() by {
      assert paths[0] in paths;
      assert paths == req.choices[i] || (st.burst.path.Some? && paths == [st.burst.path.value]);
    }
    if |d.payload| > paths[0].MaxDataPayload() {
      m' := m + 1;
      forall j, k | 0 <= j < |paths| && 0 <= k < |paths| ensures paths[j].mtu == paths[k].mtu {
        assert paths[j] in paths && paths[k] in paths;
        if |paths| > 1 {
          assert Fit.Oversized(req.choices[i], |d.payload|);
        }
      }
    } else {
      m' := m;
    }
  }

  lemma {:induction false} PlannedIdsRun(req: P.Request, start: P.Counters, n: nat) returns (m: nat)
    requires req.Valid() && EvenlySplit(req) && |req.datagrams| < U32_MAX
    requires n <= |req.datagrams| && !P.PlanUpTo(req, start, n).failed
    ensures m <= n && IdsRun(start.nextDatagramId, m, P.PlanUpTo(req, start, n))
    decreases n
  {
    hide P.PlanStep, EvenlySplit;
    if n == 0 {
      m := 0;
    } else {
      m := PlannedIdsRun(req, start, n - 1);
      m := IdsStep(req, P.PlanUpTo(req, start, n - 1), start.nextDatagramId, m, n - 1);
    }
  }

  function FlightOf(planned: seq<Planned>): F.Flight {
    if planned == [] then map[]
    else
      var e := planned[|planned| - 1];
      var before := FlightOf(planned[..|planned| - 1]);
      if e.fragment.Some? then before[e.fragment.value := e] else before
  }

  lemma {:induction false} FlightHolds(planned: seq<Planned>, k: nat)
    requires k < |planned| && planned[k].fragment.Some?
    ensures planned[k].fragment.value in FlightOf(planned)
    decreases |planned|
  {
    if k < |planned| - 1 {
      FlightHolds(planned[..|planned| - 1], k);
    }
  }

  lemma {:induction false} FlightIsPlanned(planned: seq<Planned>, id: u32)
    requires id in FlightOf(planned)
    ensures FlightOf(planned)[id] in planned && FlightOf(planned)[id].fragment == Some(id)
    decreases |planned|
  {
    var e := planned[|planned| - 1];
    if e.fragment != Some(id) {
      FlightIsPlanned(planned[..|planned| - 1], id);
    }
  }

  // ----- the frames' cargo ----------------------------------------------------

  function PieceList(id: u32, n: nat): seq<Cargo> { seq(n, i requires 0 <= i < n => Piece(id, i)) }

  function GroupCargo(group: seq<Planned>): seq<Cargo>
    requires group != [] && group[0].path.Valid()
  {
    if group[0].fragment.Some? then PieceList(group[0].fragment.value, F.Count(group[0])) else [Whole(L.ItemsOf(group))]
  }

  /** What the coalescer's frames bring, frame by frame. */
  function CargoFor(planned: seq<Planned>): seq<Cargo>
    requires P.PathsValid(planned)
  {
    if planned == [] then []
    else
      var n := P.GroupSize(planned);
      P.SuffixPathsValid(planned, n);
      assert planned[0] in planned;
      GroupCargo(planned[..n]) + CargoFor(planned[n..])
  }

  /** The setting of a request: its payloads, its fragmented datagrams, and the receiver's state. */
  ghost function SettingFor(cfg: Config, d: Run, req: P.Request, start: P.Counters, scope: Option<u32>,
                            peer: Option<u32>): Setting
    requires req.Valid() && P.SequenceFor(start, peer) + |req.datagrams| <= U64_MAX
  {
    Setting(cfg, d, req.serviceId, scope, BookOf(P.SequenceFor(start, peer), req.datagrams),
            FlightOf(P.PlanUpTo(req, start, |req.datagrams|).planned))
  }

  /** Entries of this setting: in its book, and in flight if fragmented. */
  ghost predicate EntriesOf(x: Setting, planned: seq<Planned>) {
    forall k :: 0 <= k < |planned| ==>
      && planned[k].path.Valid() && InBook(x, L.ItemOf(planned[k]))
      && (planned[k].fragment.Some? ==>
            && planned[k].fragment.value in x.flight && Alike(x.flight[planned[k].fragment.value], planned[k])
            && planned[k].payload != [])
  }

  ghost predicate FramesBear(x: Setting, plans: seq<FramePlan>, cargo: seq<Cargo>)
    requires F.FlightOk(x.flight)
  {
    |plans| == |cargo| && forall k :: 0 <= k < |plans| ==> CargoOk(x, cargo[k]) && Bears(x, plans[k].frame, cargo[k])
  }

  lemma FramesBearBoth(x: Setting, a: seq<FramePlan>, b: seq<FramePlan>, ca: seq<Cargo>, cb: seq<Cargo>)
    requires F.FlightOk(x.flight) && FramesBear(x, a, ca) && FramesBear(x, b, cb)
    ensures FramesBear(x, a + b, ca + cb)
  {
    hide CargoOk, Bears;
  }

  lemma WholeGroupBears(x: Setting, group: seq<Planned>, f: Frame)
    requires F.FlightOk(x.flight) && group != [] && group[0].path.Valid() && group[0].fragment.None?
    requires !IsReserved(x.serviceId)
    requires EntriesOf(x, group) && L.GroupItems(x.serviceId, group) == L.ItemsOf(group)
    requires P.GroupFrames(x.serviceId, group).Some? && f == P.GroupFrames(x.serviceId, group).value[0].frame
    ensures CargoOk(x, Whole(L.ItemsOf(group))) && Bears(x, f, Whole(L.ItemsOf(group)))
  {
    hide BatchEncodable, EncodeBatch, DecodeBatch, F.FlightOk;
    forall k | 0 <= k < |group| ensures InBook(x, L.ItemsOf(group)[k]) {
      assert InBook(x, L.ItemOf(group[k]));
    }
    if |group| > 1 {
      L.DeliverBatchGroup(map[], x.serviceId, group, f);
    } else {
      assert WrappingAdd(group[0].sequence, 0) == group[0].sequence;
      assert L.GroupItems(x.serviceId, group) ==
        [L.Item(x.serviceId, group[0].path.id, group[0].sequence, group[0].payload)];
    }
  }

  lemma PiecesBear(x: Setting, e: Planned)
    requires F.FlightOk(x.flight) && e.path.Valid() && e.fragment.Some? && e.serviceId == x.serviceId
    requires !IsReserved(x.serviceId)
    requires e.fragment.value in x.flight && Alike(x.flight[e.fragment.value], e) && F.Fragmentable(e)
    ensures FramesBear(x, P.FragmentPlans(e), PieceList(e.fragment.value, F.Count(e)))
  {
    hide F.Chunks;
    var plans, cargo := P.FragmentPlans(e), PieceList(e.fragment.value, F.Count(e));
    forall k | 0 <= k < |plans| ensures CargoOk(x, cargo[k]) && Bears(x, plans[k].frame, cargo[k]) {
      assert plans[k].frame == F.FragmentFrame(e, e.fragment.value, k);
    }
  }

  lemma GroupBears(x: Setting, group: seq<Planned>)
    requires F.FlightOk(x.flight) && group != [] && group[0].path.Valid() && !IsReserved(x.serviceId)
    requires EntriesOf(x, group) && L.GroupItems(x.serviceId, group) == L.ItemsOf(group)
    requires P.GroupFrames(x.serviceId, group).Some?
    ensures FramesBear(x, P.GroupFrames(x.serviceId, group).value, GroupCargo(group))
  {
    hide F.FlightOk, Bears, CargoOk, BatchEncodable, L.GroupItems;
    assert InBook(x, L.ItemOf(group[0]));
    if group[0].fragment.Some? {
      PiecesBear(x, group[0]);
    } else {
      WholeGroupBears(x, group, P.GroupFrames(x.serviceId, group).value[0].frame);
    }
  }

  /** The coalescer's frames bring what `CargoFor` says. */
  lemma {:induction false} CoalescedBear(x: Setting, planned: seq<Planned>)
    requires F.FlightOk(x.flight) && P.PathsValid(planned) && EntriesOf(x, planned) && !IsReserved(x.serviceId)
    requires P.Consecutive(planned) && L.NoFrameWraps(planned) && P.Coalesce(x.serviceId, planned).Some?
    ensures FramesBear(x, P.Coalesce(x.serviceId, planned).value, CargoFor(planned))
    decreases |planned|
  {
    hide F.FlightOk, P.GroupSize, P.GroupFrames, P.Coalesce, Bears, CargoOk, InBook, GroupCargo, L.GroupItems;
    if planned == [] {
      P.CoalesceEmpty(x.serviceId);
    } else {
      var n := P.GroupSize(planned);
      P.CoalesceStep(x.serviceId, planned);
      forall e | e in planned ensures e.serviceId == x.serviceId {
        ServiceOf(x, planned, e);
      }
      L.GroupReadBack(x.serviceId, planned);
      FirstFrameFits(planned);
      assert planned[0] in planned && planned[..n][0] == planned[0];
      assert EntriesOf(x, planned[..n]) && EntriesOf(x, planned[n..]);
      GroupBears(x, planned[..n]);
      ConsecutiveSuffix(planned, n);
      CoalescedBear(x, planned[n..]);
      FramesBearBoth(x, P.GroupFrames(x.serviceId, planned[..n]).value, P.Coalesce(x.serviceId, planned[n..]).value,
                     GroupCargo(planned[..n]), CargoFor(planned[n..]));
    }
  }

  lemma ServiceOf(x: Setting, planned: seq<Planned>, e: Planned)
    requires EntriesOf(x, planned) && e in planned
    ensures e.serviceId == x.serviceId
  {
  }

  lemma FirstFrameFits(planned: seq<Planned>)
    requires planned != [] && L.NoFrameWraps(planned)
    ensures planned[0].sequence + P.GroupSize(planned) - 1 <= U64_MAX && L.NoFrameWraps(planned[P.GroupSize(planned)..])
  {
  }

  lemma ConsecutiveSuffix(planned: seq<Planned>, n: nat)
    requires P.Consecutive(planned) && n <= |planned|
    ensures P.Consecutive(planned[n..])
  {
    hide P.Follows;
    var rest := planned[n..];
    forall k | 0 <= k < |rest| - 1 ensures P.Follows(rest[k], rest[k + 1]) {
      assert P.Follows(planned[n + k], planned[n + k + 1]);
    }
  }

  /** What coalesces can be fragmented where it must be. */
  lemma {:induction false} CoalescedIsFragmentable(serviceId: u16, planned: seq<Planned>, k: nat)
    requires P.PathsValid(planned) && P.Coalesce(serviceId, planned).Some? && k < |planned| && planned[k].fragment.Some?
    ensures planned[k] in planned && planned[k].path.Valid() && F.Fragmentable(planned[k])
    decreases |planned|
  {
    hide P.GroupFrames, P.Coalesce, P.JoinCount, F.Fragmentable;
    assert planned[k] in planned && planned[0] in planned;
    var n := P.GroupSize(planned);
    P.CoalesceStep(serviceId, planned);
    if k == 0 {
      P.GroupOfOne(serviceId, planned);
    } else if k < n {
      var e := planned[0];
      assert e.fragment.None?;
      L.JoinedShareRoute(planned[1..], e.path, e.peerScope, P.NextBatchLen(0, |e.payload|), k - 1);
    } else {
      CoalescedIsFragmentable(serviceId, planned[n..], k - n);
    }
  }

  lemma FlightIsOk(serviceId: u16, planned: seq<Planned>)
    requires P.PathsValid(planned) && P.Coalesce(serviceId, planned).Some?
    ensures F.FlightOk(FlightOf(planned))
  {
    hide P.Coalesce, F.Fragmentable, FlightOf;
    var flight := FlightOf(planned);
    forall id | id in flight
      ensures flight[id].path.Valid() && flight[id].fragment == Some(id) && F.Fragmentable(flight[id])
    {
      FlightIsPlanned(planned, id);
      var k :| 0 <= k < |planned| && planned[k] == flight[id];
      CoalescedIsFragmentable(serviceId, planned, k);
    }
  }

  // ----- any order ------------------------------------------------------------

  /** The arrivals are frames of the request, by their places in `t`: any of them, in any order, any number of times. */
  ghost predicate BringsAt(arrivals: seq<Arrival>, plans: seq<FramePlan>, t: seq<nat>, scope: Option<u32>) {
    && |arrivals| == |t|
    && forall i :: 0 <= i < |t| ==>
         t[i] < |plans| && arrivals[i].content == Some(plans[t[i]].frame) && arrivals[i].scope == scope
  }

  function TraceCargo(cargo: seq<Cargo>, t: seq<nat>): seq<Cargo>
    requires forall i :: 0 <= i < |t| ==> t[i] < |cargo|
  {
    seq(|t|, i requires 0 <= i < |t| => cargo[t[i]])
  }

  /** The receiver can take the request: as `Ready` says, with room in the window for all of it and its datagram ids
      free; and the request can be taken in any order: it has fewer datagrams than there are ids, and copies of one
      datagram are fragmented alike. */
  ghost predicate Roomy(cfg: Config, d: Run, req: P.Request, start: P.Counters, scope: Option<u32>, peer: Option<u32>) {
    && Ready(cfg, d, req, start, scope, peer) && !IsReserved(req.serviceId) && Fit.RequestFits(req)
    && !P.PlanUpTo(req, start, |req.datagrams|).failed
    && |req.datagrams| <= cfg.capacity && |d.core.window| <= cfg.capacity
    && EvenlySplit(req) && |req.datagrams| < U32_MAX
    && FlightOf(P.PlanUpTo(req, start, |req.datagrams|).planned).Keys !! d.core.fragments.Keys
  }

  lemma SettingIsOk(cfg: Config, d: Run, req: P.Request, start: P.Counters, scope: Option<u32>, peer: Option<u32>)
    requires Roomy(cfg, d, req, start, scope, peer)
    ensures var x, planned := SettingFor(cfg, d, req, start, scope, peer),
        P.PlanUpTo(req, start, |req.datagrams|).planned;
      SettingOk(x) && EntriesOf(x, planned) && P.PathsValid(planned)
    ensures forall id :: id in FlightOf(P.PlanUpTo(req, start, |req.datagrams|).planned) ==>
              FlightOf(P.PlanUpTo(req, start, |req.datagrams|).planned)[id].payload != []
  {
    hide P.PlanUpTo, P.SequenceFor, FlightOf, Fit.RequestFits, Serves, F.FlightOk, EvenlySplit, P.Coalesce,
         Fit.PlansFit;
    var n, first := |req.datagrams|, P.SequenceFor(start, peer);
    var x, planned := SettingFor(cfg, d, req, start, scope, peer), P.PlanUpTo(req, start, n).planned;
    PlannedEntriesAre(req, start, peer, n);
    Fit.PlannedFramesFit(req, start);
    FlightIsOk(req.serviceId, planned);
    BookSize(first, req.datagrams);
    var m := PlannedIdsRun(req, start, n);
    assert IdsAgree(planned);
    forall k | 0 <= k < |planned| && planned[k].fragment.Some?
      ensures planned[k].fragment.value in x.flight && Alike(x.flight[planned[k].fragment.value], planned[k])
    {
      FlightHolds(planned, k);
      FlightIsPlanned(planned, planned[k].fragment.value);
    }
    forall k | 0 <= k < |planned| ensures InBook(x, L.ItemOf(planned[k])) {
      assert EntryOk(req, first, n, planned[k]);
    }
    forall id | id in x.flight ensures InBook(x, L.ItemOf(x.flight[id])) && x.flight[id].payload != [] {
      FlightIsPlanned(planned, id);
      var k :| 0 <= k < |planned| && planned[k] == x.flight[id];
      assert EntryOk(req, first, n, planned[k]);
    }
  }

  /** Any of a request's frames, in any order, bring the cargo that is theirs. */
  lemma RequestBrings(cfg: Config, d: Run, req: P.Request, start: P.Counters, arrivals: seq<Arrival>, t: seq<nat>,
                      scope: Option<u32>, peer: Option<u32>)
    requires Roomy(cfg, d, req, start, scope, peer) && BringsAt(arrivals, FramesFor(req, start), t, scope)
    ensures var x, planned := SettingFor(cfg, d, req, start, scope, peer),
        P.PlanUpTo(req, start, |req.datagrams|).planned;
      && SettingOk(x) && (forall id :: id in x.flight ==> x.flight[id].payload != [])
      && P.PathsValid(planned) && |CargoFor(planned)| == |FramesFor(req, start)|
      && AllCargoOk(x, TraceCargo(CargoFor(planned), t)) && Brought(x, arrivals, TraceCargo(CargoFor(planned), t))
  {
    hide P.PlanUpTo, P.Coalesce, P.SequenceFor, FlightOf, Fit.RequestFits, Serves, F.FlightOk, CargoFor, Bears, CargoOk,
         L.NoFrameWraps, Fit.PlansFit, NothingFrom, EvenlySplit, SettingOk;
    var n := |req.datagrams|;
    var x, planned := SettingFor(cfg, d, req, start, scope, peer), P.PlanUpTo(req, start, n).planned;
    SettingIsOk(cfg, d, req, start, scope, peer);
    FlightOfSetting(x);
    Fit.PlannedFramesFit(req, start);
    P.PlannedNeighboursFollow(req, start, n);
    PlannedEntriesAre(req, start, peer, n);
    SequencesAreSmall(req, P.SequenceFor(start, peer), planned);
    L.SmallSequencesDoNotWrap(planned);
    CoalescedBear(x, planned);
  }

  lemma FlightOfSetting(x: Setting)
    requires SettingOk(x)
    ensures F.FlightOk(x.flight)
  {
  }

  /** Whichever of a request's frames arrive, in whatever order and however often: the receiver reports no error and
      emits, each exactly once, the payloads of exactly those datagrams of which one copy is readable from what arrived,
      whole or in all its fragments; it counts every surplus copy, and emits nothing for another service. */
  lemma EachReadablePayloadOnce(cfg: Config, d: Run, req: P.Request, start: P.Counters, arrivals: seq<Arrival>,
                                t: seq<nat>, scope: Option<u32>, peer: Option<u32>)
    returns (order: seq<u64>, dups: nat)
    requires Roomy(cfg, d, req, start, scope, peer) && BringsAt(arrivals, FramesFor(req, start), t, scope)
    ensures var x, planned := SettingFor(cfg, d, req, start, scope, peer),
        P.PlanUpTo(req, start, |req.datagrams|).planned;
      && F.FlightOk(x.flight) && P.PathsValid(planned) && |CargoFor(planned)| == |FramesFor(req, start)|
      && var r, cargo := ReceiveUpTo(cfg, d, arrivals, |arrivals|), TraceCargo(CargoFor(planned), t);
      && r.error.None? && Distinct(order) && (forall q :: q in order ==> q in x.book)
      && (forall q :: q in order <==> Readable(x, cargo, q))
      && Gains(d.out, r.out, req.serviceId, EmissionsAt(x, order), |order|, dups)
      && AllCargoOk(x, cargo) && |order| + dups == Copies(x, cargo)
  {
    hide P.PlanUpTo, P.SequenceFor, FlightOf, Gains, EmissionsAt, Readable, ReceiveUpTo, Fit.RequestFits, Serves,
         F.FlightOk, CargoFor, FramesFor, D.Recent, F.BuffersAfter, NothingFrom, EvenlySplit, Brought, CargoOk, Copies;
    var x, planned := SettingFor(cfg, d, req, start, scope, peer), P.PlanUpTo(req, start, |req.datagrams|).planned;
    RequestBrings(cfg, d, req, start, arrivals, t, scope, peer);
    var cargo := TraceCargo(CargoFor(planned), t);
    order, dups := EmitsExactlyWhatIsReadable(x, arrivals, cargo, |cargo|);
    assert cargo[..|cargo|] == cargo;
  }

  lemma SequencesAreSmall(req: P.Request, first: nat, planned: seq<Planned>)
    requires EntriesAre(req, first, |req.datagrams|, planned) && first + |req.datagrams| <= U64_MAX
    ensures forall e :: e in planned ==> e.sequence < U64_MAX
  {
    forall e | e in planned ensures e.sequence < U64_MAX {
      var k :| 0 <= k < |planned| && planned[k] == e;
      assert EntryOk(req, first, |req.datagrams|, planned[k]);
    }
  }

  // ----- when every frame arrives ---------------------------------------------

  ghost predicate SomeWhole(cargo: seq<Cargo>, q: u64) { exists c :: c in cargo && c.Whole? && Lists(c.items, q) }

  /** Entry `k` is in the cargo: whole, or in all its pieces. */
  ghost predicate InCargo(planned: seq<Planned>, k: nat, cargo: seq<Cargo>)
    requires k < |planned| && planned[k].path.Valid()
  {
    if planned[k].fragment.None? then SomeWhole(cargo, planned[k].sequence)
    else forall i :: 0 <= i < F.Count(planned[k]) ==> Piece(planned[k].fragment.value, i) in cargo
  }

  lemma GroupCovers(planned: seq<Planned>, k: nat)
    requires P.PathsValid(planned) && planned != [] && k < P.GroupSize(planned)
    ensures planned[0] in planned && planned[k] in planned
    ensures InCargo(planned, k, GroupCargo(planned[..P.GroupSize(planned)]))
  {
    hide P.JoinCount, F.Count;
    assert planned[0] in planned && planned[k] in planned;
    var n := P.GroupSize(planned);
    var group, e := planned[..n], planned[0];
    var cargo := GroupCargo(group);
    if e.fragment.Some? {
      var id := e.fragment.value;
      forall i | 0 <= i < F.Count(e) ensures Piece(id, i) in cargo {
        assert cargo[i] == Piece(id, i);
      }
    } else {
      if k > 0 {
        L.JoinedShareRoute(planned[1..], e.path, e.peerScope, P.NextBatchLen(0, |e.payload|), k - 1);
      }
      var items := L.ItemsOf(group);
      assert items[k].sequence == planned[k].sequence;
      assert Whole(items) in cargo && Lists(items, planned[k].sequence);
    }
  }

  lemma InMoreCargo(planned: seq<Planned>, k: nat, cargo: seq<Cargo>, more: seq<Cargo>)
    requires k < |planned| && planned[k].path.Valid() && InCargo(planned, k, cargo)
    requires forall c :: c in cargo ==> c in more
    ensures InCargo(planned, k, more)
  {
    hide Lists, F.Count;
  }

  lemma {:induction false} CargoCovers(planned: seq<Planned>, k: nat)
    requires P.PathsValid(planned) && k < |planned|
    ensures planned[k] in planned && InCargo(planned, k, CargoFor(planned))
    decreases |planned|
  {
    hide P.GroupSize, GroupCargo, InCargo;
    assert planned[k] in planned && planned[0] in planned;
    var n := P.GroupSize(planned);
    P.SuffixPathsValid(planned, n);
    if k < n {
      GroupCovers(planned, k);
      InMoreCargo(planned, k, GroupCargo(planned[..n]), CargoFor(planned));
    } else {
      CargoCovers(planned[n..], k - n);
      SameEntry(planned, n, k, CargoFor(planned[n..]));
      InMoreCargo(planned, k, CargoFor(planned[n..]), CargoFor(planned));
    }
  }

  lemma SameEntry(planned: seq<Planned>, n: nat, k: nat, cargo: seq<Cargo>)
    requires n <= k < |planned| && planned[k].path.Valid() && InCargo(planned[n..], k - n, cargo)
    ensures InCargo(planned, k, cargo)
  {
  }

  lemma {:induction false} PieceIsListed(cargo: seq<Cargo>, id: u32, i: nat)
    requires Piece(id, i) in cargo
    ensures F.Arrival(id, i) in Pieces(cargo)
    decreases |cargo|
  {
    if cargo[|cargo| - 1] != Piece(id, i) {
      assert Piece(id, i) in cargo[..|cargo| - 1];
      PieceIsListed(cargo[..|cargo| - 1], id, i);
    }
  }

  lemma SameCount(a: Planned, b: Planned)
    requires a.path.Valid() && b.path.Valid() && Alike(a, b)
    ensures F.Count(a) == F.Count(b)
  {
  }

  lemma InCargoIsReadable(x: Setting, planned: seq<Planned>, k: nat, cargo: seq<Cargo>)
    requires F.FlightOk(x.flight) && EntriesOf(x, planned) && k < |planned| && InCargo(planned, k, cargo)
    ensures Readable(x, cargo, planned[k].sequence)
  {
    hide Lists, F.Count, F.FlightOk;
    var e := planned[k];
    if e.fragment.None? {
      var c :| c in cargo && c.Whole? && Lists(c.items, e.sequence);
      var r :| 0 <= r < |cargo| && cargo[r] == c;
      assert ReadWhole(cargo, e.sequence);
    } else {
      var id := e.fragment.value;
      forall i | 0 <= i < F.Count(e) ensures i in F.Seen(Pieces(cargo), id) {
        PieceIsListed(cargo, id, i);
      }
      SameCount(x.flight[id], e);
      assert ReadId(x, cargo, e.sequence, id);
    }
  }

  /** When every frame arrives at least once, every datagram can be read. */
  lemma EveryFrameIsEnough(cfg: Config, d: Run, req: P.Request, start: P.Counters, t: seq<nat>, scope: Option<u32>,
                           peer: Option<u32>, q: u64)
    requires Roomy(cfg, d, req, start, scope, peer)
    requires forall i :: 0 <= i < |t| ==> t[i] < |FramesFor(req, start)|
    requires forall r :: 0 <= r < |FramesFor(req, start)| ==> r in t
    requires var planned := P.PlanUpTo(req, start, |req.datagrams|).planned;
      P.PathsValid(planned) && |CargoFor(planned)| == |FramesFor(req, start)|
    requires P.SequenceFor(start, peer) <= q < P.SequenceFor(start, peer) + |req.datagrams|
    ensures var x, planned := SettingFor(cfg, d, req, start, scope, peer),
        P.PlanUpTo(req, start, |req.datagrams|).planned;
      F.FlightOk(x.flight) && Readable(x, TraceCargo(CargoFor(planned), t), q)
  {
    hide P.PlanUpTo, P.SequenceFor, FlightOf, Readable, Fit.RequestFits, Serves, F.FlightOk, CargoFor, EntriesOf,
         FramesFor, InCargo, EvenlySplit, NothingFrom;
    var n := |req.datagrams|;
    var x, planned := SettingFor(cfg, d, req, start, scope, peer), P.PlanUpTo(req, start, n).planned;
    SettingIsOk(cfg, d, req, start, scope, peer);
    PlannedEntriesAre(req, start, peer, n);
    var cargo := CargoFor(planned);
    var brought := TraceCargo(cargo, t);
    forall c | c in cargo ensures c in brought {
      var r :| 0 <= r < |cargo| && cargo[r] == c;
      assert r in t;
      var i :| 0 <= i < |t| && t[i] == r;
      assert brought[i] == c;
    }
    assert HasEntry(planned, q);
    var k :| 0 <= k < |planned| && planned[k].sequence == q;
    CargoCovers(planned, k);
    InMoreCargo(planned, k, cargo, brought);
    InCargoIsReadable(x, planned, k, brought);
  }

  /** So then every datagram is emitted exactly once, in whatever order the frames came. */
  lemma EveryFrameEveryPayloadOnce(cfg: Config, d: Run, req: P.Request, start: P.Counters, arrivals: seq<Arrival>,
                                   t: seq<nat>, scope: Option<u32>, peer: Option<u32>)
    returns (order: seq<u64>, dups: nat)
    requires Roomy(cfg, d, req, start, scope, peer) && BringsAt(arrivals, FramesFor(req, start), t, scope)
    requires forall r :: 0 <= r < |FramesFor(req, start)| ==> r in t
    ensures var x, first := SettingFor(cfg, d, req, start, scope, peer), P.SequenceFor(start, peer);
      var r := ReceiveUpTo(cfg, d, arrivals, |arrivals|);
      && r.error.None? && Distinct(order) && (forall q :: q in order <==> first <= q < first + |req.datagrams|)
      && Gains(d.out, r.out, req.serviceId, EmissionsAt(x, order), |order|, dups)
  {
    hide P.PlanUpTo, P.SequenceFor, FlightOf, Gains, EmissionsAt, Readable, ReceiveUpTo, Fit.RequestFits, Serves,
         F.FlightOk, CargoFor, FramesFor, EvenlySplit, NothingFrom, Copies, CargoOk, TraceCargo;
    var n, first := |req.datagrams|, P.SequenceFor(start, peer);
    order, dups := EachReadablePayloadOnce(cfg, d, req, start, arrivals, t, scope, peer);
    forall q: u64 | first <= q < first + n ensures q in order {
      EveryFrameIsEnough(cfg, d, req, start, t, scope, peer, q);
    }
  }
}
