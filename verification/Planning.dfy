/** Giving datagrams sequence numbers and paths, and merging neighbours into batch frames. */
module Planning {
  import opened Bytes
  import opened FrameCodec
  import opened Plans
  import opened Fragmentation

  const BURST_BATCH_MIN_DATAGRAMS: nat := 2

  // ----- batch length arithmetic ----------------------------------------------

  function NextBatchLen(current: nat, payloadLen: nat): nat {
    if current == 0 then V1_HEADER_LEN + 2 + 2 + payloadLen else current + 2 + payloadLen
  }

  predicate CanExtendBatch(path: Path, current: nat, payloadLen: nat)
    requires path.Valid()
  {
    path.AcceptsWholePacket() && payloadLen <= path.MaxDataPayload() && NextBatchLen(current, payloadLen) <= path.mtu
  }

  predicate CanReuseBurstPathWithoutCoalescing(path: Path, payloadLen: nat, runLen: nat, maxRun: nat)
    requires path.Valid()
  {
    path.AcceptsWholePacket() && payloadLen <= path.MaxDataPayload() && runLen < maxRun
  }

  // ----- planning -------------------------------------------------------------

  /** What the compiled scheduler permits during a burst. */
  datatype Policy = Policy(allowBurstReuse: bool, allowNoncoalescedReuse: bool, maxPathRun: nat)

  /** One call: the datagrams, and for each the paths the scheduler would name if asked (none: no path). */
  datatype Request = Request(serviceId: u16, datagrams: seq<Received>, choices: seq<seq<Path>>, policy: Policy)
  {
    ghost predicate Valid() {
      && |choices| == |datagrams|
      && (forall i, p :: 0 <= i < |choices| && p in choices[i] ==> p.Valid())
      && (forall i :: 0 <= i < |choices| ==> DistinctIds(choices[i]))
    }

    predicate Bursting() { |datagrams| >= BURST_BATCH_MIN_DATAGRAMS }
  }

  ghost predicate DistinctIds(paths: seq<Path>) {
    forall i, j :: 0 <= i < j < |paths| ==> paths[i].id != paths[j].id
  }

  datatype Counters = Counters(nextSequences: map<Option<u32>, u64>, nextDatagramId: u32)

  /** The burst in progress: the path kept, the predicted length of its open frame, the datagrams on it. */
  datatype Burst = Burst(path: Option<Path>, batchLen: nat, runLen: nat)

  const NO_BURST: Burst := Burst(None, 0, 0)

  datatype PlanState = PlanState(counters: Counters, burst: Burst, planned: seq<Planned>, failed: bool)

  function NextDatagramId(id: u32): u32 { if id == U32_MAX then 1 else id + 1 }

  function SequenceFor(c: Counters, scope: Option<u32>): u64 {
    if scope in c.nextSequences then c.nextSequences[scope] else 1
  }

  ghost predicate BurstOk(b: Burst) { b.path.Some? ==> b.path.value.Valid() }

  predicate KeepsPath(policy: Policy, b: Burst, payloadLen: nat)
    requires BurstOk(b)
  {
    && b.path.Some?
    && policy.allowBurstReuse
    && (CanExtendBatch(b.path.value, b.batchLen, payloadLen)
        || (policy.allowNoncoalescedReuse
            && CanReuseBurstPathWithoutCoalescing(b.path.value, payloadLen, b.runLen, policy.maxPathRun)))
  }

  /** The paths for one datagram and the burst memory left by the selection. */
  function SelectPaths(req: Request, b: Burst, d: Received, choice: seq<Path>): (r: (seq<Path>, Burst))
    requires BurstOk(b)
  {
    if d.peerScope.Some? then (choice, NO_BURST)
    else if !req.Bursting() then (choice, b)
    else if KeepsPath(req.policy, b, |d.payload|) then ([b.path.value], b)
    else (choice, NO_BURST)
  }

  /** The burst memory after the datagram has been given its paths. */
  function UpdateBurst(b: Burst, path: Path, payloadLen: nat, resets: bool): Burst
    requires path.Valid()
  {
    if resets then NO_BURST
    else if b.path.Some? && b.path.value.id == path.id then
      Burst(b.path,
            NextBatchLen(if CanExtendBatch(path, b.batchLen, payloadLen) then b.batchLen else 0, payloadLen),
            b.runLen + 1)
    else Burst(Some(path), NextBatchLen(0, payloadLen), 1)
  }

  function Copies(serviceId: u16, d: Received, paths: seq<Path>, sequence: u64, fragment: Option<u32>)
    : (s: seq<Planned>)
    ensures |s| == |paths|
  {
    seq(|paths|, i requires 0 <= i < |paths| =>
      Planned(d.payload, d.source, d.peerScope, sequence, serviceId, paths[i], fragment, |paths| > 1))
  }

  /** One datagram: take a sequence, choose paths, decide on fragmentation, remember the burst. */
  function PlanStep(req: Request, st: PlanState, d: Received, choice: seq<Path>): (st': PlanState)
    requires BurstOk(st.burst) && !st.failed && forall p :: p in choice ==> p.Valid()
    ensures BurstOk(st'.burst)
  {
    var sequence := SequenceFor(st.counters, d.peerScope);
    var sequences := st.counters.nextSequences[d.peerScope := NextSequence(sequence)];
    var (paths, b) := SelectPaths(req, st.burst, d, choice);
    if paths == [] then PlanState(st.counters.(nextSequences := sequences), b, st.planned, true)
    else
      var oversized := |d.payload| > paths[0].MaxDataPayload();
      var id := st.counters.nextDatagramId;
      var fragment := if oversized then Some(id) else None;
      var b' := if req.Bursting() && d.peerScope.None?
                then UpdateBurst(b, paths[0], |d.payload|, |paths| > 1 || oversized) else b;
      PlanState(Counters(sequences, if oversized then NextDatagramId(id) else id), b',
                st.planned + Copies(req.serviceId, d, paths, sequence, fragment), false)
  }

  /** The state after the first `n` datagrams; a failure stops the planning where it happens. */
  function PlanUpTo(req: Request, start: Counters, n: nat): (st: PlanState)
    requires req.Valid() && n <= |req.datagrams|
    ensures BurstOk(st.burst)
    decreases n
  {
    if n == 0 then PlanState(start, NO_BURST, [], false)
    else
      var st := PlanUpTo(req, start, n - 1);
      if st.failed then st else PlanStep(req, st, req.datagrams[n - 1], req.choices[n - 1])
  }

  class CorePlanner {
    var nextSequences: map<Option<u32>, u64>
    var nextDatagramId: u32

    constructor ()
      ensures nextSequences == map[] && nextDatagramId == 1
    {
      nextSequences, nextDatagramId := map[], 1;
    }

    function Snapshot(): Counters
      reads this
    {
      Counters(nextSequences, nextDatagramId)
    }

    method NextSequenceFor(scope: Option<u32>) returns (current: u64)
      modifies this`nextSequences
      ensures current == SequenceFor(old(Snapshot()), scope)
      ensures nextSequences == old(nextSequences)[scope := NextSequence(current)]
    {
      current := if scope in nextSequences then nextSequences[scope] else 1;
      nextSequences := nextSequences[scope := if current == U64_MAX then 1 else current + 1];
    }

    method PlanDatagrams(req: Request) returns (r: Result<seq<Planned>, DataplaneError>)
      requires req.Valid()
      modifies this
      ensures var st := PlanUpTo(req, old(Snapshot()), |req.datagrams|);
        && Snapshot() == st.counters
        && r == if st.failed then Err(NoPathAvailable) else Ok(st.planned)
    {
      hide PlanUpTo, Copies, CanExtendBatch, CanReuseBurstPathWithoutCoalescing;
      ghost var start := Snapshot();
      var planned := [];
      var bursting := |req.datagrams| >= BURST_BATCH_MIN_DATAGRAMS;
      var burst := NO_BURST;
      PlanUpToStart(req, start);
      for i := 0 to |req.datagrams|
        invariant BurstOk(burst)
        invariant PlanUpTo(req, start, i) == PlanState(Snapshot(), burst, planned, false)
      {
        PlanUpToNext(req, start, i);
        var d, choice := req.datagrams[i], req.choices[i];
        var sequence := NextSequenceFor(d.peerScope);
        var paths;
        if d.peerScope.Some? {
          burst := NO_BURST;
          paths := choice;
        } else if bursting {
          if KeepsPath(req.policy, burst, |d.payload|) {
            paths := [burst.path.value];
          } else {
            burst := NO_BURST;
            paths := choice;
          }
        } else {
          paths := choice;
        }
        if paths == [] {
          PlanFailurePersists(req, start, i + 1, |req.datagrams|);
          return Err(NoPathAvailable);
        }
        var expectedFanout := |paths| > 1;
        var fragment: Option<u32> := None;
        if |d.payload| > paths[0].MaxDataPayload() {
          fragment := Some(nextDatagramId);
          nextDatagramId := if nextDatagramId == U32_MAX then 1 else nextDatagramId + 1;
        }
        if bursting && d.peerScope.None? {
          burst := UpdateBurst(burst, paths[0], |d.payload|, expectedFanout || fragment.Some?);
        }
        planned := planned + Copies(req.serviceId, d, paths, sequence, fragment);
      }
      r := Ok(planned);
    }
  }

  lemma PlanUpToStart(req: Request, start: Counters)
    requires req.Valid()
    ensures PlanUpTo(req, start, 0) == PlanState(start, NO_BURST, [], false)
  {
  }

  lemma PlanUpToNext(req: Request, start: Counters, n: nat)
    requires req.Valid() && n < |req.datagrams| && !PlanUpTo(req, start, n).failed
    ensures PlanUpTo(req, start, n + 1) == PlanStep(req, PlanUpTo(req, start, n), req.datagrams[n], req.choices[n])
  {
  }

  lemma {:induction false} PlanFailurePersists(req: Request, start: Counters, m: nat, n: nat)
    requires req.Valid() && m <= n <= |req.datagrams| && PlanUpTo(req, start, m).failed
    ensures PlanUpTo(req, start, n) == PlanUpTo(req, start, m)
    decreases n
  {
    if m < n {
      PlanFailurePersists(req, start, m, n - 1);
    }
  }

  // ----- sequences of neighbours ----------------------------------------------

  /** Whole neighbours on one path and scope carry consecutive sequences. */
  ghost predicate Consecutive(planned: seq<Planned>) {
    forall k :: 0 <= k < |planned| - 1 ==> Follows(planned[k], planned[k + 1])
  }

  ghost predicate Follows(a: Planned, b: Planned) {
    a.path.id == b.path.id && a.peerScope == b.peerScope ==> b.sequence == NextSequence(a.sequence)
  }

  /** The sequence after the last planned entry's is the next one its scope will hand out. */
  ghost predicate CountersFollow(st: PlanState) {
    st.planned != [] ==>
      var last := st.planned[|st.planned| - 1];
      && last.peerScope in st.counters.nextSequences
      && st.counters.nextSequences[last.peerScope] == NextSequence(last.sequence)
  }

  lemma PlanStepKeepsOrder(req: Request, st: PlanState, d: Received, choice: seq<Path>)
    requires BurstOk(st.burst) && !st.failed && (forall p :: p in choice ==> p.Valid()) && DistinctIds(choice)
    requires Consecutive(st.planned) && CountersFollow(st)
    ensures var st' := PlanStep(req, st, d, choice); !st'.failed ==> Consecutive(st'.planned) && CountersFollow(st')
  {
    hide CanExtendBatch, CanReuseBurstPathWithoutCoalescing, UpdateBurst, KeepsPath;
    var st' := PlanStep(req, st, d, choice);
    if !st'.failed {
      var sequence := SequenceFor(st.counters, d.peerScope);
      var paths := SelectPaths(req, st.burst, d, choice).0;
      assert DistinctIds(paths);
      var n := |st.planned|;
      forall k | 0 <= k < |st'.planned| - 1
        ensures Follows(st'.planned[k], st'.planned[k + 1])
      {
        if k + 1 < n {
          assert Follows(st.planned[k], st.planned[k + 1]);
        } else if k + 1 == n {
          assert st'.planned[k] == st.planned[n - 1];
        } else {
          assert st'.planned[k].path == paths[k - n] && st'.planned[k + 1].path == paths[k + 1 - n];
        }
      }
    }
  }

  lemma {:induction false} PlannedNeighboursFollow(req: Request, start: Counters, n: nat)
    requires req.Valid() && n <= |req.datagrams| && !PlanUpTo(req, start, n).failed
    ensures Consecutive(PlanUpTo(req, start, n).planned) && CountersFollow(PlanUpTo(req, start, n))
    decreases n
  {
    hide PlanStep, Consecutive, CountersFollow;
    if n == 0 {
      NothingPlanned(start);
    } else {
      PlannedNeighboursFollow(req, start, n - 1);
      PlanStepKeepsOrder(req, PlanUpTo(req, start, n - 1), req.datagrams[n - 1], req.choices[n - 1]);
    }
  }

  lemma NothingPlanned(start: Counters)
    ensures Consecutive([]) && CountersFollow(PlanState(start, NO_BURST, [], false))
  {
  }

  // ----- merging neighbours ---------------------------------------------------

  /** How many entries at the front of `rest` the coalescer adds to a frame already `len` bytes long. */
  function JoinCount(rest: seq<Planned>, path: Path, scope: Option<u32>, len: nat): (n: nat)
    ensures n <= |rest|
  {
    if rest == [] || rest[0].fragment.Some? || rest[0].path.id != path.id || rest[0].peerScope != scope
       || len + 2 + |rest[0].payload| > path.mtu then 0
    else 1 + JoinCount(rest[1..], path, scope, len + 2 + |rest[0].payload|)
  }

  /** The planned list cut into frames: an entry to be fragmented stands alone. */
  function Groups(planned: seq<Planned>): (groups: seq<seq<Planned>>)
    ensures planned != [] ==> groups != []
    ensures forall i :: 0 <= i < |groups| ==> groups[i] != []
  {
    if planned == [] then []
    else
      var n := GroupSize(planned);
      [planned[..n]] + Groups(planned[n..])
  }

  function GroupSize(planned: seq<Planned>): (n: nat)
    requires planned != []
    ensures 1 <= n <= |planned|
  {
    var current := planned[0];
    if current.fragment.Some? then 1
    else 1 + JoinCount(planned[1..], current.path, current.peerScope, NextBatchLen(0, |current.payload|))
  }

  function PayloadsOf(group: seq<Planned>): (s: seq<bytes>)
    ensures |s| == |group|
  {
    seq(|group|, i requires 0 <= i < |group| => group[i].payload)
  }

  function MetasOf(group: seq<Planned>): (s: seq<Meta>)
    ensures |s| == |group|
  {
    seq(|group|, i requires 0 <= i < |group| => group[i].ToMeta())
  }

  function FragmentPlans(d: Planned): (s: seq<FramePlan>)
    requires d.path.Valid() && Fragmentable(d)
  {
    var n := Count(d);
    seq(n, i requires 0 <= i < n => FramePlan(FragmentFrame(d, d.fragment.value, i), d.path, [d.ToMeta()], n))
  }

  /** The frames of one group, or `None` where a frame constructor would refuse. */
  function GroupFrames(serviceId: u16, group: seq<Planned>): (r: Option<seq<FramePlan>>)
    requires group != [] && group[0].path.Valid()
  {
    var first := group[0];
    if first.fragment.Some? then
      if Fragmentable(first) then Some(FragmentPlans(first)) else None
    else if |group| > 1 then
      if BatchEncodable(PayloadsOf(group)) then
        Some([FramePlan(Frame(Batch, serviceId, first.path.id, first.sequence, None, EncodeBatch(PayloadsOf(group))),
                        first.path, MetasOf(group), 1)])
      else None
    else if |first.payload| <= MAX_FRAME_PAYLOAD_LEN then
      Some([FramePlan(Frame(Data, serviceId, first.path.id, first.sequence, None, first.payload),
                      first.path, [first.ToMeta()], 1)])
    else None
  }

  ghost predicate PathsValid(planned: seq<Planned>) {
    forall e :: e in planned ==> e.path.Valid()
  }

  lemma SuffixPathsValid(planned: seq<Planned>, n: nat)
    requires PathsValid(planned) && n <= |planned|
    ensures PathsValid(planned[..n]) && PathsValid(planned[n..])
  {
  }

  function Coalesce(serviceId: u16, planned: seq<Planned>): (r: Option<seq<FramePlan>>)
    requires PathsValid(planned)
  {
    if planned == [] then Some([])
    else
      var n := GroupSize(planned);
      SuffixPathsValid(planned, n);
      match GroupFrames(serviceId, planned[..n])
      case None => None
      case Some(frames) =>
        match Coalesce(serviceId, planned[n..])
        case None => None
        case Some(rest) => Some(frames + rest)
  }

  method CoalescePlannedFrames(serviceId: u16, planned: seq<Planned>)
    returns (r: Result<seq<FramePlan>, DataplaneError>)
    requires PathsValid(planned)
    ensures r.Ok? <==> Coalesce(serviceId, planned).Some?
    ensures r.Ok? ==> r.value == Coalesce(serviceId, planned).value
  {
    hide Coalesce, GroupFrames, JoinCount, Fragmentable, FragmentFrame;
    var frames := [];
    var i := 0;
    CoalesceNothing(serviceId, planned);
    while i < |planned|
      invariant 0 <= i <= |planned|
      invariant PathsValid(planned[i..])
      invariant Coalesce(serviceId, planned) == Prepend(frames, Coalesce(serviceId, planned[i..]))
    {
      var current := planned[i];
      assert current in planned;
      CoalesceStep(serviceId, planned[i..]);
      if current.fragment.Some? {
        GroupOfOne(serviceId, planned[i..]);
        var fragments := FragmentDatagram(current);
        if fragments.Err? {
          return Err(fragments.error);
        }
        SuffixPathsValid(planned[i..], 1);
        assert fragments.value == FragmentPlans(current);
        PrependTwice(frames, fragments.value, Coalesce(serviceId, planned[i..][1..]));
        assert planned[i..][1..] == planned[i + 1..];
        frames := frames + fragments.value;
        i := i + 1;
        continue;
      }
      var j := JoinNeighbours(planned, i);
      var group := planned[i..j];
      assert planned[i..][..j - i] == group && planned[i..][j - i..] == planned[j..];
      var frame := BuildFrame(serviceId, group);
      if frame.Err? {
        return Err(frame.error);
      }
      SuffixPathsValid(planned[i..], j - i);
      PrependTwice(frames, [frame.value], Coalesce(serviceId, planned[j..]));
      frames := frames + [frame.value];
      i := j;
    }
    assert planned[i..] == [];
    CoalesceEmpty(serviceId);
    assert frames + [] == frames;
    r := Ok(frames);
  }

  function Prepend(frames: seq<FramePlan>, rest: Option<seq<FramePlan>>): Option<seq<FramePlan>> {
    if rest.Some? then Some(frames + rest.value) else None
  }

  lemma PrependTwice(a: seq<FramePlan>, b: seq<FramePlan>, rest: Option<seq<FramePlan>>)
    ensures Prepend(a, Prepend(b, rest)) == Prepend(a + b, rest)
  {
    if rest.Some? {
      assert a + (b + rest.value) == a + b + rest.value;
    }
  }

  lemma CoalesceEmpty(serviceId: u16)
    ensures Coalesce(serviceId, []) == Some([])
  {
  }

  lemma CoalesceNothing(serviceId: u16, planned: seq<Planned>)
    requires PathsValid(planned)
    ensures PathsValid(planned[0..]) && Coalesce(serviceId, planned) == Prepend([], Coalesce(serviceId, planned[0..]))
  {
    assert planned[0..] == planned;
    var c := Coalesce(serviceId, planned);
    assert c.Some? ==> [] + c.value == c.value;
  }

  lemma CoalesceStep(serviceId: u16, planned: seq<Planned>)
    requires planned != [] && PathsValid(planned)
    ensures var n := GroupSize(planned);
      && PathsValid(planned[n..])
      && Coalesce(serviceId, planned) ==
         (var frames := GroupFrames(serviceId, planned[..n]);
          if frames.None? then None else Prepend(frames.value, Coalesce(serviceId, planned[n..])))
  {
    hide GroupFrames, JoinCount;
    SuffixPathsValid(planned, GroupSize(planned));
  }

  lemma GroupOfOne(serviceId: u16, planned: seq<Planned>)
    requires planned != [] && PathsValid(planned) && planned[0].fragment.Some?
    ensures GroupSize(planned) == 1
    ensures GroupFrames(serviceId, planned[..1]) ==
            if Fragmentable(planned[0]) then Some(FragmentPlans(planned[0])) else None
  {
  }

  /** The inner loop: how far the group starting at `i` reaches. */
  method JoinNeighbours(planned: seq<Planned>, i: nat) returns (j: nat)
    requires i < |planned| && planned[i].fragment.None?
    ensures i < j <= |planned| && j - i == GroupSize(planned[i..])
  {
    var path, scope := planned[i].path, planned[i].peerScope;
    var batchLen: nat := V1_HEADER_LEN + 2 + 2 + |planned[i].payload|;
    j := i + 1;
    assert planned[i..][1..] == planned[j..];
    while j < |planned|
      invariant i < j <= |planned|
      invariant GroupSize(planned[i..]) == (j - i) + JoinCount(planned[j..], path, scope, batchLen)
    {
      var candidate := planned[j];
      if candidate.fragment.Some? || candidate.path.id != path.id || candidate.peerScope != scope {
        break;
      }
      var candidateLen := 2 + |candidate.payload|;
      if batchLen + candidateLen > path.mtu {
        break;
      }
      assert planned[j..][1..] == planned[j + 1..];
      j := j + 1;
      batchLen := batchLen + candidateLen;
    }
  }

  /** A batch frame for several entries, a data frame for one. */
  method BuildFrame(serviceId: u16, group: seq<Planned>) returns (r: Result<FramePlan, DataplaneError>)
    requires group != [] && group[0].path.Valid() && group[0].fragment.None?
    ensures GroupFrames(serviceId, group) == if r.Ok? then Some([r.value]) else None
  {
    var first := group[0];
    if |group| > 1 {
      var payload := EncodeBatchPayload(PayloadsOf(group));
      if payload.Err? {
        return Err(Protocol(payload.error));
      }
      r := Ok(FramePlan(Frame(Batch, serviceId, first.path.id, first.sequence, None, payload.value), first.path,
        MetasOf(group), 1));
    } else {
      var frame := NewFrame(Data, serviceId, first.path.id, first.sequence, None, first.payload);
      if frame.Err? {
        return Err(Protocol(frame.error));
      }
      r := Ok(FramePlan(frame.value, first.path, [first.ToMeta()], 1));
    }
  }
}
