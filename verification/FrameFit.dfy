/** Every frame the coalescer or the fragmenter builds fits the path it was planned for. */
module FrameFit {
  import opened Bytes
  import opened FrameCodec
  import opened Plans
  import opened Fragmentation
  import opened Planning
  import opened Delivery

  /** The largest MTU whose batch payload still fits the 16-bit payload limit. */
  const MAX_SAFE_MTU: nat := 65549

  /** Encoded length of the batch frame a group would become. */
  function GroupLen(group: seq<Planned>): (n: nat)
    ensures n >= V1_HEADER_LEN + 2
  {
    V1_HEADER_LEN + BatchLen(PayloadsOf(group))
  }

  lemma GroupLenCons(first: Planned, rest: seq<Planned>)
    ensures GroupLen([first] + rest) == 2 + |first.payload| + GroupLen(rest)
  {
    assert PayloadsOf([first] + rest)[1..] == PayloadsOf(rest);
  }

  lemma GroupLenNone()
    ensures GroupLen([]) == V1_HEADER_LEN + 2
  {
  }

  /** The coalescer's running length never passes the MTU once it has merged anything. */
  lemma {:induction false} JoinedFit(rest: seq<Planned>, path: Path, scope: Option<u32>, len: nat)
    ensures var n := JoinCount(rest, path, scope, len);
      n > 0 ==> len + GroupLen(rest[..n]) - V1_HEADER_LEN - 2 <= path.mtu
    decreases |rest|
  {
    hide GroupLen;
    var n := JoinCount(rest, path, scope, len);
    if n == 0 {
    } else {
      JoinedFit(rest[1..], path, scope, len + 2 + |rest[0].payload|);
      assert rest[..n] == [rest[0]] + rest[1..][..n - 1];
      GroupLenCons(rest[0], rest[1..][..n - 1]);
      if n == 1 {
        assert rest[1..][..0] == [];
        GroupLenNone();
      }
    }
  }

  lemma GroupFits(planned: seq<Planned>)
    requires planned != [] && GroupSize(planned) > 1
    ensures GroupLen(planned[..GroupSize(planned)]) <= planned[0].path.mtu
  {
    hide GroupLen, JoinCount;
    var n := GroupSize(planned);
    var first := planned[0];
    JoinedFit(planned[1..], first.path, first.peerScope, NextBatchLen(0, |first.payload|));
    assert planned[..n] == [first] + planned[1..][..n - 1];
    GroupLenCons(first, planned[1..][..n - 1]);
  }

  /** The entry fits its path whole, or is marked for fragmentation. */
  ghost predicate Fits(e: Planned) {
    && e.path.Valid() && e.path.mtu <= MAX_SAFE_MTU && |e.payload| <= U16_MAX
    && (e.fragment.Some? || |e.payload| <= e.path.MaxDataPayload())
  }

  ghost predicate AllFit(planned: seq<Planned>) {
    forall e :: e in planned ==> Fits(e)
  }

  lemma {:induction false} FewChunks(payload: bytes, size: nat)
    requires size > 0
    ensures |Chunks(payload, size)| <= |payload|
    decreases |payload|
  {
    hide DivCeil;
    if |payload| > size {
      FewChunks(payload[size..], size);
    }
  }

  lemma FragmentsFit(d: Planned)
    requires Fits(d) && d.fragment.Some?
    ensures Fragmentable(d)
    ensures forall i :: 0 <= i < |FragmentPlans(d)| ==>
              FragmentPlans(d)[i].path == d.path && EncodedV1Len(FragmentPlans(d)[i].frame) <= d.path.mtu
  {
    hide Chunks, EncodeV1;
    FewChunks(d.payload, d.path.MaxFragmentPayload());
    var chunks := Chunks(d.payload, d.path.MaxFragmentPayload());
    forall i | 0 <= i < |FragmentPlans(d)|
      ensures FragmentPlans(d)[i].path == d.path && EncodedV1Len(FragmentPlans(d)[i].frame) <= d.path.mtu
    {
      assert chunks[i] in chunks;
    }
  }

  ghost predicate PlansFit(plans: seq<FramePlan>) {
    forall i :: 0 <= i < |plans| ==> EncodedV1Len(plans[i].frame) <= plans[i].path.mtu
  }

  lemma GroupFramesFit(serviceId: u16, planned: seq<Planned>)
    requires planned != [] && Fits(planned[0])
    ensures var group := planned[..GroupSize(planned)];
      GroupFrames(serviceId, group).Some? && PlansFit(GroupFrames(serviceId, group).value)
  {
    hide Fragmentable, JoinCount, EncodeV1, FragmentFrame;
    var group := planned[..GroupSize(planned)];
    assert group[0] == planned[0];
    if group[0].fragment.Some? {
      FragmentsFit(group[0]);
    } else if |group| > 1 {
      GroupFits(planned);
      assert BatchEncodable(PayloadsOf(group));
    }
  }

  /** Building never fails and every encoded frame is at most its path's MTU. */
  lemma {:induction false} CoalescedFramesFit(serviceId: u16, planned: seq<Planned>)
    requires PathsValid(planned) && AllFit(planned)
    ensures Coalesce(serviceId, planned).Some? && PlansFit(Coalesce(serviceId, planned).value)
    decreases |planned|
  {
    hide Coalesce, GroupFrames, GroupSize, EncodedV1Len;
    if planned == [] {
      CoalesceEmpty(serviceId);
    } else {
      var n := GroupSize(planned);
      CoalesceStep(serviceId, planned);
      assert planned[0] in planned;
      GroupFramesFit(serviceId, planned);
      assert AllFit(planned[n..]);
      CoalescedFramesFit(serviceId, planned[n..]);
    }
  }

  /** Planning decides by the first path whether to fragment. */
  predicate Oversized(paths: seq<Path>, len: nat) { paths != [] && paths[0].Valid() && len > paths[0].MaxDataPayload() }

  /** What a caller supplies: moderate MTUs and payloads, and paths that all carry the datagram whole unless the first
      one does not. */
  ghost predicate RequestFits(req: Request) {
    forall i, p :: 0 <= i < |req.choices| && i < |req.datagrams| && p in req.choices[i] ==>
      && p.mtu <= MAX_SAFE_MTU && |req.datagrams[i].payload| <= U16_MAX
      && (|| Oversized(req.choices[i], |req.datagrams[i].payload|)
          || (p.Valid() && |req.datagrams[i].payload| <= p.MaxDataPayload()))
  }

  lemma PlanStepFits(req: Request, st: PlanState, i: nat)
    requires req.Valid() && i < |req.datagrams| && RequestFits(req)
    requires BurstOk(st.burst) && !st.failed && (st.burst.path.Some? ==> st.burst.path.value.mtu <= MAX_SAFE_MTU)
    ensures var st' := PlanStep(req, st, req.datagrams[i], req.choices[i]); !st'.failed ==>
      && (st'.burst.path.Some? ==> st'.burst.path.value.mtu <= MAX_SAFE_MTU)
      && forall k :: |st.planned| <= k < |st'.planned| ==> Fits(st'.planned[k])
  {
    var d, choice := req.datagrams[i], req.choices[i];
    var st' := PlanStep(req, st, d, choice);
    var paths := SelectPaths(req, st.burst, d, choice).0;
    if !st'.failed {
      assert paths == choice ==> paths[0] in choice;
      forall k | |st.planned| <= k < |st'.planned| ensures Fits(st'.planned[k]) {
        var p := paths[k - |st.planned|];
        assert st'.planned[k].path == p;
        if paths == choice {
          assert p in choice;
        }
      }
    }
  }

  lemma {:induction false} PlannedFits(req: Request, start: Counters, n: nat)
    requires req.Valid() && RequestFits(req) && n <= |req.datagrams| && !PlanUpTo(req, start, n).failed
    ensures var st := PlanUpTo(req, start, n);
      && (st.burst.path.Some? ==> st.burst.path.value.mtu <= MAX_SAFE_MTU)
      && (forall k :: 0 <= k < |st.planned| ==> Fits(st.planned[k]))
    decreases n
  {
    hide PlanStep, Fits, RequestFits;
    if n == 0 {
    } else {
      var st := PlanUpTo(req, start, n - 1);
      PlannedFits(req, start, n - 1);
      PlanStepFits(req, st, n - 1);
      PlanStepEntries(req, st, req.datagrams[n - 1], req.choices[n - 1]);
    }
  }

  /** From a request to frames: planning that succeeds always coalesces, into frames that fit. */
  lemma PlannedFramesFit(req: Request, start: Counters)
    requires req.Valid() && RequestFits(req) && !PlanUpTo(req, start, |req.datagrams|).failed
    ensures var planned := PlanUpTo(req, start, |req.datagrams|).planned;
      PathsValid(planned) && Coalesce(req.serviceId, planned).Some? && PlansFit(Coalesce(req.serviceId, planned).value)
  {
    hide PlanUpTo, Coalesce, PlansFit;
    PlannedFits(req, start, |req.datagrams|);
    CoalescedFramesFit(req.serviceId, PlanUpTo(req, start, |req.datagrams|).planned);
  }
}
