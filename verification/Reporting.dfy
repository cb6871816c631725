/** What reaches the reports: the planned datagrams carry their own source, length, peer and sequence all the way. */
module Reporting {
  import opened Bytes
  import opened FrameCodec
  import opened Plans
  import opened Fragmentation
  import opened Planning
  import opened Transmit
  import opened Wire

  // ----- from datagrams to planned entries ------------------------------------

  /** The entry is a copy of datagram `i` of the request, under its sequence, marked when there is another. */
  ghost predicate CopyOf(req: Request, st: PlanState, st': PlanState, i: nat, e: Planned)
    requires i < |req.datagrams|
  {
    var d := req.datagrams[i];
    && e.payload == d.payload && e.source == d.source && e.peerScope == d.peerScope && e.serviceId == req.serviceId
    && (d.peerScope in st.counters.nextSequences ==> e.sequence == st.counters.nextSequences[d.peerScope])
    && (d.peerScope !in st.counters.nextSequences ==> e.sequence == 1)
    && (e.expectedFanout <==> |st'.planned| > |st.planned| + 1)
    && (e.fragment.Some? ==> e.fragment.value == st.counters.nextDatagramId)
    && st'.counters.nextDatagramId ==
       (if e.fragment.Some? then st.counters.nextDatagramId % U32_MAX + 1 else st.counters.nextDatagramId)
  }

  /** Planning the next datagram appends its copies, at least one, and changes no other peer's sequence. */
  lemma NextDatagramIsAppended(req: Request, start: Counters, n: nat)
    requires req.Valid() && n < |req.datagrams| && !PlanUpTo(req, start, n + 1).failed
    ensures var st, st' := PlanUpTo(req, start, n), PlanUpTo(req, start, n + 1);
      && !st.failed && |st'.planned| > |st.planned| && st'.planned[..|st.planned|] == st.planned
      && (forall k :: |st.planned| <= k < |st'.planned| ==> CopyOf(req, st, st', n, st'.planned[k]))
      && (forall scope :: scope != req.datagrams[n].peerScope ==>
            SequenceFor(st'.counters, scope) == SequenceFor(st.counters, scope))
      && SequenceFor(st'.counters, req.datagrams[n].peerScope) ==
         NextSequence(SequenceFor(st.counters, req.datagrams[n].peerScope))
  {
    hide CanExtendBatch, CanReuseBurstPathWithoutCoalescing, UpdateBurst, KeepsPath;
    PlanUpToNext(req, start, n);
    var st, st' := PlanUpTo(req, start, n), PlanUpTo(req, start, n + 1);
    assert st'.planned[..|st.planned|] == st.planned;
  }

  /** A datagram for a peer goes exactly where the scheduler says, and leaves no path for the next one to stay on. */
  lemma ScopedGoesWhereTold(req: Request, start: Counters, n: nat)
    requires req.Valid() && n < |req.datagrams| && req.datagrams[n].peerScope.Some?
    requires !PlanUpTo(req, start, n + 1).failed
    ensures var st, st' := PlanUpTo(req, start, n), PlanUpTo(req, start, n + 1);
      && st'.burst == NO_BURST && |st'.planned| == |st.planned| + |req.choices[n]|
      && forall k :: |st.planned| <= k < |st'.planned| ==> st'.planned[k].path == req.choices[n][k - |st.planned|]
  {
    hide CanExtendBatch, CanReuseBurstPathWithoutCoalescing, UpdateBurst, KeepsPath;
    PlanUpToNext(req, start, n);
  }

  // ----- from planned entries to frames ---------------------------------------

  /** What is told of an entry: once, or once for every fragment. */
  function ToldOf(e: Planned): seq<Meta>
    requires e.path.Valid()
  {
    var meta := Meta.Meta(e.source, e.peerScope, e.sequence, e.expectedFanout, |e.payload|);
    if e.fragment.Some? && Fragmentable(e) then seq(Count(e), _ => meta) else [meta]
  }

  function Told(planned: seq<Planned>): seq<Meta>
    requires PathsValid(planned)
  {
    if planned == [] then [] else ToldOf(planned[0]) + Told(planned[1..])
  }

  /** The datagrams the frames carry, frame by frame. */
  function MetasIn(frames: seq<FramePlan>): seq<Meta> {
    if frames == [] then [] else frames[0].datagrams + MetasIn(frames[1..])
  }

  lemma {:induction false} MetasInAppend(a: seq<FramePlan>, b: seq<FramePlan>)
    ensures MetasIn(a + b) == MetasIn(a) + MetasIn(b)
    decreases |a|
  {
    if a == [] {
      assert a + b == b;
    } else {
      MetasInAppend(a[1..], b);
      assert (a + b)[1..] == a[1..] + b;
      assert a[0].datagrams + (MetasIn(a[1..]) + MetasIn(b)) == a[0].datagrams + MetasIn(a[1..]) + MetasIn(b);
    }
  }

  lemma {:induction false} ToldAppend(a: seq<Planned>, b: seq<Planned>)
    requires PathsValid(a) && PathsValid(b)
    ensures PathsValid(a + b) && Told(a + b) == Told(a) + Told(b)
    decreases |a|
  {
    hide ToldOf;
    if a == [] {
      assert a + b == b;
    } else {
      ToldAppend(a[1..], b);
      assert (a + b)[1..] == a[1..] + b;
      assert ToldOf(a[0]) + (Told(a[1..]) + Told(b)) == ToldOf(a[0]) + Told(a[1..]) + Told(b);
    }
  }

  lemma {:induction false} SameMetas(frames: seq<FramePlan>, meta: Meta)
    requires forall i :: 0 <= i < |frames| ==> frames[i].datagrams == [meta]
    ensures MetasIn(frames) == seq(|frames|, _ => meta)
    decreases |frames|
  {
    if frames == [] {
    } else {
      SameMetas(frames[1..], meta);
    }
  }

  lemma {:induction false} ToldWhole(group: seq<Planned>)
    requires PathsValid(group) && forall i :: 0 <= i < |group| ==> group[i].fragment.None?
    ensures Told(group) == MetasOf(group)
    decreases |group|
  {
    if group == [] {
    } else {
      ToldWhole(group[1..]);
      assert MetasOf(group) == [group[0].ToMeta()] + MetasOf(group[1..]);
    }
  }

  lemma {:induction false} JoinedAreWhole(rest: seq<Planned>, path: Path, scope: Option<u32>, len: nat)
    ensures forall i :: 0 <= i < JoinCount(rest, path, scope, len) ==> rest[i].fragment.None?
    decreases |rest|
  {
    if JoinCount(rest, path, scope, len) == 0 {
    } else {
      JoinedAreWhole(rest[1..], path, scope, len + 2 + |rest[0].payload|);
    }
  }

  lemma GroupIsTold(serviceId: u16, planned: seq<Planned>)
    requires planned != [] && PathsValid(planned)
    requires GroupFrames(serviceId, planned[..GroupSize(planned)]).Some?
    ensures PathsValid(planned[..GroupSize(planned)])
    ensures var group := planned[..GroupSize(planned)];
      MetasIn(GroupFrames(serviceId, group).value) == Told(group)
  {
    var group, first := planned[..GroupSize(planned)], planned[0];
    var frames := GroupFrames(serviceId, group).value;
    if first.fragment.Some? {
      SameMetas(frames, first.ToMeta());
      assert group == [first];
      assert Told(group) == ToldOf(first) + [];
    } else {
      JoinedAreWhole(planned[1..], first.path, first.peerScope, NextBatchLen(0, |first.payload|));
      assert forall i :: 1 <= i < |group| ==> group[i] == planned[1..][i - 1];
      ToldWhole(group);
      assert MetasIn(frames) == frames[0].datagrams + [];
    }
  }

  /** However the entries are merged or cut: the frames carry each entry's own data, in order, once or once per
      fragment. */
  lemma {:induction false} FramesCarryTheirEntries(serviceId: u16, planned: seq<Planned>)
    requires PathsValid(planned) && Coalesce(serviceId, planned).Some?
    ensures MetasIn(Coalesce(serviceId, planned).value) == Told(planned)
    decreases |planned|
  {
    hide GroupFrames, GroupSize, ToldOf;
    if planned == [] {
    } else {
      var n := GroupSize(planned);
      SuffixPathsValid(planned, n);
      var frames, rest := GroupFrames(serviceId, planned[..n]).value, Coalesce(serviceId, planned[n..]).value;
      GroupIsTold(serviceId, planned);
      FramesCarryTheirEntries(serviceId, planned[n..]);
      MetasInAppend(frames, rest);
      ToldAppend(planned[..n], planned[n..]);
      assert planned == planned[..n] + planned[n..];
    }
  }

  /** What the transmitter reports on is what the frames carry. */
  lemma {:induction false} CarriedAreMetas(plans: seq<FramePlan>)
    ensures |Carried(plans)| == |MetasIn(plans)|
    ensures forall j :: 0 <= j < |Carried(plans)| ==> Carried(plans)[j].1 == MetasIn(plans)[j]
    decreases |plans|
  {
    if plans == [] {
    } else {
      var init, plan := plans[..|plans| - 1], plans[|plans| - 1];
      CarriedAreMetas(init);
      assert plans == init + [plan];
      MetasInAppend(init, [plan]);
      assert MetasIn([plan]) == plan.datagrams + [];
    }
  }

  // ----- one peer, one path per frame -----------------------------------------

  /** All datagrams of the frame came with the peer the frame will be sealed for. */
  ghost predicate OnePeer(plan: FramePlan) {
    forall d :: d in plan.datagrams ==> d.peerScope == FirstScope(plan.datagrams)
  }

  lemma {:induction false} SameScopes(metas: seq<Meta>, scope: Option<u32>)
    requires metas != [] && forall i :: 0 <= i < |metas| ==> metas[i].peerScope == scope
    ensures FirstScope(metas) == scope
    decreases |metas|
  {
    if |metas| > 1 {
      SameScopes(metas[1..], scope);
    }
  }

  lemma {:induction false} JoinedShareScope(rest: seq<Planned>, path: Path, scope: Option<u32>, len: nat)
    ensures forall i :: 0 <= i < JoinCount(rest, path, scope, len) ==> rest[i].peerScope == scope
    decreases |rest|
  {
    if JoinCount(rest, path, scope, len) == 0 {
    } else {
      JoinedShareScope(rest[1..], path, scope, len + 2 + |rest[0].payload|);
    }
  }

  lemma GroupHasOnePeer(serviceId: u16, planned: seq<Planned>)
    requires planned != [] && PathsValid(planned)
    requires GroupFrames(serviceId, planned[..GroupSize(planned)]).Some?
    ensures forall f :: f in GroupFrames(serviceId, planned[..GroupSize(planned)]).value ==> OnePeer(f)
  {
    hide FirstScope;
    var group, first := planned[..GroupSize(planned)], planned[0];
    JoinedShareScope(planned[1..], first.path, first.peerScope, NextBatchLen(0, |first.payload|));
    assert forall i :: 1 <= i < |group| ==> group[i] == planned[1..][i - 1];
    forall f | f in GroupFrames(serviceId, group).value
      ensures OnePeer(f)
    {
      assert forall i :: 0 <= i < |f.datagrams| ==> f.datagrams[i].peerScope == first.peerScope;
      SameScopes(f.datagrams, first.peerScope);
    }
  }

  /** Datagrams of different peers never share a frame, so each is sealed for its own. */
  lemma {:induction false} OnePeerPerFrame(serviceId: u16, planned: seq<Planned>)
    requires PathsValid(planned) && Coalesce(serviceId, planned).Some?
    ensures forall f :: f in Coalesce(serviceId, planned).value ==> OnePeer(f)
    decreases |planned|
  {
    hide GroupFrames, GroupSize, OnePeer;
    if planned == [] {
    } else {
      var n := GroupSize(planned);
      SuffixPathsValid(planned, n);
      GroupHasOnePeer(serviceId, planned);
      OnePeerPerFrame(serviceId, planned[n..]);
    }
  }
}
