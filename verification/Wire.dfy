/** What goes out on the wire for a run of planned frames, plan by plan; and what the run reports. */
module Wire {
  import opened Bytes
  import opened FrameCodec
  import opened Envelope
  import opened Plans
  import opened Security
  import opened Transmit

  // ----- what each frame is sealed under --------------------------------------

  /** The packet of job `i` before any relay: plain, or sealed under the one session or the job's own session with the
      next of its counters. */
  ghost predicate Protects(a: Aead, sec: Security, jobs: seq<Job>, i: nat, packet: bytes)
    requires i < |jobs|
  {
    match sec
    case Plain => packet == EncodeV1(jobs[i].frame)
    case Single(s) =>
      && s.nextCounter + i < U64_MAX
      && packet == EncryptPacket(a, s.key, s.remoteIndex, s.nextCounter + i, EncodeV2(jobs[i].frame))
    case Sessions(_, _, _) => SealedForOne(a, sec, jobs, i, packet)
  }

  lemma {:induction false} SingleRun(a: Aead, s: Sender, jobs: seq<Job>)
    requires ProtectEach(a, Single(s), jobs).Ok?
    ensures var (sec, packets) := ProtectEach(a, Single(s), jobs).value;
      && s.nextCounter + |jobs| <= U64_MAX && sec == Single(s.(nextCounter := s.nextCounter + |jobs|))
      && |packets| == |jobs|
      && forall i :: 0 <= i < |jobs| ==> Protects(a, Single(s), jobs, i, packets[i])
    decreases |jobs|
  {
    hide ProtectFrame, ProtectEach, EncryptPacket, EncodeV2, EncodeV1;
    if jobs == [] {
      ProtectNothing(a, Single(s));
    } else {
      var init, job := jobs[..|jobs| - 1], jobs[|jobs| - 1];
      assert jobs == init + [job];
      ProtectEachSnoc(a, Single(s), init, job);
      SingleRun(a, s, init);
      var (mid, packets) := ProtectEach(a, Single(s), init).value;
      OtherwiseProtected(a, mid, job.serviceId, job.explicit, job.frame, 0);
      var all := ProtectEach(a, Single(s), jobs).value.1;
      forall i | 0 <= i < |jobs|
        ensures Protects(a, Single(s), jobs, i, all[i])
      {
        assert i < |init| ==> Protects(a, Single(s), init, i, packets[i]);
      }
    }
  }

  lemma EachProtected(a: Aead, sec: Security, jobs: seq<Job>)
    requires ProtectEach(a, sec, jobs).Ok?
    ensures var packets := ProtectEach(a, sec, jobs).value.1;
      |packets| == |jobs| && forall i :: 0 <= i < |jobs| ==> Protects(a, sec, jobs, i, packets[i])
  {
    hide ProtectEach, SealedForOne, EncryptPacket, EncodeV2, EncodeV1;
    match sec
    case Plain => PlainRun(a, sec, jobs);
    case Single(s) => SingleRun(a, s, jobs);
    case Sessions(_, _, _) => EachUnderItsOwnSession(a, sec, jobs);
  }

  // ----- what leaves the sockets ----------------------------------------------

  /** The peer whose learned return address a plan may use: its session's, or the one its datagrams name. */
  ghost predicate PeerOf(sec: Security, plan: FramePlan, peer: Option<u32>) {
    if sec.Sessions? then
      var explicit := FirstScope(plan.datagrams);
      (peer.Some? && Chooses(sec, plan.frame.serviceId, explicit, peer.value)) ||
      (peer.None? && ChoosesNone(sec, plan.frame.serviceId, explicit))
    else peer == FirstScope(plan.datagrams)
  }

  /** Where a plan is sent: to the address learned for its peer on its path, and without one to the path's remote. */
  ghost predicate SentTo(env: Env, sec: Security, plan: FramePlan, addr: Addr) {
    exists peer :: PeerOf(sec, plan, peer) &&
      if peer.Some? && (peer.value, plan.path.id) in env.learned then addr == env.learned[(peer.value, plan.path.id)]
      else plan.path.remote == Some(addr)
  }

  lemma RouteIsSentTo(env: Env, sec: Security, plan: FramePlan)
    requires Route(env, sec, plan).Some?
    ensures SentTo(env, sec, plan, Route(env, sec, plan).value)
  {
    hide FirstScope;
    assert PeerOf(sec, plan, KeyOf(sec, plan));
  }

  /** How many of the plans go out on a path. */
  function PlansOn(plans: seq<FramePlan>, pathId: u16): nat {
    if plans == [] then 0
    else PlansOn(plans[..|plans| - 1], pathId) + if plans[|plans| - 1].path.id == pathId then 1 else 0
  }

  lemma {:induction false} RequestsOn(plans: seq<FramePlan>, reqs: seq<Send>, pathId: u16)
    requires |reqs| == |plans| && forall i :: 0 <= i < |reqs| ==> reqs[i].pathId == plans[i].path.id
    ensures SendsOn(reqs, pathId) == PlansOn(plans, pathId)
    decreases |plans|
  {
    if plans == [] {
    } else {
      RequestsOn(plans[..|plans| - 1], reqs[..|reqs| - 1], pathId);
    }
  }

  /** Plan `i` of a run as it leaves: its frame protected for its session, wrapped for its path's relay under the count
      of what the path sent before, and addressed to its peer. */
  ghost predicate GoesOut(env: Env, st: TxState, plans: seq<FramePlan>, i: nat, packet: bytes, addr: Addr, sent: Send)
    requires i < |plans| && plans[i].path.id in st.sockets
  {
    var path := plans[i].path.id;
    && Protects(env.aead, st.security, JobsOf(plans), i, packet) && SentTo(env, st.security, plans[i], addr)
    && Leaves(env.aead, st.sockets[path], PlansOn(plans[..i], path), Send(path, addr, packet), sent)
  }

  ghost predicate SomehowGoesOut(env: Env, st: TxState, plans: seq<FramePlan>, i: nat, sent: Send)
    requires i < |plans| && plans[i].path.id in st.sockets
  {
    exists packet, addr :: GoesOut(env, st, plans, i, packet, addr, sent)
  }

  /** The wire has grown by one datagram for each plan, in order, as `GoesOut` says. */
  ghost predicate AllGoOut(env: Env, st: TxState, plans: seq<FramePlan>, wire: seq<Send>) {
    && |wire| == |st.wire| + |plans| && wire[..|st.wire|] == st.wire
    && forall i :: 0 <= i < |plans| ==>
         plans[i].path.id in st.sockets && SomehowGoesOut(env, st, plans, i, wire[|st.wire| + i])
  }

  lemma PlanGoesOut(env: Env, st: TxState, plans: seq<FramePlan>, packets: seq<bytes>, i: nat, sent: Send)
    requires AllSendable(env, st, plans) && |packets| == |plans| && i < |plans|
    requires Protects(env.aead, st.security, JobsOf(plans), i, packets[i])
    requires forall j :: 0 <= j < |plans| ==> Route(env, st.security, plans[j]).Some? && plans[j].path.id in st.sockets
    requires var reqs := Requests(env, st.security, plans, packets);
      Leaves(env.aead, st.sockets[plans[i].path.id], SendsOn(reqs[..i], plans[i].path.id), reqs[i], sent)
    ensures SomehowGoesOut(env, st, plans, i, sent)
  {
    hide Protects, SentTo, Leaves, Route, PlansOn, SendsOn, Sendable;
    var reqs := Requests(env, st.security, plans, packets);
    RouteIsSentTo(env, st.security, plans[i]);
    RequestsOn(plans[..i], reqs[..i], plans[i].path.id);
    assert GoesOut(env, st, plans, i, packets[i], Route(env, st.security, plans[i]).value, sent);
  }

  /** Every plan of a delivered run is on the wire once. */
  lemma EachPlanGoesOut(env: Env, st: TxState, plans: seq<FramePlan>)
    requires Deliverable(env, st, plans)
    ensures AllGoOut(env, st, plans, Delivered(env, st, plans).wire)
  {
    hide ProtectEach, SendEach, Protects, Leaves, Route, SendsOn, SomehowGoesOut, Sendable, SentThrough, JobOf;
    SendableHas(env, st, plans);
    var packets := ProtectEach(env.aead, st.security, JobsOf(plans)).value.1;
    EachProtected(env.aead, st.security, JobsOf(plans));
    var reqs := Requests(env, st.security, plans, packets);
    RelayCountersRunOn(env.aead, st.sockets, reqs);
    var wire, sent := Delivered(env, st, plans).wire, SendEach(env.aead, st.sockets, reqs).1;
    assert wire == st.wire + sent;
    forall i | 0 <= i < |plans|
      ensures plans[i].path.id in st.sockets && SomehowGoesOut(env, st, plans, i, wire[|st.wire| + i])
    {
      PlanGoesOut(env, st, plans, packets, i, sent[i]);
    }
  }

  // ----- what the run reports -------------------------------------------------

  /** The peer a frame names: the first one any of its datagrams came with. */
  ghost predicate Names(datagrams: seq<Meta>, peer: Option<u32>) {
    if peer.None? then forall i :: 0 <= i < |datagrams| ==> datagrams[i].peerScope.None?
    else exists i ::
      && 0 <= i < |datagrams| && datagrams[i].peerScope == peer
      && forall j :: 0 <= j < i ==> datagrams[j].peerScope.None?
  }

  lemma {:induction false} FirstScopeNames(datagrams: seq<Meta>)
    ensures Names(datagrams, FirstScope(datagrams))
    decreases |datagrams|
  {
    if datagrams == [] {
    } else {
      var rest := datagrams[1..];
      FirstScopeNames(rest);
      if datagrams[0].peerScope.None? && FirstScope(rest).Some? {
        var i :| 0 <= i < |rest| && rest[i].peerScope == FirstScope(rest)
          && forall j :: 0 <= j < i ==> rest[j].peerScope.None?;
        assert datagrams[i + 1].peerScope == FirstScope(rest);
        forall j | 0 <= j < i + 1
          ensures datagrams[j].peerScope.None?
        {
          assert j > 0 ==> datagrams[j] == rest[j - 1];
        }
      } else if datagrams[0].peerScope.None? {
        assert forall i :: 1 <= i < |datagrams| ==> datagrams[i] == rest[i - 1];
      }
    }
  }

  /** The datagrams of a run of plans, each with the plan that carried it. */
  function Carried(plans: seq<FramePlan>): seq<(FramePlan, Meta)> {
    if plans == [] then []
    else
      var plan := plans[|plans| - 1];
      Carried(plans[..|plans| - 1]) +
      seq(|plan.datagrams|, i requires 0 <= i < |plan.datagrams| => (plan, plan.datagrams[i]))
  }

  /** An outcome tells of one datagram: whose it was, how long, under which sequence, on which path and to whom, in how
      many frames, and with how many others in its frame. */
  ghost predicate Tells(env: Env, plan: FramePlan, d: Meta, o: Outcome) {
    && o.source == d.source && o.payloadLen == d.payloadLen && o.sequence == d.sequence && o.pathId == plan.path.id
    && (if d.peerScope.Some? && (d.peerScope.value, plan.path.id) in env.learned
        then o.target == env.learned[(d.peerScope.value, plan.path.id)] else plan.path.remote == Some(o.target))
    && o.frameCount == plan.fragmentCount && (o.frameCount > 0 ==> o.fragmentCount + 1 == o.frameCount)
    && (o.frameCount == 0 ==> o.fragmentCount == 0)
    && (o.batchCount > 0 <==> |plan.datagrams| > 1) && (o.batchCount > 0 ==> o.batchCount == |plan.datagrams|)
  }

  lemma {:induction false} ReportsTell(env: Env, plan: FramePlan, datagrams: seq<Meta>)
    requires Reports(env, plan, datagrams).1
    ensures var r := Reports(env, plan, datagrams).0;
      |r| == |datagrams| && forall i :: 0 <= i < |r| ==> Tells(env, plan, datagrams[i], r[i])
    decreases |datagrams|
  {
    hide Reports, Tells, OutcomeOf, ReportTarget;
    ReportsStep(env, plan, datagrams);
    if datagrams == [] {
    } else {
      ReportsTell(env, plan, datagrams[1..]);
      OutcomeTells(env, plan, datagrams[0]);
      var r, rest := Reports(env, plan, datagrams).0, Reports(env, plan, datagrams[1..]).0;
      forall i | 0 <= i < |r|
        ensures Tells(env, plan, datagrams[i], r[i])
      {
        assert i > 0 ==> r[i] == rest[i - 1] && datagrams[i] == datagrams[1..][i - 1];
      }
    }
  }

  lemma OutcomeTells(env: Env, plan: FramePlan, d: Meta)
    requires ReportTarget(env, plan, d).Some?
    ensures Tells(env, plan, d, OutcomeOf(env, plan, d))
  {
  }

  /** A run without an error reports every datagram once, in the order they were planned. */
  lemma {:induction false} EveryDatagramIsReported(env: Env, plans: seq<FramePlan>)
    requires forall i :: 0 <= i < |plans| ==> Reports(env, plans[i], plans[i].datagrams).1
    ensures var told, carried := AllReports(env, plans), Carried(plans);
      |told| == |carried| && forall j :: 0 <= j < |told| ==> Tells(env, carried[j].0, carried[j].1, told[j])
    decreases |plans|
  {
    hide Reports, Tells;
    if plans == [] {
    } else {
      var init, plan := plans[..|plans| - 1], plans[|plans| - 1];
      EveryDatagramIsReported(env, init);
      ReportsTell(env, plan, plan.datagrams);
      var told, carried := AllReports(env, plans), Carried(plans);
      forall j | 0 <= j < |told|
        ensures Tells(env, carried[j].0, carried[j].1, told[j])
      {
        var k := |AllReports(env, init)|;
        if j >= k {
          assert told[j] == Reports(env, plan, plan.datagrams).0[j - k];
        }
      }
    }
  }

  /** So transmission one by one that meets no error has put every plan on the wire and reported every datagram. */
  lemma OneByOneGoesOut(env: Env, st: TxState, plans: seq<FramePlan>)
    requires RemotesMatch(st.sockets, plans) && TransmitUpTo(env, st, plans, |plans|).error.None?
    ensures var run, carried := TransmitUpTo(env, st, plans, |plans|), Carried(plans);
      && AllGoOut(env, st, plans, run.state.wire) && |run.outcomes| == |carried|
      && forall j :: 0 <= j < |run.outcomes| ==> Tells(env, carried[j].0, carried[j].1, run.outcomes[j])
  {
    hide TransmitUpTo, Deliverable, Delivered, AllGoOut, Tells, Carried, AllReports, Reports, EncodedV1Len;
    OneByOneDelivers(env, st, plans);
    EachPlanGoesOut(env, st, plans);
    forall i | 0 <= i < |plans|
      ensures Reports(env, plans[i], plans[i].datagrams).1
    {
      assert StrictlySendable(env, plans[i]);
    }
    EveryDatagramIsReported(env, plans);
  }
}
