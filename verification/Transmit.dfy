/** Handing planned frames to the path sockets: one at a time, and grouped with reserved counter ranges. */
module Transmit {
  import opened Bytes
  import opened FrameCodec
  import opened Envelope
  import opened Plans
  import opened Security

  const PARALLEL_PROTECT_MIN_FRAMES: nat := 4096

  // ----- path sockets ---------------------------------------------------------

  /** The outer hop toward a relay, with its own counter. */
  datatype Relay = Relay(index: u32, key: bytes, nextCounter: u64)

  datatype Socket = Socket(remote: Option<Addr>, relay: Option<Relay>)

  type Sockets = map<u16, Socket>

  /** One datagram for one remote on one path. */
  datatype Send = Send(pathId: u16, remote: Addr, packet: bytes)

  function WrapPacket(a: Aead, s: Socket, packet: bytes): (r: (Socket, bytes))
    ensures r.0.remote == s.remote
  {
    match s.relay
    case None => (s, packet)
    case Some(hop) =>
      (s.(relay := Some(hop.(nextCounter := (hop.nextCounter + 1) % TWO_TO_64))),
       EncryptPacket(a, hop.key, hop.index, hop.nextCounter, packet))
  }

  function SendOne(a: Aead, sockets: Sockets, req: Send): (r: (Sockets, Send))
    requires req.pathId in sockets
    ensures r.0.Keys == sockets.Keys
    ensures forall id :: id in sockets ==> r.0[id].remote == sockets[id].remote
  {
    var (s, packet) := WrapPacket(a, sockets[req.pathId], req.packet);
    (sockets[req.pathId := s], req.(packet := packet))
  }

  /** The sockets afterwards and the datagrams that went out, when each request is sent in turn. */
  function SendEach(a: Aead, sockets: Sockets, reqs: seq<Send>): (r: (Sockets, seq<Send>))
    requires forall i :: 0 <= i < |reqs| ==> reqs[i].pathId in sockets
    ensures r.0.Keys == sockets.Keys
    ensures forall id :: id in sockets ==> r.0[id].remote == sockets[id].remote
    decreases |reqs|
  {
    if reqs == [] then (sockets, [])
    else
      var (before, sent) := SendEach(a, sockets, reqs[..|reqs| - 1]);
      var (after, last) := SendOne(a, before, reqs[|reqs| - 1]);
      (after, sent + [last])
  }

  lemma SendEachSnoc(a: Aead, sockets: Sockets, reqs: seq<Send>, req: Send)
    requires req.pathId in sockets && forall i :: 0 <= i < |reqs| ==> reqs[i].pathId in sockets
    ensures SendEach(a, sockets, reqs + [req]) ==
      var (before, sent) := SendEach(a, sockets, reqs);
      var (after, last) := SendOne(a, before, req);
      (after, sent + [last])
  {
    hide SendOne;
    assert (reqs + [req])[..|reqs|] == reqs;
  }

  lemma SendNothing(a: Aead, sockets: Sockets)
    ensures SendEach(a, sockets, []) == (sockets, [])
  {
  }

  // ----- the relay hop's counter ----------------------------------------------

  /** How many of the requests go out on a path. */
  function SendsOn(reqs: seq<Send>, pathId: u16): (n: nat)
    ensures n <= |reqs|
  {
    if reqs == [] then 0
    else SendsOn(reqs[..|reqs| - 1], pathId) + if reqs[|reqs| - 1].pathId == pathId then 1 else 0
  }

  lemma SendsOnSnoc(reqs: seq<Send>, req: Send, pathId: u16)
    ensures SendsOn(reqs + [req], pathId) == SendsOn(reqs, pathId) + if req.pathId == pathId then 1 else 0
  {
    assert (reqs + [req])[..|reqs|] == reqs;
  }

  /** A socket after `n` sends: only its relay's counter has moved, by `n`, wrapping. */
  ghost predicate SentThrough(before: Socket, n: nat, after: Socket) {
    after == before.(relay := match before.relay
                              case None => None
                              case Some(hop) => Some(hop.(nextCounter := WrappingAdd(hop.nextCounter, n))))
  }

  /** A datagram as it leaves a socket that had sent `n` before it. */
  ghost predicate Leaves(a: Aead, s: Socket, n: nat, req: Send, sent: Send) {
    && sent.pathId == req.pathId && sent.remote == req.remote
    && sent.packet == match s.relay
                      case None => req.packet
                      case Some(hop) =>
                        EncryptPacket(a, hop.key, hop.index, WrappingAdd(hop.nextCounter, n), req.packet)
  }

  lemma WrappingAddOne(c: u64, n: nat)
    ensures WrappingAdd(WrappingAdd(c, n), 1) == WrappingAdd(c, n + 1)
  {
  }

  lemma OneMoreSent(a: Aead, sockets: Sockets, reqs: seq<Send>, req: Send, mid: Sockets)
    requires req.pathId in sockets && mid.Keys == sockets.Keys
    requires forall id :: id in sockets ==> SentThrough(sockets[id], SendsOn(reqs, id), mid[id])
    ensures var (after, last) := SendOne(a, mid, req);
      && Leaves(a, sockets[req.pathId], SendsOn(reqs, req.pathId), req, last)
      && forall id :: id in sockets ==> SentThrough(sockets[id], SendsOn(reqs + [req], id), after[id])
  {
    hide EncryptPacket, SendsOn, WrappingAdd;
    var (after, last) := SendOne(a, mid, req);
    forall id | id in sockets
      ensures SentThrough(sockets[id], SendsOn(reqs + [req], id), after[id])
    {
      SendsOnSnoc(reqs, req, id);
      assert SentThrough(sockets[id], SendsOn(reqs, id), mid[id]);
      if id == req.pathId && sockets[id].relay.Some? {
        WrappingAddOne(sockets[id].relay.value.nextCounter, SendsOn(reqs, id));
        StepIsWrappingAdd(mid[id].relay.value.nextCounter);
      }
    }
  }

  lemma StepIsWrappingAdd(c: u64)
    ensures (c + 1) % TWO_TO_64 == WrappingAdd(c, 1)
  {
  }

  /** Any run of sends: each datagram goes to its remote, sealed for the path's relay under the start counter plus the
      number of earlier sends on that path; afterwards every socket has moved on by its own sends only. */
  lemma {:induction false} RelayCountersRunOn(a: Aead, sockets: Sockets, reqs: seq<Send>)
    requires forall i :: 0 <= i < |reqs| ==> reqs[i].pathId in sockets
    ensures var (after, sent) := SendEach(a, sockets, reqs);
      && |sent| == |reqs|
      && (forall i :: 0 <= i < |reqs| ==>
            Leaves(a, sockets[reqs[i].pathId], SendsOn(reqs[..i], reqs[i].pathId), reqs[i], sent[i]))
      && forall id :: id in sockets ==> SentThrough(sockets[id], SendsOn(reqs, id), after[id])
    decreases |reqs|
  {
    hide SendOne, SendEach, Leaves, SendsOn;
    if reqs == [] {
      SendNothing(a, sockets);
      forall id | id in sockets
        ensures SentThrough(sockets[id], SendsOn([], id), sockets[id])
      {
        NoSends(sockets[id], id);
      }
    } else {
      var init, req := reqs[..|reqs| - 1], reqs[|reqs| - 1];
      assert reqs == init + [req];
      RelayCountersRunOn(a, sockets, init);
      SendEachSnoc(a, sockets, init, req);
      OneMoreSent(a, sockets, init, req, SendEach(a, sockets, init).0);
      assert forall i :: 0 <= i < |init| ==> reqs[..i] == init[..i];
    }
  }

  lemma NoSends(s: Socket, pathId: u16)
    ensures SentThrough(s, SendsOn([], pathId), s)
  {
  }

  lemma {:induction false} SendsOnGrows(reqs: seq<Send>, i: nat, j: nat, pathId: u16)
    requires i < j <= |reqs| && reqs[i].pathId == pathId
    ensures SendsOn(reqs[..i], pathId) < SendsOn(reqs[..j], pathId)
    decreases j
  {
    SendsOnSnoc(reqs[..j - 1], reqs[j - 1], pathId);
    assert reqs[..j] == reqs[..j - 1] + [reqs[j - 1]];
    if i < j - 1 {
      SendsOnGrows(reqs, i, j - 1, pathId);
    }
  }

  lemma WrappedApart(c: u64, x: nat, y: nat)
    requires x < y
    ensures WrappingAdd(c, x) == WrappingAdd(c, y) <==> (y - x) % TWO_TO_64 == 0
  {
    assert (c + y) % TWO_TO_64 == ((c + x) % TWO_TO_64 + (y - x) % TWO_TO_64) % TWO_TO_64;
  }

  /** Two sends on one path meet the relay's key under one counter, and so under one nonce, exactly when a multiple of
      2^64 sends of that path lie between them: never in fewer than 2^64 sends. */
  lemma RelayCounterReused(reqs: seq<Send>, i: nat, j: nat, first: u64)
    requires i < j < |reqs| && reqs[i].pathId == reqs[j].pathId
    ensures var x, y := SendsOn(reqs[..i], reqs[i].pathId), SendsOn(reqs[..j], reqs[i].pathId);
      && x < y
      && (NonceFromCounter(WrappingAdd(first, x)) == NonceFromCounter(WrappingAdd(first, y)) <==>
          (y - x) % TWO_TO_64 == 0)
      && (y - x < TWO_TO_64 ==> WrappingAdd(first, x) != WrappingAdd(first, y))
  {
    hide NonceFromCounter, WrappingAdd;
    SendsOnGrows(reqs, i, j, reqs[i].pathId);
    var x, y := SendsOn(reqs[..i], reqs[i].pathId), SendsOn(reqs[..j], reqs[i].pathId);
    WrappedApart(first, x, y);
    NoncePerCounter(WrappingAdd(first, x), WrappingAdd(first, y));
  }

  // ----- routing --------------------------------------------------------------

  /** The cipher and the return addresses learned from authenticated peers. */
  datatype Env = Env(aead: Aead, learned: map<(u32, u16), Addr>)

  function FirstScope(datagrams: seq<Meta>): Option<u32> {
    if datagrams == [] then None else datagrams[0].peerScope.Or(FirstScope(datagrams[1..]))
  }

  function JobOf(plan: FramePlan): Job { Job(plan.frame.serviceId, FirstScope(plan.datagrams), plan.frame) }

  function JobsOf(plans: seq<FramePlan>): (s: seq<Job>)
    ensures |s| == |plans|
  {
    seq(|plans|, i requires 0 <= i < |plans| => JobOf(plans[i]))
  }

  function KeyOf(sec: Security, plan: FramePlan): Option<u32> {
    ResolveKey(sec, plan.frame.serviceId, FirstScope(plan.datagrams))
  }

  function LearnedFor(env: Env, key: Option<u32>, pathId: u16): Option<Addr> {
    if key.Some? && (key.value, pathId) in env.learned then Some(env.learned[(key.value, pathId)]) else None
  }

  /** Where the grouped form sends a plan: the learned return address, else the planned path's remote. */
  function Route(env: Env, sec: Security, plan: FramePlan): Option<Addr> {
    LearnedFor(env, KeyOf(sec, plan), plan.path.id).Or(plan.path.remote)
  }

  // ----- one at a time --------------------------------------------------------

  datatype Outcome = Outcome(
    source: Addr, target: Addr, payloadLen: nat, sequence: u64, pathId: u16,
    frameCount: nat, batchCount: nat, fragmentCount: nat)

  datatype TxState = TxState(security: Security, sockets: Sockets, wire: seq<Send>)

  datatype Run = Run(state: TxState, outcomes: seq<Outcome>, error: Option<DataplaneError>)

  /** The address an outcome reports. It looks only at the datagram's own scope, not at the service's session. */
  function ReportTarget(env: Env, plan: FramePlan, d: Meta): Option<Addr> {
    LearnedFor(env, d.peerScope, plan.path.id).Or(plan.path.remote)
  }

  function OutcomeOf(env: Env, plan: FramePlan, d: Meta): Outcome
    requires ReportTarget(env, plan, d).Some?
  {
    Outcome(d.source, ReportTarget(env, plan, d).value, d.payloadLen, d.sequence, plan.path.id, plan.fragmentCount,
            if |plan.datagrams| > 1 then |plan.datagrams| else 0,
            if plan.fragmentCount > 0 then plan.fragmentCount - 1 else 0)
  }

  predicate Reportable(env: Env, plan: FramePlan) {
    forall d :: d in plan.datagrams ==> ReportTarget(env, plan, d).Some?
  }

  /** Outcomes for the leading datagrams that have a target, and whether all of them had one. */
  function Reports(env: Env, plan: FramePlan, datagrams: seq<Meta>): (r: (seq<Outcome>, bool))
    ensures r.1 <==> forall d :: d in datagrams ==> ReportTarget(env, plan, d).Some?
    ensures r.1 ==> |r.0| == |datagrams|
  {
    if datagrams == [] then ([], true)
    else if ReportTarget(env, plan, datagrams[0]).None? then ([], false)
    else
      var (rest, all) := Reports(env, plan, datagrams[1..]);
      assert forall d :: d in datagrams <==> d == datagrams[0] || d in datagrams[1..];
      ([OutcomeOf(env, plan, datagrams[0])] + rest, all)
  }

  function Failed(st: TxState, e: DataplaneError): Run { Run(st, [], Some(e)) }

  /** Send one planned frame and report its datagrams. */
  function TransmitOne(env: Env, st: TxState, plan: FramePlan): (r: Run) {
    if EncodedV1Len(plan.frame) > plan.path.mtu then
      Failed(st, FrameExceedsPathMtu(plan.path.id, EncodedV1Len(plan.frame), plan.path.mtu))
    else
      var job := JobOf(plan);
      var protected := ProtectFrame(env.aead, st.security, job.serviceId, job.explicit, job.frame);
      if protected.Err? then Failed(st, Crypto(protected.error))
      else
        var (sec, packet) := protected.value;
        var st1 := st.(security := sec);
        if plan.path.id !in st.sockets then Failed(st1, MissingPathTransport(plan.path.id))
        else
          var remote := LearnedFor(env, KeyOf(sec, plan), plan.path.id).Or(st.sockets[plan.path.id].remote);
          if remote.None? then Failed(st1, MissingPathRemote(plan.path.id))
          else
            var (sockets, sent) := SendOne(env.aead, st.sockets, Send(plan.path.id, remote.value, packet));
            var st2 := TxState(sec, sockets, st.wire + [sent]);
            var (outcomes, all) := Reports(env, plan, plan.datagrams);
            Run(st2, outcomes, if all then None else Some(NoPathAvailable))
  }

  /** The first `n` plans in turn, stopping at the first error. */
  function TransmitUpTo(env: Env, st: TxState, plans: seq<FramePlan>, n: nat): (r: Run)
    requires n <= |plans|
    decreases n
  {
    if n == 0 then Run(st, [], None)
    else
      var before := TransmitUpTo(env, st, plans, n - 1);
      if before.error.Some? then before
      else
        var one := TransmitOne(env, before.state, plans[n - 1]);
        Run(one.state, before.outcomes + one.outcomes, one.error)
  }

  lemma {:induction false} ErrorPersists(env: Env, st: TxState, plans: seq<FramePlan>, m: nat, n: nat)
    requires m <= n <= |plans| && TransmitUpTo(env, st, plans, m).error.Some?
    ensures TransmitUpTo(env, st, plans, n) == TransmitUpTo(env, st, plans, m)
    decreases n
  {
    hide TransmitOne;
    if m < n {
      ErrorPersists(env, st, plans, m, n - 1);
    }
  }

  lemma ReportsStep(env: Env, plan: FramePlan, datagrams: seq<Meta>)
    ensures Reports(env, plan, []) == ([], true)
    ensures datagrams != [] ==>
      var rest := Reports(env, plan, datagrams[1..]);
      Reports(env, plan, datagrams) ==
      if ReportTarget(env, plan, datagrams[0]).None? then ([], false)
      else ([OutcomeOf(env, plan, datagrams[0])] + rest.0, rest.1)
  {
    hide ReportTarget, OutcomeOf;
  }

  lemma TooLong(env: Env, st: TxState, plan: FramePlan)
    requires EncodedV1Len(plan.frame) > plan.path.mtu
    ensures TransmitOne(env, st, plan) ==
            Failed(st, FrameExceedsPathMtu(plan.path.id, EncodedV1Len(plan.frame), plan.path.mtu))
  {
  }

  // ----- what both forms must send --------------------------------------------

  /** What the grouped form needs of a plan. */
  predicate Sendable(env: Env, st: TxState, plan: FramePlan) {
    && PathFrameLen(st.security, plan.frame) <= plan.path.mtu
    && Route(env, st.security, plan).Some?
    && plan.path.id in st.sockets
  }

  /** What only the one-at-a-time form needs: the v1 length must fit and every datagram must have a report target. */
  predicate StrictlySendable(env: Env, plan: FramePlan) {
    EncodedV1Len(plan.frame) <= plan.path.mtu && Reportable(env, plan)
  }

  ghost predicate AllSendable(env: Env, st: TxState, plans: seq<FramePlan>) {
    forall i :: 0 <= i < |plans| ==> Sendable(env, st, plans[i])
  }

  ghost predicate AllStrict(env: Env, plans: seq<FramePlan>) {
    forall i :: 0 <= i < |plans| ==> StrictlySendable(env, plans[i])
  }

  /** The sockets were bound from the same path table the plans carry. */
  ghost predicate RemotesMatch(sockets: Sockets, plans: seq<FramePlan>) {
    forall i :: 0 <= i < |plans| && plans[i].path.id in sockets ==>
      sockets[plans[i].path.id].remote == plans[i].path.remote
  }

  function Requests(env: Env, sec: Security, plans: seq<FramePlan>, packets: seq<bytes>): (s: seq<Send>)
    requires |packets| == |plans|
    requires forall i :: 0 <= i < |plans| ==> Route(env, sec, plans[i]).Some?
    ensures |s| == |plans|
  {
    seq(|plans|, i requires 0 <= i < |plans| => Send(plans[i].path.id, Route(env, sec, plans[i]).value, packets[i]))
  }

  ghost predicate Deliverable(env: Env, st: TxState, plans: seq<FramePlan>) {
    && AllSendable(env, st, plans)
    && ProtectEach(env.aead, st.security, JobsOf(plans)).Ok?
    && |ProtectEach(env.aead, st.security, JobsOf(plans)).value.1| == |plans|
  }

  /** Every frame protected in order, every packet sent in order. */
  ghost function Delivered(env: Env, st: TxState, plans: seq<FramePlan>): TxState
    requires Deliverable(env, st, plans)
  {
    var (sec, packets) := ProtectEach(env.aead, st.security, JobsOf(plans)).value;
    var (sockets, sent) := SendEach(env.aead, st.sockets, Requests(env, st.security, plans, packets));
    TxState(sec, sockets, st.wire + sent)
  }

  // ----- the one-at-a-time form delivers --------------------------------------

  lemma RouteKept(env: Env, sec: Security, sec': Security, plan: FramePlan)
    requires SameSelection(sec, sec')
    ensures KeyOf(sec, plan) == KeyOf(sec', plan) && Route(env, sec, plan) == Route(env, sec', plan)
  {
  }

  lemma TransmitOneOk(env: Env, st: TxState, st0: TxState, plan: FramePlan)
    requires SameSelection(st0.security, st.security) && st.sockets.Keys == st0.sockets.Keys
    requires plan.path.id in st.sockets ==> st.sockets[plan.path.id].remote == plan.path.remote
    ensures var one := TransmitOne(env, st, plan);
      var protected := ProtectFrame(env.aead, st.security, plan.frame.serviceId, FirstScope(plan.datagrams),
        plan.frame);
      && (one.error.None? <==> Sendable(env, st0, plan) && StrictlySendable(env, plan) && protected.Ok?)
      && (one.error.None? ==>
            var (sockets, sent) := SendOne(env.aead, st.sockets,
              Send(plan.path.id, Route(env, st0.security, plan).value, protected.value.1));
            && one.state == TxState(protected.value.0, sockets, st.wire + [sent])
            && one.outcomes == Reports(env, plan, plan.datagrams).0)
  {
    hide ProtectFrame, SendOne, SameSelection, KeyOf, EncodeV1, EncodeV2;
    RouteKept(env, st0.security, st.security, plan);
    var job := JobOf(plan);
    var protected := ProtectFrame(env.aead, st.security, job.serviceId, job.explicit, job.frame);
    if protected.Ok? {
      ProtectKeepsSelection(env.aead, st.security, job.serviceId, job.explicit, job.frame);
      RouteKept(env, st.security, protected.value.0, plan);
    }
  }

  function AllReports(env: Env, plans: seq<FramePlan>): (s: seq<Outcome>) {
    if plans == [] then []
    else AllReports(env, plans[..|plans| - 1]) + Reports(env, plans[|plans| - 1], plans[|plans| - 1].datagrams).0
  }

  /** `TransmitUpTo` after `n` plans, said without its own recursion. */
  ghost predicate DeliversUpTo(env: Env, st: TxState, plans: seq<FramePlan>) {
    var run := TransmitUpTo(env, st, plans, |plans|);
    && (run.error.None? <==> Deliverable(env, st, plans) && AllStrict(env, plans))
    && (run.error.None? ==> run.state == Delivered(env, st, plans) && run.outcomes == AllReports(env, plans))
  }

  lemma {:induction false} TransmitPrefix(env: Env, st: TxState, plans: seq<FramePlan>, more: seq<FramePlan>, n: nat)
    requires n <= |plans|
    ensures TransmitUpTo(env, st, plans + more, n) == TransmitUpTo(env, st, plans, n)
    decreases n
  {
    hide TransmitOne;
    if n == 0 {
    } else {
      TransmitPrefix(env, st, plans, more, n - 1);
    }
  }

  lemma DeliverOneMore(env: Env, st: TxState, init: seq<FramePlan>, plan: FramePlan)
    requires Deliverable(env, st, init) && RemotesMatch(st.sockets, init + [plan])
    ensures var st1 := Delivered(env, st, init);
      && SameSelection(st.security, st1.security) && st1.sockets.Keys == st.sockets.Keys
      && (plan.path.id in st.sockets ==> st1.sockets[plan.path.id].remote == plan.path.remote)
      && var protected := ProtectFrame(env.aead, st1.security, plan.frame.serviceId, FirstScope(plan.datagrams),
        plan.frame);
      && (Deliverable(env, st, init + [plan]) <==> Sendable(env, st, plan) && protected.Ok?)
      && (Deliverable(env, st, init + [plan]) ==>
            var (sockets, sent) := SendOne(env.aead, st1.sockets,
              Send(plan.path.id, Route(env, st.security, plan).value, protected.value.1));
            Delivered(env, st, init + [plan]) == TxState(protected.value.0, sockets, st1.wire + [sent]))
  {
    hide ProtectFrame, ProtectEach, SendOne, SendEach, SameSelection, Route, Sendable, KeyOf, FirstScope;
    var plans := init + [plan];
    assert JobsOf(plans) == JobsOf(init) + [JobOf(plan)];
    ProtectEachKeepsSelection(env.aead, st.security, JobsOf(init));
    ProtectEachSnoc(env.aead, st.security, JobsOf(init), JobOf(plan));
    assert plans[|init|] == plan;
    assert AllSendable(env, st, plans) <==> Sendable(env, st, plan) by {
      assert forall i :: 0 <= i < |init| ==> plans[i] == init[i];
    }
    if Deliverable(env, st, plans) {
      SendableHas(env, st, plans);
      SendableHas(env, st, init);
      var (sec, packets) := ProtectEach(env.aead, st.security, JobsOf(plans)).value;
      var packets0 := ProtectEach(env.aead, st.security, JobsOf(init)).value.1;
      var reqs0 := Requests(env, st.security, init, packets0);
      var req := Send(plan.path.id, Route(env, st.security, plan).value, packets[|init|]);
      assert Requests(env, st.security, plans, packets) == reqs0 + [req];
      SendEachSnoc(env.aead, st.sockets, reqs0, req);
      var sent0 := SendEach(env.aead, st.sockets, reqs0).1;
      var last := SendOne(env.aead, SendEach(env.aead, st.sockets, reqs0).0, req).1;
      assert st.wire + (sent0 + [last]) == st.wire + sent0 + [last];
    }
  }

  lemma SendableHas(env: Env, st: TxState, plans: seq<FramePlan>)
    requires AllSendable(env, st, plans)
    ensures forall i :: 0 <= i < |plans| ==> Route(env, st.security, plans[i]).Some? && plans[i].path.id in st.sockets
  {
  }

  /** One-at-a-time transmission succeeds exactly when every plan is sendable, reportable and protectable,
      and then has protected and sent every frame in order. */
  lemma {:induction false} OneByOneDelivers(env: Env, st: TxState, plans: seq<FramePlan>)
    requires RemotesMatch(st.sockets, plans)
    ensures DeliversUpTo(env, st, plans)
    decreases |plans|
  {
    hide TransmitOne, TransmitUpTo, Deliverable, Delivered, StrictlySendable, Sendable, ProtectFrame, Reports, SendOne,
         SameSelection, Route, FirstScope, AllReports;
    if plans == [] {
      DeliverNone(env, st);
    } else {
      var init, plan := plans[..|plans| - 1], plans[|plans| - 1];
      assert plans == init + [plan];
      assert RemotesMatch(st.sockets, init) by {
        assert forall i :: 0 <= i < |init| ==> init[i] == plans[i];
      }
      OneByOneDelivers(env, st, init);
      TransmitPrefix(env, st, init, [plan], |init|);
      TransmitStep(env, st, plans);
      assert AllStrict(env, plans) <==> AllStrict(env, init) && StrictlySendable(env, plan) by {
        assert forall i :: 0 <= i < |init| ==> init[i] == plans[i];
      }
      AllReportsStep(env, plans);
      if Deliverable(env, st, init) {
        var st1 := Delivered(env, st, init);
        DeliverOneMore(env, st, init, plan);
        TransmitOneOk(env, st1, st, plan);
      } else {
        NotDeliverable(env, st, init, plan);
      }
    }
  }

  lemma DeliverNone(env: Env, st: TxState)
    ensures DeliversUpTo(env, st, [])
  {
    assert JobsOf([]) == [];
    SendNothing(env.aead, st.sockets);
    assert Requests(env, st.security, [], []) == [];
    assert st.wire + [] == st.wire;
  }

  lemma TransmitStep(env: Env, st: TxState, plans: seq<FramePlan>)
    requires plans != []
    ensures TransmitUpTo(env, st, plans, |plans|) ==
      var before := TransmitUpTo(env, st, plans, |plans| - 1);
      if before.error.Some? then before
      else
        var one := TransmitOne(env, before.state, plans[|plans| - 1]);
        Run(one.state, before.outcomes + one.outcomes, one.error)
  {
    hide TransmitOne;
  }

  lemma AllReportsStep(env: Env, plans: seq<FramePlan>)
    requires plans != []
    ensures AllReports(env, plans) ==
            AllReports(env, plans[..|plans| - 1]) + Reports(env, plans[|plans| - 1], plans[|plans| - 1].datagrams).0
  {
  }

  lemma NotDeliverable(env: Env, st: TxState, init: seq<FramePlan>, plan: FramePlan)
    requires !Deliverable(env, st, init)
    ensures !Deliverable(env, st, init + [plan])
  {
    hide ProtectFrame, ProtectEach, Sendable;
    var plans := init + [plan];
    assert JobsOf(plans) == JobsOf(init) + [JobOf(plan)];
    ProtectEachSnoc(env.aead, st.security, JobsOf(init), JobOf(plan));
    assert forall i :: 0 <= i < |init| ==> plans[i] == init[i];
    if Deliverable(env, st, plans) {
      ProtectEachKeepsSelection(env.aead, st.security, JobsOf(init));
    }
  }

  /** Why the two forms differ at all: when a frame's only route is the address learned for its service's session,
      the one-at-a-time form sends the packet and then fails for want of an address to report. */
  lemma SentThenRefused(env: Env, st: TxState, plan: FramePlan)
    requires Deliverable(env, st, [plan]) && RemotesMatch(st.sockets, [plan])
    requires EncodedV1Len(plan.frame) <= plan.path.mtu
    requires plan.path.remote.None? && exists d :: d in plan.datagrams && d.peerScope.None?
    ensures var run := TransmitUpTo(env, st, [plan], 1);
      run.error == Some(NoPathAvailable) && |run.state.wire| == |st.wire| + 1
  {
    hide ProtectEach, ProtectFrame, SendOne, SendEach, Route, KeyOf, FirstScope, EncodeV1, EncodeV2;
    var d :| d in plan.datagrams && d.peerScope.None?;
    assert ReportTarget(env, plan, d).None?;
    assert [plan][..0] == [] && [] + [plan] == [plan];
    DeliverNone(env, st);
    DeliverOneMore(env, st, [], plan);
    TransmitOneOk(env, st, st, plan);
    RouteSocket(env, st, plan);
  }

  lemma RouteSocket(env: Env, st: TxState, plan: FramePlan)
    requires Sendable(env, st, plan) && st.sockets[plan.path.id].remote == plan.path.remote
    requires EncodedV1Len(plan.frame) <= plan.path.mtu
    requires ProtectFrame(env.aead, st.security, plan.frame.serviceId, FirstScope(plan.datagrams), plan.frame).Ok?
    ensures var run := TransmitOne(env, st, plan);
      |run.state.wire| == |st.wire| + 1
      && run.error == if Reports(env, plan, plan.datagrams).1 then None else Some(NoPathAvailable)
  {
    hide ProtectFrame, SendOne, KeyOf, EncodeV1, EncodeV2;
    var job := JobOf(plan);
    ProtectKeepsSelection(env.aead, st.security, job.serviceId, job.explicit, job.frame);
    RouteKept(env, st.security, ProtectFrame(env.aead, st.security, job.serviceId, job.explicit, job.frame).value.0,
      plan);
  }

  // ----- grouping -------------------------------------------------------------

  /** Neighbouring plans for one path, one remote and one session. */
  datatype Group = Group(pathId: u16, remote: Addr, serviceId: u16, sessionKey: Option<u32>, plans: seq<FramePlan>)

  function Flatten(groups: seq<Group>): (s: seq<FramePlan>) {
    if groups == [] then [] else Flatten(groups[..|groups| - 1]) + groups[|groups| - 1].plans
  }

  lemma FlattenSnoc(groups: seq<Group>, g: Group)
    ensures Flatten(groups + [g]) == Flatten(groups) + g.plans
  {
    assert (groups + [g])[..|groups|] == groups;
  }

  lemma {:induction false} FlattenSplit(groups: seq<Group>, j: nat)
    requires j <= |groups|
    ensures exists rest :: Flatten(groups) == Flatten(groups[..j]) + rest
    decreases |groups| - j
  {
    if j == |groups| {
      assert groups[..j] == groups;
      assert Flatten(groups) == Flatten(groups[..j]) + [];
    } else {
      assert groups[..j + 1] == groups[..j] + [groups[j]];
      FlattenSnoc(groups[..j], groups[j]);
      FlattenSplit(groups, j + 1);
      var rest :| Flatten(groups) == Flatten(groups[..j + 1]) + rest;
      assert Flatten(groups) == Flatten(groups[..j]) + (groups[j].plans + rest);
    }
  }

  ghost predicate GroupOk(env: Env, sec: Security, g: Group) {
    && g.plans != [] && g.serviceId == g.plans[0].frame.serviceId
    && forall i :: 0 <= i < |g.plans| ==>
         && g.plans[i].path.id == g.pathId && Route(env, sec, g.plans[i]) == Some(g.remote)
         && KeyOf(sec, g.plans[i]) == g.sessionKey
  }

  ghost predicate GroupsOk(env: Env, sec: Security, groups: seq<Group>) {
    forall j :: 0 <= j < |groups| ==> GroupOk(env, sec, groups[j])
  }

  /** The checks the grouping loop makes of each plan. */
  predicate Groupable(env: Env, sec: Security, plan: FramePlan) {
    PathFrameLen(sec, plan.frame) <= plan.path.mtu && Route(env, sec, plan).Some?
  }

  ghost predicate AllGroupable(env: Env, sec: Security, plans: seq<FramePlan>) {
    forall i :: 0 <= i < |plans| ==> Groupable(env, sec, plans[i])
  }

  function GroupError(sec: Security, plan: FramePlan): DataplaneError {
    var frameLen := PathFrameLen(sec, plan.frame);
    if frameLen > plan.path.mtu then FrameExceedsPathMtu(plan.path.id, frameLen, plan.path.mtu) else NoPathAvailable
  }

  /** `e` is what the first plan that cannot be grouped is refused for. */
  ghost predicate FirstUngroupable(env: Env, sec: Security, plans: seq<FramePlan>, e: DataplaneError) {
    exists i ::
      && 0 <= i < |plans| && AllGroupable(env, sec, plans[..i])
      && !Groupable(env, sec, plans[i]) && e == GroupError(sec, plans[i])
  }

  /** One more plan: into the last group if it shares path, remote and session, else into a group of its own. */
  function WithPlan(env: Env, sec: Security, groups: seq<Group>, plan: FramePlan): (r: seq<Group>)
    requires Route(env, sec, plan).Some?
  {
    var remote, key := Route(env, sec, plan).value, KeyOf(sec, plan);
    var n := |groups| - 1;
    if n >= 0 && groups[n].pathId == plan.path.id && groups[n].remote == remote && groups[n].sessionKey == key
    then groups[..n] + [groups[n].(plans := groups[n].plans + [plan])]
    else groups + [Group(plan.path.id, remote, plan.frame.serviceId, key, [plan])]
  }

  ghost function Grouping(env: Env, sec: Security, plans: seq<FramePlan>): seq<Group>
    requires AllGroupable(env, sec, plans)
  {
    if plans == [] then []
    else
      var n := |plans| - 1;
      WithPlan(env, sec, Grouping(env, sec, plans[..n]), plans[n])
  }

  lemma GroupingNext(env: Env, sec: Security, plans: seq<FramePlan>, plan: FramePlan)
    requires AllGroupable(env, sec, plans) && Groupable(env, sec, plan)
    ensures AllGroupable(env, sec, plans + [plan])
    ensures Grouping(env, sec, plans + [plan]) == WithPlan(env, sec, Grouping(env, sec, plans), plan)
  {
    hide WithPlan, PathFrameLen, Route;
    assert (plans + [plan])[..|plans|] == plans;
  }

  /** Neighbouring groups differ in path, remote or session. */
  ghost predicate Apart(groups: seq<Group>) {
    forall j :: 0 < j < |groups| ==>
      (groups[j - 1].pathId, groups[j - 1].remote, groups[j - 1].sessionKey) !=
      (groups[j].pathId, groups[j].remote, groups[j].sessionKey)
  }

  lemma GroupWider(env: Env, sec: Security, g: Group, plan: FramePlan)
    requires GroupOk(env, sec, g)
    requires plan.path.id == g.pathId && Route(env, sec, plan) == Some(g.remote) && KeyOf(sec, plan) == g.sessionKey
    ensures GroupOk(env, sec, g.(plans := g.plans + [plan]))
  {
    hide Route, KeyOf;
  }

  lemma GroupOfOne(env: Env, sec: Security, g: Group, plan: FramePlan)
    requires Route(env, sec, plan).Some?
    requires g == Group(plan.path.id, Route(env, sec, plan).value, plan.frame.serviceId, KeyOf(sec, plan), [plan])
    ensures GroupOk(env, sec, g)
  {
    hide Route, KeyOf;
  }

  method GroupPlans(env: Env, sec: Security, plans: seq<FramePlan>) returns (r: Result<seq<Group>, DataplaneError>)
    ensures r.Ok? <==> forall i :: 0 <= i < |plans| ==> Groupable(env, sec, plans[i])
    ensures r.Ok? ==> Flatten(r.value) == plans && GroupsOk(env, sec, r.value) && Apart(r.value)
    ensures r.Ok? ==> r.value == Grouping(env, sec, plans)
    ensures r.Err? ==> FirstUngroupable(env, sec, plans, r.error)
  {
    hide Route, KeyOf, Flatten, GroupOk, PathFrameLen, Grouping;
    var groups: seq<Group> := [];
    FlattenEmpty();
    GroupingNone(env, sec);
    for i := 0 to |plans|
      invariant Flatten(groups) == plans[..i] && GroupsOk(env, sec, groups) && Apart(groups)
      invariant AllGroupable(env, sec, plans[..i]) && groups == Grouping(env, sec, plans[..i])
    {
      var plan := plans[i];
      var frameLen := PathFrameLen(sec, plan.frame);
      if frameLen > plan.path.mtu {
        return Err(FrameExceedsPathMtu(plan.path.id, frameLen, plan.path.mtu));
      }
      var sessionKey := KeyOf(sec, plan);
      var remote := Route(env, sec, plan);
      if remote.None? {
        return Err(NoPathAvailable);
      }
      assert plans[..i + 1] == plans[..i] + [plan];
      GroupingNext(env, sec, plans[..i], plan);
      if groups != [] {
        var init, last := groups[..|groups| - 1], groups[|groups| - 1];
        assert groups == init + [last];
        FlattenSnoc(init, last);
        if last.pathId == plan.path.id && last.remote == remote.value && last.sessionKey == sessionKey {
          var wider := last.(plans := last.plans + [plan]);
          FlattenSnoc(init, wider);
          GroupWider(env, sec, last, plan);
          groups := init + [wider];
          continue;
        }
      }
      var g := Group(plan.path.id, remote.value, plan.frame.serviceId, sessionKey, [plan]);
      FlattenSnoc(groups, g);
      GroupOfOne(env, sec, g, plan);
      groups := groups + [g];
    }
    assert plans[..|plans|] == plans;
    r := Ok(groups);
  }

  lemma GroupingNone(env: Env, sec: Security)
    ensures AllGroupable(env, sec, []) && Grouping(env, sec, []) == []
  {
  }

  lemma FlattenEmpty()
    ensures Flatten([]) == []
  {
  }

  // ----- protecting by index, in chunks ---------------------------------------

  ghost predicate Protectable(a: Aead, p: Protection, items: seq<(nat, Frame)>) {
    forall k :: 0 <= k < |items| ==> ProtectReserved(a, p, items[k].0, items[k].1).Ok?
  }

  ghost predicate ProtectedAs(a: Aead, p: Protection, items: seq<(nat, Frame)>, packets: seq<bytes>) {
    && |packets| == |items|
    && forall k :: 0 <= k < |items| ==> ProtectReserved(a, p, items[k].0, items[k].1) == Ok(packets[k])
  }

  /** What one worker does with its share. */
  method ProtectItemChunk(a: Aead, p: Protection, items: seq<(nat, Frame)>) returns (r: Result<seq<bytes>, CryptoError>)
    ensures r.Ok? <==> Protectable(a, p, items)
    ensures r.Ok? ==> ProtectedAs(a, p, items, r.value)
  {
    hide ProtectReserved;
    var protected := [];
    for i := 0 to |items|
      invariant ProtectedAs(a, p, items[..i], protected)
    {
      var packet := ProtectReserved(a, p, items[i].0, items[i].1);
      if packet.Err? {
        return Err(packet.error);
      }
      protected := protected + [packet.value];
    }
    assert items[..|items|] == items;
    r := Ok(protected);
  }

  function Join(chunks: seq<seq<(nat, Frame)>>): (s: seq<(nat, Frame)>) {
    if chunks == [] then [] else Join(chunks[..|chunks| - 1]) + chunks[|chunks| - 1]
  }

  lemma JoinSnoc(chunks: seq<seq<(nat, Frame)>>, c: seq<(nat, Frame)>)
    ensures Join(chunks + [c]) == Join(chunks) + c
  {
    assert (chunks + [c])[..|chunks|] == chunks;
  }

  lemma JoinEmpty()
    ensures Join([]) == []
  {
  }

  /** Cuts the items into consecutive shares, none lost, none moved. */
  method SplitIntoChunks(items: seq<(nat, Frame)>, size: nat) returns (chunks: seq<seq<(nat, Frame)>>)
    ensures Join(chunks) == items
  {
    hide Join;
    chunks := [];
    var current: seq<(nat, Frame)> := [];
    JoinEmpty();
    for i := 0 to |items|
      invariant Join(chunks) + current == items[..i]
    {
      assert items[..i + 1] == items[..i] + [items[i]];
      current := current + [items[i]];
      if |current| >= size {
        JoinSnoc(chunks, current);
        chunks := chunks + [current];
        current := [];
      }
    }
    assert items[..|items|] == items;
    if current != [] {
      JoinSnoc(chunks, current);
      chunks := chunks + [current];
    }
  }

  lemma ProtectedAppend(a: Aead, p: Protection, x: seq<(nat, Frame)>, px: seq<bytes>, y: seq<(nat, Frame)>,
                        py: seq<bytes>)
    requires ProtectedAs(a, p, x, px) && ProtectedAs(a, p, y, py)
    ensures ProtectedAs(a, p, x + y, px + py)
  {
    hide ProtectReserved;
  }

  lemma {:induction false} ChunkOfUnprotectable(a: Aead, p: Protection, chunks: seq<seq<(nat, Frame)>>, j: nat)
    requires j < |chunks| && !Protectable(a, p, chunks[j])
    ensures !Protectable(a, p, Join(chunks))
    decreases |chunks|
  {
    hide ProtectReserved;
    var init, last := chunks[..|chunks| - 1], chunks[|chunks| - 1];
    if j == |init| {
      var k :| 0 <= k < |last| && ProtectReserved(a, p, last[k].0, last[k].1).Err?;
      assert Join(chunks)[|Join(init)| + k] == last[k];
    } else {
      ChunkOfUnprotectable(a, p, init, j);
      var k :| 0 <= k < |Join(init)| && ProtectReserved(a, p, Join(init)[k].0, Join(init)[k].1).Err?;
      assert Join(chunks)[k] == Join(init)[k];
    }
  }

  function Enumerate(frames: seq<Frame>): (s: seq<(nat, Frame)>)
    ensures |s| == |frames|
  {
    seq(|frames|, i requires 0 <= i < |frames| => (i, frames[i]))
  }

  /** Protects a group's frames on as many workers as its size warrants; the result does not depend on how many. */
  method ProtectPreparedFrameItems(a: Aead, p: Protection, frames: seq<Frame>, workers: nat)
    returns (r: Result<seq<bytes>, CryptoError>)
    ensures r.Ok? <==> Protectable(a, p, Enumerate(frames))
    ensures r.Ok? ==> ProtectedAs(a, p, Enumerate(frames), r.value)
  {
    hide Join, Protectable, ProtectedAs;
    var items := Enumerate(frames);
    var available := if workers < 1 then 1 else workers;
    var wanted := DivCeil(|items|, PARALLEL_PROTECT_MIN_FRAMES);
    var count := if available < wanted then available else wanted;
    if |items| < PARALLEL_PROTECT_MIN_FRAMES || count <= 1 {
      r := ProtectItemChunk(a, p, items);
      return;
    }
    var chunks := SplitIntoChunks(items, DivCeil(|items|, count));
    var protected := [];
    NothingProtected(a, p);
    for j := 0 to |chunks|
      invariant ProtectedAs(a, p, Join(chunks[..j]), protected)
    {
      var chunk := ProtectItemChunk(a, p, chunks[j]);
      if chunk.Err? {
        ChunkOfUnprotectable(a, p, chunks, j);
        return Err(chunk.error);
      }
      assert chunks[..j + 1] == chunks[..j] + [chunks[j]];
      JoinSnoc(chunks[..j], chunks[j]);
      ProtectedAppend(a, p, Join(chunks[..j]), protected, chunks[j], chunk.value);
      protected := protected + chunk.value;
    }
    assert chunks[..|chunks|] == chunks;
    ProtectedIsProtectable(a, p, items, protected);
    r := Ok(protected);
  }

  lemma NothingProtected(a: Aead, p: Protection)
    ensures ProtectedAs(a, p, Join([]), [])
  {
  }

  lemma ProtectedIsProtectable(a: Aead, p: Protection, items: seq<(nat, Frame)>, packets: seq<bytes>)
    requires ProtectedAs(a, p, items, packets)
    ensures Protectable(a, p, items)
  {
    hide ProtectReserved;
    forall k | 0 <= k < |items| ensures ProtectReserved(a, p, items[k].0, items[k].1).Ok? {
      assert ProtectReserved(a, p, items[k].0, items[k].1) == Ok(packets[k]);
    }
  }

  // ----- the two transmit forms -----------------------------------------------

  datatype Summary = Summary(packets: nat, bytes: nat)

  function PayloadSum(datagrams: seq<Meta>): nat {
    if datagrams == [] then 0 else datagrams[0].payloadLen + PayloadSum(datagrams[1..])
  }

  function OutcomeBytes(outcomes: seq<Outcome>): nat {
    if outcomes == [] then 0 else outcomes[0].payloadLen + OutcomeBytes(outcomes[1..])
  }

  function Totals(plans: seq<FramePlan>): Summary {
    if plans == [] then Summary(0, 0)
    else
      var before, last := Totals(plans[..|plans| - 1]), plans[|plans| - 1];
      Summary(before.packets + |last.datagrams|, before.bytes + PayloadSum(last.datagrams))
  }

  lemma {:induction false} OutcomeBytesAppend(x: seq<Outcome>, y: seq<Outcome>)
    ensures OutcomeBytes(x + y) == OutcomeBytes(x) + OutcomeBytes(y)
  {
    if x == [] {
      assert x + y == y;
    } else {
      assert (x + y)[1..] == x[1..] + y;
      OutcomeBytesAppend(x[1..], y);
    }
  }

  lemma {:induction false} ReportsSum(env: Env, plan: FramePlan, datagrams: seq<Meta>)
    requires Reports(env, plan, datagrams).1
    ensures OutcomeBytes(Reports(env, plan, datagrams).0) == PayloadSum(datagrams)
  {
    hide ReportTarget;
    if datagrams == [] {
    } else {
      ReportsSum(env, plan, datagrams[1..]);
      assert Reports(env, plan, datagrams).0[1..] == Reports(env, plan, datagrams[1..]).0;
    }
  }

  /** The grouped form's two totals are the count and the byte sum of the outcomes it does not build. */
  lemma {:induction false} TotalsMatchOutcomes(env: Env, plans: seq<FramePlan>)
    requires AllStrict(env, plans)
    ensures Totals(plans) == Summary(|AllReports(env, plans)|, OutcomeBytes(AllReports(env, plans)))
    decreases |plans|
  {
    hide ReportTarget, Reports;
    if plans == [] {
    } else {
      var init, last := plans[..|plans| - 1], plans[|plans| - 1];
      assert StrictlySendable(env, last);
      assert AllStrict(env, init) by {
        assert forall i :: 0 <= i < |init| ==> init[i] == plans[i];
      }
      TotalsMatchOutcomes(env, init);
      assert Reports(env, last, last.datagrams).1;
      ReportsSum(env, last, last.datagrams);
      OutcomeBytesAppend(AllReports(env, init), Reports(env, last, last.datagrams).0);
    }
  }
}
