/** Which return address the receiver has learned for a peer on a path: the source of the last authentic packet. */
module LearnedRemotes {
  import opened Bytes
  import opened FrameCodec
  import opened Plans
  import opened Receive
  import opened HeldReceive
  import D = Dedupe
  import F = Fragmentation
  import R = Reorder
  import T = Tracker

  function RemoteAt(core: Core, scope: u32, pathId: u16): Option<Addr> {
    if (scope, pathId) in core.remotes then Some(core.remotes[(scope, pathId)]) else None
  }

  /** The source of the last packet that authenticated under the peer's session on the path. */
  function LastSource(arrivals: seq<Arrival>, scope: u32, pathId: u16): Option<Addr> {
    if arrivals == [] then None
    else
      var a := arrivals[|arrivals| - 1];
      if a.content.Some? && a.scope == Some(scope) && a.pathId == pathId then Some(a.source)
      else LastSource(arrivals[..|arrivals| - 1], scope, pathId)
  }

  lemma LastSourceSnoc(arrivals: seq<Arrival>, a: Arrival, scope: u32, pathId: u16)
    ensures LastSource(arrivals + [a], scope, pathId) ==
            if a.content.Some? && a.scope == Some(scope) && a.pathId == pathId then Some(a.source)
            else LastSource(arrivals, scope, pathId)
  {
    assert (arrivals + [a])[..|arrivals|] == arrivals;
  }

  // ----- frames leave the addresses alone -------------------------------------

  lemma PayloadKeepsRemotes(cfg: Config, d: Run, f: Frame, sequence: u64, payload: bytes, a: Arrival)
    ensures DeliverPayload(cfg, d, f, sequence, payload, a).core.remotes == d.core.remotes
  {
    hide ApplyAll, T.Observe, D.Remember, EmitEffects, ReservedEffects, TargetOf, DuplicateEffects;
  }

  lemma {:induction false} BatchKeepsRemotes(cfg: Config, d: Run, f: Frame, payloads: seq<bytes>, a: Arrival, n: nat)
    requires n <= |payloads|
    ensures DeliverBatch(cfg, d, f, payloads, a, n).core.remotes == d.core.remotes
    decreases n
  {
    hide DeliverPayload;
    if n == 0 {
    } else {
      BatchKeepsRemotes(cfg, d, f, payloads, a, n - 1);
      PayloadKeepsRemotes(cfg, DeliverBatch(cfg, d, f, payloads, a, n - 1), f, WrappingAdd(f.sequence, n - 1),
        payloads[n - 1], a);
    }
  }

  lemma UserKeepsRemotes(cfg: Config, h: Held, serviceId: u16, pathId: u16, sequence: u64, payload: bytes,
                         scope: Option<u32>, now: nat)
    ensures HeldUser(cfg, h, serviceId, pathId, sequence, payload, scope, now).run.core.remotes == h.run.core.remotes
  {
    hide ApplyAll, T.Observe, D.Remember, EmitUpTo, R.Arrive, DuplicateEffects;
    var seen := ObserveUser(cfg, h.run.core, serviceId, pathId, sequence, |payload|, scope);
    if seen.news.Some? {
      var d := h.run.(core := seen.core, out := ApplyAll(h.run.out, seen.effects));
      var ready := R.Arrive(h.reorder,
        ArrivalFor(cfg, serviceId, pathId, sequence, payload, scope, seen.news.value, now)).1;
      EmitKeepsCore(cfg, d, serviceId, scope, ready, |ready|);
    }
  }

  lemma {:induction false} HeldBatchKeepsRemotes(cfg: Config, h: Held, f: Frame, payloads: seq<bytes>, a: Arrival,
                                                 n: nat)
    requires n <= |payloads|
    ensures HeldBatch(cfg, h, f, payloads, a, n).run.core.remotes == h.run.core.remotes
    decreases n
  {
    hide HeldUser;
    if n == 0 {
    } else {
      HeldBatchKeepsRemotes(cfg, h, f, payloads, a, n - 1);
      UserKeepsRemotes(cfg, HeldBatch(cfg, h, f, payloads, a, n - 1), f.serviceId, f.pathId,
        WrappingAdd(f.sequence, n - 1), payloads[n - 1], a.scope, a.clock(n - 1));
    }
  }

  // ----- one packet -----------------------------------------------------------

  lemma FrameKeepsRemotes(cfg: Config, d: Run, f: Frame, a: Arrival)
    ensures ReceiveFrame(cfg, d, f, a).core.remotes == d.core.remotes
  {
    hide ApplyAll, DeliverPayload, DeliverBatch, F.Push, ReservedEffects, T.Observe;
    match f.kind
    case Control =>
    case Batch =>
      var payloads := DecodeBatch(f.payload);
      if payloads.Ok? {
        BatchKeepsRemotes(cfg, d, f, payloads.value, a, |payloads.value|);
      }
    case Data =>
      var (fragments, result) := F.Push(d.core.fragments, f);
      if result.Ok? && result.value.Some? {
        PayloadKeepsRemotes(cfg, d.(core := d.core.(fragments := fragments)), f, f.sequence, result.value.value, a);
      }
  }

  lemma HeldFrameKeepsRemotes(cfg: Config, h: Held, f: Frame, a: Arrival)
    ensures HeldFrame(cfg, h, f, a).run.core.remotes == h.run.core.remotes
  {
    hide ApplyAll, HeldUser, DeliverBatch, HeldBatch, F.Push, ReservedEffects, T.Observe, BatchGate;
    match f.kind
    case Control =>
    case Batch =>
      var payloads := DecodeBatch(f.payload);
      if payloads.Ok? {
        BatchKeepsRemotes(cfg, h.run, f, payloads.value, a, |payloads.value|);
        HeldBatchKeepsRemotes(cfg, h, f, payloads.value, a, |payloads.value|);
      }
    case Data =>
      var (fragments, result) := F.Push(h.run.core.fragments, f);
      if result.Ok? && result.value.Some? {
        var h' := Held(h.run.(core := h.run.core.(fragments := fragments)), h.reorder);
        UserKeepsRemotes(cfg, h', f.serviceId, f.pathId, f.sequence, result.value.value, a.scope, a.clock(0));
      }
  }

  lemma ArrivalTeaches(cfg: Config, d: Run, a: Arrival, scope: u32, pathId: u16)
    ensures RemoteAt(ReceiveOne(cfg, d, a).core, scope, pathId) ==
            LastSource([a], scope, pathId).Or(RemoteAt(d.core, scope, pathId))
  {
    hide ApplyAll, ReceiveFrame;
    OnlySource(a, scope, pathId);
    if a.content.Some? {
      FrameKeepsRemotes(cfg, d.(core := Learn(d.core, a)), a.content.value, a);
    }
  }

  lemma HeldArrivalTeaches(cfg: Config, h: Held, a: Arrival, scope: u32, pathId: u16)
    ensures RemoteAt(HeldOne(cfg, h, a).run.core, scope, pathId) ==
            LastSource([a], scope, pathId).Or(RemoteAt(h.run.core, scope, pathId))
  {
    hide ApplyAll, HeldFrame;
    OnlySource(a, scope, pathId);
    if a.content.Some? {
      HeldFrameKeepsRemotes(cfg, h.(run := h.run.(core := Learn(h.run.core, a))), a.content.value, a);
    }
  }

  lemma OnlySource(a: Arrival, scope: u32, pathId: u16)
    ensures LastSource([a], scope, pathId) ==
            if a.content.Some? && a.scope == Some(scope) && a.pathId == pathId then Some(a.source) else None
  {
    LastSourceSnoc([], a, scope, pathId);
    assert [] + [a] == [a];
  }

  lemma SourcesOnward(arrivals: seq<Arrival>, a: Arrival, scope: u32, pathId: u16, start: Option<Addr>)
    ensures LastSource(arrivals + [a], scope, pathId).Or(start) ==
            LastSource([a], scope, pathId).Or(LastSource(arrivals, scope, pathId).Or(start))
  {
    LastSourceSnoc(arrivals, a, scope, pathId);
    OnlySource(a, scope, pathId);
  }

  // ----- any run --------------------------------------------------------------

  /** After any arrivals, up to and including one that fails the call: per peer and path the last source wins. */
  lemma {:induction false} LearnedIsLast(cfg: Config, d: Run, arrivals: seq<Arrival>, n: nat, scope: u32, pathId: u16)
    requires n <= |arrivals| && (n > 0 ==> ReceiveUpTo(cfg, d, arrivals, n - 1).error.None?)
    ensures RemoteAt(ReceiveUpTo(cfg, d, arrivals, n).core, scope, pathId) ==
            LastSource(arrivals[..n], scope, pathId).Or(RemoteAt(d.core, scope, pathId))
    decreases n
  {
    hide ReceiveOne, RemoteAt, LastSource;
    if n == 0 {
      NoSource(scope, pathId);
    } else {
      var before, a := ReceiveUpTo(cfg, d, arrivals, n - 1), arrivals[n - 1];
      LearnedIsLast(cfg, d, arrivals, n - 1, scope, pathId);
      ArrivalTeaches(cfg, before, a, scope, pathId);
      assert arrivals[..n] == arrivals[..n - 1] + [a];
      SourcesOnward(arrivals[..n - 1], a, scope, pathId, RemoteAt(d.core, scope, pathId));
    }
  }

  /** The same for the production receiver. */
  lemma {:induction false} HeldLearnedIsLast(cfg: Config, h: Held, arrivals: seq<Arrival>, n: nat, scope: u32,
                                             pathId: u16)
    requires n <= |arrivals| && (n > 0 ==> HeldUpTo(cfg, h, arrivals, n - 1).run.error.None?)
    ensures RemoteAt(HeldUpTo(cfg, h, arrivals, n).run.core, scope, pathId) ==
            LastSource(arrivals[..n], scope, pathId).Or(RemoteAt(h.run.core, scope, pathId))
    decreases n
  {
    hide HeldOne, RemoteAt, LastSource;
    if n == 0 {
      NoSource(scope, pathId);
    } else {
      var before, a := HeldUpTo(cfg, h, arrivals, n - 1), arrivals[n - 1];
      HeldLearnedIsLast(cfg, h, arrivals, n - 1, scope, pathId);
      HeldArrivalTeaches(cfg, before, a, scope, pathId);
      assert arrivals[..n] == arrivals[..n - 1] + [a];
      SourcesOnward(arrivals[..n - 1], a, scope, pathId, RemoteAt(h.run.core, scope, pathId));
    }
  }

  lemma NoSource(scope: u32, pathId: u16)
    ensures LastSource([], scope, pathId) == None
  {
  }
}
