/** The production receiver as it would be without emission batches: every payload that leaves the reorder
    buffers is emitted at once. */
module HeldReceive {
  import opened Bytes
  import opened FrameCodec
  import opened Plans
  import opened Receive
  import D = Dedupe
  import F = Fragmentation
  import R = Reorder
  import T = Tracker

  datatype Held = Held(run: Run, reorder: R.Buffers)

  // ----- released payloads ----------------------------------------------------

  function EmitOne(cfg: Config, d: Run, serviceId: u16, scope: Option<u32>, item: R.Item): Run {
    var (sequence, e) := item;
    if ServeError(cfg, serviceId).Some? then d.(error := ServeError(cfg, serviceId))
    else d.(out := ApplyAll(d.out, EmitEffects(cfg, serviceId, e.pathId, e.payload, scope, e.observation)),
            outcomes := d.outcomes + [Outcome(serviceId, TargetOf(cfg, serviceId), |e.payload|, sequence, e.pathId)])
  }

  function EmitUpTo(cfg: Config, d: Run, serviceId: u16, scope: Option<u32>, items: seq<R.Item>, n: nat): Run
    requires n <= |items|
    decreases n
  {
    if n == 0 then d
    else
      var before := EmitUpTo(cfg, d, serviceId, scope, items, n - 1);
      if before.error.Some? then before else EmitOne(cfg, before, serviceId, scope, items[n - 1])
  }

  function EmitAll(cfg: Config, d: Run, serviceId: u16, scope: Option<u32>, items: seq<R.Item>): Run {
    EmitUpTo(cfg, d, serviceId, scope, items, |items|)
  }

  /** The items as the service's socket sends them. */
  function EmissionsFor(cfg: Config, serviceId: u16, scope: Option<u32>, items: seq<R.Item>): (es: seq<Emission>)
    requires serviceId in cfg.services
    ensures |es| == |items|
  {
    seq(|items|, i requires 0 <= i < |items| => EmissionOf(cfg, serviceId, scope, items[i].1.payload))
  }

  // ----- frames ---------------------------------------------------------------

  function ArrivalFor(cfg: Config, serviceId: u16, pathId: u16, sequence: u64, payload: bytes, scope: Option<u32>,
                      o: T.Observation, now: nat): R.Arrival {
    R.Arrival(R.Key(serviceId, scope), sequence, R.Entry(pathId, payload, o, now), HoldFor(cfg, pathId))
  }

  function HeldUser(cfg: Config, h: Held, serviceId: u16, pathId: u16, sequence: u64, payload: bytes,
                    scope: Option<u32>, now: nat): Held {
    var seen := ObserveUser(cfg, h.run.core, serviceId, pathId, sequence, |payload|, scope);
    var d := h.run.(core := seen.core, out := ApplyAll(h.run.out, seen.effects));
    if seen.news.None? then Held(d, h.reorder)
    else
      var (reorder, ready) :=
        R.Arrive(h.reorder, ArrivalFor(cfg, serviceId, pathId, sequence, payload, scope, seen.news.value, now));
      Held(EmitAll(cfg, d, serviceId, scope, ready), reorder)
  }

  /** The first `n` payloads of a user batch. */
  function HeldBatch(cfg: Config, h: Held, f: Frame, payloads: seq<bytes>, a: Arrival, n: nat): Held
    requires n <= |payloads|
    decreases n
  {
    if n == 0 then h
    else
      var before := HeldBatch(cfg, h, f, payloads, a, n - 1);
      if before.run.error.Some? then before
      else HeldUser(cfg, before, f.serviceId, f.pathId, WrappingAdd(f.sequence, n - 1), payloads[n - 1], a.scope,
                    a.clock(n - 1))
  }

  /** A user batch is refused before any of it is looked at; with a hold only a disabled service is. */
  function BatchGate(cfg: Config, f: Frame): Option<DataplaneError> {
    if HoldFor(cfg, f.pathId) == 0 then ServeError(cfg, f.serviceId)
    else if f.serviceId in cfg.disabled then Some(ServiceDisabled(f.serviceId)) else None
  }

  function HeldBatchFrame(cfg: Config, h: Held, f: Frame, a: Arrival): Held {
    var payloads := DecodeBatch(f.payload);
    if payloads.Err? then h.(run := h.run.(error := Some(Protocol(payloads.error))))
    else if IsReserved(f.serviceId) then
      h.(run := DeliverBatch(cfg, h.run, f, payloads.value, a, |payloads.value|))
    else if BatchGate(cfg, f).Some? then h.(run := h.run.(error := BatchGate(cfg, f)))
    else HeldBatch(cfg, h, f, payloads.value, a, |payloads.value|)
  }

  function HeldDataFrame(cfg: Config, h: Held, f: Frame, a: Arrival): Held {
    var (fragments, result) := F.Push(h.run.core.fragments, f);
    var d := h.run.(core := h.run.core.(fragments := fragments));
    if result.Err? then Held(d.(error := Some(result.error)), h.reorder)
    else if result.value.None? then Held(d, h.reorder)
    else if IsReserved(f.serviceId) then
      Held(DeliverReserved(d, Event(f.serviceId, f.pathId, f.sequence, result.value.value, a.length, a.scope)),
        h.reorder)
    else HeldUser(cfg, Held(d, h.reorder), f.serviceId, f.pathId, f.sequence, result.value.value, a.scope, a.clock(0))
  }

  function HeldFrame(cfg: Config, h: Held, f: Frame, a: Arrival): Held {
    match f.kind
    case Control =>
      h.(run := DeliverReserved(h.run, Event(f.serviceId, f.pathId, f.sequence, f.payload, a.length, a.scope)))
    case Batch => HeldBatchFrame(cfg, h, f, a)
    case Data => HeldDataFrame(cfg, h, f, a)
  }

  function HeldOne(cfg: Config, h: Held, a: Arrival): Held {
    if a.content.None? then h.(run := h.run.(out := ApplyAll(h.run.out, DropEffects(a))))
    else HeldFrame(cfg, h.(run := h.run.(core := Learn(h.run.core, a))), a.content.value, a)
  }

  function HeldUpTo(cfg: Config, h: Held, arrivals: seq<Arrival>, n: nat): Held
    requires n <= |arrivals|
    decreases n
  {
    if n == 0 then h
    else
      var before := HeldUpTo(cfg, h, arrivals, n - 1);
      if before.run.error.Some? then before else HeldOne(cfg, before, arrivals[n - 1])
  }

  // ----- the sweep and the call -----------------------------------------------

  function SweepOne(cfg: Config, h: Held, key: R.Key, now: nat): Held {
    var (reorder, ready) := R.Expire(h.reorder, key, now, cfg.holds);
    Held(EmitAll(cfg, h.run, key.serviceId, key.peerScope, ready), reorder)
  }

  /** The first `n` keys of the sweep; the clock is read for each. */
  function SweepUpTo(cfg: Config, h: Held, keys: seq<R.Key>, clock: nat -> nat, n: nat): Held
    requires n <= |keys|
    decreases n
  {
    if n == 0 then h
    else
      var before := SweepUpTo(cfg, h, keys, clock, n - 1);
      if before.run.error.Some? then before else SweepOne(cfg, before, keys[n - 1], clock(n - 1))
  }

  /** A whole call: the arrivals, then a sweep over the keys in the order the map hands them out. */
  function HeldCall(cfg: Config, h: Held, arrivals: seq<Arrival>, order: R.Buffers -> seq<R.Key>, clock: nat -> nat)
    : Held
  {
    var received := HeldUpTo(cfg, h, arrivals, |arrivals|);
    if received.run.error.Some? then received
    else
      var keys := order(received.reorder);
      SweepUpTo(cfg, received, keys, clock, |keys|)
  }

  lemma {:induction false} ErrorEndsEmission(cfg: Config, d: Run, serviceId: u16, scope: Option<u32>,
                                             items: seq<R.Item>, m: nat, n: nat)
    requires m <= n <= |items| && EmitUpTo(cfg, d, serviceId, scope, items, m).error.Some?
    ensures EmitUpTo(cfg, d, serviceId, scope, items, n) == EmitUpTo(cfg, d, serviceId, scope, items, m)
    decreases n
  {
    hide EmitOne;
    if m < n {
      ErrorEndsEmission(cfg, d, serviceId, scope, items, m, n - 1);
    }
  }

  lemma {:induction false} ErrorEndsHeldBatch(cfg: Config, h: Held, f: Frame, payloads: seq<bytes>, a: Arrival, m: nat,
                                              n: nat)
    requires m <= n <= |payloads| && HeldBatch(cfg, h, f, payloads, a, m).run.error.Some?
    ensures HeldBatch(cfg, h, f, payloads, a, n) == HeldBatch(cfg, h, f, payloads, a, m)
    decreases n
  {
    hide HeldUser;
    if m < n {
      ErrorEndsHeldBatch(cfg, h, f, payloads, a, m, n - 1);
    }
  }

  lemma {:induction false} ErrorEndsHeldCall(cfg: Config, h: Held, arrivals: seq<Arrival>, m: nat, n: nat)
    requires m <= n <= |arrivals| && HeldUpTo(cfg, h, arrivals, m).run.error.Some?
    ensures HeldUpTo(cfg, h, arrivals, n) == HeldUpTo(cfg, h, arrivals, m)
    decreases n
  {
    hide HeldOne;
    if m < n {
      ErrorEndsHeldCall(cfg, h, arrivals, m, n - 1);
    }
  }

  lemma {:induction false} ErrorEndsSweep(cfg: Config, h: Held, keys: seq<R.Key>, clock: nat -> nat, m: nat, n: nat)
    requires m <= n <= |keys| && SweepUpTo(cfg, h, keys, clock, m).run.error.Some?
    ensures SweepUpTo(cfg, h, keys, clock, n) == SweepUpTo(cfg, h, keys, clock, m)
    decreases n
  {
    hide SweepOne;
    if m < n {
      ErrorEndsSweep(cfg, h, keys, clock, m, n - 1);
    }
  }

  // ----- batches of services that are not served ------------------------------

  /** A batch of a disabled service is refused and forgotten; so is one of an unknown service on a path without a hold.
      With a hold the unknown service's payloads have been taken note of before the refusal. */
  lemma UnservedBatch(cfg: Config, h: Held, f: Frame, a: Arrival, payload: bytes)
    requires !IsReserved(f.serviceId) && DecodeBatch(f.payload) == Ok([payload]) && h.run.error.None?
    requires !Serves(cfg, f.serviceId) && cfg.capacity > 0
    ensures var r, key := HeldBatchFrame(cfg, h, f, a), D.Key(f.serviceId, a.scope, f.sequence);
      if f.serviceId in cfg.disabled && (HoldFor(cfg, f.pathId) > 0 || f.serviceId in cfg.services) then
        r == h.(run := h.run.(error := Some(ServiceDisabled(f.serviceId))))
      else if HoldFor(cfg, f.pathId) == 0 then
        r == h.(run := h.run.(error := Some(UnknownServiceId(f.serviceId))))
      else
        key in r.run.core.window
  {
    hide ApplyAll, R.Arrive, EmitUpTo, T.Observe, DuplicateEffects;
    if f.serviceId !in cfg.disabled && HoldFor(cfg, f.pathId) > 0 {
      assert HeldBatch(cfg, h, f, [payload], a, 0) == h;
      assert WrappingAdd(f.sequence, 0) == f.sequence;
      UserIsNoted(cfg, h, f.serviceId, f.pathId, f.sequence, payload, a.scope, a.clock(0));
    }
  }

  lemma UserIsNoted(cfg: Config, h: Held, serviceId: u16, pathId: u16, sequence: u64, payload: bytes,
                    scope: Option<u32>, now: nat)
    requires cfg.capacity > 0
    ensures D.Key(serviceId, scope, sequence) in
            HeldUser(cfg, h, serviceId, pathId, sequence, payload, scope, now).run.core.window
  {
    hide ApplyAll, R.Arrive, EmitUpTo, T.Observe, DuplicateEffects;
    var seen := ObserveUser(cfg, h.run.core, serviceId, pathId, sequence, |payload|, scope);
    var d := h.run.(core := seen.core, out := ApplyAll(h.run.out, seen.effects));
    var key := D.Key(serviceId, scope, sequence);
    if seen.news.Some? {
      var grown, window := h.run.core.window + [key], seen.core.window;
      assert window[|window| - 1] == grown[|grown| - 1] == key;
      var ready := R.Arrive(h.reorder,
        ArrivalFor(cfg, serviceId, pathId, sequence, payload, scope, seen.news.value, now)).1;
      EmitKeepsCore(cfg, d, serviceId, scope, ready, |ready|);
    }
  }

  lemma {:induction false} EmitKeepsCore(cfg: Config, d: Run, serviceId: u16, scope: Option<u32>,
                                         items: seq<R.Item>, n: nat)
    requires n <= |items|
    ensures EmitUpTo(cfg, d, serviceId, scope, items, n).core == d.core
    decreases n
  {
    hide ApplyAll, EmitEffects, TargetOf;
    if n == 0 {
    } else {
      EmitKeepsCore(cfg, d, serviceId, scope, items, n - 1);
    }
  }

  // ----- without holds this is the detailed form ------------------------------

  /** No hold on a user frame's path, and a served service behind a user batch. */
  ghost predicate Unhurried(cfg: Config, a: Arrival) {
    a.content.Some? ==> UnhurriedFrame(cfg, a.content.value)
  }

  ghost predicate UnhurriedFrame(cfg: Config, f: Frame) {
    || f.kind.Control? || IsReserved(f.serviceId)
    || (HoldFor(cfg, f.pathId) == 0 && (f.kind.Batch? ==> Serves(cfg, f.serviceId)))
  }

  ghost predicate AllUnhurried(cfg: Config, arrivals: seq<Arrival>) {
    forall i :: 0 <= i < |arrivals| ==> Unhurried(cfg, arrivals[i])
  }

  lemma EmitSingle(cfg: Config, d: Run, serviceId: u16, scope: Option<u32>, item: R.Item)
    requires d.error.None?
    ensures EmitAll(cfg, d, serviceId, scope, [item]) == EmitOne(cfg, d, serviceId, scope, item)
  {
    hide EmitOne;
    assert EmitUpTo(cfg, d, serviceId, scope, [item], 0) == d;
  }

  lemma UserWithoutHold(cfg: Config, h: Held, serviceId: u16, pathId: u16, sequence: u64, payload: bytes,
                        scope: Option<u32>, now: nat)
    requires HoldFor(cfg, pathId) == 0 && h.run.error.None?
    ensures HeldUser(cfg, h, serviceId, pathId, sequence, payload, scope, now) ==
            Held(DeliverUser(cfg, h.run, serviceId, pathId, sequence, payload, scope), h.reorder)
  {
    hide ApplyAll, EmitEffects, ObserveUser, EmitAll, TargetOf;
    var seen := ObserveUser(cfg, h.run.core, serviceId, pathId, sequence, |payload|, scope);
    if seen.news.Some? {
      var d := h.run.(core := seen.core, out := ApplyAll(h.run.out, seen.effects));
      EmitSingle(cfg, d, serviceId, scope, (sequence, R.Entry(pathId, payload, seen.news.value, now)));
    }
  }

  lemma {:induction false} BatchWithoutHold(cfg: Config, h: Held, f: Frame, payloads: seq<bytes>, a: Arrival, n: nat)
    requires HoldFor(cfg, f.pathId) == 0 && !IsReserved(f.serviceId) && h.run.error.None? && n <= |payloads|
    ensures HeldBatch(cfg, h, f, payloads, a, n) == Held(DeliverBatch(cfg, h.run, f, payloads, a, n), h.reorder)
    decreases n
  {
    hide HeldUser, DeliverUser;
    if n == 0 {
    } else {
      BatchWithoutHold(cfg, h, f, payloads, a, n - 1);
      var before := HeldBatch(cfg, h, f, payloads, a, n - 1);
      if before.run.error.None? {
        UserWithoutHold(cfg, before, f.serviceId, f.pathId, WrappingAdd(f.sequence, n - 1), payloads[n - 1], a.scope,
          a.clock(n - 1));
      }
    }
  }

  lemma OneWithoutHold(cfg: Config, h: Held, a: Arrival)
    requires Unhurried(cfg, a) && h.run.error.None?
    ensures HeldOne(cfg, h, a) == Held(ReceiveOne(cfg, h.run, a), h.reorder)
  {
    hide ApplyAll, HeldUser, DeliverUser, HeldBatch, DeliverBatch, F.Push, DecodeBatch, DeliverReserved, HoldFor;
    if a.content.Some? {
      var f, h1 := a.content.value, h.(run := h.run.(core := Learn(h.run.core, a)));
      match f.kind
      case Control =>
      case Batch =>
        var payloads := DecodeBatch(f.payload);
        if payloads.Ok? && !IsReserved(f.serviceId) {
          BatchWithoutHold(cfg, h1, f, payloads.value, a, |payloads.value|);
        }
      case Data =>
        var (fragments, result) := F.Push(h1.run.core.fragments, f);
        if !IsReserved(f.serviceId) && result.Ok? && result.value.Some? {
          var d := h1.run.(core := h1.run.core.(fragments := fragments));
          UserWithoutHold(cfg, Held(d, h.reorder), f.serviceId, f.pathId, f.sequence, result.value.value, a.scope,
            a.clock(0));
        }
    }
  }

  /** Without holds nothing is ever held back, and the arrivals are received as the detailed form receives them. */
  lemma {:induction false} WithoutHoldsIsDetailed(cfg: Config, h: Held, arrivals: seq<Arrival>, n: nat)
    requires AllUnhurried(cfg, arrivals) && h.run.error.None? && n <= |arrivals|
    ensures HeldUpTo(cfg, h, arrivals, n) == Held(ReceiveUpTo(cfg, h.run, arrivals, n), h.reorder)
    decreases n
  {
    hide HeldOne, ReceiveOne, Unhurried;
    if n == 0 {
    } else {
      WithoutHoldsIsDetailed(cfg, h, arrivals, n - 1);
      var before := HeldUpTo(cfg, h, arrivals, n - 1);
      if before.run.error.None? {
        OneWithoutHold(cfg, before, arrivals[n - 1]);
      }
    }
  }

  /** From empty reorder buffers the whole call is the detailed form. */
  lemma CallWithoutHoldsIsDetailed(cfg: Config, d: Run, arrivals: seq<Arrival>, order: R.Buffers -> seq<R.Key>,
                                   clock: nat -> nat)
    requires AllUnhurried(cfg, arrivals) && d.error.None? && order(map[]) == []
    ensures HeldCall(cfg, Held(d, map[]), arrivals, order, clock) ==
        Held(ReceiveUpTo(cfg, d, arrivals, |arrivals|), map[])
  {
    hide HeldUpTo, ReceiveUpTo, AllUnhurried;
    WithoutHoldsIsDetailed(cfg, Held(d, map[]), arrivals, |arrivals|);
  }
}
