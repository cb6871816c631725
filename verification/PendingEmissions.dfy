/** Emissions the production receiver has put off: what they stand for, and which ones wait at any point of a call. */
module PendingEmissions {
  import opened Bytes
  import opened FrameCodec
  import opened Plans
  import opened Receive
  import opened HeldReceive
  import F = Fragmentation
  import D = Dedupe
  import T = Tracker
  import R = Reorder

  const REMOTE_EMIT_BATCH_LIMIT: nat := 64

  datatype PendingKey = PendingKey(serviceId: u16, pathId: u16, scope: Option<u32>, target: Addr)

  datatype PendingItem = PendingItem(payload: bytes, sequence: u64, observation: T.Observation)

  datatype Pending = Pending(key: Option<PendingKey>, items: seq<PendingItem>)

  const NOTHING: Pending := Pending(None, [])

  datatype Totals = Totals(packets: nat, bytes: nat)

  // ----- what delayed emissions stand for -------------------------------------

  function ItemEffects(cfg: Config, k: PendingKey, items: seq<PendingItem>): (es: seq<Effect>)
    requires k.serviceId in cfg.services
  {
    if items == [] then []
    else
      var last := items[|items| - 1];
      ItemEffects(cfg, k, items[..|items| - 1])
      + EmitEffects(cfg, k.serviceId, k.pathId, last.payload, k.scope, last.observation)
  }

  /** A batch in waiting is for a served service and never for a peer source socket. */
  ghost predicate KeyOk(cfg: Config, p: Pending) {
    match p.key
    case None => p.items == []
    case Some(k) =>
      && k.serviceId in cfg.services && k.target == TargetOf(cfg, k.serviceId)
      && !PeerSourced(cfg, k.serviceId, k.scope)
  }

  ghost predicate PendingOk(cfg: Config, p: Pending) {
    KeyOk(cfg, p) && |p.items| < REMOTE_EMIT_BATCH_LIMIT
  }

  ghost predicate Scoped(p: Pending, scoped: bool) {
    p.key.Some? ==> (p.key.value.scope.Some? <==> scoped)
  }

  function PendingEffects(cfg: Config, p: Pending): (es: seq<Effect>)
    requires p.key.Some? ==> p.key.value.serviceId in cfg.services
  {
    if p.key.None? then [] else ItemEffects(cfg, p.key.value, p.items)
  }

  /** The output once everything pending has gone out. */
  function Settled(cfg: Config, out: Out, p: Pending): Out
    requires p.key.Some? ==> p.key.value.serviceId in cfg.services
  {
    ApplyAll(out, PendingEffects(cfg, p))
  }

  function ItemBytes(items: seq<PendingItem>): nat {
    if items == [] then 0 else ItemBytes(items[..|items| - 1]) + |items[|items| - 1].payload|
  }

  function TotalOf(s: Totals, p: Pending): Totals {
    Totals(s.packets + |p.items|, s.bytes + ItemBytes(p.items))
  }

  function OutcomeTotals(outcomes: seq<Outcome>): Totals {
    if outcomes == [] then Totals(0, 0)
    else
      var before := OutcomeTotals(outcomes[..|outcomes| - 1]);
      Totals(before.packets + 1, before.bytes + outcomes[|outcomes| - 1].payloadLen)
  }

  lemma ItemEffectsSnoc(cfg: Config, k: PendingKey, items: seq<PendingItem>, item: PendingItem)
    requires k.serviceId in cfg.services
    ensures ItemEffects(cfg, k, items + [item]) ==
            ItemEffects(cfg, k, items)
            + EmitEffects(cfg, k.serviceId, k.pathId, item.payload, k.scope, item.observation)
    ensures ItemBytes(items + [item]) == ItemBytes(items) + |item.payload|
  {
    hide EmitEffects;
    assert (items + [item])[..|items|] == items;
  }

  lemma OutcomeTotalsSnoc(outcomes: seq<Outcome>, o: Outcome)
    ensures OutcomeTotals(outcomes + [o]) ==
            Totals(OutcomeTotals(outcomes).packets + 1, OutcomeTotals(outcomes).bytes + o.payloadLen)
  {
    assert (outcomes + [o])[..|outcomes|] == outcomes;
  }

  /** A batch in waiting emits for its own service only. */
  lemma {:induction false} ItemsEmitForService(cfg: Config, k: PendingKey, items: seq<PendingItem>)
    requires k.serviceId in cfg.services
    ensures forall i :: 0 <= i < |ItemEffects(cfg, k, items)| ==>
              var e := ItemEffects(cfg, k, items)[i]; e.Emit? ==> e.serviceId == k.serviceId
    decreases |items|
  {
    if items == [] {
    } else {
      ItemsEmitForService(cfg, k, items[..|items| - 1]);
    }
  }

  /** Counter updates may happen before the pending emissions or after them. */
  lemma CountersPassPending(cfg: Config, out: Out, p: Pending, bumps: seq<Effect>)
    requires p.key.Some? ==> p.key.value.serviceId in cfg.services
    requires forall i :: 0 <= i < |bumps| ==> bumps[i].Bump?
    ensures Settled(cfg, ApplyAll(out, bumps), p) == ApplyAll(Settled(cfg, out, p), bumps)
  {
    hide ApplyAll, PendingEffects;
    PastSeq(out, PendingEffects(cfg, p), bumps);
  }

  /** An emission for another service may overtake the pending ones. */
  lemma OtherServicePassesPending(cfg: Config, out: Out, p: Pending, serviceId: u16, es: seq<Effect>)
    requires p.key.Some? ==> p.key.value.serviceId in cfg.services && p.key.value.serviceId != serviceId
    requires forall i :: 0 <= i < |es| ==> es[i].Emit? ==> es[i].serviceId == serviceId
    ensures Settled(cfg, ApplyAll(out, es), p) == ApplyAll(Settled(cfg, out, p), es)
  {
    hide ApplyAll, ItemEffects;
    if p.key.Some? {
      ItemsEmitForService(cfg, p.key.value, p.items);
    }
    PastSeq(out, PendingEffects(cfg, p), es);
  }

  lemma SettledNothing(cfg: Config, out: Out)
    ensures Settled(cfg, out, NOTHING) == out
  {
  }

  /** Joining the queue is emitting after everything already in it. */
  lemma QueueOneMore(cfg: Config, out: Out, k: PendingKey, items: seq<PendingItem>, item: PendingItem)
    requires k.serviceId in cfg.services
    ensures Settled(cfg, out, Pending(Some(k), items + [item])) ==
            ApplyAll(Settled(cfg, out, Pending(Some(k), items)),
                     EmitEffects(cfg, k.serviceId, k.pathId, item.payload, k.scope, item.observation))
  {
    hide ApplyAll, ItemEffects, EmitEffects;
    ItemEffectsSnoc(cfg, k, items, item);
    ApplyAppend(out, ItemEffects(cfg, k, items),
                EmitEffects(cfg, k.serviceId, k.pathId, item.payload, k.scope, item.observation));
  }

  lemma EmptyQueue(cfg: Config, out: Out, k: PendingKey, s: Totals)
    requires k.serviceId in cfg.services
    ensures Settled(cfg, out, Pending(Some(k), [])) == out && TotalOf(s, Pending(Some(k), [])) == s
    ensures TotalOf(s, NOTHING) == s
  {
  }

  lemma EmptyTotals(s: Totals)
    ensures TotalOf(s, NOTHING) == s
  {
  }

  /** Emissions still out show: with anything pending the output is not yet what it stands for. */
  lemma SettledDiffers(cfg: Config, out: Out, p: Pending)
    requires KeyOk(cfg, p)
    ensures Settled(cfg, out, p) == out <==> p.items == []
  {
    hide ItemEffects, ApplyAll;
    if p.key.None? || p.items == [] {
      NothingToEmit(cfg, p);
      ApplyNone(out);
    } else {
      ItemsGrowOutput(cfg, out, p.key.value, p.items);
    }
  }

  lemma NothingToEmit(cfg: Config, p: Pending)
    requires KeyOk(cfg, p) && p.items == []
    ensures PendingEffects(cfg, p) == []
  {
  }

  lemma NoItems(cfg: Config, k: PendingKey)
    requires k.serviceId in cfg.services
    ensures ItemEffects(cfg, k, []) == []
  {
  }

  lemma {:induction false} ItemsGrowOutput(cfg: Config, out: Out, k: PendingKey, items: seq<PendingItem>)
    requires k.serviceId in cfg.services
    ensures |EmittedBy(ApplyAll(out, ItemEffects(cfg, k, items)), k.serviceId)| ==
        |EmittedBy(out, k.serviceId)| + |items|
    decreases |items|
  {
    hide ApplyAll, ItemEffects, EmitEffects, EmittedBy;
    if items == [] {
      NoItems(cfg, k);
      ApplyNone(out);
    } else {
      var init, item := items[..|items| - 1], items[|items| - 1];
      var es := EmitEffects(cfg, k.serviceId, k.pathId, item.payload, k.scope, item.observation);
      assert items == init + [item];
      ItemsGrowOutput(cfg, out, k, init);
      ItemEffectsSnoc(cfg, k, init, item);
      ApplyAppend(out, ItemEffects(cfg, k, init), es);
      EmissionGrows(cfg, ApplyAll(out, ItemEffects(cfg, k, init)), k.serviceId, k.pathId, item.payload, k.scope,
        item.observation);
    }
  }

  lemma EmissionGrows(cfg: Config, out: Out, serviceId: u16, pathId: u16, payload: bytes, scope: Option<u32>,
                      o: T.Observation)
    requires serviceId in cfg.services
    ensures |EmittedBy(ApplyAll(out, EmitEffects(cfg, serviceId, pathId, payload, scope, o)), serviceId)|
            == |EmittedBy(out, serviceId)| + 1
  {
    hide ApplyAll;
    ApplyFew(out, EmitEffects(cfg, serviceId, pathId, payload, scope, o));
  }

  // ----- which emissions wait, at every point of a call -----------------------

  /** The batch after one more payload: sent at once from a peer's own socket, and otherwise joined to the batch, a new
      one for a new key, that goes out when it is full. */
  function Queued(cfg: Config, p: Pending, serviceId: u16, scope: Option<u32>, item: R.Item): Pending {
    var (sequence, e) := item;
    if ServeError(cfg, serviceId).Some? || PeerSourced(cfg, serviceId, scope) then p
    else
      var key := PendingKey(serviceId, e.pathId, scope, TargetOf(cfg, serviceId));
      var items := (if p.key == Some(key) then p.items else []) + [PendingItem(e.payload, sequence, e.observation)];
      if |items| >= REMOTE_EMIT_BATCH_LIMIT then NOTHING else Pending(Some(key), items)
  }

  function QueuedUpTo(cfg: Config, p: Pending, serviceId: u16, scope: Option<u32>, items: seq<R.Item>, n: nat): Pending
    requires n <= |items|
    decreases n
  {
    if n == 0 then p
    else Queued(cfg, QueuedUpTo(cfg, p, serviceId, scope, items, n - 1), serviceId, scope, items[n - 1])
  }

  function QueuedAll(cfg: Config, p: Pending, serviceId: u16, scope: Option<u32>, items: seq<R.Item>): Pending {
    QueuedUpTo(cfg, p, serviceId, scope, items, |items|)
  }

  function PendingUser(cfg: Config, h: Held, p: Pending, serviceId: u16, pathId: u16, sequence: u64, payload: bytes,
                       scope: Option<u32>, now: nat): Pending {
    var seen := ObserveUser(cfg, h.run.core, serviceId, pathId, sequence, |payload|, scope);
    if seen.news.None? then p
    else
      var arrival := ArrivalFor(cfg, serviceId, pathId, sequence, payload, scope, seen.news.value, now);
      QueuedAll(cfg, p, serviceId, scope, R.Arrive(h.reorder, arrival).1)
  }

  /** The first `n` payloads of a user batch, taken one by one. */
  function PendingBatch(cfg: Config, h: Held, f: Frame, payloads: seq<bytes>, a: Arrival, n: nat): Pending
    requires n <= |payloads|
    decreases n
  {
    if n == 0 then NOTHING
    else
      var before, p := HeldBatch(cfg, h, f, payloads, a, n - 1), PendingBatch(cfg, h, f, payloads, a, n - 1);
      if before.run.error.Some? then p
      else PendingUser(cfg, before, p, f.serviceId, f.pathId, WrappingAdd(f.sequence, n - 1), payloads[n - 1], a.scope,
                       a.clock(n - 1))
  }

  /** A batch for which the fast path serves sends everything; any other leaves what its payloads leave. */
  function PendingUserBatch(cfg: Config, h: Held, f: Frame, payloads: seq<bytes>, a: Arrival): Pending {
    if BatchGate(cfg, f).Some? then NOTHING
    else if HoldFor(cfg, f.pathId) == 0 && !PeerSourced(cfg, f.serviceId, a.scope) then NOTHING
    else PendingBatch(cfg, h, f, payloads, a, |payloads|)
  }

  function PendingBatchFrame(cfg: Config, h: Held, f: Frame, a: Arrival): Pending {
    var payloads := DecodeBatch(f.payload);
    if payloads.Err? || IsReserved(f.serviceId) then NOTHING else PendingUserBatch(cfg, h, f, payloads.value, a)
  }

  function PendingDataFrame(cfg: Config, h: Held, p: Pending, f: Frame, a: Arrival): Pending {
    var (fragments, result) := F.Push(h.run.core.fragments, f);
    var d := h.run.(core := h.run.core.(fragments := fragments));
    if result.Err? || result.value.None? then p
    else if IsReserved(f.serviceId) then NOTHING
    else
      PendingUser(cfg, Held(d, h.reorder), p, f.serviceId, f.pathId, f.sequence, result.value.value, a.scope,
                  a.clock(0))
  }

  function PendingOne(cfg: Config, h: Held, p: Pending, a: Arrival): Pending {
    if a.content.None? then p
    else
      var f, h1 := a.content.value, h.(run := h.run.(core := Learn(h.run.core, a)));
      match f.kind
      case Control => NOTHING
      case Batch => PendingBatchFrame(cfg, h1, f, a)
      case Data => PendingDataFrame(cfg, h1, p, f, a)
  }

  function PendingUpTo(cfg: Config, h: Held, arrivals: seq<Arrival>, n: nat): Pending
    requires n <= |arrivals|
    decreases n
  {
    if n == 0 then NOTHING
    else
      var before, p := HeldUpTo(cfg, h, arrivals, n - 1), PendingUpTo(cfg, h, arrivals, n - 1);
      if before.run.error.Some? then p else PendingOne(cfg, before, p, arrivals[n - 1])
  }

  function PendingSweep(cfg: Config, h: Held, p: Pending, keys: seq<R.Key>, clock: nat -> nat, n: nat): Pending
    requires n <= |keys|
    decreases n
  {
    if n == 0 then p
    else
      var before, q := SweepUpTo(cfg, h, keys, clock, n - 1), PendingSweep(cfg, h, p, keys, clock, n - 1);
      if before.run.error.Some? then q
      else QueuedAll(cfg, q, keys[n - 1].serviceId, keys[n - 1].peerScope,
        R.Expire(before.reorder, keys[n - 1], clock(n - 1), cfg.holds).1)
  }

  /** What a call still has pending when it ends: nothing, unless it ends in an error. */
  function PendingCall(cfg: Config, h: Held, arrivals: seq<Arrival>, order: R.Buffers -> seq<R.Key>, clock: nat -> nat)
    : Pending
  {
    var received, p := HeldUpTo(cfg, h, arrivals, |arrivals|), PendingUpTo(cfg, h, arrivals, |arrivals|);
    if received.run.error.Some? then p
    else
      var keys := order(received.reorder);
      if SweepUpTo(cfg, received, keys, clock, |keys|).run.error.None? then NOTHING
      else PendingSweep(cfg, received, p, keys, clock, |keys|)
  }

  lemma {:induction false} QueuedStops(cfg: Config, p: Pending, serviceId: u16, scope: Option<u32>, items: seq<R.Item>,
                                       n: nat)
    requires n <= |items| && ServeError(cfg, serviceId).Some?
    ensures QueuedUpTo(cfg, p, serviceId, scope, items, n) == p
    decreases n
  {
    if n == 0 {
    } else {
      QueuedStops(cfg, p, serviceId, scope, items, n - 1);
    }
  }

  lemma {:induction false} PendingBatchStops(cfg: Config, h: Held, f: Frame, payloads: seq<bytes>, a: Arrival, m: nat,
                                             n: nat)
    requires m <= n <= |payloads| && HeldBatch(cfg, h, f, payloads, a, m).run.error.Some?
    ensures PendingBatch(cfg, h, f, payloads, a, n) == PendingBatch(cfg, h, f, payloads, a, m)
    decreases n
  {
    hide HeldUser, PendingUser, HeldBatch;
    if m < n {
      PendingBatchStops(cfg, h, f, payloads, a, m, n - 1);
      ErrorEndsHeldBatch(cfg, h, f, payloads, a, m, n - 1);
    }
  }

  lemma {:induction false} PendingStops(cfg: Config, h: Held, arrivals: seq<Arrival>, m: nat, n: nat)
    requires m <= n <= |arrivals| && HeldUpTo(cfg, h, arrivals, m).run.error.Some?
    ensures PendingUpTo(cfg, h, arrivals, n) == PendingUpTo(cfg, h, arrivals, m)
    decreases n
  {
    hide HeldUpTo, PendingOne;
    if m < n {
      PendingStops(cfg, h, arrivals, m, n - 1);
      ErrorEndsHeldCall(cfg, h, arrivals, m, n - 1);
    }
  }

  lemma {:induction false} PendingSweepStops(cfg: Config, h: Held, p: Pending, keys: seq<R.Key>, clock: nat -> nat,
                                             m: nat, n: nat)
    requires m <= n <= |keys| && SweepUpTo(cfg, h, keys, clock, m).run.error.Some?
    ensures PendingSweep(cfg, h, p, keys, clock, n) == PendingSweep(cfg, h, p, keys, clock, m)
    decreases n
  {
    hide SweepUpTo, QueuedAll;
    if m < n {
      PendingSweepStops(cfg, h, p, keys, clock, m, n - 1);
      ErrorEndsSweep(cfg, h, keys, clock, m, n - 1);
    }
  }

  lemma BatchStep(cfg: Config, h: Held, f: Frame, payloads: seq<bytes>, a: Arrival, n: nat)
    requires n < |payloads|
    ensures var before, p := HeldBatch(cfg, h, f, payloads, a, n), PendingBatch(cfg, h, f, payloads, a, n);
      var sequence := WrappingAdd(f.sequence, n);
      before.run.error.None? ==>
        && HeldBatch(cfg, h, f, payloads, a, n + 1) ==
           HeldUser(cfg, before, f.serviceId, f.pathId, sequence, payloads[n], a.scope, a.clock(n))
        && PendingBatch(cfg, h, f, payloads, a, n + 1) ==
           PendingUser(cfg, before, p, f.serviceId, f.pathId, sequence, payloads[n], a.scope, a.clock(n))
  {
    hide HeldUser, PendingUser;
  }

  lemma NoBatch(cfg: Config, h: Held, f: Frame, payloads: seq<bytes>, a: Arrival)
    ensures HeldBatch(cfg, h, f, payloads, a, 0) == h && PendingBatch(cfg, h, f, payloads, a, 0) == NOTHING
  {
  }

  // ----- what an error costs --------------------------------------------------

  /** A whole user data frame on a path without a hold, not seen before. */
  ghost predicate FreshData(cfg: Config, window: seq<D.Key>, a: Arrival) {
    && a.content.Some?
    && var f := a.content.value;
    && f.kind.Data? && f.fragment.None? && !IsReserved(f.serviceId) && HoldFor(cfg, f.pathId) == 0
    && KeyFor(a) !in window
  }

  function KeyFor(a: Arrival): D.Key
    requires a.content.Some?
  {
    D.Key(a.content.value.serviceId, a.scope, a.content.value.sequence)
  }

  /** Any fresh payload of a served service, followed in the same call by any fresh one of an unknown service: the call
      fails, the first payload is the one emission it loses, and its key is still remembered, so that a copy of it will
      be taken for a duplicate. */
  lemma ErrorLosesPending(cfg: Config, d: Run, good: Arrival, bad: Arrival, order: R.Buffers -> seq<R.Key>,
                          clock: nat -> nat)
    requires d.error.None? && cfg.capacity > 0
    requires FreshData(cfg, d.core.window, good) && FreshData(cfg, d.core.window, bad) && KeyFor(good) != KeyFor(bad)
    requires Serves(cfg, good.content.value.serviceId) && !PeerSourced(cfg, good.content.value.serviceId, good.scope)
    requires bad.content.value.serviceId !in cfg.services
    ensures var h, lost := HeldCall(cfg, Held(d, map[]), [good, bad], order, clock),
        PendingCall(cfg, Held(d, map[]), [good, bad], order, clock);
      && h.run.error == Some(UnknownServiceId(bad.content.value.serviceId))
      && |lost.items| == 1 && lost.items[0].payload == good.content.value.payload
      && (cfg.capacity > 1 ==> KeyFor(good) in h.run.core.window)
  {
    hide HeldOne, PendingOne, D.Remember, SweepUpTo;
    var h0, both := Held(d, map[]), [good, bad];
    GoodIsQueued(cfg, h0, good);
    var h1, p1 := HeldOne(cfg, h0, good), PendingOne(cfg, h0, NOTHING, good);
    assert HeldUpTo(cfg, h0, both, 0) == h0 && PendingUpTo(cfg, h0, both, 0) == NOTHING;
    assert HeldUpTo(cfg, h0, both, 1) == h1 && PendingUpTo(cfg, h0, both, 1) == p1;
    StillFresh(d.core.window, cfg.capacity, KeyFor(good), KeyFor(bad));
    BadIsRefused(cfg, h1, p1, bad);
    assert HeldUpTo(cfg, h0, both, 2) == HeldOne(cfg, h1, bad) && PendingUpTo(cfg, h0, both, 2) == p1;
  }

  lemma StillFresh(window: seq<D.Key>, capacity: nat, key: D.Key, other: D.Key)
    requires capacity > 0 && other !in window && other != key
    ensures other !in D.Remember(window, capacity, key)
    ensures capacity > 1 ==> key in D.Remember(D.Remember(window, capacity, key), capacity, other)
  {
    var kept := D.Remember(window, capacity, key);
    assert kept[|kept| - 1] == (window + [key])[|window|];
    var again := D.Remember(kept, capacity, other);
    assert capacity > 1 ==> again[|again| - 2] == (kept + [other])[|kept| - 1];
  }

  lemma GoodIsQueued(cfg: Config, h: Held, a: Arrival)
    requires h.run.error.None? && FreshData(cfg, h.run.core.window, a)
    requires Serves(cfg, a.content.value.serviceId) && !PeerSourced(cfg, a.content.value.serviceId, a.scope)
    ensures var h', p := HeldOne(cfg, h, a), PendingOne(cfg, h, NOTHING, a);
      && h'.run.error.None? && h'.reorder == h.reorder
      && h'.run.core.window == D.Remember(h.run.core.window, cfg.capacity, KeyFor(a))
      && |p.items| == 1 && p.items[0].payload == a.content.value.payload
  {
    hide ApplyAll, EmitEffects, T.Observe, ReceiveRow, TargetOf, D.Remember, EmitAll, QueuedAll;
    var f, h1 := a.content.value, h.(run := h.run.(core := Learn(h.run.core, a)));
    var seen := ObserveUser(cfg, h1.run.core, f.serviceId, f.pathId, f.sequence, |f.payload|, a.scope);
    var d := h1.run.(core := seen.core, out := ApplyAll(h1.run.out, seen.effects));
    var item := (f.sequence, R.Entry(f.pathId, f.payload, seen.news.value, a.clock(0)));
    EmitSingle(cfg, d, f.serviceId, a.scope, item);
    QueuedSingle(cfg, NOTHING, f.serviceId, a.scope, item);
  }

  lemma QueuedSingle(cfg: Config, p: Pending, serviceId: u16, scope: Option<u32>, item: R.Item)
    ensures QueuedAll(cfg, p, serviceId, scope, [item]) == Queued(cfg, p, serviceId, scope, item)
  {
    hide Queued;
    assert QueuedUpTo(cfg, p, serviceId, scope, [item], 0) == p;
  }

  lemma BadIsRefused(cfg: Config, h: Held, p: Pending, a: Arrival)
    requires h.run.error.None? && FreshData(cfg, h.run.core.window, a) && a.content.value.serviceId !in cfg.services
    ensures HeldOne(cfg, h, a).run.error == Some(UnknownServiceId(a.content.value.serviceId))
    ensures HeldOne(cfg, h, a).run.core.window == D.Remember(h.run.core.window, cfg.capacity, KeyFor(a))
    ensures PendingOne(cfg, h, p, a) == p
  {
    hide ApplyAll, EmitEffects, T.Observe, ReceiveRow, D.Remember, EmitAll, QueuedAll;
    var f, h1 := a.content.value, h.(run := h.run.(core := Learn(h.run.core, a)));
    var seen := ObserveUser(cfg, h1.run.core, f.serviceId, f.pathId, f.sequence, |f.payload|, a.scope);
    var d := h1.run.(core := seen.core, out := ApplyAll(h1.run.out, seen.effects));
    var item := (f.sequence, R.Entry(f.pathId, f.payload, seen.news.value, a.clock(0)));
    EmitSingle(cfg, d, f.serviceId, a.scope, item);
    QueuedSingle(cfg, p, f.serviceId, a.scope, item);
  }
}
