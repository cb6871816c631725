/** The receive loops: the detailed one, and the production one, whose emission batches no observer can tell. */
module ReceiveSummary {
  import opened Bytes
  import opened FrameCodec
  import opened Plans
  import opened Receive
  import opened HeldReceive
  import opened PendingEmissions
  import F = Fragmentation
  import D = Dedupe
  import T = Tracker
  import R = Reorder

  // ----- the receiver ---------------------------------------------------------

  ghost predicate ScopedKeys(m: R.Buffers, scoped: bool) {
    forall k :: k in m ==> (k.peerScope.Some? <==> scoped)
  }

  /** Packets come all with a session or all without, as the security mode decides. */
  ghost predicate ScopedArrivals(arrivals: seq<Arrival>, scoped: bool) {
    forall i :: 0 <= i < |arrivals| && arrivals[i].content.Some? ==> (arrivals[i].scope.Some? <==> scoped)
  }

  class Receiver {
    const cfg: Config
    var core: Core
    var out: Out
    var reorder: R.Buffers

    constructor (cfg: Config, core: Core, out: Out)
      ensures this.cfg == cfg && this.core == core && this.out == out && reorder == map[]
    {
      this.cfg, this.core, this.out, this.reorder := cfg, core, out, map[];
    }

    method ObserveUserPayloadFirstSeen(serviceId: u16, pathId: u16, sequence: u64, len: nat, scope: Option<u32>)
      returns (news: Option<T.Observation>)
      modifies this`core, this`out
      ensures var seen := ObserveUser(cfg, old(core), serviceId, pathId, sequence, len, scope);
        core == seen.core && out == ApplyAll(old(out), seen.effects) && news == seen.news
    {
      hide ApplyAll, D.Remember, T.Observe;
      var key := D.Key(serviceId, scope, sequence);
      if key in core.window {
        out := ApplyAll(out, DuplicateEffects(cfg, serviceId, pathId, len));
        return None;
      }
      var (next, observation) := T.Observe(ExpectedAt(core, scope), sequence);
      core := core.(window := D.Remember(core.window, cfg.capacity, key), trackers := core.trackers[scope := next]);
      out := ApplyAll(out, [Bump(PathCell(pathId), ReceiveRow(len, observation))]);
      news := Some(observation);
    }

    method ObserveReserved(e: Event)
      modifies this`core, this`out
      ensures core == ReservedCore(old(core), e) && out == ApplyAll(old(out), ReservedEffects(e))
    {
      core := core.(events := core.events + [e],
                    trackers := core.trackers[e.scope := T.Observe(ExpectedAt(core, e.scope), e.sequence).0]);
      out := ApplyAll(out, ReservedEffects(e));
    }

    // ----- the detailed form --------------------------------------------------

    method EmitRemotePayload(serviceId: u16, pathId: u16, sequence: u64, payload: bytes, scope: Option<u32>,
                             o: T.Observation)
      returns (r: Result<Outcome, DataplaneError>)
      modifies this`out
      ensures r.Err? <==> ServeError(cfg, serviceId).Some?
      ensures r.Err? ==> ServeError(cfg, serviceId) == Some(r.error) && out == old(out)
      ensures r.Ok? ==>
        && out == ApplyAll(old(out), EmitEffects(cfg, serviceId, pathId, payload, scope, o))
        && r.value == Outcome(serviceId, TargetOf(cfg, serviceId), |payload|, sequence, pathId)
    {
      hide ApplyAll;
      if serviceId !in cfg.services {
        return Err(UnknownServiceId(serviceId));
      }
      if serviceId in cfg.disabled {
        return Err(ServiceDisabled(serviceId));
      }
      out := ApplyAll(out, EmitEffects(cfg, serviceId, pathId, payload, scope, o));
      r := Ok(Outcome(serviceId, TargetOf(cfg, serviceId), |payload|, sequence, pathId));
    }

    method DeliverUserPayload(serviceId: u16, pathId: u16, sequence: u64, payload: bytes, scope: Option<u32>,
                              outcomes: seq<Outcome>)
      returns (outcomes': seq<Outcome>, error: Option<DataplaneError>)
      modifies this`core, this`out
      ensures Run(core, out, outcomes', error) ==
              DeliverUser(cfg, Run(old(core), old(out), outcomes, None), serviceId, pathId, sequence, payload, scope)
    {
      hide ApplyAll, EmitEffects, ObserveUser, TargetOf;
      var news := ObserveUserPayloadFirstSeen(serviceId, pathId, sequence, |payload|, scope);
      if news.None? {
        return outcomes, None;
      }
      var outcome := EmitRemotePayload(serviceId, pathId, sequence, payload, scope, news.value);
      if outcome.Err? {
        return outcomes, Some(outcome.error);
      }
      return outcomes + [outcome.value], None;
    }

    method DeliverBatchPayloads(f: Frame, payloads: seq<bytes>, a: Arrival, outcomes: seq<Outcome>)
      returns (outcomes': seq<Outcome>, error: Option<DataplaneError>)
      modifies this`core, this`out
      ensures Run(core, out, outcomes', error) ==
              DeliverBatch(cfg, Run(old(core), old(out), outcomes, None), f, payloads, a, |payloads|)
    {
      hide ApplyAll, DeliverUser, ReservedCore, ReservedEffects;
      ghost var start := Run(core, out, outcomes, None);
      outcomes', error := outcomes, None;
      for i := 0 to |payloads|
        invariant Run(core, out, outcomes', None) == DeliverBatch(cfg, start, f, payloads, a, i)
      {
        if IsReserved(f.serviceId) {
          ObserveReserved(Event(f.serviceId, f.pathId, WrappingAdd(f.sequence, i), payloads[i], a.length, a.scope));
        } else {
          outcomes', error := DeliverUserPayload(f.serviceId, f.pathId, WrappingAdd(f.sequence, i), payloads[i],
            a.scope, outcomes');
          if error.Some? {
            ErrorEndsBatch(cfg, start, f, payloads, a, i + 1, |payloads|);
            return;
          }
        }
      }
      error := None;
    }

    method DeliverArrival(a: Arrival, outcomes: seq<Outcome>)
      returns (outcomes': seq<Outcome>, error: Option<DataplaneError>)
      modifies this`core, this`out
      ensures Run(core, out, outcomes', error) == ReceiveOne(cfg, Run(old(core), old(out), outcomes, None), a)
    {
      hide ApplyAll, DeliverUser, DeliverBatch, DecodeBatch, F.Push, ReservedCore, ReservedEffects, DropEffects;
      outcomes', error := outcomes, None;
      if a.content.None? {
        out := ApplyAll(out, DropEffects(a));
        return;
      }
      core := Learn(core, a);
      var f := a.content.value;
      match f.kind {
        case Data =>
          var (fragments, result) := F.Push(core.fragments, f);
          core := core.(fragments := fragments);
          if result.Err? {
            return outcomes, Some(result.error);
          }
          if result.value.Some? {
            if IsReserved(f.serviceId) {
              ObserveReserved(Event(f.serviceId, f.pathId, f.sequence, result.value.value, a.length, a.scope));
            } else {
              outcomes', error := DeliverUserPayload(f.serviceId, f.pathId, f.sequence, result.value.value, a.scope,
                outcomes);
            }
          }
        case Batch =>
          var payloads := DecodeBatch(f.payload);
          if payloads.Err? {
            return outcomes, Some(Protocol(payloads.error));
          }
          outcomes', error := DeliverBatchPayloads(f, payloads.value, a, outcomes);
        case Control =>
          ObserveReserved(Event(f.serviceId, f.pathId, f.sequence, f.payload, a.length, a.scope));
      }
    }

    /** The diagnostic call: every payload emitted as soon as it is seen, and listed. */
    method ReceiveAvailableFromPaths(arrivals: seq<Arrival>)
      returns (outcomes: seq<Outcome>, error: Option<DataplaneError>)
      modifies this`core, this`out
      ensures Run(core, out, outcomes, error) ==
          ReceiveUpTo(cfg, Run(old(core), old(out), [], None), arrivals, |arrivals|)
    {
      hide ReceiveOne;
      ghost var start := Run(core, out, [], None);
      outcomes, error := [], None;
      for i := 0 to |arrivals|
        invariant error.None? && Run(core, out, outcomes, None) == ReceiveUpTo(cfg, start, arrivals, i)
      {
        outcomes, error := DeliverArrival(arrivals[i], outcomes);
        if error.Some? {
          ErrorEndsCall(cfg, start, arrivals, i + 1, |arrivals|);
          return;
        }
      }
    }

    // ----- the production form: pending emissions -----------------------------

    /** This object, once its pending batch has gone out, is where the unbatched run `h` is. */
    ghost predicate Matches(h: Held, scoped: bool, p: Pending, s: Totals, error: Option<DataplaneError>)
      reads this
    {
      && PendingOk(cfg, p) && Scoped(p, scoped) && error == h.run.error && Tracks(h.run, p, s)
      && reorder == h.reorder && ScopedKeys(reorder, scoped)
    }

    ghost predicate Tracks(d: Run, p: Pending, s: Totals)
      reads this
    {
      && KeyOk(cfg, p) && core == d.core
      && Settled(cfg, out, p) == d.out && TotalOf(s, p) == OutcomeTotals(d.outcomes)
    }

    /** Emits everything pending, in order, and counts it. */
    method FlushRemoteEmitBatch(p: Pending, s: Totals) returns (p': Pending, s': Totals)
      requires KeyOk(cfg, p)
      modifies this`out
      ensures out == Settled(cfg, old(out), p) && p' == NOTHING && s' == TotalOf(s, p)
    {
      hide ApplyAll, EmitEffects, ItemEffects, ItemBytes;
      if p.key.None? {
        SettledNothing(cfg, out);
        EmptyTotals(s);
        return NOTHING, s;
      }
      var k := p.key.value;
      s' := s;
      EmptyQueue(cfg, out, k, s);
      for i := 0 to |p.items|
        invariant out == Settled(cfg, old(out), Pending(Some(k), p.items[..i]))
        invariant s' == TotalOf(s, Pending(Some(k), p.items[..i]))
      {
        var item := p.items[i];
        assert p.items[..i + 1] == p.items[..i] + [item];
        ItemEffectsSnoc(cfg, k, p.items[..i], item);
        QueueOneMore(cfg, old(out), k, p.items[..i], item);
        out := ApplyAll(out, EmitEffects(cfg, k.serviceId, k.pathId, item.payload, k.scope, item.observation));
        s' := Totals(s'.packets + 1, s'.bytes + |item.payload|);
      }
      assert p.items[..|p.items|] == p.items && p == Pending(Some(k), p.items);
      p' := NOTHING;
    }

    /** Queues one payload for emission; afterwards the settled output has it last. */
    method QueueRemotePayloadSummary(serviceId: u16, pathId: u16, sequence: u64, payload: bytes, scope: Option<u32>,
                                     observation: T.Observation, p: Pending, s: Totals, ghost now: nat)
      returns (p': Pending, s': Totals, error: Option<DataplaneError>)
      requires PendingOk(cfg, p)
      modifies this`out
      ensures PendingOk(cfg, p') && error == ServeError(cfg, serviceId)
      ensures p' == Queued(cfg, p, serviceId, scope, (sequence, R.Entry(pathId, payload, observation, now)))
      ensures error.Some? ==> p' == p && s' == s && out == old(out)
      ensures error.None? ==> TotalOf(s', p') == Totals(TotalOf(s, p).packets + 1, TotalOf(s, p).bytes + |payload|)
      ensures error.None? && Scoped(p, scope.Some?) ==>
        && Scoped(p', scope.Some?)
        && Settled(cfg, out, p') ==
           ApplyAll(Settled(cfg, old(out), p), EmitEffects(cfg, serviceId, pathId, payload, scope, observation))
    {
      hide ApplyAll, ItemEffects, ItemBytes, Settled;
      if serviceId !in cfg.services {
        return p, s, Some(UnknownServiceId(serviceId));
      }
      if serviceId in cfg.disabled {
        return p, s, Some(ServiceDisabled(serviceId));
      }
      var target := TargetOf(cfg, serviceId);
      if PeerSourced(cfg, serviceId, scope) {
        var effects := EmitEffects(cfg, serviceId, pathId, payload, scope, observation);
        if Scoped(p, scope.Some?) {
          OtherServicePassesPending(cfg, out, p, serviceId, effects);
        }
        out := ApplyAll(out, effects);
        return p, Totals(s.packets + 1, s.bytes + |payload|), None;
      }
      hide EmitEffects;
      var key := PendingKey(serviceId, pathId, scope, target);
      p', s' := p, s;
      if p'.key.Some? && p'.key != Some(key) {
        p', s' := FlushRemoteEmitBatch(p', s');
        SettledNothing(cfg, out);
        EmptyTotals(s');
      }
      var item := PendingItem(payload, sequence, observation);
      if p'.key.None? {
        SettledNothing(cfg, out);
        EmptyQueue(cfg, out, key, s');
      }
      assert p'.key.Some? ==> p' == Pending(Some(key), p'.items);
      QueueOneMore(cfg, out, key, p'.items, item);
      ItemEffectsSnoc(cfg, key, p'.items, item);
      p' := Pending(Some(key), p'.items + [item]);
      if |p'.items| >= REMOTE_EMIT_BATCH_LIMIT {
        p', s' := FlushRemoteEmitBatch(p', s');
        SettledNothing(cfg, out);
        EmptyTotals(s');
      }
      error := None;
    }

    /** Queues released entries in order, up to the first that is refused. */
    method QueueReady(serviceId: u16, scope: Option<u32>, ready: seq<R.Item>, p: Pending, s: Totals, ghost d: Run)
      returns (p': Pending, s': Totals, error: Option<DataplaneError>)
      requires PendingOk(cfg, p)
      modifies this`out
      ensures PendingOk(cfg, p') && p' == QueuedAll(cfg, p, serviceId, scope, ready)
      ensures old(Tracks(d, p, s)) && Scoped(p, scope.Some?) && d.error.None? ==>
        var d' := EmitAll(cfg, d, serviceId, scope, ready);
        Tracks(d', p', s') && Scoped(p', scope.Some?) && error == d'.error
    {
      hide ApplyAll, EmitEffects, ItemBytes, PendingEffects, OutcomeTotals, TargetOf, TotalOf;
      ghost var ok := Tracks(d, p, s) && Scoped(p, scope.Some?) && d.error.None?;
      p', s', error := p, s, None;
      for i := 0 to |ready|
        invariant PendingOk(cfg, p') && error == None && p' == QueuedUpTo(cfg, p, serviceId, scope, ready, i)
        invariant ok ==> Tracks(EmitUpTo(cfg, d, serviceId, scope, ready, i), p', s') && Scoped(p', scope.Some?)
        invariant ok ==> EmitUpTo(cfg, d, serviceId, scope, ready, i).error.None?
      {
        var (sequence, entry) := ready[i];
        ghost var before := EmitUpTo(cfg, d, serviceId, scope, ready, i);
        p', s', error := QueueRemotePayloadSummary(serviceId, entry.pathId, sequence, entry.payload, scope,
          entry.observation, p', s',
                                                   entry.receivedAt);
        if error.Some? {
          QueuedStops(cfg, p, serviceId, scope, ready, i);
          QueuedStops(cfg, p, serviceId, scope, ready, |ready|);
          if ok {
            ErrorEndsEmission(cfg, d, serviceId, scope, ready, i + 1, |ready|);
          }
          return;
        }
        OutcomeTotalsSnoc(before.outcomes,
          Outcome(serviceId, TargetOf(cfg, serviceId), |entry.payload|, sequence, entry.pathId));
      }
    }

    // ----- one user payload ---------------------------------------------------

    /** Observed, then taken through the reorder buffers if new, and whatever they release queued. */
    method ReceiveUserPayload(serviceId: u16, pathId: u16, sequence: u64, payload: bytes, scope: Option<u32>, now: nat,
                              p: Pending, s: Totals, ghost h: Held)
      returns (p': Pending, s': Totals, error: Option<DataplaneError>)
      requires PendingOk(cfg, p)
      modifies this
      ensures PendingOk(cfg, p')
      ensures old(Matches(h, scope.Some?, p, s, None)) ==>
        && Matches(HeldUser(cfg, h, serviceId, pathId, sequence, payload, scope, now), scope.Some?, p', s', error)
        && p' == PendingUser(cfg, h, p, serviceId, pathId, sequence, payload, scope, now)
    {
      hide ApplyAll, TotalOf, ObserveUser, OutcomeTotals, PendingEffects, R.Arrive, EmitAll, ScopedKeys;
      var news := ObserveUserPayloadFirstSeen(serviceId, pathId, sequence, |payload|, scope);
      ghost var seen := ObserveUser(cfg, old(core), serviceId, pathId, sequence, |payload|, scope);
      ghost var d := h.run.(core := seen.core, out := ApplyAll(h.run.out, seen.effects));
      CountersPassPending(cfg, old(out), p, seen.effects);
      if news.None? {
        return p, s, None;
      }
      var arrival := ArrivalFor(cfg, serviceId, pathId, sequence, payload, scope, news.value, now);
      var (buffers, ready) := R.Arrive(reorder, arrival);
      ArrivalKeepsScopes(reorder, arrival, scope.Some?);
      reorder := buffers;
      p', s', error := QueueReady(serviceId, scope, ready, p, s, d);
    }

    // ----- batches ------------------------------------------------------------

    /** The fast path of a user batch: every payload observed first, then all the new ones emitted together. */
    method TryEmitRemoteBatchWithoutReorder(f: Frame, payloads: seq<bytes>, scope: Option<u32>, s: Totals,
                                            ghost d: Run, ghost a: Arrival)
      returns (done: bool, s': Totals, error: Option<DataplaneError>)
      requires !IsReserved(f.serviceId) && a.scope == scope
      modifies this`core, this`out
      ensures error == ServeError(cfg, f.serviceId)
      ensures done <==> error.None? && !PeerSourced(cfg, f.serviceId, scope)
      ensures !done ==> s' == s && core == old(core) && out == old(out)
      ensures done && d.error.None? && old(Tracks(d, NOTHING, s)) ==>
        var batch := DeliverBatch(cfg, d, f, payloads, a, |payloads|);
        Tracks(batch, NOTHING, s') && batch.error.None?
    {
      hide ApplyAll, EmitEffects, ItemEffects, ItemBytes, ObserveUser, OutcomeTotals, Settled, DeliverUser, TargetOf;
      done, s', error := false, s, None;
      if f.serviceId !in cfg.services {
        return false, s, Some(UnknownServiceId(f.serviceId));
      }
      if f.serviceId in cfg.disabled {
        return false, s, Some(ServiceDisabled(f.serviceId));
      }
      if PeerSourced(cfg, f.serviceId, scope) {
        return;
      }
      var key := PendingKey(f.serviceId, f.pathId, scope, TargetOf(cfg, f.serviceId));
      var collected := Pending(Some(key), []);
      ghost var ok := d.error.None? && Tracks(d, NOTHING, s);
      SettledNothing(cfg, out);
      EmptyTotals(s);
      EmptyQueue(cfg, out, key, s);
      for i := 0 to |payloads|
        invariant collected.key == Some(key)
        invariant ok ==> DeliverBatch(cfg, d, f, payloads, a, i).error.None?
        invariant ok ==> Tracks(DeliverBatch(cfg, d, f, payloads, a, i), collected, s)
      {
        ghost var before := DeliverBatch(cfg, d, f, payloads, a, i);
        collected := ObserveAndCollect(key, WrappingAdd(f.sequence, i), payloads[i], collected, s, before);
      }
      var nothing;
      nothing, s' := FlushRemoteEmitBatch(collected, s);
      SettledNothing(cfg, out);
      EmptyTotals(s');
      done := true;
    }

    /** One payload of the fast path. */
    method ObserveAndCollect(k: PendingKey, sequence: u64, payload: bytes, p: Pending, ghost s: Totals, ghost d: Run)
      returns (p': Pending)
      requires p.key == Some(k) && KeyOk(cfg, p) && Serves(cfg, k.serviceId)
      modifies this`core, this`out
      ensures p'.key == Some(k)
      ensures old(Tracks(d, p, s)) && d.error.None? ==>
        var next := DeliverUser(cfg, d, k.serviceId, k.pathId, sequence, payload, k.scope);
        Tracks(next, p', s) && next.error.None?
    {
      hide ApplyAll, EmitEffects, ItemEffects, ItemBytes, ObserveUser, OutcomeTotals, PendingEffects;
      var news := ObserveUserPayloadFirstSeen(k.serviceId, k.pathId, sequence, |payload|, k.scope);
      ghost var seen := ObserveUser(cfg, old(core), k.serviceId, k.pathId, sequence, |payload|, k.scope);
      CountersPassPending(cfg, old(out), p, seen.effects);
      if news.None? {
        return p;
      }
      var item := PendingItem(payload, sequence, news.value);
      assert p == Pending(Some(k), p.items);
      QueueOneMore(cfg, out, k, p.items, item);
      ItemEffectsSnoc(cfg, k, p.items, item);
      OutcomeTotalsSnoc(d.outcomes, Outcome(k.serviceId, TargetOf(cfg, k.serviceId), |payload|, sequence, k.pathId));
      p' := Pending(Some(k), p.items + [item]);
    }

    /** A user batch, pending emissions already out. */
    method EmitRemoteBatchPayloadsSummary(f: Frame, payloads: seq<bytes>, a: Arrival, s: Totals, ghost h: Held)
      returns (p': Pending, s': Totals, error: Option<DataplaneError>)
      requires !IsReserved(f.serviceId)
      modifies this
      ensures PendingOk(cfg, p')
      ensures old(Matches(h, a.scope.Some?, NOTHING, s, None)) ==>
        var gate := BatchGate(cfg, f);
        && Matches(if gate.Some? then h.(run := h.run.(error := gate))
          else HeldBatch(cfg, h, f, payloads, a, |payloads|),
                   a.scope.Some?, p', s', error)
        && p' == PendingUserBatch(cfg, h, f, payloads, a)
    {
      hide ApplyAll, OutcomeTotals, Settled, HeldUser, DeliverUser, TotalOf, ScopedKeys, TargetOf;
      p', s' := NOTHING, s;
      if HoldFor(cfg, f.pathId) == 0 {
        var done;
        done, s', error := TryEmitRemoteBatchWithoutReorder(f, payloads, a.scope, s, h.run, a);
        if h.run.error.None? {
          BatchWithoutHold(cfg, h, f, payloads, a, |payloads|);
        }
        if done || error.Some? {
          return;
        }
      }
      if f.serviceId in cfg.disabled {
        return p', s', Some(ServiceDisabled(f.serviceId));
      }
      p', s', error := ReceiveUserPayloads(f, payloads, a, s', h);
    }

    /** The payloads of a user batch one by one. */
    method ReceiveUserPayloads(f: Frame, payloads: seq<bytes>, a: Arrival, s: Totals, ghost h: Held)
      returns (p': Pending, s': Totals, error: Option<DataplaneError>)
      modifies this
      ensures PendingOk(cfg, p')
      ensures old(Matches(h, a.scope.Some?, NOTHING, s, None)) ==>
        && Matches(HeldBatch(cfg, h, f, payloads, a, |payloads|), a.scope.Some?, p', s', error)
        && p' == PendingBatch(cfg, h, f, payloads, a, |payloads|)
    {
      hide ApplyAll, OutcomeTotals, Settled, HeldUser, TotalOf, ScopedKeys, TargetOf, HeldBatch, PendingBatch,
           PendingUser;
      ghost var ok := Matches(h, a.scope.Some?, NOTHING, s, None);
      p', s', error := NOTHING, s, None;
      NoBatch(cfg, h, f, payloads, a);
      for i := 0 to |payloads|
        invariant PendingOk(cfg, p') && error == None
        invariant ok ==> Matches(HeldBatch(cfg, h, f, payloads, a, i), a.scope.Some?, p', s', None)
        invariant ok ==> p' == PendingBatch(cfg, h, f, payloads, a, i)
      {
        BatchStep(cfg, h, f, payloads, a, i);
        p', s', error := ReceiveUserPayload(f.serviceId, f.pathId, WrappingAdd(f.sequence, i), payloads[i], a.scope,
          a.clock(i), p', s',
                                            HeldBatch(cfg, h, f, payloads, a, i));
        if error.Some? {
          if ok {
            ErrorEndsHeldBatch(cfg, h, f, payloads, a, i + 1, |payloads|);
            PendingBatchStops(cfg, h, f, payloads, a, i + 1, |payloads|);
          }
          return;
        }
      }
    }

    /** A batch for Gatherlink itself. */
    method ObserveReservedBatch(f: Frame, payloads: seq<bytes>, a: Arrival, ghost d: Run)
      requires IsReserved(f.serviceId)
      modifies this`core, this`out
      ensures old(core) == d.core && old(out) == d.out && d.error.None? ==>
        var batch := DeliverBatch(cfg, d, f, payloads, a, |payloads|);
        core == batch.core && out == batch.out && batch.error.None? && batch.outcomes == d.outcomes
    {
      hide ApplyAll, ReservedCore, ReservedEffects;
      for i := 0 to |payloads|
        invariant old(core) == d.core && old(out) == d.out && d.error.None? ==>
          var batch := DeliverBatch(cfg, d, f, payloads, a, i);
          core == batch.core && out == batch.out && batch.error.None? && batch.outcomes == d.outcomes
      {
        ObserveReserved(Event(f.serviceId, f.pathId, WrappingAdd(f.sequence, i), payloads[i], a.length, a.scope));
      }
    }

    // ----- frames and calls ---------------------------------------------------

    method ReceiveDataFrame(f: Frame, a: Arrival, p: Pending, s: Totals, ghost h: Held)
      returns (p': Pending, s': Totals, error: Option<DataplaneError>)
      requires PendingOk(cfg, p)
      modifies this
      ensures PendingOk(cfg, p')
      ensures old(Matches(h, a.scope.Some?, p, s, None)) ==>
        Matches(HeldDataFrame(cfg, h, f, a), a.scope.Some?, p', s', error) && p' == PendingDataFrame(cfg, h, p, f, a)
    {
      hide ApplyAll, OutcomeTotals, PendingEffects, HeldUser, TotalOf, F.Push, ReservedCore, ReservedEffects,
           ScopedKeys;
      var (fragments, result) := F.Push(core.fragments, f);
      core := core.(fragments := fragments);
      ghost var d := h.run.(core := h.run.core.(fragments := fragments));
      if result.Err? {
        return p, s, Some(result.error);
      }
      if result.value.None? {
        return p, s, None;
      }
      var payload := result.value.value;
      if IsReserved(f.serviceId) {
        p', s' := FlushRemoteEmitBatch(p, s);
        ObserveReserved(Event(f.serviceId, f.pathId, f.sequence, payload, a.length, a.scope));
        SettledNothing(cfg, out);
        EmptyTotals(s');
        error := None;
      } else {
        p', s', error := ReceiveUserPayload(f.serviceId, f.pathId, f.sequence, payload, a.scope, a.clock(0), p, s,
          Held(d, h.reorder));
      }
    }

    method ReceiveBatchFrame(f: Frame, a: Arrival, p: Pending, s: Totals, ghost h: Held)
      returns (p': Pending, s': Totals, error: Option<DataplaneError>)
      requires PendingOk(cfg, p)
      modifies this
      ensures PendingOk(cfg, p')
      ensures old(Matches(h, a.scope.Some?, p, s, None)) ==>
        Matches(HeldBatchFrame(cfg, h, f, a), a.scope.Some?, p', s', error) && p' == PendingBatchFrame(cfg, h, f, a)
    {
      hide ApplyAll, OutcomeTotals, PendingEffects, DeliverBatch, HeldBatch, TotalOf, DecodeBatch, ScopedKeys,
           BatchGate;
      p', s' := FlushRemoteEmitBatch(p, s);
      SettledNothing(cfg, out);
      EmptyTotals(s');
      var payloads := DecodeBatch(f.payload);
      if payloads.Err? {
        return p', s', Some(Protocol(payloads.error));
      }
      if IsReserved(f.serviceId) {
        ObserveReservedBatch(f, payloads.value, a, h.run);
        SettledNothing(cfg, out);
        error := None;
      } else {
        p', s', error := EmitRemoteBatchPayloadsSummary(f, payloads.value, a, s', h);
      }
    }

    method ProcessReceivedPathFrameSummary(a: Arrival, p: Pending, s: Totals, ghost h: Held, ghost scoped: bool)
      returns (p': Pending, s': Totals, error: Option<DataplaneError>)
      requires PendingOk(cfg, p)
      modifies this
      ensures PendingOk(cfg, p')
      ensures old(Matches(h, scoped, p, s, None)) && (a.content.Some? ==> (a.scope.Some? <==> scoped)) ==>
        Matches(HeldOne(cfg, h, a), scoped, p', s', error) && p' == PendingOne(cfg, h, p, a)
    {
      hide ApplyAll, OutcomeTotals, PendingEffects, TotalOf, ReservedCore, ReservedEffects, HeldDataFrame,
           HeldBatchFrame, ScopedKeys;
      if a.content.None? {
        CountersPassPending(cfg, out, p, DropEffects(a));
        out := ApplyAll(out, DropEffects(a));
        return p, s, None;
      }
      core := Learn(core, a);
      ghost var h1 := h.(run := h.run.(core := Learn(h.run.core, a)));
      var f := a.content.value;
      match f.kind {
        case Data =>
          p', s', error := ReceiveDataFrame(f, a, p, s, h1);
        case Batch =>
          p', s', error := ReceiveBatchFrame(f, a, p, s, h1);
        case Control =>
          p', s' := FlushRemoteEmitBatch(p, s);
          ObserveReserved(Event(f.serviceId, f.pathId, f.sequence, f.payload, a.length, a.scope));
          SettledNothing(cfg, out);
          EmptyTotals(s');
          error := None;
      }
    }

    /** The drained frames one after another, up to the first error. */
    method ProcessReceivedPathFrames(arrivals: seq<Arrival>, ghost scoped: bool)
      returns (p: Pending, s: Totals, error: Option<DataplaneError>)
      modifies this
      ensures PendingOk(cfg, p)
      ensures ScopedKeys(old(reorder), scoped) && ScopedArrivals(arrivals, scoped) ==>
        var start := Held(Run(old(core), old(out), [], None), old(reorder));
        && Matches(HeldUpTo(cfg, start, arrivals, |arrivals|), scoped, p, s, error)
        && p == PendingUpTo(cfg, start, arrivals, |arrivals|)
    {
      hide HeldUpTo, Settled, HeldOne, PendingOk, TotalOf, OutcomeTotals, KeyOk, ScopedKeys;
      ghost var start := Held(Run(core, out, [], None), reorder);
      ghost var ok := ScopedKeys(reorder, scoped) && ScopedArrivals(arrivals, scoped);
      p, s, error := NOTHING, Totals(0, 0), None;
      StartMatches(cfg, out, arrivals, start);
      for i := 0 to |arrivals|
        invariant PendingOk(cfg, p) && error == None
        invariant ok ==> Matches(HeldUpTo(cfg, start, arrivals, i), scoped, p, s, None)
        invariant ok ==> p == PendingUpTo(cfg, start, arrivals, i)
      {
        p, s, error := ProcessReceivedPathFrameSummary(arrivals[i], p, s, HeldUpTo(cfg, start, arrivals, i), scoped);
        HeldUpToStep(cfg, start, arrivals, i);
        if error.Some? {
          if ok {
            ErrorEndsHeldCall(cfg, start, arrivals, i + 1, |arrivals|);
            PendingStops(cfg, start, arrivals, i + 1, |arrivals|);
          }
          return;
        }
      }
    }

    /** Queues what every reorder buffer now owes, in the order the map hands out its keys; the clock is read for each
        key. */
    method FlushExpiredReorderBuffers(keys: seq<R.Key>, clock: nat -> nat, p: Pending, s: Totals, ghost h: Held,
                                      ghost scoped: bool)
      returns (p': Pending, s': Totals, error: Option<DataplaneError>)
      requires PendingOk(cfg, p)
      modifies this`out, this`reorder
      ensures PendingOk(cfg, p')
      ensures old(Matches(h, scoped, p, s, None)) && (forall k :: k in keys ==> k in old(reorder)) ==>
        Matches(SweepUpTo(cfg, h, keys, clock, |keys|), scoped, p', s', error)
          && p' == PendingSweep(cfg, h, p, keys, clock, |keys|)
    {
      hide PendingOk, R.Expire, EmitAll, Settled, TotalOf, OutcomeTotals, KeyOk, SweepUpTo, PendingSweep;
      ghost var ok := Matches(h, scoped, p, s, None) && forall k :: k in keys ==> k in reorder;
      p', s', error := p, s, None;
      NoSweep(cfg, h, p, keys, clock);
      for i := 0 to |keys|
        invariant PendingOk(cfg, p') && error == None
        invariant ok ==> Matches(SweepUpTo(cfg, h, keys, clock, i), scoped, p', s', None)
        invariant ok ==> p' == PendingSweep(cfg, h, p, keys, clock, i)
      {
        var key := keys[i];
        var (buffers, ready) := R.Expire(reorder, key, clock(i), cfg.holds);
        SweepStep(cfg, h, p, keys, clock, i);
        SweepKeepsScopes(reorder, key, clock(i), cfg.holds, scoped);
        reorder := buffers;
        p', s', error := QueueReady(key.serviceId, key.peerScope, ready, p', s', SweepUpTo(cfg, h, keys, clock, i).run);
        if error.Some? {
          if ok {
            ErrorEndsSweep(cfg, h, keys, clock, i + 1, |keys|);
            PendingSweepStops(cfg, h, p, keys, clock, i + 1, |keys|);
          }
          return;
        }
      }
    }

    /** The production call leaves exactly what the unbatched form leaves, for any holds, and counts what that form
        lists. An error loses exactly the emissions then pending, at most 63, and nothing when none are. */
    method ReceiveAvailableFromPathsSummary(arrivals: seq<Arrival>, order: R.Buffers -> seq<R.Key>, clock: nat -> nat,
                                            ghost scoped: bool)
      returns (r: Result<Totals, DataplaneError>)
      requires forall m, k :: k in order(m) ==> k in m
      modifies this
      ensures ScopedKeys(old(reorder), scoped) && ScopedArrivals(arrivals, scoped) ==>
        var start := Held(Run(old(core), old(out), [], None), old(reorder));
        var h, lost := HeldCall(cfg, start, arrivals, order, clock), PendingCall(cfg, start, arrivals, order, clock);
        && core == h.run.core && reorder == h.reorder && ScopedKeys(reorder, scoped)
        && PendingOk(cfg, lost) && Settled(cfg, out, lost) == h.run.out && (out == h.run.out <==> lost.items == [])
        && (r.Ok? ==> h.run.error.None? && lost == NOTHING && r.value == OutcomeTotals(h.run.outcomes))
        && (r.Err? ==> h.run.error == Some(r.error))
      ensures old(reorder) == map[] && AllUnhurried(cfg, arrivals) && ScopedArrivals(arrivals, scoped) ==>
        var d := ReceiveUpTo(cfg, Run(old(core), old(out), [], None), arrivals, |arrivals|);
        && core == d.core && reorder == map[]
        && (r.Ok? ==> d.error.None? && out == d.out && r.value == OutcomeTotals(d.outcomes))
        && (r.Err? ==> d.error == Some(r.error))
    {
      hide HeldUpTo, SweepUpTo, PendingUpTo, PendingSweep, TotalOf, OutcomeTotals, PendingEffects, ApplyAll,
           ScopedArrivals, Settled, ReceiveUpTo, AllUnhurried;
      if reorder == map[] && AllUnhurried(cfg, arrivals) {
        NoKeys(order);
        CallWithoutHoldsIsDetailed(cfg, Run(core, out, [], None), arrivals, order, clock);
      }
      var p, s, error := ProcessReceivedPathFrames(arrivals, scoped);
      if error.Some? {
        SettledDiffers(cfg, out, p);
        return Err(error.value);
      }
      ghost var received := HeldUpTo(cfg, Held(Run(old(core), old(out), [], None), old(reorder)), arrivals, |arrivals|);
      p, s, error := FlushExpiredReorderBuffers(order(reorder), clock, p, s, received, scoped);
      if error.Some? {
        SettledDiffers(cfg, out, p);
        return Err(error.value);
      }
      p, s := FlushRemoteEmitBatch(p, s);
      SettledNothing(cfg, out);
      r := Ok(s);
    }
  }

  // ----- steps ----------------------------------------------------------------

  lemma NoKeys(order: R.Buffers -> seq<R.Key>)
    requires forall m, k :: k in order(m) ==> k in m
    ensures order(map[]) == []
  {
    var m: R.Buffers := map[];
    FirstIsIn(order(m));
  }

  lemma FirstIsIn(keys: seq<R.Key>)
    ensures keys == [] || exists k :: k in keys
  {
    if keys != [] {
      assert keys[0] in keys;
    }
  }

  lemma ArrivalKeepsScopes(m: R.Buffers, a: R.Arrival, scoped: bool)
    requires a.key.peerScope.Some? <==> scoped
    ensures ScopedKeys(m, scoped) ==> ScopedKeys(R.Arrive(m, a).0, scoped)
  {
    hide R.Arrive;
    R.KeysOf(m, R.Arrived(a));
  }

  lemma SweepKeepsScopes(m: R.Buffers, key: R.Key, now: nat, holds: map<u16, nat>, scoped: bool)
    ensures ScopedKeys(m, scoped) && (key in m || (key.peerScope.Some? <==> scoped)) ==>
        ScopedKeys(R.Expire(m, key, now, holds).0, scoped)
  {
    hide R.Expire;
    R.KeysOf(m, R.Swept(key, now, holds));
  }

  lemma NoSweep(cfg: Config, h: Held, p: Pending, keys: seq<R.Key>, clock: nat -> nat)
    ensures SweepUpTo(cfg, h, keys, clock, 0) == h && PendingSweep(cfg, h, p, keys, clock, 0) == p
  {
  }

  lemma SweepStep(cfg: Config, h: Held, p: Pending, keys: seq<R.Key>, clock: nat -> nat, n: nat)
    requires n < |keys|
    ensures var before, q, k := SweepUpTo(cfg, h, keys, clock, n), PendingSweep(cfg, h, p, keys, clock, n), keys[n];
      var (reorder, ready) := R.Expire(before.reorder, k, clock(n), cfg.holds);
      before.run.error.None? ==>
        && SweepUpTo(cfg, h, keys, clock, n + 1) ==
           Held(EmitAll(cfg, before.run, k.serviceId, k.peerScope, ready), reorder)
        && PendingSweep(cfg, h, p, keys, clock, n + 1) == QueuedAll(cfg, q, k.serviceId, k.peerScope, ready)
  {
    hide R.Expire, EmitAll, QueuedAll;
  }

  lemma StartMatches(cfg: Config, out: Out, arrivals: seq<Arrival>, start: Held)
    ensures HeldUpTo(cfg, start, arrivals, 0) == start && PendingUpTo(cfg, start, arrivals, 0) == NOTHING
    ensures PendingOk(cfg, NOTHING) && KeyOk(cfg, NOTHING)
    ensures Settled(cfg, out, NOTHING) == out && TotalOf(Totals(0, 0), NOTHING) == OutcomeTotals([])
  {
  }

  lemma HeldUpToStep(cfg: Config, start: Held, arrivals: seq<Arrival>, n: nat)
    requires n < |arrivals|
    ensures var before := HeldUpTo(cfg, start, arrivals, n);
      before.run.error.None? ==>
        && HeldUpTo(cfg, start, arrivals, n + 1) == HeldOne(cfg, before, arrivals[n])
        && PendingUpTo(cfg, start, arrivals, n + 1) ==
          PendingOne(cfg, before, PendingUpTo(cfg, start, arrivals, n), arrivals[n])
  {
    hide HeldOne, PendingOne;
  }
}
