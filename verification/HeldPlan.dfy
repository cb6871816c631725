/** A planned request received by the production receiver over any run of calls, with any holds. */
module HeldPlan {
  import opened Bytes
  import opened FrameCodec
  import opened Plans
  import opened Receive
  import opened HeldReceive
  import opened EndToEnd
  import opened AnyOrder
  import opened AnyOrderPlan
  import opened AnyOrderHeld
  import P = Planning
  import Fit = FrameFit
  import F = Fragmentation
  import L = Delivery
  import D = Dedupe
  import R = Reorder

  /** The sequences held for the service and peer. */
  function HeldBy(x: Setting, h: Held): set<u64> { EntriesAt(h.reorder, HoldKey(x)).Keys }

  function Elements(s: seq<u64>): set<u64> { set q | q in s }

  lemma {:induction false} DistinctCounts(s: seq<u64>)
    requires Distinct(s)
    ensures |Elements(s)| == |s|
    decreases |s|
  {
    if s == [] {
      assert Elements(s) == {};
    } else {
      var init, q := s[..|s| - 1], s[|s| - 1];
      DistinctCounts(init);
      assert s == init + [q] && q !in init;
      assert Elements(s) == Elements(init) + {q};
    }
  }

  lemma CountsAddUp(emitted: seq<u64>, held: set<u64>, order: seq<u64>)
    requires Distinct(emitted) && Distinct(order) && (forall q :: q in held ==> q !in emitted)
    requires forall q :: q in order <==> q in emitted || q in held
    ensures |order| == |emitted| + |held|
  {
    hide Distinct;
    DistinctCounts(emitted);
    DistinctCounts(order);
    assert Elements(order) == Elements(emitted) + held && Elements(emitted) !! held;
  }

  /** Whichever of a request's frames arrive over whatever calls, in whatever order and however often, and whatever the
      holds: no error; of each datagram that can be read one copy has been emitted or is held, never both; nothing else
      is emitted or held; and every surplus copy is counted. */
  lemma EachReadablePayloadOnceOrHeld(cfg: Config, d: Run, req: P.Request, start: P.Counters, turns: seq<Turn>,
                                      t: seq<nat>, scope: Option<u32>, peer: Option<u32>)
    returns (emitted: seq<u64>, dups: nat)
    requires Roomy(cfg, d, req, start, scope, peer) && BringsAt(ArrivalsOf(turns), FramesFor(req, start), t, scope)
    requires forall i :: 0 <= i < |turns| ==> TurnOk(turns[i])
    ensures var x, planned := SettingFor(cfg, d, req, start, scope, peer),
        P.PlanUpTo(req, start, |req.datagrams|).planned;
      && F.FlightOk(x.flight) && P.PathsValid(planned) && |CargoFor(planned)| == |FramesFor(req, start)|
      && var h, cargo := Calls(cfg, Held(d, map[]), turns), TraceCargo(CargoFor(planned), t);
      && h.run.error.None? && Distinct(emitted) && (forall q :: q in emitted ==> q in x.book)
      && (forall q :: q in emitted || q in HeldBy(x, h) <==> Readable(x, cargo, q))
      && (forall q :: q in HeldBy(x, h) ==> q !in emitted && HoldsPayload(x, h, q))
      && Gains(d.out, h.run.out, req.serviceId, EmissionsAt(x, emitted), |emitted|, dups)
      && AllCargoOk(x, cargo) && |emitted| + |HeldBy(x, h)| + dups == Copies(x, cargo)
  {
    hide P.PlanUpTo, P.SequenceFor, FlightOf, Gains, EmissionsAt, Readable, Calls, Fit.RequestFits, Serves, F.FlightOk,
         CargoFor, FramesFor, D.Recent, F.BuffersAfter, NothingFrom, EvenlySplit, Brought, CargoOk, Copies, TurnOk;
    var x, planned := SettingFor(cfg, d, req, start, scope, peer), P.PlanUpTo(req, start, |req.datagrams|).planned;
    RequestBrings(cfg, d, req, start, ArrivalsOf(turns), t, scope, peer);
    var cargo := TraceCargo(CargoFor(planned), t);
    var g := EmittedOrHeld(x, turns, cargo);
    emitted, dups := g.emitted, g.dups;
    CountsAddUp(g.emitted, HeldBy(x, Calls(cfg, Held(d, map[]), turns)), g.order);
  }

  ghost predicate HoldsPayload(x: Setting, h: Held, q: u64) {
    && q in HeldBy(x, h) && q in x.book && EntriesAt(h.reorder, HoldKey(x))[q].payload == x.book[q]
  }

  // ----- once the holds are over ----------------------------------------------

  lemma {:induction false} ReleaseAll(b: R.Buffer, now: nat, hold: nat)
    requires forall k :: k in b.entries ==> R.Waited(b.entries[k], now) >= hold
    ensures R.Release(b, now, hold).0.entries == map[]
    decreases |b.entries|, if b.next in b.entries then 0 else 1
  {
    hide R.Release, R.Lowest;
    R.ReleaseStep(b, now, hold);
    if b.next in b.entries {
      R.RemoveShrinks(b.entries, b.next);
      ReleaseAll(R.Buffer(NextSequence(b.next), b.entries - {b.next}), now, hold);
    } else if b.entries != map[] {
      ReleaseAll(b.(next := R.Lowest(b.entries)), now, hold);
    }
  }

  /** Every held entry has waited as long as any path's hold. */
  ghost predicate Overripe(entries: map<u64, R.Entry>, now: nat, holds: map<u16, nat>) {
    forall q, p :: q in entries && p in holds ==> R.Waited(entries[q], now) >= holds[p]
  }

  lemma ExpireAll(m: R.Buffers, key: R.Key, now: nat, holds: map<u16, nat>)
    requires Overripe(EntriesAt(m, key), now, holds)
    ensures EntriesAt(R.Expire(m, key, now, holds).0, key) == map[]
  {
    hide R.Release, R.Lowest;
    if key in m && m[key].entries != map[] {
      var low := m[key].entries[R.Lowest(m[key].entries)];
      var hold := if low.pathId in holds then holds[low.pathId] else 0;
      ReleaseAll(m[key], now, hold);
    }
  }

  lemma {:induction false} SweepEmpties(cfg: Config, h: Held, keys: seq<R.Key>, clock: nat -> nat, key: R.Key, n: nat)
    requires 0 < n <= |keys| && (forall k :: k in keys ==> k == key)
    requires SweepUpTo(cfg, h, keys, clock, n).run.error.None?
    requires Overripe(EntriesAt(h.reorder, key), clock(0), cfg.holds)
    ensures EntriesAt(SweepUpTo(cfg, h, keys, clock, n).reorder, key) == map[]
    decreases n
  {
    hide R.Expire, EmitUpTo, Overripe, EntriesAt;
    assert keys[n - 1] in keys;
    if n == 1 {
      ExpireAll(h.reorder, key, clock(0), cfg.holds);
      assert SweepUpTo(cfg, h, keys, clock, 0) == h;
    } else {
      if SweepUpTo(cfg, h, keys, clock, n - 1).run.error.None? {
        SweepEmpties(cfg, h, keys, clock, key, n - 1);
        StaysEmpty(SweepUpTo(cfg, h, keys, clock, n - 1).reorder, key, clock(n - 1), cfg.holds);
      }
    }
  }

  lemma StaysEmpty(m: R.Buffers, key: R.Key, now: nat, holds: map<u16, nat>)
    requires EntriesAt(m, key) == map[]
    ensures EntriesAt(R.Expire(m, key, now, holds).0, key) == map[]
  {
    ExpireAll(m, key, now, holds);
  }

  /** A call that drains nothing, whose sweep comes when every hold is over. */
  ghost predicate Late(x: Setting, h: Held, turn: Turn) {
    && TurnOk(turn) && (forall m, k :: k in m ==> k in turn.order(m)) && turn.arrivals == []
    && Overripe(EntriesAt(h.reorder, HoldKey(x)), turn.clock(0), x.cfg.holds)
  }

  lemma LateCallEmpties(x: Setting, g: Progress, h: Held, turn: Turn)
    requires HeldAt(x, g, h) && Late(x, h, turn) && CallOn(x.cfg, h, turn).run.error.None?
    ensures HeldBy(x, CallOn(x.cfg, h, turn)) == {}
  {
    hide R.Expire, EmitUpTo, Overripe, Gains, Remembers, Parted, SweepUpTo;
    var h0 := Held(Run(h.run.core, h.run.out, [], None), h.reorder);
    var keys := turn.order(h.reorder);
    assert HeldUpTo(x.cfg, h0, [], 0) == h0;
    if keys == [] {
      NoSweep(x.cfg, h0, keys, turn.clock);
      assert forall k :: k in h.reorder ==> k in keys;
      assert HoldKey(x) !in h.reorder;
    } else {
      SweepEmpties(x.cfg, h0, keys, turn.clock, HoldKey(x), |keys|);
    }
  }

  lemma NoSweep(cfg: Config, h: Held, keys: seq<R.Key>, clock: nat -> nat)
    ensures SweepUpTo(cfg, h, keys, clock, 0) == h
  {
  }

  lemma ArrivalsOfLate(turns: seq<Turn>, turn: Turn)
    requires turn.arrivals == []
    ensures ArrivalsOf(turns + [turn]) == ArrivalsOf(turns)
  {
    assert (turns + [turn])[..|turns|] == turns;
  }

  lemma CallsOfLate(cfg: Config, h: Held, turns: seq<Turn>, turn: Turn)
    requires Calls(cfg, h, turns).run.error.None?
    ensures Calls(cfg, h, turns + [turn]) == CallOn(cfg, Calls(cfg, h, turns), turn)
  {
    hide CallOn;
    assert (turns + [turn])[..|turns|] == turns;
  }

  /** If every frame of a request arrives in some call, and a last call sweeps when every hold is over, then every
      datagram has been emitted exactly once, whatever the order, the calls and the holds. */
  lemma EveryPayloadOnceInTheEnd(cfg: Config, d: Run, req: P.Request, start: P.Counters, turns: seq<Turn>, late: Turn,
                                 t: seq<nat>, scope: Option<u32>, peer: Option<u32>)
    returns (emitted: seq<u64>, dups: nat)
    requires Roomy(cfg, d, req, start, scope, peer) && BringsAt(ArrivalsOf(turns), FramesFor(req, start), t, scope)
    requires forall i :: 0 <= i < |turns| ==> TurnOk(turns[i])
    requires forall r :: 0 <= r < |FramesFor(req, start)| ==> r in t
    requires Late(SettingFor(cfg, d, req, start, scope, peer), Calls(cfg, Held(d, map[]), turns), late)
    ensures var x, first := SettingFor(cfg, d, req, start, scope, peer), P.SequenceFor(start, peer);
      var h := Calls(cfg, Held(d, map[]), turns + [late]);
      && h.run.error.None? && HeldBy(x, h) == {} && Distinct(emitted)
      && (forall q :: q in emitted <==> first <= q < first + |req.datagrams|)
      && Gains(d.out, h.run.out, req.serviceId, EmissionsAt(x, emitted), |emitted|, dups)
  {
    hide P.PlanUpTo, P.SequenceFor, FlightOf, Gains, EmissionsAt, Readable, Calls, Fit.RequestFits, Serves, F.FlightOk,
         CargoFor, FramesFor, NothingFrom, EvenlySplit, Copies, CargoOk, TraceCargo, TurnOk, HeldBy, CallOn, Late;
    var x, n, first := SettingFor(cfg, d, req, start, scope, peer), |req.datagrams|, P.SequenceFor(start, peer);
    var h0 := Held(d, map[]);
    LateIs(x, Calls(cfg, h0, turns), late);
    ArrivalsOfLate(turns, late);
    StandsAt(cfg, d, req, start, turns, t, scope, peer);
    emitted, dups := EachReadablePayloadOnceOrHeld(cfg, d, req, start, turns + [late], t, scope, peer);
    CallsOfLate(cfg, h0, turns, late);
    LateLeavesNothing(x, Calls(cfg, h0, turns), late);
    forall q: u64 | first <= q < first + n ensures q in emitted {
      EveryFrameIsEnough(cfg, d, req, start, t, scope, peer, q);
    }
  }

  lemma LateIs(x: Setting, h: Held, turn: Turn)
    requires Late(x, h, turn)
    ensures TurnOk(turn) && turn.arrivals == []
  {
  }

  /** Where the receiver stands after these calls. */
  lemma StandsAt(cfg: Config, d: Run, req: P.Request, start: P.Counters, turns: seq<Turn>, t: seq<nat>,
                 scope: Option<u32>, peer: Option<u32>)
    requires Roomy(cfg, d, req, start, scope, peer) && BringsAt(ArrivalsOf(turns), FramesFor(req, start), t, scope)
    requires forall i :: 0 <= i < |turns| ==> TurnOk(turns[i])
    ensures Somewhere(SettingFor(cfg, d, req, start, scope, peer), Calls(cfg, Held(d, map[]), turns))
    ensures Calls(cfg, Held(d, map[]), turns).run.error.None?
  {
    hide P.PlanUpTo, P.SequenceFor, FlightOf, Calls, Fit.RequestFits, Serves, F.FlightOk, CargoFor, FramesFor,
         NothingFrom, EvenlySplit, Brought, CargoOk, Copies, TurnOk, HeldAt, Readable;
    var x, planned := SettingFor(cfg, d, req, start, scope, peer), P.PlanUpTo(req, start, |req.datagrams|).planned;
    RequestBrings(cfg, d, req, start, ArrivalsOf(turns), t, scope, peer);
    var g := EmittedOrHeld(x, turns, TraceCargo(CargoFor(planned), t));
    HeldNoError(x, g, Calls(cfg, Held(d, map[]), turns));
  }

  ghost predicate Somewhere(x: Setting, h: Held) { exists g :: HeldAt(x, g, h) }

  lemma LateLeavesNothing(x: Setting, h: Held, turn: Turn)
    requires Somewhere(x, h) && Late(x, h, turn) && CallOn(x.cfg, h, turn).run.error.None?
    ensures HeldBy(x, CallOn(x.cfg, h, turn)) == {}
  {
    hide HeldAt, CallOn, Late, HeldBy;
    var g :| HeldAt(x, g, h);
    LateCallEmpties(x, g, h, turn);
  }
}
