/** Whole runs of production calls: what the state stands for, what the service sockets send, and that payloads which
    arrive shuffled within their hold are sent in sequence. */
module InOrderReceive {
  import opened Bytes
  import opened FrameCodec
  import opened Plans
  import opened Receive
  import opened HeldReceive
  import opened ReceiveAccount
  import opened EndToEnd
  import opened AnyOrderHeld
  import D = Dedupe
  import F = Fragmentation
  import G = GapFill
  import R = Reorder
  import T = Tracker

  // ----- the payloads and buffer events of a run of calls ---------------------

  /** A call begins without outcomes or an error. */
  function Begun(h: Held): Held { Held(Run(h.run.core, h.run.out, [], None), h.reorder) }

  function CallPayloads(cfg: Config, h: Held, turn: Turn): seq<Payload> {
    HeldPayloads(cfg, Begun(h), turn.arrivals, |turn.arrivals|)
  }

  function SweepEvents(cfg: Config, h: Held, keys: seq<R.Key>, clock: nat -> nat, n: nat): seq<R.Event>
    requires n <= |keys|
    decreases n
  {
    if n == 0 then []
    else
      SweepEvents(cfg, h, keys, clock, n - 1) +
      if SweepUpTo(cfg, h, keys, clock, n - 1).run.error.Some? then []
      else [R.Swept(keys[n - 1], clock(n - 1), cfg.holds)]
  }

  /** The first sights of the call, then its sweep; `t` is the history before it. */
  function CallEvents(cfg: Config, h: Held, t: seq<Payload>, turn: Turn): seq<R.Event> {
    var received := HeldUpTo(cfg, Begun(h), turn.arrivals, |turn.arrivals|);
    var keys := turn.order(received.reorder);
    EventsOf(cfg, t, CallPayloads(cfg, h, turn)) +
    if received.run.error.Some? then [] else SweepEvents(cfg, received, keys, turn.clock, |keys|)
  }

  function CallsPayloads(cfg: Config, h: Held, turns: seq<Turn>): seq<Payload> {
    if turns == [] then []
    else
      var init, turn := turns[..|turns| - 1], turns[|turns| - 1];
      var before := Calls(cfg, h, init);
      CallsPayloads(cfg, h, init) + if before.run.error.Some? then [] else CallPayloads(cfg, before, turn)
  }

  function CallsEvents(cfg: Config, h: Held, t: seq<Payload>, turns: seq<Turn>): seq<R.Event> {
    if turns == [] then []
    else
      var init, turn := turns[..|turns| - 1], turns[|turns| - 1];
      var before := Calls(cfg, h, init);
      CallsEvents(cfg, h, t, init) +
      if before.run.error.Some? then [] else CallEvents(cfg, before, t + CallsPayloads(cfg, h, init), turn)
  }

  lemma {:induction false} SweepsStandFor(cfg: Config, h: Held, keys: seq<R.Key>, clock: nat -> nat, n: nat,
                                          t: seq<Payload>, es: seq<R.Event>)
    requires n <= |keys| && StandsFor(cfg, h, t, es)
    ensures StandsFor(cfg, SweepUpTo(cfg, h, keys, clock, n), t, es + SweepEvents(cfg, h, keys, clock, n))
    decreases n
  {
    hide StandsFor, SweepOne;
    if n == 0 {
      assert es + [] == es;
    } else {
      SweepsStandFor(cfg, h, keys, clock, n - 1, t, es);
      var before, more := SweepUpTo(cfg, h, keys, clock, n - 1), SweepEvents(cfg, h, keys, clock, n - 1);
      var last := R.Swept(keys[n - 1], clock(n - 1), cfg.holds);
      assert es + (more + [last]) == es + more + [last] && more + [] == more;
      if before.run.error.None? {
        SweepStandsFor(cfg, before, keys[n - 1], clock(n - 1), t, es + more);
      }
    }
  }

  lemma CallStandsFor(cfg: Config, h: Held, turn: Turn, t: seq<Payload>, es: seq<R.Event>)
    requires StandsFor(cfg, h, t, es) && h.run.error.None?
    ensures StandsFor(cfg, CallOn(cfg, h, turn), t + CallPayloads(cfg, h, turn), es + CallEvents(cfg, h, t, turn))
  {
    hide Ledger, R.After, HeldUpTo, SweepUpTo, EventsOf, SweepEvents, HeldPayloads;
    var more := CallPayloads(cfg, h, turn);
    var received, events := HeldUpTo(cfg, Begun(h), turn.arrivals, |turn.arrivals|), EventsOf(cfg, t, more);
    HeldStandsForPayloads(cfg, Begun(h), turn.arrivals, |turn.arrivals|, t, es);
    assert events + [] == events;
    if received.run.error.None? {
      var keys := turn.order(received.reorder);
      SweepsStandFor(cfg, received, keys, turn.clock, |keys|, t + more, es + events);
      assert es + events + SweepEvents(cfg, received, keys, turn.clock, |keys|) ==
        es + (events + SweepEvents(cfg, received, keys, turn.clock, |keys|));
    }
  }

  /** Any run of production calls: the state stands for the payloads that came, and the reorder buffers for the first
      sights, with the reports of their own peers' accounts, and the sweeps between them. */
  lemma {:induction false} CallsStandFor(cfg: Config, h: Held, turns: seq<Turn>, t: seq<Payload>, es: seq<R.Event>)
    requires StandsFor(cfg, h, t, es)
    ensures StandsFor(cfg, Calls(cfg, h, turns), t + CallsPayloads(cfg, h, turns),
                      es + CallsEvents(cfg, h, t, turns))
    decreases |turns|
  {
    hide StandsFor, CallOn, CallPayloads, CallEvents;
    if turns == [] {
      assert t + [] == t && es + [] == es;
    } else {
      var init, turn := turns[..|turns| - 1], turns[|turns| - 1];
      CallsStandFor(cfg, h, init, t, es);
      var before, more, events := Calls(cfg, h, init), CallsPayloads(cfg, h, init), CallsEvents(cfg, h, t, init);
      assert more + [] == more && events + [] == events;
      if before.run.error.None? {
        CallStandsFor(cfg, before, turn, t + more, es + events);
        assert t + more + CallPayloads(cfg, before, turn) == t + (more + CallPayloads(cfg, before, turn));
        assert es + events + CallEvents(cfg, before, t + more, turn) ==
          es + (events + CallEvents(cfg, before, t + more, turn));
      }
    }
  }

  // ----- one service of one peer ----------------------------------------------

  /** The peer sends payloads of this service only, and the service has no other peer. */
  predicate Lone(p: Payload, key: R.Key) {
    && (p.Reserved? ==> p.event.scope != key.peerScope)
    && (p.User? && p.scope == key.peerScope ==> p.serviceId == key.serviceId)
    && (p.User? && p.serviceId == key.serviceId ==> p.scope == key.peerScope)
  }

  ghost predicate AllLone(more: seq<Payload>, key: R.Key) { forall i :: 0 <= i < |more| ==> Lone(more[i], key) }

  /** Events among which only `key` brings payloads of its service. */
  ghost predicate OneSource(events: seq<R.Event>, key: R.Key) {
    forall i :: 0 <= i < |events| && events[i].Arrived? && R.KeyOf(events[i]).serviceId == key.serviceId ==>
      R.KeyOf(events[i]) == key
  }

  /** The key's arrivals account for all its peer has sent since the tracker expected `e`. */
  ghost predicate Watched(cfg: Config, t: seq<Payload>, e: u64, events: seq<R.Event>, key: R.Key) {
    && Some(G.Front(e, G.ArrivalsFor(events, key))) == ExpectedAfter(Counted(cfg.capacity, t, key.peerScope))
    && G.AllReported(e, events, key)
    && OneSource(events, key)
  }

  lemma ArrivalsSnoc(events: seq<R.Event>, event: R.Event, key: R.Key)
    ensures G.ArrivalsFor(events + [event], key) ==
            G.ArrivalsFor(events, key) + if event.Arrived? && R.KeyOf(event) == key then [event.arrival] else []
  {
    assert (events + [event])[..|events|] == events;
    assert G.ArrivalsFor(events, key) + [] == G.ArrivalsFor(events, key);
  }

  lemma ReportedSnoc(e: u64, events: seq<R.Event>, event: R.Event, key: R.Key)
    requires G.AllReported(e, events, key)
    requires R.KeyOf(event) == key ==> G.Reported(e, G.ArrivalsFor(events, key), event)
    ensures G.AllReported(e, events + [event], key)
  {
    hide G.Reported, G.ArrivalsFor;
    var all := events + [event];
    forall i | 0 <= i < |all| && R.KeyOf(all[i]) == key
      ensures G.Reported(e, G.ArrivalsFor(all[..i], key), all[i])
    {
      assert all[..i] == events[..i];
      assert i == |events| ==> events[..i] == events;
    }
  }

  lemma WatchSweep(cfg: Config, t: seq<Payload>, e: u64, events: seq<R.Event>, key: R.Key, swept: R.Event)
    requires Watched(cfg, t, e, events, key) && swept.Swept?
    ensures Watched(cfg, t, e, events + [swept], key)
  {
    hide G.ArrivalsFor, G.Front, Counted, ExpectedAfter, G.AllReported;
    ArrivalsSnoc(events, swept, key);
    assert G.ArrivalsFor(events, key) + [] == G.ArrivalsFor(events, key);
    ReportedSnoc(e, events, swept, key);
  }

  /** A payload of the key: the tracker of its peer moves with the arrivals. */
  lemma WatchOwn(cfg: Config, t: seq<Payload>, e: u64, events: seq<R.Event>, key: R.Key, p: Payload)
    requires Watched(cfg, t, e, events, key) && p.User? && p.serviceId == key.serviceId && p.scope == key.peerScope
    ensures Watched(cfg, t + [p], e, events + EventOf(cfg, t, p), key)
  {
    hide G.ArrivalsFor, G.Front, Counted, ExpectedAfter, G.AllReported, IsNews, Report;
    var run := Counted(cfg.capacity, t, key.peerScope);
    CountedSnoc(cfg.capacity, t, p, key.peerScope);
    assert run + [] == run && events + [] == events;
    if IsNews(cfg.capacity, t, ReceiveAccount.KeyOf(p)) {
      var event := EventOf(cfg, t, p)[0];
      ArrivalsSnoc(events, event, key);
      G.FrontSnoc(e, G.ArrivalsFor(events, key), event.arrival);
      ObserveReports(run, p.sequence);
      ReportedSnoc(e, events, event, key);
    }
  }

  /** A payload of another service and another peer: neither the tracker nor the arrivals move. */
  lemma WatchOther(cfg: Config, t: seq<Payload>, e: u64, events: seq<R.Event>, key: R.Key, p: Payload)
    requires Watched(cfg, t, e, events, key) && Lone(p, key) && !(p.User? && p.scope == key.peerScope)
    ensures Watched(cfg, t + [p], e, events + EventOf(cfg, t, p), key)
  {
    hide G.ArrivalsFor, G.Front, Counted, ExpectedAfter, G.AllReported, IsNews, Report;
    var run, arrivals := Counted(cfg.capacity, t, key.peerScope), G.ArrivalsFor(events, key);
    CountedSnoc(cfg.capacity, t, p, key.peerScope);
    assert run + [] == run && events + [] == events && arrivals + [] == arrivals;
    if EventOf(cfg, t, p) != [] {
      var event := EventOf(cfg, t, p)[0];
      ArrivalsSnoc(events, event, key);
      ReportedSnoc(e, events, event, key);
    }
  }

  lemma {:induction false} WatchPayloads(cfg: Config, t: seq<Payload>, e: u64, events: seq<R.Event>, key: R.Key,
                                         more: seq<Payload>)
    requires Watched(cfg, t, e, events, key) && AllLone(more, key)
    ensures Watched(cfg, t + more, e, events + EventsOf(cfg, t, more), key)
    decreases |more|
  {
    hide Watched, EventsOf, EventOf;
    if more == [] {
      NoEvents(cfg, t, events);
    } else {
      var init, p := more[..|more| - 1], more[|more| - 1];
      assert more == init + [p];
      WatchPayloads(cfg, t, e, events, key, init);
      EventsOfSnoc(cfg, t, init, p);
      var events' := events + EventsOf(cfg, t, init);
      assert Lone(p, key) && t + more == t + init + [p];
      assert events' + EventOf(cfg, t + init, p) == events + EventsOf(cfg, t, more);
      if p.User? && p.scope == key.peerScope {
        WatchOwn(cfg, t + init, e, events', key, p);
      } else {
        WatchOther(cfg, t + init, e, events', key, p);
      }
    }
  }

  lemma {:induction false} WatchSweeps(cfg: Config, t: seq<Payload>, e: u64, events: seq<R.Event>, key: R.Key, h: Held,
                                       keys: seq<R.Key>, clock: nat -> nat, n: nat)
    requires Watched(cfg, t, e, events, key) && n <= |keys|
    ensures Watched(cfg, t, e, events + SweepEvents(cfg, h, keys, clock, n), key)
    decreases n
  {
    hide Watched, SweepUpTo;
    if n == 0 {
      assert events + [] == events;
    } else {
      WatchSweeps(cfg, t, e, events, key, h, keys, clock, n - 1);
      var more, swept := SweepEvents(cfg, h, keys, clock, n - 1), R.Swept(keys[n - 1], clock(n - 1), cfg.holds);
      assert more + [] == more && events + (more + [swept]) == events + more + [swept];
      WatchSweep(cfg, t, e, events + more, key, swept);
    }
  }

  lemma WatchCall(cfg: Config, h: Held, turn: Turn, t: seq<Payload>, e: u64, events: seq<R.Event>, key: R.Key)
    requires Watched(cfg, t, e, events, key) && AllLone(CallPayloads(cfg, h, turn), key)
    ensures Watched(cfg, t + CallPayloads(cfg, h, turn), e, events + CallEvents(cfg, h, t, turn), key)
  {
    hide Watched, AllLone, EventsOf, SweepEvents, HeldPayloads, HeldUpTo;
    var more := CallPayloads(cfg, h, turn);
    var received, firsts := HeldUpTo(cfg, Begun(h), turn.arrivals, |turn.arrivals|), EventsOf(cfg, t, more);
    WatchPayloads(cfg, t, e, events, key, more);
    assert firsts + [] == firsts;
    if received.run.error.None? {
      var keys := turn.order(received.reorder);
      WatchSweeps(cfg, t + more, e, events + firsts, key, received, keys, turn.clock, |keys|);
      assert events + firsts + SweepEvents(cfg, received, keys, turn.clock, |keys|) ==
        events + (firsts + SweepEvents(cfg, received, keys, turn.clock, |keys|));
    }
  }

  lemma {:induction false} WatchCalls(cfg: Config, h: Held, turns: seq<Turn>, t: seq<Payload>, e: u64, key: R.Key)
    requires Watched(cfg, t, e, [], key) && AllLone(CallsPayloads(cfg, h, turns), key)
    ensures Watched(cfg, t + CallsPayloads(cfg, h, turns), e, CallsEvents(cfg, h, t, turns), key)
    decreases |turns|
  {
    hide Watched, CallPayloads, CallEvents, Calls, Lone;
    if turns == [] {
      assert t + [] == t;
    } else {
      var init, turn := turns[..|turns| - 1], turns[|turns| - 1];
      var before, more, events := Calls(cfg, h, init), CallsPayloads(cfg, h, init), CallsEvents(cfg, h, t, init);
      LonePrefix(more, CallsPayloads(cfg, h, turns), key);
      WatchCalls(cfg, h, init, t, e, key);
      assert more + [] == more && events + [] == events;
      if before.run.error.None? {
        var last := CallPayloads(cfg, before, turn);
        assert CallsPayloads(cfg, h, turns)[|more|..] == last;
        WatchCall(cfg, before, turn, t + more, e, events, key);
        assert t + more + last == t + (more + last);
      }
    }
  }

  lemma LonePrefix(more: seq<Payload>, all: seq<Payload>, key: R.Key)
    requires more <= all && AllLone(all, key)
    ensures AllLone(more, key) && AllLone(all[|more|..], key)
  {
    hide Lone;
    forall i | 0 <= i < |more|
      ensures Lone(more[i], key)
    {
      assert more[i] == all[i];
    }
  }

  // ----- in order to the service's socket -------------------------------------

  /** No other key of the service has a buffer. */
  ghost predicate SoleKey(m: R.Buffers, key: R.Key) {
    forall k :: k in m && k.serviceId == key.serviceId ==> k == key
  }

  lemma SoleKeyStays(m: R.Buffers, e: R.Event, key: R.Key)
    requires SoleKey(m, key) && (e.Arrived? && R.KeyOf(e).serviceId == key.serviceId ==> R.KeyOf(e) == key)
    ensures SoleKey(R.Step(m, e).0, key)
    ensures R.KeyOf(e).serviceId == key.serviceId && R.KeyOf(e) != key ==> R.Step(m, e).1 == []
  {
    hide R.Release, R.Lowest;
    R.KeysOf(m, e);
  }

  lemma EmissionsAppend(cfg: Config, serviceId: u16, scope: Option<u32>, first: seq<R.Item>, second: seq<R.Item>)
    requires serviceId in cfg.services
    ensures EmissionsFor(cfg, serviceId, scope, first + second) ==
            EmissionsFor(cfg, serviceId, scope, first) + EmissionsFor(cfg, serviceId, scope, second)
  {
    hide EmissionOf;
  }

  /** What the key's buffer handed on after `start`. */
  function HandedSince(start: seq<R.Event>, events: seq<R.Event>, key: R.Key): seq<R.Item> {
    if events == [] then []
    else
      var init, e := events[..|events| - 1], events[|events| - 1];
      HandedSince(start, init, key) + if R.KeyOf(e) == key then R.Step(R.After(start + init), e).1 else []
  }

  lemma HandedSinceSnoc(start: seq<R.Event>, events: seq<R.Event>, e: R.Event, key: R.Key)
    ensures HandedSince(start, events + [e], key) ==
            HandedSince(start, events, key) + if R.KeyOf(e) == key then R.Step(R.After(start + events), e).1 else []
  {
    hide R.Step, R.After;
    assert (events + [e])[..|events|] == events;
  }

  lemma {:induction false} HandedSplits(start: seq<R.Event>, events: seq<R.Event>, key: R.Key)
    ensures R.Handed(start + events, key) == R.Handed(start, key) + HandedSince(start, events, key)
    decreases |events|
  {
    hide R.Step, R.After, R.Handed;
    if events == [] {
      assert start + [] == start;
    } else {
      var init, e := events[..|events| - 1], events[|events| - 1];
      assert events == init + [e];
      HandedSplits(start, init, key);
      HandedSinceSnoc(start, init, e, key);
      G.RunSnoc(start, init, e, key);
    }
  }

  lemma {:induction false} SentIsHanded(cfg: Config, start: seq<R.Event>, events: seq<R.Event>, key: R.Key)
    requires Serves(cfg, key.serviceId) && SoleKey(R.After(start), key) && OneSource(events, key)
    ensures Sent(cfg, start + events, key.serviceId) ==
            Sent(cfg, start, key.serviceId) +
            EmissionsFor(cfg, key.serviceId, key.peerScope, HandedSince(start, events, key))
    ensures SoleKey(R.After(start + events), key)
    decreases |events|
  {
    hide R.Step, R.After, Sent, EmissionsFor, HandedSince, SoleKey;
    var s := key.serviceId;
    if events == [] {
      assert start + [] == start;
      NothingHanded(cfg, start, key);
    } else {
      var init, e := events[..|events| - 1], events[|events| - 1];
      assert events == init + [e] && start + events == start + init + [e];
      SentIsHanded(cfg, start, init, key);
      AfterSnoc(start + init, e);
      SoleKeyStays(R.After(start + init), e, key);
      SentSnoc(cfg, start + init, e, s);
      HandedSinceSnoc(start, init, e, key);
      var more, ready := HandedSince(start, init, key), R.Step(R.After(start + init), e).1;
      NothingHanded(cfg, start, key);
      assert more + [] == more;
      if R.KeyOf(e) == key {
        EmissionsAppend(cfg, s, key.peerScope, more, ready);
      } else if R.KeyOf(e).serviceId == s {
        NoEmissions(cfg, s, R.KeyOf(e).peerScope);
      }
    }
  }

  lemma NoEmissions(cfg: Config, serviceId: u16, scope: Option<u32>)
    requires serviceId in cfg.services
    ensures EmissionsFor(cfg, serviceId, scope, []) == []
  {
  }

  lemma NothingHanded(cfg: Config, start: seq<R.Event>, key: R.Key)
    requires key.serviceId in cfg.services
    ensures HandedSince(start, [], key) == [] && EmissionsFor(cfg, key.serviceId, key.peerScope, []) == []
  {
  }

  lemma SmoothIsBoth(e: u64, events: seq<R.Event>, key: R.Key)
    requires G.AllTimely(e, events, key) && G.AllReported(e, events, key)
    ensures G.AllSmooth(e, events, key)
  {
    hide G.Timely, G.Reported, G.ArrivalsFor;
  }

  /** A receiver with holds whose tracker for a peer expects `e`, and which holds nothing of the peer's only service:
      over any run of calls in which the peer's payloads arrive, in whatever order and frames and between whatever
      other traffic, none outstaying its hold, the service's socket sends them as `e`, `e + 1`, .., up to the first
      that has not arrived. */
  lemma ShuffledIsSentInOrder(cfg: Config, h: Held, turns: seq<Turn>, t: seq<Payload>, es: seq<R.Event>, key: R.Key,
                              e: u64)
    returns (items: seq<R.Item>)
    requires StandsFor(cfg, h, t, es) && h.run.error.None? && Calls(cfg, h, turns).run.error.None?
    requires Serves(cfg, key.serviceId) && ExpectedAt(h.run.core, key.peerScope) == Some(e)
    requires forall k :: k in h.reorder ==> k.serviceId != key.serviceId
    requires AllLone(CallsPayloads(cfg, h, turns), key) && G.AllTimely(e, CallsEvents(cfg, h, t, turns), key)
    ensures EmittedBy(Calls(cfg, h, turns).run.out, key.serviceId) ==
            EmittedBy(h.run.out, key.serviceId) + EmissionsFor(cfg, key.serviceId, key.peerScope, items)
    ensures var arrivals := G.ArrivalsFor(CallsEvents(cfg, h, t, turns), key);
      G.HandsOn(arrivals, e, G.FirstMissing(e, G.Sequences(arrivals)), items)
  {
    hide Calls, CallsPayloads, CallsEvents, R.After, Sent, HandedSince, EmissionsFor, EmittedBy, G.HandsOn, Ledger;
    hide AllLone, G.AllTimely, G.ArrivalsFor, G.FirstMissing, G.Sequences, R.Handed;
    var events, more, s := CallsEvents(cfg, h, t, turns), CallsPayloads(cfg, h, turns), key.serviceId;
    CallsStandFor(cfg, h, turns, t, es);
    TrackerShows(cfg, h, t, es, key.peerScope);
    NothingWatched(cfg, t, e, key);
    WatchCalls(cfg, h, turns, t, e, key);
    WatchedParts(cfg, t + more, e, events, key);
    SmoothIsBoth(e, events, key);
    G.ShuffledComesOutInOrder(e, es, events, key);
    SentIsHanded(cfg, es, events, key);
    HandedSplits(es, events, key);
    items := HandedSince(es, events, key);
    assert R.Handed(es + events, key)[|R.Handed(es, key)|..] == items;
    assert EmittedBy(h.run.out, s) == Sent(cfg, es, s);
    assert EmittedBy(Calls(cfg, h, turns).run.out, s) == Sent(cfg, es + events, s);
  }

  lemma TrackerShows(cfg: Config, h: Held, t: seq<Payload>, es: seq<R.Event>, scope: Option<u32>)
    requires StandsFor(cfg, h, t, es)
    ensures ExpectedAt(h.run.core, scope) == ExpectedAfter(Counted(cfg.capacity, t, scope))
  {
    hide AllSent, RowsSent, R.After, Counted, ExpectedAfter, Rows, UserKeys, ReservedIn;
    assert TrackerOk(h.run.core, Counted(cfg.capacity, t, scope), scope);
  }

  lemma NothingWatched(cfg: Config, t: seq<Payload>, e: u64, key: R.Key)
    requires ExpectedAfter(Counted(cfg.capacity, t, key.peerScope)) == Some(e)
    ensures Watched(cfg, t, e, [], key)
  {
    hide Counted, ExpectedAfter;
  }

  lemma WatchedParts(cfg: Config, t: seq<Payload>, e: u64, events: seq<R.Event>, key: R.Key)
    requires Watched(cfg, t, e, events, key)
    ensures G.AllReported(e, events, key) && OneSource(events, key)
  {
    hide G.AllReported, Counted, G.ArrivalsFor, G.Front, ExpectedAfter;
  }

  // ----- held or sent ---------------------------------------------------------

  /** What the buffers do with a payload whose key has none: kept exactly when there is a hold and a gap in front. */
  lemma ArrivesAlone(m: R.Buffers, a: R.Arrival)
    requires a.key !in m
    ensures var o := a.entry.observation;
      if a.hold > 0 && o.missing > 0 && a.sequence > 0 then
        && R.Arrive(m, a).1 == [] && a.key in R.Arrive(m, a).0
        && R.Arrive(m, a).0[a.key].entries == map[a.sequence := a.entry]
      else R.Arrive(m, a) == (m, [(a.sequence, a.entry)])
  {
    hide R.Release;
    if !R.Bypasses(m, a) {
      var b, now := R.Stored(R.BufferFor(m, a), a.sequence, a.entry), a.entry.receivedAt;
      assert b.entries == map[a.sequence := a.entry];
      R.ReleaseStep(b, now, a.hold);
      if b.next == a.sequence {
        var rest := R.Buffer(NextSequence(b.next), b.entries - {b.next});
        assert rest.entries == map[];
        R.ReleaseStep(rest, now, a.hold);
        var none: seq<R.Item> := [];
        assert [(a.sequence, a.entry)] + none == [(a.sequence, a.entry)];
        assert R.Release(b, now, a.hold) == (rest, [(a.sequence, a.entry)]);
        assert m - {a.key} == m;
      } else {
        assert R.Lowest(b.entries) == a.sequence && |b.entries| == 1;
      }
    }
  }

  /** A first sight, with nothing of its service and peer held: it is kept back if and only if its path has a hold and
      it is ahead of the sequence its peer was expected to send next; otherwise it is sent at once. */
  lemma HeldExactly(cfg: Config, h: Held, p: Payload, t: seq<Payload>, es: seq<R.Event>)
    requires StandsFor(cfg, h, t, es) && h.run.error.None? && p.User? && Serves(cfg, p.serviceId)
    requires IsNews(cfg.capacity, t, ReceiveAccount.KeyOf(p)) && R.Key(p.serviceId, p.scope) !in h.reorder
    ensures var h', key := HeldUser(cfg, h, p.serviceId, p.pathId, p.sequence, p.payload, p.scope, p.at),
                           R.Key(p.serviceId, p.scope);
      var hold := if p.pathId in cfg.holds then cfg.holds[p.pathId] else 0;
      if hold > 0 && Report(Counted(cfg.capacity, t, p.scope), p.sequence).missing > 0 && p.sequence > 0 then
        && h'.run.out.emitted == h.run.out.emitted && key in h'.reorder
        && h'.reorder[key].entries.Keys == {p.sequence} && h'.reorder[key].entries[p.sequence].payload == p.payload
      else
        && EmittedBy(h'.run.out, p.serviceId) ==
           EmittedBy(h.run.out, p.serviceId) + [EmissionOf(cfg, p.serviceId, p.scope, p.payload)]
        && h'.reorder == h.reorder
  {
    hide Ledger, ApplyAll, ObserveUser, R.After, Report, Counted, IsNews, AllSent, RowsSent, RowFrom, RowAt, Row.Plus;
    hide R.Arrive, EmissionOf, EmittedBy, EmitEffects, TargetOf;
    UserObserved(cfg, h.run.core, h.run.out, t, p);
    var seen := ObserveUser(cfg, h.run.core, p.serviceId, p.pathId, p.sequence, |p.payload|, p.scope);
    var d := h.run.(core := seen.core, out := ApplyAll(h.run.out, seen.effects));
    BumpsSendNothing(h.run.out, seen.effects);
    var a := ArrivalFor(cfg, p.serviceId, p.pathId, p.sequence, p.payload, p.scope, seen.news.value, p.at);
    ArrivesAlone(h.reorder, a);
    var ready := R.Arrive(h.reorder, a).1;
    SameEmitted(h.run.out, d.out, p.serviceId);
    if ready != [] {
      EmitSingle(cfg, d, p.serviceId, p.scope, ready[0]);
      EmitSendsOne(cfg, d.out, p.serviceId, p.pathId, p.payload, p.scope, a.entry.observation);
    }
  }

  lemma SameEmitted(out: Out, out': Out, serviceId: u16)
    requires out'.emitted == out.emitted
    ensures EmittedBy(out', serviceId) == EmittedBy(out, serviceId)
  {
  }

  // ----- to whom --------------------------------------------------------------

  /** To the service's configured target, or to the last application heard where the service learns its source; and
      through a peer's own socket exactly where the service is peer-scoped and the peer is known. */
  ghost predicate Addressed(cfg: Config, serviceId: u16, scope: Option<u32>, e: Emission)
    requires serviceId in cfg.services
  {
    var service := cfg.services[serviceId];
    && (if service.mode.LearnedSingleSource? && serviceId in cfg.sources then e.target == cfg.sources[serviceId]
        else e.target == service.target)
    && (e.from.Some? ==> e.from == scope && service.mode.PeerScopedSource?)
    && (e.from.None? ==> scope.None? || !service.mode.PeerScopedSource?)
  }

  ghost predicate AddressedToSome(cfg: Config, serviceId: u16, e: Emission)
    requires serviceId in cfg.services
  {
    exists scope :: Addressed(cfg, serviceId, scope, e)
  }

  /** Whatever a service's socket has sent in any run of calls. */
  lemma {:induction false} EverySendIsAddressed(cfg: Config, es: seq<R.Event>, serviceId: u16)
    requires serviceId in cfg.services
    ensures var sent := Sent(cfg, es, serviceId);
      forall i :: 0 <= i < |sent| ==> AddressedToSome(cfg, serviceId, sent[i])
    decreases |es|
  {
    hide R.Step, R.After, Sent, EmissionsFor;
    if es == [] {
      assert Sent(cfg, [], serviceId) == [] by { NothingSent(cfg, serviceId); }
    } else {
      var init, e := es[..|es| - 1], es[|es| - 1];
      assert es == init + [e];
      EverySendIsAddressed(cfg, init, serviceId);
      SentSnoc(cfg, init, e, serviceId);
      ItemsAreAddressed(cfg, serviceId, R.KeyOf(e).peerScope, R.Step(R.After(init), e).1);
    }
  }

  lemma NothingSent(cfg: Config, serviceId: u16)
    ensures Sent(cfg, [], serviceId) == []
  {
  }

  lemma ItemsAreAddressed(cfg: Config, serviceId: u16, scope: Option<u32>, items: seq<R.Item>)
    requires serviceId in cfg.services
    ensures var es := EmissionsFor(cfg, serviceId, scope, items);
      forall i :: 0 <= i < |es| ==> AddressedToSome(cfg, serviceId, es[i])
  {
    var es := EmissionsFor(cfg, serviceId, scope, items);
    forall i | 0 <= i < |es|
      ensures AddressedToSome(cfg, serviceId, es[i])
    {
      assert Addressed(cfg, serviceId, scope, es[i]);
    }
  }
}
