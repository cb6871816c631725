/** The production receiver with reorder holds, over whole runs of calls: what can be read from what arrived has been
    emitted once or is still held, and nothing else. */
module AnyOrderHeld {
  import opened Bytes
  import opened FrameCodec
  import opened Plans
  import opened Receive
  import opened HeldReceive
  import opened EndToEnd
  import opened AnyOrder
  import F = Fragmentation
  import L = Delivery
  import D = Dedupe
  import R = Reorder
  import T = Tracker

  // ----- frames are their items -----------------------------------------------

  function HeldItem(cfg: Config, h: Held, scope: Option<u32>, i: L.Item, now: nat): Held {
    HeldUser(cfg, h, i.serviceId, i.pathId, i.sequence, i.payload, scope, now)
  }

  function HeldItems(cfg: Config, h: Held, scope: Option<u32>, items: seq<L.Item>, clock: nat -> nat): Held
    decreases |items|
  {
    if items == [] then h
    else
      var n := |items| - 1;
      var before := HeldItems(cfg, h, scope, items[..n], clock);
      if before.run.error.Some? then before else HeldItem(cfg, before, scope, items[n], clock(n))
  }

  lemma HeldItemsSnoc(cfg: Config, h: Held, scope: Option<u32>, items: seq<L.Item>, i: L.Item, clock: nat -> nat)
    ensures var before := HeldItems(cfg, h, scope, items, clock);
      HeldItems(cfg, h, scope, items + [i], clock) ==
      if before.run.error.Some? then before else HeldItem(cfg, before, scope, i, clock(|items|))
  {
    hide HeldItem;
    assert (items + [i])[..|items|] == items;
  }

  lemma {:induction false} BatchAsHeldItems(cfg: Config, h: Held, f: Frame, payloads: seq<bytes>, a: Arrival, n: nat)
    requires n <= |payloads|
    ensures HeldBatch(cfg, h, f, payloads, a, n) ==
            HeldItems(cfg, h, a.scope, L.BatchItems(f, payloads)[..n], a.clock)
    decreases n
  {
    hide HeldUser;
    var items := L.BatchItems(f, payloads);
    if n == 0 {
    } else {
      BatchAsHeldItems(cfg, h, f, payloads, a, n - 1);
      assert items[..n] == items[..n - 1] + [items[n - 1]];
      HeldItemsSnoc(cfg, h, a.scope, items[..n - 1], items[n - 1], a.clock);
    }
  }

  /** The state once the frame has been through reassembly. */
  function Reassembled(h: Held, a: Arrival, fragments: F.Buffers): Held {
    h.(run := h.run.(core := Learn(h.run.core, a).(fragments := fragments)))
  }

  lemma ArrivalAsHeldItems(cfg: Config, h: Held, a: Arrival, f: Frame)
    requires a.content == Some(f) && UserFrame(f) && h.run.error.None? && Serves(cfg, f.serviceId)
    requires L.DeliverFrame(h.run.core.fragments, f).Done?
    ensures var done := L.DeliverFrame(h.run.core.fragments, f);
      HeldOne(cfg, h, a) == HeldItems(cfg, Reassembled(h, a, done.buffers), a.scope, done.items, a.clock)
  {
    hide HeldUser, F.Push, DecodeBatch, HeldBatch;
    var done := L.DeliverFrame(h.run.core.fragments, f);
    var h1 := Reassembled(h, a, done.buffers);
    if f.kind.Batch? {
      var payloads := DecodeBatch(f.payload).value;
      BatchAsHeldItems(cfg, h1, f, payloads, a, |payloads|);
      assert L.BatchItems(f, payloads)[..|payloads|] == done.items;
    } else {
      if done.items != [] {
        HeldItemsSnoc(cfg, h1, a.scope, [], done.items[0], a.clock);
        assert [] + done.items == done.items;
      }
    }
  }

  // ----- what leaves a reorder buffer -----------------------------------------

  ghost predicate InReady(ready: seq<R.Item>, s: u64) { exists i :: 0 <= i < |ready| && ready[i].0 == s }

  ghost predicate DistinctItems(ready: seq<R.Item>) {
    forall i, j :: 0 <= i < j < |ready| ==> ready[i].0 != ready[j].0
  }

  /** Of these entries some leave, each once, and the others stay as they are. */
  ghost predicate Splits(all: map<u64, R.Entry>, kept: map<u64, R.Entry>, ready: seq<R.Item>) {
    && DistinctItems(ready)
    && (forall i :: 0 <= i < |ready| ==> ready[i].0 in all && all[ready[i].0] == ready[i].1 && ready[i].0 !in kept)
    && (forall s :: s in kept ==> s in all && kept[s] == all[s])
    && (forall s :: s in all ==> s in kept || InReady(ready, s))
  }

  lemma SplitsFirst(all: map<u64, R.Entry>, s: u64, kept: map<u64, R.Entry>, rest: seq<R.Item>)
    requires s in all && Splits(all - {s}, kept, rest)
    ensures Splits(all, kept, [(s, all[s])] + rest)
  {
    var ready := [(s, all[s])] + rest;
    assert ready[0].0 == s;
    forall k | k in all ensures k in kept || InReady(ready, k) {
      if k != s && k !in kept {
        assert k in all - {s};
        var i :| 0 <= i < |rest| && rest[i].0 == k;
        assert ready[i + 1].0 == k;
      }
    }
  }

  lemma {:induction false} ReleaseSplits(b: R.Buffer, now: nat, hold: nat)
    ensures Splits(b.entries, R.Release(b, now, hold).0.entries, R.Release(b, now, hold).1)
    decreases |b.entries|, if b.next in b.entries then 0 else 1
  {
    hide R.Release, R.Overdue, R.Lowest, Splits;
    R.ReleaseStep(b, now, hold);
    if b.next in b.entries {
      R.RemoveShrinks(b.entries, b.next);
      var rest := R.Buffer(NextSequence(b.next), b.entries - {b.next});
      ReleaseSplits(rest, now, hold);
      SplitsFirst(b.entries, b.next, R.Release(rest, now, hold).0.entries, R.Release(rest, now, hold).1);
    } else if b.entries != map[] && R.Overdue(b, now, hold) {
      ReleaseSplits(b.(next := R.Lowest(b.entries)), now, hold);
    } else {
      NothingLeaves(b.entries);
    }
  }

  lemma NothingLeaves(all: map<u64, R.Entry>)
    ensures Splits(all, all, [])
  {
  }

  function EntriesAt(m: R.Buffers, key: R.Key): map<u64, R.Entry> { if key in m then m[key].entries else map[] }

  /** A new payload: it and the entries held for its key leave or stay. */
  lemma ArriveSplits(m: R.Buffers, a: R.Arrival)
    requires a.sequence !in EntriesAt(m, a.key)
    ensures var (m', ready) := R.Arrive(m, a);
      && Splits(EntriesAt(m, a.key)[a.sequence := a.entry], EntriesAt(m', a.key), ready)
      && forall k :: k in m' ==> k in m || k == a.key
  {
    hide R.Release, Splits;
    if R.Bypasses(m, a) {
      PassesThrough(EntriesAt(m, a.key), a.sequence, a.entry);
    } else {
      ReleaseSplits(R.Stored(R.BufferFor(m, a), a.sequence, a.entry), a.entry.receivedAt, a.hold);
    }
  }

  lemma PassesThrough(held: map<u64, R.Entry>, s: u64, e: R.Entry)
    requires s !in held
    ensures Splits(held[s := e], held, [(s, e)])
  {
    assert [(s, e)][0].0 == s && InReady([(s, e)], s);
  }

  lemma ExpireSplits(m: R.Buffers, key: R.Key, now: nat, holds: map<u16, nat>)
    ensures var (m', ready) := R.Expire(m, key, now, holds);
      && Splits(EntriesAt(m, key), EntriesAt(m', key), ready)
      && forall k :: k in m' ==> k in m
  {
    hide R.Release, Splits, R.Lowest;
    NothingLeaves(EntriesAt(m, key));
    if key in m && m[key].entries != map[] {
      var low := m[key].entries[R.Lowest(m[key].entries)];
      var hold := if low.pathId in holds then holds[low.pathId] else 0;
      ReleaseSplits(m[key], now, hold);
    }
  }

  // ----- emitting what leaves -------------------------------------------------

  lemma {:induction false} EmitGains(cfg: Config, d: Run, serviceId: u16, scope: Option<u32>, items: seq<R.Item>,
                                     n: nat)
    requires Serves(cfg, serviceId) && d.error.None? && n <= |items|
    ensures var r := EmitUpTo(cfg, d, serviceId, scope, items, n);
      && r.error.None? && r.core == d.core
      && Gains(d.out, r.out, serviceId, EmissionsFor(cfg, serviceId, scope, items[..n]), n, 0)
    decreases n
  {
    hide Gains, EmitEffects, ApplyAll, EmissionOf;
    var r := EmitUpTo(cfg, d, serviceId, scope, items, n);
    if n == 0 {
      GainsNothing(d.out, serviceId);
      assert EmissionsFor(cfg, serviceId, scope, items[..0]) == [];
    } else {
      EmitGains(cfg, d, serviceId, scope, items, n - 1);
      var before, e := EmitUpTo(cfg, d, serviceId, scope, items, n - 1), items[n - 1].1;
      EmissionGains(cfg, before.out, serviceId, e.pathId, e.payload, scope, e.observation);
      var es, one := EmissionsFor(cfg, serviceId, scope, items[..n - 1]), EmissionOf(cfg, serviceId, scope, e.payload);
      GainsTwice(d.out, before.out, r.out, serviceId, es, [one], n - 1, 1, 0, 0);
      assert EmissionsFor(cfg, serviceId, scope, items[..n]) == es + [one];
    }
  }

  lemma GainsNothing(out: Out, serviceId: u16)
    ensures Gains(out, out, serviceId, [], 0, 0)
  {
    assert EmittedBy(out, serviceId) + [] == EmittedBy(out, serviceId);
  }

  // ----- where the receiver stands --------------------------------------------

  /** What it has taken in and what of that it has emitted, each in order, and the copies it turned away. */
  datatype Progress = Progress(order: seq<u64>, emitted: seq<u64>, dups: nat)

  function HoldKey(x: Setting): R.Key { R.Key(x.serviceId, x.scope) }

  /** What has been taken in is emitted or held, never both, and held payloads are the ones sent. */
  ghost predicate Parted(x: Setting, g: Progress, held: map<u64, R.Entry>) {
    && Distinct(g.emitted) && (forall q :: q in g.order <==> q in g.emitted || q in held)
    && (forall q :: q in held ==> q !in g.emitted && q in x.book && held[q].payload == x.book[q])
  }

  ghost predicate HeldAt(x: Setting, g: Progress, h: Held) {
    && x.serviceId in x.cfg.services && h.run.error.None? && Remembers(x, g.order, h.run.core.window)
    && Parted(x, g, EntriesAt(h.reorder, HoldKey(x))) && (forall k :: k in h.reorder ==> k == HoldKey(x))
    && (forall q :: q in g.emitted ==> q in x.book)
    && Gains(x.start.out, h.run.out, x.serviceId, EmissionsAt(x, g.emitted), |g.emitted|, g.dups)
  }

  lemma HeldAtStart(x: Setting)
    requires SettingOk(x)
    ensures HeldAt(x, Progress([], [], 0), Held(x.start, map[]))
  {
    AtStart(x);
  }

  lemma HeldNoError(x: Setting, g: Progress, h: Held)
    requires HeldAt(x, g, h)
    ensures h.run.error.None?
  {
  }

  /** Only the window, the output, the error and the reorder buffers matter. */
  lemma HeldAtElsewhere(x: Setting, g: Progress, h: Held, h': Held)
    requires HeldAt(x, g, h) && h'.reorder == h.reorder && h'.run.core.window == h.run.core.window
    requires h'.run.out == h.run.out && h'.run.error == h.run.error
    ensures HeldAt(x, g, h')
  {
    hide Gains, Parted, Remembers;
  }

  function SequencesOf(ready: seq<R.Item>): (s: seq<u64>)
    ensures |s| == |ready|
  {
    seq(|ready|, i requires 0 <= i < |ready| => ready[i].0)
  }

  lemma ReadyLists(ready: seq<R.Item>, q: u64)
    ensures q in SequencesOf(ready) <==> InReady(ready, q)
  {
    var s := SequencesOf(ready);
    if InReady(ready, q) {
      var i :| 0 <= i < |ready| && ready[i].0 == q;
      assert s[i] == q;
    }
    if q in s {
      var i :| 0 <= i < |s| && s[i] == q;
      assert ready[i].0 == q;
    }
  }

  /** Before the release, what was held and what has just been taken in are all to be parted. */
  lemma ReleasedParts(x: Setting, g: Progress, all: map<u64, R.Entry>, kept: map<u64, R.Entry>, ready: seq<R.Item>)
    requires Parted(x, g, all) && Splits(all, kept, ready)
    ensures Parted(x, g.(emitted := g.emitted + SequencesOf(ready)), kept)
    ensures forall i :: 0 <= i < |ready| ==> ready[i].0 in x.book && ready[i].1.payload == x.book[ready[i].0]
  {
    var more := SequencesOf(ready);
    var emitted := g.emitted + more;
    forall q ensures q in emitted <==> q in g.emitted || InReady(ready, q) {
      ReadyLists(ready, q);
    }
    forall i, j | 0 <= i < j < |emitted| ensures emitted[i] != emitted[j] {
      if i < |g.emitted| <= j {
        assert g.emitted[i] in g.emitted && ready[j - |g.emitted|].0 in all;
      }
    }
    forall q ensures q in g.order <==> q in emitted || q in kept {
      if q in all && q !in kept {
        assert InReady(ready, q);
      }
    }
    assert forall q :: q in kept ==> !InReady(ready, q);
  }

  /** The emissions of what leaves continue those made before. */
  lemma EmissionsGoOn(x: Setting, emitted: seq<u64>, ready: seq<R.Item>)
    requires x.serviceId in x.cfg.services && (forall q :: q in emitted ==> q in x.book)
    requires forall i :: 0 <= i < |ready| ==> ready[i].0 in x.book && ready[i].1.payload == x.book[ready[i].0]
    ensures forall q :: q in emitted + SequencesOf(ready) ==> q in x.book
    ensures EmissionsAt(x, emitted + SequencesOf(ready)) ==
            EmissionsAt(x, emitted) + EmissionsFor(x.cfg, x.serviceId, x.scope, ready)
  {
    hide EmissionOf;
    var more := SequencesOf(ready);
    forall q | q in emitted + more ensures q in x.book {
      if q !in emitted {
        var i :| 0 <= i < |more| && more[i] == q;
      }
    }
  }

  /** The state with `all` held in place of what the buffers hold, once part of it is released and emitted. */
  lemma ReleaseAt(x: Setting, g: Progress, d: Run, all: map<u64, R.Entry>, m': R.Buffers, ready: seq<R.Item>)
    returns (g': Progress)
    requires SettingOk(x) && d.error.None? && Remembers(x, g.order, d.core.window) && Parted(x, g, all)
    requires (forall q :: q in g.emitted ==> q in x.book)
    requires Gains(x.start.out, d.out, x.serviceId, EmissionsAt(x, g.emitted), |g.emitted|, g.dups)
    requires Splits(all, EntriesAt(m', HoldKey(x)), ready) && forall k :: k in m' ==> k == HoldKey(x)
    ensures g' == g.(emitted := g'.emitted) && HeldAt(x, g', Held(EmitAll(x.cfg, d, x.serviceId, x.scope, ready), m'))
  {
    hide Gains, Parted, Remembers, Splits, EmissionOf, EmitUpTo, EmissionsAt, EmissionsFor, SequencesOf, EntriesAt;
    g' := g.(emitted := g.emitted + SequencesOf(ready));
    ReleasedParts(x, g, all, EntriesAt(m', HoldKey(x)), ready);
    EmissionsGoOn(x, g.emitted, ready);
    EmitGains(x.cfg, d, x.serviceId, x.scope, ready, |ready|);
    assert ready[..|ready|] == ready;
    GainsTwice(x.start.out, d.out, EmitAll(x.cfg, d, x.serviceId, x.scope, ready).out, x.serviceId,
               EmissionsAt(x, g.emitted), EmissionsFor(x.cfg, x.serviceId, x.scope, ready), |g.emitted|, |ready|,
               g.dups, 0);
  }

  // ----- one payload ----------------------------------------------------------

  /** What a first sight does before the reorder buffers see it. */
  lemma FirstSight(cfg: Config, d: Run, scope: Option<u32>, i: L.Item)
    requires D.Key(i.serviceId, scope, i.sequence) !in d.core.window
    ensures var seen := ObserveUser(cfg, d.core, i.serviceId, i.pathId, i.sequence, |i.payload|, scope);
      && seen.news.Some?
      && seen.core.window == D.Remember(d.core.window, cfg.capacity, D.Key(i.serviceId, scope, i.sequence))
      && Gains(d.out, ApplyAll(d.out, seen.effects), i.serviceId, [], 0, 0)
  {
    hide ApplyAll, T.Observe, D.Remember, Gains, ReceiveRow;
    var o := T.Observe(ExpectedAt(d.core, scope), i.sequence).1;
    PathCountGains(d.out, i.serviceId, i.pathId, ReceiveRow(|i.payload|, o));
  }

  lemma SecondSight(cfg: Config, h: Held, scope: Option<u32>, i: L.Item, now: nat)
    requires D.Key(i.serviceId, scope, i.sequence) in h.run.core.window
    ensures HeldItem(cfg, h, scope, i, now) == Held(DeliverItem(cfg, h.run, scope, i), h.reorder)
  {
    hide ApplyAll, DuplicateEffects;
  }

  lemma PartedOneMore(x: Setting, g: Progress, held: map<u64, R.Entry>, q: u64, e: R.Entry)
    requires Parted(x, g, held) && q in x.book && q !in g.order && e.payload == x.book[q]
    ensures Parted(x, g.(order := g.order + [q]), held[q := e])
  {
  }

  lemma FreshItemAt(x: Setting, g: Progress, h: Held, i: L.Item, now: nat) returns (g': Progress)
    requires SettingOk(x) && HeldAt(x, g, h) && InBook(x, i) && i.sequence !in g.order
    ensures HeldAt(x, g', HeldItem(x.cfg, h, x.scope, i, now))
    ensures g'.order == g.order + [i.sequence] && g'.dups == g.dups
  {
    hide Gains, Remembers, R.Arrive, ApplyAll, EmitAll, D.Remember, Splits, ObserveUser, EmissionOf;
    var q := i.sequence;
    WindowKnows(x, g.order, h.run.core.window, q);
    FirstSight(x.cfg, h.run, x.scope, i);
    var seen := ObserveUser(x.cfg, h.run.core, i.serviceId, i.pathId, q, |i.payload|, x.scope);
    var d := h.run.(core := seen.core, out := ApplyAll(h.run.out, seen.effects));
    var a := ArrivalFor(x.cfg, i.serviceId, i.pathId, q, i.payload, x.scope, seen.news.value, now);
    var held := EntriesAt(h.reorder, HoldKey(x));
    RemembersOneMore(x, g.order, h.run.core.window, q);
    PartedOneMore(x, g, held, q, a.entry);
    ArriveSplits(h.reorder, a);
    GainsTwice(x.start.out, h.run.out, d.out, x.serviceId, EmissionsAt(x, g.emitted), [], |g.emitted|, 0, g.dups, 0);
    assert EmissionsAt(x, g.emitted) + [] == EmissionsAt(x, g.emitted);
    var (m', ready) := R.Arrive(h.reorder, a);
    g' := ReleaseAt(x, g.(order := g.order + [q]), d, held[q := a.entry], m', ready);
  }

  lemma ItemHeldAt(x: Setting, g: Progress, h: Held, i: L.Item, now: nat) returns (g': Progress)
    requires SettingOk(x) && HeldAt(x, g, h) && InBook(x, i)
    ensures HeldAt(x, g', HeldItem(x.cfg, h, x.scope, i, now))
    ensures (forall q :: q in g'.order <==> q in g.order || q == i.sequence)
    ensures |g'.order| + g'.dups == |g.order| + g.dups + 1
  {
    hide Gains, HeldItem, DeliverItem, EmissionsAt, Remembers, Parted;
    if i.sequence in g.order {
      WindowKnows(x, g.order, h.run.core.window, i.sequence);
      SecondSight(x.cfg, h, x.scope, i, now);
      RepeatedItem(x.cfg, h.run, x.scope, i);
      g' := g.(dups := g.dups + 1);
      var r := DeliverItem(x.cfg, h.run, x.scope, i);
      GainsTwice(x.start.out, h.run.out, r.out, x.serviceId, EmissionsAt(x, g.emitted), [], |g.emitted|, 0, g.dups, 1);
      assert EmissionsAt(x, g.emitted) + [] == EmissionsAt(x, g.emitted);
      PartedCounts(x, g, g', EntriesAt(h.reorder, HoldKey(x)));
    } else {
      g' := FreshItemAt(x, g, h, i, now);
    }
  }

  lemma PartedCounts(x: Setting, g: Progress, g': Progress, held: map<u64, R.Entry>)
    requires Parted(x, g, held) && g' == g.(dups := g'.dups)
    ensures Parted(x, g', held)
  {
  }

  lemma {:induction false} ItemsHeldAt(x: Setting, g: Progress, h: Held, items: seq<L.Item>, clock: nat -> nat)
    returns (g': Progress)
    requires SettingOk(x) && HeldAt(x, g, h) && forall k :: 0 <= k < |items| ==> InBook(x, items[k])
    ensures HeldAt(x, g', HeldItems(x.cfg, h, x.scope, items, clock))
    ensures (forall q :: q in g'.order <==> q in g.order || Lists(items, q))
    ensures |g'.order| + g'.dups == |g.order| + g.dups + |items|
    ensures HeldItems(x.cfg, h, x.scope, items, clock).run.core.fragments == h.run.core.fragments
    decreases |items|
  {
    hide HeldAt, SettingOk, HeldItem, InBook;
    if items == [] {
      g' := g;
    } else {
      var init, i := items[..|items| - 1], items[|items| - 1];
      assert items == init + [i] && InBook(x, items[|items| - 1]);
      var g1 := ItemsHeldAt(x, g, h, init, clock);
      var h1 := HeldItems(x.cfg, h, x.scope, init, clock);
      HeldNoError(x, g1, h1);
      g' := ItemHeldAt(x, g1, h1, i, clock(|init|));
      HeldItemKeeps(x.cfg, h1, x.scope, i, clock(|init|));
      forall q ensures Lists(items, q) <==> Lists(init, q) || q == i.sequence {
        ListsSnoc(init, i, q);
      }
    }
  }

  lemma HeldItemKeeps(cfg: Config, h: Held, scope: Option<u32>, i: L.Item, now: nat)
    ensures HeldItem(cfg, h, scope, i, now).run.core.fragments == h.run.core.fragments
  {
    hide R.Arrive, ApplyAll, T.Observe, D.Remember, DuplicateEffects, EmitUpTo;
    var seen := ObserveUser(cfg, h.run.core, i.serviceId, i.pathId, i.sequence, |i.payload|, scope);
    if seen.news.Some? {
      var d := h.run.(core := seen.core, out := ApplyAll(h.run.out, seen.effects));
      var a := ArrivalFor(cfg, i.serviceId, i.pathId, i.sequence, i.payload, scope, seen.news.value, now);
      var ready := R.Arrive(h.reorder, a).1;
      EmitKeepsCore(cfg, d, i.serviceId, scope, ready, |ready|);
    }
  }

  // ----- calls ----------------------------------------------------------------

  /** After these frames: taken in is exactly what can be read from them, and copies are counted. */
  ghost predicate HeldStands(x: Setting, cargo: seq<Cargo>, g: Progress, h: Held)
    requires F.FlightOk(x.flight)
  {
    && HeldAt(x, g, h) && (forall q :: q in g.order <==> Readable(x, cargo, q))
    && Reassembles(x, cargo, h.run.core.fragments) && |g.order| + g.dups == Copies(x, cargo)
  }

  lemma CargoIsHeld(x: Setting, cargo: seq<Cargo>, g: Progress, h: Held, a: Arrival, c: Cargo) returns (g': Progress)
    requires SettingOk(x) && CargoOk(x, c) && HeldStands(x, cargo, g, h)
    requires a.content.Some? && Bears(x, a.content.value, c) && a.scope == x.scope
    ensures HeldStands(x, cargo + [c], g', HeldOne(x.cfg, h, a))
  {
    hide HeldAt, Readable, HeldOne, L.DeliverFrame, HeldItems, Serves, Reassembles, Lists, CargoOk, InBook,
         CopiesIn, Copies;
    HeldNoError(x, g, h);
    var f := a.content.value;
    CargoDelivers(x, cargo, h.run.core.fragments, f, c);
    BearsUser(x, f, c);
    ArrivalAsHeldItems(x.cfg, h, a, f);
    var done := L.DeliverFrame(h.run.core.fragments, f);
    var h1 := Reassembled(h, a, done.buffers);
    HeldAtElsewhere(x, g, h, h1);
    g' := ItemsHeldAt(x, g, h1, done.items, a.clock);
    ReassemblesAll(x, cargo, h.run.core.fragments);
    CopiesSnoc(x, cargo, c);
  }

  lemma {:induction false} CallArrivals(x: Setting, before: seq<Cargo>, g: Progress, h: Held, arrivals: seq<Arrival>,
                                        cargo: seq<Cargo>, n: nat) returns (g': Progress)
    requires SettingOk(x) && HeldStands(x, before, g, h) && AllCargoOk(x, cargo) && Brought(x, arrivals, cargo)
    requires n <= |cargo|
    ensures HeldStands(x, before + cargo[..n], g', HeldUpTo(x.cfg, h, arrivals, n))
    decreases n
  {
    hide HeldAt, Readable, HeldOne, Bears, CargoOk, Reassembles, Copies, Serves;
    if n == 0 {
      g' := g;
      assert before + cargo[..0] == before;
    } else {
      var g1 := CallArrivals(x, before, g, h, arrivals, cargo, n - 1);
      var h1 := HeldUpTo(x.cfg, h, arrivals, n - 1);
      HeldNoError(x, g1, h1);
      assert CargoOk(x, cargo[n - 1]) && Bears(x, arrivals[n - 1].content.value, cargo[n - 1]);
      g' := CargoIsHeld(x, before + cargo[..n - 1], g1, h1, arrivals[n - 1], cargo[n - 1]);
      assert before + cargo[..n] == before + cargo[..n - 1] + [cargo[n - 1]];
    }
  }

  lemma SweptAt(x: Setting, g: Progress, h: Held, key: R.Key, now: nat) returns (g': Progress)
    requires SettingOk(x) && HeldAt(x, g, h) && key == HoldKey(x)
    ensures HeldAt(x, g', SweepOne(x.cfg, h, key, now)) && g' == g.(emitted := g'.emitted)
  {
    hide Gains, Remembers, Parted, Splits, R.Expire, EmitAll, EmissionsAt;
    ExpireSplits(h.reorder, key, now, x.cfg.holds);
    var (m', ready) := R.Expire(h.reorder, key, now, x.cfg.holds);
    g' := ReleaseAt(x, g, h.run, EntriesAt(h.reorder, key), m', ready);
  }

  lemma {:induction false} SweepAt(x: Setting, g: Progress, h: Held, keys: seq<R.Key>, clock: nat -> nat, n: nat)
    returns (g': Progress)
    requires SettingOk(x) && HeldAt(x, g, h) && n <= |keys| && forall k :: k in keys ==> k == HoldKey(x)
    ensures HeldAt(x, g', SweepUpTo(x.cfg, h, keys, clock, n)) && g' == g.(emitted := g'.emitted)
    ensures SweepUpTo(x.cfg, h, keys, clock, n).run.core == h.run.core
    decreases n
  {
    hide HeldAt, SettingOk, SweepOne;
    if n == 0 {
      g' := g;
    } else {
      var g1 := SweepAt(x, g, h, keys, clock, n - 1);
      var h1 := SweepUpTo(x.cfg, h, keys, clock, n - 1);
      HeldNoError(x, g1, h1);
      assert keys[n - 1] in keys;
      g' := SweptAt(x, g1, h1, keys[n - 1], clock(n - 1));
      SweepKeepsCore(x.cfg, h1, keys[n - 1], clock(n - 1));
    }
  }

  lemma SweepKeepsCore(cfg: Config, h: Held, key: R.Key, now: nat)
    ensures SweepOne(cfg, h, key, now).run.core == h.run.core
  {
    hide R.Expire, EmitUpTo;
    var ready := R.Expire(h.reorder, key, now, cfg.holds).1;
    EmitKeepsCore(cfg, h.run, key.serviceId, key.peerScope, ready, |ready|);
  }

  /** One production call: the frames it drains, the order in which the map hands out its keys, the sweep's clock. */
  datatype Turn = Turn(arrivals: seq<Arrival>, order: R.Buffers -> seq<R.Key>, clock: nat -> nat)

  ghost predicate TurnOk(turn: Turn) { forall m, k :: k in turn.order(m) ==> k in m }

  function CallOn(cfg: Config, h: Held, turn: Turn): Held {
    HeldCall(cfg, Held(Run(h.run.core, h.run.out, [], None), h.reorder), turn.arrivals, turn.order, turn.clock)
  }

  /** Call after call, each from the state the one before left, up to the first error. */
  function Calls(cfg: Config, h: Held, turns: seq<Turn>): Held {
    if turns == [] then h
    else
      var before := Calls(cfg, h, turns[..|turns| - 1]);
      if before.run.error.Some? then before else CallOn(cfg, before, turns[|turns| - 1])
  }

  function ArrivalsOf(turns: seq<Turn>): seq<Arrival> {
    if turns == [] then [] else ArrivalsOf(turns[..|turns| - 1]) + turns[|turns| - 1].arrivals
  }

  lemma CallStands(x: Setting, before: seq<Cargo>, g: Progress, h: Held, turn: Turn, cargo: seq<Cargo>)
    returns (g': Progress)
    requires SettingOk(x) && HeldStands(x, before, g, h) && AllCargoOk(x, cargo) && Brought(x, turn.arrivals, cargo)
    requires TurnOk(turn)
    ensures HeldStands(x, before + cargo, g', CallOn(x.cfg, h, turn))
  {
    hide HeldAt, Readable, Reassembles, Copies, HeldUpTo, SweepUpTo, Serves, Brought;
    var h0 := Held(Run(h.run.core, h.run.out, [], None), h.reorder);
    HeldNoError(x, g, h);
    HeldAtElsewhere(x, g, h, h0);
    BroughtCount(x, turn.arrivals, cargo);
    var g1 := CallArrivals(x, before, g, h0, turn.arrivals, cargo, |cargo|);
    assert cargo[..|cargo|] == cargo;
    var h1 := HeldUpTo(x.cfg, h0, turn.arrivals, |turn.arrivals|);
    HeldNoError(x, g1, h1);
    var keys := turn.order(h1.reorder);
    OnlyKey(x, g1, h1);
    g' := SweepAt(x, g1, h1, keys, turn.clock, |keys|);
  }

  lemma BroughtCount(x: Setting, arrivals: seq<Arrival>, cargo: seq<Cargo>)
    requires F.FlightOk(x.flight) && AllCargoOk(x, cargo) && Brought(x, arrivals, cargo)
    ensures |arrivals| == |cargo|
  {
  }

  lemma OnlyKey(x: Setting, g: Progress, h: Held)
    requires HeldAt(x, g, h)
    ensures forall k :: k in h.reorder ==> k == HoldKey(x)
  {
  }

  lemma HeldStandsStart(x: Setting)
    requires SettingOk(x) && forall id :: id in x.flight ==> x.flight[id].payload != []
    ensures HeldStands(x, [], Progress([], [], 0), Held(x.start, map[]))
  {
    hide Readable;
    HeldAtStart(x);
    NoPieces(x);
    forall q ensures !Readable(x, [], q) {
      NothingReadable(x, q);
    }
  }

  /** Over any run of calls, whatever frames arrive in them, in whatever order, with whatever holds: no error; what can
      be read from what arrived has been emitted once or is held, not both, and nothing else; surplus copies are
      counted. */
  lemma {:induction false} EmittedOrHeld(x: Setting, turns: seq<Turn>, cargo: seq<Cargo>) returns (g: Progress)
    requires SettingOk(x) && (forall id :: id in x.flight ==> x.flight[id].payload != [])
    requires AllCargoOk(x, cargo) && Brought(x, ArrivalsOf(turns), cargo)
    requires forall i :: 0 <= i < |turns| ==> TurnOk(turns[i])
    ensures HeldStands(x, cargo, g, Calls(x.cfg, Held(x.start, map[]), turns))
    decreases |turns|
  {
    hide HeldStands, CallOn, CargoOk, TurnOk, Brought;
    var h0 := Held(x.start, map[]);
    if turns == [] {
      HeldStandsStart(x);
      g := Progress([], [], 0);
      BroughtCount(x, ArrivalsOf(turns), cargo);
    } else {
      var init, turn := turns[..|turns| - 1], turns[|turns| - 1];
      var m := |ArrivalsOf(init)|;
      BroughtCount(x, ArrivalsOf(turns), cargo);
      assert cargo == cargo[..m] + cargo[m..];
      BroughtParts(x, ArrivalsOf(init), turn.arrivals, cargo);
      assert TurnOk(turns[|turns| - 1]);
      var g1 := EmittedOrHeld(x, init, cargo[..m]);
      StandsNoError(x, cargo[..m], g1, Calls(x.cfg, h0, init));
      g := CallStands(x, cargo[..m], g1, Calls(x.cfg, h0, init), turn, cargo[m..]);
    }
  }

  lemma BroughtParts(x: Setting, first: seq<Arrival>, second: seq<Arrival>, cargo: seq<Cargo>)
    requires F.FlightOk(x.flight) && AllCargoOk(x, cargo) && Brought(x, first + second, cargo)
    ensures |first| <= |cargo| && AllCargoOk(x, cargo[..|first|]) && AllCargoOk(x, cargo[|first|..])
    ensures Brought(x, first, cargo[..|first|]) && Brought(x, second, cargo[|first|..])
  {
    hide Bears, CargoOk;
    var all, m := first + second, |first|;
    assert forall k :: 0 <= k < |first| ==> first[k] == all[k];
    assert forall k :: 0 <= k < |second| ==> second[k] == all[m + k] && cargo[m..][k] == cargo[m + k];
  }

  lemma StandsNoError(x: Setting, cargo: seq<Cargo>, g: Progress, h: Held)
    requires F.FlightOk(x.flight) && HeldStands(x, cargo, g, h)
    ensures h.run.error.None?
  {
  }
}
