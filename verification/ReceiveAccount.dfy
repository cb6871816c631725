/** What the receiver's state stands for: the payloads it has seen, in order, and the gap account of each peer's
    sequences. */
module ReceiveAccount {
  import opened Bytes
  import opened FrameCodec
  import opened Plans
  import opened Receive
  import opened HeldReceive
  import D = Dedupe
  import F = Fragmentation
  import R = Reorder
  import T = Tracker

  /** What reception comes to, piece by piece: a payload that got through authentication and reassembly, a user's, with
      the time it may be held from, or one for Gatherlink itself; or a packet dropped. */
  datatype Payload =
    | User(serviceId: u16, pathId: u16, sequence: u64, payload: bytes, scope: Option<u32>, at: nat)
    | Reserved(event: Event)
    | Dropped(pathId: u16, length: nat)

  // ----- the account of a history ---------------------------------------------

  function KeyOf(p: Payload): D.Key
    requires p.User?
  {
    D.Key(p.serviceId, p.scope, p.sequence)
  }

  function UserKeys(t: seq<Payload>): seq<D.Key> {
    if t == [] then []
    else
      var before, p := UserKeys(t[..|t| - 1]), t[|t| - 1];
      if p.User? then before + [KeyOf(p)] else before
  }

  /** Not among the last `capacity` first-seen user payloads. */
  predicate IsNews(capacity: nat, t: seq<Payload>, key: D.Key) {
    key !in D.Recent(D.FirstSeen(UserKeys(t), capacity), capacity)
  }

  function ReservedIn(t: seq<Payload>): seq<Event> {
    if t == [] then []
    else
      var before, p := ReservedIn(t[..|t| - 1]), t[|t| - 1];
      if p.Reserved? then before + [p.event] else before
  }

  /** The payload counts in the gap account of `scope`: a user's on first sight, one for Gatherlink always. */
  predicate Counts(capacity: nat, t: seq<Payload>, p: Payload, scope: Option<u32>) {
    match p
    case User(_, _, _, _, _, _) => p.scope == scope && IsNews(capacity, t, KeyOf(p))
    case Reserved(e) => e.scope == scope
    case Dropped(_, _) => false
  }

  function SequenceOf(p: Payload): u64
    requires !p.Dropped?
  {
    if p.User? then p.sequence else p.event.sequence
  }

  /** The sequences that count for one peer, in the order they came. */
  function Counted(capacity: nat, t: seq<Payload>, scope: Option<u32>): seq<u64> {
    if t == [] then []
    else
      var init, p := t[..|t| - 1], t[|t| - 1];
      Counted(capacity, init, scope) + if Counts(capacity, init, p, scope) then [SequenceOf(p)] else []
  }

  /** Against the furthest position seen: so many skipped, or behind it. */
  function Report(run: seq<u64>, s: u64): T.Observation {
    if run == [] then T.Observation(0, false, false)
    else
      var front := T.AccountOf(run).front;
      var p := T.Unwrap(front, s);
      if p >= front then T.Observation(p - front, false, false) else T.Observation(0, true, true)
  }

  // ----- the counters of a history --------------------------------------------

  /** What a user payload adds to its path's counters. */
  function PathRowOf(cfg: Config, t: seq<Payload>, p: Payload): Row
    requires p.User?
  {
    var len := |p.payload|;
    if IsNews(cfg.capacity, t, KeyOf(p)) then
      var o := Report(Counted(cfg.capacity, t, p.scope), p.sequence);
      Row(1, len, 1, len, if o.late then 1 else 0, if o.late then 1 else o.missing, 0, 0)
    else DuplicateRow(cfg, p, 1, len)
  }

  /** A duplicate counts as expected or not, and as received traffic where that is counted too. */
  function DuplicateRow(cfg: Config, p: Payload, rxPackets: nat, rxBytes: nat): Row
    requires p.User?
  {
    if cfg.expectedFanout(p.serviceId, |p.payload|) then Row(0, 0, rxPackets, rxBytes, 0, 0, 1, 0)
    else Row(0, 0, rxPackets, rxBytes, 0, 0, 0, 1)
  }

  /** What a piece of reception adds to one counter row at once. */
  function RowFrom(cfg: Config, t: seq<Payload>, p: Payload, cell: Cell): Row {
    match p
    case User(serviceId, pathId, _, payload, _, _) =>
      var known, again := serviceId in cfg.services, !IsNews(cfg.capacity, t, KeyOf(p));
      if cell == PathCell(pathId) then PathRowOf(cfg, t, p)
      else if again && cell == ServiceCell(serviceId, known) then DuplicateRow(cfg, p, 0, 0)
      else if again && cell == ServicePathCell(serviceId, known, pathId) then DuplicateRow(cfg, p, 1, |payload|)
      else ZERO
    case Reserved(e) =>
      if cell == ControlCell || cell == ControlPathCell(e.pathId) then Row(1, e.frameBytes, 0, 0, 0, 0, 0, 0) else ZERO
    case Dropped(pathId, length) =>
      if cell == DropCell || cell == DropPathCell(pathId) then Row(1, length, 0, 0, 0, 0, 0, 0) else ZERO
  }

  /** One counter row, added up over a history. */
  function Rows(cfg: Config, t: seq<Payload>, cell: Cell): Row {
    if t == [] then ZERO
    else Rows(cfg, t[..|t| - 1], cell).Plus(RowFrom(cfg, t[..|t| - 1], t[|t| - 1], cell))
  }

  /** The rows that also count emissions. */
  predicate OfService(cell: Cell) { cell.ServiceCell? || cell.ServicePathCell? }

  // ----- the receiver's state stands for a history ----------------------------

  ghost predicate TrackerOk(core: Core, run: seq<u64>, scope: Option<u32>) {
    ExpectedAt(core, scope) == ExpectedAfter(run)
  }

  /** The window holds the last first-seen user payloads, the events are the payloads for Gatherlink in order, each
      peer's tracker expects the position after the furthest seen, and the counters of paths, control and drops add
      up. */
  ghost predicate Ledger(cfg: Config, core: Core, out: Out, t: seq<Payload>) {
    && core.window == D.Recent(D.FirstSeen(UserKeys(t), cfg.capacity), cfg.capacity)
    && core.events == ReservedIn(t)
    && (forall scope :: TrackerOk(core, Counted(cfg.capacity, t, scope), scope))
    && (forall cell :: !OfService(cell) ==> RowAt(out, cell) == Rows(cfg, t, cell))
  }

  ghost predicate SamePaths(out: Out, out': Out) {
    forall cell :: !OfService(cell) ==> RowAt(out, cell) == RowAt(out', cell)
  }

  lemma LedgerElsewhere(cfg: Config, core: Core, out: Out, core': Core, out': Out, t: seq<Payload>)
    requires Ledger(cfg, core, out, t) && SamePaths(out, out')
    requires core'.window == core.window && core'.events == core.events && core'.trackers == core.trackers
    ensures Ledger(cfg, core', out', t)
  {
    hide UserKeys, ReservedIn, Counted, Rows, RowAt, D.FirstSeen;
    forall scope
      ensures TrackerOk(core', Counted(cfg.capacity, t, scope), scope)
    {
      assert TrackerOk(core, Counted(cfg.capacity, t, scope), scope);
    }
  }

  lemma FreshLedger(cfg: Config, fragments: F.Buffers, remotes: map<(u32, u16), Addr>, emitted: map<u16, seq<Emission>>)
    ensures Ledger(cfg, Core(fragments, [], map[], [], remotes), Out(map[], emitted), [])
  {
  }

  // ----- observing ------------------------------------------------------------

  /** What the tracker expects after a run of sequences. */
  ghost function ExpectedAfter(run: seq<u64>): Option<u64> {
    if run == [] then None else Some(T.AccountOf(run).front % TWO_TO_64)
  }

  /** The tracker's report is the one against the furthest position, and moves the tracker to the next account. */
  lemma ObserveReports(run: seq<u64>, s: u64)
    ensures T.Observe(ExpectedAfter(run), s).1 == Report(run, s)
    ensures Some(T.Observe(ExpectedAfter(run), s).0) == ExpectedAfter(run + [s])
  {
    hide T.Observe, T.Unwrap, T.AccountOf;
    if run == [] {
      FirstObserved(s);
      assert run + [s] == [s];
    } else {
      AccountSnoc(run, s);
      T.AccountBalances(run);
      T.ObserveMovesFront(T.AccountOf(run).front, ExpectedAfter(run).value, s);
      ReportIsLate(ExpectedAfter(run).value, s);
    }
  }

  lemma FirstObserved(s: u64)
    ensures T.Observe(None, s) == (T.AccountOf([s]).front % TWO_TO_64, T.Observation(0, false, false))
  {
  }

  lemma AccountSnoc(run: seq<u64>, s: u64)
    requires run != []
    ensures T.AccountOf(run + [s]).front ==
      var front := T.AccountOf(run).front;
      var p := T.Unwrap(front, s);
      if p >= front then p + 1 else front
  {
    hide T.Observe, T.Unwrap;
    assert (run + [s])[..|run|] == run;
  }

  /** Late and out of order are one thing here, and nothing late is missing anything. */
  lemma ReportIsLate(expected: u64, s: u64)
    ensures var o := T.Observe(Some(expected), s).1; (o.outOfOrder <==> o.late) && (o.late ==> o.missing == 0)
  {
  }

  lemma TrackerMoves(core: Core, core': Core, run: seq<u64>, scope: Option<u32>, s: u64)
    requires TrackerOk(core, run, scope)
    requires core'.trackers == core.trackers[scope := T.Observe(ExpectedAt(core, scope), s).0]
    ensures TrackerOk(core', run + [s], scope)
  {
    hide T.Observe, ExpectedAfter;
    ObserveReports(run, s);
  }

  lemma CountedSnoc(capacity: nat, t: seq<Payload>, p: Payload, scope: Option<u32>)
    ensures Counted(capacity, t + [p], scope) ==
            Counted(capacity, t, scope) + if Counts(capacity, t, p, scope) then [SequenceOf(p)] else []
  {
    assert (t + [p])[..|t|] == t;
  }

  lemma ListsSnoc(t: seq<Payload>, p: Payload)
    ensures UserKeys(t + [p]) == if p.User? then UserKeys(t) + [KeyOf(p)] else UserKeys(t)
    ensures ReservedIn(t + [p]) == if p.Reserved? then ReservedIn(t) + [p.event] else ReservedIn(t)
  {
    assert (t + [p])[..|t|] == t;
  }

  lemma RowsSnoc(cfg: Config, t: seq<Payload>, p: Payload, cell: Cell)
    ensures Rows(cfg, t + [p], cell) == Rows(cfg, t, cell).Plus(RowFrom(cfg, t, p, cell))
  {
    hide RowFrom, Row.Plus;
    assert (t + [p])[..|t|] == t;
  }

  lemma PlusZero(r: Row)
    ensures r.Plus(ZERO) == r && ZERO.Plus(r) == r
  {
  }

  /** Bumps of different rows add to each row what they say of it. */
  lemma BumpsAdd(out: Out, es: seq<Effect>, cell: Cell)
    requires |es| <= 3 && forall i :: 0 <= i < |es| ==> es[i].Bump?
    requires forall i, j :: 0 <= i < j < |es| ==> es[i].cell != es[j].cell
    ensures forall i :: 0 <= i < |es| && es[i].cell == cell ==>
              RowAt(ApplyAll(out, es), cell) == RowAt(out, cell).Plus(es[i].row)
    ensures (forall i :: 0 <= i < |es| ==> es[i].cell != cell) ==> RowAt(ApplyAll(out, es), cell) == RowAt(out, cell)
  {
    hide Row.Plus;
    ApplyNone(out);
    ApplyFew(out, es);
  }

  lemma FirstSeenSnoc(observed: seq<D.Key>, capacity: nat, key: D.Key)
    ensures D.FirstSeen(observed + [key], capacity) ==
      var before := D.FirstSeen(observed, capacity);
      if key in D.Recent(before, capacity) then before else before + [key]
  {
    assert (observed + [key])[..|observed|] == observed;
  }

  lemma RecentAgain(history: seq<D.Key>, capacity: nat, key: D.Key)
    ensures D.Recent(D.Recent(history, capacity) + [key], capacity) == D.Recent(history + [key], capacity)
  {
  }

  /** Every peer's tracker after one more payload: only the payload's own peer moves, and only if it counts. */
  lemma TrackersMove(capacity: nat, core: Core, core': Core, t: seq<Payload>, p: Payload, own: Option<u32>)
    requires forall scope :: TrackerOk(core, Counted(capacity, t, scope), scope)
    requires forall scope :: scope != own ==> !Counts(capacity, t, p, scope)
    requires !p.Dropped?
    requires core'.trackers == if Counts(capacity, t, p, own)
                               then core.trackers[own := T.Observe(ExpectedAt(core, own), SequenceOf(p)).0]
                               else core.trackers
    ensures forall scope :: TrackerOk(core', Counted(capacity, t + [p], scope), scope)
  {
    hide Counted, Counts, T.Observe, T.AccountOf;
    forall scope
      ensures TrackerOk(core', Counted(capacity, t + [p], scope), scope)
    {
      var run := Counted(capacity, t, scope);
      CountedSnoc(capacity, t, p, scope);
      assert TrackerOk(core, run, scope) && run + [] == run;
      if scope == own && Counts(capacity, t, p, own) {
        TrackerMoves(core, core', run, scope, SequenceOf(p));
      }
    }
  }

  /** One user payload: it is news exactly when it is not among the remembered ones, its report is the one against its
      own peer's furthest position, and the state stands for the longer history. */
  lemma UserObserved(cfg: Config, core: Core, out: Out, t: seq<Payload>, p: Payload)
    requires Ledger(cfg, core, out, t) && p.User?
    ensures var seen := ObserveUser(cfg, core, p.serviceId, p.pathId, p.sequence, |p.payload|, p.scope);
      && seen.news == (if IsNews(cfg.capacity, t, KeyOf(p))
                       then Some(Report(Counted(cfg.capacity, t, p.scope), p.sequence)) else None)
      && Ledger(cfg, seen.core, ApplyAll(out, seen.effects), t + [p])
      && forall cell :: RowAt(ApplyAll(out, seen.effects), cell) == RowAt(out, cell).Plus(RowFrom(cfg, t, p, cell))
  {
    hide UserKeys, ReservedIn, Counted, Rows, ApplyAll, T.Observe, T.AccountOf, D.FirstSeen, D.Recent, Report;
    hide RowFrom, DuplicateEffects, ReceiveRow, RowAt, Row.Plus;
    var seen := ObserveUser(cfg, core, p.serviceId, p.pathId, p.sequence, |p.payload|, p.scope);
    ListsSnoc(t, p);
    FirstSeenSnoc(UserKeys(t), cfg.capacity, KeyOf(p));
    RecentAgain(D.FirstSeen(UserKeys(t), cfg.capacity), cfg.capacity, KeyOf(p));
    ObserveReports(Counted(cfg.capacity, t, p.scope), p.sequence);
    assert TrackerOk(core, Counted(cfg.capacity, t, p.scope), p.scope);
    TrackersMove(cfg.capacity, core, seen.core, t, p, p.scope);
    forall cell
      ensures RowAt(ApplyAll(out, seen.effects), cell) == RowAt(out, cell).Plus(RowFrom(cfg, t, p, cell))
      ensures !OfService(cell) ==> RowAt(ApplyAll(out, seen.effects), cell) == Rows(cfg, t + [p], cell)
    {
      RowsSnoc(cfg, t, p, cell);
      UserCounts(cfg, core, out, t, p, cell);
    }
  }

  lemma UserCounts(cfg: Config, core: Core, out: Out, t: seq<Payload>, p: Payload, cell: Cell)
    requires p.User? && core.window == D.Recent(D.FirstSeen(UserKeys(t), cfg.capacity), cfg.capacity)
    requires T.Observe(ExpectedAt(core, p.scope), p.sequence).1 == Report(Counted(cfg.capacity, t, p.scope), p.sequence)
    ensures var seen := ObserveUser(cfg, core, p.serviceId, p.pathId, p.sequence, |p.payload|, p.scope);
      RowAt(ApplyAll(out, seen.effects), cell) == RowAt(out, cell).Plus(RowFrom(cfg, t, p, cell))
  {
    hide UserKeys, Counted, T.Observe, T.AccountOf, D.FirstSeen, D.Recent, Report, Row.Plus, T.Unwrap, ApplyAll, RowAt;
    var seen := ObserveUser(cfg, core, p.serviceId, p.pathId, p.sequence, |p.payload|, p.scope);
    ReportLate(Counted(cfg.capacity, t, p.scope), p.sequence);
    BumpsAdd(out, seen.effects, cell);
    PlusZero(RowAt(out, cell));
    if seen.news.Some? {
      assert seen.effects[0].cell == PathCell(p.pathId);
    } else {
      assert seen.effects[0].cell == PathCell(p.pathId) && seen.effects[0].row == DuplicateRow(cfg, p, 1, |p.payload|);
      assert seen.effects[1].row == DuplicateRow(cfg, p, 0, 0);
      assert seen.effects[2].row == DuplicateRow(cfg, p, 1, |p.payload|);
    }
  }

  lemma ReportLate(run: seq<u64>, s: u64)
    ensures Report(run, s).outOfOrder <==> Report(run, s).late
  {
    hide T.AccountOf, T.Unwrap;
  }

  /** One payload for Gatherlink: queued once, behind the earlier ones, and counted in its peer's account. */
  lemma ReservedObserved(cfg: Config, core: Core, out: Out, t: seq<Payload>, e: Event)
    requires Ledger(cfg, core, out, t)
    ensures Ledger(cfg, ReservedCore(core, e), ApplyAll(out, ReservedEffects(e)), t + [Reserved(e)])
    ensures var p, out' := Reserved(e), ApplyAll(out, ReservedEffects(e));
      forall cell :: RowAt(out', cell) == RowAt(out, cell).Plus(RowFrom(cfg, t, p, cell))
  {
    hide UserKeys, ReservedIn, Counted, Rows, T.Observe, T.AccountOf, D.FirstSeen, D.Recent, Row.Plus, RowAt, ApplyAll;
    var p := Reserved(e);
    ListsSnoc(t, p);
    TrackersMove(cfg.capacity, core, ReservedCore(core, e), t, p, e.scope);
    forall cell
      ensures RowAt(ApplyAll(out, ReservedEffects(e)), cell) == RowAt(out, cell).Plus(RowFrom(cfg, t, p, cell))
      ensures !OfService(cell) ==> RowAt(ApplyAll(out, ReservedEffects(e)), cell) == Rows(cfg, t + [p], cell)
    {
      RowsSnoc(cfg, t, p, cell);
      BumpsAdd(out, ReservedEffects(e), cell);
      PlusZero(RowAt(out, cell));
      assert ReservedEffects(e)[0].cell == ControlCell && ReservedEffects(e)[1].cell == ControlPathCell(e.pathId);
    }
  }

  /** A dropped packet is counted as one, and otherwise as if it had not come. */
  lemma DropObserved(cfg: Config, core: Core, out: Out, t: seq<Payload>, a: Arrival)
    requires Ledger(cfg, core, out, t)
    ensures Ledger(cfg, core, ApplyAll(out, DropEffects(a)), t + [Dropped(a.pathId, a.length)])
    ensures forall cell :: OfService(cell) ==> RowAt(ApplyAll(out, DropEffects(a)), cell) == RowAt(out, cell)
  {
    hide UserKeys, ReservedIn, Counted, Rows, D.FirstSeen, D.Recent, Row.Plus, RowAt, ApplyAll, ExpectedAfter;
    var p := Dropped(a.pathId, a.length);
    ListsSnoc(t, p);
    forall scope
      ensures TrackerOk(core, Counted(cfg.capacity, t + [p], scope), scope)
    {
      CountedSnoc(cfg.capacity, t, p, scope);
      var run := Counted(cfg.capacity, t, scope);
      assert run + [] == run && TrackerOk(core, run, scope);
    }
    forall cell
      ensures !OfService(cell) ==> RowAt(ApplyAll(out, DropEffects(a)), cell) == Rows(cfg, t + [p], cell)
      ensures OfService(cell) ==> RowAt(ApplyAll(out, DropEffects(a)), cell) == RowAt(out, cell)
    {
      RowsSnoc(cfg, t, p, cell);
      BumpsAdd(out, DropEffects(a), cell);
      PlusZero(RowAt(out, cell));
      assert DropEffects(a)[0].cell == DropCell && DropEffects(a)[1].cell == DropPathCell(a.pathId);
    }
  }

  lemma EmitElsewhere(cfg: Config, out: Out, serviceId: u16, pathId: u16, payload: bytes, scope: Option<u32>,
                      o: T.Observation)
    requires serviceId in cfg.services
    ensures SamePaths(out, ApplyAll(out, EmitEffects(cfg, serviceId, pathId, payload, scope, o)))
  {
    hide ReceiveRow, TargetOf, Row.Plus;
    ApplyFew(out, EmitEffects(cfg, serviceId, pathId, payload, scope, o));
  }

  // ----- the payloads of a run ------------------------------------------------

  function PayloadOf(f: Frame, sequence: u64, payload: bytes, a: Arrival, at: nat): Payload {
    if IsReserved(f.serviceId) then Reserved(Event(f.serviceId, f.pathId, sequence, payload, a.length, a.scope))
    else User(f.serviceId, f.pathId, sequence, payload, a.scope, at)
  }

  /** The payload a control or data frame brings, if it brings or completes one. */
  function SinglePayload(fragments: F.Buffers, f: Frame, a: Arrival): seq<Payload>
    requires !f.kind.Batch?
  {
    if f.kind.Control? then [Reserved(Event(f.serviceId, f.pathId, f.sequence, f.payload, a.length, a.scope))]
    else
      var result := F.Push(fragments, f).1;
      if result.Ok? && result.value.Some? then [PayloadOf(f, f.sequence, result.value.value, a, a.clock(0))] else []
  }

  /** Of the first `n` payloads of a batch those before the call fails. */
  function BatchPayloads(cfg: Config, d: Run, f: Frame, payloads: seq<bytes>, a: Arrival, n: nat): seq<Payload>
    requires n <= |payloads|
    decreases n
  {
    if n == 0 then []
    else
      BatchPayloads(cfg, d, f, payloads, a, n - 1) +
      if DeliverBatch(cfg, d, f, payloads, a, n - 1).error.Some? then []
      else [PayloadOf(f, WrappingAdd(f.sequence, n - 1), payloads[n - 1], a, a.clock(n - 1))]
  }

  function ArrivalPayloads(cfg: Config, d: Run, a: Arrival): seq<Payload> {
    if a.content.None? then [Dropped(a.pathId, a.length)]
    else
      var f := a.content.value;
      if !f.kind.Batch? then SinglePayload(d.core.fragments, f, a)
      else
        var payloads := DecodeBatch(f.payload);
        if payloads.Err? then []
        else BatchPayloads(cfg, d.(core := Learn(d.core, a)), f, payloads.value, a, |payloads.value|)
  }

  /** The payloads of the first `n` arrivals, up to the one at which the call fails. */
  function Payloads(cfg: Config, d: Run, arrivals: seq<Arrival>, n: nat): seq<Payload>
    requires n <= |arrivals|
    decreases n
  {
    if n == 0 then []
    else
      var before := ReceiveUpTo(cfg, d, arrivals, n - 1);
      Payloads(cfg, d, arrivals, n - 1) +
      if before.error.Some? then [] else ArrivalPayloads(cfg, before, arrivals[n - 1])
  }

  /** What the detailed form reports of a payload after the history `t`: a first sight of a served service. */
  function OutcomeOf(cfg: Config, t: seq<Payload>, p: Payload): seq<Outcome> {
    if p.User? && IsNews(cfg.capacity, t, KeyOf(p)) && Serves(cfg, p.serviceId) then
      [Outcome(p.serviceId, TargetOf(cfg, p.serviceId), |p.payload|, p.sequence, p.pathId)]
    else []
  }

  function OutcomesOf(cfg: Config, t: seq<Payload>, more: seq<Payload>): seq<Outcome> {
    if more == [] then []
    else
      var init, p := more[..|more| - 1], more[|more| - 1];
      OutcomesOf(cfg, t, init) + OutcomeOf(cfg, t + init, p)
  }

  lemma OutcomesOfSnoc(cfg: Config, t: seq<Payload>, more: seq<Payload>, p: Payload)
    ensures OutcomesOf(cfg, t, more + [p]) == OutcomesOf(cfg, t, more) + OutcomeOf(cfg, t + more, p)
  {
    hide OutcomeOf;
    assert (more + [p])[..|more|] == more;
  }

  lemma {:induction false} OutcomesOfAppend(cfg: Config, t: seq<Payload>, first: seq<Payload>, second: seq<Payload>)
    ensures OutcomesOf(cfg, t, first + second) == OutcomesOf(cfg, t, first) + OutcomesOf(cfg, t + first, second)
    decreases |second|
  {
    hide OutcomeOf;
    if second == [] {
      assert first + second == first;
    } else {
      var init, p := second[..|second| - 1], second[|second| - 1];
      assert second == init + [p] && first + second == first + init + [p] && t + first + init == t + (first + init);
      OutcomesOfAppend(cfg, t, first, init);
      OutcomesOfSnoc(cfg, t, first + init, p);
      OutcomesOfSnoc(cfg, t + first, init, p);
    }
  }

  lemma OneOutcome(cfg: Config, t: seq<Payload>, p: Payload)
    ensures OutcomesOf(cfg, t, [p]) == OutcomeOf(cfg, t, p) && OutcomesOf(cfg, t, []) == []
  {
    hide OutcomeOf;
    OutcomesOfSnoc(cfg, t, [], p);
    assert [] + [p] == [p] && t + [] == t;
  }

  /** The state after `more` stands for the longer history, and `more` has been reported. */
  ghost predicate TakenIn(cfg: Config, d: Run, r: Run, t: seq<Payload>, more: seq<Payload>) {
    Ledger(cfg, r.core, r.out, t + more) && r.outcomes == d.outcomes + OutcomesOf(cfg, t, more)
  }

  lemma TakenInMore(cfg: Config, d: Run, mid: Run, r: Run, t: seq<Payload>, first: seq<Payload>, second: seq<Payload>)
    requires TakenIn(cfg, d, mid, t, first) && TakenIn(cfg, mid, r, t + first, second)
    ensures TakenIn(cfg, d, r, t, first + second)
  {
    hide Ledger, OutcomesOf;
    OutcomesOfAppend(cfg, t, first, second);
    assert t + (first + second) == t + first + second;
  }

  lemma TakenInNothing(cfg: Config, d: Run, r: Run, t: seq<Payload>)
    requires Ledger(cfg, r.core, r.out, t) && r.outcomes == d.outcomes
    ensures TakenIn(cfg, d, r, t, [])
  {
    hide Ledger;
    assert t + [] == t && d.outcomes + [] == d.outcomes;
  }

  lemma PayloadTakenIn(cfg: Config, d: Run, f: Frame, sequence: u64, payload: bytes, a: Arrival, at: nat,
                       t: seq<Payload>)
    requires Ledger(cfg, d.core, d.out, t)
    ensures TakenIn(cfg, d, DeliverPayload(cfg, d, f, sequence, payload, a), t,
                    [PayloadOf(f, sequence, payload, a, at)])
  {
    hide Ledger, ApplyAll, ObserveUser, ReservedEffects, EmitEffects, TargetOf, IsNews, Report, Counted, RowFrom, RowAt;
    hide Row.Plus, OutcomesOf;
    var p := PayloadOf(f, sequence, payload, a, at);
    OneOutcome(cfg, t, p);
    assert d.outcomes + [] == d.outcomes;
    if p.Reserved? {
      ReservedObserved(cfg, d.core, d.out, t, p.event);
    } else {
      UserObserved(cfg, d.core, d.out, t, p);
      var seen := ObserveUser(cfg, d.core, p.serviceId, p.pathId, p.sequence, |p.payload|, p.scope);
      if seen.news.Some? && ServeError(cfg, p.serviceId).None? {
        var out := ApplyAll(d.out, seen.effects);
        EmitElsewhere(cfg, out, p.serviceId, p.pathId, payload, p.scope, seen.news.value);
        LedgerElsewhere(cfg, seen.core, out, seen.core, DeliverPayload(cfg, d, f, sequence, payload, a).out, t + [p]);
      }
    }
  }

  lemma {:induction false} BatchTakenIn(cfg: Config, d: Run, f: Frame, payloads: seq<bytes>, a: Arrival, n: nat,
                                        t: seq<Payload>)
    requires n <= |payloads| && Ledger(cfg, d.core, d.out, t)
    ensures TakenIn(cfg, d, DeliverBatch(cfg, d, f, payloads, a, n), t, BatchPayloads(cfg, d, f, payloads, a, n))
    decreases n
  {
    hide Ledger, DeliverPayload, PayloadOf, TakenIn;
    if n == 0 {
      TakenInNothing(cfg, d, d, t);
    } else {
      BatchTakenIn(cfg, d, f, payloads, a, n - 1, t);
      var before, more := DeliverBatch(cfg, d, f, payloads, a, n - 1), BatchPayloads(cfg, d, f, payloads, a, n - 1);
      var sequence, at := WrappingAdd(f.sequence, n - 1), a.clock(n - 1);
      assert more + [] == more;
      if before.error.None? {
        LedgerOf(cfg, d, before, t, more);
        PayloadTakenIn(cfg, before, f, sequence, payloads[n - 1], a, at, t + more);
        TakenInMore(cfg, d, before, DeliverBatch(cfg, d, f, payloads, a, n), t, more,
          [PayloadOf(f, sequence, payloads[n - 1], a, at)]);
      }
    }
  }

  lemma LedgerOf(cfg: Config, d: Run, r: Run, t: seq<Payload>, more: seq<Payload>)
    requires TakenIn(cfg, d, r, t, more)
    ensures Ledger(cfg, r.core, r.out, t + more)
  {
  }

  lemma ArrivalTakenIn(cfg: Config, d: Run, a: Arrival, t: seq<Payload>)
    requires Ledger(cfg, d.core, d.out, t)
    ensures TakenIn(cfg, d, ReceiveOne(cfg, d, a), t, ArrivalPayloads(cfg, d, a))
  {
    hide Ledger, DeliverPayload, PayloadOf, ApplyAll, F.Push, DeliverBatch, BatchPayloads, TakenIn, DeliverReserved;
    if a.content.None? {
      DropTakenIn(cfg, d, a, t);
    } else {
      var f, d1 := a.content.value, d.(core := Learn(d.core, a));
      LedgerElsewhere(cfg, d.core, d.out, d1.core, d.out, t);
      match f.kind
      case Control =>
        ReservedTakenIn(cfg, d1, Event(f.serviceId, f.pathId, f.sequence, f.payload, a.length, a.scope), t);
        SameStart(cfg, d1, d, ReceiveOne(cfg, d, a), t, ArrivalPayloads(cfg, d, a));
      case Batch =>
        var payloads := DecodeBatch(f.payload);
        if payloads.Ok? {
          BatchTakenIn(cfg, d1, f, payloads.value, a, |payloads.value|, t);
          SameStart(cfg, d1, d, ReceiveOne(cfg, d, a), t, ArrivalPayloads(cfg, d, a));
        } else {
          TakenInNothing(cfg, d, ReceiveOne(cfg, d, a), t);
        }
      case Data =>
        var (fragments, result) := F.Push(d1.core.fragments, f);
        var d2 := d1.(core := d1.core.(fragments := fragments));
        LedgerElsewhere(cfg, d1.core, d.out, d2.core, d.out, t);
        if result.Ok? && result.value.Some? {
          PayloadTakenIn(cfg, d2, f, f.sequence, result.value.value, a, a.clock(0), t);
          SameStart(cfg, d2, d, ReceiveOne(cfg, d, a), t, ArrivalPayloads(cfg, d, a));
        } else {
          TakenInNothing(cfg, d, ReceiveOne(cfg, d, a), t);
        }
    }
  }

  lemma SameStart(cfg: Config, d: Run, d': Run, r: Run, t: seq<Payload>, more: seq<Payload>)
    requires TakenIn(cfg, d, r, t, more) && d'.outcomes == d.outcomes
    ensures TakenIn(cfg, d', r, t, more)
  {
  }

  lemma ReservedTakenIn(cfg: Config, d: Run, e: Event, t: seq<Payload>)
    requires Ledger(cfg, d.core, d.out, t)
    ensures TakenIn(cfg, d, DeliverReserved(d, e), t, [Reserved(e)])
  {
    hide Ledger, ApplyAll, ReservedCore, RowFrom, RowAt, Row.Plus, OutcomesOf;
    OneOutcome(cfg, t, Reserved(e));
    assert d.outcomes + [] == d.outcomes;
    ReservedObserved(cfg, d.core, d.out, t, e);
  }

  lemma DropTakenIn(cfg: Config, d: Run, a: Arrival, t: seq<Payload>)
    requires Ledger(cfg, d.core, d.out, t)
    ensures TakenIn(cfg, d, d.(out := ApplyAll(d.out, DropEffects(a))), t, [Dropped(a.pathId, a.length)])
  {
    hide Ledger, ApplyAll, RowAt, Row.Plus, OutcomesOf;
    OneOutcome(cfg, t, Dropped(a.pathId, a.length));
    assert d.outcomes + [] == d.outcomes;
    DropObserved(cfg, d.core, d.out, t, a);
  }

  /** Over any run of arrivals the state stands for the payloads they brought: first sights, events and gap accounts
      as the history says, whatever the frames were packed into and whatever other peers sent in between; and the first
      sights of served services have been reported in order. */
  lemma {:induction false} ReceivedStandsForPayloads(cfg: Config, d: Run, arrivals: seq<Arrival>, n: nat,
                                                     t: seq<Payload>)
    requires n <= |arrivals| && Ledger(cfg, d.core, d.out, t)
    ensures TakenIn(cfg, d, ReceiveUpTo(cfg, d, arrivals, n), t, Payloads(cfg, d, arrivals, n))
    decreases n
  {
    hide Ledger, ReceiveOne, ArrivalPayloads, TakenIn;
    if n == 0 {
      TakenInNothing(cfg, d, d, t);
    } else {
      ReceivedStandsForPayloads(cfg, d, arrivals, n - 1, t);
      var before, more := ReceiveUpTo(cfg, d, arrivals, n - 1), Payloads(cfg, d, arrivals, n - 1);
      assert more + [] == more;
      if before.error.None? {
        LedgerOf(cfg, d, before, t, more);
        ArrivalTakenIn(cfg, before, arrivals[n - 1], t + more);
        TakenInMore(cfg, d, before, ReceiveUpTo(cfg, d, arrivals, n), t, more,
          ArrivalPayloads(cfg, before, arrivals[n - 1]));
      }
    }
  }

  // ----- what the service sockets send ----------------------------------------

  /** What the events have handed on for a served service, in order, as its socket sends it. */
  function Sent(cfg: Config, es: seq<R.Event>, serviceId: u16): seq<Emission> {
    if es == [] then []
    else
      var init, e := es[..|es| - 1], es[|es| - 1];
      Sent(cfg, init, serviceId) +
      if R.KeyOf(e).serviceId == serviceId && Serves(cfg, serviceId)
      then EmissionsFor(cfg, serviceId, R.KeyOf(e).peerScope, R.Step(R.After(init), e).1) else []
  }

  lemma SentSnoc(cfg: Config, es: seq<R.Event>, e: R.Event, serviceId: u16)
    ensures Sent(cfg, es + [e], serviceId) ==
            Sent(cfg, es, serviceId) +
            if R.KeyOf(e).serviceId == serviceId && Serves(cfg, serviceId)
            then EmissionsFor(cfg, serviceId, R.KeyOf(e).peerScope, R.Step(R.After(es), e).1) else []
  {
    hide R.Step, R.After;
    assert (es + [e])[..|es|] == es;
  }

  /** Every service socket has sent exactly what the buffers handed on for it, in that order. */
  ghost predicate AllSent(cfg: Config, out: Out, es: seq<R.Event>) {
    forall s :: EmittedBy(out, s) == Sent(cfg, es, s)
  }

  lemma SentAlready(cfg: Config, out: Out, out': Out, es: seq<R.Event>)
    requires AllSent(cfg, out, es) && out'.emitted == out.emitted
    ensures AllSent(cfg, out', es)
  {
    hide Sent;
    forall s
      ensures EmittedBy(out', s) == Sent(cfg, es, s)
    {
      assert EmittedBy(out, s) == Sent(cfg, es, s);
    }
  }

  lemma {:induction false} BumpsSendNothing(out: Out, es: seq<Effect>)
    requires forall i :: 0 <= i < |es| ==> es[i].Bump?
    ensures ApplyAll(out, es).emitted == out.emitted
    decreases |es|
  {
    hide RowAt, Row.Plus;
    if es == [] {
    } else {
      BumpsSendNothing(out, es[..|es| - 1]);
    }
  }

  lemma EmitSendsOne(cfg: Config, out: Out, serviceId: u16, pathId: u16, payload: bytes, scope: Option<u32>,
                     o: T.Observation)
    requires serviceId in cfg.services
    ensures var out' := ApplyAll(out, EmitEffects(cfg, serviceId, pathId, payload, scope, o));
      forall s :: EmittedBy(out', s) ==
        if s == serviceId then EmittedBy(out, s) + [EmissionOf(cfg, serviceId, scope, payload)] else EmittedBy(out, s)
  {
    hide ReceiveRow, TargetOf, Row.Plus, RowAt;
    ApplyFew(out, EmitEffects(cfg, serviceId, pathId, payload, scope, o));
  }

  /** Emitting without an error sends every item, through its own service's socket only. */
  lemma {:induction false} EmitSends(cfg: Config, d: Run, serviceId: u16, scope: Option<u32>, items: seq<R.Item>,
                                     n: nat)
    requires n <= |items| && EmitUpTo(cfg, d, serviceId, scope, items, n).error.None?
    ensures n > 0 ==> Serves(cfg, serviceId)
    ensures var out' := EmitUpTo(cfg, d, serviceId, scope, items, n).out;
      forall s :: EmittedBy(out', s) == EmittedBy(d.out, s) +
        if s == serviceId && Serves(cfg, serviceId) then EmissionsFor(cfg, serviceId, scope, items[..n]) else []
    decreases n
  {
    hide ApplyAll, EmitEffects, EmissionOf, TargetOf, EmittedBy;
    var out' := EmitUpTo(cfg, d, serviceId, scope, items, n).out;
    if n == 0 {
      forall s
        ensures EmittedBy(out', s) == EmittedBy(d.out, s) +
          if s == serviceId && Serves(cfg, serviceId) then EmissionsFor(cfg, serviceId, scope, items[..n]) else []
      {
        assert EmittedBy(d.out, s) + [] == EmittedBy(d.out, s);
        assert serviceId in cfg.services ==> EmissionsFor(cfg, serviceId, scope, items[..0]) == [];
      }
    } else {
      EmitSends(cfg, d, serviceId, scope, items, n - 1);
      var before, e := EmitUpTo(cfg, d, serviceId, scope, items, n - 1).out, items[n - 1].1;
      EmitSendsOne(cfg, before, serviceId, e.pathId, e.payload, scope, e.observation);
      assert EmissionsFor(cfg, serviceId, scope, items[..n]) ==
        EmissionsFor(cfg, serviceId, scope, items[..n - 1]) + [EmissionOf(cfg, serviceId, scope, e.payload)];
      forall s
        ensures EmittedBy(out', s) == EmittedBy(d.out, s) +
          if s == serviceId then EmissionsFor(cfg, serviceId, scope, items[..n]) else []
      {
        assert EmittedBy(before, s) == EmittedBy(d.out, s) +
          if s == serviceId then EmissionsFor(cfg, serviceId, scope, items[..n - 1]) else [];
      }
    }
  }

  // ----- what the emissions count ---------------------------------------------

  /** What emitting one item adds to a row of its service. */
  function ItemRow(serviceId: u16, item: R.Item, cell: Cell): Row {
    var e := item.1;
    if cell == ServiceCell(serviceId, true) || cell == ServicePathCell(serviceId, true, e.pathId) then
      Row(1, |e.payload|, 1, |e.payload|, if e.observation.outOfOrder then 1 else 0,
          if e.observation.outOfOrder then 1 else e.observation.missing, 0, 0)
    else ZERO
  }

  function ItemsRow(serviceId: u16, items: seq<R.Item>, cell: Cell): Row {
    if items == [] then ZERO
    else ItemsRow(serviceId, items[..|items| - 1], cell).Plus(ItemRow(serviceId, items[|items| - 1], cell))
  }

  /** A row's share of everything the events handed on for served services. */
  function HandedRows(cfg: Config, es: seq<R.Event>, cell: Cell): Row {
    if es == [] then ZERO
    else
      var init, e := es[..|es| - 1], es[|es| - 1];
      var before := HandedRows(cfg, init, cell);
      if Serves(cfg, R.KeyOf(e).serviceId)
      then before.Plus(ItemsRow(R.KeyOf(e).serviceId, R.Step(R.After(init), e).1, cell)) else before
  }

  /** The rows of the services add up: duplicates turned away, and payloads sent. */
  ghost predicate RowsSent(cfg: Config, out: Out, t: seq<Payload>, es: seq<R.Event>) {
    forall cell :: OfService(cell) ==> RowAt(out, cell) == Rows(cfg, t, cell).Plus(HandedRows(cfg, es, cell))
  }

  lemma HandedRowsSnoc(cfg: Config, es: seq<R.Event>, e: R.Event, cell: Cell)
    ensures HandedRows(cfg, es + [e], cell) ==
      var before := HandedRows(cfg, es, cell);
      if Serves(cfg, R.KeyOf(e).serviceId)
      then before.Plus(ItemsRow(R.KeyOf(e).serviceId, R.Step(R.After(es), e).1, cell)) else before
  {
    hide R.Step, R.After, ItemsRow, Row.Plus;
    assert (es + [e])[..|es|] == es;
  }

  lemma PlusOrder(a: Row, b: Row, c: Row)
    ensures a.Plus(b).Plus(c) == a.Plus(c).Plus(b) && a.Plus(b).Plus(c) == a.Plus(b.Plus(c))
  {
  }

  /** A piece of reception adds to the rows what it says, whatever has been sent. */
  lemma RowsObserved(cfg: Config, out: Out, out': Out, t: seq<Payload>, p: Payload, es: seq<R.Event>)
    requires RowsSent(cfg, out, t, es)
    requires forall cell :: OfService(cell) ==> RowAt(out', cell) == RowAt(out, cell).Plus(RowFrom(cfg, t, p, cell))
    ensures RowsSent(cfg, out', t + [p], es)
  {
    hide RowAt, Rows, HandedRows, RowFrom, Row.Plus;
    forall cell | OfService(cell)
      ensures RowAt(out', cell) == Rows(cfg, t + [p], cell).Plus(HandedRows(cfg, es, cell))
    {
      RowsSnoc(cfg, t, p, cell);
      PlusOrder(Rows(cfg, t, cell), HandedRows(cfg, es, cell), RowFrom(cfg, t, p, cell));
    }
  }

  lemma EmitCounts(cfg: Config, out: Out, serviceId: u16, scope: Option<u32>, item: R.Item, cell: Cell)
    requires serviceId in cfg.services
    ensures var e := item.1;
      RowAt(ApplyAll(out, EmitEffects(cfg, serviceId, e.pathId, e.payload, scope, e.observation)), cell) ==
      RowAt(out, cell).Plus(ItemRow(serviceId, item, cell))
  {
    hide TargetOf, Row.Plus;
    var e := item.1;
    ApplyFew(out, EmitEffects(cfg, serviceId, e.pathId, e.payload, scope, e.observation));
    PlusZero(RowAt(out, cell));
  }

  lemma {:induction false} EmitCountsAll(cfg: Config, d: Run, serviceId: u16, scope: Option<u32>, items: seq<R.Item>,
                                         n: nat, cell: Cell)
    requires n <= |items| && EmitUpTo(cfg, d, serviceId, scope, items, n).error.None?
    ensures RowAt(EmitUpTo(cfg, d, serviceId, scope, items, n).out, cell) ==
            RowAt(d.out, cell).Plus(ItemsRow(serviceId, items[..n], cell))
    decreases n
  {
    hide ApplyAll, EmitEffects, TargetOf, RowAt, ItemRow, Row.Plus;
    if n == 0 {
      PlusZero(RowAt(d.out, cell));
    } else {
      EmitCountsAll(cfg, d, serviceId, scope, items, n - 1, cell);
      var before := EmitUpTo(cfg, d, serviceId, scope, items, n - 1).out;
      EmitCounts(cfg, before, serviceId, scope, items[n - 1], cell);
      PlusOrder(RowAt(d.out, cell), ItemsRow(serviceId, items[..n - 1], cell), ItemRow(serviceId, items[n - 1], cell));
      assert items[..n][..n - 1] == items[..n - 1];
    }
  }

  lemma EventCounts(cfg: Config, d: Run, t: seq<Payload>, es: seq<R.Event>, e: R.Event)
    requires RowsSent(cfg, d.out, t, es)
    requires EmitAll(cfg, d, R.KeyOf(e).serviceId, R.KeyOf(e).peerScope, R.Step(R.After(es), e).1).error.None?
    ensures var ready := R.Step(R.After(es), e).1;
      RowsSent(cfg, EmitAll(cfg, d, R.KeyOf(e).serviceId, R.KeyOf(e).peerScope, ready).out, t, es + [e])
  {
    hide EmitUpTo, R.Step, R.After, Serves, HandedRows, RowAt, Rows, Row.Plus, ItemsRow, EmissionsFor, EmittedBy;
    var key, ready := R.KeyOf(e), R.Step(R.After(es), e).1;
    var out' := EmitAll(cfg, d, key.serviceId, key.peerScope, ready).out;
    EmitSends(cfg, d, key.serviceId, key.peerScope, ready, |ready|);
    assert ready[..|ready|] == ready;
    forall cell | OfService(cell)
      ensures RowAt(out', cell) == Rows(cfg, t, cell).Plus(HandedRows(cfg, es + [e], cell))
    {
      EmitCountsAll(cfg, d, key.serviceId, key.peerScope, ready, |ready|, cell);
      HandedRowsSnoc(cfg, es, e, cell);
      PlusOrder(Rows(cfg, t, cell), HandedRows(cfg, es, cell), ItemsRow(key.serviceId, ready, cell));
      if ready == [] {
        NoItemsRow(key.serviceId, cell);
        PlusZero(RowAt(d.out, cell));
      }
    }
  }

  lemma NoItemsRow(serviceId: u16, cell: Cell)
    ensures ItemsRow(serviceId, [], cell) == ZERO
  {
  }

  /** One event of the buffers, and the emission of what it hands on. */
  lemma EventSends(cfg: Config, d: Run, es: seq<R.Event>, e: R.Event)
    requires AllSent(cfg, d.out, es)
    requires EmitAll(cfg, d, R.KeyOf(e).serviceId, R.KeyOf(e).peerScope, R.Step(R.After(es), e).1).error.None?
    ensures var ready := R.Step(R.After(es), e).1;
      AllSent(cfg, EmitAll(cfg, d, R.KeyOf(e).serviceId, R.KeyOf(e).peerScope, ready).out, es + [e])
  {
    hide EmitUpTo, R.Step, R.After, EmissionsFor, Serves, Sent, EmittedBy;
    var key, ready := R.KeyOf(e), R.Step(R.After(es), e).1;
    var out' := EmitAll(cfg, d, key.serviceId, key.peerScope, ready).out;
    EmitSends(cfg, d, key.serviceId, key.peerScope, ready, |ready|);
    assert ready[..|ready|] == ready;
    forall s
      ensures EmittedBy(out', s) == Sent(cfg, es + [e], s)
    {
      SentSnoc(cfg, es, e, s);
      assert EmittedBy(d.out, s) == Sent(cfg, es, s);
    }
  }

  lemma EmitAllNeedsNone(cfg: Config, d: Run, serviceId: u16, scope: Option<u32>, items: seq<R.Item>)
    requires EmitAll(cfg, d, serviceId, scope, items).error.None?
    ensures d.error.None?
  {
    if d.error.Some? {
      ErrorEndsEmission(cfg, d, serviceId, scope, items, 0, |items|);
    }
  }

  // ----- the production receiver ----------------------------------------------

  function HeldBatchPayloads(cfg: Config, h: Held, f: Frame, payloads: seq<bytes>, a: Arrival, n: nat): seq<Payload>
    requires n <= |payloads|
    decreases n
  {
    if n == 0 then []
    else
      HeldBatchPayloads(cfg, h, f, payloads, a, n - 1) +
      if HeldBatch(cfg, h, f, payloads, a, n - 1).run.error.Some? then []
      else [PayloadOf(f, WrappingAdd(f.sequence, n - 1), payloads[n - 1], a, a.clock(n - 1))]
  }

  /** As for the detailed form, but a user batch may be refused before any of it is looked at. */
  function HeldArrivalPayloads(cfg: Config, h: Held, a: Arrival): seq<Payload> {
    if a.content.None? then [Dropped(a.pathId, a.length)]
    else
      var f := a.content.value;
      if !f.kind.Batch? then SinglePayload(h.run.core.fragments, f, a)
      else
        var payloads, d := DecodeBatch(f.payload), h.run.(core := Learn(h.run.core, a));
        if payloads.Err? then []
        else if IsReserved(f.serviceId) then BatchPayloads(cfg, d, f, payloads.value, a, |payloads.value|)
        else if BatchGate(cfg, f).Some? then []
        else HeldBatchPayloads(cfg, h.(run := d), f, payloads.value, a, |payloads.value|)
  }

  function HeldPayloads(cfg: Config, h: Held, arrivals: seq<Arrival>, n: nat): seq<Payload>
    requires n <= |arrivals|
    decreases n
  {
    if n == 0 then []
    else
      var before := HeldUpTo(cfg, h, arrivals, n - 1);
      HeldPayloads(cfg, h, arrivals, n - 1) +
      if before.run.error.Some? then [] else HeldArrivalPayloads(cfg, before, arrivals[n - 1])
  }

  /** What a payload after the history `t` does to the reorder buffers: a first sight arrives there with its report. */
  function EventOf(cfg: Config, t: seq<Payload>, p: Payload): seq<R.Event> {
    if p.User? && IsNews(cfg.capacity, t, KeyOf(p)) then
      [R.Arrived(ArrivalFor(cfg, p.serviceId, p.pathId, p.sequence, p.payload, p.scope,
                            Report(Counted(cfg.capacity, t, p.scope), p.sequence), p.at))]
    else []
  }

  function EventsOf(cfg: Config, t: seq<Payload>, more: seq<Payload>): seq<R.Event> {
    if more == [] then []
    else
      var init, p := more[..|more| - 1], more[|more| - 1];
      EventsOf(cfg, t, init) + EventOf(cfg, t + init, p)
  }

  /** The receiver stands for a history of payloads, its reorder buffers for the events of that history, and unless the
      call failed everything those handed on has been sent and counted. */
  ghost predicate StandsFor(cfg: Config, h: Held, t: seq<Payload>, es: seq<R.Event>) {
    && Ledger(cfg, h.run.core, h.run.out, t) && h.reorder == R.After(es)
    && (h.run.error.None? ==> AllSent(cfg, h.run.out, es) && RowsSent(cfg, h.run.out, t, es))
  }

  /** Every receiver begins with nothing. */
  lemma FreshStandsFor(cfg: Config, outcomes: seq<Outcome>)
    ensures var d := Run(Core(map[], [], map[], [], map[]), Out(map[], map[]), outcomes, None);
      StandsFor(cfg, Held(d, map[]), [], [])
  {
    hide Ledger, AllSent, RowsSent;
    FreshLedger(cfg, map[], map[], map[]);
    NothingYet(cfg);
  }

  lemma NothingYet(cfg: Config)
    ensures AllSent(cfg, Out(map[], map[]), []) && RowsSent(cfg, Out(map[], map[]), [], [])
  {
    hide RowAt, Rows, HandedRows, EmittedBy, Sent, Row.Plus;
    var out := Out(map[], map[]);
    PlusZero(ZERO);
    forall s: u16
      ensures EmittedBy(out, s) == Sent(cfg, [], s)
    {
      EmptyRows(cfg, s, DropCell);
    }
    forall cell | OfService(cell)
      ensures RowAt(out, cell) == Rows(cfg, [], cell).Plus(HandedRows(cfg, [], cell))
    {
      EmptyRows(cfg, 0, cell);
    }
  }

  lemma EmptyRows(cfg: Config, s: u16, cell: Cell)
    ensures EmittedBy(Out(map[], map[]), s) == Sent(cfg, [], s) == []
    ensures RowAt(Out(map[], map[]), cell) == Rows(cfg, [], cell) == HandedRows(cfg, [], cell) == ZERO
  {
    hide R.Step, R.After, RowFrom, ItemsRow, EmissionsFor, Serves;
  }

  lemma {:induction false} EmitAllElsewhere(cfg: Config, d: Run, serviceId: u16, scope: Option<u32>,
                                            items: seq<R.Item>, n: nat)
    requires n <= |items|
    ensures var r := EmitUpTo(cfg, d, serviceId, scope, items, n);
      r.core == d.core && SamePaths(d.out, r.out)
    decreases n
  {
    hide ApplyAll, EmitEffects, TargetOf, RowAt;
    if n == 0 {
    } else {
      EmitAllElsewhere(cfg, d, serviceId, scope, items, n - 1);
      var before, e := EmitUpTo(cfg, d, serviceId, scope, items, n - 1), items[n - 1].1;
      if before.error.None? && ServeError(cfg, serviceId).None? {
        EmitElsewhere(cfg, before.out, serviceId, e.pathId, e.payload, scope, e.observation);
      }
    }
  }

  lemma AfterSnoc(es: seq<R.Event>, e: R.Event)
    ensures R.After(es + [e]) == R.Step(R.After(es), e).0
  {
    hide R.Step;
    assert (es + [e])[..|es|] == es;
  }

  lemma HeldUserStandsFor(cfg: Config, h: Held, p: Payload, t: seq<Payload>, es: seq<R.Event>)
    requires StandsFor(cfg, h, t, es) && p.User?
    ensures var h' := HeldUser(cfg, h, p.serviceId, p.pathId, p.sequence, p.payload, p.scope, p.at);
      StandsFor(cfg, h', t + [p], es + EventOf(cfg, t, p))
  {
    hide Ledger, ApplyAll, ObserveUser, R.Arrive, R.After, Report, Counted, IsNews, EmitUpTo, AllSent, RowsSent;
    hide RowFrom, RowAt, Row.Plus;
    UserObserved(cfg, h.run.core, h.run.out, t, p);
    var seen := ObserveUser(cfg, h.run.core, p.serviceId, p.pathId, p.sequence, |p.payload|, p.scope);
    var d := h.run.(core := seen.core, out := ApplyAll(h.run.out, seen.effects));
    BumpsSendNothing(h.run.out, seen.effects);
    if h.run.error.None? {
      SentAlready(cfg, h.run.out, d.out, es);
      RowsObserved(cfg, h.run.out, d.out, t, p, es);
    }
    assert es + [] == es;
    if seen.news.Some? {
      var a := ArrivalFor(cfg, p.serviceId, p.pathId, p.sequence, p.payload, p.scope, seen.news.value, p.at);
      var ready := R.Arrive(h.reorder, a).1;
      AfterSnoc(es, R.Arrived(a));
      EmitAllElsewhere(cfg, d, p.serviceId, p.scope, ready, |ready|);
      LedgerElsewhere(cfg, d.core, d.out, d.core, EmitAll(cfg, d, p.serviceId, p.scope, ready).out, t + [p]);
      if EmitAll(cfg, d, p.serviceId, p.scope, ready).error.None? {
        EmitAllNeedsNone(cfg, d, p.serviceId, p.scope, ready);
        EventSends(cfg, d, es, R.Arrived(a));
        EventCounts(cfg, d, t + [p], es, R.Arrived(a));
      }
    }
  }

  lemma EventsOfSnoc(cfg: Config, t: seq<Payload>, more: seq<Payload>, p: Payload)
    ensures EventsOf(cfg, t, more + [p]) == EventsOf(cfg, t, more) + EventOf(cfg, t + more, p)
  {
    hide EventOf;
    assert (more + [p])[..|more|] == more;
  }

  lemma NoEvents(cfg: Config, t: seq<Payload>, es: seq<R.Event>)
    ensures t + [] == t && es + EventsOf(cfg, t, []) == es
  {
  }

  /** One more payload of a longer stretch. */
  lemma StretchGrows(cfg: Config, h: Held, t: seq<Payload>, es: seq<R.Event>, more: seq<Payload>, p: Payload)
    requires StandsFor(cfg, h, t + more + [p], es + EventsOf(cfg, t, more) + EventOf(cfg, t + more, p))
    ensures StandsFor(cfg, h, t + (more + [p]), es + EventsOf(cfg, t, more + [p]))
  {
    hide StandsFor, EventsOf, EventOf;
    EventsOfSnoc(cfg, t, more, p);
    assert t + (more + [p]) == t + more + [p];
    assert es + (EventsOf(cfg, t, more) + EventOf(cfg, t + more, p)) ==
      es + EventsOf(cfg, t, more) + EventOf(cfg, t + more, p);
  }

  lemma {:induction false} HeldBatchStandsFor(cfg: Config, h: Held, f: Frame, payloads: seq<bytes>, a: Arrival, n: nat,
                                              t: seq<Payload>, es: seq<R.Event>)
    requires n <= |payloads| && StandsFor(cfg, h, t, es) && !IsReserved(f.serviceId)
    ensures var more := HeldBatchPayloads(cfg, h, f, payloads, a, n);
      StandsFor(cfg, HeldBatch(cfg, h, f, payloads, a, n), t + more, es + EventsOf(cfg, t, more))
    decreases n
  {
    hide StandsFor, EventsOf, EventOf, HeldUser;
    if n == 0 {
      NoEvents(cfg, t, es);
    } else {
      HeldBatchStandsFor(cfg, h, f, payloads, a, n - 1, t, es);
      var before, more := HeldBatch(cfg, h, f, payloads, a, n - 1), HeldBatchPayloads(cfg, h, f, payloads, a, n - 1);
      assert more + [] == more;
      if before.run.error.None? {
        var p := PayloadOf(f, WrappingAdd(f.sequence, n - 1), payloads[n - 1], a, a.clock(n - 1));
        HeldUserStandsFor(cfg, before, p, t + more, es + EventsOf(cfg, t, more));
        StretchGrows(cfg, HeldBatch(cfg, h, f, payloads, a, n), t, es, more, p);
      }
    }
  }

  lemma ReservedIsNoEvent(cfg: Config, t: seq<Payload>, more: seq<Payload>, f: Frame, sequence: u64, payload: bytes,
                          a: Arrival, at: nat)
    requires IsReserved(f.serviceId)
    ensures EventsOf(cfg, t, more + [PayloadOf(f, sequence, payload, a, at)]) == EventsOf(cfg, t, more)
  {
    hide EventsOf, Counted, IsNews, Report;
    EventsOfSnoc(cfg, t, more, PayloadOf(f, sequence, payload, a, at));
  }

  lemma OneEvent(cfg: Config, t: seq<Payload>, p: Payload)
    ensures EventsOf(cfg, t, [p]) == EventOf(cfg, t, p)
  {
    hide EventOf;
    EventsOfSnoc(cfg, t, [], p);
    assert [] + [p] == [p] && t + [] == t;
  }

  /** Payloads for Gatherlink leave the reorder buffers alone. */
  lemma {:induction false} ReservedBatchBringsNoEvents(cfg: Config, d: Run, f: Frame, payloads: seq<bytes>, a: Arrival,
                                                       n: nat, t: seq<Payload>)
    requires n <= |payloads| && IsReserved(f.serviceId)
    ensures EventsOf(cfg, t, BatchPayloads(cfg, d, f, payloads, a, n)) == []
    decreases n
  {
    hide DeliverBatch, EventsOf, PayloadOf, WrappingAdd;
    NoEvents(cfg, t, []);
    if n == 0 {
    } else {
      ReservedBatchBringsNoEvents(cfg, d, f, payloads, a, n - 1, t);
      var more := BatchPayloads(cfg, d, f, payloads, a, n - 1);
      assert more + [] == more;
      ReservedIsNoEvent(cfg, t, more, f, WrappingAdd(f.sequence, n - 1), payloads[n - 1], a, a.clock(n - 1));
    }
  }

  lemma StandsElsewhere(cfg: Config, h: Held, h': Held, t: seq<Payload>, es: seq<R.Event>)
    requires StandsFor(cfg, h, t, es) && h'.reorder == h.reorder && h'.run.out == h.run.out
    requires h'.run.core.window == h.run.core.window && h'.run.core.events == h.run.core.events
    requires h'.run.core.trackers == h.run.core.trackers && (h'.run.error.None? ==> h.run.error.None?)
    ensures StandsFor(cfg, h', t, es)
  {
    hide Ledger, R.After, AllSent, RowsSent;
    LedgerElsewhere(cfg, h.run.core, h.run.out, h'.run.core, h'.run.out, t);
  }

  lemma ReservedStandsFor(cfg: Config, h: Held, e: Event, t: seq<Payload>, es: seq<R.Event>)
    requires StandsFor(cfg, h, t, es)
    ensures StandsFor(cfg, h.(run := DeliverReserved(h.run, e)), t + [Reserved(e)], es)
  {
    hide Ledger, ApplyAll, R.After, AllSent, ReservedCore, RowsSent, RowFrom, RowAt, Row.Plus;
    ReservedObserved(cfg, h.run.core, h.run.out, t, e);
    BumpsSendNothing(h.run.out, ReservedEffects(e));
    if h.run.error.None? {
      SentAlready(cfg, h.run.out, DeliverReserved(h.run, e).out, es);
      RowsObserved(cfg, h.run.out, DeliverReserved(h.run, e).out, t, Reserved(e), es);
    }
  }

  lemma DropStandsFor(cfg: Config, h: Held, a: Arrival, t: seq<Payload>, es: seq<R.Event>)
    requires StandsFor(cfg, h, t, es)
    ensures StandsFor(cfg, h.(run := h.run.(out := ApplyAll(h.run.out, DropEffects(a)))),
                      t + [Dropped(a.pathId, a.length)], es)
  {
    hide Ledger, ApplyAll, R.After, AllSent, RowsSent, RowAt, Row.Plus;
    var p, out' := Dropped(a.pathId, a.length), ApplyAll(h.run.out, DropEffects(a));
    DropObserved(cfg, h.run.core, h.run.out, t, a);
    BumpsSendNothing(h.run.out, DropEffects(a));
    if h.run.error.None? {
      SentAlready(cfg, h.run.out, out', es);
      forall cell | OfService(cell)
        ensures RowAt(out', cell) == RowAt(h.run.out, cell).Plus(RowFrom(cfg, t, p, cell))
      {
        PlusZero(RowAt(h.run.out, cell));
      }
      RowsObserved(cfg, h.run.out, out', t, p, es);
    }
  }

  lemma HeldSingleStandsFor(cfg: Config, h: Held, f: Frame, a: Arrival, t: seq<Payload>, es: seq<R.Event>)
    requires StandsFor(cfg, h, t, es) && !f.kind.Batch?
    ensures var more := SinglePayload(h.run.core.fragments, f, a);
      StandsFor(cfg, HeldFrame(cfg, h, f, a), t + more, es + EventsOf(cfg, t, more))
  {
    hide StandsFor, ApplyAll, F.Push, HeldUser, EventsOf, DeliverReserved, Counted, IsNews, Report;
    var more := SinglePayload(h.run.core.fragments, f, a);
    NoEvents(cfg, t, es);
    if more != [] {
      OneEvent(cfg, t, more[0]);
    }
    if f.kind.Control? {
      ReservedStandsFor(cfg, h, more[0].event, t, es);
    } else {
      var (fragments, result) := F.Push(h.run.core.fragments, f);
      var h1 := Held(h.run.(core := h.run.core.(fragments := fragments)), h.reorder);
      StandsElsewhere(cfg, h, h1, t, es);
      if result.Err? {
        StandsElsewhere(cfg, h1, h1.(run := h1.run.(error := Some(result.error))), t, es);
      } else if more != [] && more[0].Reserved? {
        ReservedStandsFor(cfg, h1, more[0].event, t, es);
      } else if more != [] {
        HeldUserStandsFor(cfg, h1, more[0], t, es);
      }
    }
  }

  lemma {:induction false} ReservedBatchStandsFor(cfg: Config, h: Held, f: Frame, payloads: seq<bytes>, a: Arrival,
                                                  n: nat, t: seq<Payload>, es: seq<R.Event>)
    requires StandsFor(cfg, h, t, es) && IsReserved(f.serviceId) && n <= |payloads|
    ensures var more := BatchPayloads(cfg, h.run, f, payloads, a, n);
      StandsFor(cfg, h.(run := DeliverBatch(cfg, h.run, f, payloads, a, n)), t + more, es)
    decreases n
  {
    hide StandsFor, DeliverReserved;
    if n == 0 {
      assert t + [] == t;
    } else {
      ReservedBatchStandsFor(cfg, h, f, payloads, a, n - 1, t, es);
      var before := h.(run := DeliverBatch(cfg, h.run, f, payloads, a, n - 1));
      var more := BatchPayloads(cfg, h.run, f, payloads, a, n - 1);
      var e := Event(f.serviceId, f.pathId, WrappingAdd(f.sequence, n - 1), payloads[n - 1], a.length, a.scope);
      assert more + [] == more && t + (more + [Reserved(e)]) == t + more + [Reserved(e)];
      ReservedStandsFor(cfg, before, e, t + more, es);
    }
  }

  lemma HeldArrivalStandsFor(cfg: Config, h: Held, a: Arrival, t: seq<Payload>, es: seq<R.Event>)
    requires StandsFor(cfg, h, t, es)
    ensures var more := HeldArrivalPayloads(cfg, h, a);
      StandsFor(cfg, HeldOne(cfg, h, a), t + more, es + EventsOf(cfg, t, more))
  {
    hide StandsFor, ApplyAll, F.Push, EventsOf, HeldBatch, DeliverBatch, SinglePayload, BatchPayloads, BatchGate;
    hide HeldDataFrame, HeldBatchPayloads;
    NoEvents(cfg, t, es);
    if a.content.None? {
      DropStandsFor(cfg, h, a, t, es);
      OneEvent(cfg, t, Dropped(a.pathId, a.length));
    } else {
      var f, h1 := a.content.value, Held(h.run.(core := Learn(h.run.core, a)), h.reorder);
      StandsElsewhere(cfg, h, h1, t, es);
      if !f.kind.Batch? {
        HeldSingleStandsFor(cfg, h1, f, a, t, es);
      } else {
        var payloads := DecodeBatch(f.payload);
        if payloads.Ok? && IsReserved(f.serviceId) {
          ReservedBatchStandsFor(cfg, h1, f, payloads.value, a, |payloads.value|, t, es);
          ReservedBatchBringsNoEvents(cfg, h1.run, f, payloads.value, a, |payloads.value|, t);
        } else if payloads.Ok? && BatchGate(cfg, f).None? {
          HeldBatchStandsFor(cfg, h1, f, payloads.value, a, |payloads.value|, t, es);
        } else {
          StandsElsewhere(cfg, h1, HeldOne(cfg, h, a), t, es);
        }
      }
    }
  }

  lemma {:induction false} EventsOfAppend(cfg: Config, t: seq<Payload>, first: seq<Payload>, second: seq<Payload>)
    ensures EventsOf(cfg, t, first + second) == EventsOf(cfg, t, first) + EventsOf(cfg, t + first, second)
    decreases |second|
  {
    hide EventOf, EventsOf;
    if second == [] {
      NoEvents(cfg, t + first, EventsOf(cfg, t, first));
      assert first + second == first;
    } else {
      var init, p := second[..|second| - 1], second[|second| - 1];
      assert second == init + [p] && first + second == first + init + [p] && t + first + init == t + (first + init);
      EventsOfAppend(cfg, t, first, init);
      EventsOfSnoc(cfg, t, first + init, p);
      EventsOfSnoc(cfg, t + first, init, p);
    }
  }

  /** The production receiver over any run of arrivals: as for the detailed form, and its reorder buffers are those of
      the first sights, each arriving with the report of its own peer's account. */
  lemma {:induction false} HeldStandsForPayloads(cfg: Config, h: Held, arrivals: seq<Arrival>, n: nat, t: seq<Payload>,
                                                 es: seq<R.Event>)
    requires n <= |arrivals| && StandsFor(cfg, h, t, es)
    ensures var more := HeldPayloads(cfg, h, arrivals, n);
      StandsFor(cfg, HeldUpTo(cfg, h, arrivals, n), t + more, es + EventsOf(cfg, t, more))
    decreases n
  {
    hide StandsFor, HeldOne, HeldArrivalPayloads, EventsOf;
    if n == 0 {
      NoEvents(cfg, t, es);
    } else {
      HeldStandsForPayloads(cfg, h, arrivals, n - 1, t, es);
      var before, more := HeldUpTo(cfg, h, arrivals, n - 1), HeldPayloads(cfg, h, arrivals, n - 1);
      assert more + [] == more;
      if before.run.error.None? {
        HeldArrivalStandsFor(cfg, before, arrivals[n - 1], t + more, es + EventsOf(cfg, t, more));
        var last := HeldArrivalPayloads(cfg, before, arrivals[n - 1]);
        EventsOfAppend(cfg, t, more, last);
        assert t + (more + last) == t + more + last;
        assert es + (EventsOf(cfg, t, more) + EventsOf(cfg, t + more, last)) ==
          es + EventsOf(cfg, t, more) + EventsOf(cfg, t + more, last);
      }
    }
  }

  /** A sweep is one event of the reorder buffers and no payload. */
  lemma SweepStandsFor(cfg: Config, h: Held, key: R.Key, now: nat, t: seq<Payload>, es: seq<R.Event>)
    requires StandsFor(cfg, h, t, es)
    ensures StandsFor(cfg, SweepOne(cfg, h, key, now), t, es + [R.Swept(key, now, cfg.holds)])
  {
    hide Ledger, R.Expire, R.After, EmitUpTo, AllSent, RowsSent;
    var ready, e := R.Expire(h.reorder, key, now, cfg.holds).1, R.Swept(key, now, cfg.holds);
    AfterSnoc(es, e);
    EmitAllElsewhere(cfg, h.run, key.serviceId, key.peerScope, ready, |ready|);
    LedgerElsewhere(cfg, h.run.core, h.run.out, h.run.core, SweepOne(cfg, h, key, now).run.out, t);
    if SweepOne(cfg, h, key, now).run.error.None? {
      EmitAllNeedsNone(cfg, h.run, key.serviceId, key.peerScope, ready);
      EventSends(cfg, h.run, es, e);
      EventCounts(cfg, h.run, t, es, e);
    }
  }
}
