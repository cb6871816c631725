/** The dataplane object's two transmit methods, and the proof that the grouped one refines the simple one. */
module Transmitter {
  import opened Bytes
  import opened FrameCodec
  import opened Envelope
  import opened Plans
  import opened Security
  import opened Transmit

  // ----- packets of a list of groups ------------------------------------------

  function FramesOf(plans: seq<FramePlan>): (s: seq<Frame>)
    ensures |s| == |plans|
  {
    seq(|plans|, i requires 0 <= i < |plans| => plans[i].frame)
  }

  function Cat(packets: seq<seq<bytes>>): (s: seq<bytes>) {
    if packets == [] then [] else Cat(packets[..|packets| - 1]) + packets[|packets| - 1]
  }

  lemma CatSnoc(packets: seq<seq<bytes>>, p: seq<bytes>)
    ensures Cat(packets + [p]) == Cat(packets) + p
  {
    assert (packets + [p])[..|packets|] == packets;
  }

  lemma CatEmpty()
    ensures Cat([]) == []
  {
  }

  /** Each reserved range yields its group's packets. */
  ghost predicate PacketsOk(a: Aead, groups: seq<Group>, protections: seq<Protection>, packets: seq<seq<bytes>>) {
    && |protections| == |packets| <= |groups|
    && forall j :: 0 <= j < |packets| ==>
      ProtectedAs(a, protections[j], Enumerate(FramesOf(groups[j].plans)), packets[j])
  }

  lemma JobsAppend(x: seq<FramePlan>, y: seq<FramePlan>)
    ensures JobsOf(x + y) == JobsOf(x) + JobsOf(y)
  {
  }

  /** Reserving one group's range is protecting its frames one by one. */
  lemma ReserveOneGroup(env: Env, sec0: Security, sec: Security, g: Group)
    requires GroupOk(env, sec0, g) && SameSelection(sec0, sec)
    ensures var batch := ReserveBatch(sec, g.serviceId, g.sessionKey, |g.plans|);
      var each := ProtectEach(env.aead, sec, JobsOf(g.plans));
      && (batch.Ok? <==> each.Ok?) && (batch.Err? ==> batch.error == each.error)
      && (batch.Ok? ==>
            && batch.value.0 == each.value.0
            && ProtectedAs(env.aead, batch.value.1, Enumerate(FramesOf(g.plans)), each.value.1))
  {
    hide ProtectEach, ReserveBatch, ProtectReserved, ResolveKey, Route, FirstScope, SameSelection;
    var jobs := JobsOf(g.plans);
    forall i | 0 <= i < |jobs| ensures ResolveKey(sec, jobs[i].serviceId, jobs[i].explicit) == g.sessionKey {
      RouteKept(env, sec0, sec, g.plans[i]);
    }
    ReservedBatchMatchesEach(env.aead, sec, jobs, g.sessionKey);
  }

  function GroupRequests(g: Group, packets: seq<bytes>): (s: seq<Send>)
    ensures |s| == |packets|
  {
    seq(|packets|, i requires 0 <= i < |packets| => Send(g.pathId, g.remote, packets[i]))
  }

  lemma RequestsOfGroup(env: Env, sec: Security, g: Group, packets: seq<bytes>)
    requires GroupOk(env, sec, g) && |packets| == |g.plans|
    ensures Requests(env, sec, g.plans, packets) == GroupRequests(g, packets)
  {
    hide Route, KeyOf;
  }

  lemma RequestsAppend(env: Env, sec: Security, x: seq<FramePlan>, px: seq<bytes>, y: seq<FramePlan>, py: seq<bytes>)
    requires |px| == |x| && |py| == |y|
    requires forall i :: 0 <= i < |x| ==> Route(env, sec, x[i]).Some?
    requires forall i :: 0 <= i < |y| ==> Route(env, sec, y[i]).Some?
    ensures forall i :: 0 <= i < |x + y| ==> Route(env, sec, (x + y)[i]).Some?
    ensures Requests(env, sec, x + y, px + py) == Requests(env, sec, x, px) + Requests(env, sec, y, py)
  {
    hide Route;
  }

  lemma GroupsHaveRoutes(env: Env, sec: Security, groups: seq<Group>, j: nat)
    requires GroupsOk(env, sec, groups) && j <= |groups|
    ensures forall i :: 0 <= i < |Flatten(groups[..j])| ==> Route(env, sec, Flatten(groups[..j])[i]).Some?
    decreases j
  {
    hide Route, KeyOf, Flatten;
    if j == 0 {
      FlattenEmpty();
    } else {
      GroupsHaveRoutes(env, sec, groups, j - 1);
      assert groups[..j] == groups[..j - 1] + [groups[j - 1]];
      FlattenSnoc(groups[..j - 1], groups[j - 1]);
    }
  }

  // ----- where a failed call stops --------------------------------------------

  /** Counter ranges taken for one group after another: how many groups get theirs before the first that does not, and
      the security state then. */
  function Reserving(sec: Security, groups: seq<Group>): (r: (nat, Security))
    ensures r.0 <= |groups|
  {
    if groups == [] then (0, sec)
    else
      var n := |groups| - 1;
      var (k, before) := Reserving(sec, groups[..n]);
      if k < n then (k, before)
      else
        var next := ReserveBatch(before, groups[n].serviceId, groups[n].sessionKey, |groups[n].plans|);
        if next.Err? then (k, before) else (k + 1, next.value.0)
  }

  lemma ReservingSnoc(sec: Security, groups: seq<Group>, g: Group)
    ensures var (k, before) := Reserving(sec, groups);
      Reserving(sec, groups + [g]) ==
      if k < |groups| then (k, before)
      else
        var next := ReserveBatch(before, g.serviceId, g.sessionKey, |g.plans|);
        if next.Err? then (k, before) else (k + 1, next.value.0)
  {
    hide ReserveBatch;
    assert (groups + [g])[..|groups|] == groups;
  }

  lemma {:induction false} ReservingStops(sec: Security, groups: seq<Group>, j: nat)
    requires j <= |groups| && Reserving(sec, groups[..j]).0 < j
    ensures Reserving(sec, groups) == Reserving(sec, groups[..j])
    decreases |groups| - j
  {
    hide Reserving, ReserveBatch;
    if j == |groups| {
      assert groups[..j] == groups;
    } else {
      assert groups[..j + 1] == groups[..j] + [groups[j]];
      ReservingSnoc(sec, groups[..j], groups[j]);
      ReservingStops(sec, groups, j + 1);
    }
  }

  /** The plans whose counters a call takes: those of the groups before the first whose range cannot be taken. */
  ghost function TakenPlans(env: Env, sec: Security, plans: seq<FramePlan>): nat {
    if AllGroupable(env, sec, plans) then
      var groups := Grouping(env, sec, plans);
      |Flatten(groups[..Reserving(sec, groups).0])|
    else 0
  }

  /** How many plans come before the first whose path has no socket. */
  function Reached(sockets: Sockets, plans: seq<FramePlan>): (n: nat)
    ensures n <= |plans|
  {
    if plans == [] || plans[0].path.id !in sockets then 0 else 1 + Reached(sockets, plans[1..])
  }

  lemma {:induction false} ReachedAt(sockets: Sockets, plans: seq<FramePlan>, n: nat)
    requires n < |plans| && plans[n].path.id !in sockets && forall i :: 0 <= i < n ==> plans[i].path.id in sockets
    ensures Reached(sockets, plans) == n
    decreases |plans|
  {
    if n == 0 {
    } else {
      ReachedAt(sockets, plans[1..], n - 1);
    }
  }

  /** The plans a call hands to their sockets: none unless all counters are taken. */
  ghost function SentPlans(env: Env, st: TxState, plans: seq<FramePlan>): nat {
    if TakenPlans(env, st.security, plans) < |plans| then 0 else Reached(st.sockets, plans)
  }

  /** Exactly the counters of these plans have been taken. */
  ghost predicate TakenFor(a: Aead, sec: Security, sec': Security, plans: seq<FramePlan>) {
    var each := ProtectEach(a, sec, JobsOf(plans));
    each.Ok? && sec' == each.value.0
  }

  /** A failed call has taken counters for the first `taken` plans and handed the first `sent` to their sockets. Before
      any is sent all are taken, and then only a path without a socket stops it, at plan `sent`. */
  ghost predicate StoppedAt(env: Env, st: TxState, st': TxState, plans: seq<FramePlan>, taken: nat, sent: nat) {
    && sent <= taken <= |plans| && TakenFor(env.aead, st.security, st'.security, plans[..taken])
    && Deliverable(env, st, plans[..sent])
    && st'.sockets == Delivered(env, st, plans[..sent]).sockets && st'.wire == Delivered(env, st, plans[..sent]).wire
    && (sent > 0 ==> taken == |plans|)
    && (taken == |plans| ==> sent < |plans| && plans[sent].path.id !in st.sockets)
  }

  /** Why: the first plan that cannot be grouped, or else the first that cannot be protected, or else the missing
      socket. */
  ghost predicate StoppedFor(env: Env, st: TxState, plans: seq<FramePlan>, taken: nat, sent: nat, e: DataplaneError) {
    if AllGroupable(env, st.security, plans) then
      var each := ProtectEach(env.aead, st.security, JobsOf(plans));
      if each.Err? then e == Crypto(each.error) && taken < |plans|
      else taken == |plans| && sent < |plans| && e == MissingPathTransport(plans[sent].path.id)
    else taken == 0 && FirstUngroupable(env, st.security, plans, e)
  }

  /** Both, at the places the inputs determine. */
  ghost predicate Stopped(env: Env, st: TxState, st': TxState, plans: seq<FramePlan>, e: DataplaneError) {
    var taken, sent := TakenPlans(env, st.security, plans), SentPlans(env, st, plans);
    StoppedAt(env, st, st', plans, taken, sent) && StoppedFor(env, st, plans, taken, sent, e)
  }

  lemma StoppedAtGrouping(env: Env, st: TxState, plans: seq<FramePlan>, e: DataplaneError)
    requires FirstUngroupable(env, st.security, plans, e)
    ensures !Deliverable(env, st, plans) && Stopped(env, st, st, plans, e)
  {
    hide Groupable, ProtectEach, StoppedAt, Sendable, Reserving;
    var i :| 0 <= i < |plans| && AllGroupable(env, st.security, plans[..i]) && !Groupable(env, st.security, plans[i]);
    NotGroupable(env, st, plans);
    StoppedUnsent(env, st, st.security, plans, 0);
  }

  lemma StoppedAtCounters(env: Env, st: TxState, groups: seq<Group>, sec: Security, e: DataplaneError)
    requires var plans := Flatten(groups);
      && AllGroupable(env, st.security, plans) && groups == Grouping(env, st.security, plans)
      && GroupsOk(env, st.security, groups)
      && ProtectEach(env.aead, st.security, JobsOf(plans)).Err?
      && e == Crypto(ProtectEach(env.aead, st.security, JobsOf(plans)).error)
    requires var k := Reserving(st.security, groups).0;
      k < |groups| && TakenFor(env.aead, st.security, sec, Flatten(groups[..k]))
    ensures !Deliverable(env, st, Flatten(groups)) && Stopped(env, st, st.(security := sec), Flatten(groups), e)
  {
    hide Groupable, ProtectEach, StoppedAt, Sendable, Reserving, Flatten, Grouping, GroupOk, TakenFor;
    var plans, k := Flatten(groups), Reserving(st.security, groups).0;
    NotProtectable(env, st, plans);
    GroupsArePrefix(groups, k);
    GroupIsNotEmpty(env, st.security, groups[k]);
    StoppedUnsent(env, st, sec, plans, |Flatten(groups[..k])|);
  }

  lemma StoppedUnsent(env: Env, st: TxState, sec: Security, plans: seq<FramePlan>, taken: nat)
    requires taken < |plans|
    requires TakenFor(env.aead, st.security, sec, plans[..taken]) || (taken == 0 && sec == st.security)
    ensures StoppedAt(env, st, st.(security := sec), plans, taken, 0)
  {
    hide Sendable, Route;
    assert plans[..0] == [] && JobsOf([]) == [] && st.wire + [] == st.wire;
  }

  lemma GroupsArePrefix(groups: seq<Group>, j: nat)
    requires j <= |groups|
    ensures |Flatten(groups[..j])| <= |Flatten(groups)|
    ensures Flatten(groups)[..|Flatten(groups[..j])|] == Flatten(groups[..j])
    ensures j < |groups| && groups[j].plans != [] ==>
      |Flatten(groups[..j])| < |Flatten(groups)| && Flatten(groups)[|Flatten(groups[..j])|] == groups[j].plans[0]
  {
    hide Flatten;
    FlattenSplit(groups, j);
    if j < |groups| {
      FlattenSplit(groups, j + 1);
      assert groups[..j + 1] == groups[..j] + [groups[j]];
      FlattenSnoc(groups[..j], groups[j]);
    }
  }

  lemma GroupIsNotEmpty(env: Env, sec: Security, g: Group)
    requires GroupOk(env, sec, g)
    ensures g.plans != [] && g.plans[0].path.id == g.pathId
  {
    hide Route, KeyOf;
  }

  lemma ReservingNone(sec: Security)
    ensures Reserving(sec, []) == (0, sec)
  {
  }

  class CoreTransmitter {
    const env: Env
    var security: Security
    var sockets: Sockets
    /** Everything the path sockets have been handed, in order. */
    var wire: seq<Send>

    constructor (env: Env, security: Security, sockets: Sockets)
      ensures this.env == env && State() == TxState(security, sockets, [])
    {
      this.env, this.security, this.sockets, this.wire := env, security, sockets, [];
    }

    ghost function State(): TxState
      reads this
    {
      TxState(security, sockets, wire)
    }

    // ----- one at a time ------------------------------------------------------

    method ReportDatagrams(plan: FramePlan) returns (outcomes: seq<Outcome>, all: bool)
      ensures (outcomes, all) == Reports(env, plan, plan.datagrams)
    {
      hide ReportTarget, OutcomeOf, Reports;
      outcomes, all := [], true;
      ghost var whole := Reports(env, plan, plan.datagrams);
      assert plan.datagrams[0..] == plan.datagrams && [] + whole.0 == whole.0;
      for k := 0 to |plan.datagrams|
        invariant all
        invariant var rest := Reports(env, plan, plan.datagrams[k..]); whole == (outcomes + rest.0, rest.1)
      {
        var d := plan.datagrams[k];
        ReportsStep(env, plan, plan.datagrams[k..]);
        if ReportTarget(env, plan, d).None? {
          assert outcomes + [] == outcomes;
          all := false;
          return;
        }
        ghost var rest := Reports(env, plan, plan.datagrams[k + 1..]).0;
        assert plan.datagrams[k..][1..] == plan.datagrams[k + 1..];
        assert outcomes + ([OutcomeOf(env, plan, d)] + rest) == outcomes + [OutcomeOf(env, plan, d)] + rest;
        outcomes := outcomes + [OutcomeOf(env, plan, d)];
      }
      ReportsStep(env, plan, []);
      assert plan.datagrams[|plan.datagrams|..] == [];
      assert outcomes + [] == outcomes;
    }

    method TrySendPathFrame(plan: FramePlan) returns (error: Option<DataplaneError>)
      requires EncodedV1Len(plan.frame) <= plan.path.mtu
      modifies this`security, this`sockets, this`wire
      ensures var run := TransmitOne(env, old(State()), plan);
        && State() == run.state
        && (error.Some? ==> run == Failed(State(), error.value))
        && (error.None? ==>
              && run.outcomes == Reports(env, plan, plan.datagrams).0
              && run.error == if Reports(env, plan, plan.datagrams).1 then None else Some(NoPathAvailable))
    {
      hide ProtectFrame, SendOne, KeyOf, Reports;
      var protected := ProtectFrame(env.aead, security, plan.frame.serviceId, FirstScope(plan.datagrams), plan.frame);
      if protected.Err? {
        return Some(Crypto(protected.error));
      }
      security := protected.value.0;
      var learned := LearnedFor(env, KeyOf(security, plan), plan.path.id);
      if plan.path.id !in sockets {
        return Some(MissingPathTransport(plan.path.id));
      }
      var remote := learned.Or(sockets[plan.path.id].remote);
      if remote.None? {
        return Some(MissingPathRemote(plan.path.id));
      }
      var (after, sent) := SendOne(env.aead, sockets, Send(plan.path.id, remote.value, protected.value.1));
      sockets := after;
      wire := wire + [sent];
      error := None;
    }

    method TransmitPlannedFrames(plans: seq<FramePlan>) returns (r: Result<seq<Outcome>, DataplaneError>)
      modifies this`security, this`sockets, this`wire
      ensures var run := TransmitUpTo(env, old(State()), plans, |plans|);
        State() == run.state && r == if run.error.None? then Ok(run.outcomes) else Err(run.error.value)
    {
      hide TransmitOne, Reports, EncodedV1Len;
      ghost var start := State();
      var outcomes := [];
      for i := 0 to |plans|
        invariant TransmitUpTo(env, start, plans, i) == Run(State(), outcomes, None)
      {
        var plan := plans[i];
        ghost var one := TransmitOne(env, State(), plan);
        if EncodedV1Len(plan.frame) > plan.path.mtu {
          TooLong(env, State(), plan);
          ErrorPersists(env, start, plans, i + 1, |plans|);
          return Err(FrameExceedsPathMtu(plan.path.id, EncodedV1Len(plan.frame), plan.path.mtu));
        }
        var error := TrySendPathFrame(plan);
        if error.Some? {
          assert one.error == Some(error.value);
          ErrorPersists(env, start, plans, i + 1, |plans|);
          return Err(error.value);
        }
        var reported, all := ReportDatagrams(plan);
        if !all {
          ErrorPersists(env, start, plans, i + 1, |plans|);
          return Err(NoPathAvailable);
        }
        outcomes := outcomes + reported;
      }
      r := Ok(outcomes);
    }

    // ----- grouped ------------------------------------------------------------

    /** Takes a counter range per group, in group order, before anything is encrypted. If one cannot be taken, those of
        the groups before it stay taken, and no other. */
    method ReserveGroups(groups: seq<Group>)
      returns (r: Result<seq<Protection>, DataplaneError>, ghost packets: seq<seq<bytes>>)
      requires GroupsOk(env, security, groups)
      modifies this`security
      ensures r.Ok? <==> ProtectEach(env.aead, old(security), JobsOf(Flatten(groups))).Ok?
      ensures r.Ok? ==>
        && |packets| == |groups| && PacketsOk(env.aead, groups, r.value, packets)
        && ProtectEach(env.aead, old(security), JobsOf(Flatten(groups))) == Ok((security, Cat(packets)))
      ensures security == Reserving(old(security), groups).1
      ensures r.Ok? <==> Reserving(old(security), groups).0 == |groups|
      ensures r.Err? ==>
        && TakenFor(env.aead, old(security), security, Flatten(groups[..Reserving(old(security), groups).0]))
        && r.error == Crypto(ProtectEach(env.aead, old(security), JobsOf(Flatten(groups))).error)
    {
      hide ProtectEach, ReserveBatch, Flatten, Cat, ProtectedAs, SameSelection, GroupOk, Reserving;
      ghost var sec0 := security;
      var protections := [];
      packets := [];
      ReservingNone(security);
      FlattenEmpty();
      CatEmpty();
      assert JobsOf([]) == [];
      ProtectNothing(env.aead, sec0);
      for j := 0 to |groups|
        invariant |packets| == j && PacketsOk(env.aead, groups, protections, packets)
        invariant ProtectEach(env.aead, sec0, JobsOf(Flatten(groups[..j]))) == Ok((security, Cat(packets)))
        invariant Reserving(sec0, groups[..j]) == (j, security)
      {
        var g := groups[j];
        assert groups[..j + 1] == groups[..j] + [g];
        FlattenSnoc(groups[..j], g);
        ReservingSnoc(sec0, groups[..j], g);
        JobsAppend(Flatten(groups[..j]), g.plans);
        ProtectEachKeepsSelection(env.aead, sec0, JobsOf(Flatten(groups[..j])));
        ReserveOneGroup(env, sec0, security, g);
        ProtectEachAppend(env.aead, sec0, JobsOf(Flatten(groups[..j])), JobsOf(g.plans));
        var reserved := ReserveBatch(security, g.serviceId, g.sessionKey, |g.plans|);
        if reserved.Err? {
          FlattenSplit(groups, j + 1);
          ghost var rest :| Flatten(groups) == Flatten(groups[..j + 1]) + rest;
          JobsAppend(Flatten(groups[..j + 1]), rest);
          ProtectEachAppend(env.aead, sec0, JobsOf(Flatten(groups[..j + 1])), JobsOf(rest));
          ReservingStops(sec0, groups, j + 1);
          return Err(Crypto(reserved.error)), packets;
        }
        ghost var fresh0 := ProtectEach(env.aead, security, JobsOf(g.plans)).value.1;
        CatSnoc(packets, fresh0);
        packets := packets + [fresh0];
        protections := protections + [reserved.value.1];
        security := reserved.value.0;
      }
      assert groups[..|groups|] == groups;
      r := Ok(protections);
    }

    /** Sends one group's packets through its socket, wrapping each for the relay hop if there is one. */
    method SendGroup(g: Group, packets: seq<bytes>, ghost sockets0: Sockets, ghost reqs: seq<Send>)
      requires g.pathId in sockets && sockets.Keys == sockets0.Keys
      requires forall i :: 0 <= i < |reqs| ==> reqs[i].pathId in sockets0
      requires SendEach(env.aead, sockets0, reqs).0 == sockets
      modifies this`sockets, this`wire
      ensures forall i :: 0 <= i < |reqs + GroupRequests(g, packets)| ==>
          (reqs + GroupRequests(g, packets))[i].pathId in sockets0
      ensures var (after, sent) := SendEach(env.aead, sockets0, reqs + GroupRequests(g, packets));
        && sockets == after && sockets.Keys == sockets0.Keys
        && |SendEach(env.aead, sockets0, reqs).1| <= |sent|
        && sent[..|SendEach(env.aead, sockets0, reqs).1|] == SendEach(env.aead, sockets0, reqs).1
        && wire == old(wire) + sent[|SendEach(env.aead, sockets0, reqs).1|..]
    {
      hide SendOne, SendEach;
      ghost var sent0 := SendEach(env.aead, sockets0, reqs).1;
      ghost var out: seq<Send> := [];
      assert reqs + GroupRequests(g, packets[..0]) == reqs && sent0 + out == sent0;
      for i := 0 to |packets|
        invariant sockets.Keys == sockets0.Keys && wire == old(wire) + out
        invariant forall k :: 0 <= k < |reqs + GroupRequests(g, packets[..i])| ==>
                    (reqs + GroupRequests(g, packets[..i]))[k].pathId in sockets0
        invariant SendEach(env.aead, sockets0, reqs + GroupRequests(g, packets[..i])) == (sockets, sent0 + out)
      {
        var req := Send(g.pathId, g.remote, packets[i]);
        assert reqs + GroupRequests(g, packets[..i + 1]) == reqs + GroupRequests(g, packets[..i]) + [req];
        SendEachSnoc(env.aead, sockets0, reqs + GroupRequests(g, packets[..i]), req);
        var (after, last) := SendOne(env.aead, sockets, req);
        assert sent0 + out + [last] == sent0 + (out + [last]);
        assert wire + [last] == old(wire) + (out + [last]);
        sockets := after;
        wire := wire + [last];
        out := out + [last];
      }
      assert packets[..|packets|] == packets;
    }

    /** Adds a sent group's datagrams and bytes to the running totals. */
    method RecordGroupSend(before: Summary, plans: seq<FramePlan>, ghost sofar: seq<FramePlan>)
      returns (summary: Summary)
      requires before == Totals(sofar)
      ensures summary == Totals(sofar + plans)
    {
      hide Totals;
      summary := before;
      assert sofar + plans[..0] == sofar;
      for i := 0 to |plans|
        invariant summary == Totals(sofar + plans[..i])
      {
        assert sofar + plans[..i + 1] == sofar + plans[..i] + [plans[i]];
        TotalsSnoc(sofar + plans[..i], plans[i]);
        summary := Summary(summary.packets + |plans[i].datagrams|, summary.bytes + PayloadSum(plans[i].datagrams));
      }
      assert plans[..|plans|] == plans;
    }

    /** Sends the protected groups in order. Only a path without a socket can stop it, after the first `done` groups. */
    method SendGroups(groups: seq<Group>, packets: seq<seq<bytes>>)
      returns (error: Option<DataplaneError>, summary: Summary, ghost reqs: seq<Send>, ghost done: nat)
      requires |packets| == |groups|
      modifies this`sockets, this`wire
      ensures error.None? <==> forall j :: 0 <= j < |groups| ==> groups[j].pathId in old(sockets)
      ensures done <= |groups| && forall k :: 0 <= k < done ==> groups[k].pathId in old(sockets)
      ensures if error.None? then done == |groups|
              else
                && done < |groups| && groups[done].pathId !in old(sockets)
                && error.value == MissingPathTransport(groups[done].pathId)
      ensures summary == Totals(Flatten(groups[..done])) && reqs == AllRequests(groups[..done], packets[..done])
      ensures forall i :: 0 <= i < |reqs| ==> reqs[i].pathId in old(sockets)
      ensures sockets == SendEach(env.aead, old(sockets), reqs).0
      ensures wire == old(wire) + SendEach(env.aead, old(sockets), reqs).1
    {
      hide SendEach, GroupRequests, AllRequests, Totals, Flatten;
      ghost var sockets0, wire0 := sockets, wire;
      summary, reqs := Summary(0, 0), [];
      AllRequestsEmpty();
      FlattenEmpty();
      TotalsEmpty();
      SendNothing(env.aead, sockets0);
      assert wire0 + [] == wire0;
      for j := 0 to |groups|
        invariant sockets.Keys == sockets0.Keys
        invariant forall k :: 0 <= k < j ==> groups[k].pathId in sockets0
        invariant summary == Totals(Flatten(groups[..j])) && reqs == AllRequests(groups[..j], packets[..j])
        invariant forall i :: 0 <= i < |reqs| ==> reqs[i].pathId in sockets0
        invariant sockets == SendEach(env.aead, sockets0, reqs).0
        invariant wire == wire0 + SendEach(env.aead, sockets0, reqs).1
      {
        if groups[j].pathId !in sockets {
          return Some(MissingPathTransport(groups[j].pathId)), summary, reqs, j;
        }
        ghost var sent0 := SendEach(env.aead, sockets0, reqs).1;
        SendGroup(groups[j], packets[j], sockets0, reqs);
        assert groups[..j + 1] == groups[..j] + [groups[j]] && packets[..j + 1] == packets[..j] + [packets[j]];
        AllRequestsSnoc(groups[..j], packets[..j], groups[j], packets[j]);
        FlattenSnoc(groups[..j], groups[j]);
        summary := RecordGroupSend(summary, groups[j].plans, Flatten(groups[..j]));
        reqs := reqs + GroupRequests(groups[j], packets[j]);
        ghost var sent := SendEach(env.aead, sockets0, reqs).1;
        assert sent == sent0 + sent[|sent0|..];
        assert wire0 + sent0 + sent[|sent0|..] == wire0 + (sent0 + sent[|sent0|..]);
      }
      error, done := None, |groups|;
    }

    /** Groups, reserves, protects on workers, then sends. It succeeds exactly when every plan can be sent and
        protected, and then the sockets are handed precisely the packets of one-at-a-time transmission. */
    method TransmitPlannedFramesSummary(plans: seq<FramePlan>, workers: nat)
      returns (r: Result<Summary, DataplaneError>)
      modifies this`security, this`sockets, this`wire
      ensures r.Ok? <==> Deliverable(env, old(State()), plans)
      ensures r.Ok? ==> State() == Delivered(env, old(State()), plans) && r.value == Totals(plans)
      ensures r.Err? ==> Stopped(env, old(State()), State(), plans, r.error)
      ensures r.Err? && (forall i :: 0 <= i < |plans| ==> plans[i].path.id in old(sockets)) ==> wire == old(wire)
      ensures RemotesMatch(old(sockets), plans) ==>
        var slow := TransmitUpTo(env, old(State()), plans, |plans|);
        && (slow.error.None? <==> r.Ok? && AllStrict(env, plans))
        && (slow.error.None? ==>
          State() == slow.state && r.value == Summary(|slow.outcomes|, OutcomeBytes(slow.outcomes)))
    {
      hide Deliverable, Delivered, TransmitUpTo, Totals, AllStrict, RemotesMatch, OutcomeBytes, Groupable, Flatten,
           ProtectEach, GroupOk, Cat, PacketsOk, AllRequests, SendEach, AllReports, Stopped, TakenFor,
           FirstUngroupable, Grouping, Reserving;
      ghost var start := State();
      assert RemotesMatch(old(sockets), plans) ==> DeliversUpTo(env, start, plans) by {
        if RemotesMatch(old(sockets), plans) {
          OneByOneDelivers(env, start, plans);
        }
      }
      if AllStrict(env, plans) {
        TotalsMatchOutcomes(env, plans);
      }
      var groups := GroupPlans(env, security, plans);
      if groups.Err? {
        StoppedAtGrouping(env, start, plans, groups.error);
        return Err(groups.error);
      }
      var protections, packets := ReserveGroups(groups.value);
      if protections.Err? {
        StoppedAtCounters(env, start, groups.value, security, protections.error);
        return Err(protections.error);
      }
      var protected := ProtectGroups(groups.value, protections.value, workers, packets);
      PacketCounts(env.aead, groups.value, protections.value, packets);
      var error, summary, reqs, done := SendGroups(groups.value, protected);
      PathsOfGroups(env, start.security, groups.value, start.sockets);
      if error.Some? {
        NoSocket(env, start, plans);
        StoppedSending(env, start, groups.value, protected, security, done);
        return Err(error.value);
      }
      assert groups.value[..done] == groups.value && protected[..done] == protected;
      GroupedDelivers(env, start, groups.value, protected, security);
      r := Ok(summary);
    }

    /** Encrypts each group from its own range; the ranges were reserved for exactly these frames, so none fails. */
    method ProtectGroups(groups: seq<Group>, protections: seq<Protection>, workers: nat, ghost packets: seq<seq<bytes>>)
      returns (protected: seq<seq<bytes>>)
      requires |packets| == |groups| && PacketsOk(env.aead, groups, protections, packets)
      ensures protected == packets
    {
      hide ProtectedAs;
      protected := [];
      for j := 0 to |groups|
        invariant protected == packets[..j]
      {
        var frames := FramesOf(groups[j].plans);
        ProtectedIsProtectable(env.aead, protections[j], Enumerate(frames), packets[j]);
        var items := ProtectPreparedFrameItems(env.aead, protections[j], frames, workers);
        assert items.Ok?;
        SamePackets(env.aead, protections[j], Enumerate(frames), items.value, packets[j]);
        protected := protected + [items.value];
      }
    }
  }

  lemma TotalsEmpty()
    ensures Totals([]) == Summary(0, 0)
  {
  }

  lemma TotalsSnoc(plans: seq<FramePlan>, plan: FramePlan)
    ensures Totals(plans + [plan]) ==
            Summary(Totals(plans).packets + |plan.datagrams|, Totals(plans).bytes + PayloadSum(plan.datagrams))
  {
    assert (plans + [plan])[..|plans|] == plans;
  }

  lemma PacketCounts(a: Aead, groups: seq<Group>, protections: seq<Protection>, packets: seq<seq<bytes>>)
    requires PacketsOk(a, groups, protections, packets)
    ensures forall j :: 0 <= j < |packets| ==> |packets[j]| == |groups[j].plans|
  {
    hide ProtectReserved;
  }

  lemma SamePackets(a: Aead, p: Protection, items: seq<(nat, Frame)>, x: seq<bytes>, y: seq<bytes>)
    requires ProtectedAs(a, p, items, x) && ProtectedAs(a, p, items, y)
    ensures x == y
  {
    hide ProtectReserved;
    forall k | 0 <= k < |items| ensures x[k] == y[k] {
      assert ProtectReserved(a, p, items[k].0, items[k].1) == Ok(x[k]);
    }
  }

  function AllRequests(groups: seq<Group>, packets: seq<seq<bytes>>): (s: seq<Send>)
    requires |packets| == |groups|
  {
    if groups == [] then []
    else
      var n := |groups| - 1;
      AllRequests(groups[..n], packets[..n]) + GroupRequests(groups[n], packets[n])
  }

  lemma AllRequestsEmpty()
    ensures AllRequests([], []) == []
  {
  }

  lemma AllRequestsSnoc(groups: seq<Group>, packets: seq<seq<bytes>>, g: Group, p: seq<bytes>)
    requires |packets| == |groups|
    ensures AllRequests(groups + [g], packets + [p]) == AllRequests(groups, packets) + GroupRequests(g, p)
  {
    assert (groups + [g])[..|groups|] == groups && (packets + [p])[..|groups|] == packets;
  }

  lemma NotGroupable(env: Env, st: TxState, plans: seq<FramePlan>)
    requires exists i :: 0 <= i < |plans| && !Groupable(env, st.security, plans[i])
    ensures !Deliverable(env, st, plans)
  {
    hide ProtectEach, Route, PathFrameLen;
    var i :| 0 <= i < |plans| && !Groupable(env, st.security, plans[i]);
    assert !Sendable(env, st, plans[i]);
  }

  lemma NotProtectable(env: Env, st: TxState, plans: seq<FramePlan>)
    requires ProtectEach(env.aead, st.security, JobsOf(plans)).Err?
    ensures !Deliverable(env, st, plans)
  {
  }

  lemma NoSocket(env: Env, st: TxState, plans: seq<FramePlan>)
    requires exists i :: 0 <= i < |plans| && plans[i].path.id !in st.sockets
    ensures !Deliverable(env, st, plans)
  {
    hide ProtectEach, Route, PathFrameLen;
    var i :| 0 <= i < |plans| && plans[i].path.id !in st.sockets;
    assert !Sendable(env, st, plans[i]);
  }

  /** The groups' paths are the plans' paths. */
  lemma {:induction false} PathsOfGroups(env: Env, sec: Security, groups: seq<Group>, sockets: Sockets)
    requires GroupsOk(env, sec, groups)
    ensures (forall j :: 0 <= j < |groups| ==> groups[j].pathId in sockets)
       <==> (forall i :: 0 <= i < |Flatten(groups)| ==> Flatten(groups)[i].path.id in sockets)
    decreases |groups|
  {
    hide Route, KeyOf, Flatten;
    if groups == [] {
      FlattenEmpty();
    } else {
      var init, g := groups[..|groups| - 1], groups[|groups| - 1];
      assert groups == init + [g];
      assert GroupsOk(env, sec, init);
      PathsOfGroups(env, sec, init, sockets);
      FlattenSnoc(init, g);
      assert GroupOk(env, sec, g);
      var all := Flatten(groups);
      assert all[|Flatten(init)|] == g.plans[0];
      assert forall i :: 0 <= i < |Flatten(init)| ==> all[i] == Flatten(init)[i];
    }
  }

  /** Requests taken group by group are the requests of the plans taken in order. */
  lemma {:induction false} RequestsOfGroups(env: Env, sec: Security, groups: seq<Group>, packets: seq<seq<bytes>>)
    requires GroupsOk(env, sec, groups) && |packets| == |groups|
    requires forall j :: 0 <= j < |groups| ==> |packets[j]| == |groups[j].plans|
    ensures forall i :: 0 <= i < |Flatten(groups)| ==> Route(env, sec, Flatten(groups)[i]).Some?
    ensures |Cat(packets)| == |Flatten(groups)|
    ensures AllRequests(groups, packets) == Requests(env, sec, Flatten(groups), Cat(packets))
    decreases |groups|
  {
    hide Route, KeyOf, Flatten, Cat, AllRequests;
    if groups == [] {
      FlattenEmpty();
      CatEmpty();
      AllRequestsEmpty();
    } else {
      var n := |groups| - 1;
      var g, p := groups[n], packets[n];
      assert groups == groups[..n] + [g] && packets == packets[..n] + [p];
      assert GroupsOk(env, sec, groups[..n]);
      RequestsOfGroups(env, sec, groups[..n], packets[..n]);
      FlattenSnoc(groups[..n], g);
      CatSnoc(packets[..n], p);
      AllRequestsSnoc(groups[..n], packets[..n], g, p);
      assert GroupOk(env, sec, g);
      RequestsOfGroup(env, sec, g, p);
      RequestsAppend(env, sec, Flatten(groups[..n]), Cat(packets[..n]), g.plans, p);
    }
  }

  lemma GroupedDelivers(env: Env, st: TxState, groups: seq<Group>, packets: seq<seq<bytes>>, sec: Security)
    requires GroupsOk(env, st.security, groups) && |packets| == |groups|
    requires forall i :: 0 <= i < |Flatten(groups)| ==> Groupable(env, st.security, Flatten(groups)[i])
    requires forall i :: 0 <= i < |Flatten(groups)| ==> Flatten(groups)[i].path.id in st.sockets
    requires ProtectEach(env.aead, st.security, JobsOf(Flatten(groups))) == Ok((sec, Cat(packets)))
    requires forall j :: 0 <= j < |groups| ==> |packets[j]| == |groups[j].plans|
    requires forall i :: 0 <= i < |AllRequests(groups, packets)| ==>
        AllRequests(groups, packets)[i].pathId in st.sockets
    ensures Deliverable(env, st, Flatten(groups))
    ensures var (sockets, sent) := SendEach(env.aead, st.sockets, AllRequests(groups, packets));
      Delivered(env, st, Flatten(groups)) == TxState(sec, sockets, st.wire + sent)
  {
    hide ProtectEach, SendEach, Route, KeyOf, PathFrameLen, Flatten, Cat, AllRequests, GroupOk;
    RequestsOfGroups(env, st.security, groups, packets);
  }

  lemma {:induction false} ProtectEachCount(a: Aead, sec: Security, jobs: seq<Job>)
    requires ProtectEach(a, sec, jobs).Ok?
    ensures |ProtectEach(a, sec, jobs).value.1| == |jobs|
    decreases |jobs|
  {
    hide ProtectFrame;
    if jobs == [] {
    } else {
      ProtectEachCount(a, sec, jobs[..|jobs| - 1]);
    }
  }

  lemma {:induction false} CatSplit(packets: seq<seq<bytes>>, j: nat)
    requires j <= |packets|
    ensures Cat(packets[..j]) <= Cat(packets)
    decreases |packets| - j
  {
    hide Cat;
    if j == |packets| {
      assert packets[..j] == packets;
    } else {
      assert packets[..j + 1] == packets[..j] + [packets[j]];
      CatSnoc(packets[..j], packets[j]);
      CatSplit(packets, j + 1);
    }
  }

  /** The packets of the first groups are those of protecting just these groups. */
  lemma FirstGroupsProtected(env: Env, sec0: Security, groups: seq<Group>, packets: seq<seq<bytes>>, sec: Security,
                             j: nat)
    requires j <= |groups| == |packets|
    requires ProtectEach(env.aead, sec0, JobsOf(Flatten(groups))) == Ok((sec, Cat(packets)))
    requires |Cat(packets[..j])| == |Flatten(groups[..j])|
    ensures var each := ProtectEach(env.aead, sec0, JobsOf(Flatten(groups[..j])));
        each.Ok? && each.value.1 == Cat(packets[..j])
  {
    hide ProtectEach, Flatten, Cat;
    var first := Flatten(groups[..j]);
    FlattenSplit(groups, j);
    var rest :| Flatten(groups) == first + rest;
    JobsAppend(first, rest);
    ProtectEachAppend(env.aead, sec0, JobsOf(first), JobsOf(rest));
    var each := ProtectEach(env.aead, sec0, JobsOf(first));
    ProtectEachCount(env.aead, sec0, JobsOf(first));
    CatSplit(packets, j);
    assert each.value.1 <= Cat(packets);
    assert each.value.1 == Cat(packets)[..|first|] == Cat(packets[..j]);
  }

  lemma StoppedSending(env: Env, st: TxState, groups: seq<Group>, packets: seq<seq<bytes>>, sec: Security, done: nat)
    requires GroupsOk(env, st.security, groups) && |packets| == |groups| && done < |groups|
    requires AllGroupable(env, st.security, Flatten(groups))
    requires ProtectEach(env.aead, st.security, JobsOf(Flatten(groups))) == Ok((sec, Cat(packets)))
    requires forall j :: 0 <= j < |groups| ==> |packets[j]| == |groups[j].plans|
    requires (forall k :: 0 <= k < done ==> groups[k].pathId in st.sockets) && groups[done].pathId !in st.sockets
    requires var reqs := AllRequests(groups[..done], packets[..done]);
        forall i :: 0 <= i < |reqs| ==> reqs[i].pathId in st.sockets
    requires groups == Grouping(env, st.security, Flatten(groups)) && Reserving(st.security, groups).0 == |groups|
    ensures var (sockets, sent) := SendEach(env.aead, st.sockets, AllRequests(groups[..done], packets[..done]));
      Stopped(env, st, TxState(sec, sockets, st.wire + sent), Flatten(groups),
              MissingPathTransport(groups[done].pathId))
  {
    hide ProtectEach, SendEach, Groupable, Flatten, Cat, AllRequests, GroupOk, Deliverable, Delivered, Grouping,
         Reserving, Reached;
    var plans, n := Flatten(groups), |Flatten(groups[..done])|;
    GroupsArePrefix(groups, done);
    GroupIsNotEmpty(env, st.security, groups[done]);
    RequestsOfGroups(env, st.security, groups[..done], packets[..done]);
    FirstGroupsProtected(env, st.security, groups, packets, sec, done);
    PathsOfGroups(env, st.security, groups[..done], st.sockets);
    assert forall i :: 0 <= i < n ==> plans[i] == Flatten(groups[..done])[i];
    GroupedDelivers(env, st, groups[..done], packets[..done],
                    ProtectEach(env.aead, st.security, JobsOf(Flatten(groups[..done]))).value.0);
    ReachedAt(st.sockets, plans, n);
    assert plans[..|plans|] == plans && groups[..|groups|] == groups;
  }
}
