/** The planner's running batch length is the length of the frame the coalescer later builds. */
module BurstPrediction {
  import opened Bytes
  import opened FrameCodec
  import opened Plans
  import opened Fragmentation
  import opened Planning
  import opened FrameFit

  // ----- adding one entry to a coalesced list ---------------------------------

  /** Whether the coalescer puts `e` into the frame of `group`. */
  predicate Joins(group: seq<Planned>, e: Planned)
    requires group != []
  {
    && group[0].fragment.None? && e.fragment.None?
    && e.path.id == group[0].path.id && e.peerScope == group[0].peerScope
    && GroupLen(group) + 2 + |e.payload| <= group[0].path.mtu
  }

  lemma {:induction false} JoinCountSnoc(rest: seq<Planned>, e: Planned, path: Path, scope: Option<u32>, len: nat)
    ensures var n := JoinCount(rest, path, scope, len);
      JoinCount(rest + [e], path, scope, len) ==
      if n < |rest| then n
      else if e.fragment.None? && e.path.id == path.id && e.peerScope == scope
              && len + GroupLen(rest) - V1_HEADER_LEN - 2 + 2 + |e.payload| <= path.mtu then n + 1
      else n
    decreases |rest|
  {
    hide GroupLen;
    if rest == [] {
      assert rest + [e] == [e];
      GroupLenNone();
    } else {
      assert (rest + [e])[1..] == rest[1..] + [e];
      JoinCountSnoc(rest[1..], e, path, scope, len + 2 + |rest[0].payload|);
      assert rest == [rest[0]] + rest[1..];
      GroupLenCons(rest[0], rest[1..]);
    }
  }

  lemma GroupSizeSnoc(planned: seq<Planned>, e: Planned)
    requires planned != []
    ensures GroupSize(planned + [e]) ==
            if GroupSize(planned) < |planned| then GroupSize(planned)
            else if Joins(planned, e) then |planned| + 1 else |planned|
  {
    hide GroupLen, JoinCount;
    var first, rest := planned[0], planned[1..];
    assert (planned + [e])[1..] == rest + [e];
    JoinCountSnoc(rest, e, first.path, first.peerScope, NextBatchLen(0, |first.payload|));
    assert planned == [first] + rest;
    GroupLenCons(first, rest);
  }

  function Extended(groups: seq<seq<Planned>>, e: Planned): seq<seq<Planned>>
    requires groups != [] && groups[|groups| - 1] != []
  {
    var last := groups[|groups| - 1];
    if Joins(last, e) then groups[..|groups| - 1] + [last + [e]] else groups + [[e]]
  }

  /** The coalescer works left to right: one more entry extends the last frame or starts a new one. */
  lemma {:induction false} GroupsSnoc(planned: seq<Planned>, e: Planned)
    requires planned != []
    ensures Groups(planned) != [] && Groups(planned + [e]) == Extended(Groups(planned), e)
    decreases |planned|
  {
    hide Joins, GroupSize;
    var n := GroupSize(planned);
    var all := planned + [e];
    GroupSizeSnoc(planned, e);
    if n < |planned| {
      GroupsSnoc(planned[n..], e);
      assert all[..n] == planned[..n] && all[n..] == planned[n..] + [e];
      var tail := Groups(planned[n..]);
      assert Groups(planned) == [planned[..n]] + tail;
      assert Extended([planned[..n]] + tail, e) == [planned[..n]] + Extended(tail, e);
    } else {
      assert planned[..n] == planned && planned[n..] == [];
      assert Groups(planned) == [planned];
      if Joins(planned, e) {
        assert all[..n + 1] == all && all[n + 1..] == [];
        assert Groups(all) == [all];
      } else {
        assert all[..n] == planned && all[n..] == [e];
        GroupsOfOne(e);
      }
    }
  }

  lemma GroupsOfOne(e: Planned)
    ensures Groups([e]) == [[e]] && GroupLen([e]) == NextBatchLen(0, |e.payload|)
  {
    assert [e][1..] == [] && [e][..1] == [e];
    GroupLenCons(e, []);
    assert [e] + [] == [e];
  }

  // ----- the simulation -------------------------------------------------------

  /** A burst of unscoped datagrams, one path each. */
  ghost predicate SimpleBurst(req: Request, table: map<u16, Path>) {
    && req.Valid() && req.Bursting()
    && (forall i :: 0 <= i < |req.datagrams| ==> req.datagrams[i].peerScope.None?)
    && (forall i :: 0 <= i < |req.choices| ==> |req.choices[i]| <= 1)
    && (forall i, p :: 0 <= i < |req.choices| && p in req.choices[i] ==> p.id in table && table[p.id] == p)
  }

  /** Whether the planner stays on a path at all: the scheduler allows reuse and the path is active. */
  predicate StaysOn(req: Request, path: Path) { req.policy.allowBurstReuse && path.AcceptsWholePacket() }

  /** The planner's memory: of a path it follows, the coalescer's open frame; of any other, the last datagram alone. */
  ghost predicate Predicts(req: Request, st: PlanState, table: map<u16, Path>) {
    if st.planned == [] then st.burst == NO_BURST
    else
      var groups := Groups(st.planned);
      && groups != []
      && var last := groups[|groups| - 1];
      if last[0].fragment.Some? then st.burst == NO_BURST
      else
        && last[0].peerScope.None? && st.burst.path == Some(last[0].path)
        && st.burst.batchLen == (if StaysOn(req, last[0].path) then GroupLen(last) else GroupLen([last[|last| - 1]]))
        && last[0].path.id in table && table[last[0].path.id] == last[0].path
  }

  ghost function LastGroup(planned: seq<Planned>): (g: seq<Planned>)
    requires planned != []
    ensures g != []
  {
    var groups := Groups(planned);
    assert groups != [];
    groups[|groups| - 1]
  }

  /** The planner says "can extend" exactly when the coalescer merges the entry into the open frame. */
  ghost predicate PredictionKept(st: PlanState, e: Planned)
    requires st.burst.path.Some?
  {
    && st.planned != [] && st.burst.path.value.Valid()
    && (CanExtendBatch(st.burst.path.value, st.burst.batchLen, |e.payload|) <==> Joins(LastGroup(st.planned), e))
  }

  lemma PlanOneEntry(req: Request, table: map<u16, Path>, st: PlanState, i: nat)
    requires SimpleBurst(req, table) && i < |req.datagrams| && !st.failed && BurstOk(st.burst)
    requires !PlanStep(req, st, req.datagrams[i], req.choices[i]).failed
    ensures var st' := PlanStep(req, st, req.datagrams[i], req.choices[i]);
      && |st'.planned| == |st.planned| + 1 && st'.planned[..|st.planned|] == st.planned
      && var e := st'.planned[|st.planned|];
      && e.payload == req.datagrams[i].payload && e.peerScope.None? && e.path.Valid()
      && (e.fragment.Some? <==> |e.payload| > e.path.MaxDataPayload())
      && (if KeepsPath(req.policy, st.burst, |e.payload|) then e.path == st.burst.path.value
          else e.path.id in table && table[e.path.id] == e.path)
      && st'.burst == UpdateBurst(if KeepsPath(req.policy, st.burst, |e.payload|) then st.burst else NO_BURST,
                                  e.path, |e.payload|, e.fragment.Some?)
  {
    hide CanExtendBatch, CanReuseBurstPathWithoutCoalescing, UpdateBurst;
    var d, choice := req.datagrams[i], req.choices[i];
    var paths := SelectPaths(req, st.burst, d, choice).0;
    assert |paths| == 1;
    assert paths == choice ==> paths[0] in choice;
  }

  lemma PredictionStep(req: Request, table: map<u16, Path>, st: PlanState, i: nat)
    requires SimpleBurst(req, table) && i < |req.datagrams| && !st.failed && BurstOk(st.burst)
    requires Predicts(req, st, table)
    requires !PlanStep(req, st, req.datagrams[i], req.choices[i]).failed
    ensures var st' := PlanStep(req, st, req.datagrams[i], req.choices[i]);
      && Predicts(req, st', table)
      && |st'.planned| == |st.planned| + 1
      && (st.burst.path.Some? && req.policy.allowBurstReuse ==> KeptWhenFollowed(req, st, st'.planned[|st.planned|]))
  {
    hide PlanStep, GroupLen, Groups;
    var st' := PlanStep(req, st, req.datagrams[i], req.choices[i]);
    PlanOneEntry(req, table, st, i);
    var e := st'.planned[|st.planned|];
    assert st'.planned == st.planned + [e];
    GroupsOfOne(e);
    if st.planned == [] {
      assert st'.planned == [e];
    } else {
      GroupsSnoc(st.planned, e);
      GroupLenSnoc(LastGroup(st.planned), e);
      var last := LastGroup(st.planned);
      assert LastGroup(st'.planned) == if Joins(last, e) then last + [e] else [e];
      if st.burst.path.Some? && StaysOn(req, last[0].path) {
        JoinsAsPredicted(st, e);
      }
    }
  }

  /** The planner's answer is right exactly when it follows the path, or there was nothing to merge. */
  ghost predicate KeptWhenFollowed(req: Request, st: PlanState, e: Planned)
    requires st.burst.path.Some?
  {
    && st.planned != []
    && (PredictionKept(st, e) <==> StaysOn(req, LastGroup(st.planned)[0].path) || !Joins(LastGroup(st.planned), e))
  }

  lemma {:induction false} GroupLenSnoc(group: seq<Planned>, e: Planned)
    ensures GroupLen(group + [e]) == GroupLen(group) + 2 + |e.payload|
  {
    assert PayloadsOf(group + [e]) == PayloadsOf(group) + [e.payload];
    BatchLenAppend(PayloadsOf(group), e.payload);
  }

  /** On an open frame of an active path the planner's test and the coalescer's agree. */
  lemma JoinsAsPredicted(st: PlanState, e: Planned)
    requires st.planned != [] && st.burst.path.Some? && e.path.Valid() && e.peerScope.None?
    requires var last := LastGroup(st.planned);
      && last[0].fragment.None? && last[0].peerScope.None? && st.burst.path == Some(last[0].path)
      && last[0].path.Valid() && last[0].path.AcceptsWholePacket() && st.burst.batchLen == GroupLen(last)
      && (e.path.id == last[0].path.id ==> e.path == last[0].path)
    requires e.fragment.Some? <==> |e.payload| > e.path.MaxDataPayload()
    requires CanExtendBatch(st.burst.path.value, st.burst.batchLen, |e.payload|) ==> e.path == st.burst.path.value
    ensures CanExtendBatch(st.burst.path.value, st.burst.batchLen, |e.payload|) <==> Joins(LastGroup(st.planned), e)
  {
    hide Groups;
    assert GroupLen(LastGroup(st.planned)) > 0;
  }

  /** At every point of every such burst the planner's length is as `Predicts` says, and with reuse allowed each "can
      extend" answer is kept (the datagram lands in the open frame exactly when the planner said it could) if and only
      if the path is active or the datagram does not land there. */
  lemma {:induction false} PredictionSimulatesCoalescer(req: Request, start: Counters, table: map<u16, Path>, n: nat)
    requires SimpleBurst(req, table) && n <= |req.datagrams| && !PlanUpTo(req, start, n).failed
    ensures Predicts(req, PlanUpTo(req, start, n), table)
    ensures n > 0 ==>
      var before, after := PlanUpTo(req, start, n - 1), PlanUpTo(req, start, n);
      && |after.planned| == |before.planned| + 1
      && (before.burst.path.Some? && req.policy.allowBurstReuse ==>
            KeptWhenFollowed(req, before, after.planned[|before.planned|]))
    decreases n
  {
    hide PlanStep, Groups, KeptWhenFollowed;
    if n == 0 {
    } else {
      var st := PlanUpTo(req, start, n - 1);
      PredictionSimulatesCoalescer(req, start, table, n - 1);
      PredictionStep(req, table, st, n - 1);
      PlanOneEntry(req, table, st, n - 1);
    }
  }

  lemma LastAloneIsShorter(group: seq<Planned>)
    requires group != []
    ensures GroupLen([group[|group| - 1]]) == GroupLen(group) <==> |group| == 1
  {
    hide GroupLen;
    var init, e := group[..|group| - 1], group[|group| - 1];
    assert group == init + [e] && [] + [e] == [e];
    GroupLenSnoc(init, e);
    GroupLenSnoc([], e);
    if init != [] {
      var first, d := init[..|init| - 1], init[|init| - 1];
      assert init == first + [d];
      GroupLenSnoc(first, d);
      GroupLenLeast(first);
    } else {
      assert group == [e];
    }
  }

  lemma GroupLenLeast(group: seq<Planned>)
    ensures GroupLen(group) >= GroupLen([])
  {
  }

  /** Exactly when the prediction is right: the planner's length is the open frame's if and only if it follows the path,
      or the frame holds a single datagram. */
  lemma PredictionIsExact(req: Request, start: Counters, table: map<u16, Path>, n: nat)
    requires SimpleBurst(req, table) && 0 < n <= |req.datagrams| && !PlanUpTo(req, start, n).failed
    ensures var st := PlanUpTo(req, start, n);
      && st.planned != []
      && var last := LastGroup(st.planned);
      (last[0].fragment.None? ==>
         (st.burst.batchLen == GroupLen(last) <==> StaysOn(req, last[0].path) || |last| == 1))
  {
    hide PlanUpTo, Groups, GroupLen;
    PredictionSimulatesCoalescer(req, start, table, n);
    LastAloneIsShorter(LastGroup(PlanUpTo(req, start, n).planned));
  }

  // ----- groups are frames ----------------------------------------------------

  function FramesOf(serviceId: u16, groups: seq<seq<Planned>>): (r: Option<seq<FramePlan>>)
    requires forall i :: 0 <= i < |groups| ==> groups[i] != [] && groups[i][0].path.Valid()
  {
    if groups == [] then Some([])
    else
      var frames := GroupFrames(serviceId, groups[0]);
      if frames.None? then None else Prepend(frames.value, FramesOf(serviceId, groups[1..]))
  }

  lemma {:induction false} GroupsPathsValid(planned: seq<Planned>)
    requires PathsValid(planned)
    ensures forall i :: 0 <= i < |Groups(planned)| ==> Groups(planned)[i][0].path.Valid()
    decreases |planned|
  {
    hide GroupSize;
    if planned == [] {
    } else {
      var n := GroupSize(planned);
      SuffixPathsValid(planned, n);
      assert planned[0] in planned;
      GroupsPathsValid(planned[n..]);
    }
  }

  /** The coalescer's output is one run of frames per group, in order. */
  lemma {:induction false} CoalesceBuildsGroups(serviceId: u16, planned: seq<Planned>)
    requires PathsValid(planned) && forall i :: 0 <= i < |Groups(planned)| ==> Groups(planned)[i][0].path.Valid()
    ensures Coalesce(serviceId, planned) == FramesOf(serviceId, Groups(planned))
    decreases |planned|
  {
    hide GroupSize, GroupFrames, Coalesce;
    if planned == [] {
      CoalesceEmpty(serviceId);
    } else {
      var n := GroupSize(planned);
      CoalesceStep(serviceId, planned);
      GroupsPathsValid(planned[n..]);
      CoalesceBuildsGroups(serviceId, planned[n..]);
      assert Groups(planned)[1..] == Groups(planned[n..]);
    }
  }

  /** The length both sides track is the encoded length of the batch frame. */
  lemma GroupLenIsFrameLen(serviceId: u16, group: seq<Planned>)
    requires |group| > 1 && group[0].path.Valid() && group[0].fragment.None? && GroupFrames(serviceId, group).Some?
    ensures EncodedV1Len(GroupFrames(serviceId, group).value[0].frame) == GroupLen(group)
  {
  }

  // ----- why the path must be active ------------------------------------------

  /** On a draining path the planner starts a new prediction for a datagram the coalescer merges. */
  lemma DrainingPathDefeatsPrediction()
    ensures var path := Path(1, 100, None, true, Drain);
      var one := Received([7], 0, None);
      var req := Request(300, [one, one], [[path], [path]], Policy(true, true, 4096));
      && req.Valid()
      && var st := PlanUpTo(req, Counters(map[], 1), 2);
      && !st.failed && |st.planned| == 2 && Groups(st.planned) == [st.planned]
      && st.burst.batchLen != GroupLen(st.planned)
  {
    hide Groups, GroupLen;
    var path := Path(1, 100, None, true, Drain);
    var one := Received([7], 0, None);
    var req := Request(300, [one, one], [[path], [path]], Policy(true, true, 4096));
    assert req.Valid();
    var start := Counters(map[], 1);
    var st0 := PlanState(start, NO_BURST, [], false);
    var e1 := Planned([7], 0, None, 1, 300, path, None, false);
    var e2 := e1.(sequence := 2);
    var st1 := PlanStep(req, st0, one, [path]);
    assert Copies(300, one, [path], 1, None) == [e1];
    assert [] + [e1] == [e1];
    assert st1.planned == [e1] && st1.burst == Burst(Some(path), 19, 1);
    var st2 := PlanStep(req, st1, one, [path]);
    assert Copies(300, one, [path], 2, None) == [e2];
    assert st2.planned == [e1] + [e2] && st2.burst == Burst(Some(path), 19, 1);
    PlanUpToStart(req, start);
    PlanUpToNext(req, start, 0);
    PlanUpToNext(req, start, 1);
    GroupsOfOne(e1);
    GroupsSnoc([e1], e2);
    GroupLenSnoc([e1], e2);
  }

  // ----- how long the planner stays on a path ---------------------------------

  /** Datagrams that fit any of the chosen paths whole but no two of which fit one frame, on active paths, with reuse
      allowed. */
  ghost predicate SteadyBurst(req: Request) {
    && req.Valid() && |req.datagrams| >= 2 && req.policy.allowBurstReuse && req.policy.allowNoncoalescedReuse
    && req.policy.maxPathRun > 0
    && (forall i :: 0 <= i < |req.datagrams| ==> req.datagrams[i].peerScope.None?)
    && (forall i :: 0 <= i < |req.choices| ==> |req.choices[i]| == 1 && req.choices[i][0].AcceptsWholePacket())
    && (forall i, j, c :: 0 <= i < |req.datagrams| && 0 <= j < |req.datagrams| && 0 <= c < |req.choices| ==>
          FitsAlone(req, i, j, c))
  }

  /** On the path chosen `c`-th datagram `i` fits whole, but not behind datagram `j`. */
  ghost predicate FitsAlone(req: Request, i: nat, j: nat, c: nat)
    requires i < |req.datagrams| && j < |req.datagrams| && c < |req.choices|
    requires |req.choices[c]| > 0 && req.choices[c][0].Valid()
  {
    var path, len := req.choices[c][0], |req.datagrams[i].payload|;
    len <= path.MaxDataPayload() && NextBatchLen(NextBatchLen(0, |req.datagrams[j].payload|), len) > path.mtu
  }

  /** The place of datagram `i` in its run, and the datagram that began the run. */
  function PlaceIn(i: nat, run: nat): (k: nat)
    requires run > 0
    ensures k < run && k <= i
  {
    i % run
  }

  function Leader(i: nat, run: nat): (k: nat)
    requires run > 0
    ensures k <= i
  {
    i - PlaceIn(i, run)
  }

  lemma NextInRun(n: nat, run: nat)
    requires n > 0 && run > 0
    ensures var k := PlaceIn(n - 1, run);
      if k + 1 < run then PlaceIn(n, run) == k + 1 && Leader(n, run) == Leader(n - 1, run)
      else PlaceIn(n, run) == 0 && Leader(n, run) == n
  {
    var q, r := (n - 1) / run, (n - 1) % run;
    assert n - 1 == q * run + r;
    if r + 1 < run {
      RestOf(n, q, r + 1, run);
    } else {
      assert n == (q + 1) * run;
      RestOf(n, q + 1, 0, run);
    }
  }

  lemma RestOf(n: nat, q: nat, r: nat, run: nat)
    requires r < run && n == q * run + r
    ensures n % run == r
  {
    var d := n / run - q;
    assert n == (n / run) * run + n % run;
    assert d * run == r - n % run;
    assert d >= 1 ==> d * run - run >= 0;
    assert d <= -1 ==> d * run + run <= 0;
  }

  /** After `n` datagrams: the planner is on the path named when its run began, so many datagrams into the run. */
  ghost predicate InRun(req: Request, st: PlanState, n: nat)
    requires SteadyBurst(req) && n <= |req.datagrams|
  {
    var run := req.policy.maxPathRun;
    && !st.failed && |st.planned| == n
    && (n == 0 ==> st.burst == NO_BURST)
    && (n > 0 ==>
          st.burst == Burst(Some(req.choices[Leader(n - 1, run)][0]),
                            NextBatchLen(0, |req.datagrams[n - 1].payload|), PlaceIn(n - 1, run) + 1))
    && forall i :: 0 <= i < n ==> st.planned[i].path == req.choices[Leader(i, run)][0]
  }

  lemma RunStep(req: Request, st: PlanState, n: nat)
    requires SteadyBurst(req) && n < |req.datagrams| && InRun(req, st, n) && BurstOk(st.burst)
    ensures InRun(req, PlanStep(req, st, req.datagrams[n], req.choices[n]), n + 1)
  {
    hide PlaceIn, Leader, NextBatchLen;
    var run, d, st' := req.policy.maxPathRun, req.datagrams[n], PlanStep(req, st, req.datagrams[n], req.choices[n]);
    assert FitsAlone(req, n, n, n);
    if n > 0 {
      NextInRun(n, run);
      assert FitsAlone(req, n, n - 1, Leader(n - 1, run));
      assert KeepsPath(req.policy, st.burst, |d.payload|) <==> st.burst.runLen < run;
    } else {
      LeadsFirst(run);
    }
    assert |st'.planned| == n + 1 && st'.planned[..n] == st.planned;
    assert st'.planned[n].path == req.choices[Leader(n, run)][0];
    forall i | 0 <= i < n + 1
      ensures st'.planned[i].path == req.choices[Leader(i, run)][0]
    {
      assert i < n ==> st'.planned[i] == st.planned[i];
    }
  }

  lemma LeadsFirst(run: nat)
    requires run > 0
    ensures Leader(0, run) == 0 && PlaceIn(0, run) == 0
  {
  }

  /** In such a burst each answer of the scheduler serves a whole run: datagram `i` goes where it was told for the
      datagram that began the run of `maxPathRun` that `i` belongs to. */
  lemma {:induction false} EachAnswerServesARun(req: Request, start: Counters, n: nat)
    requires SteadyBurst(req) && n <= |req.datagrams|
    ensures InRun(req, PlanUpTo(req, start, n), n)
    decreases n
  {
    hide PlanStep;
    if n == 0 {
      PlanUpToStart(req, start);
    } else {
      EachAnswerServesARun(req, start, n - 1);
      PlanUpToNext(req, start, n - 1);
      RunStep(req, PlanUpTo(req, start, n - 1), n - 1);
    }
  }
}
