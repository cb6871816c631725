/** Which session protects a frame, and protecting frames one by one or from a reserved range. */
module Security {
  import opened Bytes
  import opened FrameCodec
  import opened Envelope

  datatype Security =
    | Plain
    | Single(keys: Sender)
    | Sessions(sessions: map<u32, Sender>, serviceSessions: map<u16, u32>, defaultSession: Option<u32>)

  function SessionKeyForService(sec: Security, serviceId: u16): Option<u32> {
    match sec
    case Plain => None
    case Single(_) => None
    case Sessions(_, services, default) => if serviceId in services then Some(services[serviceId]) else default
  }

  /** An explicit session wins; otherwise the service's session or the only one there is. */
  function ResolveKey(sec: Security, serviceId: u16, explicit: Option<u32>): Option<u32> {
    explicit.Or(SessionKeyForService(sec, serviceId))
  }

  /** The sender a resolved key selects. */
  datatype Slot = Unprotected | Keyed(sender: Sender) | Missing

  function SlotOf(sec: Security, key: Option<u32>): Slot {
    match sec
    case Plain => Unprotected
    case Single(keys) => Keyed(keys)
    case Sessions(sessions, _, _) =>
      if key.Some? && key.value in sessions then Keyed(sessions[key.value]) else Missing
  }

  function WithSender(sec: Security, key: Option<u32>, s: Sender): Security
    requires SlotOf(sec, key).Keyed?
  {
    match sec
    case Single(_) => Single(s)
    case Sessions(sessions, services, default) => Sessions(sessions[key.value := s], services, default)
  }

  function ProtectFrame(a: Aead, sec: Security, serviceId: u16, explicit: Option<u32>, frame: Frame)
    : (r: Result<(Security, bytes), CryptoError>)
  {
    var key := ResolveKey(sec, serviceId, explicit);
    match SlotOf(sec, key)
    case Unprotected => Ok((sec, EncodeV1(frame)))
    case Missing => Err(SilentDrop)
    case Keyed(s) =>
      var next := EncryptNext(a, s, EncodeV2(frame));
      if next.Err? then Err(next.error) else Ok((WithSender(sec, key, next.value.0), next.value.1))
  }

  datatype Protection = NoProtection | Secure(range: Reserved)

  function ReserveBatch(sec: Security, serviceId: u16, explicit: Option<u32>, count: nat)
    : (r: Result<(Security, Protection), CryptoError>)
  {
    var key := ResolveKey(sec, serviceId, explicit);
    match SlotOf(sec, key)
    case Unprotected => Ok((sec, NoProtection))
    case Missing => Err(SilentDrop)
    case Keyed(s) =>
      var reserved := ReserveCounters(s, count);
      if reserved.Err? then Err(reserved.error)
      else Ok((WithSender(sec, key, reserved.value.0), Secure(reserved.value.1)))
  }

  function ProtectReserved(a: Aead, p: Protection, index: nat, frame: Frame): (r: Result<bytes, CryptoError>) {
    match p
    case NoProtection => Ok(EncodeV1(frame))
    case Secure(range) => EncryptReserved(a, range, index, EncodeV2(frame))
  }

  /** The frame length compared with the MTU: without the version byte once the frame is encrypted. */
  function PathFrameLen(sec: Security, frame: Frame): nat {
    if sec.Plain? then EncodedV1Len(frame) else EncodedV2Len(frame)
  }

  /** That is the length of what goes out, but for the envelope of an encrypted one. */
  lemma MeasuresWhatGoesOut(a: Aead, sec: Security, serviceId: u16, explicit: Option<u32>, frame: Frame)
    requires Ideal(a) && ProtectFrame(a, sec, serviceId, explicit, frame).Ok?
    ensures |ProtectFrame(a, sec, serviceId, explicit, frame).value.1| ==
            PathFrameLen(sec, frame) + if sec.Plain? then 0 else ENCRYPTED_DATA_HEADER_LEN + AEAD_TAG_LEN
  {
    hide EncodeV1, EncodeV2, NonceFromCounter, ClearHeader;
  }

  /** Protecting frames moves counters only: every session stays selected as before. */
  ghost predicate SameSelection(sec: Security, sec': Security) {
    && (sec.Plain? <==> sec'.Plain?)
    && forall serviceId :: SessionKeyForService(sec, serviceId) == SessionKeyForService(sec', serviceId)
  }

  lemma ProtectKeepsSelection(a: Aead, sec: Security, serviceId: u16, explicit: Option<u32>, frame: Frame)
    requires ProtectFrame(a, sec, serviceId, explicit, frame).Ok?
    ensures SameSelection(sec, ProtectFrame(a, sec, serviceId, explicit, frame).value.0)
  {
    hide EncryptPacket, EncodeV1, EncodeV2;
  }

  // ----- which session --------------------------------------------------------

  /** With several sessions: the one asked for, without a wish the service's own, without that the default. */
  ghost predicate Chooses(sec: Security, serviceId: u16, explicit: Option<u32>, k: u32)
    requires sec.Sessions?
  {
    || explicit == Some(k)
    || (explicit.None? && serviceId in sec.serviceSessions && sec.serviceSessions[serviceId] == k)
    || (explicit.None? && serviceId !in sec.serviceSessions && sec.defaultSession == Some(k))
  }

  /** No wish, no session of the service's own, and no default. */
  ghost predicate ChoosesNone(sec: Security, serviceId: u16, explicit: Option<u32>)
    requires sec.Sessions?
  {
    explicit.None? && serviceId !in sec.serviceSessions && sec.defaultSession.None?
  }

  /** A frame is sealed with the chosen session's key, index and next counter, and no other session moves. */
  lemma ProtectUsesChosen(a: Aead, sec: Security, serviceId: u16, explicit: Option<u32>, frame: Frame, k: u32)
    requires sec.Sessions? && Chooses(sec, serviceId, explicit, k)
    ensures var r := ProtectFrame(a, sec, serviceId, explicit, frame);
      if k !in sec.sessions then r == Err(SilentDrop)
      else
        var s := sec.sessions[k];
        if s.nextCounter == U64_MAX then r == Err(InvalidInput)
        else
          && r.Ok? && r.value.1 == EncryptPacket(a, s.key, s.remoteIndex, s.nextCounter, EncodeV2(frame))
          && r.value.0 == sec.(sessions := sec.sessions[k := s.(nextCounter := s.nextCounter + 1)])
  {
    hide EncryptPacket, EncodeV2, EncodeV1;
  }

  /** A batch reserves its counters from the chosen session, and no other session moves. */
  lemma ReserveUsesChosen(sec: Security, serviceId: u16, explicit: Option<u32>, count: nat, k: u32)
    requires sec.Sessions? && Chooses(sec, serviceId, explicit, k)
    ensures var r := ReserveBatch(sec, serviceId, explicit, count);
      if k !in sec.sessions then r == Err(SilentDrop)
      else
        var s := sec.sessions[k];
        if s.nextCounter + count > U64_MAX then r == Err(InvalidInput)
        else
          && r.Ok? && r.value.1 == Secure(Reserved(s.remoteIndex, s.key, s.nextCounter))
          && r.value.0 == sec.(sessions := sec.sessions[k := s.(nextCounter := s.nextCounter + count)])
  {
  }

  /** Nothing chosen drops the frame and the batch; one session serves everybody; no security sends the plain layout. */
  lemma OtherwiseProtected(a: Aead, sec: Security, serviceId: u16, explicit: Option<u32>, frame: Frame, count: nat)
    ensures var one, batch := ProtectFrame(a, sec, serviceId, explicit, frame),
                              ReserveBatch(sec, serviceId, explicit, count);
      match sec
      case Plain => one == Ok((Plain, EncodeV1(frame))) && batch == Ok((Plain, NoProtection))
      case Single(s) =>
        && (one.Ok? <==> s.nextCounter < U64_MAX) && (batch.Ok? <==> s.nextCounter + count <= U64_MAX)
        && (one.Ok? ==>
              && one.value.0 == Single(s.(nextCounter := s.nextCounter + 1))
              && one.value.1 == EncryptPacket(a, s.key, s.remoteIndex, s.nextCounter, EncodeV2(frame)))
        && (batch.Ok? ==>
              && batch.value.0 == Single(s.(nextCounter := s.nextCounter + count))
              && batch.value.1 == Secure(Reserved(s.remoteIndex, s.key, s.nextCounter)))
      case Sessions(_, _, _) =>
        ChoosesNone(sec, serviceId, explicit) ==> one == Err(SilentDrop) && batch == Err(SilentDrop)
  {
    hide EncryptPacket, EncodeV2, EncodeV1;
  }

  // ----- a run of frames under one session ------------------------------------

  /** A frame with the service and explicit session it is to be protected for. */
  datatype Job = Job(serviceId: u16, explicit: Option<u32>, frame: Frame)

  /** Protecting jobs one after another. */
  function ProtectEach(a: Aead, sec: Security, jobs: seq<Job>): (r: Result<(Security, seq<bytes>), CryptoError>)
    decreases |jobs|
  {
    if jobs == [] then Ok((sec, []))
    else
      var before, job := ProtectEach(a, sec, jobs[..|jobs| - 1]), jobs[|jobs| - 1];
      if before.Err? then before
      else
        var one := ProtectFrame(a, before.value.0, job.serviceId, job.explicit, job.frame);
        if one.Err? then Err(one.error) else Ok((one.value.0, before.value.1 + [one.value.1]))
  }

  lemma ProtectEachSnoc(a: Aead, sec: Security, jobs: seq<Job>, job: Job)
    ensures ProtectEach(a, sec, jobs + [job]) ==
      var before := ProtectEach(a, sec, jobs);
      if before.Err? then before
      else
        var one := ProtectFrame(a, before.value.0, job.serviceId, job.explicit, job.frame);
        if one.Err? then Err(one.error) else Ok((one.value.0, before.value.1 + [one.value.1]))
  {
    hide ProtectFrame;
    assert (jobs + [job])[..|jobs|] == jobs;
  }

  lemma {:induction false} ProtectEachKeepsSelection(a: Aead, sec: Security, jobs: seq<Job>)
    requires ProtectEach(a, sec, jobs).Ok?
    ensures SameSelection(sec, ProtectEach(a, sec, jobs).value.0) && |ProtectEach(a, sec, jobs).value.1| == |jobs|
    decreases |jobs|
  {
    hide ProtectFrame, SessionKeyForService;
    if jobs == [] {
    } else {
      var before, job := jobs[..|jobs| - 1], jobs[|jobs| - 1];
      ProtectEachKeepsSelection(a, sec, before);
      ProtectKeepsSelection(a, ProtectEach(a, sec, before).value.0, job.serviceId, job.explicit, job.frame);
    }
  }

  /** Two stretches of jobs in a row are one stretch. */
  lemma {:induction false} ProtectEachAppend(a: Aead, sec: Security, first: seq<Job>, second: seq<Job>)
    ensures ProtectEach(a, sec, first + second) ==
      var x := ProtectEach(a, sec, first);
      if x.Err? then x
      else
        var y := ProtectEach(a, x.value.0, second);
        if y.Err? then y else Ok((y.value.0, x.value.1 + y.value.1))
    decreases |second|
  {
    hide ProtectFrame, ProtectEach;
    var x := ProtectEach(a, sec, first);
    if second == [] {
      assert first + second == first;
      if x.Ok? {
        ProtectNothing(a, x.value.0);
        assert x.value.1 + [] == x.value.1;
      }
    } else {
      var init, job := second[..|second| - 1], second[|second| - 1];
      assert second == init + [job] && first + second == first + init + [job];
      ProtectEachAppend(a, sec, first, init);
      ProtectEachSnoc(a, sec, first + init, job);
      if x.Ok? {
        ProtectEachSnoc(a, x.value.0, init, job);
        var y := ProtectEach(a, x.value.0, second);
        if y.Ok? {
          var z := ProtectEach(a, x.value.0, init).value.1;
          assert x.value.1 + (z + [y.value.1[|z|]]) == x.value.1 + z + [y.value.1[|z|]];
        }
      }
    }
  }

  lemma ProtectNothing(a: Aead, sec: Security)
    ensures ProtectEach(a, sec, []) == Ok((sec, []))
  {
  }

  /** All jobs use the session `key`. */
  ghost predicate SameSession(sec: Security, jobs: seq<Job>, key: Option<u32>) {
    forall i :: 0 <= i < |jobs| ==> ResolveKey(sec, jobs[i].serviceId, jobs[i].explicit) == key
  }

  lemma ProtectOneKeyed(a: Aead, sec: Security, key: Option<u32>, s: Sender, job: Job)
    requires SlotOf(sec, key) == Keyed(s) && ResolveKey(sec, job.serviceId, job.explicit) == key
    ensures ProtectFrame(a, sec, job.serviceId, job.explicit, job.frame) ==
            if s.nextCounter == U64_MAX then Err(InvalidInput)
            else Ok((WithSender(sec, key, s.(nextCounter := s.nextCounter + 1)),
                     EncryptPacket(a, s.key, s.remoteIndex, s.nextCounter, EncodeV2(job.frame))))
  {
    hide EncryptPacket, EncodeV2, EncodeV1;
  }

  lemma WithSenderTwice(sec: Security, key: Option<u32>, s: Sender, s': Sender)
    requires SlotOf(sec, key).Keyed?
    ensures SlotOf(WithSender(sec, key, s), key) == Keyed(s)
    ensures WithSender(WithSender(sec, key, s), key, s') == WithSender(sec, key, s')
    ensures WithSender(sec, key, SlotOf(sec, key).sender) == sec
    ensures SameSelection(sec, WithSender(sec, key, s))
  {
  }

  /** One-at-a-time protection under one session uses consecutive counters. */
  lemma {:induction false} KeyedRun(a: Aead, sec: Security, jobs: seq<Job>, key: Option<u32>, s: Sender)
    requires SameSession(sec, jobs, key) && SlotOf(sec, key) == Keyed(s)
    ensures ProtectEach(a, sec, jobs).Ok? <==> s.nextCounter + |jobs| <= U64_MAX
    ensures ProtectEach(a, sec, jobs).Err? ==> ProtectEach(a, sec, jobs).error == InvalidInput
    ensures ProtectEach(a, sec, jobs).Ok? ==>
      var (sec', packets) := ProtectEach(a, sec, jobs).value;
      && sec' == WithSender(sec, key, s.(nextCounter := s.nextCounter + |jobs|))
      && |packets| == |jobs|
      && forall i :: 0 <= i < |jobs| ==>
           packets[i] == EncryptPacket(a, s.key, s.remoteIndex, s.nextCounter + i, EncodeV2(jobs[i].frame))
    decreases |jobs|
  {
    hide ProtectFrame, ProtectEach, EncryptPacket, EncodeV2, WithSender, SlotOf, SameSelection, ResolveKey;
    WithSenderTwice(sec, key, s, s);
    if jobs == [] {
      ProtectNothing(a, sec);
    } else {
      var init, job := jobs[..|jobs| - 1], jobs[|jobs| - 1];
      assert jobs == init + [job];
      KeyedRun(a, sec, init, key, s);
      ProtectEachSnoc(a, sec, init, job);
      if s.nextCounter + |init| <= U64_MAX {
        var mid := s.(nextCounter := s.nextCounter + |init|);
        WithSenderTwice(sec, key, mid, s);
        SelectionKeepsKey(sec, WithSender(sec, key, mid), job);
        ProtectOneKeyed(a, WithSender(sec, key, mid), key, mid, job);
        if mid.nextCounter != U64_MAX {
          WithSenderTwice(sec, key, mid, mid.(nextCounter := mid.nextCounter + 1));
        }
      }
    }
  }

  lemma SelectionKeepsKey(sec: Security, sec': Security, job: Job)
    requires SameSelection(sec, sec')
    ensures ResolveKey(sec, job.serviceId, job.explicit) == ResolveKey(sec', job.serviceId, job.explicit)
  {
  }

  lemma {:induction false} PlainRun(a: Aead, sec: Security, jobs: seq<Job>)
    requires sec.Plain?
    ensures ProtectEach(a, sec, jobs).Ok?
    ensures var (sec', packets) := ProtectEach(a, sec, jobs).value;
      sec' == sec && |packets| == |jobs| && forall i :: 0 <= i < |jobs| ==> packets[i] == EncodeV1(jobs[i].frame)
    decreases |jobs|
  {
    hide EncodeV1, EncodeV2, EncryptPacket;
    if jobs == [] {
    } else {
      PlainRun(a, sec, jobs[..|jobs| - 1]);
    }
  }

  /** Reserving for a whole group at once and protecting by index, as the batched transmit does, gives the
      same counters, the same packets and the same failures as protecting the frames one by one. */
  lemma ReservedBatchMatchesEach(a: Aead, sec: Security, jobs: seq<Job>, key: Option<u32>)
    requires jobs != [] && SameSession(sec, jobs, key)
    ensures var batch := ReserveBatch(sec, jobs[0].serviceId, key, |jobs|);
      var each := ProtectEach(a, sec, jobs);
      && (batch.Ok? <==> each.Ok?) && (batch.Err? ==> batch.error == each.error)
      && (batch.Ok? ==>
            && batch.value.0 == each.value.0 && |each.value.1| == |jobs|
            && forall i :: 0 <= i < |jobs| ==>
              ProtectReserved(a, batch.value.1, i, jobs[i].frame) == Ok(each.value.1[i]))
  {
    hide ProtectEach, ProtectFrame, EncryptPacket, EncodeV1, EncodeV2, WithSender;
    assert ResolveKey(sec, jobs[0].serviceId, key) == key;
    match SlotOf(sec, key)
    case Unprotected => PlainRun(a, sec, jobs);
    case Missing => MissingRun(a, sec, jobs, key);
    case Keyed(s) => KeyedRun(a, sec, jobs, key, s);
  }

  lemma {:induction false} MissingRun(a: Aead, sec: Security, jobs: seq<Job>, key: Option<u32>)
    requires jobs != [] && SameSession(sec, jobs, key) && SlotOf(sec, key).Missing?
    ensures ProtectEach(a, sec, jobs) == Err(SilentDrop)
    decreases |jobs|
  {
    hide EncodeV1, EncodeV2, EncryptPacket;
    if |jobs| > 1 {
      MissingRun(a, sec, jobs[..|jobs| - 1], key);
    } else {
      assert jobs[..0] == [];
    }
  }

  // ----- a run of frames under any sessions -----------------------------------

  /** How many of the jobs choose session `k`. */
  ghost function Uses(sec: Security, jobs: seq<Job>, k: u32): nat
    requires sec.Sessions?
  {
    if jobs == [] then 0
    else
      var before, job := Uses(sec, jobs[..|jobs| - 1], k), jobs[|jobs| - 1];
      if Chooses(sec, job.serviceId, job.explicit, k) then before + 1 else before
  }

  lemma UsesSnoc(sec: Security, jobs: seq<Job>, job: Job, k: u32)
    requires sec.Sessions?
    ensures Uses(sec, jobs + [job], k) ==
            Uses(sec, jobs, k) + if Chooses(sec, job.serviceId, job.explicit, k) then 1 else 0
  {
    assert (jobs + [job])[..|jobs|] == jobs;
  }

  /** Every session keeps its key and index and has moved on by the number of jobs that chose it. */
  ghost predicate MovedOn(sec: Security, jobs: seq<Job>, sec': Security)
    requires sec.Sessions?
  {
    && sec'.Sessions? && sec'.serviceSessions == sec.serviceSessions && sec'.defaultSession == sec.defaultSession
    && sec'.sessions.Keys == sec.sessions.Keys
    && forall k :: k in sec.sessions ==>
         && sec.sessions[k].nextCounter + Uses(sec, jobs, k) <= U64_MAX
         && sec'.sessions[k] == sec.sessions[k].(nextCounter := sec.sessions[k].nextCounter + Uses(sec, jobs, k))
  }

  /** Job `i` was sealed under session `k`, which it chooses, with the counter the earlier jobs of `k` leave. */
  ghost predicate SealedFor(a: Aead, sec: Security, jobs: seq<Job>, i: nat, packet: bytes, k: u32)
    requires sec.Sessions? && i < |jobs|
  {
    && Chooses(sec, jobs[i].serviceId, jobs[i].explicit, k) && k in sec.sessions
    && var s := sec.sessions[k];
       && s.nextCounter + Uses(sec, jobs[..i], k) < U64_MAX
       && packet == EncryptPacket(a, s.key, s.remoteIndex, s.nextCounter + Uses(sec, jobs[..i], k),
                                  EncodeV2(jobs[i].frame))
  }

  ghost predicate SealedForOne(a: Aead, sec: Security, jobs: seq<Job>, i: nat, packet: bytes)
    requires sec.Sessions? && i < |jobs|
  {
    exists k :: SealedFor(a, sec, jobs, i, packet, k)
  }

  ghost predicate EachSealed(a: Aead, sec: Security, jobs: seq<Job>, packets: seq<bytes>)
    requires sec.Sessions?
  {
    && |packets| == |jobs|
    && forall i: nat :: i < |jobs| ==> SealedForOne(a, sec, jobs, i, packets[i])
  }

  lemma SealedForLonger(a: Aead, sec: Security, jobs: seq<Job>, job: Job, i: nat, packet: bytes, k: u32)
    requires sec.Sessions? && i < |jobs| && SealedFor(a, sec, jobs, i, packet, k)
    ensures SealedFor(a, sec, jobs + [job], i, packet, k)
  {
    hide Uses, EncryptPacket, EncodeV2, Chooses;
    assert (jobs + [job])[..i] == jobs[..i];
  }

  lemma EachSealedSnoc(a: Aead, sec: Security, jobs: seq<Job>, job: Job, packets: seq<bytes>, packet: bytes, last: u32)
    requires sec.Sessions? && EachSealed(a, sec, jobs, packets)
    requires SealedFor(a, sec, jobs + [job], |jobs|, packet, last)
    ensures EachSealed(a, sec, jobs + [job], packets + [packet])
  {
    hide SealedFor;
    var jobs', packets' := jobs + [job], packets + [packet];
    forall i: nat | i < |jobs'|
      ensures SealedForOne(a, sec, jobs', i, packets'[i])
    {
      if i < |jobs| {
        var k :| SealedFor(a, sec, jobs, i, packets[i], k);
        SealedForLonger(a, sec, jobs, job, i, packets[i], k);
        assert SealedFor(a, sec, jobs', i, packets'[i], k);
      } else {
        assert SealedFor(a, sec, jobs', i, packets'[i], last);
      }
    }
  }

  lemma MovedOneMore(sec: Security, jobs: seq<Job>, job: Job, mid: Security, k: u32)
    requires sec.Sessions? && MovedOn(sec, jobs, mid) && Chooses(sec, job.serviceId, job.explicit, k)
    requires k in sec.sessions && mid.sessions[k].nextCounter < U64_MAX
    ensures var s := mid.sessions[k];
      MovedOn(sec, jobs + [job], mid.(sessions := mid.sessions[k := s.(nextCounter := s.nextCounter + 1)]))
  {
    hide Uses;
    forall j | j in sec.sessions
      ensures Uses(sec, jobs + [job], j) == Uses(sec, jobs, j) + if j == k then 1 else 0
    {
      UsesSnoc(sec, jobs, job, j);
    }
  }

  /** One more job of a run that has moved on: it is sealed for its session, and the run has moved on by it. */
  lemma OneMoreSealed(a: Aead, sec: Security, jobs: seq<Job>, job: Job, mid: Security) returns (k: u32)
    requires sec.Sessions? && MovedOn(sec, jobs, mid)
    requires ProtectFrame(a, mid, job.serviceId, job.explicit, job.frame).Ok?
    ensures var (after, packet) := ProtectFrame(a, mid, job.serviceId, job.explicit, job.frame).value;
      MovedOn(sec, jobs + [job], after) && SealedFor(a, sec, jobs + [job], |jobs|, packet, k)
  {
    hide EncryptPacket, EncodeV1, EncodeV2, Uses, ProtectFrame, ReserveBatch;
    OtherwiseProtected(a, mid, job.serviceId, job.explicit, job.frame, 0);
    k := if job.explicit.Some? then job.explicit.value
         else if job.serviceId in sec.serviceSessions then sec.serviceSessions[job.serviceId]
         else sec.defaultSession.value;
    ProtectUsesChosen(a, mid, job.serviceId, job.explicit, job.frame, k);
    MovedOneMore(sec, jobs, job, mid, k);
    assert (jobs + [job])[..|jobs|] == jobs;
  }

  /** A run of jobs for any mixture of sessions: each packet is sealed under its own job's session with the next of
      that session's counters, whatever is sent under the other sessions in between. */
  lemma {:induction false} EachUnderItsOwnSession(a: Aead, sec: Security, jobs: seq<Job>)
    requires sec.Sessions? && ProtectEach(a, sec, jobs).Ok?
    ensures var (sec', packets) := ProtectEach(a, sec, jobs).value;
      MovedOn(sec, jobs, sec') && EachSealed(a, sec, jobs, packets)
    decreases |jobs|
  {
    hide ProtectFrame, ProtectEach, Uses, SealedFor, MovedOn, EachSealed;
    if jobs == [] {
      ProtectNothing(a, sec);
      NothingMoved(sec);
    } else {
      var init, job := jobs[..|jobs| - 1], jobs[|jobs| - 1];
      assert jobs == init + [job];
      ProtectEachSnoc(a, sec, init, job);
      EachUnderItsOwnSession(a, sec, init);
      var (mid, packets) := ProtectEach(a, sec, init).value;
      var last := OneMoreSealed(a, sec, init, job, mid);
      var packet := ProtectFrame(a, mid, job.serviceId, job.explicit, job.frame).value.1;
      EachSealedSnoc(a, sec, init, job, packets, packet, last);
    }
  }

  lemma NothingMoved(sec: Security)
    requires sec.Sessions?
    ensures MovedOn(sec, [], sec) && forall a :: EachSealed(a, sec, [], [])
  {
  }
}
