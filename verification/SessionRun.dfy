/** One secured session as a state machine: a sender with reserved ranges, a hostile network, a receiver. */
module SessionRun {
  import opened Bytes
  import opened FrameCodec
  import opened Replay
  import opened Envelope

  /** What the two ends share, and the receiver's window width. */
  datatype Session = Session(aead: Aead, key: bytes, index: u32, window: nat)

  /** A reserved counter range with the offsets workers have protected so far. */
  datatype Range = Range(reserved: Reserved, count: nat, used: set<nat>)

  datatype Sent = Sent(counter: u64, frame: Frame, packet: bytes)

  datatype Delivered = Delivered(counter: u64, frame: Frame)

  datatype State = State(
    sender: Sender,
    ranges: seq<Range>,
    sent: seq<Sent>,
    network: multiset<bytes>,
    accepted: seq<u64>,
    delivered: seq<Delivered>)

  /** `Protect` may happen in any order and interleaving: workers race, but each offset goes to one frame. */
  datatype Event =
    | SendOne(frame: Frame)
    | Reserve(count: nat)
    | Protect(range: nat, offset: nat, frame: Frame)
    | Duplicate(packet: bytes)
    | Drop(packet: bytes)
    | Inject(packet: bytes)
    | Receive(packet: bytes)

  function Initial(c: Session): State {
    State(Sender(c.index, c.key, 0), [], [], multiset{}, [], [])
  }

  /** Authenticates under the session's key and names the session. */
  predicate Ours(c: Session, packet: bytes) {
    var o := OpenPacket(c.aead, c.key, packet);
    o.Some? && o.value.index == c.index
  }

  /** Frames come from the constructors; injected packets fail to authenticate, or name another session. */
  predicate Enabled(c: Session, s: State, e: Event) {
    match e
    case SendOne(frame) => WellFormed(frame)
    case Reserve(count) => true
    case Protect(i, offset, frame) =>
      WellFormed(frame) && i < |s.ranges| && offset < s.ranges[i].count && offset !in s.ranges[i].used
    case Duplicate(packet) => packet in s.network
    case Drop(packet) => packet in s.network
    case Inject(packet) => !Ours(c, packet)
    case Receive(packet) => packet in s.network
  }

  function Emit(s: State, counter: u64, frame: Frame, packet: bytes): State {
    s.(sent := s.sent + [Sent(counter, frame, packet)], network := s.network + multiset{packet})
  }

  /** The receiver's pipeline: authenticate, check the index, consult the window, decode. */
  function Unprotect(c: Session, s: State, packet: bytes): State {
    match OpenPacket(c.aead, c.key, packet)
    case None => s
    case Some(o) =>
      if o.index != c.index || !Fresh(s.accepted, c.window, o.counter) then s
      else
        var s' := s.(accepted := s.accepted + [o.counter]);
        match DecodeV2(o.plaintext)
        case Err(_) => s'
        case Ok(frame) => s'.(delivered := s'.delivered + [Delivered(o.counter, frame)])
  }

  function Apply(c: Session, s: State, e: Event): State
    requires Enabled(c, s, e)
  {
    match e
    case SendOne(frame) =>
      (match EncryptNext(c.aead, s.sender, EncodeV2(frame))
       case Err(_) => s
       case Ok((sender, packet)) => Emit(s.(sender := sender), s.sender.nextCounter, frame, packet))
    case Reserve(count) =>
      (match ReserveCounters(s.sender, count)
       case Err(_) => s
       case Ok((sender, range)) => s.(sender := sender, ranges := s.ranges + [Range(range, count, {})]))
    case Protect(i, offset, frame) =>
      var range := s.ranges[i];
      (match EncryptReserved(c.aead, range.reserved, offset, EncodeV2(frame))
       case Err(_) => s
       case Ok(packet) =>
         Emit(s.(ranges := s.ranges[i := range.(used := range.used + {offset})]), range.reserved.first + offset, frame,
           packet))
    case Duplicate(packet) => s.(network := s.network + multiset{packet})
    case Drop(packet) => s.(network := s.network - multiset{packet})
    case Inject(packet) => s.(network := s.network + multiset{packet})
    case Receive(packet) => Unprotect(c, s.(network := s.network - multiset{packet}), packet)
  }

  /** Every state some finite run of enabled events reaches. */
  ghost predicate Run(c: Session, events: seq<Event>, s: State) {
    if events == [] then s == Initial(c)
    else
      var e, before := events[|events| - 1], events[..|events| - 1];
      exists s0 :: Run(c, before, s0) && Enabled(c, s0, e) && s == Apply(c, s0, e)
  }

  // ----- the invariant --------------------------------------------------------

  /** Ranges were carved off one after another, below the sender's next counter. */
  ghost predicate RangesOk(c: Session, s: State) {
    && s.sender.key == c.key && s.sender.remoteIndex == c.index
    && (forall i :: 0 <= i < |s.ranges| ==>
          && s.ranges[i].reserved.key == c.key && s.ranges[i].reserved.remoteIndex == c.index
          && s.ranges[i].reserved.first + s.ranges[i].count <= s.sender.nextCounter)
    && (forall i, j :: 0 <= i < j < |s.ranges| ==>
          s.ranges[i].reserved.first + s.ranges[i].count <= s.ranges[j].reserved.first)
  }

  predicate Covers(range: Range, counter: u64) {
    range.reserved.first <= counter < range.reserved.first + range.count
  }

  /** A used counter below the allocation point that falls in a range was that range's used offset. */
  ghost predicate SentOk(c: Session, s: State) {
    && (forall k :: 0 <= k < |s.sent| ==>
          && WellFormed(s.sent[k].frame)
          && s.sent[k].counter < s.sender.nextCounter
          && s.sent[k].packet == EncryptPacket(c.aead, c.key, c.index, s.sent[k].counter, EncodeV2(s.sent[k].frame)))
    && (forall k, i :: 0 <= k < |s.sent| && 0 <= i < |s.ranges| && Covers(s.ranges[i], s.sent[k].counter) ==>
          s.sent[k].counter - s.ranges[i].reserved.first in s.ranges[i].used)
  }

  ghost predicate CountersDistinct(s: State) {
    forall k, l :: 0 <= k < l < |s.sent| ==> s.sent[k].counter != s.sent[l].counter
  }

  ghost predicate WasSent(s: State, counter: u64, frame: Frame) {
    exists k :: 0 <= k < |s.sent| && s.sent[k].counter == counter && s.sent[k].frame == frame
  }

  ghost predicate NetworkOk(c: Session, s: State) {
    forall p :: p in s.network ==>
      Ours(c, p) ==> exists k :: 0 <= k < |s.sent| && s.sent[k].packet == p
  }

  ghost predicate ReceiverOk(s: State) {
    && Distinct(s.accepted)
    && |s.delivered| == |s.accepted|
    && forall i :: 0 <= i < |s.delivered| ==>
         s.delivered[i].counter == s.accepted[i] && WasSent(s, s.delivered[i].counter, s.delivered[i].frame)
  }

  ghost predicate Invariant(c: Session, s: State) {
    RangesOk(c, s) && SentOk(c, s) && CountersDistinct(s) && NetworkOk(c, s) && ReceiverOk(s)
  }

  lemma SentStaysSent(s: State, s': State)
    requires s.sent <= s'.sent && s.accepted == s'.accepted && s.delivered == s'.delivered && ReceiverOk(s)
    ensures ReceiverOk(s')
  {
    forall i | 0 <= i < |s'.delivered|
      ensures WasSent(s', s'.delivered[i].counter, s'.delivered[i].frame)
    {
      var d := s.delivered[i];
      assert WasSent(s, d.counter, d.frame);
      var k :| 0 <= k < |s.sent| && s.sent[k].counter == d.counter && s.sent[k].frame == d.frame;
      assert s'.sent[k] == s.sent[k];
    }
  }

  lemma NetworkStaysKnown(c: Session, s: State, s': State, packet: bytes)
    requires NetworkOk(c, s) && s.sent <= s'.sent && s'.network == s.network + multiset{packet}
    requires Ours(c, packet) ==> exists k :: 0 <= k < |s'.sent| && s'.sent[k].packet == packet
    ensures NetworkOk(c, s')
  {
    hide OpenPacket;
    forall p | p in s'.network && Ours(c, p)
      ensures exists k :: 0 <= k < |s'.sent| && s'.sent[k].packet == p
    {
      if p in s.network {
        var k :| 0 <= k < |s.sent| && s.sent[k].packet == p;
        assert s'.sent[k] == s.sent[k];
      }
    }
  }

  lemma SendOneStep(c: Session, s: State, frame: Frame)
    requires Invariant(c, s) && WellFormed(frame)
    ensures Invariant(c, Apply(c, s, SendOne(frame)))
  {
    hide OpenPacket, EncryptPacket, EncodeV2;
    var s' := Apply(c, s, SendOne(frame));
    if s' != s {
      SentStaysSent(s, s');
      assert s'.sent[|s.sent|].packet == s'.sent[|s'.sent| - 1].packet;
      NetworkStaysKnown(c, s, s', s'.sent[|s.sent|].packet);
    }
  }

  lemma ProtectStep(c: Session, s: State, i: nat, offset: nat, frame: Frame)
    requires Invariant(c, s) && Enabled(c, s, Protect(i, offset, frame))
    ensures Invariant(c, Apply(c, s, Protect(i, offset, frame)))
  {
    hide OpenPacket, EncryptPacket, EncodeV2;
    var s' := Apply(c, s, Protect(i, offset, frame));
    var counter := s.ranges[i].reserved.first + offset;
    assert counter < s.sender.nextCounter;
    forall k | 0 <= k < |s.sent| ensures s.sent[k].counter != counter {
    }
    forall k, j | 0 <= k < |s'.sent| && 0 <= j < |s'.ranges| && Covers(s'.ranges[j], s'.sent[k].counter)
      ensures s'.sent[k].counter - s'.ranges[j].reserved.first in s'.ranges[j].used
    {
      if k == |s.sent| && j != i {
        assert false;
      }
    }
    SentStaysSent(s, s');
    NetworkStaysKnown(c, s, s', s'.sent[|s.sent|].packet);
  }

  /** A packet of this session that opens was sent, so it carries the counter and the frame of that one send. */
  lemma GenuinePacket(c: Session, s: State, packet: bytes)
    requires Ideal(c.aead) && Invariant(c, s) && packet in s.network
    requires Ours(c, packet)
    ensures var o := OpenPacket(c.aead, c.key, packet).value;
      DecodeV2(o.plaintext).Ok? && WasSent(s, o.counter, DecodeV2(o.plaintext).value)
  {
    var k :| 0 <= k < |s.sent| && s.sent[k].packet == packet;
    OpenOfEncrypt(c.aead, c.key, c.index, s.sent[k].counter, EncodeV2(s.sent[k].frame));
    DecodeV2OfEncode(s.sent[k].frame);
  }

  lemma SameSends(s: State, s': State, counter: u64, frame: Frame)
    requires s'.sent == s.sent && WasSent(s, counter, frame)
    ensures WasSent(s', counter, frame)
  {
  }

  lemma DeliveryStep(c: Session, s: State, counter: u64, frame: Frame)
    requires ReceiverOk(s) && WasSent(s, counter, frame) && Fresh(s.accepted, c.window, counter)
    ensures ReceiverOk(s.(accepted := s.accepted + [counter], delivered := s.delivered + [Delivered(counter, frame)]))
  {
    FreshIsNew(s.accepted, c.window, counter);
    var s' := s.(accepted := s.accepted + [counter], delivered := s.delivered + [Delivered(counter, frame)]);
    forall i | 0 <= i < |s'.delivered|
      ensures s'.delivered[i].counter == s'.accepted[i] && WasSent(s', s'.delivered[i].counter, s'.delivered[i].frame)
    {
      assert WasSent(s, s'.delivered[i].counter, s'.delivered[i].frame);
    }
  }

  /** The sender's half of the invariant, and what the network may hold, look at neither window nor deliveries. */
  lemma ReceiverSideOnly(c: Session, s: State, s': State)
    requires RangesOk(c, s) && SentOk(c, s) && CountersDistinct(s) && NetworkOk(c, s)
    requires s'.sender == s.sender && s'.ranges == s.ranges && s'.sent == s.sent && s'.network <= s.network
    ensures RangesOk(c, s') && SentOk(c, s') && CountersDistinct(s') && NetworkOk(c, s')
  {
    hide OpenPacket, EncryptPacket, EncodeV2;
    assert forall p :: p in s'.network ==> p in s.network;
  }

  lemma ReceiveStep(c: Session, s: State, packet: bytes)
    requires Ideal(c.aead) && Invariant(c, s) && packet in s.network
    ensures Invariant(c, Apply(c, s, Receive(packet)))
  {
    hide OpenPacket, EncryptPacket, EncodeV2, DecodeV2, RangesOk, SentOk, CountersDistinct, NetworkOk, ReceiverOk,
         Fresh, WasSent;
    var less := s.(network := s.network - multiset{packet});
    ReceiverSideOnly(c, s, Apply(c, s, Receive(packet)));
    SentStaysSent(s, less);
    if Ours(c, packet) {
      GenuinePacket(c, s, packet);
      var o := OpenPacket(c.aead, c.key, packet).value;
      var frame := DecodeV2(o.plaintext).value;
      SameSends(s, less, o.counter, frame);
      if Fresh(s.accepted, c.window, o.counter) {
        DeliveryStep(c, less, o.counter, frame);
      }
    }
  }

  lemma NetworkStep(c: Session, s: State, s': State, packet: bytes)
    requires Invariant(c, s) && s' == s.(network := s.network + multiset{packet})
    requires packet in s.network || !Ours(c, packet)
    ensures Invariant(c, s')
  {
    hide OpenPacket, EncryptPacket, EncodeV2;
    NetworkStaysKnown(c, s, s', packet);
    SentStaysSent(s, s');
  }

  lemma StepKeepsInvariant(c: Session, s: State, e: Event)
    requires Ideal(c.aead) && Invariant(c, s) && Enabled(c, s, e)
    ensures Invariant(c, Apply(c, s, e))
  {
    hide OpenPacket, EncryptPacket, EncodeV2, DecodeV2, Fresh;
    var s' := Apply(c, s, e);
    match e
    case SendOne(frame) => SendOneStep(c, s, frame);
    case Reserve(count) => SentStaysSent(s, s');
    case Protect(i, offset, frame) => ProtectStep(c, s, i, offset, frame);
    case Duplicate(packet) => NetworkStep(c, s, s', packet);
    case Drop(packet) => SentStaysSent(s, s');
    case Inject(packet) => NetworkStep(c, s, s', packet);
    case Receive(packet) => ReceiveStep(c, s, packet);
  }

  lemma {:induction false} RunKeepsInvariant(c: Session, events: seq<Event>, s: State)
    requires Ideal(c.aead) && Run(c, events, s)
    ensures Invariant(c, s)
    decreases |events|
  {
    if events == [] {
    } else {
      var e, before := events[|events| - 1], events[..|events| - 1];
      var s0 :| Run(c, before, s0) && Enabled(c, s0, e) && s == Apply(c, s0, e);
      RunKeepsInvariant(c, before, s0);
      StepKeepsInvariant(c, s0, e);
    }
  }

  // ----- what every run guarantees --------------------------------------------

  /** The packet is what the cipher made of the frame when it was given the session's key and `nonce`. */
  ghost predicate SealedUnder(c: Session, sent: Sent, nonce: bytes) {
    var header := ClearHeader(c.index, sent.counter);
    var (ciphertext, tag) := c.aead.seal(c.key, nonce, AEAD_DOMAIN + header, EncodeV2(sent.frame));
    sent.packet == header + ciphertext + tag
  }

  function NonceOf(sent: Sent): bytes { NonceFromCounter(sent.counter) }

  /** No two packets of a run were sealed under one nonce. */
  ghost predicate NoncesDistinct(c: Session, s: State) {
    && (forall k :: 0 <= k < |s.sent| ==> SealedUnder(c, s.sent[k], NonceOf(s.sent[k])))
    && forall k, l :: 0 <= k < l < |s.sent| ==> NonceOf(s.sent[k]) != NonceOf(s.sent[l])
  }

  lemma CountersMakeNonces(c: Session, s: State)
    requires SentOk(c, s) && CountersDistinct(s)
    ensures NoncesDistinct(c, s)
  {
    hide EncodeV2, NonceFromCounter, ClearHeader;
    forall k, l | 0 <= k < l < |s.sent|
      ensures NonceOf(s.sent[k]) != NonceOf(s.sent[l])
    {
      NoncePerCounter(s.sent[k].counter, s.sent[l].counter);
    }
  }

  /** Safety of every run: no counter is used twice and no nonce is given to the cipher twice, no counter is delivered
      twice, and each delivery is the very frame that was sent under its counter, by exactly one send. */
  lemma WholeRunSafety(c: Session, events: seq<Event>, s: State)
    requires Ideal(c.aead) && Run(c, events, s)
    ensures CountersDistinct(s) && NoncesDistinct(c, s)
    ensures forall i, j :: 0 <= i < j < |s.delivered| ==> s.delivered[i].counter != s.delivered[j].counter
    ensures forall i :: 0 <= i < |s.delivered| ==> WasSent(s, s.delivered[i].counter, s.delivered[i].frame)
    ensures forall i, k ::
              0 <= i < |s.delivered| && 0 <= k < |s.sent| && s.sent[k].counter == s.delivered[i].counter
              ==> s.sent[k].frame == s.delivered[i].frame
  {
    hide Run, OpenPacket, EncryptPacket, EncodeV2, NoncesDistinct;
    RunKeepsInvariant(c, events, s);
    CountersMakeNonces(c, s);
    forall i, k | 0 <= i < |s.delivered| && 0 <= k < |s.sent| && s.sent[k].counter == s.delivered[i].counter
      ensures s.sent[k].frame == s.delivered[i].frame
    {
      assert WasSent(s, s.delivered[i].counter, s.delivered[i].frame);
    }
    forall i, j | 0 <= i < j < |s.delivered|
      ensures s.delivered[i].counter != s.delivered[j].counter
    {
      assert s.accepted[i] != s.accepted[j];
    }
  }

  /** The other half: in any run, a sent packet that reaches the receiver is delivered exactly when its
      counter is fresh, so nothing but a replay or a whole window of delay costs a genuine packet. */
  lemma GenuineFreshPacketIsDelivered(c: Session, events: seq<Event>, s: State, k: nat)
    requires Ideal(c.aead) && Run(c, events, s) && k < |s.sent| && s.sent[k].packet in s.network
    ensures var s' := Apply(c, s, Receive(s.sent[k].packet));
      if Fresh(s.accepted, c.window, s.sent[k].counter)
      then s'.delivered == s.delivered + [Delivered(s.sent[k].counter, s.sent[k].frame)]
      else s'.delivered == s.delivered && s'.accepted == s.accepted
  {
    hide Run, OpenPacket, EncryptPacket, EncodeV2, DecodeV2;
    RunKeepsInvariant(c, events, s);
    OpenOfEncrypt(c.aead, c.key, c.index, s.sent[k].counter, EncodeV2(s.sent[k].frame));
    DecodeV2OfEncode(s.sent[k].frame);
  }
}
