/** Control payloads: fifteen kinds of message, their constructors' rules, and the codec both ways. */
module Control {
  import opened Bytes
  import opened Fields
  import opened Records

  const USER_SERVICE_ID_START: u16 := 256

  datatype ClockSyncMode = Request | Response

  datatype NtpState = Unknown | Synchronized | Unsynchronized

  /** Text is its UTF-8 bytes. */
  datatype ControlMessage =
    | PathAssignment(firstSequence: u64, packetCount: u32, pathId: u16)
    | MissingRange(firstSequence: u64, packetCount: u32)
    | PathMetadata(pathId: u16, text: bytes)
    | PathCapacity(pathId: u16, txBps: Option<u64>, rxBps: Option<u64>)
    | PathLatency(pathId: u16, txCurrentUs: Option<u32>, txMeanUs: Option<u32>,
                  rxCurrentUs: Option<u32>, rxMeanUs: Option<u32>)
    | InternalClockSync(exchangeId: u64, pathId: u16, mode: ClockSyncMode, originUs: u64,
                        receiveUs: Option<u64>, respondUs: Option<u64>)
    | SinkTime(pathId: u16, sinkUnixUs: u64, sinkInternalUs: u64, ntpState: NtpState)
    | ServiceMetadata(serviceId: u16, text: bytes)
    | ServiceEndpointAssertion(serviceId: u16, text: bytes)
    | ServiceDisable(serviceId: u16, text: bytes)
    | PathMtu(pathId: u16, txLinkMtu: Option<u16>, txFrameMtu: Option<u16>,
              rxLinkMtu: Option<u16>, rxFrameMtu: Option<u16>)
    | ServiceSchedulerPolicy(serviceId: u16, fanout: u16, fanoutBelowBytes: u32, flowletIdleUs: u64,
                             flowletMaxHoldUs: u64, pathRunDatagrams: u32)
    | PathPressure(pathId: u16, lossPpm: u32, queueDepthPackets: u32, queueDepthBytes: u32, queueOldestAgeUs: u32,
                   sendFailures: u32, receiveGaps: u32, reorderDepthPackets: u32, localDrops: u32,
                   inFlightPackets: u32, inFlightBytes: u32, predictedDeliveryUs: u32,
                   reorderBufferPackets: u32, reorderBufferOldestAgeUs: u32)
    | SchedulerStatus(configuredMode: bytes, effectiveMode: bytes, rustMode: bytes)
    | DataTransmitSample(pathId: u16, firstSequence: u64, packetCount: u32, transmitUs: u64)

  // ----- constructor rules ----------------------------------------------------

  predicate ValidMtuPair(link: Option<u16>, frame: Option<u16>) {
    match (link, frame)
    case (None, None) => true
    case (Some(l), Some(f)) => 0 < f <= l
    case _ => false
  }

  predicate ValidText(text: bytes) { 1 <= |text| <= 255 }

  predicate ValidStatusText(text: bytes) { 1 <= |text| <= 63 }

  /** What the message's constructor accepts. */
  predicate Allowed(m: ControlMessage) {
    match m
    case PathAssignment(_, count, _) => count != 0
    case MissingRange(_, count) => count != 0
    case PathMetadata(_, text) => ValidText(text)
    case PathCapacity(_, tx, rx) => tx != Some(0) && rx != Some(0) && (tx.Some? || rx.Some?)
    case PathLatency(_, a, b, c, d) => a.Some? || b.Some? || c.Some? || d.Some?
    case InternalClockSync(exchangeId, _, mode, originUs, receiveUs, respondUs) =>
      exchangeId != 0 && originUs != 0 && (mode.Response? ==> receiveUs.Some? && respondUs.Some?)
    case SinkTime(_, unix, internal, _) => unix != 0 && internal != 0
    case ServiceMetadata(id, text) => id >= USER_SERVICE_ID_START && ValidText(text)
    case ServiceEndpointAssertion(id, text) => id >= USER_SERVICE_ID_START && ValidText(text)
    case ServiceDisable(id, text) => id >= USER_SERVICE_ID_START && ValidText(text)
    case PathMtu(_, txLink, txFrame, rxLink, rxFrame) =>
      ValidMtuPair(txLink, txFrame) && ValidMtuPair(rxLink, rxFrame) && (txLink.Some? || rxLink.Some?)
    case ServiceSchedulerPolicy(id, _, _, _, _, _) => id >= USER_SERVICE_ID_START
    case PathPressure(_, loss, _, _, _, _, _, _, _, _, _, _, _, _) => loss <= 1_000_000
    case SchedulerStatus(a, b, c) => ValidStatusText(a) && ValidStatusText(b) && ValidStatusText(c)
    case DataTransmitSample(_, _, count, transmitUs) => count != 0 && transmitUs != 0
  }

  predicate AnyZero(m: ControlMessage) {
    match m
    case PathCapacity(_, tx, rx) => tx == Some(0) || rx == Some(0)
    case PathLatency(_, a, b, c, d) => a == Some(0) || b == Some(0) || c == Some(0) || d == Some(0)
    case InternalClockSync(_, _, _, _, receiveUs, respondUs) => receiveUs == Some(0) || respondUs == Some(0)
    case PathMtu(_, a, b, c, d) => a == Some(0) || b == Some(0) || c == Some(0) || d == Some(0)
    case _ => false
  }

  predicate TextIsUtf8(utf8: bytes -> bool, m: ControlMessage) {
    match m
    case PathMetadata(_, text) => utf8(text)
    case ServiceMetadata(_, text) => utf8(text)
    case ServiceEndpointAssertion(_, text) => utf8(text)
    case ServiceDisable(_, text) => utf8(text)
    case SchedulerStatus(a, b, c) => utf8(a) && utf8(b) && utf8(c)
    case _ => true
  }

  /** Built by its constructor from proper strings, and no optional number is a present zero. */
  predicate Canonical(utf8: bytes -> bool, m: ControlMessage) {
    Allowed(m) && !AnyZero(m) && TextIsUtf8(utf8, m)
  }

  // ----- layouts of the numeric messages --------------------------------------

  function KindOf(m: ControlMessage): byte {
    match m
    case PathAssignment(_, _, _) => 1
    case MissingRange(_, _) => 2
    case PathMetadata(_, _) => 3
    case PathCapacity(_, _, _) => 4
    case PathLatency(_, _, _, _, _) => 5
    case InternalClockSync(_, _, _, _, _, _) => 6
    case SinkTime(_, _, _, _) => 7
    case ServiceMetadata(_, _) => 8
    case ServiceEndpointAssertion(_, _) => 9
    case ServiceDisable(_, _) => 10
    case PathMtu(_, _, _, _, _) => 11
    case ServiceSchedulerPolicy(_, _, _, _, _, _) => 12
    case PathPressure(_, _, _, _, _, _, _, _, _, _, _, _, _, _) => 13
    case SchedulerStatus(_, _, _) => 14
    case DataTransmitSample(_, _, _, _) => 15
  }

  predicate Numeric(kind: byte) { kind in {1, 2, 4, 5, 6, 7, 11, 12, 13, 15} }

  predicate Textual(kind: byte) { kind in {3, 8, 9, 10} }

  const STATUS_KIND: byte := 14

  function LayoutOf(kind: byte): Layout
    requires Numeric(kind)
  {
    if kind == 1 then [W64, W32, W16]
    else if kind == 2 then [W64, W32]
    else if kind == 4 then [W16, W64, W64]
    else if kind == 5 then [W16, W32, W32, W32, W32]
    else if kind == 6 then [W64, W16, W8, W64, W64, W64]
    else if kind == 7 then [W16, W64, W64, W8]
    else if kind == 11 then [W16, W16, W16, W16, W16]
    else if kind == 12 then [W16, W16, W32, W64, W64, W32]
    else if kind == 13 then [W16, W32, W32, W32, W32, W32, W32, W32, W32, W32, W32, W32, W32, W32]
    else [W16, W64, W32, W64]
  }

  /** An absent number is written as zero, and zero is read as absent. */
  function OrZero16(o: Option<u16>): u16 { if o.Some? then o.value else 0 }

  function OrZero32(o: Option<u32>): u32 { if o.Some? then o.value else 0 }

  function OrZero64(o: Option<u64>): u64 { if o.Some? then o.value else 0 }

  function Optional16(v: u16): Option<u16> { if v == 0 then None else Some(v) }

  function Optional32(v: u32): Option<u32> { if v == 0 then None else Some(v) }

  function Optional64(v: u64): Option<u64> { if v == 0 then None else Some(v) }

  function ModeByte(mode: ClockSyncMode): byte { if mode.Request? then 1 else 2 }

  function StateByte(state: NtpState): byte {
    match state case Unknown => 0 case Synchronized => 1 case Unsynchronized => 2
  }

  function Numbers(m: ControlMessage): seq<nat>
    requires Numeric(KindOf(m))
  {
    match m
    case PathAssignment(first, count, path) => [first, count, path]
    case MissingRange(first, count) => [first, count]
    case PathCapacity(path, tx, rx) => [path, OrZero64(tx), OrZero64(rx)]
    case PathLatency(path, a, b, c, d) => [path, OrZero32(a), OrZero32(b), OrZero32(c), OrZero32(d)]
    case InternalClockSync(id, path, mode, origin, receive, respond) =>
      [id, path, ModeByte(mode), origin, OrZero64(receive), OrZero64(respond)]
    case SinkTime(path, unix, internal, state) => [path, unix, internal, StateByte(state)]
    case PathMtu(path, a, b, c, d) => [path, OrZero16(a), OrZero16(b), OrZero16(c), OrZero16(d)]
    case ServiceSchedulerPolicy(id, fanout, below, idle, hold, run) => [id, fanout, below, idle, hold, run]
    case PathPressure(path, a, b, c, d, e, f, g, h, i, j, k, l, n) => [path, a, b, c, d, e, f, g, h, i, j, k, l, n]
    case DataTransmitSample(path, first, count, transmit) => [path, first, count, transmit]
  }

  lemma NumbersFit(m: ControlMessage)
    requires Numeric(KindOf(m))
    ensures Fits(LayoutOf(KindOf(m)), Numbers(m))
  {
  }

  function ModeOf(b: nat): Option<ClockSyncMode> {
    if b == 1 then Some(Request) else if b == 2 then Some(Response) else None
  }

  function StateOf(b: nat): Option<NtpState> {
    if b == 0 then Some(Unknown)
    else if b == 1 then Some(Synchronized)
    else if b == 2 then Some(Unsynchronized)
    else None
  }

  /** The message with these numbers, before its constructor has looked at it; only a mode or state byte can fail. */
  function FromNumbers(kind: byte, v: seq<nat>): Option<ControlMessage>
    requires Numeric(kind) && Fits(LayoutOf(kind), v)
  {
    if kind == 1 then Some(PathAssignment(v[0], v[1], v[2]))
    else if kind == 2 then Some(MissingRange(v[0], v[1]))
    else if kind == 4 then Some(PathCapacity(v[0], Optional64(v[1]), Optional64(v[2])))
    else if kind == 5 then
      Some(PathLatency(v[0], Optional32(v[1]), Optional32(v[2]), Optional32(v[3]), Optional32(v[4])))
    else if kind == 6 then
      if ModeOf(v[2]).None? then None
      else Some(InternalClockSync(v[0], v[1], ModeOf(v[2]).value, v[3], Optional64(v[4]), Optional64(v[5])))
    else if kind == 7 then
      if StateOf(v[3]).None? then None else Some(SinkTime(v[0], v[1], v[2], StateOf(v[3]).value))
    else if kind == 11 then Some(PathMtu(v[0], Optional16(v[1]), Optional16(v[2]), Optional16(v[3]), Optional16(v[4])))
    else if kind == 12 then Some(ServiceSchedulerPolicy(v[0], v[1], v[2], v[3], v[4], v[5]))
    else if kind == 13 then
      Some(PathPressure(v[0], v[1], v[2], v[3], v[4], v[5], v[6], v[7], v[8], v[9], v[10], v[11], v[12], v[13]))
    else Some(DataTransmitSample(v[0], v[1], v[2], v[3]))
  }

  lemma FromNumbersOfNumbers(m: ControlMessage)
    requires Numeric(KindOf(m))
    ensures Fits(LayoutOf(KindOf(m)), Numbers(m))
    ensures !AnyZero(m) ==> FromNumbers(KindOf(m), Numbers(m)) == Some(m)
  {
    NumbersFit(m);
  }

  lemma NumbersOfFromNumbers(kind: byte, v: seq<nat>)
    requires Numeric(kind) && Fits(LayoutOf(kind), v) && FromNumbers(kind, v).Some?
    ensures var m := FromNumbers(kind, v).value;
      KindOf(m) == kind && Numbers(m) == v && !AnyZero(m)
  {
    if kind == 13 {
      PressureNumbers(v);
    }
  }

  lemma PressureNumbers(v: seq<nat>)
    requires Fits(LayoutOf(13), v)
    ensures Numbers(FromNumbers(13, v).value) == v
  {
    assert v == [v[0], v[1], v[2], v[3], v[4], v[5], v[6], v[7], v[8], v[9], v[10], v[11], v[12], v[13]];
  }

  /** Where the fields lie in a value: the offset of every number. */
  function WrittenOffsets(kind: byte): seq<nat>
    requires Numeric(kind)
  {
    if kind == 1 then [0, 8, 12]
    else if kind == 2 then [0, 8]
    else if kind == 4 then [0, 2, 10]
    else if kind == 5 then [0, 2, 6, 10, 14]
    else if kind == 6 then [0, 8, 10, 11, 19, 27]
    else if kind == 7 then [0, 2, 10, 18]
    else if kind == 11 then [0, 2, 4, 6, 8]
    else if kind == 12 then [0, 2, 4, 8, 16, 24]
    else if kind == 13 then [0, 2, 6, 10, 14, 18, 22, 26, 30, 34, 38, 42, 46, 50]
    else [0, 2, 10, 14]
  }

  function WrittenLength(kind: byte): nat
    requires Numeric(kind)
  {
    if kind == 1 then 14 else if kind == 2 then 12 else if kind == 4 || kind == 5 then 18 else if kind == 6 then 35
    else if kind == 7 then 19 else if kind == 11 then 10 else if kind == 12 then 28 else if kind == 13 then 54 else 22
  }

  /** The layouts are these offsets and lengths. */
  lemma LayoutsAsWritten(kind: byte)
    requires Numeric(kind)
    ensures Total(LayoutOf(kind)) == WrittenLength(kind) && Offsets(LayoutOf(kind), 0) == WrittenOffsets(kind)
  {
    hide Total, Offsets;
    assert Placed(LayoutOf(kind), WrittenOffsets(kind), WrittenLength(kind));
    PlacedAt(LayoutOf(kind), WrittenOffsets(kind), WrittenLength(kind));
  }

  // ----- text -----------------------------------------------------------------

  function WithText(kind: byte, id: u16, text: bytes): (m: ControlMessage)
    requires Textual(kind)
    ensures KindOf(m) == kind && IdOf(m) == id && m.text == text
  {
    if kind == 3 then PathMetadata(id, text)
    else if kind == 8 then ServiceMetadata(id, text)
    else if kind == 9 then ServiceEndpointAssertion(id, text)
    else ServiceDisable(id, text)
  }

  function IdOf(m: ControlMessage): u16
    requires Textual(KindOf(m))
  {
    if m.PathMetadata? then m.pathId else m.serviceId
  }

  /** The length byte keeps the low 8 bits of the length. */
  function EncodeText(id: u16, text: bytes): bytes { Be16(id) + [|text| % 0x100] + text }

  function DecodeText(value: bytes): Option<(u16, bytes)> {
    if |value| < 3 || |value| != 3 + value[2] as int then None else Some((Read16(value, 0), value[3..]))
  }

  lemma DecodeTextOfEncode(id: u16, text: bytes)
    requires |text| <= 255
    ensures DecodeText(EncodeText(id, text)) == Some((id, text))
  {
    var s := EncodeText(id, text);
    assert s[0..2] == Be16(id);
    ReadBe16(s, 0, id);
    assert s[3..] == text;
  }

  lemma EncodeTextOfDecode(value: bytes)
    requires DecodeText(value).Some?
    ensures EncodeText(DecodeText(value).value.0, DecodeText(value).value.1) == value
  {
    BeRead16(value, 0);
    assert value == value[0..2] + [value[2]] + value[3..];
  }

  function EncodeShort(text: bytes): bytes { [|text| % 0x100] + text }

  function EncodeStatus(a: bytes, b: bytes, c: bytes): bytes { EncodeShort(a) + EncodeShort(b) + EncodeShort(c) }

  /** A length-prefixed string at `offset`, and where it ends. */
  function ReadShort(utf8: bytes -> bool, input: bytes, offset: nat): (r: Option<(bytes, nat)>)
    ensures r.Some? ==> offset < r.value.1 <= |input|
  {
    if offset >= |input| then None
    else
      var start, end := offset + 1, offset + 1 + input[offset] as int;
      if input[offset] == 0 || input[offset] > 63 || end > |input| || !utf8(input[start..end]) then None
      else Some((input[start..end], end))
  }

  function DecodeStatus(utf8: bytes -> bool, value: bytes): Option<ControlMessage> {
    var a := ReadShort(utf8, value, 0);
    if a.None? then None
    else
      var b := ReadShort(utf8, value, a.value.1);
      if b.None? then None
      else
        var c := ReadShort(utf8, value, b.value.1);
        if c.None? || c.value.1 != |value| then None
        else Some(SchedulerStatus(a.value.0, b.value.0, c.value.0))
  }

  lemma ReadShortAt(utf8: bytes -> bool, before: bytes, text: bytes, after: bytes)
    requires ValidStatusText(text) && utf8(text)
    ensures ReadShort(utf8, before + EncodeShort(text) + after, |before|) == Some((text, |before| + 1 + |text|))
  {
    var s := before + EncodeShort(text) + after;
    assert s[|before|] == |text|;
    assert s[|before| + 1..|before| + 1 + |text|] == text;
  }

  lemma DecodeStatusOfEncode(utf8: bytes -> bool, a: bytes, b: bytes, c: bytes)
    requires ValidStatusText(a) && ValidStatusText(b) && ValidStatusText(c) && utf8(a) && utf8(b) && utf8(c)
    ensures DecodeStatus(utf8, EncodeStatus(a, b, c)) == Some(SchedulerStatus(a, b, c))
  {
    hide ReadShort;
    var s := EncodeStatus(a, b, c);
    ReadShortAt(utf8, [], a, EncodeShort(b) + EncodeShort(c));
    assert s == [] + EncodeShort(a) + (EncodeShort(b) + EncodeShort(c));
    ReadShortAt(utf8, EncodeShort(a), b, EncodeShort(c));
    ReadShortAt(utf8, EncodeShort(a) + EncodeShort(b), c, []);
    assert s == EncodeShort(a) + EncodeShort(b) + EncodeShort(c) + [];
  }

  lemma ShortReadBack(utf8: bytes -> bool, value: bytes, offset: nat)
    requires ReadShort(utf8, value, offset).Some?
    ensures var (text, end) := ReadShort(utf8, value, offset).value;
      ValidStatusText(text) && utf8(text) && EncodeShort(text) == value[offset..end]
  {
  }

  lemma EncodeStatusOfDecode(utf8: bytes -> bool, value: bytes)
    requires DecodeStatus(utf8, value).Some?
    ensures var m := DecodeStatus(utf8, value).value;
      m.SchedulerStatus? && Allowed(m) && TextIsUtf8(utf8, m)
        && EncodeStatus(m.configuredMode, m.effectiveMode, m.rustMode) == value
  {
    hide ReadShort, EncodeShort;
    var a := ReadShort(utf8, value, 0).value;
    var b := ReadShort(utf8, value, a.1).value;
    ShortReadBack(utf8, value, 0);
    ShortReadBack(utf8, value, a.1);
    ShortReadBack(utf8, value, b.1);
    assert value == value[0..a.1] + value[a.1..b.1] + value[b.1..|value|];
  }

  // ----- one message ----------------------------------------------------------

  function EncodeMessage(m: ControlMessage): bytes {
    if Numeric(KindOf(m)) then
      NumbersFit(m);
      Pack(LayoutOf(KindOf(m)), Numbers(m))
    else if Textual(KindOf(m)) then EncodeText(IdOf(m), m.text)
    else EncodeStatus(m.configuredMode, m.effectiveMode, m.rustMode)
  }

  /** The message a value spells, before its constructor has looked at it. */
  function ParseMessage(utf8: bytes -> bool, kind: byte, value: bytes): Option<ControlMessage> {
    if Numeric(kind) then
      LayoutRoundTrip(LayoutOf(kind), [], value);
      match Unpack(LayoutOf(kind), value)
      case None => None
      case Some(v) => FromNumbers(kind, v)
    else if Textual(kind) then
      match DecodeText(value)
      case None => None
      case Some((id, text)) => if utf8(text) then Some(WithText(kind, id, text)) else None
    else if kind == STATUS_KIND then DecodeStatus(utf8, value)
    else None
  }

  function DecodeMessage(utf8: bytes -> bool, kind: byte, value: bytes): Option<ControlMessage> {
    var m := ParseMessage(utf8, kind, value);
    if m.Some? && Allowed(m.value) then m else None
  }

  /** What decoding accepts is canonical, and encoding it gives the accepted bytes back. */
  lemma MessageReencodes(utf8: bytes -> bool, kind: byte, value: bytes)
    requires DecodeMessage(utf8, kind, value).Some?
    ensures var m := DecodeMessage(utf8, kind, value).value;
      KindOf(m) == kind && Canonical(utf8, m) && EncodeMessage(m) == value
  {
    hide Pack, Unpack, FromNumbers, Numbers, DecodeText, EncodeText, DecodeStatus, EncodeStatus, LayoutOf, Allowed;
    if Numeric(kind) {
      LayoutRoundTrip(LayoutOf(kind), [], value);
      NumbersOfFromNumbers(kind, Unpack(LayoutOf(kind), value).value);
    } else if Textual(kind) {
      EncodeTextOfDecode(value);
    } else {
      EncodeStatusOfDecode(utf8, value);
    }
  }

  lemma CanonicalDecodes(utf8: bytes -> bool, m: ControlMessage)
    requires Canonical(utf8, m)
    ensures DecodeMessage(utf8, KindOf(m), EncodeMessage(m)) == Some(m)
  {
    hide Pack, Unpack, FromNumbers, Numbers, DecodeText, EncodeText, DecodeStatus, EncodeStatus, LayoutOf;
    if Numeric(KindOf(m)) {
      NumbersFit(m);
      LayoutRoundTrip(LayoutOf(KindOf(m)), Numbers(m), []);
      FromNumbersOfNumbers(m);
    } else if Textual(KindOf(m)) {
      DecodeTextOfEncode(IdOf(m), m.text);
    } else {
      DecodeStatusOfEncode(utf8, m.configuredMode, m.effectiveMode, m.rustMode);
    }
  }

  /** A message survives the wire exactly when it is canonical. */
  lemma MessageRoundTrip(utf8: bytes -> bool, m: ControlMessage)
    ensures DecodeMessage(utf8, KindOf(m), EncodeMessage(m)) == Some(m) <==> Canonical(utf8, m)
  {
    hide EncodeMessage, DecodeMessage, Canonical, KindOf;
    if Canonical(utf8, m) {
      CanonicalDecodes(utf8, m);
    }
    if DecodeMessage(utf8, KindOf(m), EncodeMessage(m)) == Some(m) {
      MessageReencodes(utf8, KindOf(m), EncodeMessage(m));
    }
  }

  /** A latency report of a present zero passes its constructor but is not readable at the other end. */
  lemma ZeroLatencyIsRefused(utf8: bytes -> bool, path: u16)
    ensures var m := PathLatency(path, Some(0), None, None, None);
      Allowed(m) && DecodeMessage(utf8, KindOf(m), EncodeMessage(m)) == None
  {
    hide Pack, Unpack, LayoutOf, FromNumbers, Numbers;
    var m := PathLatency(path, Some(0), None, None, None);
    NumbersFit(m);
    LayoutRoundTrip(LayoutOf(5), Numbers(m), []);
    ZeroLatencyNumbers(path);
  }

  lemma ZeroLatencyNumbers(path: u16)
    ensures var m := PathLatency(path, Some(0), None, None, None);
      Fits(LayoutOf(5), Numbers(m)) && FromNumbers(5, Numbers(m)) == Some(PathLatency(path, None, None, None, None))
  {
    NumbersFit(PathLatency(path, Some(0), None, None, None));
  }
}
