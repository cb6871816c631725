/** Where every field of every control message lies, byte by byte. */
module ControlLayout {
  import opened Bytes
  import opened Fields
  import opened Control
  import opened Records

  /** A field of so many bytes at an offset holds this number, big-endian. */
  ghost predicate Holds(value: bytes, at: nat, size: nat, v: int) {
    at + size <= |value| && BigEndian(value[at..at + size]) == v
  }

  /** An optional number is zero when absent. */
  ghost predicate HoldsOptional(value: bytes, at: nat, size: nat, v: Option<int>) {
    Holds(value, at, size, if v.Some? then v.value else 0)
  }

  /** The value of a numeric message: its length and its fields. */
  ghost predicate LaidOut(m: ControlMessage, value: bytes) {
    match m
    case PathAssignment(first, count, path) =>
      |value| == 14 && Holds(value, 0, 8, first) && Holds(value, 8, 4, count) && Holds(value, 12, 2, path)
    case MissingRange(first, count) => |value| == 12 && Holds(value, 0, 8, first) && Holds(value, 8, 4, count)
    case PathCapacity(path, tx, rx) =>
      |value| == 18 && Holds(value, 0, 2, path) && HoldsOptional(value, 2, 8, tx) && HoldsOptional(value, 10, 8, rx)
    case PathLatency(path, txCurrent, txMean, rxCurrent, rxMean) =>
      && |value| == 18 && Holds(value, 0, 2, path)
      && HoldsOptional(value, 2, 4, txCurrent) && HoldsOptional(value, 6, 4, txMean)
      && HoldsOptional(value, 10, 4, rxCurrent) && HoldsOptional(value, 14, 4, rxMean)
    case InternalClockSync(id, path, mode, origin, receive, respond) =>
      && |value| == 35 && Holds(value, 0, 8, id) && Holds(value, 8, 2, path)
      && Holds(value, 10, 1, if mode.Request? then 1 else 2) && Holds(value, 11, 8, origin)
      && HoldsOptional(value, 19, 8, receive) && HoldsOptional(value, 27, 8, respond)
    case SinkTime(path, unix, internal, state) =>
      && |value| == 19 && Holds(value, 0, 2, path) && Holds(value, 2, 8, unix) && Holds(value, 10, 8, internal)
      && Holds(value, 18, 1, match state case Unknown => 0 case Synchronized => 1 case Unsynchronized => 2)
    case PathMtu(path, txLink, txFrame, rxLink, rxFrame) =>
      && |value| == 10 && Holds(value, 0, 2, path)
      && HoldsOptional(value, 2, 2, txLink) && HoldsOptional(value, 4, 2, txFrame)
      && HoldsOptional(value, 6, 2, rxLink) && HoldsOptional(value, 8, 2, rxFrame)
    case ServiceSchedulerPolicy(id, fanout, below, idle, hold, run) =>
      && |value| == 28 && Holds(value, 0, 2, id) && Holds(value, 2, 2, fanout) && Holds(value, 4, 4, below)
      && Holds(value, 8, 8, idle) && Holds(value, 16, 8, hold) && Holds(value, 24, 4, run)
    case PathPressure(path, a, b, c, d, e, f, g, h, i, j, k, l, n) =>
      && |value| == 54 && Holds(value, 0, 2, path)
      && Holds(value, 2, 4, a) && Holds(value, 6, 4, b) && Holds(value, 10, 4, c) && Holds(value, 14, 4, d)
      && Holds(value, 18, 4, e) && Holds(value, 22, 4, f) && Holds(value, 26, 4, g) && Holds(value, 30, 4, h)
      && Holds(value, 34, 4, i) && Holds(value, 38, 4, j) && Holds(value, 42, 4, k) && Holds(value, 46, 4, l)
      && Holds(value, 50, 4, n)
    case DataTransmitSample(path, first, count, transmit) =>
      && |value| == 22 && Holds(value, 0, 2, path) && Holds(value, 2, 8, first) && Holds(value, 10, 4, count)
      && Holds(value, 14, 8, transmit)
    case PathMetadata(id, text) => LaidOutText(id, text, value)
    case ServiceMetadata(id, text) => LaidOutText(id, text, value)
    case ServiceEndpointAssertion(id, text) => LaidOutText(id, text, value)
    case ServiceDisable(id, text) => LaidOutText(id, text, value)
    case SchedulerStatus(a, b, c) =>
      value == [|a| % 0x100] + a + [|b| % 0x100] + b + [|c| % 0x100] + c
  }

  /** An id, a length byte, the text. */
  ghost predicate LaidOutText(id: u16, text: bytes, value: bytes) {
    Holds(value, 0, 2, id) && |value| == 3 + |text| && value[2] == |text| % 0x100 && value[3..] == text
  }

  lemma PutHolds(w: Width, v: nat)
    requires v < w.Bound()
    ensures BigEndian(Put(w, v)) == v
  {
    hide Be16, Be32, Be64;
    match w
    case W8 => assert [v][..0] == [];
    case W16 => BigEndian16(v);
    case W32 => BigEndian32(v);
    case W64 => BigEndian64(v);
  }

  lemma HoldsBehind(head: bytes, tail: bytes, at: nat, size: nat, v: int)
    requires Holds(tail, at, size, v)
    ensures Holds(head + tail, |head| + at, size, v)
  {
    hide BigEndian;
    var k := |head| + at;
    assert (head + tail)[k..k + size] == tail[at..at + size];
  }

  lemma HoldsInFront(w: Width, v: nat, tail: bytes)
    requires v < w.Bound()
    ensures Holds(Put(w, v) + tail, 0, w.Size(), v)
  {
    hide BigEndian, Put;
    PutHolds(w, v);
    assert (Put(w, v) + tail)[0..0 + w.Size()] == Put(w, v);
  }

  /** The `i`-th number of a layout is written at its offset. */
  lemma {:induction false} PackedAt(layout: Layout, values: seq<nat>, at: nat, i: nat)
    requires Fits(layout, values) && i < |layout|
    ensures var o := Offsets(layout, at)[i];
      o >= at && Holds(Pack(layout, values), o - at, layout[i].Size(), values[i])
    decreases |layout|
  {
    hide Put, Width.Bound, Width.Size, Pack, Total, Holds;
    PackStep(layout, values);
    var head, tail, size := Put(layout[0], values[0]), Pack(layout[1..], values[1..]), layout[0].Size();
    if i == 0 {
      HoldsInFront(layout[0], values[0], tail);
    } else {
      PackedAt(layout[1..], values[1..], at + size, i - 1);
      var o := Offsets(layout[1..], at + size)[i - 1] - (at + size);
      assert layout[i] == layout[1..][i - 1] && values[i] == values[1..][i - 1];
      HoldsBehind(head, tail, o, layout[i].Size(), values[i]);
    }
  }

  lemma NumberLies(m: ControlMessage, i: nat)
    requires Numeric(KindOf(m)) && i < |Numbers(m)|
    ensures |Numbers(m)| == |LayoutOf(KindOf(m))| == |WrittenOffsets(KindOf(m))|
    ensures Holds(EncodeMessage(m), WrittenOffsets(KindOf(m))[i], LayoutOf(KindOf(m))[i].Size(), Numbers(m)[i])
  {
    hide Offsets, Pack, Fits, Holds, Total, LayoutOf, WrittenOffsets, Numbers, KindOf;
    NumbersFit(m);
    var kind := KindOf(m);
    SameLength(LayoutOf(kind), Numbers(m));
    LayoutsAsWritten(kind);
    PackedAt(LayoutOf(kind), Numbers(m), 0, i);
  }

  lemma SameLength(layout: Layout, values: seq<nat>)
    requires Fits(layout, values)
    ensures |layout| == |values|
  {
  }

  lemma NumericLength(m: ControlMessage)
    requires Numeric(KindOf(m))
    ensures |EncodeMessage(m)| == WrittenLength(KindOf(m))
  {
    hide Pack, Total, WrittenLength, LayoutOf, Numbers, KindOf, Offsets, WrittenOffsets;
    NumbersFit(m);
    LayoutsAsWritten(KindOf(m));
  }

  lemma TextLies(id: u16, text: bytes)
    ensures LaidOutText(id, text, EncodeText(id, text))
  {
    hide Be16, BigEndian;
    var value := EncodeText(id, text);
    BigEndian16(id);
    assert value[0..0 + 2] == Be16(id) && value[3..] == text;
  }

  /** Every message is laid out as documented. */
  lemma EveryFieldLies(m: ControlMessage)
    ensures LaidOut(m, EncodeMessage(m))
  {
    hide Holds, EncodeText;
    if Numeric(KindOf(m)) {
      hide EncodeMessage;
      NumericLength(m);
      if m.PathPressure? {
        PressureLies(m);
      } else {
        FewLie(m);
      }
    } else if Textual(KindOf(m)) {
      TextLies(IdOf(m), m.text);
    }
  }

  lemma FewLie(m: ControlMessage)
    requires Numeric(KindOf(m)) && !m.PathPressure? && |EncodeMessage(m)| == WrittenLength(KindOf(m))
    ensures LaidOut(m, EncodeMessage(m))
  {
    hide Holds, EncodeMessage;
    var n := |Numbers(m)|;
    NumberLies(m, 0);
    NumberLies(m, 1);
    if n > 2 {
      NumberLies(m, 2);
    }
    if n > 3 {
      NumberLies(m, 3);
    }
    if n > 4 {
      NumberLies(m, 4);
    }
    if n > 5 {
      NumberLies(m, 5);
    }
  }

  lemma PressureLies(m: ControlMessage)
    requires m.PathPressure? && |EncodeMessage(m)| == WrittenLength(13)
    ensures LaidOut(m, EncodeMessage(m))
  {
    hide Holds, EncodeMessage;
    forall i: nat | i < 14
      ensures Holds(EncodeMessage(m), WrittenOffsets(13)[i], LayoutOf(13)[i].Size(), Numbers(m)[i])
    {
      NumberLies(m, i);
    }
    var v, o, l := Numbers(m), WrittenOffsets(13), LayoutOf(13);
    assert o[0] == 0 && o[1] == 2 && o[2] == 6 && o[3] == 10 && o[4] == 14 && o[5] == 18 && o[6] == 22;
    assert o[7] == 26 && o[8] == 30 && o[9] == 34 && o[10] == 38 && o[11] == 42 && o[12] == 46 && o[13] == 50;
    assert v[0] == m.pathId && v[1] == m.lossPpm && v[2] == m.queueDepthPackets && v[3] == m.queueDepthBytes;
    assert v[4] == m.queueOldestAgeUs && v[5] == m.sendFailures && v[6] == m.receiveGaps;
    assert v[7] == m.reorderDepthPackets && v[8] == m.localDrops && v[9] == m.inFlightPackets;
    assert v[10] == m.inFlightBytes && v[11] == m.predictedDeliveryUs && v[12] == m.reorderBufferPackets;
    assert v[13] == m.reorderBufferOldestAgeUs;
  }

  /** A payload begins with version 1 and the number of records. */
  lemma PayloadBegins(rs: seq<Record>)
    requires |rs| <= U16_MAX
    ensures var s := Frame(rs); s[0] == 1 && Holds(s, 1, 2, |rs|) && s[3..] == EncodeRecords(rs)
  {
    hide Holds, EncodeRecords, Be16;
    HoldsInFront(W16, |rs|, EncodeRecords(rs));
    HoldsBehind([CONTROL_PAYLOAD_VERSION], Be16(|rs|) + EncodeRecords(rs), 0, 2, |rs|);
    assert Frame(rs) == [CONTROL_PAYLOAD_VERSION] + (Be16(|rs|) + EncodeRecords(rs));
  }

  /** A record is its type, its length and its value. */
  lemma RecordBegins(r: Record)
    requires Short(r)
    ensures var s := EncodeRecord(r); s[0] == r.kind && Holds(s, 1, 2, |r.value|) && s[3..] == r.value
  {
    hide Holds, Be16;
    HoldsInFront(W16, |r.value|, r.value);
    HoldsBehind([r.kind], Be16(|r.value|) + r.value, 0, 2, |r.value|);
    assert EncodeRecord(r) == [r.kind] + (Be16(|r.value|) + r.value);
  }

  // ----- what is accepted, byte by byte ---------------------------------------

  /** The big-endian number in so many bytes at an offset. */
  ghost function Field(value: bytes, at: nat, size: nat): nat
    requires at + size <= |value|
  {
    BigEndian(value[at..at + size])
  }

  /** An MTU pair on the wire: both absent, or a frame size that fits the link. */
  predicate PairOk(link: nat, frame: nat) { (link == 0 && frame == 0) || 0 < frame <= link }

  /** The values of a numeric kind that are accepted. */
  ghost predicate TakesNumbers(kind: byte, s: bytes)
    requires Numeric(kind)
  {
    if kind == 1 then |s| == 14 && Field(s, 8, 4) != 0
    else if kind == 2 then |s| == 12 && Field(s, 8, 4) != 0
    else if kind == 4 then |s| == 18 && (Field(s, 2, 8) != 0 || Field(s, 10, 8) != 0)
    else if kind == 5 then
      |s| == 18 && (Field(s, 2, 4) != 0 || Field(s, 6, 4) != 0 || Field(s, 10, 4) != 0 || Field(s, 14, 4) != 0)
    else if kind == 6 then
      && |s| == 35 && Field(s, 0, 8) != 0 && 1 <= Field(s, 10, 1) <= 2 && Field(s, 11, 8) != 0
      && (Field(s, 10, 1) == 2 ==> Field(s, 19, 8) != 0 && Field(s, 27, 8) != 0)
    else if kind == 7 then |s| == 19 && Field(s, 2, 8) != 0 && Field(s, 10, 8) != 0 && Field(s, 18, 1) <= 2
    else if kind == 11 then
      && |s| == 10 && PairOk(Field(s, 2, 2), Field(s, 4, 2)) && PairOk(Field(s, 6, 2), Field(s, 8, 2))
      && (Field(s, 2, 2) != 0 || Field(s, 6, 2) != 0)
    else if kind == 12 then |s| == 28 && Field(s, 0, 2) >= 256
    else if kind == 13 then |s| == 54 && Field(s, 2, 4) <= 1_000_000
    else |s| == 22 && Field(s, 10, 4) != 0 && Field(s, 14, 8) != 0
  }

  /** The values of a text kind that are accepted: an id, which must be a user's for a service, and a text of one to 255
      bytes that its length byte counts. */
  ghost predicate TakesText(utf8: bytes -> bool, kind: byte, s: bytes) {
    && |s| > 3 && |s| == 3 + s[2] as int && utf8(s[3..])
    && (kind != 3 ==> Field(s, 0, 2) >= 256)
  }

  lemma GetIsField(w: Width, s: bytes, at: nat)
    requires at + w.Size() <= |s|
    ensures Get(w, s, at) == Field(s, at, w.Size())
  {
    hide BigEndian, Get, Put;
    PutGet(w, s, at);
    PutHolds(w, Get(w, s, at));
  }

  lemma UnpackedIsField(kind: byte, s: bytes, i: nat)
    requires Numeric(kind) && |s| == WrittenLength(kind) && i < |LayoutOf(kind)|
    ensures |WrittenOffsets(kind)| == |LayoutOf(kind)|
    ensures WrittenOffsets(kind)[i] + LayoutOf(kind)[i].Size() <= |s|
    ensures Unpack(LayoutOf(kind), s).Some? && |Unpack(LayoutOf(kind), s).value| == |LayoutOf(kind)|
    ensures Unpack(LayoutOf(kind), s).value[i] == Field(s, WrittenOffsets(kind)[i], LayoutOf(kind)[i].Size())
  {
    hide Offsets, Total, Get, UnpackFrom, LayoutOf, WrittenOffsets, WrittenLength;
    LayoutsAsWritten(kind);
    ReadAtOffsets(LayoutOf(kind), s, 0, i);
    GetIsField(LayoutOf(kind)[i], s, Offsets(LayoutOf(kind), 0)[i]);
  }

  lemma WrongLengthIsRefused(utf8: bytes -> bool, kind: byte, s: bytes)
    requires Numeric(kind) && |s| != WrittenLength(kind)
    ensures DecodeMessage(utf8, kind, s).None? && !TakesNumbers(kind, s)
  {
    hide Total, Offsets, UnpackFrom;
    LayoutsAsWritten(kind);
  }

  /** The numbers of a kind that are accepted. */
  predicate TakesValues(kind: byte, v: seq<nat>)
    requires Numeric(kind) && |v| == |LayoutOf(kind)|
  {
    if kind == 1 || kind == 2 then v[1] != 0
    else if kind == 4 then v[1] != 0 || v[2] != 0
    else if kind == 5 then v[1] != 0 || v[2] != 0 || v[3] != 0 || v[4] != 0
    else if kind == 6 then v[0] != 0 && 1 <= v[2] <= 2 && v[3] != 0 && (v[2] == 2 ==> v[4] != 0 && v[5] != 0)
    else if kind == 7 then v[1] != 0 && v[2] != 0 && v[3] <= 2
    else if kind == 11 then PairOk(v[1], v[2]) && PairOk(v[3], v[4]) && (v[1] != 0 || v[3] != 0)
    else if kind == 12 then v[0] >= 256
    else if kind == 13 then v[1] <= 1_000_000
    else v[2] != 0 && v[3] != 0
  }

  lemma ValuesTaken(kind: byte, v: seq<nat>)
    requires Numeric(kind) && Fits(LayoutOf(kind), v)
    ensures FromNumbers(kind, v).Some? && Allowed(FromNumbers(kind, v).value) <==> TakesValues(kind, v)
  {
  }

  lemma FieldsTaken(kind: byte, s: bytes)
    requires Numeric(kind) && |s| == WrittenLength(kind)
    ensures Unpack(LayoutOf(kind), s).Some? && |Unpack(LayoutOf(kind), s).value| == |LayoutOf(kind)|
    ensures TakesValues(kind, Unpack(LayoutOf(kind), s).value) <==> TakesNumbers(kind, s)
  {
    hide Field, Unpack;
    var n := |LayoutOf(kind)|;
    UnpackedIsField(kind, s, 0);
    UnpackedIsField(kind, s, 1);
    if n > 2 {
      UnpackedIsField(kind, s, 2);
    }
    if n > 3 {
      UnpackedIsField(kind, s, 3);
    }
    if n > 4 {
      UnpackedIsField(kind, s, 4);
    }
    if n > 5 {
      UnpackedIsField(kind, s, 5);
    }
  }

  lemma NumbersTaken(utf8: bytes -> bool, kind: byte, s: bytes)
    requires Numeric(kind) && |s| == WrittenLength(kind)
    ensures DecodeMessage(utf8, kind, s).Some? <==> TakesNumbers(kind, s)
  {
    hide Unpack, LayoutOf, WrittenLength, TakesNumbers, TakesValues, Allowed, FromNumbers;
    FieldsTaken(kind, s);
    LayoutRoundTrip(LayoutOf(kind), [], s);
    ValuesTaken(kind, Unpack(LayoutOf(kind), s).value);
  }

  lemma TextTaken(utf8: bytes -> bool, kind: byte, s: bytes)
    requires Textual(kind)
    ensures DecodeMessage(utf8, kind, s).Some? <==> TakesText(utf8, kind, s)
  {
    if |s| >= 3 {
      GetIsField(W16, s, 0);
    }
  }

  /** A status: three texts of one to 63 bytes, each behind its length. */
  ghost predicate StatusIs(utf8: bytes -> bool, s: bytes, a: bytes, b: bytes, c: bytes) {
    && 0 < |a| < 64 && 0 < |b| < 64 && 0 < |c| < 64 && utf8(a) && utf8(b) && utf8(c)
    && s == [|a|] + a + [|b|] + b + [|c|] + c
  }

  lemma StatusTaken(utf8: bytes -> bool, s: bytes)
    ensures DecodeMessage(utf8, 14, s).Some? <==> exists a, b, c :: StatusIs(utf8, s, a, b, c)
  {
    hide DecodeStatus, EncodeStatus;
    if DecodeMessage(utf8, 14, s).Some? {
      EncodeStatusOfDecode(utf8, s);
      var m := DecodeStatus(utf8, s).value;
      StatusBytes(m.configuredMode, m.effectiveMode, m.rustMode);
      assert StatusIs(utf8, s, m.configuredMode, m.effectiveMode, m.rustMode);
    }
    if a, b, c :| StatusIs(utf8, s, a, b, c) {
      DecodeStatusOfEncode(utf8, a, b, c);
      StatusBytes(a, b, c);
    }
  }

  lemma StatusBytes(a: bytes, b: bytes, c: bytes)
    requires |a| < 64 && |b| < 64 && |c| < 64
    ensures EncodeStatus(a, b, c) == [|a|] + a + [|b|] + b + [|c|] + c
  {
    assert EncodeShort(a) == [|a|] + a && EncodeShort(b) == [|b|] + b && EncodeShort(c) == [|c|] + c;
  }

  /** Exactly the values each kind accepts, said of their bytes. */
  lemma TakenExactly(utf8: bytes -> bool, kind: byte, s: bytes)
    ensures Numeric(kind) ==> (DecodeMessage(utf8, kind, s).Some? <==> TakesNumbers(kind, s))
    ensures Textual(kind) ==> (DecodeMessage(utf8, kind, s).Some? <==> TakesText(utf8, kind, s))
    ensures kind == 14 ==> (DecodeMessage(utf8, kind, s).Some? <==> exists a, b, c :: StatusIs(utf8, s, a, b, c))
    ensures !Numeric(kind) && !Textual(kind) && kind != 14 ==> DecodeMessage(utf8, kind, s).None?
  {
    hide TakesNumbers, TakesText, StatusIs;
    if Numeric(kind) {
      hide DecodeMessage;
      if |s| == WrittenLength(kind) {
        NumbersTaken(utf8, kind, s);
      } else {
        WrongLengthIsRefused(utf8, kind, s);
      }
    } else if Textual(kind) {
      hide DecodeMessage;
      TextTaken(utf8, kind, s);
    } else if kind == 14 {
      hide DecodeMessage;
      StatusTaken(utf8, s);
    }
  }
}
