/** The Python decoder of control payloads: what it skips, and what it makes of payloads the Rust decoder accepts. */
module PythonControl {
  import opened Bytes
  import opened Fields
  import opened Records
  import C = Control
  import P = ControlPayload

  /** Each table maps an id to the value's remaining numbers, in order; an absent number is `None`. */
  datatype ControlFrame = ControlFrame(
    pathMetadata: map<nat, bytes>,
    serviceMetadata: map<nat, bytes>,
    serviceEndpointAssertions: map<nat, bytes>,
    serviceDisables: map<nat, bytes>,
    serviceSchedulerPolicies: map<nat, seq<nat>>,
    pathCapacityBps: map<nat, seq<Option<int>>>,
    pathLatencyUs: map<nat, seq<Option<int>>>,
    pathLatencyQuality: map<nat, seq<Option<int>>>,
    pathLatencyStats: map<nat, seq<Option<int>>>,
    pathMtu: map<nat, seq<Option<int>>>,
    pathPressure: map<nat, seq<nat>>,
    schedulerStatus: Option<(bytes, bytes, bytes)>,
    dataTransmitSamples: seq<seq<nat>>,
    internalClockSync: seq<(seq<nat>, seq<Option<int>>)>,
    sinkTime: seq<seq<nat>>)

  const EMPTY: ControlFrame :=
    ControlFrame(map[], map[], map[], map[], map[], map[], map[], map[], map[], map[], map[], None, [], [], [])

  predicate Known(kind: byte) { 3 <= kind <= 17 }

  predicate Numeric(kind: byte) { kind in {4, 5, 6, 7, 11, 12, 13, 15, 16, 17} }

  /** What is known is what has a layout of numbers or of text. */
  lemma KnownHasLayout(kind: byte)
    ensures Known(kind) <==> Numeric(kind) || C.Textual(kind) || kind == C.STATUS_KIND
  {
  }

  function LayoutOf(kind: byte): Layout
    requires Numeric(kind)
  {
    if kind == 4 then [W16, W64, W64]
    else if kind == 5 then [W16, W32, W32, W32, W32]
    else if kind == 6 then [W64, W16, W8, W64, W64, W64]
    else if kind == 7 then [W16, W64, W64, W8]
    else if kind == 11 then [W16, W16, W16, W16, W16]
    else if kind == 12 then [W16, W16, W32, W64, W64, W32, W8]
    else if kind == 13 then [W16, W32, W32, W32, W32, W32, W32, W32, W32, W32, W32, W32, W32, W32, W32]
    else if kind == 15 then [W16, W64, W32, W64]
    else if kind == 16 then [W16, W8, W8]
    else [W16, W32, W32, W32, W32, W32, W32]
  }

  /** An MTU pair as the wire has it, zero for an absent number. */
  predicate ValidMtuPair(link: nat, frame: nat) {
    (link == 0 && frame == 0) || 0 < frame <= link
  }

  predicate Accepts(kind: byte, v: seq<nat>)
    requires Numeric(kind) && |v| == |LayoutOf(kind)|
  {
    if kind == 6 then 1 <= v[2] <= 2 && v[0] != 0 && v[3] != 0 && (v[2] == 2 ==> v[4] != 0 && v[5] != 0)
    else if kind == 7 then v[3] <= 2 && v[1] != 0 && v[2] != 0
    else if kind == 11 then ValidMtuPair(v[1], v[2]) && ValidMtuPair(v[3], v[4]) && (v[1] != 0 || v[3] != 0)
    else if kind == 12 then v[0] >= C.USER_SERVICE_ID_START && v[6] <= 2
    else if kind == 13 then v[1] <= 1_000_000
    else if kind == 15 then v[2] != 0 && v[3] != 0
    else if kind == 16 then v[1] <= 5 && v[2] <= 4
    else true
  }

  function OrNone(v: nat): Option<int> { if v == 0 then None else Some(v) }

  function OrNones(v: seq<nat>): seq<Option<int>> { seq(|v|, i requires 0 <= i < |v| => OrNone(v[i])) }

  function Store(f: ControlFrame, kind: byte, v: seq<nat>): ControlFrame
    requires Numeric(kind) && |v| == |LayoutOf(kind)|
  {
    f.(pathCapacityBps := if kind == 4 then f.pathCapacityBps[v[0] := OrNones(v[1..])] else f.pathCapacityBps,
       pathLatencyUs := if kind == 5 then f.pathLatencyUs[v[0] := OrNones(v[1..])] else f.pathLatencyUs,
       internalClockSync :=
         if kind == 6 then f.internalClockSync + [(v[..4], OrNones(v[4..]))] else f.internalClockSync,
       sinkTime := if kind == 7 then f.sinkTime + [v] else f.sinkTime,
       pathMtu := if kind == 11 then f.pathMtu[v[0] := OrNones(v[1..])] else f.pathMtu,
       serviceSchedulerPolicies :=
         if kind == 12 then f.serviceSchedulerPolicies[v[0] := v[1..]] else f.serviceSchedulerPolicies,
       pathPressure := if kind == 13 then f.pathPressure[v[0] := v[1..]] else f.pathPressure,
       dataTransmitSamples := if kind == 15 then f.dataTransmitSamples + [v] else f.dataTransmitSamples,
       pathLatencyQuality := if kind == 16 then f.pathLatencyQuality[v[0] := OrNones(v[1..])] else f.pathLatencyQuality,
       pathLatencyStats := if kind == 17 then f.pathLatencyStats[v[0] := OrNones(v[1..])] else f.pathLatencyStats)
  }

  function StoreText(f: ControlFrame, kind: byte, id: nat, text: bytes): ControlFrame {
    f.(pathMetadata := if kind == 3 then f.pathMetadata[id := text] else f.pathMetadata,
       serviceMetadata := if kind == 8 then f.serviceMetadata[id := text] else f.serviceMetadata,
       serviceEndpointAssertions :=
         if kind == 9 then f.serviceEndpointAssertions[id := text] else f.serviceEndpointAssertions,
       serviceDisables := if kind == 10 then f.serviceDisables[id := text] else f.serviceDisables)
  }

  /** Three length-prefixed strings; unlike Rust, up to 255 bytes each. */
  function ReadStatusText(utf8: bytes -> bool, value: bytes, cursor: nat): (r: Option<(bytes, nat)>)
    ensures r.Some? ==> cursor < r.value.1 <= |value|
  {
    if cursor >= |value| then None
    else
      var start, end := cursor + 1, cursor + 1 + value[cursor] as int;
      if value[cursor] == 0 || end > |value| || !utf8(value[start..end]) then None
      else Some((value[start..end], end))
  }

  function DecodeStatus(utf8: bytes -> bool, value: bytes): Option<(bytes, bytes, bytes)> {
    var a := ReadStatusText(utf8, value, 0);
    if a.None? then None
    else
      var b := ReadStatusText(utf8, value, a.value.1);
      if b.None? then None
      else
        var c := ReadStatusText(utf8, value, b.value.1);
        if c.None? || c.value.1 != |value| then None else Some((a.value.0, b.value.0, c.value.0))
  }

  /** One record: skipped, stored, or the end of the whole payload. */
  function Handle(utf8: bytes -> bool, f: ControlFrame, r: Record): Option<ControlFrame> {
    if !Known(r.kind) then Some(f)
    else if Numeric(r.kind) then
      var v := Unpack(LayoutOf(r.kind), r.value);
      if v.None? || !Accepts(r.kind, v.value) then None else Some(Store(f, r.kind, v.value))
    else if r.kind == C.STATUS_KIND then
      var status := DecodeStatus(utf8, r.value);
      if status.None? then None else Some(f.(schedulerStatus := status))
    else
      var text := C.DecodeText(r.value);
      if text.None? || (r.kind != 3 && text.value.0 < C.USER_SERVICE_ID_START) || !utf8(text.value.1)
        || text.value.1 == []
      then None
      else Some(StoreText(f, r.kind, text.value.0, text.value.1))
  }

  function HandleAll(utf8: bytes -> bool, f: ControlFrame, rs: seq<Record>): Option<ControlFrame> {
    if rs == [] then Some(f)
    else
      var before := HandleAll(utf8, f, rs[..|rs| - 1]);
      if before.None? then None else Handle(utf8, before.value, rs[|rs| - 1])
  }

  function DecodeFrame(utf8: bytes -> bool, payload: bytes): Option<ControlFrame> {
    var rs := Unframe(payload);
    if rs.None? then None else HandleAll(utf8, EMPTY, rs.value)
  }

  lemma HandleAllSnoc(utf8: bytes -> bool, f: ControlFrame, rs: seq<Record>, r: Record)
    ensures var before := HandleAll(utf8, f, rs);
      HandleAll(utf8, f, rs + [r]) == if before.None? then None else Handle(utf8, before.value, r)
  {
    hide Handle;
    assert (rs + [r])[..|rs|] == rs;
  }

  lemma {:induction false} RefusedStaysRefused(utf8: bytes -> bool, f: ControlFrame, done: seq<Record>,
                                               rest: seq<Record>)
    requires HandleAll(utf8, f, done).None?
    ensures HandleAll(utf8, f, done + rest).None?
    decreases |rest|
  {
    hide HandleAll, Handle;
    if rest == [] {
      assert done + rest == done;
    } else {
      var init, r := rest[..|rest| - 1], rest[|rest| - 1];
      RefusedStaysRefused(utf8, f, done, init);
      assert done + rest == done + init + [r];
      HandleAllSnoc(utf8, f, done + init, r);
    }
  }

  // ----- the loop -------------------------------------------------------------

  method DecodeControlPayload(utf8: bytes -> bool, payload: bytes) returns (r: Option<ControlFrame>)
    ensures r == DecodeFrame(utf8, payload)
  {
    hide Read16, SplitRecords, HandleAll, Handle;
    if |payload| < 3 || payload[0] != CONTROL_PAYLOAD_VERSION {
      return None;
    }
    var count: nat := Read16(payload, 1);
    var cursor: nat := 3;
    var frame := EMPTY;
    ghost var done: seq<Record> := [];
    NothingHandled(utf8, payload, count);
    for i := 0 to count
      invariant cursor <= |payload| && HandleAll(utf8, EMPTY, done) == Some(frame)
      invariant Unframe(payload) == Prepend(done, SplitRecords(payload[cursor..], count - i))
    {
      SplitAtCursor(payload, cursor, done, count - i);
      if cursor + 3 > |payload| {
        return None;
      }
      var kind, valueLen := payload[cursor], Read16(payload, cursor + 1);
      cursor := cursor + 3;
      if cursor + valueLen > |payload| {
        return None;
      }
      var record := Record(kind, payload[cursor..cursor + valueLen]);
      cursor := cursor + valueLen;
      HandleAllSnoc(utf8, EMPTY, done, record);
      done := done + [record];
      r := Handle(utf8, frame, record);
      if r.None? {
        RefusedRecord(utf8, done, SplitRecords(payload[cursor..], count - i - 1));
        return;
      }
      frame := r.value;
    }
    P.EndOfRecords(payload, cursor, done);
    r := if cursor != |payload| then None else Some(frame);
  }

  lemma NothingHandled(utf8: bytes -> bool, payload: bytes, count: nat)
    requires |payload| >= 3 && payload[0] == CONTROL_PAYLOAD_VERSION && count == Read16(payload, 1)
    ensures HandleAll(utf8, EMPTY, []) == Some(EMPTY)
    ensures Unframe(payload) == Prepend([], SplitRecords(payload[3..], count))
  {
    hide Read16;
    var rest := SplitRecords(payload[3..], count);
    assert rest.Some? ==> [] + rest.value == rest.value;
  }

  lemma RefusedRecord(utf8: bytes -> bool, done: seq<Record>, rest: Option<seq<Record>>)
    requires HandleAll(utf8, EMPTY, done).None?
    ensures Prepend(done, rest).Some? ==> HandleAll(utf8, EMPTY, Prepend(done, rest).value).None?
  {
    hide HandleAll;
    if rest.Some? {
      RefusedStaysRefused(utf8, EMPTY, done, rest.value);
    }
  }

  // ----- unknown records ------------------------------------------------------

  function KnownOnly(rs: seq<Record>): seq<Record> {
    if rs == [] then []
    else KnownOnly(rs[..|rs| - 1]) + if Known(rs[|rs| - 1].kind) then [rs[|rs| - 1]] else []
  }

  lemma {:induction false} HandleAllSkipsUnknown(utf8: bytes -> bool, f: ControlFrame, rs: seq<Record>)
    ensures HandleAll(utf8, f, rs) == HandleAll(utf8, f, KnownOnly(rs))
    decreases |rs|
  {
    hide Handle, HandleAll;
    if rs == [] {
    } else {
      var init, r := rs[..|rs| - 1], rs[|rs| - 1];
      HandleAllSkipsUnknown(utf8, f, init);
      assert rs == init + [r];
      HandleAllSnoc(utf8, f, init, r);
      if Known(r.kind) {
        HandleAllSnoc(utf8, f, KnownOnly(init), r);
      } else {
        UnknownIsSkipped(utf8, f, init, r);
        assert KnownOnly(init) + [] == KnownOnly(init);
      }
    }
  }

  lemma UnknownIsSkipped(utf8: bytes -> bool, f: ControlFrame, rs: seq<Record>, r: Record)
    requires !Known(r.kind)
    ensures HandleAll(utf8, f, rs + [r]) == HandleAll(utf8, f, rs)
  {
    hide HandleAll;
    HandleAllSnoc(utf8, f, rs, r);
  }

  /** Two well-framed payloads with the same known records, whatever else they hold, decode to the same frame. */
  lemma OnlyKnownRecordsMatter(utf8: bytes -> bool, payload: bytes, payload': bytes)
    requires Unframe(payload).Some? && Unframe(payload').Some?
    requires KnownOnly(Unframe(payload).value) == KnownOnly(Unframe(payload').value)
    ensures DecodeFrame(utf8, payload) == DecodeFrame(utf8, payload')
  {
    hide Unframe, HandleAll, KnownOnly;
    HandleAllSkipsUnknown(utf8, EMPTY, Unframe(payload).value);
    HandleAllSkipsUnknown(utf8, EMPTY, Unframe(payload').value);
  }

  lemma {:induction false} KnownOnlyAppend(a: seq<Record>, b: seq<Record>)
    ensures KnownOnly(a + b) == KnownOnly(a) + KnownOnly(b)
    decreases |b|
  {
    if b == [] {
      assert a + b == a;
    } else {
      KnownOnlyAppend(a, b[..|b| - 1]);
      assert (a + b)[..|a + b| - 1] == a + b[..|b| - 1];
    }
  }

  lemma {:induction false} NoneKnown(rs: seq<Record>)
    requires forall r :: r in rs ==> !Known(r.kind)
    ensures KnownOnly(rs) == []
    decreases |rs|
  {
    if rs == [] {
    } else {
      NoneKnown(rs[..|rs| - 1]);
    }
  }

  /** Inserting records of unknown types anywhere, with the count adjusted, changes nothing. */
  lemma InsertedUnknownIgnored(utf8: bytes -> bool, before: seq<Record>, unknown: seq<Record>, after: seq<Record>)
    requires AllShort(before) && AllShort(unknown) && AllShort(after) && |before + unknown + after| <= U16_MAX
    requires forall r :: r in unknown ==> !Known(r.kind)
    ensures DecodeFrame(utf8, Frame(before + unknown + after)) == DecodeFrame(utf8, Frame(before + after))
  {
    hide Frame, Unframe, KnownOnly, DecodeFrame, Known;
    UnframeOfFrame(before + unknown + after);
    UnframeOfFrame(before + after);
    NoneKnown(unknown);
    KnownOnlyAppend(before + unknown, after);
    KnownOnlyAppend(before, unknown);
    KnownOnlyAppend(before, after);
    assert KnownOnly(before) + [] == KnownOnly(before);
    OnlyKnownRecordsMatter(utf8, Frame(before + unknown + after), Frame(before + after));
  }

  /** Numbers packed in a kind's layout, as Python's own encoders write them, are stored if acceptable and end the
      payload if not. */
  lemma PackedNumbersRead(utf8: bytes -> bool, f: ControlFrame, kind: byte, v: seq<nat>)
    requires Numeric(kind) && Fits(LayoutOf(kind), v)
    ensures Handle(utf8, f, Record(kind, Pack(LayoutOf(kind), v))) ==
            if Accepts(kind, v) then Some(Store(f, kind, v)) else None
  {
    hide Pack, Unpack, LayoutOf, Accepts, Store;
    LayoutRoundTrip(LayoutOf(kind), v, []);
  }
}
