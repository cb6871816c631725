/** What the Python decoder makes of the payloads the Rust decoder accepts. */
module CrossLanguage {
  import opened Bytes
  import opened Fields
  import opened Records
  import opened PythonControl
  import C = Control
  import P = ControlPayload

  function Wide16(o: Option<u16>): Option<int> { if o.Some? then Some(o.value) else None }

  function Wide32(o: Option<u32>): Option<int> { if o.Some? then Some(o.value) else None }

  function Wide64(o: Option<u64>): Option<int> { if o.Some? then Some(o.value) else None }

  /** The two kinds whose layouts differ. */
  predicate SameLayout(m: C.ControlMessage) { !m.ServiceSchedulerPolicy? && !m.PathPressure? }

  /** A Rust message as an entry of the Python frame; range reports have none. */
  function Enter(f: ControlFrame, m: C.ControlMessage): ControlFrame {
    match m
    case PathMetadata(path, text) => f.(pathMetadata := f.pathMetadata[path := text])
    case ServiceMetadata(id, text) => f.(serviceMetadata := f.serviceMetadata[id := text])
    case ServiceEndpointAssertion(id, text) => f.(serviceEndpointAssertions := f.serviceEndpointAssertions[id := text])
    case ServiceDisable(id, text) => f.(serviceDisables := f.serviceDisables[id := text])
    case PathCapacity(path, tx, rx) => f.(pathCapacityBps := f.pathCapacityBps[path := [Wide64(tx), Wide64(rx)]])
    case PathLatency(path, a, b, c, d) =>
      f.(pathLatencyUs := f.pathLatencyUs[path := [Wide32(a), Wide32(b), Wide32(c), Wide32(d)]])
    case PathMtu(path, a, b, c, d) => f.(pathMtu := f.pathMtu[path := [Wide16(a), Wide16(b), Wide16(c), Wide16(d)]])
    case InternalClockSync(id, path, mode, origin, receive, respond) =>
      f.(internalClockSync := f.internalClockSync +
           [([id, path, C.ModeByte(mode), origin], [Wide64(receive), Wide64(respond)])])
    case SinkTime(path, unix, internal, state) =>
      f.(sinkTime := f.sinkTime + [[path, unix, internal, C.StateByte(state)]])
    case SchedulerStatus(a, b, c) => f.(schedulerStatus := Some((a, b, c)))
    case DataTransmitSample(path, first, count, transmit) =>
      f.(dataTransmitSamples := f.dataTransmitSamples + [[path, first, count, transmit]])
    case _ => f
  }

  function EnterAll(f: ControlFrame, ms: seq<C.ControlMessage>): ControlFrame {
    if ms == [] then f else Enter(EnterAll(f, ms[..|ms| - 1]), ms[|ms| - 1])
  }

  // ----- numbers --------------------------------------------------------------

  predicate Shared(kind: byte) { kind in {4, 5, 6, 7, 11, 15} }

  lemma SharedLayout(kind: byte)
    requires Shared(kind)
    ensures C.Numeric(kind) && PythonControl.Numeric(kind) && PythonControl.LayoutOf(kind) == C.LayoutOf(kind)
  {
  }

  lemma {:induction false} PairsEnter(f: ControlFrame, kind: byte, v: seq<nat>)
    requires kind == 4
    requires Fits(C.LayoutOf(kind), v) && C.FromNumbers(kind, v).Some? && C.Allowed(C.FromNumbers(kind, v).value)
    ensures |v| == |PythonControl.LayoutOf(kind)| && Accepts(kind, v)
    ensures Store(f, kind, v) == Enter(f, C.FromNumbers(kind, v).value) && SameLayout(C.FromNumbers(kind, v).value)
  {
    assert OrNones(v[1..]) == [OrNone(v[1]), OrNone(v[2])];
  }

  lemma {:induction false} FoursEnter(f: ControlFrame, kind: byte, v: seq<nat>)
    requires kind in {5, 11}
    requires Fits(C.LayoutOf(kind), v) && C.FromNumbers(kind, v).Some? && C.Allowed(C.FromNumbers(kind, v).value)
    ensures |v| == |PythonControl.LayoutOf(kind)| && Accepts(kind, v)
    ensures Store(f, kind, v) == Enter(f, C.FromNumbers(kind, v).value) && SameLayout(C.FromNumbers(kind, v).value)
  {
    assert OrNones(v[1..]) == [OrNone(v[1]), OrNone(v[2]), OrNone(v[3]), OrNone(v[4])];
  }

  lemma {:induction false} SyncEnters(f: ControlFrame, kind: byte, v: seq<nat>)
    requires kind == 6
    requires Fits(C.LayoutOf(kind), v) && C.FromNumbers(kind, v).Some? && C.Allowed(C.FromNumbers(kind, v).value)
    ensures |v| == |PythonControl.LayoutOf(kind)| && Accepts(kind, v)
    ensures Store(f, kind, v) == Enter(f, C.FromNumbers(kind, v).value) && SameLayout(C.FromNumbers(kind, v).value)
  {
    hide OrNones, OrNone;
    var m := C.FromNumbers(6, v).value;
    SyncNumbers(v);
    assert m == C.InternalClockSync(v[0], v[1], C.ModeOf(v[2]).value, v[3], C.Optional64(v[4]), C.Optional64(v[5]));
    assert Enter(f, m) == f.(internalClockSync := f.internalClockSync + [(v[..4], OrNones(v[4..]))]);
  }

  lemma SyncNumbers(v: seq<nat>)
    requires Fits(C.LayoutOf(6), v) && C.ModeOf(v[2]).Some?
    ensures v[..4] == [v[0], v[1], C.ModeByte(C.ModeOf(v[2]).value), v[3]]
    ensures OrNones(v[4..]) == [Wide64(C.Optional64(v[4])), Wide64(C.Optional64(v[5]))]
  {
    assert v[4..] == [v[4], v[5]];
  }

  lemma {:induction false} ListsEnter(f: ControlFrame, kind: byte, v: seq<nat>)
    requires kind in {7, 15}
    requires Fits(C.LayoutOf(kind), v) && C.FromNumbers(kind, v).Some? && C.Allowed(C.FromNumbers(kind, v).value)
    ensures |v| == |PythonControl.LayoutOf(kind)| && Accepts(kind, v)
    ensures Store(f, kind, v) == Enter(f, C.FromNumbers(kind, v).value) && SameLayout(C.FromNumbers(kind, v).value)
  {
    assert v == [v[0], v[1], v[2], v[3]];
  }

  lemma {:induction false} StoreEnters(f: ControlFrame, kind: byte, v: seq<nat>)
    requires Shared(kind) && C.Numeric(kind) && Fits(C.LayoutOf(kind), v) && |v| == |PythonControl.LayoutOf(kind)|
    requires C.FromNumbers(kind, v).Some? && C.Allowed(C.FromNumbers(kind, v).value)
    ensures Accepts(kind, v) && Store(f, kind, v) == Enter(f, C.FromNumbers(kind, v).value)
    ensures SameLayout(C.FromNumbers(kind, v).value)
  {
    hide Store, Enter, C.FromNumbers, C.Allowed, Accepts, C.LayoutOf, PythonControl.LayoutOf;
    if kind == 4 {
      PairsEnter(f, kind, v);
    } else if kind == 6 {
      SyncEnters(f, kind, v);
    } else if kind == 5 || kind == 11 {
      FoursEnter(f, kind, v);
    } else {
      ListsEnter(f, kind, v);
    }
  }

  lemma {:induction false} TotalSnoc(layout: Layout, w: Width)
    ensures Total(layout + [w]) == Total(layout) + w.Size()
  {
    if layout == [] {
      assert layout + [w] == [w] && [w][1..] == [];
    } else {
      assert (layout + [w])[1..] == layout[1..] + [w];
      TotalSnoc(layout[1..], w);
    }
  }

  /** Python's two longer layouts: one more byte, one more counter. */
  lemma LongerLayouts()
    ensures Total(PythonControl.LayoutOf(12)) == Total(C.LayoutOf(12)) + 1
    ensures Total(PythonControl.LayoutOf(13)) == Total(C.LayoutOf(13)) + 4
  {
    hide Total;
    TotalSnoc(C.LayoutOf(12), W8);
    TotalSnoc(C.LayoutOf(13), W32);
    assert PythonControl.LayoutOf(12) == C.LayoutOf(12) + [W8];
    assert PythonControl.LayoutOf(13) == C.LayoutOf(13) + [W32];
  }

  // ----- text -----------------------------------------------------------------

  lemma StatusTextAgrees(utf8: bytes -> bool, value: bytes, offset: nat)
    requires C.ReadShort(utf8, value, offset).Some?
    ensures ReadStatusText(utf8, value, offset) == C.ReadShort(utf8, value, offset)
  {
  }

  lemma StatusAgrees(utf8: bytes -> bool, value: bytes)
    requires C.DecodeStatus(utf8, value).Some?
    ensures var m := C.DecodeStatus(utf8, value).value;
      m.SchedulerStatus? && DecodeStatus(utf8, value) == Some((m.configuredMode, m.effectiveMode, m.rustMode))
  {
    hide C.ReadShort, ReadStatusText;
    var a := C.ReadShort(utf8, value, 0).value;
    StatusTextAgrees(utf8, value, 0);
    StatusTextAgrees(utf8, value, a.1);
    StatusTextAgrees(utf8, value, C.ReadShort(utf8, value, a.1).value.1);
  }

  // ----- records --------------------------------------------------------------

  /** A record Rust accepts: Python refuses the two kinds with other layouts, and enters every other one. */
  lemma RecordCrosses(utf8: bytes -> bool, f: ControlFrame, r: Record)
    requires C.DecodeMessage(utf8, r.kind, r.value).Some?
    ensures var m := C.DecodeMessage(utf8, r.kind, r.value).value;
      Handle(utf8, f, r) == if SameLayout(m) then Some(Enter(f, m)) else None
  {
    C.MessageReencodes(utf8, r.kind, r.value);
    if C.Numeric(r.kind) {
      NumericCrosses(utf8, f, r);
    } else if C.Textual(r.kind) {
      TextCrosses(utf8, f, r);
    } else {
      hide C.DecodeStatus, DecodeStatus;
      StatusAgrees(utf8, r.value);
    }
  }

  lemma NumericCrosses(utf8: bytes -> bool, f: ControlFrame, r: Record)
    requires C.Numeric(r.kind) && C.DecodeMessage(utf8, r.kind, r.value).Some?
    ensures var m := C.DecodeMessage(utf8, r.kind, r.value).value;
      Handle(utf8, f, r) == if SameLayout(m) then Some(Enter(f, m)) else None
  {
    hide C.FromNumbers, Store, Enter, Accepts, C.LayoutOf, LayoutOf, UnpackFrom, Total;
    var v := Unpack(C.LayoutOf(r.kind), r.value).value;
    LayoutRoundTrip(C.LayoutOf(r.kind), [], r.value);
    C.NumbersOfFromNumbers(r.kind, v);
    if Shared(r.kind) {
      SharedLayout(r.kind);
      StoreEnters(f, r.kind, v);
    } else if r.kind <= 2 {
      RangesHaveNoEntry(f, C.FromNumbers(r.kind, v).value);
    } else {
      LongerLayouts();
    }
  }

  lemma RangesHaveNoEntry(f: ControlFrame, m: C.ControlMessage)
    requires C.KindOf(m) <= 2
    ensures SameLayout(m) && Enter(f, m) == f
  {
  }

  lemma TextCrosses(utf8: bytes -> bool, f: ControlFrame, r: Record)
    requires C.Textual(r.kind) && C.DecodeMessage(utf8, r.kind, r.value).Some?
    ensures var m := C.DecodeMessage(utf8, r.kind, r.value).value;
      SameLayout(m) && Handle(utf8, f, r) == Some(Enter(f, m))
  {
    hide C.DecodeText;
  }

  // ----- payloads -------------------------------------------------------------

  ghost predicate AllSameLayout(ms: seq<C.ControlMessage>) {
    forall i :: 0 <= i < |ms| ==> SameLayout(ms[i])
  }

  lemma {:induction false} RecordsCross(utf8: bytes -> bool, rs: seq<Record>)
    requires P.DecodeAll(utf8, rs).Some?
    ensures var ms := P.DecodeAll(utf8, rs).value;
      HandleAll(utf8, EMPTY, rs) == if AllSameLayout(ms) then Some(EnterAll(EMPTY, ms)) else None
    decreases |rs|
  {
    hide C.DecodeMessage, Handle, Enter;
    if rs == [] {
    } else {
      var init, r := rs[..|rs| - 1], rs[|rs| - 1];
      RecordsCross(utf8, init);
      var before, m := P.DecodeAll(utf8, init).value, C.DecodeMessage(utf8, r.kind, r.value).value;
      if AllSameLayout(before) {
        RecordCrosses(utf8, EnterAll(EMPTY, before), r);
      }
      assert (before + [m])[..|before|] == before;
      assert AllSameLayout(before + [m]) <==> AllSameLayout(before) && SameLayout(m) by {
        if AllSameLayout(before + [m]) {
          assert forall i :: 0 <= i < |before| ==> before[i] == (before + [m])[i];
          assert SameLayout((before + [m])[|before|]);
        }
      }
    }
  }

  /** Every payload Rust accepts: Python decodes it if and only if it reports neither a scheduler policy nor path
      pressure, and then its frame holds exactly the entries of Rust's messages. */
  lemma PythonReadsRust(utf8: bytes -> bool, payload: bytes)
    requires P.DecodePayload(utf8, payload).Some?
    ensures var ms := P.DecodePayload(utf8, payload).value;
      DecodeFrame(utf8, payload) == if AllSameLayout(ms) then Some(EnterAll(EMPTY, ms)) else None
  {
    hide P.DecodeAll, HandleAll, Unframe, AllSameLayout, EnterAll;
    RecordsCross(utf8, Unframe(payload).value);
  }
}
