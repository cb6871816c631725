/** The Python encoder of control payloads: which entries come back from its own decoder, and which Rust takes. */
module PythonEncoding {
  import opened Bytes
  import opened Fields
  import opened Records
  import opened PythonControl
  import C = Control
  import P = ControlPayload
  import X = CrossLanguage

  /** One entry of the encoder's tables and lists: a text under an id, the status, or numbers some of which may be
      absent. Latency sources and confidences stand as their codes. */
  datatype Entry =
    | Text(kind: byte, id: int, text: bytes)
    | Status(configured: bytes, effective: bytes, rustMode: bytes)
    | Numbers(kind: byte, v: seq<Option<int>>)

  // ----- what the encoder writes ----------------------------------------------

  predicate Required(kind: byte, i: nat) { i == 0 || (kind == 6 && i < 4) || kind in {7, 12, 13, 15} }

  /** The numbers a kind has, each in its field's range. */
  predicate Shaped(kind: byte, v: seq<Option<int>>) {
    && Numeric(kind) && |v| == |LayoutOf(kind)|
    && forall i :: 0 <= i < |v| ==>
      (Required(kind, i) ==> v[i].Some?) && (v[i].Some? ==> 0 <= v[i].value < LayoutOf(kind)[i].Bound())
  }

  predicate ValidMtus(link: Option<int>, frame: Option<int>) {
    if link.None? || frame.None? then link == frame else 0 < frame.value <= link.value
  }

  predicate NoZero(v: seq<Option<int>>, from: nat) { forall i :: from <= i < |v| ==> v[i] != Some(0) }

  /** What each table's encoder checks beyond the ranges. */
  predicate Checked(kind: byte, v: seq<Option<int>>)
    requires Shaped(kind, v)
  {
    if kind == 4 || kind == 5 then NoZero(v, 1)
    else if kind == 6 then v[0] != Some(0) && NoZero(v, 3)
    else if kind == 7 then v[1] != Some(0) && v[2] != Some(0) && v[3].value <= 2
    else if kind == 11 then NoZero(v, 1) && ValidMtus(v[1], v[2]) && ValidMtus(v[3], v[4]) && (v[1].Some? || v[3].Some?)
    else if kind == 12 then v[0].value >= C.USER_SERVICE_ID_START && v[6].value <= 2
    else if kind == 13 then v[1].value <= 1_000_000
    else if kind == 15 then v[2] != Some(0) && v[3] != Some(0)
    else if kind == 16 then NoZero(v, 1) && (v[1].Some? ==> v[1].value <= 5) && (v[2].Some? ==> v[2].value <= 4)
    else true
  }

  /** Numbers as they stand in an entry: an optional zero is an absent number. */
  function AsEntered(kind: byte, v: seq<nat>): seq<Option<int>> {
    seq(|v|, i requires 0 <= i < |v| => if Required(kind, i) then Some(v[i]) else OrNone(v[i]))
  }

  /** The decoder takes exactly the numbers the encoder would write, but for what it asks of a clock exchange besides:
      a mode of 1 or 2, and both times in a response. */
  lemma DecoderTakesWhatIsWritten(kind: byte, v: seq<nat>)
    requires Numeric(kind) && Fits(LayoutOf(kind), v)
    ensures Shaped(kind, AsEntered(kind, v))
    ensures Accepts(kind, v) <==>
      && Checked(kind, AsEntered(kind, v))
      && (kind == 6 ==> (v[2] == 1 || v[2] == 2) && (v[2] == 2 ==> v[4] != 0 && v[5] != 0))
  {
    var e := AsEntered(kind, v);
    forall i | 0 <= i < |e|
      ensures (Required(kind, i) ==> e[i] == Some(v[i])) && (!Required(kind, i) ==> e[i] == OrNone(v[i]))
    {
    }
    if kind == 6 {
      assert NoZero(e, 3) <==> e[3] != Some(0);
    }
  }

  /** The encoder raises no error on this entry. */
  predicate Writable(utf8: bytes -> bool, e: Entry) {
    match e
    case Text(kind, id, text) =>
      && C.Textual(kind) && 0 <= id <= U16_MAX && (kind != 3 ==> id >= C.USER_SERVICE_ID_START)
      && C.ValidText(text) && utf8(text)
    case Status(a, b, c) =>
      C.ValidStatusText(a) && C.ValidStatusText(b) && C.ValidStatusText(c) && utf8(a) && utf8(b) && utf8(c)
    case Numbers(kind, v) => Shaped(kind, v) && Checked(kind, v)
  }

  /** The texts Python writes are exactly the messages Rust's constructors build. */
  lemma TextsAsRustBuilds(utf8: bytes -> bool, kind: byte, id: u16, text: bytes)
    requires C.Textual(kind)
    ensures Writable(utf8, Text(kind, id, text)) <==> C.Canonical(utf8, C.WithText(kind, id, text))
  {
  }

  function OrZero(o: Option<int>): nat { if o.Some? && o.value >= 0 then o.value else 0 }

  function OrZeros(v: seq<Option<int>>): seq<nat> { seq(|v|, i requires 0 <= i < |v| => OrZero(v[i])) }

  lemma ShapedFits(kind: byte, v: seq<Option<int>>)
    requires Shaped(kind, v)
    ensures Fits(LayoutOf(kind), OrZeros(v))
  {
    hide LayoutOf;
    forall i | 0 <= i < |v| ensures OrZeros(v)[i] < LayoutOf(kind)[i].Bound() {
    }
  }

  function RecordOf(utf8: bytes -> bool, e: Entry): Record
    requires Writable(utf8, e)
  {
    match e
    case Text(kind, id, text) => Record(kind, C.EncodeText(id, text))
    case Status(a, b, c) => Record(C.STATUS_KIND, C.EncodeStatus(a, b, c))
    case Numbers(kind, v) => ShapedFits(kind, v); Record(kind, Pack(LayoutOf(kind), OrZeros(v)))
  }

  ghost predicate AllWritable(utf8: bytes -> bool, es: seq<Entry>) {
    forall i :: 0 <= i < |es| ==> Writable(utf8, es[i])
  }

  function RecordsOf(utf8: bytes -> bool, es: seq<Entry>): (rs: seq<Record>)
    requires AllWritable(utf8, es)
    ensures |rs| == |es|
  {
    if es == [] then [] else RecordsOf(utf8, es[..|es| - 1]) + [RecordOf(utf8, es[|es| - 1])]
  }

  /** The encoder succeeds on these entries, with this payload. */
  ghost predicate Encodes(utf8: bytes -> bool, es: seq<Entry>) {
    es != [] && AllWritable(utf8, es) && |Frame(RecordsOf(utf8, es))| <= U16_MAX
  }

  lemma RecordsOfSnoc(utf8: bytes -> bool, es: seq<Entry>, e: Entry)
    requires AllWritable(utf8, es) && Writable(utf8, e)
    ensures AllWritable(utf8, es + [e]) && RecordsOf(utf8, es + [e]) == RecordsOf(utf8, es) + [RecordOf(utf8, e)]
  {
    hide Writable, RecordOf;
    assert (es + [e])[..|es|] == es;
  }

  method EncodeControlPayload(utf8: bytes -> bool, entries: seq<Entry>) returns (r: Option<bytes>)
    ensures r.Some? <==> Encodes(utf8, entries)
    ensures r.Some? ==> r.value == Frame(RecordsOf(utf8, entries))
  {
    hide Be16, RecordsOf, Writable, RecordOf, EncodeRecords, EncodeRecord;
    if entries == [] {
      return None;
    }
    if |entries| > U16_MAX {
      TooMany(utf8, entries);
      return None;
    }
    var output := [CONTROL_PAYLOAD_VERSION] + Be16(|entries|);
    ghost var header := output;
    NothingWritten(utf8);
    for i := 0 to |entries|
      invariant AllWritable(utf8, entries[..i]) && output == header + EncodeRecords(RecordsOf(utf8, entries[..i]))
    {
      var e := entries[i];
      if !Writable(utf8, e) {
        return None;
      }
      assert entries[..i + 1] == entries[..i] + [e];
      RecordsOfSnoc(utf8, entries[..i], e);
      P.EncodeRecordsSnoc(RecordsOf(utf8, entries[..i]), RecordOf(utf8, e));
      output := output + EncodeRecord(RecordOf(utf8, e));
    }
    assert entries[..|entries|] == entries;
    if |output| > U16_MAX {
      return None;
    }
    r := Some(output);
  }

  lemma NothingWritten(utf8: bytes -> bool)
    ensures AllWritable(utf8, []) && EncodeRecords(RecordsOf(utf8, [])) == []
  {
  }

  lemma TooMany(utf8: bytes -> bool, es: seq<Entry>)
    requires |es| > U16_MAX
    ensures !Encodes(utf8, es)
  {
    hide RecordsOf, EncodeRecords;
    if Encodes(utf8, es) {
      P.SmallMeansShort(RecordsOf(utf8, es));
    }
  }

  // ----- what its own decoder makes of it -------------------------------------

  /** A clock exchange the decoder takes: a request, or a response with both its times. Nothing else is refused. */
  predicate Readable(e: Entry) {
    e.Numbers? && e.kind == 6 && |e.v| == 6 ==> e.v[2] == Some(1) || (e.v[2] == Some(2) && e.v[4].Some? && e.v[5].Some?)
  }

  /** A metric reported as zero. */
  predicate ZeroMetric(e: Entry) { e.Numbers? && e.kind == 17 && !NoZero(e.v, 1) }

  function Nones(v: seq<Option<int>>): seq<Option<int>> {
    seq(|v|, i requires 0 <= i < |v| => if v[i] == Some(0) then None else v[i])
  }

  /** The entry as the decoder sees it: a zero metric reads as an absent one. */
  function Rounded(e: Entry): Entry {
    if e.Numbers? && e.kind == 17 && e.v != [] then Numbers(17, [e.v[0]] + Nones(e.v[1..])) else e
  }

  function EnterNumbers(f: ControlFrame, kind: byte, v: seq<Option<int>>): ControlFrame
    requires Numeric(kind) && |v| == |LayoutOf(kind)|
  {
    var id := OrZero(v[0]);
    f.(pathCapacityBps := if kind == 4 then f.pathCapacityBps[id := v[1..]] else f.pathCapacityBps,
       pathLatencyUs := if kind == 5 then f.pathLatencyUs[id := v[1..]] else f.pathLatencyUs,
       internalClockSync :=
         if kind == 6 then f.internalClockSync + [(OrZeros(v[..4]), v[4..])] else f.internalClockSync,
       sinkTime := if kind == 7 then f.sinkTime + [OrZeros(v)] else f.sinkTime,
       pathMtu := if kind == 11 then f.pathMtu[id := v[1..]] else f.pathMtu,
       serviceSchedulerPolicies :=
         if kind == 12 then f.serviceSchedulerPolicies[id := OrZeros(v[1..])] else f.serviceSchedulerPolicies,
       pathPressure := if kind == 13 then f.pathPressure[id := OrZeros(v[1..])] else f.pathPressure,
       dataTransmitSamples := if kind == 15 then f.dataTransmitSamples + [OrZeros(v)] else f.dataTransmitSamples,
       pathLatencyQuality := if kind == 16 then f.pathLatencyQuality[id := v[1..]] else f.pathLatencyQuality,
       pathLatencyStats := if kind == 17 then f.pathLatencyStats[id := v[1..]] else f.pathLatencyStats)
  }

  /** The frame with the entry in its table or list. */
  function Enter(f: ControlFrame, e: Entry): ControlFrame {
    match e
    case Text(kind, id, text) => StoreText(f, kind, OrZero(Some(id)), text)
    case Status(a, b, c) => f.(schedulerStatus := Some((a, b, c)))
    case Numbers(kind, v) => if Numeric(kind) && |v| == |LayoutOf(kind)| then EnterNumbers(f, kind, v) else f
  }

  function EnterAll(f: ControlFrame, es: seq<Entry>): ControlFrame {
    if es == [] then f else Enter(EnterAll(f, es[..|es| - 1]), es[|es| - 1])
  }

  function RoundedAll(es: seq<Entry>): seq<Entry> { seq(|es|, i requires 0 <= i < |es| => Rounded(es[i])) }

  lemma AcceptedNumbers(kind: byte, v: seq<Option<int>>)
    requires Shaped(kind, v) && Checked(kind, v)
    ensures Accepts(kind, OrZeros(v)) <==> Readable(Numbers(kind, v))
  {
    assert Required(kind, 0);
    if kind == 6 {
      assert Required(6, 2) && Required(6, 3);
    }
  }

  lemma SlicesOfZeros(v: seq<Option<int>>, k: nat)
    requires k <= |v|
    ensures OrZeros(v)[k..] == OrZeros(v[k..]) && OrZeros(v)[..k] == OrZeros(v[..k])
  {
  }

  lemma NonesBack(v: seq<Option<int>>)
    requires forall i :: 0 <= i < |v| && v[i].Some? ==> v[i].value >= 0
    ensures OrNones(OrZeros(v)) == Nones(v)
    ensures NoZero(v, 0) <==> Nones(v) == v
  {
    if !NoZero(v, 0) {
      var i :| 0 <= i < |v| && v[i] == Some(0);
      assert Nones(v)[i] == None;
    }
  }

  lemma {:induction false} StoredStats(f: ControlFrame, v: seq<Option<int>>)
    requires Shaped(17, v)
    ensures Store(f, 17, OrZeros(v)) == Enter(f, Rounded(Numbers(17, v)))
  {
    hide Nones, OrNones;
    SlicesOfZeros(v, 1);
    NonesBack(v[1..]);
    var w := [v[0]] + Nones(v[1..]);
    assert w[1..] == Nones(v[1..]) && |Nones(v[1..])| == 6 by {
      NonesLength(v[1..]);
    }
  }

  lemma NonesLength(v: seq<Option<int>>)
    ensures |Nones(v)| == |v|
  {
  }

  lemma {:induction false} StoredOptions(f: ControlFrame, kind: byte, v: seq<Option<int>>)
    requires kind in {4, 5, 11, 16} && Shaped(kind, v) && Checked(kind, v)
    ensures Store(f, kind, OrZeros(v)) == EnterNumbers(f, kind, v)
  {
    hide Nones, OrNones, OrZeros;
    SlicesOfZeros(v, 1);
    NonesBack(v[1..]);
    assert NoZero(v[1..], 0) && OrZeros(v)[0] == OrZero(v[0]) by {
      ZerosAt(v, 0);
    }
  }

  lemma {:induction false} StoredSync(f: ControlFrame, v: seq<Option<int>>)
    requires Shaped(6, v) && Checked(6, v)
    ensures Store(f, 6, OrZeros(v)) == EnterNumbers(f, 6, v)
  {
    hide Nones, OrNones;
    SlicesOfZeros(v, 4);
    NonesBack(v[4..]);
    assert NoZero(v[4..], 0);
  }

  lemma {:induction false} StoredPlain(f: ControlFrame, kind: byte, v: seq<Option<int>>)
    requires kind in {7, 12, 13, 15} && Shaped(kind, v)
    ensures Store(f, kind, OrZeros(v)) == EnterNumbers(f, kind, v)
  {
    hide OrNones;
    SlicesOfZeros(v, 1);
  }

  lemma ZerosAt(v: seq<Option<int>>, i: nat)
    requires i < |v|
    ensures |OrZeros(v)| == |v| && OrZeros(v)[i] == OrZero(v[i])
  {
  }

  lemma {:induction false} StoredNumbers(f: ControlFrame, kind: byte, v: seq<Option<int>>)
    requires Shaped(kind, v) && Checked(kind, v)
    ensures |OrZeros(v)| == |v| && Store(f, kind, OrZeros(v)) == Enter(f, Rounded(Numbers(kind, v)))
  {
    hide Nones, Store, EnterNumbers, OrZeros;
    assert |OrZeros(v)| == |v| by {
      ZerosAt(v, 0);
    }
    if kind == 17 {
      StoredStats(f, v);
    } else if kind == 6 {
      StoredSync(f, v);
    } else if kind in {4, 5, 11, 16} {
      StoredOptions(f, kind, v);
    } else {
      StoredPlain(f, kind, v);
    }
  }

  lemma {:induction false} TextReadBack(utf8: bytes -> bool, f: ControlFrame, e: Entry)
    requires e.Text? && Writable(utf8, e)
    ensures Handle(utf8, f, RecordOf(utf8, e)) == Some(Enter(f, e))
  {
    hide C.EncodeText, C.DecodeText;
    C.DecodeTextOfEncode(e.id, e.text);
  }

  lemma {:induction false} StatusReadBack(utf8: bytes -> bool, f: ControlFrame, e: Entry)
    requires e.Status? && Writable(utf8, e)
    ensures Handle(utf8, f, RecordOf(utf8, e)) == Some(Enter(f, e))
  {
    hide C.EncodeStatus, C.DecodeStatus, DecodeStatus;
    C.DecodeStatusOfEncode(utf8, e.configured, e.effective, e.rustMode);
    X.StatusAgrees(utf8, C.EncodeStatus(e.configured, e.effective, e.rustMode));
  }

  /** One entry: the decoder refuses exactly the malformed clock exchanges. */
  lemma {:induction false} EntryReadBack(utf8: bytes -> bool, f: ControlFrame, e: Entry)
    requires Writable(utf8, e)
    ensures Handle(utf8, f, RecordOf(utf8, e)) == if Readable(e) then Some(Enter(f, Rounded(e))) else None
  {
    hide Handle, Store, Accepts, EnterNumbers, Pack, Rounded;
    match e
    case Text(_, _, _) =>
      TextReadBack(utf8, f, e);
      NotRounded(e);
    case Status(_, _, _) =>
      StatusReadBack(utf8, f, e);
      NotRounded(e);
    case Numbers(kind, v) =>
      ShapedFits(kind, v);
      PackedNumbersRead(utf8, f, kind, OrZeros(v));
      AcceptedNumbers(kind, v);
      StoredNumbers(f, kind, v);
  }

  lemma NotRounded(e: Entry)
    requires !e.Numbers?
    ensures Rounded(e) == e && Readable(e)
  {
  }

  ghost predicate AllReadable(es: seq<Entry>) { forall i :: 0 <= i < |es| ==> Readable(es[i]) }

  lemma {:induction false} EnterAllSnoc(f: ControlFrame, es: seq<Entry>, e: Entry)
    ensures EnterAll(f, es + [e]) == Enter(EnterAll(f, es), e)
  {
    hide Enter;
    assert (es + [e])[..|es|] == es;
  }

  lemma NoEntries(utf8: bytes -> bool)
    ensures AllWritable(utf8, [])
    ensures HandleAll(utf8, EMPTY, RecordsOf(utf8, [])) == Some(EnterAll(EMPTY, RoundedAll([])))
  {
    assert RoundedAll([]) == [];
  }

  lemma {:induction false} EntriesReadBack(utf8: bytes -> bool, es: seq<Entry>)
    requires AllWritable(utf8, es)
    ensures HandleAll(utf8, EMPTY, RecordsOf(utf8, es)) ==
            if AllReadable(es) then Some(EnterAll(EMPTY, RoundedAll(es))) else None
    decreases |es|
  {
    hide Handle, HandleAll, Writable, RecordOf, RecordsOf, Enter, EnterAll, Rounded, Readable;
    if es == [] {
      NoEntries(utf8);
    } else {
      var init, e := es[..|es| - 1], es[|es| - 1];
      assert Writable(utf8, es[|es| - 1]);
      EntriesReadBack(utf8, init);
      EntryReadBack(utf8, EnterAll(EMPTY, RoundedAll(init)), e);
      RecordsOfSnoc(utf8, init, e);
      HandleAllSnoc(utf8, EMPTY, RecordsOf(utf8, init), RecordOf(utf8, e));
      EnterAllSnoc(EMPTY, RoundedAll(init), Rounded(e));
      AllReadableSnoc(init, e);
      assert es == init + [e] && RoundedAll(es) == RoundedAll(init) + [Rounded(e)];
    }
  }

  lemma AllReadableSnoc(es: seq<Entry>, e: Entry)
    ensures AllReadable(es + [e]) <==> AllReadable(es) && Readable(e)
  {
    hide Readable;
    var all := es + [e];
    if AllReadable(all) {
      forall i | 0 <= i < |es| ensures Readable(es[i]) {
        assert all[i] == es[i];
      }
      assert Readable(all[|es|]);
    }
  }

  /** The encoder's payload read by its decoder: refused as a whole if some clock exchange is malformed, otherwise a
      frame with all the entries, zero metrics as absent ones. */
  lemma DecodeOfEncode(utf8: bytes -> bool, es: seq<Entry>)
    requires Encodes(utf8, es)
    ensures DecodeFrame(utf8, Frame(RecordsOf(utf8, es))) ==
            if AllReadable(es) then Some(EnterAll(EMPTY, RoundedAll(es))) else None
  {
    hide RecordsOf, HandleAll, EncodeRecords, Unframe, AllReadable, EnterAll, Writable;
    P.SmallMeansShort(RecordsOf(utf8, es));
    UnframeOfFrame(RecordsOf(utf8, es));
    EntriesReadBack(utf8, es);
  }

  // ----- exactly what survives ------------------------------------------------

  predicate StatsUnder(e: Entry, id: nat) { e.Numbers? && e.kind == 17 && |e.v| == 7 && OrZero(e.v[0]) == id }

  /** Statistics come from a table: one entry for each path. */
  ghost predicate OneStatsEach(es: seq<Entry>) {
    forall i, j, id :: 0 <= i < j < |es| && StatsUnder(es[i], id) ==> !StatsUnder(es[j], id)
  }

  lemma {:induction false} OthersKeepStats(f: ControlFrame, e: Entry)
    requires !(e.Numbers? && e.kind == 17)
    ensures Enter(f, e).pathLatencyStats == f.pathLatencyStats
  {
    hide LayoutOf, OrZeros;
  }

  lemma {:induction false} StatsEnter(f: ControlFrame, v: seq<Option<int>>)
    requires |v| == 7
    ensures Enter(f, Numbers(17, v)).pathLatencyStats == f.pathLatencyStats[OrZero(v[0]) := v[1..]]
  {
    assert |LayoutOf(17)| == 7;
  }

  lemma {:induction false} EnterStats(f: ControlFrame, e: Entry, id: nat)
    ensures var g := Enter(f, e);
      if StatsUnder(e, id) then id in g.pathLatencyStats && g.pathLatencyStats[id] == e.v[1..]
      else (id in g.pathLatencyStats <==> id in f.pathLatencyStats)
           && (id in f.pathLatencyStats ==> g.pathLatencyStats[id] == f.pathLatencyStats[id])
  {
    hide Enter;
    if e.Numbers? && e.kind == 17 {
      if |e.v| == 7 {
        StatsEnter(f, e.v);
      } else {
        MisshapenIsIgnored(f, e);
      }
    } else {
      OthersKeepStats(f, e);
    }
  }

  lemma {:induction false} MisshapenIsIgnored(f: ControlFrame, e: Entry)
    requires e.Numbers? && e.kind == 17 && |e.v| != 7
    ensures Enter(f, e) == f
  {
    assert |LayoutOf(17)| == 7;
  }

  lemma {:induction false} StatsKept(es: seq<Entry>, i: nat, id: nat)
    requires OneStatsEach(es) && i < |es| && StatsUnder(es[i], id)
    ensures var g := EnterAll(EMPTY, es); id in g.pathLatencyStats && g.pathLatencyStats[id] == es[i].v[1..]
    decreases |es|
  {
    hide Enter, StatsUnder;
    var init, e := es[..|es| - 1], es[|es| - 1];
    EnterStats(EnterAll(EMPTY, init), e, id);
    StatsIsNumbers(es[i], id);
    if i < |es| - 1 {
      assert init[i] == es[i] && !StatsUnder(es[|es| - 1], id);
      StatsKept(init, i, id);
    }
  }

  lemma StatsIsNumbers(e: Entry, id: nat)
    requires StatsUnder(e, id)
    ensures e.Numbers? && |e.v| == 7
  {
  }

  lemma RoundedStats(e: Entry, id: nat)
    ensures StatsUnder(Rounded(e), id) <==> StatsUnder(e, id)
    ensures StatsUnder(e, id) ==> Rounded(e).Numbers? && |Rounded(e).v| == 7 && Rounded(e).v[1..] == Nones(e.v[1..])
  {
  }

  lemma RoundedOneEach(es: seq<Entry>)
    requires OneStatsEach(es)
    ensures OneStatsEach(RoundedAll(es))
  {
    hide StatsUnder, Rounded;
    var rs := RoundedAll(es);
    forall i, j, id | 0 <= i < j < |rs| && StatsUnder(rs[i], id) ensures !StatsUnder(rs[j], id) {
      RoundedStats(es[i], id);
      RoundedStats(es[j], id);
    }
  }

  lemma {:induction false} NothingRounded(es: seq<Entry>)
    requires forall i :: 0 <= i < |es| ==> !ZeroMetric(es[i])
    ensures RoundedAll(es) == es
  {
    forall i | 0 <= i < |es| ensures Rounded(es[i]) == es[i] {
      var e := es[i];
      if e.Numbers? && e.kind == 17 && e.v != [] {
        assert Nones(e.v[1..]) == e.v[1..];
        assert e.v == [e.v[0]] + e.v[1..];
      }
    }
  }

  /** A payload comes back as it was encoded if and only if no clock exchange is malformed and no metric is zero. */
  lemma SurvivesExactly(utf8: bytes -> bool, es: seq<Entry>)
    requires Encodes(utf8, es) && OneStatsEach(es)
    ensures DecodeFrame(utf8, Frame(RecordsOf(utf8, es))) == Some(EnterAll(EMPTY, es)) <==>
            AllReadable(es) && forall i :: 0 <= i < |es| ==> !ZeroMetric(es[i])
  {
    hide DecodeFrame, Frame, RecordsOf, EnterAll, RoundedAll, OneStatsEach, AllReadable, ZeroMetric, Writable;
    DecodeOfEncode(utf8, es);
    if forall i :: 0 <= i < |es| ==> !ZeroMetric(es[i]) {
      NothingRounded(es);
    } else {
      var i :| 0 <= i < |es| && ZeroMetric(es[i]);
      assert Writable(utf8, es[i]);
      SevenStats(utf8, es[i]);
      ZeroMetricShows(es, i);
    }
  }

  lemma SevenStats(utf8: bytes -> bool, e: Entry)
    requires Writable(utf8, e) && ZeroMetric(e)
    ensures e.Numbers? && |e.v| == 7
  {
    assert |LayoutOf(17)| == 7;
  }

  lemma ZeroMetricShows(es: seq<Entry>, i: nat)
    requires OneStatsEach(es) && i < |es| && ZeroMetric(es[i]) && |es[i].v| == 7
    ensures EnterAll(EMPTY, RoundedAll(es)) != EnterAll(EMPTY, es)
  {
    hide EnterAll, Rounded, OneStatsEach;
    var e := es[i];
    var id := OrZero(e.v[0]);
    StatsKept(es, i, id);
    RoundedOneEach(es);
    RoundedStats(e, id);
    StatsKept(RoundedAll(es), i, id);
    var k :| 1 <= k < |e.v| && e.v[k] == Some(0);
    assert Nones(e.v[1..])[k - 1] != e.v[1..][k - 1];
  }

  const HALF_RESPONSE: Entry := Numbers(6, [Some(1), Some(0), Some(2), Some(1), None, None])

  const ZERO_RTT: Entry := Numbers(17, [Some(1), Some(0), None, None, None, None, None])

  /** A clock response without its times is written, and the payload that holds it refused, whatever else it holds. */
  lemma HalfResponseIsRefused(utf8: bytes -> bool, es: seq<Entry>)
    ensures Writable(utf8, HALF_RESPONSE) && !Readable(HALF_RESPONSE)
    ensures Encodes(utf8, es) && HALF_RESPONSE in es ==> DecodeFrame(utf8, Frame(RecordsOf(utf8, es))).None?
  {
    hide DecodeFrame, Frame, RecordsOf, Readable;
    HalfResponse(utf8);
    if Encodes(utf8, es) && HALF_RESPONSE in es {
      var i :| 0 <= i < |es| && es[i] == HALF_RESPONSE;
      DecodeOfEncode(utf8, es);
    }
  }

  lemma HalfResponse(utf8: bytes -> bool)
    ensures Writable(utf8, HALF_RESPONSE) && !Readable(HALF_RESPONSE)
  {
  }

  /** A round trip of zero is written and comes back absent. */
  lemma ZeroMetricIsLost(utf8: bytes -> bool)
    ensures Writable(utf8, ZERO_RTT) && ZeroMetric(ZERO_RTT) && Encodes(utf8, [ZERO_RTT])
    ensures var f := DecodeFrame(utf8, Frame(RecordsOf(utf8, [ZERO_RTT])));
      f.Some? && 1 in f.value.pathLatencyStats && f.value.pathLatencyStats[1] == [None, None, None, None, None, None]
  {
    ZeroRtt(utf8);
    hide DecodeFrame, Frame, RecordsOf;
    DecodeOfEncode(utf8, [ZERO_RTT]);
  }

  lemma ZeroRtt(utf8: bytes -> bool)
    ensures Writable(utf8, ZERO_RTT) && ZeroMetric(ZERO_RTT) && Encodes(utf8, [ZERO_RTT])
  {
    hide Pack, Total;
    var r := RecordOf(utf8, ZERO_RTT);
    ShortLayout(LayoutOf(17));
    assert |LayoutOf(17)| == 7;
    NothingWritten(utf8);
    RecordsOfSnoc(utf8, [], ZERO_RTT);
    assert [] + [ZERO_RTT] == [ZERO_RTT] && RecordsOf(utf8, [ZERO_RTT]) == [r];
    assert [r][1..] == [] && EncodeRecords([r]) == EncodeRecord(r);
  }

  lemma {:induction false} ShortLayout(layout: Layout)
    ensures Total(layout) <= 8 * |layout|
  {
    if layout == [] {
    } else {
      ShortLayout(layout[1..]);
    }
  }

  // ----- what Rust makes of it ------------------------------------------------

  /** Rust has no policy byte, observed-packet count, latency quality or statistics, and wants at least one number in a
      capacity or latency report. */
  predicate RustReadable(e: Entry) {
    e.Numbers? && |e.v| > 0 ==>
      && X.Shared(e.kind) && Readable(e)
      && (e.kind == 4 || e.kind == 5 ==> exists i :: 0 < i < |e.v| && e.v[i].Some?)
  }

  lemma RustTakesNumbers(kind: byte, v: seq<Option<int>>)
    requires Shaped(kind, v) && Checked(kind, v) && X.Shared(kind)
    ensures C.Numeric(kind) && LayoutOf(kind) == C.LayoutOf(kind) && Fits(C.LayoutOf(kind), OrZeros(v))
    ensures var m := C.FromNumbers(kind, OrZeros(v)); m.Some? && C.Allowed(m.value) <==> RustReadable(Numbers(kind, v))
  {
    ShapedFits(kind, v);
    X.SharedLayout(kind);
    if kind == 4 {
      RustTakesCapacity(v);
    } else if kind == 5 {
      RustTakesLatency(v);
    } else if kind == 6 {
      RustTakesSync(v);
    } else {
      RustTakesRest(kind, v);
    }
  }

  lemma RustTakesCapacity(v: seq<Option<int>>)
    requires Shaped(4, v) && Checked(4, v) && Fits(C.LayoutOf(4), OrZeros(v))
    ensures C.Allowed(C.FromNumbers(4, OrZeros(v)).value) <==> RustReadable(Numbers(4, v))
  {
    assert RustReadable(Numbers(4, v)) <==> v[1].Some? || v[2].Some?;
  }

  lemma RustTakesLatency(v: seq<Option<int>>)
    requires Shaped(5, v) && Checked(5, v) && Fits(C.LayoutOf(5), OrZeros(v))
    ensures C.Allowed(C.FromNumbers(5, OrZeros(v)).value) <==> RustReadable(Numbers(5, v))
  {
    assert RustReadable(Numbers(5, v)) <==> v[1].Some? || v[2].Some? || v[3].Some? || v[4].Some?;
  }

  lemma RustTakesSync(v: seq<Option<int>>)
    requires Shaped(6, v) && Checked(6, v) && Fits(C.LayoutOf(6), OrZeros(v))
    ensures var m := C.FromNumbers(6, OrZeros(v)); m.Some? && C.Allowed(m.value) <==> RustReadable(Numbers(6, v))
  {
    assert Required(6, 0) && Required(6, 2) && Required(6, 3);
  }

  lemma RustTakesRest(kind: byte, v: seq<Option<int>>)
    requires kind in {7, 11, 15} && Shaped(kind, v) && Checked(kind, v) && Fits(C.LayoutOf(kind), OrZeros(v))
    ensures var m := C.FromNumbers(kind, OrZeros(v)); m.Some? && C.Allowed(m.value)
  {
  }

  lemma NotShared(kind: byte, v: seq<Option<int>>)
    requires Shaped(kind, v) && !X.Shared(kind)
    ensures !RustReadable(Numbers(kind, v)) && !C.Textual(kind) && kind != C.STATUS_KIND
    ensures C.Numeric(kind) <==> kind == 12 || kind == 13
  {
  }

  /** One entry: exactly those are taken. */
  lemma RustReadsEntry(utf8: bytes -> bool, e: Entry)
    requires Writable(utf8, e)
    ensures var r := RecordOf(utf8, e); C.DecodeMessage(utf8, r.kind, r.value).Some? <==> RustReadable(e)
  {
    hide C.EncodeText, C.DecodeText, C.EncodeStatus, C.DecodeStatus, Pack, UnpackFrom, LayoutOf, C.LayoutOf,
         C.FromNumbers, C.Allowed, Total;
    match e
    case Text(kind, id, text) =>
      C.DecodeTextOfEncode(id, text);
      TextIsAllowed(utf8, e);
    case Status(a, b, c) =>
      C.DecodeStatusOfEncode(utf8, a, b, c);
      TextIsAllowed(utf8, e);
    case Numbers(kind, v) =>
      ShapedFits(kind, v);
      if X.Shared(kind) {
        RustTakesNumbers(kind, v);
        LayoutRoundTrip(C.LayoutOf(kind), OrZeros(v), []);
      } else {
        NotShared(kind, v);
        X.LongerLayouts();
      }
  }

  lemma TextIsAllowed(utf8: bytes -> bool, e: Entry)
    requires Writable(utf8, e)
    ensures e.Text? ==> C.Allowed(C.WithText(e.kind, e.id, e.text))
    ensures e.Status? ==> C.Allowed(C.SchedulerStatus(e.configured, e.effective, e.rustMode))
  {
  }

  ghost predicate AllRustReadable(es: seq<Entry>) { forall i :: 0 <= i < |es| ==> RustReadable(es[i]) }

  lemma {:induction false} RustReadsEntries(utf8: bytes -> bool, es: seq<Entry>)
    requires AllWritable(utf8, es)
    ensures P.DecodeAll(utf8, RecordsOf(utf8, es)).Some? <==> AllRustReadable(es)
    decreases |es|
  {
    hide C.DecodeMessage, Writable, RecordOf, RustReadable;
    if es == [] {
    } else {
      var init, e := es[..|es| - 1], es[|es| - 1];
      assert Writable(utf8, es[|es| - 1]);
      RustReadsEntries(utf8, init);
      RustReadsEntry(utf8, e);
      P.DecodeAllSnoc(utf8, RecordsOf(utf8, init), RecordOf(utf8, e));
      AllRustReadableSnoc(init, e);
      assert es == init + [e];
    }
  }

  lemma AllRustReadableSnoc(es: seq<Entry>, e: Entry)
    ensures AllRustReadable(es + [e]) <==> AllRustReadable(es) && RustReadable(e)
  {
    hide RustReadable;
    var all := es + [e];
    if AllRustReadable(all) {
      forall i | 0 <= i < |es| ensures RustReadable(es[i]) {
        assert all[i] == es[i];
      }
      assert RustReadable(all[|es|]);
    }
  }

  lemma RustReadableIsPlain(es: seq<Entry>)
    requires AllRustReadable(es) && forall i :: 0 <= i < |es| ==> es[i].Numbers? ==> |es[i].v| > 0
    ensures AllReadable(es) && RoundedAll(es) == es
  {
    forall i | 0 <= i < |es| ensures Readable(es[i]) && !ZeroMetric(es[i]) {
      assert RustReadable(es[i]);
    }
    NothingRounded(es);
  }

  /** What the Python encoder writes, Rust accepts if and only if every entry is one that both layouts share and that
      its constructors take; and then its messages are the entries that were encoded. */
  lemma RustReadsPython(utf8: bytes -> bool, es: seq<Entry>)
    requires Encodes(utf8, es)
    ensures var payload := Frame(RecordsOf(utf8, es));
      && (P.DecodePayload(utf8, payload).Some? <==> AllRustReadable(es))
      && (AllRustReadable(es) ==> X.EnterAll(EMPTY, P.DecodePayload(utf8, payload).value) == EnterAll(EMPTY, es))
  {
    hide RecordsOf, EncodeRecords, Unframe, P.DecodeAll, AllRustReadable, EnterAll, X.EnterAll, DecodeFrame;
    var payload := Frame(RecordsOf(utf8, es));
    P.SmallMeansShort(RecordsOf(utf8, es));
    UnframeOfFrame(RecordsOf(utf8, es));
    RustReadsEntries(utf8, es);
    if AllRustReadable(es) {
      DecodeOfEncode(utf8, es);
      forall i | 0 <= i < |es| && es[i].Numbers? ensures |es[i].v| > 0 {
        assert Writable(utf8, es[i]);
      }
      RustReadableIsPlain(es);
      X.PythonReadsRust(utf8, payload);
    }
  }
}
