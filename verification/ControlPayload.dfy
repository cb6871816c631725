/** Whole control payloads: the encode and decode loops, and how they undo each other. */
module ControlPayload {
  import opened Bytes
  import opened Records
  import opened Control

  datatype ControlError = MalformedControl | ControlTooLarge(len: nat)

  function RecordOf(m: ControlMessage): Record { Record(KindOf(m), EncodeMessage(m)) }

  function RecordsOf(ms: seq<ControlMessage>): (rs: seq<Record>)
    ensures |rs| == |ms|
  {
    if ms == [] then [] else RecordsOf(ms[..|ms| - 1]) + [RecordOf(ms[|ms| - 1])]
  }

  /** The payload's bytes, whatever their number. */
  function Written(ms: seq<ControlMessage>): bytes { Frame(RecordsOf(ms)) }

  function DecodeAll(utf8: bytes -> bool, rs: seq<Record>): (r: Option<seq<ControlMessage>>)
    ensures r.Some? ==> |r.value| == |rs|
  {
    if rs == [] then Some([])
    else
      var before, r := DecodeAll(utf8, rs[..|rs| - 1]), rs[|rs| - 1];
      var m := DecodeMessage(utf8, r.kind, r.value);
      if before.None? || m.None? then None else Some(before.value + [m.value])
  }

  function DecodePayload(utf8: bytes -> bool, input: bytes): Option<seq<ControlMessage>> {
    var rs := Unframe(input);
    if rs.None? || rs.value == [] then None else DecodeAll(utf8, rs.value)
  }

  ghost predicate AllCanonical(utf8: bytes -> bool, ms: seq<ControlMessage>) {
    forall i :: 0 <= i < |ms| ==> Canonical(utf8, ms[i])
  }

  // ----- steps ----------------------------------------------------------------

  lemma RecordsOfSnoc(ms: seq<ControlMessage>, m: ControlMessage)
    ensures RecordsOf(ms + [m]) == RecordsOf(ms) + [RecordOf(m)]
  {
    hide RecordOf;
    assert (ms + [m])[..|ms|] == ms;
  }

  lemma DecodeAllSnoc(utf8: bytes -> bool, rs: seq<Record>, r: Record)
    ensures var before, m := DecodeAll(utf8, rs), DecodeMessage(utf8, r.kind, r.value);
      DecodeAll(utf8, rs + [r]) == if before.None? || m.None? then None else Some(before.value + [m.value])
  {
    hide DecodeMessage;
    assert (rs + [r])[..|rs|] == rs;
  }

  lemma {:induction false} RefusedStaysRefused(utf8: bytes -> bool, done: seq<Record>, rest: seq<Record>)
    requires DecodeAll(utf8, done).None?
    ensures DecodeAll(utf8, done + rest).None?
    decreases |rest|
  {
    hide DecodeAll;
    if rest == [] {
      assert done + rest == done;
    } else {
      var init, r := rest[..|rest| - 1], rest[|rest| - 1];
      RefusedStaysRefused(utf8, done, init);
      assert done + rest == done + init + [r];
      DecodeAllSnoc(utf8, done + init, r);
    }
  }

  lemma {:induction false} EncodeRecordsSnoc(rs: seq<Record>, r: Record)
    ensures EncodeRecords(rs + [r]) == EncodeRecords(rs) + EncodeRecord(r)
  {
    hide EncodeRecord;
    if rs == [] {
      assert rs + [r] == [r];
      assert [r][1..] == [];
    } else {
      assert (rs + [r])[1..] == rs[1..] + [r];
      EncodeRecordsSnoc(rs[1..], r);
    }
  }

  lemma {:induction false} SmallMeansShort(rs: seq<Record>)
    requires |EncodeRecords(rs)| + 3 <= U16_MAX
    ensures AllShort(rs) && 3 * |rs| <= |EncodeRecords(rs)|
  {
    hide EncodeRecord;
    if rs == [] {
    } else {
      SmallMeansShort(rs[1..]);
      forall r | r in rs ensures Short(r) {
        assert r == rs[0] || r in rs[1..];
      }
    }
  }

  // ----- round trips ----------------------------------------------------------

  lemma {:induction false} DecodeAllOfRecords(utf8: bytes -> bool, ms: seq<ControlMessage>)
    requires AllCanonical(utf8, ms)
    ensures DecodeAll(utf8, RecordsOf(ms)) == Some(ms)
    decreases |ms|
  {
    hide Canonical, DecodeMessage, EncodeMessage, KindOf;
    if ms == [] {
    } else {
      var init, m := ms[..|ms| - 1], ms[|ms| - 1];
      DecodeAllOfRecords(utf8, init);
      CanonicalDecodes(utf8, m);
      DecodeAllSnoc(utf8, RecordsOf(init), RecordOf(m));
      assert ms == init + [m];
    }
  }

  lemma {:induction false} RecordsOfDecodeAll(utf8: bytes -> bool, rs: seq<Record>)
    requires DecodeAll(utf8, rs).Some?
    ensures var ms := DecodeAll(utf8, rs).value; AllCanonical(utf8, ms) && RecordsOf(ms) == rs
    decreases |rs|
  {
    hide Canonical, DecodeMessage, EncodeMessage, KindOf;
    if rs == [] {
    } else {
      var init, r := rs[..|rs| - 1], rs[|rs| - 1];
      RecordsOfDecodeAll(utf8, init);
      MessageReencodes(utf8, r.kind, r.value);
      RecordsOfSnoc(DecodeAll(utf8, init).value, DecodeMessage(utf8, r.kind, r.value).value);
      assert rs == init + [r];
    }
  }

  /** Every accepted input is the encoding of what it decodes to. */
  lemma PayloadReencodes(utf8: bytes -> bool, input: bytes)
    requires DecodePayload(utf8, input).Some?
    ensures var ms := DecodePayload(utf8, input).value;
      1 <= |ms| <= U16_MAX && AllCanonical(utf8, ms) && Written(ms) == input
  {
    hide Frame, Unframe, RecordsOf, DecodeAll, AllCanonical;
    FrameOfUnframe(input);
    RecordsOfDecodeAll(utf8, Unframe(input).value);
  }

  /** A payload that fits survives the wire exactly when it is not empty and every message is canonical. */
  lemma PayloadRoundTrip(utf8: bytes -> bool, ms: seq<ControlMessage>)
    requires |Written(ms)| <= U16_MAX
    ensures DecodePayload(utf8, Written(ms)) == Some(ms) <==> ms != [] && AllCanonical(utf8, ms)
  {
    hide Unframe, RecordsOf, DecodeAll, AllCanonical, EncodeRecords;
    if ms != [] && AllCanonical(utf8, ms) {
      SmallMeansShort(RecordsOf(ms));
      UnframeOfFrame(RecordsOf(ms));
      DecodeAllOfRecords(utf8, ms);
    }
    if DecodePayload(utf8, Written(ms)) == Some(ms) {
      PayloadReencodes(utf8, Written(ms));
    }
  }

  // ----- the loops ------------------------------------------------------------

  method Encode(messages: seq<ControlMessage>) returns (r: Result<bytes, ControlError>)
    ensures r.Ok? <==> |Written(messages)| <= U16_MAX
    ensures r.Ok? ==> r.value == Written(messages)
    ensures r.Err? ==> r.error.ControlTooLarge? && U16_MAX < r.error.len <= |Written(messages)|
  {
    hide Be16, RecordsOf, EncodeMessage, KindOf, EncodeRecords;
    var output := [CONTROL_PAYLOAD_VERSION] + Be16(|messages| % 0x1_0000);
    ghost var header := output;
    NothingWritten();
    for i := 0 to |messages|
      invariant output == header + EncodeRecords(RecordsOf(messages[..i])) && |output| <= U16_MAX
    {
      var m := messages[i];
      assert messages[..i + 1] == messages[..i] + [m];
      RecordsOfSnoc(messages[..i], m);
      EncodeRecordsSnoc(RecordsOf(messages[..i]), RecordOf(m));
      var value := EncodeMessage(m);
      output := output + ([KindOf(m)] + Be16(|value| % 0x1_0000) + value);
      if |output| > U16_MAX {
        WrittenGrows(messages, i + 1);
        return Err(ControlTooLarge(|output|));
      }
    }
    assert messages[..|messages|] == messages;
    r := Ok(output);
  }

  lemma NothingWritten()
    ensures EncodeRecords(RecordsOf([])) == []
  {
  }

  lemma {:induction false} WrittenGrows(ms: seq<ControlMessage>, i: nat)
    requires i <= |ms|
    ensures |EncodeRecords(RecordsOf(ms[..i]))| <= |EncodeRecords(RecordsOf(ms))|
    decreases |ms| - i
  {
    hide RecordsOf, EncodeRecords, RecordOf;
    if i == |ms| {
      assert ms[..i] == ms;
    } else {
      assert ms[..i + 1] == ms[..i] + [ms[i]];
      RecordsOfSnoc(ms[..i], ms[i]);
      EncodeRecordsSnoc(RecordsOf(ms[..i]), RecordOf(ms[i]));
      WrittenGrows(ms, i + 1);
    }
  }

  method Decode(utf8: bytes -> bool, input: bytes) returns (r: Result<seq<ControlMessage>, ControlError>)
    ensures r ==
            if DecodePayload(utf8, input).Some? then Ok(DecodePayload(utf8, input).value) else Err(MalformedControl)
  {
    hide Read16, SplitRecords, DecodeAll, DecodeMessage;
    if |input| < 3 || input[0] != CONTROL_PAYLOAD_VERSION {
      return Err(MalformedControl);
    }
    var count: nat := Read16(input, 1);
    ghost var done: seq<Record> := [];
    NothingDone(utf8, input, count);
    if count == 0 {
      return Err(MalformedControl);
    }
    var cursor: nat := 3;
    var messages: seq<ControlMessage> := [];
    for i := 0 to count
      invariant cursor <= |input| && DecodeAll(utf8, done) == Some(messages) && |done| == i
      invariant Unframe(input) == Prepend(done, SplitRecords(input[cursor..], count - i))
    {
      SplitAtCursor(input, cursor, done, count - i);
      if cursor + 3 > |input| {
        return Err(MalformedControl);
      }
      var kind, valueLen := input[cursor], Read16(input, cursor + 1);
      cursor := cursor + 3;
      if cursor + valueLen > |input| {
        return Err(MalformedControl);
      }
      var value := input[cursor..cursor + valueLen];
      DecodeAllSnoc(utf8, done, Record(kind, value));
      done := done + [Record(kind, value)];
      var message := DecodeMessage(utf8, kind, value);
      cursor := cursor + valueLen;
      if message.None? {
        RefusedRecord(utf8, done, SplitRecords(input[cursor..], count - i - 1));
        return Err(MalformedControl);
      }
      messages := messages + [message.value];
    }
    EndOfRecords(input, cursor, done);
    if cursor != |input| {
      return Err(MalformedControl);
    }
    r := Ok(messages);
  }

  lemma NothingDone(utf8: bytes -> bool, input: bytes, count: nat)
    requires |input| >= 3 && input[0] == CONTROL_PAYLOAD_VERSION && count == Read16(input, 1)
    ensures DecodeAll(utf8, []) == Some([]) && Unframe(input) == Prepend([], SplitRecords(input[3..], count))
    ensures count == 0 ==> Unframe(input).None? || Unframe(input) == Some([])
  {
    hide Read16;
    var rest := SplitRecords(input[3..], count);
    assert rest.Some? ==> [] + rest.value == rest.value;
  }

  lemma RefusedRecord(utf8: bytes -> bool, done: seq<Record>, rest: Option<seq<Record>>)
    requires DecodeAll(utf8, done).None?
    ensures Prepend(done, rest).Some? ==> DecodeAll(utf8, Prepend(done, rest).value).None?
  {
    hide DecodeAll;
    if rest.Some? {
      RefusedStaysRefused(utf8, done, rest.value);
    }
  }

  lemma EndOfRecords(input: bytes, cursor: nat, done: seq<Record>)
    requires cursor <= |input|
    ensures Prepend(done, SplitRecords(input[cursor..], 0)) == if cursor == |input| then Some(done) else None
  {
    assert input[cursor..] == [] <==> cursor == |input|;
    assert done + [] == done;
  }
}
