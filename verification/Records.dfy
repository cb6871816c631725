/** The framing both control codecs share: a version, a count, then records of a type, a length and a value. */
module Records {
  import opened Bytes

  const CONTROL_PAYLOAD_VERSION: byte := 1

  datatype Record = Record(kind: byte, value: bytes)

  predicate Short(r: Record) { |r.value| <= U16_MAX }

  predicate AllShort(rs: seq<Record>) { forall r :: r in rs ==> Short(r) }

  /** The length field keeps the low 16 bits of the length. */
  function EncodeRecord(r: Record): (s: bytes)
    ensures |s| == 3 + |r.value|
  {
    [r.kind] + Be16(|r.value| % 0x1_0000) + r.value
  }

  function EncodeRecords(rs: seq<Record>): bytes {
    if rs == [] then [] else EncodeRecord(rs[0]) + EncodeRecords(rs[1..])
  }

  /** Exactly `count` records and nothing behind them. */
  function SplitRecords(input: bytes, count: nat): Option<seq<Record>>
    decreases count
  {
    if count == 0 then (if input == [] then Some([]) else None)
    else if |input| < 3 || |input| < 3 + Read16(input, 1) as int then None
    else
      var end := 3 + Read16(input, 1) as int;
      match SplitRecords(input[end..], count - 1)
      case None => None
      case Some(rest) => Some([Record(input[0], input[3..end])] + rest)
  }

  function Frame(rs: seq<Record>): bytes {
    [CONTROL_PAYLOAD_VERSION] + Be16(|rs| % 0x1_0000) + EncodeRecords(rs)
  }

  function Unframe(input: bytes): Option<seq<Record>> {
    if |input| < 3 || input[0] != CONTROL_PAYLOAD_VERSION then None
    else SplitRecords(input[3..], Read16(input, 1))
  }

  lemma SplitOne(r: Record, rest: bytes, count: nat)
    requires Short(r) && count > 0
    ensures SplitRecords(EncodeRecord(r) + rest, count) ==
            match SplitRecords(rest, count - 1) case None => None case Some(rs) => Some([r] + rs)
  {
    hide Be16, Read16;
    var s := EncodeRecord(r) + rest;
    assert s[1..3] == Be16(|r.value|);
    ReadBe16(s, 1, |r.value|);
    assert s[3..3 + |r.value|] == r.value;
    assert s[3 + |r.value|..] == rest;
  }

  lemma SplitNone()
    ensures SplitRecords([], 0) == Some([]) && EncodeRecords([]) == []
  {
  }

  lemma {:induction false} SplitOfEncode(rs: seq<Record>)
    requires AllShort(rs)
    ensures SplitRecords(EncodeRecords(rs), |rs|) == Some(rs)
  {
    hide EncodeRecord, SplitRecords;
    if rs == [] {
      SplitNone();
    } else {
      assert AllShort(rs[1..]);
      SplitOfEncode(rs[1..]);
      SplitOne(rs[0], EncodeRecords(rs[1..]), |rs|);
      assert rs == [rs[0]] + rs[1..];
    }
  }

  lemma SplitFirst(input: bytes, count: nat)
    requires count > 0 && SplitRecords(input, count).Some?
    ensures |input| >= 3
    ensures var end := 3 + Read16(input, 1) as int;
      && end <= |input| && SplitRecords(input[end..], count - 1).Some?
      && var r := Record(input[0], input[3..end]);
      && Short(r) && input == EncodeRecord(r) + input[end..]
      && SplitRecords(input, count).value == [r] + SplitRecords(input[end..], count - 1).value
  {
    hide Be16, Read16;
    var end := 3 + Read16(input, 1) as int;
    BeRead16(input, 1);
    assert input == [input[0]] + input[1..3] + input[3..end] + input[end..];
  }

  lemma EncodeFirst(r: Record, rest: seq<Record>)
    ensures EncodeRecords([r] + rest) == EncodeRecord(r) + EncodeRecords(rest)
  {
    assert ([r] + rest)[1..] == rest;
  }

  lemma {:induction false} EncodeOfSplit(input: bytes, count: nat)
    requires SplitRecords(input, count).Some?
    ensures var rs := SplitRecords(input, count).value;
      |rs| == count && AllShort(rs) && EncodeRecords(rs) == input
    decreases count
  {
    if count == 0 {
      SplitNone();
    } else {
      hide EncodeRecord, SplitRecords, EncodeRecords, Short;
      SplitFirst(input, count);
      var end := 3 + Read16(input, 1) as int;
      EncodeOfSplit(input[end..], count - 1);
      EncodeFirst(Record(input[0], input[3..end]), SplitRecords(input[end..], count - 1).value);
    }
  }

  /** Framing and unframing undo each other. */
  lemma UnframeOfFrame(rs: seq<Record>)
    requires AllShort(rs) && |rs| <= U16_MAX
    ensures Unframe(Frame(rs)) == Some(rs)
  {
    hide Be16, Read16, EncodeRecords, SplitRecords;
    var s := Frame(rs);
    assert s[1..3] == Be16(|rs|);
    ReadBe16(s, 1, |rs|);
    assert s[3..] == EncodeRecords(rs);
    SplitOfEncode(rs);
  }

  lemma FrameOfUnframe(input: bytes)
    requires Unframe(input).Some?
    ensures var rs := Unframe(input).value;
      AllShort(rs) && |rs| <= U16_MAX && Frame(rs) == input
  {
    hide Be16, Read16, EncodeRecords, SplitRecords, AllShort;
    EncodeOfSplit(input[3..], Read16(input, 1));
    BeRead16(input, 1);
    assert input == [input[0]] + input[1..3] + input[3..];
  }

  /** The cursor's view: what has been split off so far, and what is still ahead. */
  function Prepend(done: seq<Record>, rest: Option<seq<Record>>): Option<seq<Record>> {
    if rest.None? then None else Some(done + rest.value)
  }

  lemma SliceOfSuffix(s: bytes, at: nat, lo: nat, hi: nat)
    requires at + hi <= |s| && lo <= hi
    ensures s[at..][lo..hi] == s[at + lo..at + hi] && s[at..][hi..] == s[at + hi..]
  {
  }

  lemma ReadOfSuffix(s: bytes, at: nat, i: nat)
    requires at + i + 2 <= |s|
    ensures Read16(s[at..], i) == Read16(s, at + i)
  {
  }

  lemma SplitUnfolds(s: bytes, count: nat)
    requires count > 0
    ensures |s| < 3 || |s| < 3 + Read16(s, 1) as int ==> SplitRecords(s, count) == None
    ensures |s| >= 3 && |s| >= 3 + Read16(s, 1) as int ==>
      var end := 3 + Read16(s, 1) as int;
      SplitRecords(s, count) == Prepend([Record(s[0], s[3..end])], SplitRecords(s[end..], count - 1))
  {
    hide Read16;
  }

  lemma PrependTwice(done: seq<Record>, r: Record, rest: Option<seq<Record>>)
    ensures Prepend(done, Prepend([r], rest)) == Prepend(done + [r], rest)
  {
    if rest.Some? {
      assert done + ([r] + rest.value) == done + [r] + rest.value;
    }
  }

  /** One turn of a decoding loop at `cursor`. */
  lemma SplitAtCursor(input: bytes, cursor: nat, done: seq<Record>, left: nat)
    requires cursor <= |input| && left > 0
    ensures cursor + 3 > |input| || cursor + 3 + Read16(input, cursor + 1) as int > |input| ==>
      SplitRecords(input[cursor..], left) == None
    ensures cursor + 3 <= |input| && cursor + 3 + Read16(input, cursor + 1) as int <= |input| ==>
      var end := cursor + 3 + Read16(input, cursor + 1) as int;
      Prepend(done, SplitRecords(input[cursor..], left)) ==
      Prepend(done + [Record(input[cursor], input[cursor + 3..end])], SplitRecords(input[end..], left - 1))
  {
    hide Read16, SplitRecords, Prepend;
    var s := input[cursor..];
    SplitUnfolds(s, left);
    if cursor + 3 <= |input| {
      ReadOfSuffix(input, cursor, 1);
      var end := 3 + Read16(s, 1) as int;
      if cursor + end <= |input| {
        SliceOfSuffix(input, cursor, 3, end);
        PrependTwice(done, Record(s[0], s[3..end]), SplitRecords(s[end..], left - 1));
      }
    }
  }
}
