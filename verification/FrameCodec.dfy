/** The compact frame format: v1 (with version byte) for plaintext carriers, v2 for AEAD plaintext. */
module FrameCodec {
  import opened Bytes

  const PROTOCOL_VERSION: byte := 1
  const V1_HEADER_LEN: nat := 14
  const V2_HEADER_LEN: nat := 13
  const FRAGMENT_METADATA_LEN: nat := 10
  const MAX_FRAME_PAYLOAD_LEN: nat := 65535

  datatype FrameKind = Data | Control | Batch

  datatype FragmentInfo = FragmentInfo(datagramId: u32, index: u16, count: u16, originalLen: u16)

  datatype Frame = Frame(
    kind: FrameKind,
    serviceId: u16,
    pathId: u16,
    sequence: u64,
    fragment: Option<FragmentInfo>,
    payload: bytes)

  datatype ProtocolError =
    | BufferTooSmall
    | UnsupportedVersion(version: byte)
    | UnknownFlags(flags: byte)
    | UnknownFrameKind(value: byte)
    | InvalidFragment
    | PayloadTooLarge(len: nat)
    | EmptyBatch
    | BatchTooLarge(len: nat)
    | BatchItemTooLarge(len: nat)
    | MalformedBatch

  // ----- constructors ---------------------------------------------------------

  function NewFragmentInfo(id: u32, index: u16, count: u16, originalLen: nat)
    : (r: Result<FragmentInfo, ProtocolError>)
  {
    if count == 0 || index >= count || originalLen > U16_MAX then Err(InvalidFragment)
    else Ok(FragmentInfo(id, index, count, originalLen))
  }

  function NewFrame(kind: FrameKind, serviceId: u16, pathId: u16, sequence: u64,
                    fragment: Option<FragmentInfo>, payload: bytes): (r: Result<Frame, ProtocolError>) {
    if |payload| > MAX_FRAME_PAYLOAD_LEN then Err(PayloadTooLarge(|payload|))
    else Ok(Frame(kind, serviceId, pathId, sequence, fragment, payload))
  }

  /** What the two constructors guarantee of every frame they build. */
  predicate WellFormed(f: Frame) {
    && |f.payload| <= MAX_FRAME_PAYLOAD_LEN
    && (f.fragment.Some? ==> f.fragment.value.index < f.fragment.value.count)
  }

  // ----- kind and flag byte ---------------------------------------------------

  function KindBits(kind: FrameKind): byte {
    match kind
    case Data => 0
    case Control => 1
    case Batch => 2
  }

  function KindFromBits(value: byte): Result<FrameKind, ProtocolError> {
    if value == 0 then Ok(Data)
    else if value == 1 then Ok(Control)
    else if value == 2 then Ok(Batch)
    else Err(UnknownFrameKind(value))
  }

  /** Bits 0-1 hold the kind, bit 2 the fragment flag, bits 3-7 are reserved and must be zero. */
  function KindMasked(flags: byte): byte { flags % 4 }

  function ReservedMasked(flags: byte): byte { flags - flags % 8 }

  predicate FragmentFlag(flags: byte) { flags / 4 % 2 == 1 }

  function ParseKindFlags(flags: byte): Result<bool, ProtocolError> {
    if ReservedMasked(flags) != 0 then Err(UnknownFlags(ReservedMasked(flags)))
    else match KindFromBits(KindMasked(flags))
         case Err(e) => Err(e)
         case Ok(_) => Ok(FragmentFlag(flags))
  }

  function FlagByte(f: Frame): byte {
    KindBits(f.kind) + (if f.fragment.Some? then 4 else 0)
  }

  // ----- fragment metadata ----------------------------------------------------

  function EncodeFragmentMetadata(i: FragmentInfo): (s: bytes)
    ensures |s| == FRAGMENT_METADATA_LEN
  {
    Be32(i.datagramId) + Be16(i.index) + Be16(i.count) + Be16(i.originalLen)
  }

  function DecodeFragmentMetadata(s: bytes): Result<FragmentInfo, ProtocolError>
    requires |s| == FRAGMENT_METADATA_LEN
  {
    NewFragmentInfo(Read32(s, 0), Read16(s, 4), Read16(s, 6), Read16(s, 8))
  }

  lemma FragmentMetadataRoundTrip(i: FragmentInfo)
    ensures DecodeFragmentMetadata(EncodeFragmentMetadata(i))
         == if i.index < i.count then Ok(i) else Err(InvalidFragment)
  {
    var s := EncodeFragmentMetadata(i);
    ReadBe32(s, 0, i.datagramId);
    ReadBe16(s, 4, i.index);
    ReadBe16(s, 6, i.count);
    ReadBe16(s, 8, i.originalLen);
  }

  lemma FragmentMetadataReencodes(s: bytes)
    requires |s| == FRAGMENT_METADATA_LEN && DecodeFragmentMetadata(s).Ok?
    ensures EncodeFragmentMetadata(DecodeFragmentMetadata(s).value) == s
  {
    BeRead32(s, 0);
    BeRead16(s, 4);
    BeRead16(s, 6);
    BeRead16(s, 8);
    assert s == s[0..4] + s[4..6] + s[6..8] + s[8..10];
  }

  // ----- encoded form ---------------------------------------------------------

  function MetadataOf(f: Frame): (s: bytes) {
    if f.fragment.Some? then EncodeFragmentMetadata(f.fragment.value) else []
  }

  function FixedHeader(f: Frame): (s: bytes)
    ensures |s| == V2_HEADER_LEN
  {
    [FlagByte(f)] + Be16(f.serviceId) + Be16(f.pathId) + Be64(f.sequence)
  }

  function EncodeV2(f: Frame): (s: bytes) {
    FixedHeader(f) + MetadataOf(f) + f.payload
  }

  function EncodeV1(f: Frame): (s: bytes) {
    [PROTOCOL_VERSION] + EncodeV2(f)
  }

  function EncodedV1Len(f: Frame): (n: nat)
    ensures n == |EncodeV1(f)|
  {
    V1_HEADER_LEN + (if f.fragment.Some? then FRAGMENT_METADATA_LEN else 0) + |f.payload|
  }

  function EncodedV2Len(f: Frame): (n: nat)
    ensures n == |EncodeV2(f)|
  {
    V2_HEADER_LEN + (if f.fragment.Some? then FRAGMENT_METADATA_LEN else 0) + |f.payload|
  }

  // ----- decoding, check by check in the source's order -----------------------

  function DecodeV1(input: bytes): (r: Result<Frame, ProtocolError>) {
    if |input| < V1_HEADER_LEN then Err(BufferTooSmall)
    else if input[0] != PROTOCOL_VERSION then Err(UnsupportedVersion(input[0]))
    else match ParseKindFlags(input[1])
         case Err(e) => Err(e)
         case Ok(hasFragment) =>
           var headerLen := V1_HEADER_LEN + if hasFragment then FRAGMENT_METADATA_LEN else 0;
           if |input| < headerLen then Err(BufferTooSmall)
           else
             var fragment :=
               if hasFragment then DecodeFragmentMetadata(input[V1_HEADER_LEN..headerLen])
               else Ok(FragmentInfo(0, 0, 1, 0));
             if fragment.Err? then Err(fragment.error)
             else
               var kind := KindFromBits(KindMasked(input[1]));
               if kind.Err? then Err(kind.error)
               else NewFrame(kind.value, Read16(input, 2), Read16(input, 4), Read64(input, 6),
                             if hasFragment then Some(fragment.value) else None, input[headerLen..])
  }

  function DecodeV2(input: bytes): (r: Result<Frame, ProtocolError>) {
    if |input| < V2_HEADER_LEN then Err(BufferTooSmall)
    else match KindFromBits(KindMasked(input[0]))
         case Err(e) => Err(e)
         case Ok(kind) =>
           match ParseKindFlags(input[0])
           case Err(e) => Err(e)
           case Ok(hasFragment) =>
             var headerLen := V2_HEADER_LEN + if hasFragment then FRAGMENT_METADATA_LEN else 0;
             if |input| < headerLen then Err(BufferTooSmall)
             else
               var fragment :=
                 if hasFragment then DecodeFragmentMetadata(input[V2_HEADER_LEN..headerLen])
                 else Ok(FragmentInfo(0, 0, 1, 0));
               if fragment.Err? then Err(fragment.error)
               else NewFrame(kind, Read16(input, 1), Read16(input, 3), Read64(input, 5),
                             if hasFragment then Some(fragment.value) else None, input[headerLen..])
  }

  // ----- the documented layout ------------------------------------------------

  /** The header as documented, offset by offset: kind 0 data, 1 control, 2 batch; 4 more with fragment metadata, which
      then follows the header; every number big-endian. Version 1 has the byte 1 in front. */
  lemma LayoutAsDocumented(f: Frame)
    ensures var s := EncodeV2(f);
      && EncodeV1(f) == [1] + s && |s| >= 13
      && s[0] == (match f.kind case Data => 0 case Control => 1 case Batch => 2) + (if f.fragment.Some? then 4 else 0)
      && BigEndian(s[1..3]) == f.serviceId && BigEndian(s[3..5]) == f.pathId && BigEndian(s[5..13]) == f.sequence
      && (f.fragment.None? ==> s[13..] == f.payload)
      && (f.fragment.Some? ==>
            var i := f.fragment.value;
            && |s| >= 23 && s[23..] == f.payload
            && BigEndian(s[13..17]) == i.datagramId && BigEndian(s[17..19]) == i.index
            && BigEndian(s[19..21]) == i.count && BigEndian(s[21..23]) == i.originalLen)
  {
    hide BigEndian, Be16, Be32, Be64;
    var s, h := EncodeV2(f), FixedHeader(f);
    assert s[..13] == h && s[0] == h[0];
    assert s[1..3] == h[1..3] == Be16(f.serviceId) && s[3..5] == h[3..5] == Be16(f.pathId);
    assert s[5..13] == h[5..13] == Be64(f.sequence);
    BigEndian16(f.serviceId);
    BigEndian16(f.pathId);
    BigEndian64(f.sequence);
    if f.fragment.Some? {
      var i, m := f.fragment.value, MetadataOf(f);
      assert s[13..23] == m;
      assert s[13..17] == m[..4] == Be32(i.datagramId) && s[17..19] == m[4..6] == Be16(i.index);
      assert s[19..21] == m[6..8] == Be16(i.count) && s[21..23] == m[8..10] == Be16(i.originalLen);
      BigEndian32(i.datagramId);
      BigEndian16(i.index);
      BigEndian16(i.count);
      BigEndian16(i.originalLen);
    }
  }

  // ----- the codec laws -------------------------------------------------------

  lemma HeaderFields(f: Frame)
    ensures var s := EncodeV2(f);
      && s[0] == FlagByte(f) && KindMasked(s[0]) == KindBits(f.kind)
      && ReservedMasked(s[0]) == 0 && (FragmentFlag(s[0]) <==> f.fragment.Some?)
      && Read16(s, 1) == f.serviceId && Read16(s, 3) == f.pathId && Read64(s, 5) == f.sequence
  {
    var s := EncodeV2(f);
    var h := FixedHeader(f);
    assert s[..V2_HEADER_LEN] == h;
    assert s[0] == h[0];
    assert s[1..3] == h[1..3] == Be16(f.serviceId);
    assert s[3..5] == h[3..5] == Be16(f.pathId);
    assert s[5..13] == h[5..13] == Be64(f.sequence);
    ReadBe16(s, 1, f.serviceId);
    ReadBe16(s, 3, f.pathId);
    ReadBe64(s, 5, f.sequence);
  }

  /** Decoding what was encoded gives the frame back exactly when the constructors could have built it. */
  lemma DecodeV2OfEncode(f: Frame)
    ensures DecodeV2(EncodeV2(f)) == Ok(f) <==> WellFormed(f)
  {
    var s := EncodeV2(f);
    HeaderFields(f);
    var headerLen := V2_HEADER_LEN + |MetadataOf(f)|;
    assert s[headerLen..] == f.payload;
    if f.fragment.Some? {
      assert s[V2_HEADER_LEN..headerLen] == MetadataOf(f);
      FragmentMetadataRoundTrip(f.fragment.value);
    }
  }

  lemma HeaderReencodes(input: bytes)
    requires |input| >= V2_HEADER_LEN
    ensures [input[0]] + Be16(Read16(input, 1)) + Be16(Read16(input, 3)) + Be64(Read64(input, 5)) ==
        input[..V2_HEADER_LEN]
  {
    hide Be16, Be64, Read16, Read64;
    BeRead16(input, 1);
    BeRead16(input, 3);
    BeRead64(input, 5);
    assert input[..V2_HEADER_LEN] == [input[0]] + input[1..3] + input[3..5] + input[5..13];
  }

  /** The flag byte says no more than the kind and whether there is a fragment. */
  lemma FlagBits(flags: byte)
    requires ParseKindFlags(flags).Ok?
    ensures KindFromBits(KindMasked(flags)).Ok? && ParseKindFlags(flags).value == FragmentFlag(flags)
    ensures flags == KindBits(KindFromBits(KindMasked(flags)).value) + if FragmentFlag(flags) then 4 else 0
  {
    assert flags == flags % 8;
    assert flags == flags / 4 * 4 + flags % 4 && flags / 4 <= 1;
  }

  function HeaderLenV2(input: bytes): nat
    requires |input| >= V2_HEADER_LEN
  {
    V2_HEADER_LEN + if FragmentFlag(input[0]) then FRAGMENT_METADATA_LEN else 0
  }

  /** What an accepted input decodes to, field by field. */
  lemma DecodedParts(input: bytes)
    requires DecodeV2(input).Ok?
    ensures |input| >= V2_HEADER_LEN && |input| >= HeaderLenV2(input)
    ensures var f, end := DecodeV2(input).value, HeaderLenV2(input);
      && FlagByte(f) == input[0] && f.serviceId == Read16(input, 1) && f.pathId == Read16(input, 3)
      && f.sequence == Read64(input, 5) && f.payload == input[end..] && |f.payload| <= MAX_FRAME_PAYLOAD_LEN
      && (f.fragment.Some? <==> FragmentFlag(input[0]))
      && (f.fragment.Some? ==> DecodeFragmentMetadata(input[V2_HEADER_LEN..end]) == Ok(f.fragment.value))
  {
    hide Read16, Read64, DecodeFragmentMetadata, KindMasked, FragmentFlag, KindBits, KindFromBits, ReservedMasked;
    FlagBits(input[0]);
  }

  /** Every accepted byte string is the encoding of the frame it decodes to. */
  lemma EncodeOfDecodeV2(input: bytes)
    requires DecodeV2(input).Ok?
    ensures EncodeV2(DecodeV2(input).value) == input && WellFormed(DecodeV2(input).value)
  {
    hide DecodeV2, FlagByte, Be16, Be64, Read16, Read64, EncodeFragmentMetadata, DecodeFragmentMetadata, FragmentFlag;
    var f := DecodeV2(input).value;
    DecodedParts(input);
    HeaderReencodes(input);
    if f.fragment.Some? {
      FragmentMetadataReencodes(input[13..23]);
      FragmentIsValid(input[13..23]);
      assert input == input[..13] + input[13..23] + input[23..];
    } else {
      assert input == input[..13] + input[13..];
    }
  }

  lemma FragmentIsValid(s: bytes)
    requires |s| == FRAGMENT_METADATA_LEN && DecodeFragmentMetadata(s).Ok?
    ensures var i := DecodeFragmentMetadata(s).value; i.index < i.count
  {
    hide Read16, Read32;
  }

  /** v1 differs from v2 by the leading version byte alone: both decoders accept the same frames. */
  lemma V1IsVersionByteThenV2(input: bytes)
    ensures DecodeV1([PROTOCOL_VERSION] + input).Ok? <==> DecodeV2(input).Ok?
    ensures DecodeV2(input).Ok? ==> DecodeV1([PROTOCOL_VERSION] + input) == DecodeV2(input)
  {
    var v1 := [PROTOCOL_VERSION] + input;
    if |input| >= V2_HEADER_LEN {
      assert v1[1] == input[0];
      ShiftedReads(input);
      assert v1[V1_HEADER_LEN..] == input[V2_HEADER_LEN..];
      if |input| >= 23 {
        assert v1[14..24] == input[13..23];
        assert v1[24..] == input[23..];
      }
    }
  }

  lemma ShiftedReads(input: bytes)
    requires |input| >= V2_HEADER_LEN
    ensures var v1 := [PROTOCOL_VERSION] + input;
      Read16(v1, 2) == Read16(input, 1) && Read16(v1, 4) == Read16(input, 3) && Read64(v1, 6) == Read64(input, 5)
  {
  }

  /** The v1 codec inherits the bijection; bytes without the version byte are never accepted. */
  lemma V1Bijection(f: Frame, input: bytes)
    ensures DecodeV1(EncodeV1(f)) == Ok(f) <==> WellFormed(f)
    ensures DecodeV1(input).Ok? ==> EncodeV1(DecodeV1(input).value) == input && WellFormed(DecodeV1(input).value)
  {
    V1IsVersionByteThenV2(EncodeV2(f));
    DecodeV2OfEncode(f);
    if DecodeV1(input).Ok? {
      assert input == [PROTOCOL_VERSION] + input[1..];
      V1IsVersionByteThenV2(input[1..]);
      EncodeOfDecodeV2(input[1..]);
    }
  }

  // ----- the buffer-writing forms ---------------------------------------------

  method WriteFixedHeader(f: Frame, output: array<byte>, at: nat)
    requires at + V2_HEADER_LEN <= output.Length
    modifies output
    ensures output[..at + V2_HEADER_LEN] == old(output[..at]) + FixedHeader(f)
  {
    hide Be16, Be64;
    ghost var before := output[..at];
    output[at] := KindBits(f.kind);
    if f.fragment.Some? {
      output[at] := output[at] + 4;
    }
    assert output[..at + 1] == before + [FlagByte(f)];
    WriteBytes(output, at + 1, Be16(f.serviceId));
    WriteBytes(output, at + 3, Be16(f.pathId));
    WriteBytes(output, at + 5, Be64(f.sequence));
    assert output[..at + 13] == before + [FlagByte(f)] + Be16(f.serviceId) + Be16(f.pathId) + Be64(f.sequence);
    assert before + FixedHeader(f) == before + [FlagByte(f)] + Be16(f.serviceId) + Be16(f.pathId) + Be64(f.sequence);
  }

  method WriteFrame(f: Frame, output: array<byte>, at: nat)
    requires at + EncodedV2Len(f) == output.Length
    modifies output
    ensures output[..] == old(output[..at]) + EncodeV2(f)
  {
    hide FixedHeader, EncodeFragmentMetadata;
    ghost var before := output[..at];
    WriteFixedHeader(f, output, at);
    var headerLen := at + V2_HEADER_LEN;
    assert output[..headerLen] == before + FixedHeader(f);
    if f.fragment.Some? {
      WriteBytes(output, headerLen, EncodeFragmentMetadata(f.fragment.value));
      headerLen := headerLen + FRAGMENT_METADATA_LEN;
    }
    assert output[..headerLen] == before + FixedHeader(f) + MetadataOf(f);
    WriteBytes(output, headerLen, f.payload);
    assert output[..] == output[..headerLen + |f.payload|];
    assert before + EncodeV2(f) == before + FixedHeader(f) + MetadataOf(f) + f.payload;
  }

  method WriteV1(f: Frame) returns (output: array<byte>)
    ensures fresh(output) && output[..] == EncodeV1(f)
  {
    hide EncodeV2;
    LengthsDiffer(f);
    output := new byte[EncodedV1Len(f)](_ => 0);
    output[0] := PROTOCOL_VERSION;
    assert output[..1] == [PROTOCOL_VERSION];
    WriteFrame(f, output, 1);
  }

  lemma LengthsDiffer(f: Frame)
    ensures EncodedV1Len(f) == EncodedV2Len(f) + 1
  {
  }

  method WriteV2(f: Frame) returns (output: array<byte>)
    ensures fresh(output) && output[..] == EncodeV2(f)
  {
    output := new byte[EncodedV2Len(f)](_ => 0);
    WriteFrame(f, output, 0);
  }

  method ShiftDown(input: array<byte>, n: nat)
    requires n <= input.Length
    modifies input
    ensures input[..input.Length - n] == old(input[n..])
  {
    for i := 0 to input.Length - n
      invariant forall k :: 0 <= k < i ==> input[k] == old(input[n + k])
      invariant forall k :: i <= k < input.Length ==> input[k] == old(input[k])
    {
      input[i] := input[n + i];
    }
  }

  /** The allocation-free decoder: reads the header, then shifts the payload down over it in place. */
  method DecodeV2Owned(input: array<byte>) returns (r: Result<Frame, ProtocolError>)
    modifies input
    ensures r == DecodeV2(old(input[..]))
    ensures r.Ok? ==> r.value.payload == input[..|r.value.payload|]
  {
    ghost var was := input[..];
    if input.Length < V2_HEADER_LEN {
      return Err(BufferTooSmall);
    }
    var flags := input[0];
    var kind := KindFromBits(KindMasked(flags));
    if kind.Err? {
      return Err(kind.error);
    }
    var hasFragment := ParseKindFlags(flags);
    if hasFragment.Err? {
      return Err(hasFragment.error);
    }
    var headerLen := V2_HEADER_LEN + if hasFragment.value then FRAGMENT_METADATA_LEN else 0;
    if input.Length < headerLen {
      return Err(BufferTooSmall);
    }
    var fragment: Option<FragmentInfo> := None;
    if hasFragment.value {
      var decoded := DecodeFragmentMetadata(input[V2_HEADER_LEN..headerLen]);
      if decoded.Err? {
        return Err(decoded.error);
      }
      fragment := Some(decoded.value);
    }
    var header := input[..V2_HEADER_LEN];
    var serviceId, pathId, sequence := Read16(header, 1), Read16(header, 3), Read64(header, 5);
    var payloadLen := input.Length - headerLen;
    ShiftDown(input, headerLen);
    r := NewFrame(kind.value, serviceId, pathId, sequence, fragment, input[..payloadLen]);
  }

  // ----- batch payloads -------------------------------------------------------

  function EncodeItems(payloads: seq<bytes>): (s: bytes)
    requires forall p :: p in payloads ==> |p| <= U16_MAX
  {
    if payloads == [] then []
    else Be16(|payloads[0]|) + payloads[0] + EncodeItems(payloads[1..])
  }

  /** Length of an encoded batch payload: the count field, then a length field per item. */
  function BatchLen(payloads: seq<bytes>): (n: nat)
    ensures n >= 2 + 2 * |payloads|
  {
    if payloads == [] then 2 else 2 + |payloads[0]| + BatchLen(payloads[1..])
  }

  predicate BatchEncodable(payloads: seq<bytes>) {
    payloads != [] && BatchLen(payloads) <= MAX_FRAME_PAYLOAD_LEN
  }

  lemma {:induction false} ItemsAreShort(payloads: seq<bytes>)
    requires BatchLen(payloads) <= MAX_FRAME_PAYLOAD_LEN
    ensures |payloads| <= U16_MAX
    ensures forall p :: p in payloads ==> |p| <= U16_MAX
    ensures |EncodeItems(payloads)| == BatchLen(payloads) - 2
  {
    if payloads == [] {
    } else {
      ItemsAreShort(payloads[1..]);
      forall p | p in payloads ensures |p| <= U16_MAX {
        assert p == payloads[0] || p in payloads[1..];
      }
    }
  }

  function EncodeBatch(payloads: seq<bytes>): (s: bytes)
    requires BatchEncodable(payloads)
    ensures |s| == BatchLen(payloads)
  {
    ItemsAreShort(payloads);
    Be16(|payloads|) + EncodeItems(payloads)
  }

  function DecodeItems(input: bytes, count: nat): (r: Option<seq<bytes>>)
    decreases count
  {
    if count == 0 then (if input == [] then Some([]) else None)
    else if |input| < 2 || |input| < 2 + Read16(input, 0) as int then None
    else
      var end := 2 + Read16(input, 0) as int;
      match DecodeItems(input[end..], count - 1)
      case None => None
      case Some(rest) => Some([input[2..end]] + rest)
  }

  function DecodeBatch(input: bytes): (r: Result<seq<bytes>, ProtocolError>) {
    if |input| < 2 then Err(MalformedBatch)
    else if Read16(input, 0) == 0 then Err(EmptyBatch)
    else match DecodeItems(input[2..], Read16(input, 0))
         case None => Err(MalformedBatch)
         case Some(items) => Ok(items)
  }

  lemma DecodeOneItem(first: bytes, rest: bytes, count: nat)
    requires |first| <= U16_MAX && count > 0
    ensures DecodeItems(Be16(|first|) + first + rest, count)
         == match DecodeItems(rest, count - 1) case None => None case Some(items) => Some([first] + items)
  {
    hide Be16, Read16;
    var s := Be16(|first|) + first + rest;
    assert s[0..2] == Be16(|first|);
    ReadBe16(s, 0, |first|);
    assert s[2..2 + |first|] == first;
    assert s[2 + |first|..] == rest;
  }

  lemma DecodeNoItems()
    ensures DecodeItems([], 0) == Some([])
  {
  }

  lemma {:induction false} DecodeItemsOfEncode(payloads: seq<bytes>)
    requires forall p :: p in payloads ==> |p| <= U16_MAX
    ensures DecodeItems(EncodeItems(payloads), |payloads|) == Some(payloads)
  {
    hide Be16, DecodeItems;
    if payloads == [] {
      DecodeNoItems();
    } else {
      DecodeItemsOfEncode(payloads[1..]);
      DecodeOneItem(payloads[0], EncodeItems(payloads[1..]), |payloads|);
      assert payloads == [payloads[0]] + payloads[1..];
    }
  }

  lemma EncodeOneItem(item: bytes, rest: seq<bytes>)
    requires |item| <= U16_MAX && forall p :: p in rest ==> |p| <= U16_MAX
    ensures forall p :: p in [item] + rest ==> |p| <= U16_MAX
    ensures EncodeItems([item] + rest) == Be16(|item|) + item + EncodeItems(rest)
    ensures BatchLen([item] + rest) == 2 + |item| + BatchLen(rest)
  {
    assert ([item] + rest)[1..] == rest;
  }

  lemma SplitItem(input: bytes, count: nat)
    requires count > 0 && DecodeItems(input, count).Some?
    ensures |input| >= 2
    ensures var end := 2 + Read16(input, 0) as int;
      && end <= |input| && DecodeItems(input[end..], count - 1).Some?
      && DecodeItems(input, count).value == [input[2..end]] + DecodeItems(input[end..], count - 1).value
      && input == Be16(|input[2..end]|) + input[2..end] + input[end..]
  {
    hide Be16, Read16;
    var end := 2 + Read16(input, 0) as int;
    BeRead16(input, 0);
    assert input == input[0..2] + input[2..end] + input[end..];
  }

  lemma EncodeNoItems()
    ensures EncodeItems([]) == [] && BatchLen([]) == 2
  {
  }

  lemma {:induction false} EncodeItemsOfDecode(input: bytes, count: nat)
    requires DecodeItems(input, count).Some?
    ensures var items := DecodeItems(input, count).value;
      && |items| == count
      && (forall p :: p in items ==> |p| <= U16_MAX)
      && EncodeItems(items) == input
      && BatchLen(items) == |input| + 2
    decreases count
  {
    if count == 0 {
      EncodeNoItems();
    } else {
      hide Be16, Read16, DecodeItems, EncodeItems, BatchLen;
      SplitItem(input, count);
      var end := 2 + Read16(input, 0) as int;
      EncodeItemsOfDecode(input[end..], count - 1);
      EncodeOneItem(input[2..end], DecodeItems(input[end..], count - 1).value);
    }
  }

  /** Batch payloads round-trip in both directions. */
  lemma BatchRoundTrip(payloads: seq<bytes>, input: bytes)
    ensures BatchEncodable(payloads) ==> DecodeBatch(EncodeBatch(payloads)) == Ok(payloads)
    ensures DecodeBatch(input).Ok? && |input| <= MAX_FRAME_PAYLOAD_LEN ==>
              BatchEncodable(DecodeBatch(input).value) && EncodeBatch(DecodeBatch(input).value) == input
  {
    if BatchEncodable(payloads) {
      ItemsAreShort(payloads);
      var s := EncodeBatch(payloads);
      assert s[0..2] == Be16(|payloads|);
      ReadBe16(s, 0, |payloads|);
      assert s[2..] == EncodeItems(payloads);
      DecodeItemsOfEncode(payloads);
    }
    if DecodeBatch(input).Ok? && |input| <= MAX_FRAME_PAYLOAD_LEN {
      EncodeItemsOfDecode(input[2..], Read16(input, 0));
      BeRead16(input, 0);
      assert input == input[0..2] + input[2..];
    }
  }

  lemma {:induction false} BatchLenAppend(payloads: seq<bytes>, p: bytes)
    ensures BatchLen(payloads + [p]) == BatchLen(payloads) + 2 + |p|
  {
    if payloads == [] {
      assert payloads + [p] == [p];
      assert [p][1..] == [];
    } else {
      assert (payloads + [p])[1..] == payloads[1..] + [p];
      BatchLenAppend(payloads[1..], p);
    }
  }

  lemma {:induction false} BatchLenOfPrefix(payloads: seq<bytes>, i: nat)
    requires i <= |payloads|
    ensures BatchLen(payloads[..i]) <= BatchLen(payloads)
    decreases |payloads| - i
  {
    if i == |payloads| {
      assert payloads[..i] == payloads;
    } else {
      assert payloads[..i + 1] == payloads[..i] + [payloads[i]];
      BatchLenAppend(payloads[..i], payloads[i]);
      BatchLenOfPrefix(payloads, i + 1);
    }
  }

  lemma {:induction false} EncodeItemsAppend(payloads: seq<bytes>, p: bytes)
    requires |p| <= U16_MAX && forall q :: q in payloads ==> |q| <= U16_MAX
    ensures EncodeItems(payloads + [p]) == EncodeItems(payloads) + (Be16(|p|) + p)
  {
    if payloads == [] {
      assert payloads + [p] == [p];
      assert [p][1..] == [];
    } else {
      assert (payloads + [p])[1..] == payloads[1..] + [p];
      EncodeItemsAppend(payloads[1..], p);
    }
  }

  /** The measuring loop then the writing loop. An error is returned exactly when the batch cannot be represented. */
  method EncodeBatchPayload(payloads: seq<bytes>) returns (r: Result<bytes, ProtocolError>)
    ensures r.Ok? <==> BatchEncodable(payloads)
    ensures r.Ok? ==> r.value == EncodeBatch(payloads)
  {
    if payloads == [] {
      return Err(EmptyBatch);
    }
    if |payloads| > U16_MAX {
      return Err(BatchTooLarge(|payloads|));
    }
    var totalLen := 2;
    for i := 0 to |payloads|
      invariant totalLen == BatchLen(payloads[..i]) <= MAX_FRAME_PAYLOAD_LEN
    {
      assert payloads[..i + 1] == payloads[..i] + [payloads[i]];
      BatchLenAppend(payloads[..i], payloads[i]);
      BatchLenOfPrefix(payloads, i + 1);
      if |payloads[i]| > U16_MAX {
        return Err(BatchItemTooLarge(|payloads[i]|));
      }
      totalLen := totalLen + 2 + |payloads[i]|;
      if totalLen > MAX_FRAME_PAYLOAD_LEN {
        return Err(BatchTooLarge(totalLen));
      }
    }
    assert payloads[..|payloads|] == payloads;
    var items := WriteItems(payloads);
    r := Ok(Be16(|payloads|) + items);
  }

  method WriteItems(payloads: seq<bytes>) returns (output: bytes)
    requires BatchLen(payloads) <= MAX_FRAME_PAYLOAD_LEN
    ensures (forall p :: p in payloads ==> |p| <= U16_MAX) && output == EncodeItems(payloads)
  {
    hide Be16, BatchLen;
    ItemsAreShort(payloads);
    output := [];
    for i := 0 to |payloads|
      invariant output == EncodeItems(payloads[..i])
    {
      assert payloads[..i + 1] == payloads[..i] + [payloads[i]];
      EncodeItemsAppend(payloads[..i], payloads[i]);
      output := output + (Be16(|payloads[i]|) + payloads[i]);
    }
    assert payloads[..|payloads|] == payloads;
  }

  lemma Read16Slice(input: bytes, at: nat)
    requires at + 2 <= |input|
    ensures Read16(input[at..], 0) == Read16(input, at)
  {
  }

  /** The cursor loop; `DecodeItems` is what is left to parse at each cursor position. */
  method DecodeBatchPayload(input: bytes) returns (r: Result<seq<bytes>, ProtocolError>)
    ensures r == DecodeBatch(input)
  {
    hide Read16;
    if |input| < 2 {
      return Err(MalformedBatch);
    }
    var itemCount: int := Read16(input, 0);
    if itemCount == 0 {
      return Err(EmptyBatch);
    }
    var cursor := 2;
    var payloads := [];
    assert var all := DecodeItems(input[2..], itemCount); all.Some? ==> [] + all.value == all.value;
    for i := 0 to itemCount
      invariant 2 <= cursor <= |input|
      invariant var all := DecodeItems(input[2..], itemCount);
                var rest := DecodeItems(input[cursor..], itemCount - i);
                all == if rest.Some? then Some(payloads + rest.value) else None
    {
      if cursor + 2 > |input| {
        return Err(MalformedBatch);
      }
      Read16Slice(input, cursor);
      var itemLen: int := Read16(input, cursor);
      var start := cursor + 2;
      if start + itemLen > |input| {
        return Err(MalformedBatch);
      }
      ghost var tail := input[cursor..];
      assert tail[2..2 + itemLen] == input[start..start + itemLen];
      assert tail[2 + itemLen..] == input[start + itemLen..];
      ghost var rest := DecodeItems(input[start + itemLen..], itemCount - i - 1);
      var item := input[start..start + itemLen];
      assert rest.Some? ==> payloads + ([item] + rest.value) == payloads + [item] + rest.value;
      payloads := payloads + [item];
      cursor := start + itemLen;
    }
    if cursor != |input| {
      return Err(MalformedBatch);
    }
    assert input[cursor..] == [] && payloads + [] == payloads;
    r := Ok(payloads);
  }
}
