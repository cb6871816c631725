/** Fixed layouts of big-endian numbers, written in order and read back at their offsets. */
module Fields {
  import opened Bytes

  datatype Width = W8 | W16 | W32 | W64
  {
    function Size(): nat { match this case W8 => 1 case W16 => 2 case W32 => 4 case W64 => 8 }

    function Bound(): nat {
      match this
      case W8 => 0x100
      case W16 => 0x1_0000
      case W32 => 0x1_0000_0000
      case W64 => 0x1_0000_0000_0000_0000
    }
  }

  function Put(w: Width, v: nat): (s: bytes)
    requires v < w.Bound()
    ensures |s| == w.Size()
  {
    match w
    case W8 => [v]
    case W16 => Be16(v)
    case W32 => Be32(v)
    case W64 => Be64(v)
  }

  function Get(w: Width, s: bytes, at: nat): (v: nat)
    requires at + w.Size() <= |s|
    ensures v < w.Bound()
  {
    match w
    case W8 => s[at]
    case W16 => Read16(s, at)
    case W32 => Read32(s, at)
    case W64 => Read64(s, at)
  }

  lemma GetPut(w: Width, s: bytes, at: nat, v: nat)
    requires v < w.Bound() && at + w.Size() <= |s| && s[at..at + w.Size()] == Put(w, v)
    ensures Get(w, s, at) == v
  {
    hide Be16, Be32, Be64, Read16, Read32, Read64;
    match w
    case W8 => assert s[at] == s[at..at + 1][0];
    case W16 => ReadBe16(s, at, v);
    case W32 => ReadBe32(s, at, v);
    case W64 => ReadBe64(s, at, v);
  }

  lemma PutGet(w: Width, s: bytes, at: nat)
    requires at + w.Size() <= |s|
    ensures Put(w, Get(w, s, at)) == s[at..at + w.Size()]
  {
    hide Be16, Be32, Be64, Read16, Read32, Read64;
    match w
    case W8 =>
    case W16 => BeRead16(s, at);
    case W32 => BeRead32(s, at);
    case W64 => BeRead64(s, at);
  }

  type Layout = seq<Width>

  function Total(layout: Layout): nat {
    if layout == [] then 0 else layout[0].Size() + Total(layout[1..])
  }

  predicate Fits(layout: Layout, values: seq<nat>) {
    |layout| == |values| && forall i :: 0 <= i < |values| ==> values[i] < layout[i].Bound()
  }

  function Pack(layout: Layout, values: seq<nat>): (s: bytes)
    requires Fits(layout, values)
    ensures |s| == Total(layout)
  {
    if layout == [] then [] else Put(layout[0], values[0]) + Pack(layout[1..], values[1..])
  }

  /** The numbers of a value, read one after another from `at`. */
  function UnpackFrom(layout: Layout, s: bytes, at: nat): (values: seq<nat>)
    requires at + Total(layout) <= |s|
    ensures |values| == |layout|
    decreases |layout|
  {
    if layout == [] then [] else [Get(layout[0], s, at)] + UnpackFrom(layout[1..], s, at + layout[0].Size())
  }

  function Unpack(layout: Layout, s: bytes): (r: Option<seq<nat>>) {
    if |s| != Total(layout) then None else Some(UnpackFrom(layout, s, 0))
  }

  lemma {:induction false} UnpackFits(layout: Layout, s: bytes, at: nat)
    requires at + Total(layout) <= |s|
    ensures Fits(layout, UnpackFrom(layout, s, at))
    decreases |layout|
  {
    hide Get, Width.Bound, Width.Size;
    if layout == [] {
    } else {
      UnpackFits(layout[1..], s, at + layout[0].Size());
      var rest := UnpackFrom(layout[1..], s, at + layout[0].Size());
      assert forall i :: 1 <= i < |layout| ==>
        UnpackFrom(layout, s, at)[i] == rest[i - 1] && layout[i] == layout[1..][i - 1];
    }
  }

  lemma PackStep(layout: Layout, values: seq<nat>)
    requires Fits(layout, values) && layout != []
    ensures Fits(layout[1..], values[1..]) && values[0] < layout[0].Bound()
    ensures Pack(layout, values) == Put(layout[0], values[0]) + Pack(layout[1..], values[1..])
    ensures Total(layout) == layout[0].Size() + Total(layout[1..])
  {
    hide Put, Width.Bound, Width.Size;
  }

  lemma {:induction false} UnpackOfPack(layout: Layout, values: seq<nat>, s: bytes, at: nat)
    requires Fits(layout, values) && at + Total(layout) <= |s| && s[at..at + Total(layout)] == Pack(layout, values)
    ensures UnpackFrom(layout, s, at) == values
    decreases |layout|
  {
    hide Put, Get, Width.Bound, Width.Size, Pack, Total;
    if layout == [] {
    } else {
      PackStep(layout, values);
      var size, rest := layout[0].Size(), Total(layout[1..]);
      var here := s[at..at + size + rest];
      assert s[at..at + size] == here[..size] == Put(layout[0], values[0]);
      assert s[at + size..at + size + rest] == here[size..] == Pack(layout[1..], values[1..]);
      GetPut(layout[0], s, at, values[0]);
      UnpackOfPack(layout[1..], values[1..], s, at + size);
      assert values == [values[0]] + values[1..];
    }
  }

  lemma {:induction false} PackOfUnpack(layout: Layout, s: bytes, at: nat)
    requires at + Total(layout) <= |s|
    ensures Fits(layout, UnpackFrom(layout, s, at))
    ensures Pack(layout, UnpackFrom(layout, s, at)) == s[at..at + Total(layout)]
    decreases |layout|
  {
    hide Put, Get, Width.Bound, Width.Size, Fits;
    UnpackFits(layout, s, at);
    if layout == [] {
    } else {
      var size := layout[0].Size();
      PackOfUnpack(layout[1..], s, at + size);
      PutGet(layout[0], s, at);
      assert UnpackFrom(layout, s, at)[1..] == UnpackFrom(layout[1..], s, at + size);
      assert s[at..at + Total(layout)] == s[at..at + size] + s[at + size..at + Total(layout)];
    }
  }

  /** Unpacking undoes packing, and packing what was unpacked gives the bytes back. */
  lemma LayoutRoundTrip(layout: Layout, values: seq<nat>, s: bytes)
    ensures Fits(layout, values) ==> Unpack(layout, Pack(layout, values)) == Some(values)
    ensures Unpack(layout, s).Some? ==>
      Fits(layout, Unpack(layout, s).value) && Pack(layout, Unpack(layout, s).value) == s
  {
    hide Pack, UnpackFrom, Total, Fits;
    if Fits(layout, values) {
      var packed := Pack(layout, values);
      assert packed[0..0 + Total(layout)] == packed;
      UnpackOfPack(layout, values, packed, 0);
    }
    if Unpack(layout, s).Some? {
      PackOfUnpack(layout, s, 0);
      assert s[0..0 + Total(layout)] == s;
    }
  }

  function Offsets(layout: Layout, at: nat): (offsets: seq<nat>)
    ensures |offsets| == |layout|
    decreases |layout|
  {
    if layout == [] then [] else [at] + Offsets(layout[1..], at + layout[0].Size())
  }

  /** Each number is read at its own fixed offset. */
  lemma {:induction false} ReadAtOffsets(layout: Layout, s: bytes, at: nat, i: nat)
    requires at + Total(layout) <= |s| && i < |layout|
    ensures Offsets(layout, at)[i] + layout[i].Size() <= |s|
    ensures UnpackFrom(layout, s, at)[i] == Get(layout[i], s, Offsets(layout, at)[i])
    decreases |layout|
  {
    hide Get, Width.Size;
    if i == 0 {
    } else {
      ReadAtOffsets(layout[1..], s, at + layout[0].Size(), i - 1);
    }
  }

  predicate Meets(layout: Layout, offsets: seq<nat>, end: nat, i: nat)
    requires |offsets| == |layout| && i < |layout|
  {
    offsets[i] + layout[i].Size() == if i == |layout| - 1 then end else offsets[i + 1]
  }

  /** Offsets that follow one another without a gap up to `end`. */
  predicate Placed(layout: Layout, offsets: seq<nat>, end: nat) {
    |offsets| == |layout| > 0 && forall i: nat | i < |layout| :: Meets(layout, offsets, end, i)
  }

  lemma {:induction false} PlacedAt(layout: Layout, offsets: seq<nat>, end: nat)
    requires Placed(layout, offsets, end)
    ensures Offsets(layout, offsets[0]) == offsets && offsets[0] + Total(layout) == end
    decreases |layout|
  {
    hide Width.Size;
    assert Meets(layout, offsets, end, 0);
    assert offsets == [offsets[0]] + offsets[1..];
    if |layout| > 1 {
      forall i: nat | i < |layout| - 1 ensures Meets(layout[1..], offsets[1..], end, i) {
        assert Meets(layout, offsets, end, i + 1);
      }
      PlacedAt(layout[1..], offsets[1..], end);
    } else {
      assert layout[1..] == [] && offsets[1..] == [];
    }
  }
}
