/** Machine-width integers, byte strings and the big-endian integer fields every wire format here uses. */
module Bytes {

  type byte = x: int | 0 <= x < 0x100
  type u16 = x: int | 0 <= x < 0x1_0000
  type u32 = x: int | 0 <= x < 0x1_0000_0000
  type u64 = x: int | 0 <= x < 0x1_0000_0000_0000_0000
  type bytes = seq<byte>

  const U16_MAX: int := 0xFFFF
  const U32_MAX: int := 0xFFFF_FFFF
  const U64_MAX: int := 0xFFFF_FFFF_FFFF_FFFF
  const TWO_TO_64: int := 0x1_0000_0000_0000_0000

  datatype Option<+T> = None | Some(value: T)
  {
    function Or(other: Option<T>): Option<T> {
      if Some? then this else other
    }
  }

  datatype Result<+T, +E> = Ok(value: T) | Err(error: E)

  /** 64-bit addition as release builds perform it. */
  function WrappingAdd(a: u64, b: nat): u64 { (a + b) % TWO_TO_64 }

  /** Rounded-up division, as `div_ceil` computes it. */
  function DivCeil(n: nat, d: nat): (q: nat)
    requires d > 0
    decreases n
  {
    if n == 0 then 0 else if n <= d then 1 else 1 + DivCeil(n - d, d)
  }

  /** The quotient is the least number of `d`-sized parts that cover `n`. */
  lemma {:induction false} DivCeilCovers(n: nat, d: nat)
    requires d > 0
    ensures var q := DivCeil(n, d); n <= q * d && (q > 0 ==> (q - 1) * d < n)
    decreases n
  {
    if n > d {
      DivCeilCovers(n - d, d);
      var q := DivCeil(n - d, d);
      assert (q + 1) * d == q * d + d;
      assert q * d == (q - 1) * d + d;
    }
  }

  function Be16(v: u16): (s: bytes)
    ensures |s| == 2
  {
    [v / 0x100, v % 0x100]
  }

  function Be32(v: u32): (s: bytes)
    ensures |s| == 4
  {
    Be16(v / 0x1_0000) + Be16(v % 0x1_0000)
  }

  function Be64(v: u64): (s: bytes)
    ensures |s| == 8
  {
    Be32(v / 0x1_0000_0000) + Be32(v % 0x1_0000_0000)
  }

  function Read16(s: bytes, at: nat): (v: u16)
    requires at + 2 <= |s|
  {
    s[at] as int * 0x100 + s[at + 1] as int
  }

  function Read32(s: bytes, at: nat): (v: u32)
    requires at + 4 <= |s|
  {
    Read16(s, at) as int * 0x1_0000 + Read16(s, at + 2) as int
  }

  function Read64(s: bytes, at: nat): (v: u64)
    requires at + 8 <= |s|
  {
    Read32(s, at) as int * 0x1_0000_0000 + Read32(s, at + 4) as int
  }

  /** The number a byte string stands for, most significant byte first. */
  function BigEndian(s: bytes): nat {
    if s == [] then 0 else BigEndian(s[..|s| - 1]) * 0x100 + s[|s| - 1]
  }

  lemma BigEndianTwo(s: bytes, t: bytes)
    requires |t| == 2
    ensures BigEndian(s + t) == BigEndian(s) * 0x1_0000 + t[0] as int * 0x100 + t[1] as int
  {
    var u := s + t;
    assert u[..|u| - 1] == s + [t[0]] && (s + [t[0]])[..|s|] == s;
  }

  /** The fixed-width fields write the number they are given. */
  lemma BigEndian16(v: u16)
    ensures BigEndian(Be16(v)) == v
  {
    BigEndianTwo([], Be16(v));
    assert [] + Be16(v) == Be16(v);
  }

  lemma BigEndian32(v: u32)
    ensures BigEndian(Be32(v)) == v
  {
    hide BigEndian;
    BigEndian16(v / 0x1_0000);
    BigEndianTwo(Be16(v / 0x1_0000), Be16(v % 0x1_0000));
  }

  lemma BigEndian64(v: u64)
    ensures BigEndian(Be64(v)) == v
  {
    hide BigEndian;
    var hi, lo := v / 0x1_0000_0000, v % 0x1_0000_0000;
    BigEndian32(hi);
    var a, b := Be16(lo / 0x1_0000), Be16(lo % 0x1_0000);
    BigEndianTwo(Be32(hi), a);
    BigEndianTwo(Be32(hi) + a, b);
    assert Be64(v) == Be32(hi) + a + b;
  }

  /** Reading a big-endian field back gives the number written, wherever the field sits. */
  lemma ReadBe16(s: bytes, at: nat, v: u16)
    requires at + 2 <= |s| && s[at..at + 2] == Be16(v)
    ensures Read16(s, at) == v
  {
    assert s[at] == s[at..at + 2][0] && s[at + 1] == s[at..at + 2][1];
  }

  lemma ReadBe32(s: bytes, at: nat, v: u32)
    requires at + 4 <= |s| && s[at..at + 4] == Be32(v)
    ensures Read32(s, at) == v
  {
    assert s[at..at + 2] == s[at..at + 4][..2] == Be16(v / 0x1_0000);
    assert s[at + 2..at + 4] == s[at..at + 4][2..] == Be16(v % 0x1_0000);
    ReadBe16(s, at, v / 0x1_0000);
    ReadBe16(s, at + 2, v % 0x1_0000);
  }

  lemma ReadBe64(s: bytes, at: nat, v: u64)
    requires at + 8 <= |s| && s[at..at + 8] == Be64(v)
    ensures Read64(s, at) == v
  {
    assert s[at..at + 4] == s[at..at + 8][..4] == Be32(v / 0x1_0000_0000);
    assert s[at + 4..at + 8] == s[at..at + 8][4..] == Be32(v % 0x1_0000_0000);
    ReadBe32(s, at, v / 0x1_0000_0000);
    ReadBe32(s, at + 4, v % 0x1_0000_0000);
  }

  /** Writing a field that was read gives back exactly the bytes it was read from. */
  lemma BeRead16(s: bytes, at: nat)
    requires at + 2 <= |s|
    ensures Be16(Read16(s, at)) == s[at..at + 2]
  {
    var hi: int, lo: int := s[at], s[at + 1];
    assert (hi * 0x100 + lo) / 0x100 == hi && (hi * 0x100 + lo) % 0x100 == lo;
  }

  lemma BeRead32(s: bytes, at: nat)
    requires at + 4 <= |s|
    ensures Be32(Read32(s, at)) == s[at..at + 4]
  {
    var hi: int, lo: int := Read16(s, at), Read16(s, at + 2);
    assert (hi * 0x1_0000 + lo) / 0x1_0000 == hi && (hi * 0x1_0000 + lo) % 0x1_0000 == lo;
    BeRead16(s, at);
    BeRead16(s, at + 2);
    assert s[at..at + 4] == s[at..at + 2] + s[at + 2..at + 4];
  }

  lemma SplitAt32(hi: u32, lo: u32)
    ensures (hi as int * 0x1_0000_0000 + lo as int) / 0x1_0000_0000 == hi
    ensures (hi as int * 0x1_0000_0000 + lo as int) % 0x1_0000_0000 == lo
  {
  }

  lemma BeRead64(s: bytes, at: nat)
    requires at + 8 <= |s|
    ensures Be64(Read64(s, at)) == s[at..at + 8]
  {
    SplitAt32(Read32(s, at), Read32(s, at + 4));
    BeRead32(s, at);
    BeRead32(s, at + 4);
    assert s[at..at + 8] == s[at..at + 4] + s[at + 4..at + 8];
  }

  method WriteBytes(output: array<byte>, at: nat, s: bytes)
    requires at + |s| <= output.Length
    modifies output
    ensures output[..at + |s|] == old(output[..at]) + s
    ensures output[at + |s|..] == old(output[at + |s|..])
  {
    for i := 0 to |s|
      invariant output[..at + i] == old(output[..at]) + s[..i]
      invariant output[at + i..] == old(output[at + i..])
    {
      output[at + i] := s[i];
    }
  }
}
