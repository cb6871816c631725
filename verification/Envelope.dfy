/** The authenticated transport envelope: packet layout, counter allocation, decryption with replay protection. */
module Envelope {
  import opened Bytes
  import opened Replay

  const PACKET_TYPE_ENCRYPTED_DATA_V1: byte := 0x01
  const ENCRYPTED_DATA_HEADER_LEN: nat := 13
  const AEAD_TAG_LEN: nat := 16
  /** The ASCII bytes of "GATHERLINK_DATA_V1". */
  const AEAD_DOMAIN: bytes := [71, 65, 84, 72, 69, 82, 76, 73, 78, 75, 95, 68, 65, 84, 65, 95, 86, 49]

  datatype CryptoError = InvalidInput | SilentDrop

  /** ChaCha20-Poly1305 as a pair of functions: seal (key, nonce, associated data, plaintext) and open. */
  datatype Aead = Aead(
    seal: (bytes, bytes, bytes, bytes) -> (bytes, bytes),
    open: (bytes, bytes, bytes, bytes, bytes) -> Option<bytes>)

  /** The idealisation: length-preserving, 16-byte tags, and `open` is the exact inverse of `seal`. */
  ghost predicate Ideal(a: Aead) {
    && (forall k, n, d, p :: |a.seal(k, n, d, p).0| == |p| && |a.seal(k, n, d, p).1| == AEAD_TAG_LEN)
    && (forall k, n, d, p, c, t :: a.open(k, n, d, c, t) == Some(p) <==> a.seal(k, n, d, p) == (c, t))
  }

  function NonceFromCounter(counter: u64): (nonce: bytes)
    ensures |nonce| == 12
  {
    [0, 0, 0, 0] + Be64(counter)
  }

  /** Four zero bytes, then the counter: one key meets the same nonce again exactly when a counter comes back. */
  lemma NoncePerCounter(counter: u64, other: u64)
    ensures NonceFromCounter(counter)[..4] == [0, 0, 0, 0] && Read64(NonceFromCounter(counter), 4) == counter
    ensures NonceFromCounter(counter) == NonceFromCounter(other) <==> counter == other
  {
    hide Be64, Read64;
    ReadBe64(NonceFromCounter(counter), 4, counter);
    ReadBe64(NonceFromCounter(other), 4, other);
  }

  function ClearHeader(index: u32, counter: u64): (header: bytes)
    ensures |header| == ENCRYPTED_DATA_HEADER_LEN
  {
    [PACKET_TYPE_ENCRYPTED_DATA_V1] + Be32(index) + Be64(counter)
  }

  function EncryptPacket(a: Aead, key: bytes, index: u32, counter: u64, plaintext: bytes): (packet: bytes) {
    var header := ClearHeader(index, counter);
    var (ciphertext, tag) := a.seal(key, NonceFromCounter(counter), AEAD_DOMAIN + header, plaintext);
    header + ciphertext + tag
  }

  /** The packet as documented: type byte 1, the receiver index, the counter, the ciphertext, a tag of 16 bytes; the
      cipher is given the session key, the counter's nonce, and the header behind the domain as associated data. */
  lemma PacketAsDocumented(a: Aead, key: bytes, index: u32, counter: u64, plaintext: bytes)
    requires Ideal(a)
    ensures var p := EncryptPacket(a, key, index, counter, plaintext);
      && |p| == |plaintext| + 29 && p[0] == 1 && BigEndian(p[1..5]) == index && BigEndian(p[5..13]) == counter
      && (p[13..|p| - 16], p[|p| - 16..]) ==
         a.seal(key, [0, 0, 0, 0] + p[5..13],
                [71, 65, 84, 72, 69, 82, 76, 73, 78, 75, 95, 68, 65, 84, 65, 95, 86, 49] + p[..13], plaintext)
  {
    hide BigEndian, Be32, Be64;
    var p, h := EncryptPacket(a, key, index, counter, plaintext), ClearHeader(index, counter);
    var (ciphertext, tag) := a.seal(key, NonceFromCounter(counter), AEAD_DOMAIN + h, plaintext);
    assert p[..13] == h && p[13..|p| - 16] == ciphertext && p[|p| - 16..] == tag;
    assert p[1..5] == h[1..5] == Be32(index) && p[5..13] == h[5..13] == Be64(counter);
    BigEndian32(index);
    BigEndian64(counter);
  }

  datatype Opened = Opened(index: u32, counter: u64, plaintext: bytes)

  /** Authenticates and decrypts. Every failure is the same silent drop, here `None`. */
  function OpenPacket(a: Aead, key: bytes, packet: bytes): (r: Option<Opened>) {
    if |packet| < ENCRYPTED_DATA_HEADER_LEN + AEAD_TAG_LEN then None
    else if packet[0] != PACKET_TYPE_ENCRYPTED_DATA_V1 then None
    else
      var index, counter := Read32(packet, 1), Read64(packet, 5);
      var end := |packet| - AEAD_TAG_LEN;
      match a.open(key, NonceFromCounter(counter), AEAD_DOMAIN + packet[..ENCRYPTED_DATA_HEADER_LEN],
                   packet[ENCRYPTED_DATA_HEADER_LEN..end], packet[end..])
      case None => None
      case Some(plaintext) => Some(Opened(index, counter, plaintext))
  }

  lemma OpenOfEncrypt(a: Aead, key: bytes, index: u32, counter: u64, plaintext: bytes)
    requires Ideal(a)
    ensures OpenPacket(a, key, EncryptPacket(a, key, index, counter, plaintext)) ==
        Some(Opened(index, counter, plaintext))
  {
    var header := ClearHeader(index, counter);
    var (c, t) := a.seal(key, NonceFromCounter(counter), AEAD_DOMAIN + header, plaintext);
    var packet := EncryptPacket(a, key, index, counter, plaintext);
    var end := |packet| - AEAD_TAG_LEN;
    assert packet[..13] == header && packet[13..end] == c && packet[end..] == t;
    assert packet[1..5] == header[1..5] == Be32(index);
    assert packet[5..13] == header[5..13] == Be64(counter);
    ReadBe32(packet, 1, index);
    ReadBe64(packet, 5, counter);
    assert a.open(key, NonceFromCounter(counter), AEAD_DOMAIN + header, c, t) == Some(plaintext);
  }

  /** Only the packet produced by encrypting its contents opens: nothing else authenticates. */
  lemma EncryptOfOpen(a: Aead, key: bytes, packet: bytes)
    requires Ideal(a) && OpenPacket(a, key, packet).Some?
    ensures var o := OpenPacket(a, key, packet).value;
      packet == EncryptPacket(a, key, o.index, o.counter, o.plaintext)
  {
    var o := OpenPacket(a, key, packet).value;
    var end := |packet| - AEAD_TAG_LEN;
    BeRead32(packet, 1);
    BeRead64(packet, 5);
    assert packet[..13] == [packet[0]] + packet[1..5] + packet[5..13] == ClearHeader(o.index, o.counter);
    assert a.seal(key, NonceFromCounter(o.counter), AEAD_DOMAIN + packet[..13], o.plaintext) ==
      (packet[13..end], packet[end..]);
    assert packet == packet[..13] + packet[13..end] + packet[end..];
  }

  // ----- outbound counters ----------------------------------------------------

  /** The sending half of one session. */
  datatype Sender = Sender(remoteIndex: u32, key: bytes, nextCounter: u64)

  /** A contiguous range of counters handed to workers; the code keeps only where it starts. */
  datatype Reserved = Reserved(remoteIndex: u32, key: bytes, first: u64)

  function EncryptNext(a: Aead, s: Sender, plaintext: bytes): (r: Result<(Sender, bytes), CryptoError>) {
    if s.nextCounter == U64_MAX then Err(InvalidInput)
    else Ok((s.(nextCounter := s.nextCounter + 1), EncryptPacket(a, s.key, s.remoteIndex, s.nextCounter, plaintext)))
  }

  function ReserveCounters(s: Sender, count: nat): (r: Result<(Sender, Reserved), CryptoError>) {
    if s.nextCounter + count > U64_MAX then Err(InvalidInput)
    else Ok((s.(nextCounter := s.nextCounter + count), Reserved(s.remoteIndex, s.key, s.nextCounter)))
  }

  function EncryptReserved(a: Aead, r: Reserved, offset: nat, plaintext: bytes): (p: Result<bytes, CryptoError>) {
    if r.first + offset > U64_MAX then Err(InvalidInput)
    else Ok(EncryptPacket(a, r.key, r.remoteIndex, r.first + offset, plaintext))
  }

  /** Encrypting plaintexts one after another, each with the next counter. */
  function EncryptEach(a: Aead, s: Sender, plaintexts: seq<bytes>): (r: Result<(Sender, seq<bytes>), CryptoError>)
    decreases |plaintexts|
  {
    if plaintexts == [] then Ok((s, []))
    else match EncryptNext(a, s, plaintexts[0])
         case Err(e) => Err(e)
         case Ok((s', packet)) =>
           match EncryptEach(a, s', plaintexts[1..])
           case Err(e) => Err(e)
           case Ok((s'', packets)) => Ok((s'', [packet] + packets))
  }

  lemma {:induction false} EachUsesConsecutiveCounters(a: Aead, s: Sender, plaintexts: seq<bytes>)
    ensures EncryptEach(a, s, plaintexts).Ok? <==> s.nextCounter + |plaintexts| <= U64_MAX
    ensures EncryptEach(a, s, plaintexts).Ok? ==>
              var (s', packets) := EncryptEach(a, s, plaintexts).value;
              && s' == s.(nextCounter := s.nextCounter + |plaintexts|) && |packets| == |plaintexts|
              && forall i :: 0 <= i < |plaintexts| ==>
                   packets[i] == EncryptPacket(a, s.key, s.remoteIndex, s.nextCounter + i, plaintexts[i])
    decreases |plaintexts|
  {
    hide EncryptPacket;
    if plaintexts != [] && s.nextCounter != U64_MAX {
      EachUsesConsecutiveCounters(a, EncryptNext(a, s, plaintexts[0]).value.0, plaintexts[1..]);
    }
  }

  /** Reserving a range then encrypting by offset, in any order, is one-at-a-time encryption. */
  lemma ReservationMatchesEach(a: Aead, s: Sender, plaintexts: seq<bytes>)
    ensures ReserveCounters(s, |plaintexts|).Ok? <==> EncryptEach(a, s, plaintexts).Ok?
    ensures ReserveCounters(s, |plaintexts|).Ok? ==>
              var (s', range) := ReserveCounters(s, |plaintexts|).value;
              var (s'', packets) := EncryptEach(a, s, plaintexts).value;
              && s' == s'' && |packets| == |plaintexts|
              && forall i :: 0 <= i < |plaintexts| ==> EncryptReserved(a, range, i, plaintexts[i]) == Ok(packets[i])
  {
    hide EncryptPacket, EncryptEach;
    EachUsesConsecutiveCounters(a, s, plaintexts);
  }

  /** Decrypts inside the caller's buffer: header and tag stay, the plaintext replaces the ciphertext between them. */
  method OpenInPlace(a: Aead, key: bytes, packet: array<byte>) returns (r: Option<(Opened, nat, nat)>)
    requires Ideal(a)
    modifies packet
    ensures r.None? ==> OpenPacket(a, key, old(packet[..])) == None && packet[..] == old(packet[..])
    ensures r.Some? ==>
      var (got, start, end) := r.value;
      && OpenPacket(a, key, old(packet[..])) == Some(got)
      && start <= end <= packet.Length && packet[start..end] == got.plaintext
      && packet[..start] == old(packet[..start]) && packet[end..] == old(packet[end..])
  {
    ghost var was := packet[..];
    if packet.Length < ENCRYPTED_DATA_HEADER_LEN + AEAD_TAG_LEN || packet[0] != PACKET_TYPE_ENCRYPTED_DATA_V1 {
      return None;
    }
    var header := packet[..ENCRYPTED_DATA_HEADER_LEN];
    var index, counter := Read32(header, 1), Read64(header, 5);
    var end := packet.Length - AEAD_TAG_LEN;
    var plaintext := a.open(key, NonceFromCounter(counter), AEAD_DOMAIN + header,
                               packet[ENCRYPTED_DATA_HEADER_LEN..end], packet[end..]);
    if plaintext.None? {
      return None;
    }
    assert a.seal(key, NonceFromCounter(counter), AEAD_DOMAIN + header, plaintext.value)
        == (packet[ENCRYPTED_DATA_HEADER_LEN..end], packet[end..]);
    WriteBytes(packet, ENCRYPTED_DATA_HEADER_LEN, plaintext.value);
    r := Some((Opened(index, counter, plaintext.value), ENCRYPTED_DATA_HEADER_LEN, end));
  }

  // ----- the mutable session object -------------------------------------------

  class TransportKeys {
    const aead: Aead
    const localIndex: u32
    const receiveKey: bytes
    var sender: Sender
    const window: ReplayWindow

    ghost predicate Valid()
      reads this, window, window.seen
    {
      window.Valid()
    }

    constructor (aead: Aead, localIndex: u32, remoteIndex: u32, sendKey: bytes, receiveKey: bytes)
      ensures Valid() && fresh(window) && fresh(window.seen)
      ensures sender == Sender(remoteIndex, sendKey, 0) && window.offered == []
      ensures this.localIndex == localIndex && this.receiveKey == receiveKey
      ensures window.windowBits == DEFAULT_REPLAY_WINDOW_BITS
    {
      this.aead, this.localIndex, this.receiveKey := aead, localIndex, receiveKey;
      sender := Sender(remoteIndex, sendKey, 0);
      window := new ReplayWindow(DEFAULT_REPLAY_WINDOW_BITS);
    }

    method EncryptFrame(plaintext: bytes) returns (r: Result<bytes, CryptoError>)
      modifies this`sender
      ensures match EncryptNext(aead, old(sender), plaintext)
              case Err(e) => r == Err(e) && sender == old(sender)
              case Ok((s, packet)) => r == Ok(packet) && sender == s
    {
      var counter := sender.nextCounter;
      if counter == U64_MAX {
        return Err(InvalidInput);
      }
      sender := sender.(nextCounter := counter + 1);
      r := Ok(EncryptPacket(aead, sender.key, sender.remoteIndex, counter, plaintext));
    }

    method ReserveSendCounters(count: nat) returns (r: Result<Reserved, CryptoError>)
      modifies this`sender
      ensures match ReserveCounters(old(sender), count)
              case Err(e) => r == Err(e) && sender == old(sender)
              case Ok((s, range)) => r == Ok(range) && sender == s
    {
      var first := sender.nextCounter;
      if first + count > U64_MAX {
        return Err(InvalidInput);
      }
      sender := sender.(nextCounter := first + count);
      r := Ok(Reserved(sender.remoteIndex, sender.key, first));
    }

    /** Accepts a packet iff it authenticates, names this session and carries a fresh counter. */
    method DecryptPacket(packet: bytes) returns (r: Result<Opened, CryptoError>)
      requires Valid()
      modifies window, window.seen
      ensures Valid() && window.seen == old(window.seen)
      ensures var o := OpenPacket(aead, receiveKey, packet);
        if o.Some? && o.value.index == localIndex then
          && window.offered == old(window.offered) + [o.value.counter]
          && r ==
             if Fresh(old(window.accepted), window.windowBits, o.value.counter) then Ok(o.value) else Err(SilentDrop)
        else
          r == Err(SilentDrop) && window.offered == old(window.offered)
    {
      var got := OpenPacket(aead, receiveKey, packet);
      if got.None? || got.value.index != localIndex {
        return Err(SilentDrop);
      }
      var ok := window.Accept(got.value.counter);
      if !ok {
        return Err(SilentDrop);
      }
      r := Ok(got.value);
    }

    /** The in-place form leaves the plaintext between header and tag, and is otherwise the copying form. */
    method DecryptPacketInPlace(packet: array<byte>) returns (r: Result<(Opened, nat, nat), CryptoError>)
      requires Valid() && Ideal(aead)
      modifies window, window.seen, packet
      ensures Valid() && window.seen == old(window.seen)
      ensures var o := OpenPacket(aead, receiveKey, old(packet[..]));
        if o.Some? && o.value.index == localIndex then
          && window.offered == old(window.offered) + [o.value.counter]
          && (r.Ok? <==> Fresh(old(window.accepted), window.windowBits, o.value.counter))
        else
          r == Err(SilentDrop) && window.offered == old(window.offered)
      ensures r.Ok? ==>
        var (got, start, end) := r.value;
        && Some(got) == OpenPacket(aead, receiveKey, old(packet[..]))
        && start <= end <= packet.Length && packet[start..end] == got.plaintext
        && packet[..start] == old(packet[..start]) && packet[end..] == old(packet[end..])
    {
      var got := OpenInPlace(aead, receiveKey, packet);
      if got.None? {
        return Err(SilentDrop);
      }
      var (o, start, end) := got.value;
      if o.index != localIndex {
        return Err(SilentDrop);
      }
      var ok := window.Accept(o.counter);
      if !ok {
        return Err(SilentDrop);
      }
      r := Ok((o, start, end));
    }
  }
}
