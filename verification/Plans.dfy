/** Compiled paths, planned datagrams, frame plans and errors: the values the pipeline stages hand on. */
module Plans {
  import opened Bytes
  import opened FrameCodec
  import opened Envelope

  /** A socket address; only its identity matters here. */
  type Addr = nat

  /** Sequences count up and wrap to 1: zero is never used. */
  function NextSequence(s: u64): u64 { if s == U64_MAX then 1 else s + 1 }

  datatype PathState = Active | Busy | Drain | Disabled

  datatype Path = Path(id: u16, mtu: nat, remote: Option<Addr>, enabled: bool, state: PathState)
  {
    /** What the path constructor checks. */
    predicate Valid() { mtu > V1_HEADER_LEN + FRAGMENT_METADATA_LEN }

    predicate Enabled() { enabled && !state.Disabled? }

    predicate AcceptsWholePacket() { Enabled() && state.Active? }

    function MaxDataPayload(): nat
      requires Valid()
    {
      mtu - V1_HEADER_LEN
    }

    function MaxFragmentPayload(): nat
      requires Valid()
    {
      mtu - V1_HEADER_LEN - FRAGMENT_METADATA_LEN
    }
  }

  datatype DataplaneError =
    | Protocol(protocol: ProtocolError)
    | Crypto(crypto: CryptoError)
    | NoPathAvailable
    | InvalidFragmentPlan
    | TooManyFragments(count: nat)
    | FrameExceedsPathMtu(pathId: u16, frameLen: nat, mtu: nat)
    | MissingPathTransport(pathId: u16)
    | MissingPathRemote(pathId: u16)
    | UnknownServiceId(serviceId: u16)
    | ServiceDisabled(serviceId: u16)

  datatype Received = Received(payload: bytes, source: Addr, peerScope: Option<u32>)

  datatype Planned = Planned(
    payload: bytes,
    source: Addr,
    peerScope: Option<u32>,
    sequence: u64,
    serviceId: u16,
    path: Path,
    fragment: Option<u32>,
    expectedFanout: bool)
  {
    function ToMeta(): Meta { Meta.Meta(source, peerScope, sequence, expectedFanout, |payload|) }
  }

  datatype Meta = Meta(source: Addr, peerScope: Option<u32>, sequence: u64, expectedFanout: bool, payloadLen: nat)

  datatype FramePlan = FramePlan(frame: Frame, path: Path, datagrams: seq<Meta>, fragmentCount: nat)
}
