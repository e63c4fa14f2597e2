/**
 The forwarding decisions of the repeater engine (engine.py) as functions of the node's settings, the
 packet and the answer of the duplicate cache. The methods that carry them out are in `Repeater`.
 */
module RelayRules {
  import opened NativeTypes
  import opened Wrappers
  import opened MeshPacket

  datatype LoopMode = Off | Minimal | Moderate | Strict

  datatype Node = Node(localHash: Bytes, loopMode: LoopMode, maxFloodHops: int, floodAllowed: bool, multiAcks: bool)

  datatype Drop =
    | EmptyPayload | PathTooLong | ReservedHashSize | PathLengthMismatch | MarkedDoNotRetransmit
    | TransportCodesDenied | UnscopedFloodDisabled | FloodLoop | Duplicate | MaxFloodHops | HopCountAtMaximum
    | PathWouldExceed | DirectNoPath | DirectNotForUs | NotDirectRouted | UnsupportedEmbeddedType | InvalidAckPayload
    | RepeatDisabled | PolicyDrop | NotFloodRoutable

  /** `validate_packet` */
  function ValidatePacket(p: Packet): Option<Drop> {
    if p.payload == [] then Some(EmptyPayload)
    else if |p.path| > MAX_PATH_SIZE then Some(PathTooLong)
    else if p.Size() !in {1, 2, 3} then Some(ReservedHashSize)
    else if PathBytes(p.Count(), p.Size()) != |p.path| then Some(PathLengthMismatch)
    else None
  }

  /** The seen key of a packet: what its digest covers. */
  function PacketKey(p: Packet): Bytes {
    [p.Type()] + (if p.Type() == TYPE_TRACE then [p.pathLen, 0] else []) + p.payload
  }

  // ---------------------------------------------------------------- flood

  /** `LOOP_DETECT_MAX_COUNTERS` by hash width. */
  function Threshold(mode: LoopMode, size: int): (r: int)
    requires mode != Off && 1 <= size <= 3
    ensures r >= 1
  {
    match mode
    case Minimal => if size == 1 then 4 else if size == 2 then 2 else 1
    case Moderate => if size == 1 then 2 else 1
    case Strict => 1
  }

  /** The hop at an offset; the last one may be cut off by the end of the path. */
  function HopAt(path: Bytes, offset: nat, size: int): Bytes
    requires offset < |path| && size > 0
  {
    path[offset..if offset + size < |path| then offset + size else |path|]
  }

  /** How often a hash occurs among the hops at offset, offset + size, ... */
  function OccurrencesFrom(path: Bytes, offset: nat, size: int, hash: Bytes): nat
    requires size > 0
    decreases |path| - offset
  {
    if offset >= |path| then 0
    else (if HopAt(path, offset, size) == hash then 1 else 0) + OccurrencesFrom(path, offset + size, size, hash)
  }

  function Occurrences(path: Bytes, size: int, hash: Bytes): nat
    requires size > 0
  {
    OccurrencesFrom(path, 0, size, hash)
  }

  lemma ChunksFrom(path: Bytes, offset: nat, size: int)
    requires size > 0 && offset < |path|
    ensures var next := if offset + size < |path| then offset + size else |path|;
      Chunks(path[offset..], size) == [HopAt(path, offset, size)] + Chunks(path[next..], size)
  {
    var rest := path[offset..];
    if |rest| > size {
      assert rest[size..] == path[offset + size..];
      assert HopAt(path, offset, size) == rest[..size];
    } else {
      assert HopAt(path, offset, size) == rest;
      assert path[|path|..] == [];
    }
  }

  lemma {:induction false} OccurrencesAmongChunks(path: Bytes, offset: nat, size: int, hash: Bytes)
    requires size > 0 && offset <= |path|
    ensures OccurrencesFrom(path, offset, size, hash) == multiset(Chunks(path[offset..], size))[hash]
    decreases |path| - offset
  {
    if offset < |path| {
      var next := if offset + size < |path| then offset + size else |path|;
      OccurrencesAmongChunks(path, next, size, hash);
      ChunksFrom(path, offset, size);
      CountCons(HopAt(path, offset, size), Chunks(path[next..], size), hash);
    }
  }

  lemma CountCons(h: Bytes, rest: seq<Bytes>, hash: Bytes)
    ensures multiset([h] + rest)[hash] == (if h == hash then 1 else 0) + multiset(rest)[hash]
  {
  }

  /** `_is_flood_looped` */
  predicate IsFloodLooped(n: Node, p: Packet) {
    && n.loopMode != Off && p.Size() <= 3 && |n.localHash| >= p.Size()
    && Occurrences(p.path, p.Size(), Prefix(n.localHash, p.Size())) >= Threshold(n.loopMode, p.Size())
  }

  /** The checks of `flood_forward` before the duplicate cache is asked. */
  function FloodRefusal(n: Node, p: Packet, codesAllowed: bool): Option<Drop> {
    if ValidatePacket(p).Some? then ValidatePacket(p)
    else if p.doNotRetransmit then Some(MarkedDoNotRetransmit)
    else if p.Route() == ROUTE_TRANSPORT_FLOOD && !codesAllowed then Some(TransportCodesDenied)
    else if p.Route() != ROUTE_TRANSPORT_FLOOD && !n.floodAllowed then Some(UnscopedFloodDisabled)
    else if IsFloodLooped(n, p) then Some(FloodLoop)
    else None
  }

  /** The checks after it. */
  function FloodLimit(n: Node, p: Packet): Option<Drop> {
    if n.maxFloodHops > 0 && p.Count() >= n.maxFloodHops then Some(MaxFloodHops)
    else if p.Count() >= 63 then Some(HopCountAtMaximum)
    else if PathBytes(p.Count() + 1, p.Size()) > MAX_PATH_SIZE then Some(PathWouldExceed)
    else None
  }

  function Flooded(n: Node, p: Packet): Packet
    requires p.Count() < 63
  {
    p.(path := p.path + Prefix(n.localHash, p.Size()), pathLen := EncodePathLen(p.Size(), p.Count() + 1))
  }

  /** `flood_forward` */
  function FloodDecision(n: Node, p: Packet, codesAllowed: bool, duplicate: bool): Result<Packet, Drop> {
    if FloodRefusal(n, p, codesAllowed).Some? then Failure(FloodRefusal(n, p, codesAllowed).value)
    else if duplicate then Failure(Duplicate)
    else if FloodLimit(n, p).Some? then Failure(FloodLimit(n, p).value)
    else Success(Flooded(n, p))
  }

  // ---------------------------------------------------------------- direct

  /** The hop checks shared by `direct_forward` and `_validate_ack_hop`. */
  function HopRefusal(n: Node, p: Packet): Option<Drop> {
    if ValidatePacket(p).Some? then ValidatePacket(p)
    else if p.doNotRetransmit then Some(MarkedDoNotRetransmit)
    else if |p.path| < p.Size() then Some(DirectNoPath)
    else if p.path[..p.Size()] != Prefix(n.localHash, p.Size()) then Some(DirectNotForUs)
    else None
  }

  lemma HopHasCount(n: Node, p: Packet)
    requires HopRefusal(n, p).None?
    ensures p.Count() > 0 && |p.path| >= p.Size() && |n.localHash| >= p.Size()
  {
  }

  /** Strip the first hop. */
  function Stripped(p: Packet): Packet
    requires p.Count() > 0 && |p.path| >= p.Size()
  {
    p.(path := p.path[p.Size()..], pathLen := EncodePathLen(p.Size(), p.Count() - 1))
  }

  /** `direct_forward` */
  function DirectDecision(n: Node, p: Packet, duplicate: bool): Result<Packet, Drop> {
    if HopRefusal(n, p).Some? then Failure(HopRefusal(n, p).value)
    else if duplicate then Failure(Duplicate)
    else
      HopHasCount(n, p);
      Success(Stripped(p))
  }

  // ---------------------------------------------------------------- acknowledgements

  const DIRECT_ACK_HEADER: u8 := TYPE_ACK * 4 + ROUTE_DIRECT
  const MULTIPART_HEADER: u8 := TYPE_MULTIPART * 4 + ROUTE_DIRECT
  const WRAPPED_ACK_BYTE: u8 := 16 + TYPE_ACK
  const SPACING_MS: real := 300.0

  datatype AckForward = AckForward(packet: Packet, delayMs: real, extras: seq<(Packet, real)>)

  /** `_regenerate_direct_ack` */
  function Regenerated(p: Packet): Packet
    requires p.Count() > 0 && |p.path| >= p.Size()
  {
    Stripped(p).(header := DIRECT_ACK_HEADER, codes := [0, 0, 0, 0])
  }

  /** `_multi_ack_extras`: at most one wrapped copy, sent at the deadline of the plain one. */
  function WithExtras(n: Node, ack: Packet, delayMs: real, txDelayMs: real): AckForward {
    if n.multiAcks then
      var later := delayMs + txDelayMs + SPACING_MS;
      var wrapped := Packet(MULTIPART_HEADER, [0, 0, 0, 0], ack.pathLen, ack.path,
                            [WRAPPED_ACK_BYTE] + ack.payload, false);
      AckForward(ack, later, [(wrapped, later)])
    else AckForward(ack, delayMs, [])
  }

  /** The seen key of a multipart acknowledgement: its own type, without the wrapper byte. */
  function MultipartKey(p: Packet): Bytes
    requires p.payload != []
  {
    PacketKey(p.(payload := p.payload[1..]))
  }

  function MultipartRefusal(n: Node, p: Packet): Option<Drop> {
    if !p.IsDirect() then Some(NotDirectRouted)
    else if |p.payload| < 5 || p.payload[0] % 16 != TYPE_ACK then Some(UnsupportedEmbeddedType)
    else HopRefusal(n, p)
  }

  /** `forward_multipart_direct` */
  function MultipartDecision(n: Node, p: Packet, duplicate: bool, txDelayMs: real): Result<AckForward, Drop> {
    if MultipartRefusal(n, p).Some? then Failure(MultipartRefusal(n, p).value)
    else if duplicate then Failure(Duplicate)
    else
      HopHasCount(n, p);
      var ack := Regenerated(p.(payload := p.payload[1..]));
      Success(WithExtras(n, ack, (p.payload[0] / 16 + 1) as real * SPACING_MS, txDelayMs))
  }

  function RoutedAckRefusal(n: Node, p: Packet): Option<Drop> {
    if !p.IsDirect() then Some(NotDirectRouted)
    else if |p.payload| < 4 then Some(InvalidAckPayload)
    else HopRefusal(n, p)
  }

  /** `forward_routed_ack` */
  function RoutedAckDecision(n: Node, p: Packet, duplicate: bool, txDelayMs: real): Result<AckForward, Drop> {
    if RoutedAckRefusal(n, p).Some? then Failure(RoutedAckRefusal(n, p).value)
    else if duplicate then Failure(Duplicate)
    else
      HopHasCount(n, p);
      Success(WithExtras(n, Regenerated(p), 0.0, txDelayMs))
  }

  // ---------------------------------------------------------------- dispatch

  datatype Forwarder = ByFlood | ByDirect | ByMultipart | ByRoutedAck

  /** `process_packet`: which forwarder a packet goes to. */
  function Dispatch(p: Packet, repeats: bool, policyDrops: bool): Result<Forwarder, Drop> {
    if policyDrops then Failure(PolicyDrop)
    else if !repeats then Failure(RepeatDisabled)
    else if p.Type() == TYPE_MULTIPART then Success(ByMultipart)
    else if p.Type() == TYPE_ACK && p.IsDirect() then Success(ByRoutedAck)
    else if !p.IsDirect() then (if p.Type() < 9 then Success(ByFlood) else Failure(NotFloodRoutable))
    else Success(ByDirect)
  }

  /** What `process_packet` sends on: the packet and the redundancy copies with their delays. */
  datatype Sent = Sent(packet: Packet, extras: seq<(Packet, real)>)

  /** The seen key that decides about a packet. */
  function ProcessKey(p: Packet): Bytes {
    if p.Type() != TYPE_MULTIPART then PacketKey(p) else if p.payload == [] then [] else MultipartKey(p)
  }

  /** `process_packet`, for the answer the duplicate cache gives about `ProcessKey`. */
  function ProcessDecision(n: Node, p: Packet, repeats: bool, policyDrops: bool, codesAllowed: bool, duplicate: bool,
      txDelayMs: real)
    : Result<Sent, Drop>
  {
    match Dispatch(p, repeats, policyDrops)
    case Failure(e) => Failure(e)
    case Success(f) => ForwardDecision(f, n, p, codesAllowed, duplicate, txDelayMs)
  }

  function ForwardDecision(f: Forwarder, n: Node, p: Packet, codesAllowed: bool, duplicate: bool,
      txDelayMs: real): Result<Sent, Drop> {
    match f
    case ByFlood => Plain(FloodDecision(n, p, codesAllowed, duplicate))
    case ByDirect => Plain(DirectDecision(n, p, duplicate))
    case ByMultipart => Ack(MultipartDecision(n, p, duplicate, txDelayMs))
    case ByRoutedAck => Ack(RoutedAckDecision(n, p, duplicate, txDelayMs))
  }

  /** Does `process_packet` refuse the packet before it asks the duplicate cache? */
  predicate RefusedUnseen(n: Node, p: Packet, repeats: bool, policyDrops: bool, codesAllowed: bool) {
    match Dispatch(p, repeats, policyDrops)
    case Failure(e) => true
    case Success(f) => ForwarderRefusal(f, n, p, codesAllowed).Some?
  }

  /** The checks of each forwarder before it asks the cache. */
  function ForwarderRefusal(f: Forwarder, n: Node, p: Packet, codesAllowed: bool): Option<Drop> {
    match f
    case ByFlood => FloodRefusal(n, p, codesAllowed)
    case ByDirect => HopRefusal(n, p)
    case ByMultipart => MultipartRefusal(n, p)
    case ByRoutedAck => RoutedAckRefusal(n, p)
  }

  /** What the cache calls a duplicate is never sent, and neither is what was refused before. */
  lemma DuplicateIsNotSent(n: Node, p: Packet, repeats: bool, policyDrops: bool, codesAllowed: bool, txDelayMs: real)
    ensures ProcessDecision(n, p, repeats, policyDrops, codesAllowed, true, txDelayMs).Failure?
    ensures ProcessDecision(n, p, repeats, policyDrops, codesAllowed, false, txDelayMs).Success?
      ==> !RefusedUnseen(n, p, repeats, policyDrops, codesAllowed)
  {
  }

  function Plain(r: Result<Packet, Drop>): Result<Sent, Drop> {
    match r
    case Success(q) => Success(Sent(q, []))
    case Failure(e) => Failure(e)
  }

  function Ack(r: Result<AckForward, Drop>): Result<Sent, Drop> {
    match r
    case Success(f) => Success(Sent(f.packet, f.extras))
    case Failure(e) => Failure(e)
  }
}
