/**
 What `process_packet` sends, and when: on the header bits, the path and the settings alone.
 */
module RelaySends {
  import opened NativeTypes
  import opened Wrappers
  import opened MeshPacket
  import opened RelayRules

  /** A payload, a path of at most 64 bytes, and whole hops of one to three bytes, as many as the low six bits of the
      path-length byte say. */
  predicate SoundPath(p: Packet) {
    p.payload != [] && |p.path| <= 64 && p.pathLen < 192 && |p.path| == PathBytes(p.pathLen % 64, p.pathLen / 64 + 1)
  }

  /** Is the node's own hash among the hops less often than its loop mode tolerates? */
  predicate LoopFree(n: Node, p: Packet)
    requires p.pathLen < 192
  {
    var size := p.pathLen / 64 + 1;
    |n.localHash| < size ||
    var copies := multiset(Chunks(p.path, size))[n.localHash[..size]];
    match n.loopMode
    case Off => true
    case Minimal => copies < (if size == 1 then 4 else if size == 2 then 2 else 1)
    case Moderate => copies < (if size == 1 then 2 else 1)
    case Strict => copies == 0
  }

  /** Room for one more hop: within the configured limit, if any, and within 63 hops and 64 bytes. */
  predicate RoomToFlood(n: Node, p: Packet)
    requires p.pathLen < 192
  {
    && (n.maxFloodHops <= 0 || p.pathLen % 64 < n.maxFloodHops)
    && p.pathLen % 64 < 63
    && PathBytes(p.pathLen % 64 + 1, p.pathLen / 64 + 1) <= 64
  }

  /** Is the first hop of the path the node? */
  predicate NextHopIs(n: Node, p: Packet)
    requires p.pathLen < 192
  {
    var size := p.pathLen / 64 + 1;
    |p.path| >= size && |n.localHash| >= size && p.path[..size] == n.localHash[..size]
  }

  /** Which packets are sent, on the header bits, the path and the settings alone. Types: 3 acknowledgement,
      10 multipart; routes: 0 and 1 flood, 0 with transport codes, 2 and 3 direct. */
  predicate MaySend(n: Node, p: Packet, repeats: bool, policyDrops: bool, codesAllowed: bool, duplicate: bool) {
    var (route, kind) := (p.header % 4, p.header / 4 % 16);
    && repeats && !policyDrops && !duplicate && !p.doNotRetransmit && SoundPath(p)
    && if route >= 2 then
         && NextHopIs(n, p)
         && (kind == 3 ==> |p.payload| >= 4)
         && (kind == 10 ==> |p.payload| >= 5 && p.payload[0] % 16 == 3)
       else
         && kind <= 8
         && (if route == 0 then codesAllowed else n.floodAllowed)
         && LoopFree(n, p) && RoomToFlood(n, p)
  }

  lemma ValidIffSoundPath(p: Packet)
    ensures ValidatePacket(p).None? <==> SoundPath(p)
    ensures p.Size() == p.pathLen / 64 + 1 && p.Count() == p.pathLen % 64
  {
    ShiftAndMask(p.pathLen);
  }

  lemma LoopedIff(n: Node, p: Packet)
    requires p.pathLen < 192
    ensures IsFloodLooped(n, p) <==> !LoopFree(n, p)
  {
    ShiftAndMask(p.pathLen);
    if |n.localHash| >= p.Size() {
      assert p.path[0..] == p.path;
      OccurrencesAmongChunks(p.path, 0, p.Size(), n.localHash[..p.Size()]);
    }
  }

  lemma NextHopIff(n: Node, p: Packet)
    requires p.pathLen < 192
    ensures (|p.path| >= p.Size() && p.path[..p.Size()] == Prefix(n.localHash, p.Size())) <==> NextHopIs(n, p)
  {
    ShiftAndMask(p.pathLen);
  }

  lemma FloodIff(n: Node, p: Packet, codesAllowed: bool, duplicate: bool)
    requires p.header % 4 < 2
    ensures FloodDecision(n, p, codesAllowed, duplicate).Success? <==>
      !duplicate && !p.doNotRetransmit && SoundPath(p) && (if p.header % 4 == 0 then codesAllowed else n.floodAllowed)
      && LoopFree(n, p) && RoomToFlood(n, p)
  {
    ValidIffSoundPath(p);
    if SoundPath(p) {
      LoopedIff(n, p);
    }
  }

  lemma HopIff(n: Node, p: Packet)
    ensures HopRefusal(n, p).None? <==> !p.doNotRetransmit && SoundPath(p) && NextHopIs(n, p)
  {
    ValidIffSoundPath(p);
    if SoundPath(p) {
      NextHopIff(n, p);
    }
  }

  /** `process_packet` sends exactly those packets. */
  lemma SentIff(n: Node, p: Packet, repeats: bool, policyDrops: bool, codesAllowed: bool, duplicate: bool,
      txDelayMs: real)
    ensures ProcessDecision(n, p, repeats, policyDrops, codesAllowed, duplicate, txDelayMs).Success?
       <==> MaySend(n, p, repeats, policyDrops, codesAllowed, duplicate)
  {
    HopIff(n, p);
    if p.header % 4 < 2 {
      FloodIff(n, p, codesAllowed, duplicate);
    }
  }

  /** The reason for a drop is true of the packet and the settings. */
  predicate DropIsTrue(n: Node, p: Packet, repeats: bool, policyDrops: bool, codesAllowed: bool, duplicate: bool,
      reason: Drop)
  {
    var (route, kind, size, count) := (p.header % 4, p.header / 4 % 16, p.pathLen / 64 + 1, p.pathLen % 64);
    match reason
    case PolicyDrop => policyDrops
    case RepeatDisabled => !repeats
    case NotFloodRoutable => route < 2 && kind > 8
    case NotDirectRouted => route < 2
    case UnsupportedEmbeddedType => kind == 10 && (|p.payload| < 5 || p.payload[0] % 16 != 3)
    case InvalidAckPayload => kind == 3 && |p.payload| < 4
    case EmptyPayload => p.payload == []
    case PathTooLong => |p.path| > 64
    case ReservedHashSize => size == 4
    case PathLengthMismatch => |p.path| != PathBytes(count, size)
    case MarkedDoNotRetransmit => p.doNotRetransmit
    case TransportCodesDenied => route == 0 && !codesAllowed
    case UnscopedFloodDisabled => route == 1 && !n.floodAllowed
    case FloodLoop => size < 4 && !LoopFree(n, p)
    case Duplicate => duplicate
    case MaxFloodHops => 0 < n.maxFloodHops <= count
    case HopCountAtMaximum => count == 63
    case PathWouldExceed => PathBytes(count + 1, size) > 64
    case DirectNoPath => |p.path| < size
    case DirectNotForUs => size < 4 && !NextHopIs(n, p)
  }

  lemma FloodDropsAreTrue(n: Node, p: Packet, codesAllowed: bool, duplicate: bool)
    requires p.header % 4 < 2 && FloodDecision(n, p, codesAllowed, duplicate).Failure?
    ensures DropIsTrue(n, p, true, false, codesAllowed, duplicate, FloodDecision(n, p, codesAllowed, duplicate).error)
  {
    ShiftAndMask(p.pathLen);
    if p.pathLen < 192 {
      LoopedIff(n, p);
    }
  }

  lemma HopDropsAreTrue(n: Node, p: Packet, codesAllowed: bool, duplicate: bool)
    requires HopRefusal(n, p).Some?
    ensures DropIsTrue(n, p, true, false, codesAllowed, duplicate, HopRefusal(n, p).value)
  {
    ShiftAndMask(p.pathLen);
    if p.pathLen < 192 {
      NextHopIff(n, p);
    }
  }

  lemma DropsAreTrue(n: Node, p: Packet, repeats: bool, policyDrops: bool, codesAllowed: bool, duplicate: bool,
      txDelayMs: real)
    requires ProcessDecision(n, p, repeats, policyDrops, codesAllowed, duplicate, txDelayMs).Failure?
    ensures DropIsTrue(n, p, repeats, policyDrops, codesAllowed, duplicate,
                       ProcessDecision(n, p, repeats, policyDrops, codesAllowed, duplicate, txDelayMs).error)
  {
    if HopRefusal(n, p).Some? {
      HopDropsAreTrue(n, p, codesAllowed, duplicate);
    }
    if p.header % 4 < 2 && FloodDecision(n, p, codesAllowed, duplicate).Failure? {
      FloodDropsAreTrue(n, p, codesAllowed, duplicate);
    }
  }

  /** A flood leaves with the node's hash appended and the hop count, the low bits of its byte, raised by one. */
  lemma FloodSends(n: Node, p: Packet, codesAllowed: bool, txDelayMs: real)
    requires p.header % 4 < 2 && MaySend(n, p, true, false, codesAllowed, false)
    ensures p.pathLen % 64 < 63
    ensures var size := p.pathLen / 64 + 1;
      var own := if |n.localHash| < size then n.localHash else n.localHash[..size];
      ProcessDecision(n, p, true, false, codesAllowed, false, txDelayMs)
      == Success(Sent(p.(pathLen := p.pathLen + 1, path := p.path + own), []))
  {
    SentIff(n, p, true, false, codesAllowed, false, txDelayMs);
    ValidIffSoundPath(p);
  }

  /** A packet that is routed directly leaves without the node's hash, which came first, and the hop count lowered. */
  lemma DirectSends(n: Node, p: Packet, codesAllowed: bool, txDelayMs: real)
    requires p.header % 4 >= 2 && p.header / 4 % 16 !in {3, 10} && MaySend(n, p, true, false, codesAllowed, false)
    ensures p.pathLen % 64 > 0
    ensures ProcessDecision(n, p, true, false, codesAllowed, false, txDelayMs)
         == Success(Sent(p.(pathLen := p.pathLen - 1, path := p.path[p.pathLen / 64 + 1..]), []))
  {
    SentIff(n, p, true, false, codesAllowed, false, txDelayMs);
    ValidIffSoundPath(p);
  }

  /** The acknowledgement that is sent for one that was received, in a wrapper or plain, and its wrapped copy. */
  function PlainAck(p: Packet, payload: Bytes): Packet
    requires 0 < p.pathLen && p.pathLen / 64 < |p.path|
  {
    Packet(14, [0, 0, 0, 0], p.pathLen - 1, p.path[p.pathLen / 64 + 1..], payload, p.doNotRetransmit)
  }

  function WrappedAck(ack: Packet): Packet {
    Packet(42, [0, 0, 0, 0], ack.pathLen, ack.path, [19] + ack.payload, false)
  }

  /** The acknowledgement with its deadline; with redundancy it moves to 300 ms and a transmit delay later, and a
      wrapped copy shares that deadline. */
  predicate AckLeaves(n: Node, ack: Packet, due: real, txDelayMs: real, f: AckForward) {
    var later := due + txDelayMs + 300.0;
    f == if n.multiAcks then AckForward(ack, later, [(WrappedAck(ack), later)]) else AckForward(ack, due, [])
  }

  lemma RegeneratedIs(p: Packet, payload: Bytes)
    requires p.Count() > 0 && |p.path| >= p.Size() && SoundPath(p)
    ensures p.pathLen % 64 > 0 && Regenerated(p.(payload := payload)) == PlainAck(p, payload)
  {
    ValidIffSoundPath(p);
  }

  lemma ExtrasLeave(n: Node, ack: Packet, due: real, txDelayMs: real)
    requires !ack.doNotRetransmit
    ensures AckLeaves(n, ack, due, txDelayMs, WithExtras(n, ack, due, txDelayMs))
  {
  }

  /** A routed acknowledgement leaves as a plain one without transport codes, due at once. */
  lemma RoutedAckSends(n: Node, p: Packet, codesAllowed: bool, txDelayMs: real)
    requires p.header % 4 >= 2 && p.header / 4 % 16 == 3 && MaySend(n, p, true, false, codesAllowed, false)
    ensures p.pathLen % 64 > 0
    ensures var f := RoutedAckDecision(n, p, false, txDelayMs);
      && f.Success? && AckLeaves(n, PlainAck(p, p.payload), 0.0, txDelayMs, f.value)
      && ProcessDecision(n, p, true, false, codesAllowed, false, txDelayMs)
         == Success(Sent(f.value.packet, f.value.extras))
  {
    HopIff(n, p);
    HopHasCount(n, p);
    RegeneratedIs(p, p.payload);
    assert p.(payload := p.payload) == p;
    ExtrasLeave(n, PlainAck(p, p.payload), 0.0, txDelayMs);
  }

  /** When a wrapped acknowledgement is due: its high bits count spacings of 300 ms. */
  function DueMs(wrapper: u8): real {
    (wrapper / 16 + 1) as real * 300.0
  }

  lemma ToMultipart(n: Node, p: Packet, codesAllowed: bool, txDelayMs: real)
    requires p.Type() == 10
    ensures ProcessDecision(n, p, true, false, codesAllowed, false, txDelayMs)
         == Ack(MultipartDecision(n, p, false, txDelayMs))
  {
  }

  lemma MultipartForwards(n: Node, p: Packet, txDelayMs: real)
    requires p.IsDirect() && |p.payload| >= 5 && p.payload[0] % 16 == 3 && HopRefusal(n, p).None?
    requires p.Count() > 0 && |p.path| >= p.Size()
    ensures MultipartDecision(n, p, false, txDelayMs)
         == Success(WithExtras(n, Regenerated(p.(payload := p.payload[1..])), DueMs(p.payload[0]), txDelayMs))
  {
  }

  /** So does a wrapped one, without its first byte. */
  lemma MultipartSends(n: Node, p: Packet, codesAllowed: bool, txDelayMs: real)
    requires p.header % 4 >= 2 && p.header / 4 % 16 == 10 && MaySend(n, p, true, false, codesAllowed, false)
    ensures p.pathLen % 64 > 0
    ensures var f := MultipartDecision(n, p, false, txDelayMs);
      && f.Success? && AckLeaves(n, PlainAck(p, p.payload[1..]), DueMs(p.payload[0]), txDelayMs, f.value)
      && ProcessDecision(n, p, true, false, codesAllowed, false, txDelayMs)
         == Success(Sent(f.value.packet, f.value.extras))
  {
    HopIff(n, p);
    HopHasCount(n, p);
    MultipartForwards(n, p, txDelayMs);
    RegeneratedIs(p, p.payload[1..]);
    ExtrasLeave(n, PlainAck(p, p.payload[1..]), DueMs(p.payload[0]), txDelayMs);
    ToMultipart(n, p, codesAllowed, txDelayMs);
  }

  /** Two packets are the same to the duplicate cache exactly if type and payload agree, for a TRACE (9) also the
      path-length byte; multipart packets (10) go without the first byte of the payload. */
  lemma SameKeyIff(p: Packet, q: Packet)
    requires p.payload != [] && q.payload != []
    ensures var (kp, kq) := (p.header / 4 % 16, q.header / 4 % 16);
      ProcessKey(p) == ProcessKey(q) <==>
        && kp == kq && (kp == 9 ==> p.pathLen == q.pathLen)
        && (if kp == 10 then p.payload[1..] == q.payload[1..] else p.payload == q.payload)
  {
    KeyTail(p);
    KeyTail(q);
    assert ProcessKey(p)[0] == p.Type() && ProcessKey(q)[0] == q.Type();
    if p.Type() == 9 && q.Type() == 9 {
      assert ProcessKey(p)[1] == p.pathLen && ProcessKey(q)[1] == q.pathLen;
    }
  }

  lemma KeyTail(p: Packet)
    requires p.payload != []
    ensures |ProcessKey(p)| >= (if p.Type() == 9 then 3 else 1)
    ensures ProcessKey(p)[if p.Type() == 9 then 3 else 1..] == if p.Type() == 10 then p.payload[1..] else p.payload
  {
  }
}
