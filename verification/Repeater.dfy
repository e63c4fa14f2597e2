/**
 The repeater engine as an object: it holds a duplicate cache and changes the packet it is given in place.
 Every method is proved against the decision function of the same name in `RelayRules`, and says exactly
 which calls it makes on the cache, in which order.
 */
module Repeater {
  import opened NativeTypes
  import opened Wrappers
  import opened MeshPacket
  import opened RelayRules
  import opened RelaySends
  import opened SeenPackets

  /** A packet being forwarded; `dropReason` may already hold a reason set by a handler. */
  class PacketObject {
    var header: u8
    var codes: Bytes
    var pathLen: u8
    var path: Bytes
    var payload: Bytes
    const doNotRetransmit: bool
    var dropReason: Option<Drop>

    constructor (p: Packet, reason: Option<Drop>)
      ensures View() == p && dropReason == reason
    {
      header, codes, pathLen, path, payload := p.header, p.codes, p.pathLen, p.path, p.payload;
      doNotRetransmit, dropReason := p.doNotRetransmit, reason;
    }

    function View(): Packet
      reads this
    {
      Packet(header, codes, pathLen, path, payload, doNotRetransmit)
    }

    /** Record why the packet is not forwarded; a reason set earlier wins for a marked packet. */
    method Refuse(reason: Drop)
      modifies `dropReason
      ensures dropReason == Refused(old(dropReason), reason)
      ensures dropReason == Some(reason) || (reason == MarkedDoNotRetransmit && old(dropReason).Some?)
      ensures reason == MarkedDoNotRetransmit && old(dropReason).Some? ==> dropReason == old(dropReason)
    {
      if reason != MarkedDoNotRetransmit || dropReason == None {
        dropReason := Some(reason);
      }
    }
  }

  function Refused(before: Option<Drop>, reason: Drop): Option<Drop> {
    if reason == MarkedDoNotRetransmit && before.Some? then before else Some(reason)
  }

  /** The cache calls of a forwarder: none when it refuses first, a lookup, and a mark when it forwards. */
  function CacheCalls(refused: bool, forwards: bool, key: Bytes, now: real): seq<Event> {
    if refused then [] else if forwards then [Look(now), Mark(key, now)] else [Look(now)]
  }

  class RepeaterHandler {
    const node: Node
    const seen: SeenCache

    constructor (node: Node, seen: SeenCache)
      ensures this.node == node && this.seen == seen
    {
      this.node, this.seen := node, seen;
    }

    ghost predicate Ready(now: real)
      reads seen
    {
      seen.Valid() && ClockUpTo(seen.history, now)
    }

    ghost predicate Seen(key: Bytes, now: real)
      reads seen
    {
      WithinWindow(seen.history, key, now, seen.cacheTtl, seen.maxCacheSize)
    }

    /** `_is_flood_looped`: count the own hash over the offsets of the path. */
    method CheckFloodLoop(p: Packet) returns (looped: bool)
      ensures looped <==> IsFloodLooped(node, p)
    {
      if node.loopMode == Off || p.Size() > 3 || |node.localHash| < p.Size() {
        return false;
      }
      var size := p.Size();
      var count := CountHops(p.path, size, Prefix(node.localHash, size));
      looped := count >= Threshold(node.loopMode, size);
    }

    static method CountHops(path: Bytes, size: int, own: Bytes) returns (count: nat)
      requires size > 0
      ensures count == Occurrences(path, size, own)
    {
      var offset := 0;
      count := 0;
      while offset < |path|
        invariant 0 <= offset
        invariant count + OccurrencesFrom(path, offset, size, own) == Occurrences(path, size, own)
        decreases |path| - offset
      {
        if HopAt(path, offset, size) == own {
          count := count + 1;
        }
        offset := offset + size;
      }
    }

    /** `flood_forward` */
    method FloodForward(packet: PacketObject, codesAllowed: bool, now: real) returns (forwarded: bool)
      requires Ready(now)
      modifies packet, seen
      ensures Ready(now)
      ensures var p, key := old(packet.View()), PacketKey(old(packet.View()));
        var d := FloodDecision(node, p, codesAllowed, old(Seen(key, now)));
        && forwarded == d.Success?
        && packet.View() == (if d.Success? then d.value else p)
        && packet.dropReason == (if d.Success? then old(packet.dropReason)
                                 else Refused(old(packet.dropReason), d.error))
        && seen.history == old(seen.history)
          + CacheCalls(FloodRefusal(node, p, codesAllowed).Some?, d.Success?, key, now)
    {
      var p := packet.View();
      var key := PacketKey(p);
      forwarded := false;
      var refusal := FloodRefusalOf(p, codesAllowed);
      if refusal.Some? {
        packet.Refuse(refusal.value);
        return;
      }
      var duplicate := seen.IsDuplicate(key, now);
      if duplicate {
        packet.Refuse(Duplicate);
        return;
      }
      var limit := FloodLimitOf(p);
      if limit.Some? {
        packet.Refuse(limit.value);
        return;
      }
      seen.MarkSeen(key, now);
      packet.path := packet.path + Prefix(node.localHash, p.Size());
      packet.pathLen := EncodePathLen(p.Size(), p.Count() + 1);
      forwarded := true;
    }

    method FloodLimitOf(p: Packet) returns (r: Option<Drop>)
      ensures r == FloodLimit(node, p)
    {
      if node.maxFloodHops > 0 && p.Count() >= node.maxFloodHops {
        return Some(MaxFloodHops);
      }
      if p.Count() >= 63 {
        return Some(HopCountAtMaximum);
      }
      return if PathBytes(p.Count() + 1, p.Size()) > MAX_PATH_SIZE then Some(PathWouldExceed) else None;
    }

    method FloodRefusalOf(p: Packet, codesAllowed: bool) returns (r: Option<Drop>)
      ensures r == FloodRefusal(node, p, codesAllowed)
    {
      var invalid := ValidatePacket(p);
      if invalid.Some? {
        return invalid;
      }
      if p.doNotRetransmit {
        return Some(MarkedDoNotRetransmit);
      }
      if p.Route() == ROUTE_TRANSPORT_FLOOD {
        if !codesAllowed {
          return Some(TransportCodesDenied);
        }
      } else if !node.floodAllowed {
        return Some(UnscopedFloodDisabled);
      }
      var looped := CheckFloodLoop(p);
      return if looped then Some(FloodLoop) else None;
    }

    /** A forwarder with nothing left to check between lookup and mark: refuse, or look up and claim the key. */
    method Admit(packet: PacketObject, refusal: Option<Drop>, key: Bytes, now: real) returns (admitted: bool)
      requires Ready(now)
      modifies packet`dropReason, seen
      ensures Ready(now) && admitted == (refusal.None? && !old(Seen(key, now)))
      ensures packet.dropReason == if admitted then old(packet.dropReason)
                                   else Refused(old(packet.dropReason),
                                                if refusal.Some? then refusal.value else Duplicate)
      ensures seen.history == old(seen.history) + CacheCalls(refusal.Some?, admitted, key, now)
    {
      if refusal.Some? {
        packet.Refuse(refusal.value);
        return false;
      }
      var duplicate := seen.IsDuplicate(key, now);
      if duplicate {
        packet.Refuse(Duplicate);
        return false;
      }
      seen.MarkSeen(key, now);
      admitted := true;
    }

    /** `direct_forward` */
    method DirectForward(packet: PacketObject, now: real) returns (forwarded: bool)
      requires Ready(now)
      modifies packet, seen
      ensures Ready(now)
      ensures var p, key := old(packet.View()), PacketKey(old(packet.View()));
        var d := DirectDecision(node, p, old(Seen(key, now)));
        && forwarded == d.Success?
        && packet.View() == (if d.Success? then d.value else p)
        && packet.dropReason == (if d.Success? then old(packet.dropReason)
                                 else Refused(old(packet.dropReason), d.error))
        && seen.history == old(seen.history) + CacheCalls(HopRefusal(node, p).Some?, d.Success?, key, now)
    {
      var p := packet.View();
      forwarded := Admit(packet, HopRefusal(node, p), PacketKey(p), now);
      if forwarded {
        HopHasCount(node, p);
        packet.path := packet.path[p.Size()..];
        packet.pathLen := EncodePathLen(p.Size(), p.Count() - 1);
      }
    }

    /** `_regenerate_direct_ack` */
    method RegenerateDirectAck(packet: PacketObject)
      requires packet.View().Count() > 0 && |packet.path| >= packet.View().Size()
      modifies packet
      ensures packet.View() == Regenerated(old(packet.View())) && packet.dropReason == old(packet.dropReason)
    {
      var size, count := packet.View().Size(), packet.View().Count();
      packet.header := DIRECT_ACK_HEADER;
      packet.codes := [0, 0, 0, 0];
      packet.path := packet.path[size..];
      packet.pathLen := EncodePathLen(size, count - 1);
    }

    /** `forward_multipart_direct` */
    method ForwardMultipart(packet: PacketObject, now: real, txDelayMs: real) returns (r: Option<AckForward>)
      requires Ready(now)
      modifies packet, seen
      ensures Ready(now)
      ensures var p := old(packet.View()); var key := if p.payload == [] then [] else MultipartKey(p);
        var d := MultipartDecision(node, p, old(Seen(key, now)), txDelayMs);
        && r == (if d.Success? then Some(d.value) else None)
        && packet.View() == (if d.Success? then d.value.packet else p)
        && packet.dropReason == (if d.Success? then old(packet.dropReason)
                                 else Refused(old(packet.dropReason), d.error))
        && seen.history == old(seen.history) + CacheCalls(MultipartRefusal(node, p).Some?, d.Success?, key, now)
    {
      var p := packet.View();
      var admitted := Admit(packet, MultipartRefusal(node, p), if p.payload == [] then [] else MultipartKey(p), now);
      if !admitted {
        return None;
      }
      HopHasCount(node, p);
      packet.payload := p.payload[1..];
      assert packet.View() == p.(payload := p.payload[1..]);
      RegenerateDirectAck(packet);
      r := Some(WithExtras(node, packet.View(), (p.payload[0] / 16 + 1) as real * SPACING_MS, txDelayMs));
    }

    /** `forward_routed_ack` */
    method ForwardRoutedAck(packet: PacketObject, now: real, txDelayMs: real) returns (r: Option<AckForward>)
      requires Ready(now)
      modifies packet, seen
      ensures Ready(now)
      ensures var p, key := old(packet.View()), PacketKey(old(packet.View()));
        var d := RoutedAckDecision(node, p, old(Seen(key, now)), txDelayMs);
        && r == (if d.Success? then Some(d.value) else None)
        && packet.View() == (if d.Success? then d.value.packet else p)
        && packet.dropReason == (if d.Success? then old(packet.dropReason)
                                 else Refused(old(packet.dropReason), d.error))
        && seen.history == old(seen.history) + CacheCalls(RoutedAckRefusal(node, p).Some?, d.Success?, key, now)
    {
      var p := packet.View();
      var admitted := Admit(packet, RoutedAckRefusal(node, p), PacketKey(p), now);
      if !admitted {
        return None;
      }
      HopHasCount(node, p);
      RegenerateDirectAck(packet);
      r := Some(WithExtras(node, packet.View(), 0.0, txDelayMs));
    }

    /** `process_packet`; the random part of the transmit delay is a parameter. */
    method ProcessPacket(packet: PacketObject, repeats: bool, policyDrops: bool, codesAllowed: bool, now: real,
        txDelayMs: real)
      returns (sent: Option<Sent>)
      requires Ready(now)
      modifies packet, seen
      ensures Ready(now)
      ensures var d := ProcessDecision(node, old(packet.View()), repeats, policyDrops, codesAllowed,
                                       old(Seen(ProcessKey(packet.View()), now)), txDelayMs);
        sent == if d.Success? then Some(d.value) else None
      ensures sent.Some? <==> MaySend(node, old(packet.View()), repeats, policyDrops, codesAllowed,
                                      old(Seen(ProcessKey(packet.View()), now)))
      ensures packet.View() == if sent.Some? then sent.value.packet else old(packet.View())
      ensures seen.history == old(seen.history)
        + CacheCalls(RefusedUnseen(node, old(packet.View()), repeats, policyDrops, codesAllowed),
                                                             sent.Some?, ProcessKey(old(packet.View())), now)
    {
      sent := None;
      SentIff(node, packet.View(), repeats, policyDrops, codesAllowed, Seen(ProcessKey(packet.View()), now), txDelayMs);
      match Dispatch(packet.View(), repeats, policyDrops) {
        case Failure(reason) => packet.Refuse(reason);
        case Success(f) => sent := Forward(f, packet, codesAllowed, now, txDelayMs);
      }
    }

    /** Hand the packet to its forwarder. */
    method Forward(f: Forwarder, packet: PacketObject, codesAllowed: bool, now: real, txDelayMs: real)
      returns (sent: Option<Sent>)
      requires Ready(now)
      requires f == ByMultipart <==> packet.View().Type() == TYPE_MULTIPART
      modifies packet, seen
      ensures Ready(now)
      ensures var d := ForwardDecision(f, node, old(packet.View()), codesAllowed,
                                       old(Seen(ProcessKey(packet.View()), now)), txDelayMs);
        sent == if d.Success? then Some(d.value) else None
      ensures packet.View() == if sent.Some? then sent.value.packet else old(packet.View())
      ensures seen.history == old(seen.history)
        + CacheCalls(ForwarderRefusal(f, node, old(packet.View()), codesAllowed).Some?,
                                                             sent.Some?, ProcessKey(old(packet.View())), now)
    {
      match f {
        case ByMultipart =>
          var r := ForwardMultipart(packet, now, txDelayMs);
          sent := SentAck(r);
        case ByRoutedAck =>
          var r := ForwardRoutedAck(packet, now, txDelayMs);
          sent := SentAck(r);
        case ByFlood =>
          var forwarded := FloodForward(packet, codesAllowed, now);
          sent := if forwarded then Some(Sent(packet.View(), [])) else None;
        case ByDirect =>
          var forwarded := DirectForward(packet, now);
          sent := if forwarded then Some(Sent(packet.View(), [])) else None;
      }
    }
  }

  function SentAck(r: Option<AckForward>): Option<Sent> {
    if r.Some? then Some(Sent(r.value.packet, r.value.extras)) else None
  }
}
