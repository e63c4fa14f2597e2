/** What the forwarding rules promise: for one hop, along any route, and in any network. */
module RelayPaths {
  import opened Wrappers
  import opened MeshPacket
  import opened RelayRules
  import opened SeenPackets
  import WireFormat

  // ---------------------------------------------------------------- one hop

  /** A flooded packet is valid again exactly when the node's key covers the hash width. */
  lemma FloodStaysValidIff(n: Node, p: Packet, codesAllowed: bool, duplicate: bool)
    requires FloodDecision(n, p, codesAllowed, duplicate).Success?
    ensures var q := FloodDecision(n, p, codesAllowed, duplicate).value;
      ValidatePacket(q).None? <==> |n.localHash| >= p.Size()
  {
    assert PathBytes(p.Count() + 1, p.Size()) == PathBytes(p.Count(), p.Size()) + p.Size();
  }

  /** A key shorter than the hash width makes the node send a frame that no other node accepts. */
  lemma ShortKeyBreaksFlood() returns (n: Node, p: Packet)
    ensures var d := FloodDecision(n, p, true, false);
      ValidatePacket(p).None? && d.Success? && ValidatePacket(d.value) == Some(PathLengthMismatch)
  {
    n := Node([7], Off, 64, true, false);
    p := Packet(1, [0, 0, 0, 0], 64, [], [1], false);
    assert p.Size() == 2 && p.Count() == 0;
    assert FloodRefusal(n, p, true).None? && FloodLimit(n, p).None?;
  }

  /** One flood hop: the path gains exactly this node's hash, everything else stays. */
  lemma FloodHop(n: Node, p: Packet, codesAllowed: bool, duplicate: bool)
    requires FloodDecision(n, p, codesAllowed, duplicate).Success? && |n.localHash| >= p.Size()
    ensures Extends(p, FloodDecision(n, p, codesAllowed, duplicate).value, [Prefix(n.localHash, p.Size())])
  {
    FloodStaysValidIff(n, p, codesAllowed, duplicate);
    ChunksAppend(p.path, Prefix(n.localHash, p.Size()), p.Size(), p.Count());
  }

  /** q is p with these hashes taken off the front of its path, and valid. */
  predicate Consumes(p: Packet, q: Packet, hashes: seq<Bytes>) {
    && q == p.(path := q.path, pathLen := q.pathLen) && q.Size() == p.Size()
    && Chunks(p.path, p.Size()) == hashes + Chunks(q.path, q.Size())
    && q.Count() == p.Count() - |hashes| && ValidatePacket(q).None?
  }

  lemma ConsumesTwice(p: Packet, q: Packet, r: Packet, a: seq<Bytes>, b: seq<Bytes>)
    requires Consumes(p, q, a) && Consumes(q, r, b)
    ensures Consumes(p, r, a + b)
  {
  }

  /** One direct hop: the path loses exactly its first hash, which was this node's. */
  lemma DirectHop(n: Node, p: Packet, duplicate: bool)
    requires DirectDecision(n, p, duplicate).Success?
    ensures Consumes(p, DirectDecision(n, p, duplicate).value, [Prefix(n.localHash, p.Size())])
    ensures |n.localHash| >= p.Size()
  {
    HopHasCount(n, p);
    StrippedIsValid(p);
    StrippedIsConsumed(p, Stripped(p), Prefix(n.localHash, p.Size()));
  }

  /** A valid packet that loses its first hash is valid. */
  lemma StrippedIsValid(p: Packet)
    requires ValidatePacket(p).None? && p.Count() > 0 && |p.path| >= p.Size()
    ensures var q := Stripped(p); ValidatePacket(q).None? && q.Size() == p.Size() && q.Count() == p.Count() - 1
  {
    assert PathBytes(p.Count(), p.Size()) == PathBytes(p.Count() - 1, p.Size()) + p.Size();
  }

  lemma StrippedIsConsumed(p: Packet, q: Packet, own: Bytes)
    requires ValidatePacket(q).None? && q.Size() == p.Size() && q.Count() == p.Count() - 1 && |p.path| >= p.Size()
    requires q == p.(path := p.path[p.Size()..], pathLen := q.pathLen) && own == p.path[..p.Size()]
    ensures Consumes(p, q, [own])
  {
    ChunksHead(p.path, p.Size());
  }

  /** Relaying never changes the identity of a packet that is not a TRACE, on the air or in the cache. */
  lemma RelayKeepsIdentity(n: Node, p: Packet, codesAllowed: bool, duplicate: bool)
    requires |p.codes| == 4 && p.Type() != TYPE_TRACE && |n.localHash| >= p.Size()
    ensures FloodDecision(n, p, codesAllowed, duplicate).Success? ==>
      var q := FloodDecision(n, p, codesAllowed, duplicate).value;
      WireFormat.Identity(q.Wire()) == WireFormat.Identity(p.Wire()) == PacketKey(p) == PacketKey(q)
    ensures DirectDecision(n, p, duplicate).Success? ==>
      var q := DirectDecision(n, p, duplicate).value;
      WireFormat.Identity(q.Wire()) == WireFormat.Identity(p.Wire()) == PacketKey(p) == PacketKey(q)
  {
    if FloodDecision(n, p, codesAllowed, duplicate).Success? {
      FloodStaysValidIff(n, p, codesAllowed, duplicate);
      OtherPathSameIdentity(p, FloodDecision(n, p, codesAllowed, duplicate).value);
    }
    if DirectDecision(n, p, duplicate).Success? {
      DirectHop(n, p, duplicate);
      OtherPathSameIdentity(p, DirectDecision(n, p, duplicate).value);
    }
  }

  lemma OtherPathSameIdentity(p: Packet, q: Packet)
    requires ValidatePacket(p).None? && ValidatePacket(q).None? && q == p.(path := q.path, pathLen := q.pathLen)
    requires |p.codes| == 4 && p.Type() != TYPE_TRACE
    ensures WireFormat.Identity(q.Wire()) == WireFormat.Identity(p.Wire()) == PacketKey(p) == PacketKey(q)
  {
    WireFormat.IdentityOfWire(p);
    WireFormat.IdentityOfWire(q);
  }

  // ---------------------------------------------------------------- no endless relaying

  /** Hops left: counted up by floods, counted down by direct routes. */
  function Rank(p: Packet): (r: int)
    ensures 0 <= r <= 63
  {
    if p.IsDirect() then p.Count() else 63 - p.Count()
  }

  predicate Lower(s: Sent, rank: int) {
    Rank(s.packet) < rank && |s.extras| <= 1 && forall x <- s.extras :: Rank(x.0) < rank
  }

  lemma FloodRankDrops(n: Node, p: Packet)
    requires !p.IsDirect() && p.Count() < 63
    ensures Lower(Sent(Flooded(n, p), []), Rank(p))
  {
  }

  lemma StripRankDrops(p: Packet)
    requires p.IsDirect() && p.Count() > 0 && |p.path| >= p.Size()
    ensures Lower(Sent(Stripped(p), []), Rank(p))
  {
  }

  lemma AckRankDrops(n: Node, p: Packet, payload: Bytes, delay: real, txDelayMs: real)
    requires p.IsDirect() && p.Count() > 0 && |p.path| >= p.Size()
    ensures var f := WithExtras(n, Regenerated(p.(payload := payload)), delay, txDelayMs);
      Lower(Sent(f.packet, f.extras), Rank(p))
  {
    var ack := Regenerated(p.(payload := payload));
    assert Rank(ack) == p.Count() - 1;
  }

  /** Whatever a node sends on, copies included, has strictly fewer hops left. */
  lemma SentRankDrops(n: Node, p: Packet, repeats: bool, policyDrops: bool, codesAllowed: bool, duplicate: bool,
      txDelayMs: real)
    requires ProcessDecision(n, p, repeats, policyDrops, codesAllowed, duplicate, txDelayMs).Success?
    ensures var s := ProcessDecision(n, p, repeats, policyDrops, codesAllowed, duplicate, txDelayMs).value;
      Rank(s.packet) < Rank(p) && |s.extras| <= 1 && forall x <- s.extras :: Rank(x.0) < Rank(p)
  {
    match Dispatch(p, repeats, policyDrops)
    case Success(ByFlood) => FloodRankDrops(n, p);
    case Success(ByDirect) =>
      HopHasCount(n, p);
      StripRankDrops(p);
    case Success(ByMultipart) =>
      HopHasCount(n, p);
      AckRankDrops(n, p, p.payload[1..], (p.payload[0] / 16 + 1) as real * SPACING_MS, txDelayMs);
    case Success(ByRoutedAck) =>
      HopHasCount(n, p);
      AckRankDrops(n, p, p.payload, 0.0, txDelayMs);
  }

  /** q is a packet some node puts on the air after receiving p. */
  ghost predicate RelayedAs(p: Packet, q: Packet) {
    exists n: Node, codesAllowed: bool, delay: real :: SentBy(n, p, codesAllowed, delay, q)
  }

  predicate SentBy(n: Node, p: Packet, codesAllowed: bool, delay: real, q: Packet) {
    var d := ProcessDecision(n, p, true, false, codesAllowed, false, delay);
    d.Success? && (q == d.value.packet || exists x <- d.value.extras :: q == x.0)
  }

  /** In any network, whatever its nodes and topology, a packet causes relay chains of at most 63 hops. */
  lemma {:induction false} RelayChainIsBounded(chain: seq<Packet>)
    requires chain != [] && forall i :: 0 < i < |chain| ==> RelayedAs(chain[i - 1], chain[i])
    ensures |chain| - 1 <= Rank(chain[0]) <= 63
  {
    if |chain| > 1 {
      assert RelayedAs(chain[0], chain[1]);
      var n: Node, codesAllowed: bool, delay: real :| SentBy(n, chain[0], codesAllowed, delay, chain[1]);
      SentRankDrops(n, chain[0], true, false, codesAllowed, false, delay);
      forall i | 0 < i < |chain[1..]| ensures RelayedAs(chain[1..][i - 1], chain[1..][i]) {
        assert RelayedAs(chain[i], chain[i + 1]);
      }
      RelayChainIsBounded(chain[1..]);
    }
  }

  // ---------------------------------------------------------------- routes

  /** The hashes by which a list of nodes appears in paths of this width. */
  function Names(nodes: seq<Node>, size: int): seq<Bytes>
    requires size >= 0
  {
    if nodes == [] then [] else [Prefix(nodes[0].localHash, size)] + Names(nodes[1..], size)
  }

  /** A packet relayed by flood through the nodes in turn, none of which has seen it. */
  function FloodThrough(nodes: seq<Node>, p: Packet): Option<Packet> {
    if nodes == [] then Some(p)
    else
      match FloodDecision(nodes[0], p, true, false)
      case Failure(_) => None
      case Success(q) => FloodThrough(nodes[1..], q)
  }

  /** A packet relayed by its path through the nodes in turn, none of which has seen it. */
  function DirectThrough(nodes: seq<Node>, p: Packet): Option<Packet> {
    if nodes == [] then Some(p)
    else
      match DirectDecision(nodes[0], p, false)
      case Failure(_) => None
      case Success(q) => DirectThrough(nodes[1..], q)
  }

  predicate KeysCover(nodes: seq<Node>, size: int) {
    forall n <- nodes :: |n.localHash| >= size
  }

  /** q is p with these hashes appended to its path, and valid. */
  predicate Extends(p: Packet, q: Packet, hashes: seq<Bytes>) {
    && q == p.(path := q.path, pathLen := q.pathLen) && q.Size() == p.Size()
    && Chunks(q.path, q.Size()) == Chunks(p.path, p.Size()) + hashes
    && q.Count() == p.Count() + |hashes| && ValidatePacket(q).None?
  }

  lemma ExtendsTwice(p: Packet, q: Packet, r: Packet, a: seq<Bytes>, b: seq<Bytes>)
    requires Extends(p, q, a) && Extends(q, r, b)
    ensures Extends(p, r, a + b)
  {
  }

  /** A flood carries exactly the hashes of its relays, in order, with their count, and stays within bounds. */
  lemma {:induction false} FloodRecordsRoute(nodes: seq<Node>, p: Packet)
    requires FloodThrough(nodes, p).Some? && ValidatePacket(p).None? && KeysCover(nodes, p.Size())
    ensures Extends(p, FloodThrough(nodes, p).value, Names(nodes, p.Size()))
  {
    if nodes != [] {
      var q := FloodDecision(nodes[0], p, true, false).value;
      FloodHop(nodes[0], p, true, false);
      FloodRecordsRoute(nodes[1..], q);
      ExtendsTwice(p, q, FloodThrough(nodes, p).value, [Prefix(nodes[0].localHash, p.Size())],
                   Names(nodes[1..], p.Size()));
    } else {
      assert Chunks(p.path, p.Size()) + [] == Chunks(p.path, p.Size());
    }
  }

  /** A direct packet gets through a list of nodes if and only if they are, in order, the first hops its path
      names; it then carries exactly the remaining hops. */
  lemma {:induction false} DirectFollowsRouteIff(nodes: seq<Node>, p: Packet)
    requires ValidatePacket(p).None? && !p.doNotRetransmit && KeysCover(nodes, p.Size())
    ensures DirectThrough(nodes, p).Some? <==> Names(nodes, p.Size()) <= Chunks(p.path, p.Size())
    ensures DirectThrough(nodes, p).Some? ==> Consumes(p, DirectThrough(nodes, p).value, Names(nodes, p.Size()))
  {
    if nodes == [] {
      assert Chunks(p.path, p.Size()) == [] + Chunks(p.path, p.Size());
    } else {
      var own, names := Prefix(nodes[0].localHash, p.Size()), Names(nodes[1..], p.Size());
      FirstHop(nodes[0], p);
      if DirectDecision(nodes[0], p, false).Success? {
        var q := DirectDecision(nodes[0], p, false).value;
        DirectHop(nodes[0], p, false);
        DirectFollowsRouteIff(nodes[1..], q);
        PrefixOfCons(own, names, Chunks(p.path, p.Size()), Chunks(q.path, q.Size()));
        if DirectThrough(nodes[1..], q).Some? {
          ConsumesTwice(p, q, DirectThrough(nodes[1..], q).value, [own], names);
        }
      } else {
        DifferentHead(own, names, Chunks(p.path, p.Size()));
      }
    }
  }

  lemma PrefixOfCons(own: Bytes, names: seq<Bytes>, hops: seq<Bytes>, rest: seq<Bytes>)
    requires hops == [own] + rest
    ensures [own] + names <= hops <==> names <= rest
  {
    if [own] + names <= hops {
      assert names == ([own] + names)[1..] && rest == hops[1..];
    }
  }

  lemma DifferentHead(own: Bytes, names: seq<Bytes>, hops: seq<Bytes>)
    requires hops == [] || hops[0] != own
    ensures !([own] + names <= hops)
  {
    assert ([own] + names)[0] == own;
  }

  /** A node accepts a direct packet exactly when the path's first hop is its own hash. */
  lemma FirstHop(n: Node, p: Packet)
    requires ValidatePacket(p).None? && !p.doNotRetransmit && |n.localHash| >= p.Size()
    ensures DirectDecision(n, p, false).Success? <==>
      p.path != [] && Chunks(p.path, p.Size())[0] == Prefix(n.localHash, p.Size())
  {
    if p.path != [] {
      assert p.Count() >= 1;
      assert PathBytes(p.Count(), p.Size()) >= p.Size();
      if |p.path| == p.Size() {
        assert p.path[..p.Size()] == p.path;
      }
    }
  }

  /** The round trip: a path recorded by a flood leads a direct packet through exactly the nodes that
      recorded it and ends empty, and through no other list of as many nodes. */
  lemma FloodedRouteLeadsBack(nodes: seq<Node>, p: Packet, d: Packet, others: seq<Node>)
    requires ValidatePacket(p).None? && p.path == [] && KeysCover(nodes, p.Size()) && KeysCover(others, p.Size())
    requires FloodThrough(nodes, p).Some?
    requires d.payload != [] && !d.doNotRetransmit
    requires d.path == FloodThrough(nodes, p).value.path && d.pathLen == FloodThrough(nodes, p).value.pathLen
    ensures DirectThrough(nodes, d).Some?
    ensures DirectThrough(nodes, d).value.path == [] && DirectThrough(nodes, d).value.Count() == 0
    ensures |others| == |nodes| ==>
      (DirectThrough(others, d).Some? <==> Names(others, d.Size()) == Names(nodes, d.Size()))
  {
    FloodRecordsRoute(nodes, p);
    NamesLength(nodes, p.Size());
    FloodedRoute(Names(nodes, p.Size()), p, FloodThrough(nodes, p).value, d);
    NamedRouteLeadsThrough(nodes, d);
    NamedRouteLeadsThrough(others, d);
  }

  /** A packet that is given the path that q has, where q is p with names appended to an empty path. */
  lemma FloodedRoute(names: seq<Bytes>, p: Packet, q: Packet, d: Packet)
    requires ValidatePacket(p).None? && p.path == [] && Extends(p, q, names)
    requires d.payload != [] && d.path == q.path && d.pathLen == q.pathLen
    ensures ValidatePacket(d).None? && d.Size() == p.Size() && d.Count() == |names|
    ensures Chunks(d.path, d.Size()) == names
  {
    EmptyPathCount(p);
    assert [] + names == names;
  }

  lemma EmptyPathCount(p: Packet)
    requires ValidatePacket(p).None? && p.path == []
    ensures p.Count() == 0 && Chunks(p.path, p.Size()) == []
  {
  }

  /** For a packet whose path is the names of some list of nodes. */
  lemma NamedRouteLeadsThrough(nodes: seq<Node>, d: Packet)
    requires ValidatePacket(d).None? && !d.doNotRetransmit && KeysCover(nodes, d.Size())
    ensures |nodes| == d.Count() ==>
      (DirectThrough(nodes, d).Some? <==> Names(nodes, d.Size()) == Chunks(d.path, d.Size()))
    ensures |nodes| == d.Count() && DirectThrough(nodes, d).Some? ==>
      DirectThrough(nodes, d).value.path == [] && DirectThrough(nodes, d).value.Count() == 0
  {
    DirectFollowsRouteIff(nodes, d);
    NamesLength(nodes, d.Size());
    ChunksAreWhole(d.path, d.Size(), d.Count());
  }

  lemma {:induction false} NamesLength(nodes: seq<Node>, size: int)
    requires size >= 0
    ensures |Names(nodes, size)| == |nodes|
  {
    if nodes != [] {
      NamesLength(nodes[1..], size);
    }
  }

  // ---------------------------------------------------------------- loops

  /** After a flood hop the node's own hash occurs at most as often as its mode allows. */
  lemma OwnHashWithinThreshold(n: Node, p: Packet, codesAllowed: bool, duplicate: bool)
    requires FloodDecision(n, p, codesAllowed, duplicate).Success? && |n.localHash| >= p.Size() && n.loopMode != Off
    ensures var q := FloodDecision(n, p, codesAllowed, duplicate).value;
      var own := Occurrences(q.path, q.Size(), Prefix(n.localHash, q.Size()));
      own == Occurrences(p.path, p.Size(), Prefix(n.localHash, p.Size())) + 1 && own <= Threshold(n.loopMode, q.Size())
  {
    var q, own := FloodDecision(n, p, codesAllowed, duplicate).value, Prefix(n.localHash, p.Size());
    FloodHop(n, p, codesAllowed, duplicate);
    assert p.path[0..] == p.path && q.path[0..] == q.path;
    OccurrencesAmongChunks(p.path, 0, p.Size(), own);
    OccurrencesAmongChunks(q.path, 0, q.Size(), own);
  }

  predicate AllDistinct(hashes: seq<Bytes>) {
    forall i, j :: 0 <= i < j < |hashes| ==> hashes[i] != hashes[j]
  }

  /** When every relay is strict, no hash ever repeats in the path. */
  lemma {:induction false} StrictFloodsNeverRepeat(nodes: seq<Node>, p: Packet)
    requires FloodThrough(nodes, p).Some? && ValidatePacket(p).None? && KeysCover(nodes, p.Size())
    requires forall n <- nodes :: n.loopMode == Strict
    requires AllDistinct(Chunks(p.path, p.Size()))
    ensures var q := FloodThrough(nodes, p).value; AllDistinct(Chunks(q.path, q.Size()))
  {
    if nodes != [] {
      var q := FloodDecision(nodes[0], p, true, false).value;
      FloodHop(nodes[0], p, true, false);
      var hops, own := Chunks(p.path, p.Size()), Prefix(nodes[0].localHash, p.Size());
      assert !IsFloodLooped(nodes[0], p);
      assert p.path[0..] == p.path;
      OccurrencesAmongChunks(p.path, 0, p.Size(), own);
      assert own !in multiset(hops);
      StrictFloodsNeverRepeat(nodes[1..], q);
    }
  }

  // ---------------------------------------------------------------- acknowledgements

  /** The redundancy wrapper carries the plain acknowledgement to the next hop unchanged: any next hop
      regenerates from the wrapper exactly the packet it regenerates from the plain copy. */
  lemma WrapperRegeneratesPlainAck(a: Node, p: Packet, b: Node, delayA: real, delayB: real)
    requires a.multiAcks && RoutedAckDecision(a, p, false, delayA).Success?
    ensures var sent := RoutedAckDecision(a, p, false, delayA).value;
      |sent.extras| == 1 && SameRelay(RoutedAckDecision(b, sent.packet, false, delayB),
                                      MultipartDecision(b, sent.extras[0].0, false, delayB))
  {
    HopHasCount(a, p);
    WrappedIsUnwrapped(b, Regenerated(p), delayB);
  }

  /** Both refused for the same reason, or the same packet, the wrapped one two spacings later. */
  predicate SameRelay(plain: Result<AckForward, Drop>, wrapped: Result<AckForward, Drop>) {
    match (plain, wrapped)
    case (Success(x), Success(y)) => x.packet == y.packet && y.delayMs == x.delayMs + 2.0 * SPACING_MS
    case (Failure(x), Failure(y)) => x == y
    case _ => false
  }

  lemma WrappedIsUnwrapped(b: Node, ack: Packet, delay: real)
    requires ack.header == DIRECT_ACK_HEADER && ack.codes == [0, 0, 0, 0] && !ack.doNotRetransmit && |ack.payload| >= 4
    ensures var wrapped := Packet(MULTIPART_HEADER, [0, 0, 0, 0], ack.pathLen, ack.path,
                                  [WRAPPED_ACK_BYTE] + ack.payload, false);
      SameRelay(RoutedAckDecision(b, ack, false, delay), MultipartDecision(b, wrapped, false, delay))
  {
    var wrapped := Packet(MULTIPART_HEADER, [0, 0, 0, 0], ack.pathLen, ack.path,
                          [WRAPPED_ACK_BYTE] + ack.payload, false);
    assert wrapped.payload[1..] == ack.payload && wrapped.payload[0] % 16 == TYPE_ACK && wrapped.payload[0] / 16 == 1;
    assert HopRefusal(b, wrapped) == HopRefusal(b, ack);
  }

  /** The two copies have different seen keys, so relaying one never suppresses the other. */
  lemma CopiesDoNotSuppressEachOther(
      plain: Packet, wrapped: Packet, h: seq<Event>, at: real, now: real, ttl: real, max: int)
    requires plain.Type() == TYPE_ACK && wrapped.Type() == TYPE_MULTIPART && wrapped.payload != []
    ensures PacketKey(plain) != MultipartKey(wrapped)
    ensures WithinWindow(h + [Look(at), Mark(MultipartKey(wrapped), at)], PacketKey(plain), now, ttl, max)
      ==> WithinWindow(h, PacketKey(plain), now, ttl, max)
    ensures WithinWindow(h + [Look(at), Mark(PacketKey(plain), at)], MultipartKey(wrapped), now, ttl, max)
      ==> WithinWindow(h, MultipartKey(wrapped), now, ttl, max)
  {
    var k1, k2 := PacketKey(plain), MultipartKey(wrapped);
    assert k1[0] == TYPE_ACK && k2[0] == TYPE_MULTIPART;
    MarkOfOther(h, k2, at, k1, now, ttl, max);
    MarkOfOther(h, k1, at, k2, now, ttl, max);
  }

  lemma MarkOfOther(h: seq<Event>, marked: Key, at: real, k: Key, now: real, ttl: real, max: int)
    requires marked != k
    ensures WithinWindow(h + [Look(at), Mark(marked, at)], k, now, ttl, max) ==> WithinWindow(h, k, now, ttl, max)
  {
    assert h + [Look(at), Mark(marked, at)] == (h + [Look(at)]) + [Mark(marked, at)];
    HistoryGrows(h, Look(at), k);
    HistoryGrows(h + [Look(at)], Mark(marked, at), k);
    SubsetCount(OthersSince(h, k), OthersSince(h, k) + {marked});
  }
}
