/**
 The three readers of a raw frame: the protocol validator (protocol_validator.py), the packet identity
 (meshcore_wire.py) and the path parser of the bridge (bridge_engine.py).

 A digest is modelled by the bytes it digests.
 */
module WireFormat {
  import opened NativeTypes
  import opened Wrappers
  import opened MeshPacket

  const MIN_PACKET_LEN := 2
  const MAX_PACKET_LEN := 255
  const MAX_PACKET_PAYLOAD := 184
  const TRANSPORT_CODE_PREFIX_LEN := 4

  datatype Reason =
    | TooShort | LengthImplausible | UnsupportedPayloadVersion | UnknownPayloadType
    | TransportCodeLengthMismatch | ReservedHashSize | PathBytesExceedMax | PayloadExceedsMax | PayloadTooShortForType

  /** `MIN_PAYLOAD_LENGTHS`; None for the types that are not defined. */
  function MinPayload(t: int): Option<nat> {
    if t in {0, 1, 2, 8} then Some(5)
    else if t in {3, 5, 6} then Some(4)
    else if t == 4 then Some(100)
    else if t == 7 then Some(36)
    else if t == 9 then Some(9)
    else if t in {10, 11} then Some(1)
    else if t == 15 then Some(0)
    else None
  }

  predicate HasCodes(header: u8) { header % 4 == ROUTE_TRANSPORT_FLOOD || header % 4 == ROUTE_TRANSPORT_DIRECT }

  function PathLenIndex(header: u8): (r: nat)
    ensures r == 1 || r == 5
  {
    if HasCodes(header) then 1 + TRANSPORT_CODE_PREFIX_LEN else 1
  }

  /** `validate`: the first failing check, or the number of payload bytes. */
  function Validate(data: Bytes): Result<nat, Reason> {
    if |data| < MIN_PACKET_LEN then Failure(TooShort)
    else if |data| > MAX_PACKET_LEN then Failure(LengthImplausible)
    else if data[0] / 64 != 0 then Failure(UnsupportedPayloadVersion)
    else if MinPayload(data[0] / 4 % 16).None? then Failure(UnknownPayloadType)
    else if HasCodes(data[0]) && |data| < 1 + TRANSPORT_CODE_PREFIX_LEN then Failure(TransportCodeLengthMismatch)
    else if PathLenIndex(data[0]) >= |data| then Failure(TooShort)
    else
      var i := PathLenIndex(data[0]);
      var size, hops := HashSize(data[i]), HashCount(data[i]);
      if size == 4 then Failure(ReservedHashSize)
      else if PathBytes(hops, size) > MAX_PATH_SIZE then Failure(PathBytesExceedMax)
      else if i + 1 + PathBytes(hops, size) > |data| then Failure(LengthImplausible)
      else
        var remaining := |data| - (i + 1 + PathBytes(hops, size));
        if remaining > MAX_PACKET_PAYLOAD then Failure(PayloadExceedsMax)
        else if remaining < MinPayload(data[0] / 4 % 16).value then Failure(PayloadTooShortForType)
        else Success(remaining)
  }

  /** `packet_hash`: the bytes that are digested. Malformed input is its own identity. */
  function Identity(data: Bytes): Bytes {
    if |data| < 2 then data
    else
      var i := PathLenIndex(data[0]);
      if i >= |data| then data
      else
        var size := PathBytes(data[i] % 64, data[i] / 64 + 1);
        var start := i + 1 + size;
        if data[i] / 64 == 3 || size > 64 || start > |data| then data
        else
          var t := data[0] / 4 % 16;
          [t] + (if t == TYPE_TRACE then [data[i], 0] else []) + data[start..]
  }

  datatype PathInfo = PathInfo(hashes: seq<Bytes>, size: nat, src: Option<u8>, dst: Option<u8>)

  /** The hop hashes, from offset `start` on, that lie completely inside the frame. */
  function HopHashes(data: Bytes, start: nat, size: nat, hops: nat): seq<Bytes>
    decreases hops
  {
    if hops == 0 then []
    else
      (if start + size <= |data| then [data[start..start + size]] else [])
      + HopHashes(data, start + size, size, hops - 1)
  }

  /** Which payload bytes name the source and the destination, by payload type. */
  function Endpoints(t: int, payload: Bytes): (r: (Option<u8>, Option<u8>)) {
    if t in {0, 1, 2, 8} && |payload| >= 2 then (Some(payload[1]), Some(payload[0]))
    else if t == 4 && |payload| >= 1 then (Some(payload[0]), None)
    else if t in {5, 6, 7} && |payload| >= 1 then (None, Some(payload[0]))
    else (None, None)
  }

  function PathInfoOf(data: Bytes): PathInfo {
    if |data| < 2 || PathLenIndex(data[0]) >= |data| then PathInfo([], 0, None, None)
    else
      var i := PathLenIndex(data[0]);
      var size, hops := HashSize(data[i]), HashCount(data[i]);
      var start := i + 1 + PathBytes(hops, size);
      var ends := if start < |data| then Endpoints(data[0] / 4 % 16, data[start..]) else (None, None);
      PathInfo(HopHashes(data, i + 1, size, hops), size, ends.0, ends.1)
  }

  /** `_parse_path_info` */
  method ParsePathInfo(data: Bytes) returns (info: PathInfo)
    ensures info == PathInfoOf(data)
  {
    info := PathInfo([], 0, None, None);
    if |data| < 2 {
      return;
    }
    var idx := PathLenIndex(data[0]);
    if idx >= |data| {
      return;
    }
    var hops, size := HashCount(data[idx]), HashSize(data[idx]);
    var hashes := CollectHops(data, idx + 1, size, hops);
    var payloadStart := idx + 1 + PathBytes(hops, size);
    var ends := if payloadStart < |data| then Endpoints(data[0] / 4 % 16, data[payloadStart..]) else (None, None);
    info := PathInfo(hashes, size, ends.0, ends.1);
  }

  method CollectHops(data: Bytes, first: nat, size: nat, hops: nat) returns (hashes: seq<Bytes>)
    ensures hashes == HopHashes(data, first, size, hops)
  {
    hashes := [];
    for i := 0 to hops
      invariant hashes + HopHashes(data, first + i * size, size, hops - i) == HopHashes(data, first, size, hops)
    {
      var start := first + i * size;
      assert start + size == first + (i + 1) * size;
      if start + size <= |data| {
        hashes := hashes + [data[start..start + size]];
      }
    }
  }

  // ---------------------------------------------------------------- what an accepted frame is

  /** Types 12 to 14 are not defined, the others ask for some bytes of payload. */
  predicate LongEnough(kind: int, bytes: nat) {
    && (0 <= kind <= 11 || kind == 15)
    && (kind in {10, 11} ==> bytes >= 1)
    && (kind in {3, 5, 6} ==> bytes >= 4)
    && (kind in {0, 1, 2, 8} ==> bytes >= 5)
    && (kind == 9 ==> bytes >= 9)
    && (kind == 7 ==> bytes >= 36)
    && (kind == 4 ==> bytes >= 100)
  }

  /** The packets that have a legal frame: version 0, a defined type with enough payload, whole hops of one to three
      bytes, at most 64 bytes of path, 184 of payload and 255 in all. */
  predicate WellFormed(p: Packet) {
    && p.header < 64
    && LongEnough(p.header / 4, |p.payload|)
    && |p.codes| == 4
    && p.pathLen < 192
    && |p.path| == PathBytes(p.pathLen % 64, p.pathLen / 64 + 1) <= 64
    && |p.payload| <= 184
    && 2 + (if p.header % 4 in {0, 3} then 4 else 0) + |p.path| + |p.payload| <= 255
  }

  lemma WellFormedFields(p: Packet)
    ensures p.Size() == p.pathLen / 64 + 1 && p.Count() == p.pathLen % 64
    ensures |p.codes| == 4 ==>
      |p.Wire()| == 2 + (if p.header % 4 in {0, 3} then 4 else 0) + |p.path| + |p.payload|
    ensures p.header < 64 ==> p.Type() == p.header / 4
  {
    ShiftAndMask(p.pathLen);
  }

  lemma LongEnoughIff(kind: int, bytes: nat)
    requires 0 <= kind < 16
    ensures LongEnough(kind, bytes) <==> MinPayload(kind).Some? && MinPayload(kind).value <= bytes
  {
  }

  /** Split an accepted frame at the offsets the validator checked. */
  function Parse(data: Bytes): (p: Packet)
    requires Validate(data).Success?
  {
    var i := PathLenIndex(data[0]);
    var start := |data| - Validate(data).value;
    var codes := if HasCodes(data[0]) then data[1..5] else [0, 0, 0, 0];
    Packet(data[0], codes, data[i], data[i + 1..start], data[start..], false)
  }

  /** Accepted frames are exactly the frames of well-formed packets: splitting and sending are inverse. */
  lemma ParseThenWire(data: Bytes)
    requires Validate(data).Success?
    ensures WellFormed(Parse(data)) && Parse(data).Wire() == data
  {
    var p, i := Parse(data), PathLenIndex(data[0]);
    WellFormedFields(p);
    LongEnoughIff(p.header / 4, |p.payload|);
    Rejoined(data, i, i + 1 + |p.path|);
    assert [data[0]] + (if p.IsTransport() then p.codes else []) == data[..i];
  }

  lemma Rejoined(data: Bytes, i: nat, start: nat)
    requires i < start <= |data|
    ensures data[..i] + [data[i]] + data[i + 1..start] + data[start..] == data
  {
    assert data[..i + 1] == data[..i] + [data[i]];
    assert data[..start] == data[..i + 1] + data[i + 1..start];
  }

  lemma WireThenParse(p: Packet)
    requires WellFormed(p)
    ensures Validate(p.Wire()) == Success(|p.payload|)
    ensures var q := Parse(p.Wire());
      q == p.(codes := if p.IsTransport() then p.codes else [0, 0, 0, 0], doNotRetransmit := false)
  {
    WireOffsets(p);
    WellFormedFields(p);
    LongEnoughIff(p.header / 4, |p.payload|);
  }

  /** Where the fields of a packet lie in its frame. */
  lemma WireOffsets(p: Packet)
    requires |p.codes| == TRANSPORT_CODE_PREFIX_LEN
    ensures var w, i := p.Wire(), PathLenIndex(p.header);
      && |w| == i + 1 + |p.path| + |p.payload| && w[0] == p.header && w[i] == p.pathLen
      && (p.IsTransport() ==> w[1..5] == p.codes)
      && w[i + 1..i + 1 + |p.path|] == p.path && w[i + 1 + |p.path|..] == p.payload
  {
    var w, i := p.Wire(), PathLenIndex(p.header);
    var head := [p.header] + (if p.IsTransport() then p.codes else []) + [p.pathLen];
    assert |head| == i + 1 && head[i] == p.pathLen && (p.IsTransport() ==> head[1..5] == p.codes);
    assert w == head + (p.path + p.payload);
    assert w[i + 1..] == p.path + p.payload;
    assert w[..i + 1] == head;
  }

  /** The validator accepts a frame if and only if it is the frame of some well-formed packet. */
  lemma AcceptedIffWellFormed(data: Bytes)
    ensures Validate(data).Success? <==> exists p :: WellFormed(p) && p.Wire() == data
  {
    if Validate(data).Success? {
      ParseThenWire(data);
    }
    if p :| WellFormed(p) && p.Wire() == data {
      WireThenParse(p);
    }
  }

  /** The reason for a refusal is a fault that the frame has. */
  predicate HasFault(data: Bytes, reason: Reason) {
    var i := if |data| > 0 && data[0] % 4 in {0, 3} then 5 else 1;
    match reason
    case TooShort => |data| < 2 || |data| <= i
    case LengthImplausible =>
      |data| > 255 || (i < |data| && i + 1 + PathBytes(data[i] % 64, data[i] / 64 + 1) > |data|)
    case UnsupportedPayloadVersion => |data| > 0 && data[0] >= 64
    case UnknownPayloadType => |data| > 0 && data[0] / 4 % 16 in {12, 13, 14}
    case TransportCodeLengthMismatch => i == 5 && |data| < 5
    case ReservedHashSize => i < |data| && data[i] >= 192
    case PathBytesExceedMax => i < |data| && PathBytes(data[i] % 64, data[i] / 64 + 1) > 64
    case PayloadExceedsMax => i < |data| && |data| - (i + 1 + PathBytes(data[i] % 64, data[i] / 64 + 1)) > 184
    case PayloadTooShortForType =>
      && i < |data| && |data| >= i + 1 + PathBytes(data[i] % 64, data[i] / 64 + 1)
      && !LongEnough(data[0] / 4 % 16, |data| - (i + 1 + PathBytes(data[i] % 64, data[i] / 64 + 1)))
  }

  lemma RefusalIsTrue(data: Bytes)
    requires Validate(data).Failure?
    ensures HasFault(data, Validate(data).error)
  {
    if |data| >= 2 && |data| > PathLenIndex(data[0]) {
      ShiftAndMask(data[PathLenIndex(data[0])]);
    }
  }

  /** On an accepted frame the identity takes its structured branch. */
  lemma IdentityOfWire(p: Packet)
    requires |p.codes| == TRANSPORT_CODE_PREFIX_LEN && p.Size() <= 3
      && |p.path| == PathBytes(p.Count(), p.Size()) <= MAX_PATH_SIZE
    ensures Identity(p.Wire()) == [p.Type()] + (if p.Type() == TYPE_TRACE then [p.pathLen, 0] else []) + p.payload
  {
    WireOffsets(p);
    ShiftAndMask(p.pathLen);
  }

  /** Two accepted frames have the same identity exactly when type and payload agree, and for TRACE the
      path-length byte too; route, codes and path never matter otherwise. */
  lemma SameIdentityIff(a: Bytes, b: Bytes)
    requires Validate(a).Success? && Validate(b).Success?
    ensures var p, q := Parse(a), Parse(b);
      Identity(a) == Identity(b)
      <==> p.Type() == q.Type() && p.payload == q.payload && (p.Type() == TYPE_TRACE ==> p.pathLen == q.pathLen)
  {
    var p, q := Parse(a), Parse(b);
    ParseThenWire(a);
    ParseThenWire(b);
    IdentityOfWire(p);
    IdentityOfWire(q);
    if Identity(a) == Identity(b) {
      assert Identity(a)[0] == Identity(b)[0];
      var n := if p.Type() == TYPE_TRACE then 3 else 1;
      assert Identity(a)[n..] == p.payload && Identity(b)[n..] == q.payload;
      if p.Type() == TYPE_TRACE {
        assert Identity(a)[1] == Identity(b)[1];
      }
    }
  }

  /** The bridge's parser lists exactly the hops of an accepted frame, whole, and together they are its path. It reads
      the source from the second payload byte of requests, responses, texts and paths (0, 1, 2, 8) and from the first
      of adverts (4), and the destination from the first byte of all these but adverts, and of group messages and
      anonymous requests (5, 6, 7). */
  lemma HopHashesOfAccepted(data: Bytes)
    requires Validate(data).Success?
    ensures var p, info := Parse(data), PathInfoOf(data);
      && info.size == p.Size() && |info.hashes| == p.Count() && Join(info.hashes) == p.path
      && info.hashes == Chunks(p.path, p.Size())
      && (forall h <- info.hashes :: |h| == p.Size())
      && EndsRead(p.header / 4, p.payload, info.src, info.dst)
  {
    var p, i := Parse(data), PathLenIndex(data[0]);
    ParseThenWire(data);
    WireOffsets(p);
    WellFormedFields(p);
    EndpointsRead(data, p, i + 1 + |p.path|);
    HopsOfPath(data, p, i + 1);
  }

  lemma HopsOfPath(data: Bytes, p: Packet, start: nat)
    requires p.Size() <= 3 && |p.path| == PathBytes(p.Count(), p.Size())
    requires start + |p.path| <= |data| && data[start..start + |p.path|] == p.path
    ensures var hashes := HopHashes(data, start, p.Size(), p.Count());
      && |hashes| == p.Count() && Join(hashes) == p.path && hashes == Chunks(p.path, p.Size())
      && (forall h <- hashes :: |h| == p.Size())
  {
    HopsFrom(data, p.path, start, p.Size(), p.Count());
    ChunksAreWhole(p.path, p.Size(), p.Count());
    ChunksRebuild(p.path, p.Size());
  }

  predicate EndsRead(kind: int, payload: Bytes, src: Option<u8>, dst: Option<u8>) {
    && (kind in {0, 1, 2, 8} ==> |payload| > 1 && src == Some(payload[1]) && dst == Some(payload[0]))
    && (kind == 4 ==> |payload| > 0 && src == Some(payload[0]) && dst == None)
    && (kind in {5, 6, 7} ==> |payload| > 0 && src == None && dst == Some(payload[0]))
    && (kind in {3, 9, 10, 11, 15} ==> src == None && dst == None)
  }

  lemma EndpointsRead(data: Bytes, p: Packet, start: nat)
    requires start <= |data| && p.payload == data[start..] && p.header < 64 && LongEnough(p.header / 4, |p.payload|)
    ensures var ends := if start < |data| then Endpoints(p.header / 4, data[start..]) else (None, None);
      EndsRead(p.header / 4, p.payload, ends.0, ends.1)
  {
  }

  lemma {:induction false} HopsFrom(data: Bytes, path: Bytes, start: nat, size: nat, hops: nat)
    requires 1 <= size <= 4 && |path| == PathBytes(hops, size)
    requires start + |path| <= |data| && data[start..start + |path|] == path
    ensures HopHashes(data, start, size, hops) == Chunks(path, size)
  {
    if hops > 0 {
      assert PathBytes(hops, size) == PathBytes(hops - 1, size) + size;
      assert data[start..start + size] == path[..size];
      assert data[start + size..start + |path|] == path[size..];
      HopsFrom(data, path[size..], start + size, size, hops - 1);
      if |path| == size {
        assert path[..size] == path && path[size..] == [];
      }
    }
  }
}
