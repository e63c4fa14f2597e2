/**
 A MeshCore packet as the repeater handles it, and its path-length byte: the hash size minus one in the
 two high bits, the hop count in the six low bits.
 */
module MeshPacket {
  import opened NativeTypes

  type Bytes = seq<u8>

  const ROUTE_TRANSPORT_FLOOD := 0
  const ROUTE_FLOOD := 1
  const ROUTE_DIRECT := 2
  const ROUTE_TRANSPORT_DIRECT := 3
  const TYPE_ACK := 3
  const TYPE_TRACE := 9
  const TYPE_MULTIPART := 10
  const MAX_PATH_SIZE := 64

  /** `codes` are the four transport-code bytes; they are only sent on transport routes. */
  datatype Packet = Packet(
    header: u8, codes: Bytes, pathLen: u8, path: Bytes, payload: Bytes, doNotRetransmit: bool)
  {
    function Route(): (r: int) ensures 0 <= r < 4 { header % 4 }
    function Type(): (r: int) ensures 0 <= r < 16 { header / 4 % 16 }
    predicate IsTransport() { Route() == ROUTE_TRANSPORT_FLOOD || Route() == ROUTE_TRANSPORT_DIRECT }
    predicate IsDirect() { Route() == ROUTE_DIRECT || Route() == ROUTE_TRANSPORT_DIRECT }
    function Size(): (r: int) ensures 1 <= r <= 4 { HashSize(pathLen) }
    function Count(): (r: int) ensures 0 <= r < 64 { HashCount(pathLen) }

    /** The bytes on the air. */
    function Wire(): Bytes {
      [header] + (if IsTransport() then codes else []) + [pathLen] + path + payload
    }
  }

  /** The two high bits plus one. */
  function HashSize(pathLen: u8): (r: int)
    ensures 1 <= r <= 4
  {
    if pathLen < 64 then 1 else if pathLen < 128 then 2 else if pathLen < 192 then 3 else 4
  }

  /** The six low bits. */
  function HashCount(pathLen: u8): (r: int)
    ensures 0 <= r < 64
  {
    pathLen - 64 * (HashSize(pathLen) - 1)
  }

  lemma ShiftAndMask(b: u8)
    ensures HashSize(b) == b / 64 + 1 && HashCount(b) == b % 64
  {
    if b < 64 {
    } else if b < 128 {
    } else if b < 192 {
    }
  }

  function EncodePathLen(size: int, count: int): (r: u8)
    requires 1 <= size <= 4 && 0 <= count < 64
    ensures HashSize(r) == size && HashCount(r) == count
  {
    64 * (size - 1) + count
  }

  /** The length of a path: count * size, by cases, so that proofs need no multiplication of two variables. */
  function PathBytes(count: int, size: int): int
    requires 1 <= size <= 4
  {
    if size == 1 then count else if size == 2 then 2 * count else if size == 3 then 3 * count else 4 * count
  }

  lemma PathBytesIsProduct(count: int, size: int)
    requires 1 <= size <= 4
    ensures PathBytes(count, size) == count * size
  {
    if size == 1 {
    } else if size == 2 {
    } else if size == 3 {
    }
  }

  /** The prefix of a key that stands for a node in paths of this hash size. */
  function Prefix(key: Bytes, size: int): (r: Bytes)
    requires 0 <= size
    ensures |r| == if |key| < size then |key| else size
  {
    if |key| < size then key else key[..size]
  }

  /** The hashes of a path; a trailing piece shorter than `size` is kept. */
  function Chunks(path: Bytes, size: int): (r: seq<Bytes>)
    requires size > 0
    decreases |path|
  {
    if path == [] then []
    else if |path| <= size then [path]
    else [path[..size]] + Chunks(path[size..], size)
  }

  /** The first whole hash is the first chunk. */
  lemma ChunksHead(path: Bytes, size: int)
    requires 0 < size <= |path|
    ensures Chunks(path, size) == [path[..size]] + Chunks(path[size..], size)
  {
    if |path| == size {
      assert path[..size] == path && path[size..] == [];
    }
  }

  function Join(hashes: seq<Bytes>): Bytes {
    if hashes == [] then [] else hashes[0] + Join(hashes[1..])
  }

  lemma JoinCons(hash: Bytes, hashes: seq<Bytes>)
    ensures Join([hash] + hashes) == hash + Join(hashes)
  {
    assert ([hash] + hashes)[1..] == hashes;
  }

  lemma {:induction false} ChunksRebuild(path: Bytes, size: int)
    requires size > 0
    ensures Join(Chunks(path, size)) == path
    decreases |path|
  {
    if |path| > size {
      ChunksRebuild(path[size..], size);
      JoinCons(path[..size], Chunks(path[size..], size));
    } else if path != [] {
      assert Chunks(path, size)[1..] == [];
    }
  }

  lemma {:induction false} ChunksAreWhole(path: Bytes, size: int, count: int)
    requires 1 <= size <= 4 && count >= 0 && |path| == PathBytes(count, size)
    ensures |Chunks(path, size)| == count && forall h <- Chunks(path, size) :: |h| == size
    decreases count
  {
    if count == 0 {
    } else if count == 1 {
    } else {
      assert PathBytes(count, size) == PathBytes(count - 1, size) + size;
      ChunksAreWhole(path[size..], size, count - 1);
    }
  }

  /** Appending one whole hash to whole hashes appends one chunk. */
  lemma {:induction false} ChunksAppend(path: Bytes, hash: Bytes, size: int, count: int)
    requires 1 <= size <= 4 && count >= 0 && |path| == PathBytes(count, size) && |hash| == size
    ensures Chunks(path + hash, size) == Chunks(path, size) + [hash]
    decreases count
  {
    if count == 0 {
      assert path + hash == hash;
    } else {
      assert PathBytes(count, size) == PathBytes(count - 1, size) + size;
      assert (path + hash)[..size] == path[..size];
      assert (path + hash)[size..] == path[size..] + hash;
      ChunksAppend(path[size..], hash, size, count - 1);
      if count == 1 {
        assert path[..size] == path && path[size..] == [];
      }
    }
  }
}
