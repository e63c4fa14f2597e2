/**
 The duplicate merge of the receive path (loragw_hal.c).

 A received frame can be demodulated twice, so the HAL compares every pair of packets and removes
 one of two similar ones, then starts again from index 0.  `Merge` is the value-level meaning of
 that loop; `MergePackets` is the loop itself, working in place on the array.
 */
module RxMerge {
  import opened NativeTypes
  import opened Wrappers

  const COUNTER_RANGE: int := 0x1_0000_0000
  const WINDOW_US: int := 24
  const STAT_NO_CRC: int := 0x01
  const STAT_CRC_OK: int := 0x10
  const STAT_CRC_BAD: int := 0x11

  /** The fields `merge_packets` looks at; `meta` stands for the rest of the structure. */
  datatype RxPacket = RxPacket(
    countUs: u32, ifChain: u8, datarate: u32, status: u8, payload: seq<u8>, ftimeReceived: bool, meta: int)

  /** Unsigned 32-bit subtraction. */
  function Delta(a: u32, b: u32): u32 {
    (a - b) % COUNTER_RANGE
  }

  predicate IsSame(p: RxPacket, q: RxPacket) {
    && (Delta(p.countUs, q.countUs) <= WINDOW_US || Delta(q.countUs, p.countUs) <= WINDOW_US)
    && p.ifChain == q.ifChain
    && p.datarate == q.datarate
    && p.payload == q.payload
  }

  /** Is the first of two similar packets the one to delete? */
  predicate DropsFirst(p: RxPacket, q: RxPacket) {
    if p.status == STAT_CRC_OK && q.status == STAT_CRC_BAD then false
    else if p.status == STAT_CRC_BAD && q.status == STAT_CRC_OK then true
    else !p.ftimeReceived
  }

  /** Removal by overwriting with the last packet. */
  function Without<T>(s: seq<T>, i: nat): (r: seq<T>)
    requires i < |s|
    ensures |r| == |s| - 1
  {
    if i == |s| - 1 then s[..i] else s[..|s| - 1][i := s[|s| - 1]]
  }

  lemma WithoutMultiset<T>(s: seq<T>, i: nat)
    requires i < |s|
    ensures multiset(Without(s, i)) == multiset(s) - multiset{s[i]}
  {
    var last := |s| - 1;
    assert s == s[..last] + [s[last]];
    if i != last {
      var m := s[..last];
      assert m[i := s[last]] == m[..i] + [s[last]] + m[i + 1..];
      assert m == m[..i] + [m[i]] + m[i + 1..];
    }
  }

  /** The first similar pair at or after (j, k) in the order of the two nested loops. */
  function FindFrom(s: seq<RxPacket>, j: nat, k: nat): (r: Option<(nat, nat)>)
    requires j < k
    ensures r.Some? ==> r.value.0 < r.value.1 < |s| && IsSame(s[r.value.0], s[r.value.1])
    decreases |s| - j, |s| - k
  {
    if j >= |s| then None
    else if k >= |s| then FindFrom(s, j + 1, j + 2)
    else if IsSame(s[j], s[k]) then Some((j, k))
    else FindFrom(s, j, k + 1)
  }

  /** The index that is deleted when the pair (j, k) is found. */
  function Doomed(s: seq<RxPacket>, j: nat, k: nat): (d: nat)
    requires j < k < |s|
    ensures d == j || d == k
  {
    if DropsFirst(s[j], s[k]) then j else k
  }

  function Merge(s: seq<RxPacket>): (r: seq<RxPacket>)
    decreases |s|
  {
    match FindFrom(s, 0, 1)
    case None => s
    case Some((j, k)) => Merge(Without(s, Doomed(s, j, k)))
  }

  // ---------------------------------------------------------------- the loops

  /** `remove_pkt`: rc is -1 and nothing changes for an index outside the live part. */
  method RemovePacket(p: array<RxPacket>, nb: nat, index: nat) returns (rc: int, left: nat)
    requires nb <= p.Length
    modifies p
    ensures rc == if index < nb then 0 else -1
    ensures left == if index < nb then nb - 1 else nb
    ensures index < nb ==> p[..left] == Without(old(p[..nb]), index)
    ensures index < nb ==> forall i :: 0 <= i < left ==> p[i] == if i == index then old(p[nb - 1]) else old(p[i])
    ensures forall i :: left <= i < p.Length ==> p[i] == old(p[i])
    ensures index >= nb ==> p[..] == old(p[..])
  {
    if index > nb - 1 {
      return -1, nb;
    }
    if index != nb - 1 {
      p[index] := p[nb - 1];
    }
    return 0, nb - 1;
  }

  /** No packet before j is similar to a later one, and packet j to none before k. */
  ghost predicate Scanned(s: seq<RxPacket>, j: nat, k: nat) {
    && (forall a, b :: 0 <= a < j && a < b < |s| ==> !IsSame(s[a], s[b]))
    && (forall b :: j < b < k && b < |s| ==> !IsSame(s[j], s[b]))
  }

  /** The inner loop: the first later packet similar to packet j, or cpt. */
  method FindSimilar(p: array<RxPacket>, cpt: nat, j: nat) returns (k: nat)
    requires j < cpt <= p.Length && Scanned(p[..cpt], j, j + 1)
    ensures j < k <= cpt && Scanned(p[..cpt], j, k)
    ensures k < cpt ==> IsSame(p[j], p[k])
  {
    k := j + 1;
    while k < cpt && !IsSame(p[j], p[k])
      invariant j < k <= cpt && Scanned(p[..cpt], j, k)
    {
      k := k + 1;
    }
  }

  /** The choice between two similar packets, and the removal. */
  method RemoveDuplicate(p: array<RxPacket>, cpt: nat, j: nat, k: nat) returns (left: nat)
    requires j < k < cpt <= p.Length && IsSame(p[j], p[k]) && Scanned(p[..cpt], j, k)
    modifies p
    ensures left == cpt - 1
    ensures Merge(p[..left]) == Merge(old(p[..cpt]))
    ensures forall i :: left <= i < p.Length ==> p[i] == old(p[i])
  {
    FirstPair(p[..cpt], 0, 1, j, k);
    var _, n := RemovePacket(p, cpt, if DropsFirst(p[j], p[k]) then j else k);
    left := n;
  }

  /** `merge_packets` up to its final sort: after each removal the search restarts from the first packet. */
  method MergePackets(p: array<RxPacket>, nb: nat) returns (cpt: nat)
    requires nb <= p.Length
    modifies p
    ensures cpt <= nb
    ensures p[..cpt] == Merge(old(p[..nb]))
    ensures forall i :: nb <= i < p.Length ==> p[i] == old(p[i])
  {
    cpt := nb;
    var j := 0;
    ghost var merged := Merge(p[..nb]);
    while j < cpt
      invariant j <= cpt <= nb
      invariant forall i :: nb <= i < p.Length ==> p[i] == old(p[i])
      invariant Merge(p[..cpt]) == merged
      invariant Scanned(p[..cpt], j, j + 1)
      decreases cpt, cpt - j
    {
      var k := FindSimilar(p, cpt, j);
      if k < cpt {
        cpt := RemoveDuplicate(p, cpt, j, k);
        j := 0;
      } else {
        j := j + 1;
      }
    }
    MergeDone(p[..cpt]);
  }

  /** The scan finds the first similar pair. */
  lemma {:induction false} FirstPair(s: seq<RxPacket>, a: nat, b: nat, j: nat, k: nat)
    requires a < b && j < k < |s| && (a < j || (a == j && b <= k))
    requires IsSame(s[j], s[k]) && Scanned(s, j, k)
    ensures FindFrom(s, a, b) == Some((j, k))
    decreases |s| - a, |s| - b
  {
    if b >= |s| {
      FirstPair(s, a + 1, a + 2, j, k);
    } else if !IsSame(s[a], s[b]) {
      FirstPair(s, a, b + 1, j, k);
    }
  }

  /** The index that goes from a similar pair (j, k): the bad one next to a good one, else k if packet j is precise,
      else j. */
  function DroppedIndex(s: seq<RxPacket>, j: nat, k: nat): (d: nat)
    requires j < k < |s|
    ensures d == j || d == k
  {
    if s[j].status == 0x10 && s[k].status == 0x11 then k
    else if s[j].status == 0x11 && s[k].status == 0x10 then j
    else if s[j].ftimeReceived then k
    else j
  }

  /** The merge takes the first similar pair, overwrites the one that goes with the last packet, and starts again. */
  lemma MergeStep(s: seq<RxPacket>, j: nat, k: nat, t: seq<RxPacket>)
    requires j < k < |s| && IsSame(s[j], s[k]) && Scanned(s, j, k)
    requires |t| == |s| - 1
    requires forall i :: 0 <= i < |t| ==> t[i] == if i == DroppedIndex(s, j, k) then s[|s| - 1] else s[i]
    ensures Merge(s) == Merge(t)
  {
    FirstPair(s, 0, 1, j, k);
    assert t == Without(s, Doomed(s, j, k));
  }

  lemma MergeDone(s: seq<RxPacket>)
    requires Scanned(s, |s|, |s| + 1)
    ensures Merge(s) == s
  {
  }

  // ---------------------------------------------------------------- the relation

  lemma SameIsSymmetric(p: RxPacket, q: RxPacket)
    ensures IsSame(p, q) <==> IsSame(q, p)
  {
  }

  /** Two packets are similar exactly if channel, datarate and payload agree and one counter is the other moved by at
      most 24 us in either direction, across the wrap. */
  lemma SameIff(p: RxPacket, q: RxPacket)
    ensures IsSame(p, q) <==>
      p.ifChain == q.ifChain && p.datarate == q.datarate && p.payload == q.payload && CountersMeet(p.countUs, q.countUs)
  {
    DeltaIs(p.countUs, q.countUs);
    DeltaIs(q.countUs, p.countUs);
    if IsSame(p, q) {
      var back: int, forth: int := Delta(p.countUs, q.countUs), Delta(q.countUs, p.countUs);
      AdvancedIs(p.countUs, q.countUs, if forth <= 24 then forth else -back);
    }
    if CountersMeet(p.countUs, q.countUs) {
      var us :| -24 <= us <= 24 && q.countUs == Advanced(p.countUs, us);
      AdvancedIs(p.countUs, q.countUs, us);
    }
  }

  lemma DeltaIs(a: u32, b: u32)
    ensures Delta(a, b) == if a >= b then a - b else a - b + 0x1_0000_0000
  {
  }

  lemma AdvancedIs(a: u32, b: u32, us: int)
    requires -0x1_0000_0000 <= us <= 0x1_0000_0000
    ensures b == Advanced(a, us) <==>
      a + us == b || a + us == b + 0x1_0000_0000 || a + us == b - 0x1_0000_0000
  {
  }

  function Advanced(count: u32, us: int): u32 {
    (count + us) % 0x1_0000_0000
  }

  ghost predicate CountersMeet(a: u32, b: u32) {
    exists us :: -24 <= us <= 24 && b == Advanced(a, us)
  }

  /** Advancing both counters by any amount, across the wrap, changes nothing. */
  lemma SameIsRolloverInvariant(p: RxPacket, q: RxPacket, shift: int)
    ensures IsSame(p, q) <==> IsSame(p.(countUs := (p.countUs + shift) % COUNTER_RANGE),
                                     q.(countUs := (q.countUs + shift) % COUNTER_RANGE))
  {
    DeltaShift(p.countUs, q.countUs, shift);
    DeltaShift(q.countUs, p.countUs, shift);
  }

  lemma DeltaShift(a: u32, b: u32, shift: int)
    ensures Delta((a + shift) % COUNTER_RANGE, (b + shift) % COUNTER_RANGE) == Delta(a, b)
  {
    var qa, qb := (a + shift) / COUNTER_RANGE, (b + shift) / COUNTER_RANGE;
    var d := (a + shift) % COUNTER_RANGE - (b + shift) % COUNTER_RANGE;
    assert d == (a - b) - COUNTER_RANGE * (qa - qb);
    ModAddMultiple(a - b, -(qa - qb));
  }

  lemma ModAddMultiple(x: int, m: int)
    ensures (x + COUNTER_RANGE * m) % COUNTER_RANGE == x % COUNTER_RANGE
  {
  }

  /** Similarity is not an equivalence: three packets 20 us apart. */
  lemma SameIsNotTransitive() returns (p: RxPacket, q: RxPacket, r: RxPacket)
    ensures IsSame(p, q) && IsSame(q, r) && !IsSame(p, r)
  {
    p := RxPacket(0xFFFF_FFF0, 0, 7, STAT_CRC_OK, [1], false, 0);
    q := p.(countUs := 4);
    r := p.(countUs := 24);
    assert Delta(4, 0xFFFF_FFF0) == 20;
    assert Delta(24, 0xFFFF_FFF0) == 40;
  }

  // ---------------------------------------------------------------- what Merge promises

  ghost predicate NoDuplicates(s: seq<RxPacket>) {
    forall j, k :: 0 <= j < k < |s| ==> !IsSame(s[j], s[k])
  }

  /** FindFrom is complete: None means that no pair at or after (j, k) is similar. */
  lemma {:induction false} FindIsComplete(s: seq<RxPacket>, j: nat, k: nat)
    requires j < k
    requires FindFrom(s, j, k).None?
    ensures forall b :: k <= b < |s| && j < |s| ==> !IsSame(s[j], s[b])
    ensures forall a, b :: j < a < b < |s| ==> !IsSame(s[a], s[b])
    decreases |s| - j, |s| - k
  {
    if j >= |s| {
    } else if k >= |s| {
      FindIsComplete(s, j + 1, j + 2);
    } else {
      FindIsComplete(s, j, k + 1);
    }
  }

  /** No two packets that survive are similar, and nothing is invented. */
  lemma {:induction false} MergeLeavesNoDuplicates(s: seq<RxPacket>)
    ensures NoDuplicates(Merge(s))
    ensures multiset(Merge(s)) <= multiset(s)
    ensures NoDuplicates(s) <==> Merge(s) == s
    decreases |s|
  {
    match FindFrom(s, 0, 1)
    case None => FindIsComplete(s, 0, 1);
    case Some((j, k)) =>
      var t := Without(s, Doomed(s, j, k));
      MergeLeavesNoDuplicates(t);
      MergeShrinks(t);
      WithoutMultiset(s, Doomed(s, j, k));
  }

  lemma {:induction false} MergeShrinks(s: seq<RxPacket>)
    ensures |Merge(s)| <= |s|
    decreases |s|
  {
    match FindFrom(s, 0, 1)
    case None =>
    case Some((j, k)) => MergeShrinks(Without(s, Doomed(s, j, k)));
  }

  /** What is worth keeping about a packet. */
  datatype Merit = NoMerit | GoodCrc | Precise

  predicate Has(p: RxPacket, merit: Merit) {
    match merit
    case NoMerit => false
    case GoodCrc => p.status == 0x10
    case Precise => p.ftimeReceived
  }

  /** One step of a walk: a similar packet; the merit is never left behind. */
  predicate IsStep(p: RxPacket, q: RxPacket, merit: Merit) {
    IsSame(p, q) && (Has(p, merit) ==> Has(q, merit))
  }

  /** A nonempty walk through the packets of `pool`. */
  predicate IsChain(pool: seq<RxPacket>, path: seq<RxPacket>, merit: Merit) {
    && path != []
    && path[0] in pool
    && (|path| > 1 ==> IsStep(path[0], path[1], merit) && IsChain(pool, path[1..], merit))
  }

  predicate CheckedCrc(s: seq<RxPacket>) {
    forall p <- s :: p.status == 0x10 || p.status == 0x11
  }

  ghost predicate AgreeInStatus(s: seq<RxPacket>) {
    forall p, q | p in s && q in s && IsSame(p, q) :: p.status == q.status
  }

  /** Does the merge keep p, in either order, next to a similar packet without its merit? A good CRC wins over a bad
      one, but over an unchecked one only by the precise timestamp; a precise timestamp wins unless the CRCs are bad
      and good. */
  predicate Keeps(p: RxPacket, q: RxPacket, merit: Merit) {
    IsSame(p, q) && Has(p, merit) && !Has(q, merit) ==>
      match merit
      case NoMerit => true
      case GoodCrc => q.status == 0x11 || (p.ftimeReceived && !q.ftimeReceived)
      case Precise => !(p.status == 0x11 && q.status == 0x10)
  }

  ghost predicate Prefers(s: seq<RxPacket>, merit: Merit) {
    forall p, q | p in s && q in s :: Keeps(p, q, merit)
  }

  /** Every packet, dropped or not, is linked by a chain of similar packets to a survivor. When good packets
      are preferred, which is so whenever every CRC was checked, that chain never leaves the good packets, so
      no good frame is lost; and when precise ones are, which is so whenever similar packets agree in status, that
      chain never leaves the packets with a precise timestamp. */
  lemma DroppedIsLinkedToSurvivor(s: seq<RxPacket>, x: RxPacket, merit: Merit)
    returns (y: RxPacket, path: seq<RxPacket>)
    requires x in s
    ensures y in Merge(s)
    ensures IsChain(s, path, if Prefers(s, merit) then merit else NoMerit)
    ensures path[0] == x && path[|path| - 1] == y
    ensures CheckedCrc(s) ==> Prefers(s, GoodCrc)
    ensures AgreeInStatus(s) ==> Prefers(s, Precise)
    ensures Prefers(s, merit) && Has(x, merit) ==> Has(y, merit)
  {
    var kept := if Prefers(s, merit) then merit else NoMerit;
    path := ChainToSurvivor(s, x, kept);
    y := path[|path| - 1];
    ChainKeeps(s, path, kept);
  }

  lemma {:induction false} ChainToSurvivor(s: seq<RxPacket>, x: RxPacket, merit: Merit) returns (path: seq<RxPacket>)
    requires x in s && Prefers(s, merit)
    ensures IsChain(s, path, merit) && path[0] == x && path[|path| - 1] in Merge(s)
    decreases |s|
  {
    path := [x];
    match FindFrom(s, 0, 1) {
      case None =>
      case Some((j, k)) =>
        var d := Doomed(s, j, k);
        var t, keeper := Without(s, d), s[j + k - d];
        OneStep(s, j, k, x, merit);
        var start := if x in t then x else keeper;
        var rest := ChainToSurvivor(t, start, merit);
        WidenChain(t, s, rest, merit);
        path := rest;
        if start != x {
          path := Prepended(s, x, rest, merit);
        }
    }
  }

  /** One removal: the kept packet stays, and a packet that disappears is similar to it. */
  lemma OneStep(s: seq<RxPacket>, j: nat, k: nat, x: RxPacket, merit: Merit)
    requires j < k < |s| && IsSame(s[j], s[k]) && x in s && Prefers(s, merit)
    ensures var d := Doomed(s, j, k); var keeper := s[j + k - d]; var t := Without(s, d);
      && keeper in t
      && (forall p <- t :: p in s)
      && (x in t || IsStep(x, keeper, merit))
      && Prefers(t, merit)
  {
    var d := Doomed(s, j, k);
    KeeperStays(s, d, j + k - d);
    SameIsSymmetric(s[j], s[k]);
    assert Keeps(s[j], s[k], merit) && Keeps(s[k], s[j], merit);
    KeeperHasMerit(s[j], s[k], merit);
    var i :| 0 <= i < |s| && s[i] == x;
    if i != d {
      KeeperStays(s, d, i);
    }
  }

  lemma KeeperHasMerit(p: RxPacket, q: RxPacket, merit: Merit)
    requires IsSame(p, q) && IsSame(q, p) && Keeps(p, q, merit) && Keeps(q, p, merit)
    ensures if DropsFirst(p, q) then Has(p, merit) ==> Has(q, merit) else Has(q, merit) ==> Has(p, merit)
  {
  }

  lemma Prepended(s: seq<RxPacket>, x: RxPacket, path: seq<RxPacket>, merit: Merit) returns (longer: seq<RxPacket>)
    requires x in s && IsChain(s, path, merit) && IsStep(x, path[0], merit)
    ensures IsChain(s, longer, merit) && longer[0] == x && longer[|longer| - 1] == path[|path| - 1]
  {
    longer := [x] + path;
    assert longer[1..] == path;
  }

  lemma KeeperStays(s: seq<RxPacket>, d: nat, i: nat)
    requires d < |s| && i < |s| && i != d
    ensures s[i] in Without(s, d)
  {
    var last := |s| - 1;
    if i == last {
      assert Without(s, d)[d] == s[i];
    } else {
      assert Without(s, d)[i] == s[i];
    }
  }

  lemma {:induction false} WidenChain(t: seq<RxPacket>, s: seq<RxPacket>, path: seq<RxPacket>, merit: Merit)
    requires forall p <- t :: p in s
    requires IsChain(t, path, merit)
    ensures IsChain(s, path, merit)
  {
    if |path| > 1 {
      WidenChain(t, s, path[1..], merit);
    }
  }

  lemma {:induction false} ChainKeeps(pool: seq<RxPacket>, path: seq<RxPacket>, merit: Merit)
    requires IsChain(pool, path, merit)
    ensures Has(path[0], merit) ==> Has(path[|path| - 1], merit)
  {
    if |path| > 1 {
      ChainKeeps(pool, path[1..], merit);
    }
  }

  // ---- two packets

  lemma PairMerge(p: RxPacket, q: RxPacket)
    requires IsSame(p, q)
    ensures Merge([p, q]) == if DropsFirst(p, q) then [q] else [p]
  {
    var s := [p, q];
    assert FindFrom(s, 0, 1) == Some((0, 1));
    var t := Without(s, Doomed(s, 0, 1));
    assert t == if DropsFirst(p, q) then [q] else [p];
    assert FindFrom(t, 0, 1) == FindFrom(t, 1, 2) == None;
  }

  /** Of a good and a bad packet the good one is kept in both orders; of any others, the precise one in both orders if
      there is just one, else the first one if both are precise and the second one if none is. */
  lemma PairOutcome(p: RxPacket, q: RxPacket)
    requires IsSame(p, q)
    ensures p.status == 0x10 && q.status == 0x11 ==> Merge([p, q]) == Merge([q, p]) == [p]
    ensures !(p.status == 0x10 && q.status == 0x11) && !(p.status == 0x11 && q.status == 0x10) ==>
      && (p.ftimeReceived && !q.ftimeReceived ==> Merge([p, q]) == Merge([q, p]) == [p])
      && (p.ftimeReceived && q.ftimeReceived ==> Merge([p, q]) == [p])
      && (!p.ftimeReceived && !q.ftimeReceived ==> Merge([p, q]) == [q])
  {
    SameIsSymmetric(p, q);
    PairMerge(p, q);
    PairMerge(q, p);
  }

  /** For a pair: exactly when the good packet is the one that is dropped. */
  lemma LosesGoodFrameIff(p: RxPacket, q: RxPacket)
    requires IsSame(p, q) && p.status == 0x10 && q.status != 0x10
    ensures Merge([p, q]) == [q] <==> q.status != 0x11 && !p.ftimeReceived
    ensures Merge([q, p]) == [q] <==> q.status != 0x11 && q.ftimeReceived
  {
    SameIsSymmetric(p, q);
    PairMerge(p, q);
    PairMerge(q, p);
  }

  // ---- all parts and orders

  /** Does a chain of packets with the merit of x lead from it to a survivor? */
  ghost predicate Represented(s: seq<RxPacket>, x: RxPacket, merit: Merit) {
    exists path :: IsChain(s, path, merit) && path[0] == x && path[|path| - 1] in Merge(s)
  }

  ghost predicate KeepsAll(s: seq<RxPacket>, merit: Merit) {
    forall x | x in s && Has(x, merit) :: Represented(s, x, merit)
  }

  /** The exact form: whatever part of s is received together and in whatever order, every good frame is
      represented by a good survivor, if and only if s never has a good packet similar to an unchecked one
      without being the only one of the two with a precise timestamp. And every packet with a precise timestamp is
      represented by such a survivor, if and only if s never has a bad one that is similar to a good one without. */
  lemma KeepsMeritIff(s: seq<RxPacket>, merit: Merit)
    ensures (forall t: seq<RxPacket> | multiset(t) <= multiset(s) :: KeepsAll(t, merit)) <==> Prefers(s, merit)
  {
    if Prefers(s, merit) {
      forall t: seq<RxPacket> | multiset(t) <= multiset(s) ensures KeepsAll(t, merit) {
        PartPrefers(s, t, merit);
        PreferredAreKept(t, merit);
      }
    } else {
      var p, q :| p in s && q in s && !Keeps(p, q, merit);
      PairIsPart(s, p, q);
      SameIsSymmetric(p, q);
      PairMerge(p, q);
      PairMerge(q, p);
      OnlyOtherSurvives(if DropsFirst(p, q) then [p, q] else [q, p], p, q, merit);
    }
  }

  lemma PreferredAreKept(t: seq<RxPacket>, merit: Merit)
    requires Prefers(t, merit)
    ensures KeepsAll(t, merit)
  {
    forall x | x in t && Has(x, merit) ensures Represented(t, x, merit) {
      var y, path := DroppedIsLinkedToSurvivor(t, x, merit);
    }
  }

  lemma PartPrefers(s: seq<RxPacket>, t: seq<RxPacket>, merit: Merit)
    requires Prefers(s, merit) && multiset(t) <= multiset(s)
    ensures Prefers(t, merit)
  {
    forall p | p in t ensures p in s {
      assert p in multiset(t) && p in multiset(s);
    }
  }

  lemma PairIsPart(s: seq<RxPacket>, p: RxPacket, q: RxPacket)
    requires p in s && q in s && p != q
    ensures multiset([p, q]) <= multiset(s) && multiset([q, p]) <= multiset(s)
  {
    assert p in multiset(s) && q in multiset(s);
  }

  lemma OnlyOtherSurvives(t: seq<RxPacket>, p: RxPacket, q: RxPacket, merit: Merit)
    requires p in t && Has(p, merit) && !Has(q, merit) && Merge(t) == [q]
    ensures !KeepsAll(t, merit)
  {
    if Represented(t, p, merit) {
      var path :| IsChain(t, path, merit) && path[0] == p && path[|path| - 1] in Merge(t);
      ChainKeeps(t, path, merit);
    }
  }

  /** Two demodulations of one frame, one with a good CRC and one without a CRC: the good one is dropped. */
  lemma GoodFrameIsDropped() returns (p: RxPacket, q: RxPacket)
    ensures p.status == 0x10 && q.status == 0x01 && IsSame(p, q)
    ensures Merge([p, q]) == [q] && !KeepsAll([p, q], GoodCrc)
  {
    p := RxPacket(1000, 0, 7, STAT_CRC_OK, [1], false, 0);
    q := p.(countUs := 1012, status := STAT_NO_CRC);
    assert Delta(1012, 1000) == 12;
    LosesGoodFrameIff(p, q);
    OnlyOtherSurvives([p, q], p, q, GoodCrc);
  }
}
