/**
 The duplicate cache of the repeater engine (engine.py): an insertion-ordered dictionary from seen key
 to time, expired from its old end and capped by evicting its oldest entry.

 The specification is the whole history of calls: a key counts as seen when its last mark is no older
 than the TTL and fewer than `max` other distinct keys have been marked since.
 */
module SeenPackets {
  import opened Wrappers

  /** A seen key is a digest; it is modelled by the bytes it digests, so keys collide only when those agree. */
  type Key = seq<int>

  datatype Entry = Entry(key: Key, stamp: real)

  /** One call on the cache, with the clock it read. */
  datatype Event = Mark(key: Key, at: real) | Look(at: real) | Cleanup(at: real)

  function Keys(c: seq<Entry>): set<Key> {
    if c == [] then {} else {c[0].key} + Keys(c[1..])
  }

  function Drop(c: seq<Entry>, k: Key): (r: seq<Entry>) {
    if c == [] then [] else if c[0].key == k then c[1..] else [c[0]] + Drop(c[1..], k)
  }

  /** `mark_seen`: assign, move to the end, evict the oldest entry when over capacity. */
  function Marked(c: seq<Entry>, k: Key, at: real, max: int): seq<Entry> {
    var touched := Drop(c, k) + [Entry(k, at)];
    if |touched| > max then touched[1..] else touched
  }

  /** `_evict_expired`: the old end of the cache up to the first entry that is not expired. */
  function Expired(c: seq<Entry>, cutoff: real): seq<Entry> {
    if c != [] && c[0].stamp < cutoff then Expired(c[1..], cutoff) else c
  }

  /** `cleanup_cache`: every expired entry, wherever it is. */
  function Cleaned(c: seq<Entry>, now: real, ttl: real): seq<Entry> {
    if c == [] then []
    else (if now - c[0].stamp > ttl then [] else [c[0]]) + Cleaned(c[1..], now, ttl)
  }

  function Step(c: seq<Entry>, e: Event, ttl: real, max: int): seq<Entry> {
    match e
    case Mark(k, at) => Marked(c, k, at, max)
    case Look(at) => Expired(c, at - ttl)
    case Cleanup(at) => Cleaned(c, at, ttl)
  }

  /** The cache after a history of calls. */
  function Run(h: seq<Event>, ttl: real, max: int): seq<Entry> {
    if h == [] then [] else Step(Run(h[..|h| - 1], ttl, max), h[|h| - 1], ttl, max)
  }

  // ---------------------------------------------------------------- the history specification

  function LastMark(h: seq<Event>, k: Key): Option<real> {
    if h == [] then None
    else if h[|h| - 1].Mark? && h[|h| - 1].key == k then Some(h[|h| - 1].at)
    else LastMark(h[..|h| - 1], k)
  }

  /** The distinct other keys marked since the last mark of k. */
  function OthersSince(h: seq<Event>, k: Key): set<Key> {
    if h == [] then {}
    else if !h[|h| - 1].Mark? then OthersSince(h[..|h| - 1], k)
    else if h[|h| - 1].key == k then {}
    else OthersSince(h[..|h| - 1], k) + {h[|h| - 1].key}
  }

  predicate WithinWindow(h: seq<Event>, k: Key, now: real, ttl: real, max: int) {
    LastMark(h, k).Some? && LastMark(h, k).value >= now - ttl && |OthersSince(h, k)| < max
  }

  /** The clock never goes back, and `now` is not before the last call. */
  predicate ClockUpTo(h: seq<Event>, now: real) {
    h == [] || (h[|h| - 1].at <= now && ClockUpTo(h[..|h| - 1], h[|h| - 1].at))
  }

  /** One more call. */
  lemma HistoryStep(h: seq<Event>, e: Event, ttl: real, max: int)
    ensures Run(h + [e], ttl, max) == Step(Run(h, ttl, max), e, ttl, max)
    ensures ClockUpTo(h, e.at) ==> ClockUpTo(h + [e], e.at)
  {
    assert (h + [e])[..|h|] == h;
  }

  // ---------------------------------------------------------------- the cache object

  class SeenCache {
    var entries: seq<Entry>
    const cacheTtl: real
    const maxCacheSize: int
    ghost var history: seq<Event>

    ghost predicate Valid()
      reads this
    {
      entries == Run(history, cacheTtl, maxCacheSize)
    }

    constructor (ttl: real, max: int)
      ensures Valid() && history == [] && cacheTtl == ttl && maxCacheSize == max
    {
      entries, history := [], [];
      cacheTtl, maxCacheSize := ttl, max;
    }

    method EvictExpired(now: real)
      modifies `entries
      ensures entries == Expired(old(entries), now - cacheTtl)
    {
      var cutoff := now - cacheTtl;
      while entries != [] && entries[0].stamp < cutoff
        invariant Expired(entries, cutoff) == Expired(old(entries), cutoff)
        decreases |entries|
      {
        entries := entries[1..];
      }
    }

    /** Take a key out of the dictionary, keeping the order of the others. */
    method Remove(k: Key)
      modifies `entries
      ensures entries == Drop(old(entries), k)
    {
      var i := 0;
      while i < |entries| && entries[i].key != k
        invariant i <= |entries|
        invariant entries[..i] + Drop(entries[i..], k) == Drop(entries, k)
      {
        assert entries[..i + 1] == entries[..i] + [entries[i]];
        i := i + 1;
      }
      if i < |entries| {
        entries := entries[..i] + entries[i + 1..];
      }
    }

    /** `is_duplicate`: the answer of the history specification. */
    method IsDuplicate(k: Key, now: real) returns (dup: bool)
      requires Valid() && ClockUpTo(history, now)
      modifies this
      ensures Valid() && history == old(history) + [Look(now)] && ClockUpTo(history, now)
      ensures dup <==> WithinWindow(old(history), k, now, cacheTtl, maxCacheSize)
    {
      LookupMeetsHistory(history, k, now, cacheTtl, maxCacheSize);
      EvictExpired(now);
      HistoryStep(history, Look(now), cacheTtl, maxCacheSize);
      history := history + [Look(now)];
      var i := 0;
      while i < |entries| && entries[i].key != k
        invariant i <= |entries|
        invariant k in Keys(entries) <==> k in Keys(entries[i..])
      {
        i := i + 1;
      }
      dup := i < |entries|;
    }

    method MarkSeen(k: Key, now: real)
      requires Valid() && ClockUpTo(history, now)
      modifies this
      ensures Valid() && history == old(history) + [Mark(k, now)] && ClockUpTo(history, now)
    {
      Remove(k);
      entries := entries + [Entry(k, now)];
      if |entries| > maxCacheSize {
        entries := entries[1..];
      }
      HistoryStep(history, Mark(k, now), cacheTtl, maxCacheSize);
      history := history + [Mark(k, now)];
    }

    method CleanupCache(now: real)
      requires Valid() && ClockUpTo(history, now)
      modifies this
      ensures Valid() && history == old(history) + [Cleanup(now)] && ClockUpTo(history, now)
    {
      var kept: seq<Entry> := [];
      for i := 0 to |entries|
        invariant kept + Cleaned(entries[i..], now, cacheTtl) == Cleaned(entries, now, cacheTtl)
      {
        if !(now - entries[i].stamp > cacheTtl) {
          kept := kept + [entries[i]];
        }
      }
      entries := kept;
      HistoryStep(history, Cleanup(now), cacheTtl, maxCacheSize);
      history := history + [Cleanup(now)];
    }
  }

  // ---------------------------------------------------------------- invariants of a run

  /** Every entry carries its last mark; the entries behind it are exactly the keys marked since, and newer. */
  predicate Explained(c: seq<Entry>, h: seq<Event>) {
    c == [] || (
      && LastMark(h, c[0].key) == Some(c[0].stamp)
      && c[0].key !in Keys(c[1..])
      && Keys(c[1..]) == OthersSince(h, c[0].key)
      && (|c| > 1 ==> c[0].stamp <= c[1].stamp)
      && Explained(c[1..], h))
  }

  predicate StampedUpTo(c: seq<Entry>, now: real) {
    c == [] || (c[0].stamp <= now && StampedUpTo(c[1..], now))
  }

  /** A marked key that is absent was overtaken by `max` others or is older than the TTL. */
  ghost predicate Complete(c: seq<Entry>, h: seq<Event>, now: real, ttl: real, max: int) {
    forall k | LastMark(h, k).Some? && k !in Keys(c) :: Forgotten(h, k, now, ttl, max)
  }

  predicate Forgotten(h: seq<Event>, k: Key, now: real, ttl: real, max: int) {
    |OthersSince(h, k)| >= max || (LastMark(h, k).Some? && LastMark(h, k).value < now - ttl)
  }

  ghost predicate Inv(c: seq<Entry>, h: seq<Event>, now: real, ttl: real, max: int) {
    Explained(c, h) && StampedUpTo(c, now) && (|c| <= max || c == []) && Complete(c, h, now, ttl, max)
  }

  // ---------------------------------------------------------------- what every run keeps

  /** The main result: after any run, a lookup answers what the whole history says. */
  lemma LookupMeetsHistory(h: seq<Event>, k: Key, now: real, ttl: real, max: int)
    requires ClockUpTo(h, now)
    ensures k in Keys(Expired(Run(h, ttl, max), now - ttl)) <==> WithinWindow(h, k, now, ttl, max)
    ensures |Run(h, ttl, max)| <= if max > 0 then max else 0
  {
    var c := Run(h, ttl, max);
    RunKeepsInv(h, now, ttl, max);
    ExpiredKeys(c, h, now, now - ttl);
    if k in Keys(c) {
      EntryOf(c, h, k);
    }
  }

  /** Every run keeps the invariant. */
  lemma {:induction false} RunKeepsInv(h: seq<Event>, now: real, ttl: real, max: int)
    requires ClockUpTo(h, now)
    ensures Inv(Run(h, ttl, max), h, now, ttl, max)
    decreases |h|
  {
    if h != [] {
      var g, e := h[..|h| - 1], h[|h| - 1];
      RunKeepsInv(g, e.at, ttl, max);
      var c := Run(g, ttl, max);
      StepKeepsInv(c, g, e, ttl, max);
      assert h == g + [e];
      StampLater(Step(c, e, ttl, max), e.at, now);
    }
  }

  lemma StepKeepsInv(c: seq<Entry>, h: seq<Event>, e: Event, ttl: real, max: int)
    requires Inv(c, h, e.at, ttl, max)
    ensures Inv(Step(c, e, ttl, max), h + [e], e.at, ttl, max)
  {
    match e {
      case Mark(k, at) => MarkKeepsInv(c, h, at, k, at, ttl, max);
      case Look(at) => ExpireKeepsInv(c, h, at, e, ttl, max);
      case Cleanup(at) =>
        CleanupIsExpiry(c, h, at, ttl);
        ExpireKeepsInv(c, h, at, e, ttl, max);
    }
  }

  // ---------------------------------------------------------------- each step

  lemma HistoryGrows(h: seq<Event>, e: Event, k: Key)
    ensures (h + [e])[..|h|] == h
    ensures !e.Mark? ==> LastMark(h + [e], k) == LastMark(h, k) && OthersSince(h + [e], k) == OthersSince(h, k)
    ensures e == Mark(k, e.at) ==> LastMark(h + [e], k) == Some(e.at) && OthersSince(h + [e], k) == {}
    ensures e.Mark? && e.key != k ==>
      LastMark(h + [e], k) == LastMark(h, k) && OthersSince(h + [e], k) == OthersSince(h, k) + {e.key}
  {
    assert (h + [e])[..|h|] == h;
  }

  lemma {:induction false} KeysAppend(c: seq<Entry>, e: Entry)
    ensures Keys(c + [e]) == Keys(c) + {e.key}
  {
    if c == [] {
      assert c + [e] == [e];
    } else {
      assert (c + [e])[1..] == c[1..] + [e];
      KeysAppend(c[1..], e);
    }
  }

  lemma {:induction false} KeysDrop(c: seq<Entry>, k: Key, h: seq<Event>)
    requires Explained(c, h)
    ensures Keys(Drop(c, k)) == Keys(c) - {k} && |c| - 1 <= |Drop(c, k)| <= |c|
  {
    if c != [] && c[0].key != k {
      KeysDrop(c[1..], k, h);
      assert ([c[0]] + Drop(c[1..], k))[1..] == Drop(c[1..], k);
    }
  }

  lemma {:induction false} KeysCount(c: seq<Entry>, h: seq<Event>)
    requires Explained(c, h)
    ensures |Keys(c)| == |c|
  {
    if c != [] {
      KeysCount(c[1..], h);
    }
  }

  /** Marking an absent key: every entry gains exactly that key behind it. */
  lemma {:induction false} AppendExplained(c: seq<Entry>, h: seq<Event>, k: Key, at: real)
    requires Explained(c, h) && StampedUpTo(c, at) && k !in Keys(c)
    ensures Explained(c + [Entry(k, at)], h + [Mark(k, at)]) && StampedUpTo(c + [Entry(k, at)], at)
  {
    HistoryGrows(h, Mark(k, at), k);
    var t := c + [Entry(k, at)];
    if c == [] {
      assert t[1..] == [];
    } else {
      assert t[1..] == c[1..] + [Entry(k, at)];
      AppendExplained(c[1..], h, k, at);
      KeysAppend(c[1..], Entry(k, at));
      HistoryGrows(h, Mark(k, at), c[0].key);
    }
  }

  /** Re-marking a key moves it behind all the others. */
  lemma {:induction false} TouchExplained(c: seq<Entry>, h: seq<Event>, k: Key, at: real)
    requires Explained(c, h) && StampedUpTo(c, at)
    ensures Explained(Drop(c, k) + [Entry(k, at)], h + [Mark(k, at)]) && StampedUpTo(Drop(c, k) + [Entry(k, at)], at)
  {
    if c == [] || c[0].key == k {
      AppendExplained(Drop(c, k), h, k, at);
    } else {
      var d := Drop(c[1..], k) + [Entry(k, at)];
      var t := Drop(c, k) + [Entry(k, at)];
      assert t[0] == c[0] && t[1..] == d;
      TouchExplained(c[1..], h, k, at);
      KeysBehind(c, h, k, at);
      NextStamp(c, h, k, at);
    }
  }

  /** An entry that is not touched has the touched key behind it, and the others as before. */
  lemma KeysBehind(c: seq<Entry>, h: seq<Event>, k: Key, at: real)
    requires Explained(c, h) && c != [] && c[0].key != k
    ensures var d, h' := Drop(c[1..], k) + [Entry(k, at)], h + [Mark(k, at)];
      && LastMark(h', c[0].key) == Some(c[0].stamp)
      && c[0].key !in Keys(d) && Keys(d) == OthersSince(h', c[0].key)
  {
    KeysDrop(c[1..], k, h);
    KeysAppend(Drop(c[1..], k), Entry(k, at));
    HistoryGrows(h, Mark(k, at), c[0].key);
  }

  /** What follows the first entry is never older than it. */
  lemma NextStamp(c: seq<Entry>, h: seq<Event>, k: Key, at: real)
    requires Explained(c, h) && StampedUpTo(c, at) && c != []
    ensures var t := Drop(c[1..], k) + [Entry(k, at)]; c[0].stamp <= t[0].stamp
  {
    var r := c[1..];
    if r != [] && r[0].key == k && |r| > 1 {
      assert c[0].stamp <= r[0].stamp <= r[1].stamp;
      assert Drop(r, k)[0] == r[1];
    } else if r != [] && r[0].key != k {
      assert Drop(r, k)[0] == r[0];
    }
  }

  lemma MarkKeepsInv(c: seq<Entry>, h: seq<Event>, now: real, k: Key, at: real, ttl: real, max: int)
    requires Inv(c, h, now, ttl, max) && now <= at
    ensures Inv(Marked(c, k, at, max), h + [Mark(k, at)], at, ttl, max)
  {
    var t, h' := Drop(c, k) + [Entry(k, at)], h + [Mark(k, at)];
    var c' := Marked(c, k, at, max);
    StampLater(c, now, at);
    TouchExplained(c, h, k, at);
    KeysDrop(c, k, h);
    KeysAppend(Drop(c, k), Entry(k, at));
    forall j | LastMark(h', j).Some? && j !in Keys(c')
      ensures Forgotten(h', j, at, ttl, max)
    {
      HistoryGrows(h, Mark(k, at), j);
      if j in Keys(t) {
        // the evicted oldest entry: everything behind it was marked since
        KeysCount(t[1..], h');
      } else {
        SubsetCount(OthersSince(h, j), OthersSince(h', j));
      }
    }
  }

  lemma {:induction false} StampLater(c: seq<Entry>, now: real, at: real)
    requires StampedUpTo(c, now) && now <= at
    ensures StampedUpTo(c, at)
  {
    if c != [] {
      StampLater(c[1..], now, at);
    }
  }

  lemma SubsetCount(a: set<Key>, b: set<Key>)
    requires a <= b
    ensures |a| <= |b|
  {
    assert b == a + (b - a);
  }

  /** Expiry keeps exactly the entries that are not expired. */
  lemma {:induction false} ExpiredKeys(c: seq<Entry>, h: seq<Event>, now: real, cutoff: real)
    requires Explained(c, h) && StampedUpTo(c, now)
    ensures var d := Expired(c, cutoff); Explained(d, h) && StampedUpTo(d, now) && |d| <= |c|
    ensures forall k ::
      k in Keys(Expired(c, cutoff)) <==> k in Keys(c) && LastMark(h, k).Some? && LastMark(h, k).value >= cutoff
  {
    if c != [] {
      if c[0].stamp < cutoff {
        ExpiredKeys(c[1..], h, now, cutoff);
      } else {
        forall k | k in Keys(c) ensures LastMark(h, k).Some? && LastMark(h, k).value >= cutoff {
          EntryOf(c, h, k);
        }
      }
    }
  }

  /** A cached key carries a mark no older than the oldest entry, with fewer others since than entries. */
  lemma {:induction false} EntryOf(c: seq<Entry>, h: seq<Event>, k: Key)
    requires Explained(c, h) && k in Keys(c)
    ensures LastMark(h, k).Some? && LastMark(h, k).value >= c[0].stamp && |OthersSince(h, k)| < |c|
  {
    if c[0].key == k {
      KeysCount(c[1..], h);
    } else {
      EntryOf(c[1..], h, k);
    }
  }

  /** The full sweep and the prefix expiry remove the same entries of a cache that a run can reach. */
  lemma {:induction false} CleanupIsExpiry(c: seq<Entry>, h: seq<Event>, now: real, ttl: real)
    requires Explained(c, h)
    ensures Cleaned(c, now, ttl) == Expired(c, now - ttl)
  {
    if c != [] {
      CleanupIsExpiry(c[1..], h, now, ttl);
    }
  }

  lemma ExpireKeepsInv(c: seq<Entry>, h: seq<Event>, now: real, e: Event, ttl: real, max: int)
    requires Inv(c, h, now, ttl, max) && now <= e.at && !e.Mark?
    ensures Inv(Expired(c, e.at - ttl), h + [e], e.at, ttl, max)
  {
    var d := Expired(c, e.at - ttl);
    ExpiredKeys(c, h, now, e.at - ttl);
    StampLater(d, now, e.at);
    SameExplained(d, h, e);
    forall j | LastMark(h + [e], j).Some? && j !in Keys(d)
      ensures Forgotten(h + [e], j, e.at, ttl, max)
    {
      HistoryGrows(h, e, j);
    }
  }

  lemma {:induction false} SameExplained(c: seq<Entry>, h: seq<Event>, e: Event)
    requires Explained(c, h) && !e.Mark?
    ensures Explained(c, h + [e])
  {
    if c != [] {
      HistoryGrows(h, e, c[0].key);
      SameExplained(c[1..], h, e);
    }
  }
}
