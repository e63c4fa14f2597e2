/**
 What a node relays over a whole run: received packets going through `process_packet`, mixed with every
 other call on the duplicate cache (own transmissions being marked, lookups elsewhere, the cleanup timer).
 */
module RelayRuns {
  import opened Wrappers
  import opened MeshPacket
  import opened RelayRules
  import opened RelaySends
  import opened SeenPackets
  import Repeater

  /** Settings, policy verdict and delay are those of the moment of the call; `sent` is its result. */
  datatype Call =
    | Process(node: Node, packet: Packet, repeats: bool, policyDrops: bool, codesAllowed: bool, txDelayMs: real,
        now: real, sent: bool)
    | Other(event: Event)
  {
    function At(): real { if Process? then now else event.at }

    function Key(): Key
      requires Process?
    {
      ProcessKey(packet)
    }

    function Decision(duplicate: bool): Result<Sent, RelayRules.Drop>
      requires Process?
    {
      ProcessDecision(node, packet, repeats, policyDrops, codesAllowed, duplicate, txDelayMs)
    }

    /** Does the packet pass every check but that for duplicates? */
    predicate Sendable()
      requires Process?
    {
      MaySend(node, packet, repeats, policyDrops, codesAllowed, false)
    }

    /** The key that the call marks: that of a packet it sends on, or of an own transmission. */
    function MarkOf(): Option<Key> {
      if Other? then (if event.Mark? then Some(event.key) else None)
      else if sent then Some(Key()) else None
    }

    predicate Refused()
      requires Process?
    {
      RefusedUnseen(node, packet, repeats, policyDrops, codesAllowed)
    }

    /** Its calls on the cache. */
    function Events(): seq<Event> {
      if Other? then [event] else Repeater.CacheCalls(!sent && Refused(), sent, Key(), now)
    }
  }

  /** The answer of the cache that the calls `h` have left. */
  predicate IsSeen(h: seq<Event>, k: Key, now: real, ttl: real, max: int) {
    k in Keys(Expired(Run(h, ttl, max), now - ttl))
  }

  /** The calls on the cache in the first n calls of the run. */
  function History(run: seq<Call>, n: nat): seq<Event>
    requires n <= |run|
  {
    if n == 0 then [] else History(run, n - 1) + run[n - 1].Events()
  }

  predicate SeenAt(run: seq<Call>, n: nat, ttl: real, max: int)
    requires n < |run| && run[n].Process?
  {
    IsSeen(History(run, n), run[n].Key(), run[n].now, ttl, max)
  }

  /** Call n sends its packet on exactly if `process_packet` decides so, given the answer of the cache. */
  predicate Follows(run: seq<Call>, n: nat, ttl: real, max: int)
    requires n < |run|
  {
    run[n].Process? ==> run[n].sent == run[n].Decision(SeenAt(run, n, ttl, max)).Success?
  }

  /** A run: the clock never goes back and every result is that of the code. */
  ghost predicate IsRun(run: seq<Call>, ttl: real, max: int) {
    InOrder(run) && forall n: nat | n < |run| :: Follows(run, n, ttl, max)
  }

  predicate InOrder(run: seq<Call>) {
    forall i, j :: 0 <= i < j < |run| ==> run[i].At() <= run[j].At()
  }

  /** The keys marked by the calls from i up to n. */
  function MarkedBetween(run: seq<Call>, i: nat, n: nat): set<Key>
    requires i <= n <= |run|
    decreases n
  {
    if n == i then {}
    else if run[n - 1].MarkOf().Some? then MarkedBetween(run, i, n - 1) + {run[n - 1].MarkOf().value}
    else MarkedBetween(run, i, n - 1)
  }

  // ---------------------------------------------------------------- main results

  /** No packet is relayed twice: after a call that marked a key, by relaying it or by sending it first, a
      packet with that key is relayed only when more than the TTL has passed or `max` other keys came by. */
  lemma {:induction false} NoSecondRelay(run: seq<Call>, i: nat, j: nat, ttl: real, max: int)
    requires IsRun(run, ttl, max) && i < j < |run|
    requires run[j].Process? && run[j].sent && run[i].MarkOf() == Some(run[j].Key())
    ensures run[j].At() - run[i].At() > ttl || |MarkedBetween(run, i + 1, j) - {run[j].Key()}| >= max
    decreases j - i
  {
    var k := run[j].Key();
    if k in MarkedBetween(run, i + 1, j) {
      var m := MarkerOf(run, i + 1, j, k);
      NoSecondRelay(run, m, j, ttl, max);
      MarkedShrinks(run, i + 1, m + 1, j);
      SubsetCount(MarkedBetween(run, m + 1, j) - {k}, MarkedBetween(run, i + 1, j) - {k});
    } else {
      SentIsUnseen(run, j, ttl, max);
      SeenIff(run, i, j, ttl, max);
      assert MarkedBetween(run, i + 1, j) - {k} == MarkedBetween(run, i + 1, j);
    }
  }

  /** Exactly when: a packet that passes every other check is relayed again if and only if, since the last
      call that marked its key, more than the TTL has passed or `max` other keys were marked. */
  lemma RelayedAgainIff(run: seq<Call>, i: nat, j: nat, ttl: real, max: int)
    requires IsRun(run, ttl, max) && i < j < |run|
    requires run[j].Process? && run[j].Sendable()
    requires run[i].MarkOf() == Some(run[j].Key()) && run[j].Key() !in MarkedBetween(run, i + 1, j)
    ensures run[j].sent <==> run[j].At() - run[i].At() > ttl || |MarkedBetween(run, i + 1, j)| >= max
  {
    SentIffUnseen(run, j, ttl, max);
    SeenIff(run, i, j, ttl, max);
  }

  /** The first copy is never mistaken for a duplicate. */
  lemma FirstCopyIsRelayed(run: seq<Call>, j: nat, ttl: real, max: int)
    requires IsRun(run, ttl, max) && j < |run|
    requires run[j].Process? && run[j].Sendable()
    requires run[j].Key() !in MarkedBetween(run, 0, j)
    ensures run[j].sent
  {
    NeverMarked(run, j, run[j].Key());
    HistoryInOrder(run, j, run[j].At());
    UnmarkedIsUnseen(History(run, j), run[j].Key(), run[j].now, ttl, max);
    SentIffUnseen(run, j, ttl, max);
  }

  // ---------------------------------------------------------------- the decision and the cache

  /** The calls on the cache are those that `RepeaterHandler.ProcessPacket` makes. */
  lemma EventsAreProcessPackets(run: seq<Call>, n: nat, ttl: real, max: int)
    requires n < |run| && run[n].Process? && Follows(run, n, ttl, max)
    ensures run[n].Events() == Repeater.CacheCalls(run[n].Refused(), run[n].sent, run[n].Key(), run[n].now)
  {
    var c := run[n];
    DuplicateIsNotSent(c.node, c.packet, c.repeats, c.policyDrops, c.codesAllowed, c.txDelayMs);
  }

  lemma SentIsUnseen(run: seq<Call>, j: nat, ttl: real, max: int)
    requires j < |run| && run[j].Process? && run[j].sent && Follows(run, j, ttl, max)
    ensures !SeenAt(run, j, ttl, max)
  {
    var c := run[j];
    DuplicateIsNotSent(c.node, c.packet, c.repeats, c.policyDrops, c.codesAllowed, c.txDelayMs);
  }

  lemma SentIffUnseen(run: seq<Call>, j: nat, ttl: real, max: int)
    requires j < |run| && run[j].Process? && run[j].Sendable() && Follows(run, j, ttl, max)
    ensures run[j].sent <==> !SeenAt(run, j, ttl, max)
  {
    var c := run[j];
    SentIff(c.node, c.packet, c.repeats, c.policyDrops, c.codesAllowed, false, c.txDelayMs);
    DuplicateIsNotSent(c.node, c.packet, c.repeats, c.policyDrops, c.codesAllowed, c.txDelayMs);
  }

  lemma SeenByHistory(h: seq<Event>, k: Key, last: real, others: set<Key>, now: real, ttl: real, max: int)
    requires ClockUpTo(h, now) && LastMark(h, k) == Some(last) && OthersSince(h, k) == others
    ensures IsSeen(h, k, now, ttl, max) <==> now - last <= ttl && |others| < max
  {
    LookupMeetsHistory(h, k, now, ttl, max);
  }

  lemma UnmarkedIsUnseen(h: seq<Event>, k: Key, now: real, ttl: real, max: int)
    requires ClockUpTo(h, now) && LastMark(h, k) == None
    ensures !IsSeen(h, k, now, ttl, max)
  {
    LookupMeetsHistory(h, k, now, ttl, max);
  }

  /** The cache's own answer about a key with last marker i. */
  lemma SeenIff(run: seq<Call>, i: nat, j: nat, ttl: real, max: int)
    requires InOrder(run) && i < j < |run| && run[j].Process?
    requires run[i].MarkOf() == Some(run[j].Key()) && run[j].Key() !in MarkedBetween(run, i + 1, j)
    ensures SeenAt(run, j, ttl, max) <==> run[j].At() - run[i].At() <= ttl && |MarkedBetween(run, i + 1, j)| < max
  {
    MarkedSince(run, i, j, run[j].Key());
    HistoryInOrder(run, j, run[j].At());
    SeenByHistory(History(run, j), run[j].Key(), run[i].At(), MarkedBetween(run, i + 1, j), run[j].now, ttl, max);
  }

  // ---------------------------------------------------------------- marks over a run

  lemma LookAndMark(h: seq<Event>, marked: Key, now: real, k: Key)
    ensures h + [] == h
    ensures LastMark(h + [Look(now)], k) == LastMark(h, k) && OthersSince(h + [Look(now)], k) == OthersSince(h, k)
    ensures LastMark(h + [Look(now), Mark(marked, now)], k) == if marked == k then Some(now) else LastMark(h, k)
    ensures OthersSince(h + [Look(now), Mark(marked, now)], k) == if marked == k then {}
      else OthersSince(h, k) + {marked}
  {
    var g := h + [Look(now)];
    assert h + [Look(now), Mark(marked, now)] == g + [Mark(marked, now)];
    HistoryGrows(h, Look(now), k);
    HistoryGrows(g, Mark(marked, now), k);
  }

  /** What one call does to the last mark of a key and to the keys marked since. */
  lemma CallMarks(c: Call, h: seq<Event>, k: Key)
    ensures var h', m := h + c.Events(), c.MarkOf();
      && (m.None? ==> LastMark(h', k) == LastMark(h, k) && OthersSince(h', k) == OthersSince(h, k))
      && (m == Some(k) ==> LastMark(h', k) == Some(c.At()) && OthersSince(h', k) == {})
      && (m.Some? && m != Some(k) ==>
            LastMark(h', k) == LastMark(h, k) && OthersSince(h', k) == OthersSince(h, k) + {m.value})
  {
    if c.Other? {
      HistoryGrows(h, c.event, k);
    } else {
      LookAndMark(h, c.Key(), c.now, k);
    }
  }

  /** After its last marker i, the history shows a key with the time of i and what was marked since. */
  lemma {:induction false} MarkedSince(run: seq<Call>, i: nat, n: nat, k: Key)
    requires i < n <= |run| && run[i].MarkOf() == Some(k) && k !in MarkedBetween(run, i + 1, n)
    ensures LastMark(History(run, n), k) == Some(run[i].At())
    ensures OthersSince(History(run, n), k) == MarkedBetween(run, i + 1, n)
    decreases n
  {
    CallMarks(run[n - 1], History(run, n - 1), k);
    if n > i + 1 {
      MarkedSince(run, i, n - 1, k);
    }
  }

  lemma {:induction false} NeverMarked(run: seq<Call>, n: nat, k: Key)
    requires n <= |run| && k !in MarkedBetween(run, 0, n)
    ensures LastMark(History(run, n), k) == None
  {
    if n > 0 {
      CallMarks(run[n - 1], History(run, n - 1), k);
      NeverMarked(run, n - 1, k);
    }
  }

  lemma {:induction false} MarkerOf(run: seq<Call>, i: nat, n: nat, k: Key) returns (m: nat)
    requires i <= n <= |run| && k in MarkedBetween(run, i, n)
    ensures i <= m < n && run[m].MarkOf() == Some(k)
    decreases n
  {
    m := n - 1;
    if run[n - 1].MarkOf() != Some(k) {
      m := MarkerOf(run, i, n - 1, k);
    }
  }

  lemma {:induction false} MarkedShrinks(run: seq<Call>, i: nat, i': nat, n: nat)
    requires i <= i' <= n <= |run|
    ensures MarkedBetween(run, i', n) <= MarkedBetween(run, i, n)
    decreases n
  {
    if n > i' {
      MarkedShrinks(run, i, i', n - 1);
    }
  }

  /** The calls on the cache never go back in time. */
  lemma {:induction false} HistoryInOrder(run: seq<Call>, n: nat, now: real)
    requires InOrder(run) && n <= |run| && (n > 0 ==> run[n - 1].At() <= now)
    ensures ClockUpTo(History(run, n), now)
  {
    if n > 0 {
      HistoryInOrder(run, n - 1, run[n - 1].At());
      CallInOrder(History(run, n - 1), run[n - 1], now);
    }
  }

  lemma CallInOrder(h: seq<Event>, c: Call, now: real)
    requires ClockUpTo(h, c.At()) && c.At() <= now
    ensures ClockUpTo(h + c.Events(), now)
  {
    if c.Other? {
      ClockGrows(h, c.event, now);
    } else {
      ClockGrows(h, Look(c.now), now);
      ClockGrows(h, Look(c.now), c.now);
      ClockGrows(h + [Look(c.now)], Mark(c.Key(), c.now), now);
      assert h + [Look(c.now), Mark(c.Key(), c.now)] == (h + [Look(c.now)]) + [Mark(c.Key(), c.now)];
      assert h + [] == h;
    }
  }

  lemma ClockGrows(h: seq<Event>, e: Event, now: real)
    requires ClockUpTo(h, e.at) && e.at <= now
    ensures ClockUpTo(h + [e], now)
  {
    assert (h + [e])[..|h|] == h;
  }
}
