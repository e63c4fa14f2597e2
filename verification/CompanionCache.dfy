/**
 The companion delivery bookkeeping of the packet router (packet_router.py): which recipients have
 authenticated which packet and until when, and the lock entry each recipient's copies share.

 `Cache` is a value of the dictionaries; `PacketRouter` is the object that updates them.
 */
module CompanionCache {

  const TTL_SEC: real := 60.0
  const MAX_ENTRIES := 1024
  const PRUNE_ABOVE := 200

  /** A packet digest and the identity of the receiving bridge. */
  datatype Key = Key(packet: seq<int>, bridge: int)

  /** An entry of the lock dictionary is a list [lock, users]; coroutines keep a reference to it. */
  type EntryId = nat

  datatype Cache = Cache(
    delivered: map<Key, real>, results: map<Key, bool>, locks: map<Key, EntryId>, users: map<EntryId, int>,
    nextEntry: EntryId)

  /** The expired keys that no copy holds or waits for. */
  function Prunable(c: Cache, now: real): set<Key> {
    if |c.delivered| > PRUNE_ABOVE then set k | k in c.delivered && c.delivered[k] <= now && k !in c.locks else {}
  }

  /** Both dictionaries without the given keys. */
  function Without(c: Cache, ks: set<Key>): Cache {
    c.(delivered := c.delivered - ks, results := c.results - ks)
  }

  function Pruned(c: Cache, now: real): Cache {
    Without(c, Prunable(c, now))
  }

  predicate Unexpired(c: Cache, k: Key, now: real) {
    k in c.delivered && c.delivered[k] > now
  }

  function Forget(c: Cache, k: Key): Cache {
    Without(c, {k})
  }

  /** A slot for k, if one is free. */
  function Reserve(c: Cache, k: Key, now: real): Cache {
    if |c.delivered| < MAX_ENTRIES then c.(delivered := c.delivered[k := now + TTL_SEC]) else c
  }

  /** A delivery of k starts: what was known about k goes, and a slot is reserved if one is free. */
  function Started(c: Cache, k: Key, now: real): Cache {
    Reserve(Forget(c, k), k, now)
  }

  /** `_should_deliver_path_to_companions`: the answer and the cache it leaves behind. */
  function ShouldDeliver(c: Cache, k: Key, now: real): (bool, Cache) {
    var p := Pruned(c, now);
    if Unexpired(p, k, now) then (false, p)
    else (true, Started(p, k, now))
  }

  // ---- what a lookup does, by the expiry times and locks it finds

  /** The other keys that pruning leaves alone: unexpired, or with copies that hold or wait for their lock. */
  function HeldOthers(c: Cache, k: Key, now: real): set<Key> {
    set j | j in c.delivered && j != k && (c.delivered[j] > now || j in c.locks)
  }

  /** Is there room for one more answer when a delivery of k starts? */
  predicate HasRoom(c: Cache, k: Key, now: real) {
    |c.delivered| <= 200 || |HeldOthers(c, k, now)| < 1024
  }

  /** Is key j still there after a lookup of another key? */
  predicate Survives(c: Cache, j: Key, now: real) {
    j in c.delivered && (|c.delivered| <= 200 || c.delivered[j] > now || j in c.locks)
  }

  /** Of the keys other than k, exactly those that survive are left in d, with the same expiry times and results. */
  ghost predicate LeavesOthers(c: Cache, d: Cache, k: Key, now: real) {
    forall j {:trigger LeftAsFound(c, d, j, now)} | j != k :: LeftAsFound(c, d, j, now)
  }

  ghost predicate LeavesAll(c: Cache, d: Cache, now: real) {
    forall j {:trigger LeftAsFound(c, d, j, now)} :: LeftAsFound(c, d, j, now)
  }

  predicate LeftAsFound(c: Cache, d: Cache, j: Key, now: real) {
    && (j in d.delivered <==> Survives(c, j, now))
    && (j in d.delivered ==> d.delivered[j] == c.delivered[j])
    && (j in d.results <==> j in c.results && (j in c.delivered ==> Survives(c, j, now)))
    && (j in d.results ==> d.results[j] == c.results[j])
  }

  /** A lookup of k in a cache of more than 200 entries leaves, of the other keys, exactly those that are unexpired
      or locked, and leaves a smaller cache as it is; both dictionaries lose the same keys. An unexpired entry of k
      suppresses the copy and stays. Otherwise the copy delivers, k loses its result, and it gets a slot for
      60 seconds if and only if the cache had at most 200 entries or fewer than 1024 others are held. */
  lemma LookupEffect(c: Cache, k: Key, now: real)
    ensures var (deliver, d) := ShouldDeliver(c, k, now);
      && d.locks == c.locks && d.users == c.users && d.nextEntry == c.nextEntry
      && LeavesOthers(c, d, k, now)
      && (deliver <==> !(k in c.delivered && c.delivered[k] > now))
      && (!deliver ==> k in d.delivered && d.delivered[k] == c.delivered[k] && (k in d.results <==> k in c.results))
      && (deliver ==> k !in d.results && (k in d.delivered <==> HasRoom(c, k, now)))
      && (deliver && k in d.delivered ==> d.delivered[k] == now + 60.0)
  {
    PrunedLeaves(c, k, now);
    var p := Pruned(c, now);
    if Unexpired(c, k, now) {
      assert Unexpired(p, k, now);
    } else {
      RoomIff(c, k, now);
      StartedLeaves(c, p, k, now);
    }
  }

  lemma PrunedLeaves(c: Cache, j: Key, now: real)
    ensures LeftAsFound(c, Pruned(c, now), j, now) && LeavesOthers(c, Pruned(c, now), j, now)
  {
    forall i ensures LeftAsFound(c, Pruned(c, now), i, now) {
      assert i in Prunable(c, now) <==> i in c.delivered && !Survives(c, i, now);
    }
  }

  lemma PruningLeavesAll(c: Cache, now: real)
    ensures LeavesAll(c, Pruned(c, now), now)
  {
    forall j ensures LeftAsFound(c, Pruned(c, now), j, now) {
      PrunedLeaves(c, j, now);
    }
  }

  lemma StartedLeaves(c: Cache, p: Cache, k: Key, now: real)
    requires LeavesOthers(c, p, k, now)
    ensures LeavesOthers(c, Started(p, k, now), k, now)
  {
    forall j | j != k ensures LeftAsFound(c, Started(p, k, now), j, now) {
      assert LeftAsFound(c, p, j, now);
    }
  }

  lemma RoomIff(c: Cache, k: Key, now: real)
    ensures |Forget(Pruned(c, now), k).delivered| < MAX_ENTRIES <==> HasRoom(c, k, now)
  {
    var f := Forget(Pruned(c, now), k).delivered;
    if |c.delivered| > PRUNE_ABOVE {
      HeldRemain(c, k, now);
      assert |f| == |f.Keys|;
    } else {
      AtMost(f.Keys, c.delivered.Keys);
      assert |f| == |f.Keys| && |c.delivered| == |c.delivered.Keys|;
    }
  }

  lemma HeldRemain(c: Cache, k: Key, now: real)
    requires |c.delivered| > 200
    ensures Forget(Pruned(c, now), k).delivered.Keys == HeldOthers(c, k, now)
  {
    forall j ensures j in Forget(Pruned(c, now), k).delivered.Keys <==> j in HeldOthers(c, k, now) {
      PrunedLeaves(c, j, now);
    }
  }

  lemma AtMost(a: set<Key>, b: set<Key>)
    requires a <= b
    ensures |a| <= |b|
  {
    assert b == a + (b - a);
  }

  /** `setdefault` and the user count. */
  function Entered(c: Cache, k: Key): (EntryId, Cache) {
    if k in c.locks then
      var e := c.locks[k];
      (e, c.(users := c.users[e := UsersOf(c, e) + 1]))
    else
      var e := c.nextEntry;
      (e, c.(locks := c.locks[k := e], users := c.users[e := 1], nextEntry := e + 1))
  }

  function UsersOf(c: Cache, e: EntryId): int {
    if e in c.users then c.users[e] else 0
  }

  /** The `finally` block: it counts on the entry it holds and pops by key. */
  function Left(c: Cache, k: Key, e: EntryId): Cache {
    var d := c.(users := c.users[e := UsersOf(c, e) - 1]);
    if d.users[e] == 0 then d.(locks := d.locks - {k}) else d
  }

  /** What the holder stores when the recipient has answered. */
  function Settled(c: Cache, k: Key, authenticated: bool, now: real): Cache {
    if authenticated && k in c.delivered
    then c.(results := c.results[k := true], delivered := c.delivered[k := now + TTL_SEC])
    else Forget(c, k)
  }

  lemma WithoutOneMore(c: Cache, all: set<Key>, left: set<Key>, x: Key)
    requires x in left && left <= all
    ensures Forget(Without(c, all - left), x) == Without(c, all - (left - {x}))
  {
    assert all - (left - {x}) == (all - left) + {x};
  }

  lemma WithoutNone(c: Cache, all: set<Key>)
    ensures Without(c, all - all) == c && Without(c, all - {}) == Without(c, all)
  {
    assert all - {} == all && all - all == {};
  }

  class PacketRouter {
    var delivered: map<Key, real>
    var results: map<Key, bool>
    var locks: map<Key, EntryId>
    var users: map<EntryId, int>
    var nextEntry: EntryId

    function View(): Cache
      reads this
    {
      Cache(delivered, results, locks, users, nextEntry)
    }

    constructor ()
      ensures View() == Cache(map[], map[], map[], map[], 0)
    {
      delivered, results, locks, users, nextEntry := map[], map[], map[], map[], 0;
    }

    /** Keep small caches cheap, but never prune a recipient whose copies still use its lock. */
    method Prune(now: real)
      modifies this
      ensures View() == Pruned(old(View()), now)
      ensures LeavesAll(old(View()), View(), now)
    {
      PruningLeavesAll(View(), now);
      if |delivered| > PRUNE_ABOVE {
        var expired := set x | x in delivered && delivered[x] <= now && x !in locks;
        ghost var all := expired;
        WithoutNone(View(), all);
        while expired != {}
          invariant expired <= all
          invariant View() == Without(old(View()), all - expired)
          decreases expired
        {
          var x :| x in expired;
          WithoutOneMore(old(View()), all, expired, x);
          delivered, results, expired := delivered - {x}, results - {x}, expired - {x};
        }
      } else {
        WithoutNone(View(), {});
      }
    }

    /** `_should_deliver_path_to_companions` */
    method ShouldDeliverPath(k: Key, now: real) returns (deliver: bool)
      modifies this
      ensures (deliver, View()) == ShouldDeliver(old(View()), k, now)
      ensures deliver <==> !(k in old(delivered) && old(delivered)[k] > now)
      ensures LeavesOthers(old(View()), View(), k, now)
      ensures deliver ==> k !in results && (k in delivered <==> HasRoom(old(View()), k, now))
      ensures deliver && k in delivered ==> delivered[k] == now + 60.0
    {
      LookupEffect(View(), k, now);
      Prune(now);
      if k in delivered && delivered[k] > now {
        return false;
      }
      ghost var p := View();
      delivered, results := delivered - {k}, results - {k};
      assert View() == Forget(p, k);
      if |delivered| < MAX_ENTRIES {
        delivered := delivered[k := now + TTL_SEC];
      }
      deliver := true;
    }

    method Enter(k: Key) returns (e: EntryId)
      modifies this
      ensures (e, View()) == Entered(old(View()), k)
    {
      if k !in locks {
        locks, users := locks[k := nextEntry], users[nextEntry := 0];
        nextEntry := nextEntry + 1;
        assert users[locks[k] := 1] == old(users)[locks[k] := 1];
      }
      e := locks[k];
      users := users[e := (if e in users then users[e] else 0) + 1];
    }

    method Leave(k: Key, e: EntryId)
      modifies this
      ensures View() == Left(old(View()), k, e)
    {
      users := users[e := (if e in users then users[e] else 0) - 1];
      if users[e] == 0 {
        locks := locks - {k};
      }
    }

    method Settle(k: Key, authenticated: bool, now: real)
      modifies this
      ensures View() == Settled(old(View()), k, authenticated, now)
    {
      if authenticated && k in delivered {
        results := results[k := true];
        delivered := delivered[k := now + TTL_SEC];
      } else {
        delivered, results := delivered - {k}, results - {k};
      }
    }
  }
}
