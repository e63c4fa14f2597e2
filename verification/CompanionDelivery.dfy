/**
 Concurrent delivery of one packet to one bridge (`_deliver_path_to_bridge` in packet_router.py).

 Every copy of a packet is a coroutine. Between two awaits a coroutine runs without interruption, so a run
 of the system is a sequence of such steps, in any order, mixed with cancellations and the passing of time.
 What the bridge answers is chosen by the step. Here every step is shown to keep the invariant.
 */
module CompanionDelivery {
  import opened CompanionCache

  datatype Phase =
    | Waiting(key: Key, entry: EntryId)
    | Delivering(key: Key, entry: EntryId, cancelled: bool, reserved: bool)

  datatype Outcome = Authenticated | NotOwned | Raised

  /** `holder` says which coroutine has acquired the lock of an entry. */
  datatype System = System(now: real, cache: Cache, tasks: map<nat, Phase>, holder: map<EntryId, nat>)

  datatype Step =
    | Enter(task: nat, key: Key)            // a copy arrives and asks for the lock
    | Acquire(task: nat)                    // it gets the lock, looks the result up, or starts the delivery
    | CancelWait(task: nat)                 // its route is cancelled while it waits
    | CancelDelivery(task: nat)             // its route is cancelled while the bridge works: it keeps the lock
    | Settle(task: nat, outcome: Outcome)   // the bridge has answered, failed or been cancelled
    | Tick(seconds: real)

  const START := System(0.0, Cache(map[], map[], map[], map[], 0), map[], map[])

  predicate Enabled(s: System, a: Step) {
    match a
    case Enter(t, _) => t !in s.tasks
    case Acquire(t) => t in s.tasks && s.tasks[t].Waiting? && s.tasks[t].entry !in s.holder
    case CancelWait(t) => t in s.tasks && s.tasks[t].Waiting?
    case CancelDelivery(t) => t in s.tasks && s.tasks[t].Delivering?
    case Settle(t, _) => t in s.tasks && s.tasks[t].Delivering?
    case Tick(seconds) => seconds >= 0.0
  }

  function Next(s: System, a: Step): System
    requires Enabled(s, a)
  {
    match a
    case Enter(t, k) =>
      var (e, c) := Entered(s.cache, k);
      s.(cache := c, tasks := s.tasks[t := Waiting(k, e)])
    case Acquire(t) =>
      var (k, e) := (s.tasks[t].key, s.tasks[t].entry);
      var (deliver, c) := ShouldDeliver(s.cache, k, s.now);
      if deliver then
        s.(cache := c, tasks := s.tasks[t := Delivering(k, e, false, k in c.delivered)], holder := s.holder[e := t])
      else s.(cache := Left(c, k, e), tasks := s.tasks - {t})
    case CancelWait(t) =>
      s.(cache := Left(s.cache, s.tasks[t].key, s.tasks[t].entry), tasks := s.tasks - {t})
    case CancelDelivery(t) =>
      s.(tasks := s.tasks[t := s.tasks[t].(cancelled := true)])
    case Settle(t, outcome) =>
      var (k, e) := (s.tasks[t].key, s.tasks[t].entry);
      s.(cache := Left(Settled(s.cache, k, outcome == Authenticated, s.now), k, e),
         tasks := s.tasks - {t}, holder := s.holder - {e})
    case Tick(seconds) =>
      s.(now := s.now + seconds)
  }

  /** Does this run of steps lead from s to s'? */
  predicate Leads(s: System, run: seq<Step>, s': System)
    decreases |run|
  {
    if run == [] then s == s' else Enabled(s, run[0]) && Leads(Next(s, run[0]), run[1..], s')
  }

  // ---------------------------------------------------------------- the invariant

  function Copies(s: System, e: EntryId): set<nat> {
    set t | t in s.tasks && s.tasks[t].entry == e
  }

  /** All copies of a key use the one entry in the dictionary. */
  predicate SharedLock(s: System) {
    forall t {:trigger Shares(s, t)} | t in s.tasks :: Shares(s, t)
  }

  predicate Shares(s: System, t: nat)
    requires t in s.tasks
  {
    s.tasks[t].key in s.cache.locks && s.cache.locks[s.tasks[t].key] == s.tasks[t].entry
  }

  /** An entry is in the dictionary exactly while it has users, and counts them. */
  predicate CountedLock(s: System) {
    forall k {:trigger Counts(s, k)} | k in s.cache.locks :: Counts(s, k)
  }

  predicate Counts(s: System, k: Key)
    requires k in s.cache.locks
  {
    UsersOf(s.cache, s.cache.locks[k]) == |Copies(s, s.cache.locks[k])| > 0
  }

  /** Different keys have different entries. */
  predicate OwnLock(c: Cache) {
    && (forall k {:trigger Issued(c, k)} | k in c.locks :: Issued(c, k))
    && (forall j, k {:trigger Apart(c, j, k)} | j in c.locks && k in c.locks :: Apart(c, j, k))
  }

  predicate Issued(c: Cache, k: Key)
    requires k in c.locks
  {
    c.locks[k] < c.nextEntry
  }

  predicate Apart(c: Cache, j: Key, k: Key)
    requires j in c.locks && k in c.locks
  {
    c.locks[j] == c.locks[k] ==> j == k
  }

  /** A lock is held exactly by the copy that delivers under it. */
  predicate HeldByDeliverer(s: System) {
    && (forall e {:trigger Held(s, e)} | e in s.holder :: Held(s, e))
    && (forall t {:trigger Holds(s, t)} | t in s.tasks :: Holds(s, t))
  }

  predicate Held(s: System, e: EntryId)
    requires e in s.holder
  {
    var t := s.holder[e];
    t in s.tasks && s.tasks[t].Delivering? && s.tasks[t].entry == e
  }

  predicate Holds(s: System, t: nat)
    requires t in s.tasks
  {
    s.tasks[t].Delivering? ==> s.tasks[t].entry in s.holder && s.holder[s.tasks[t].entry] == t
  }

  /** Results are true and stay within the cache; the cache is bounded. */
  predicate SoundResults(c: Cache) {
    (forall k | k in c.results :: k in c.delivered && c.results[k]) && |c.delivered| <= MAX_ENTRIES
  }

  /** A cache entry without a result is a reservation: its key's lock is held. */
  predicate Reservations(s: System) {
    forall k {:trigger Reserved(s, k)} | k in s.cache.delivered :: Reserved(s, k)
  }

  predicate Reserved(s: System, k: Key) {
    k in s.cache.results || (k in s.cache.locks && s.cache.locks[k] in s.holder)
  }

  /** While a copy delivers there is no result for its key, and its reservation stays as it was made. */
  predicate DelivererState(s: System) {
    forall t {:trigger Undecided(s, t)} | t in s.tasks :: Undecided(s, t)
  }

  predicate Undecided(s: System, t: nat)
    requires t in s.tasks
  {
    s.tasks[t].Delivering? ==>
      s.tasks[t].key !in s.cache.results && (s.tasks[t].reserved <==> s.tasks[t].key in s.cache.delivered)
  }

  predicate LockInv(s: System) {
    SharedLock(s) && CountedLock(s) && OwnLock(s.cache)
  }

  predicate Inv(s: System) {
    LockInv(s) && HeldByDeliverer(s) && SoundResults(s.cache) && Reservations(s) && DelivererState(s)
  }

  // ---------------------------------------------------------------- each step keeps the invariant

  lemma CopiesAdd(s: System, s': System, t: nat, p: Phase, e: EntryId)
    requires t !in s.tasks && s'.tasks == s.tasks[t := p]
    ensures Copies(s', e) == if p.entry == e then Copies(s, e) + {t} else Copies(s, e)
  {
  }

  lemma CopiesRemove(s: System, s': System, t: nat, e: EntryId)
    requires t in s.tasks && s'.tasks == s.tasks - {t}
    ensures Copies(s', e) == Copies(s, e) - {t}
  {
  }

  lemma EnterKeepsLock(s: System, t: nat, k: Key)
    requires LockInv(s) && t !in s.tasks
    ensures LockInv(Next(s, Enter(t, k)))
  {
    var s' := Next(s, Enter(t, k));
    assert k in s.cache.locks ==> Issued(s.cache, k);
    forall u | u in s'.tasks ensures Shares(s', u) {
      if u != t {
        assert Shares(s, u);
      }
    }
    forall j | j in s'.cache.locks ensures Counts(s', j) && Issued(s'.cache, j) {
      EnterCounts(s, t, k, j);
    }
    forall i, j | i in s'.cache.locks && j in s'.cache.locks ensures Apart(s'.cache, i, j) {
      assert i in s.cache.locks ==> Issued(s.cache, i);
      assert j in s.cache.locks ==> Issued(s.cache, j);
      assert i in s.cache.locks && j in s.cache.locks ==> Apart(s.cache, i, j);
    }
  }

  lemma EnterCounts(s: System, t: nat, k: Key, j: Key)
    requires LockInv(s) && t !in s.tasks && j in Next(s, Enter(t, k)).cache.locks
    ensures Counts(Next(s, Enter(t, k)), j) && Issued(Next(s, Enter(t, k)).cache, j)
  {
    var s' := Next(s, Enter(t, k));
    var e := s'.cache.locks[j];
    CopiesAdd(s, s', t, s'.tasks[t], e);
    if j in s.cache.locks {
      assert Counts(s, j) && Issued(s.cache, j);
      assert k in s.cache.locks ==> Apart(s.cache, j, k);
    } else {
      NoCopies(s, e);
    }
  }

  lemma NoCopies(s: System, e: EntryId)
    requires LockInv(s) && e >= s.cache.nextEntry
    ensures Copies(s, e) == {}
  {
    forall t | t in s.tasks ensures s.tasks[t].entry != e {
      assert Shares(s, t) && Issued(s.cache, s.tasks[t].key);
    }
  }

  /** Leaving: the entry goes exactly when its last copy goes. */
  lemma LeaveKeepsLock(s: System, s': System, t: nat)
    requires LockInv(s) && t in s.tasks
    requires s'.tasks == s.tasks - {t}
    requires SameLocks(s'.cache, Left(s.cache, s.tasks[t].key, s.tasks[t].entry))
    ensures LockInv(s')
  {
    assert Shares(s, t);
    forall u | u in s'.tasks ensures Shares(s', u) {
      LeaveShares(s, s', t, u);
    }
    forall j | j in s'.cache.locks ensures Counts(s', j) && Issued(s'.cache, j) {
      LeaveCounts(s, s', t, j);
    }
    forall i, j | i in s'.cache.locks && j in s'.cache.locks ensures Apart(s'.cache, i, j) {
      assert Apart(s.cache, i, j);
    }
  }

  lemma LeaveShares(s: System, s': System, t: nat, u: nat)
    requires LockInv(s) && t in s.tasks && s'.tasks == s.tasks - {t} && u in s'.tasks
    requires SameLocks(s'.cache, Left(s.cache, s.tasks[t].key, s.tasks[t].entry))
    ensures Shares(s', u)
  {
    var k := s.tasks[t].key;
    assert Shares(s, t) && Shares(s, u);
    if s.tasks[u].key == k {
      assert Counts(s, k);
      TwoCopies(Copies(s, s.tasks[t].entry), t, u);
    }
  }

  lemma LeaveCounts(s: System, s': System, t: nat, j: Key)
    requires LockInv(s) && t in s.tasks && s'.tasks == s.tasks - {t} && j in s'.cache.locks
    requires SameLocks(s'.cache, Left(s.cache, s.tasks[t].key, s.tasks[t].entry))
    ensures Counts(s', j) && Issued(s'.cache, j)
  {
    assert Shares(s, t) && Counts(s, j) && Issued(s.cache, j) && Apart(s.cache, j, s.tasks[t].key);
    assert t in Copies(s, s.tasks[t].entry);
    CopiesRemove(s, s', t, s'.cache.locks[j]);
  }

  lemma TwoCopies(copies: set<nat>, t: nat, u: nat)
    requires t in copies && u in copies && t != u
    ensures |copies| != 1
  {
    assert u in copies - {t};
    assert copies == {t} + (copies - {t});
  }

  predicate SameLocks(c: Cache, d: Cache) {
    c.locks == d.locks && c.users == d.users && c.nextEntry == d.nextEntry
  }

  /** A step that gives every copy the same key and entry as before, and leaves the locks alone. */
  lemma RelabelKeepsLock(s: System, s': System)
    requires LockInv(s) && SameLocks(s'.cache, s.cache) && s'.tasks.Keys == s.tasks.Keys
    requires forall t | t in s.tasks :: s'.tasks[t].key == s.tasks[t].key && s'.tasks[t].entry == s.tasks[t].entry
    ensures LockInv(s')
  {
    forall u | u in s'.tasks ensures Shares(s', u) {
      assert Shares(s, u);
    }
    forall j | j in s'.cache.locks ensures Counts(s', j) && Issued(s'.cache, j) {
      assert Counts(s, j) && Issued(s.cache, j);
      assert Copies(s', s'.cache.locks[j]) == Copies(s, s'.cache.locks[j]);
    }
    forall i, j | i in s'.cache.locks && j in s'.cache.locks ensures Apart(s'.cache, i, j) {
      assert Apart(s.cache, i, j);
    }
  }

  // ---- the results

  /** What a cache update may do to the keys other than k: drop some that no copy uses. */
  predicate OthersKept(c: Cache, d: Cache, k: Key) {
    && (forall j | j != k && j in d.delivered :: j in c.delivered && d.delivered[j] == c.delivered[j])
    && (forall j | j != k && j in d.results :: j in c.results && d.results[j] == c.results[j])
    && (forall j | j != k && j in d.delivered && j in c.results :: j in d.results)
    && (forall j | j != k && j in c.locks && j in c.delivered :: j in d.delivered)
  }

  lemma PrunedKeeps(c: Cache, k: Key, now: real)
    requires SoundResults(c) && k in c.locks
    ensures var p := Pruned(c, now);
      OthersKept(c, p, k) && SoundResults(p) && SameLocks(p, c)
      && (k in p.delivered <==> k in c.delivered) && (k in p.results <==> k in c.results)
      && (k in c.delivered ==> p.delivered[k] == c.delivered[k])
  {
    MapShrinks(c.delivered, Prunable(c, now));
  }

  lemma MapShrinks(m: map<Key, real>, ks: set<Key>)
    ensures |m - ks| <= |m|
  {
    assert (m - ks).Keys <= m.Keys;
    AtMost((m - ks).Keys, m.Keys);
  }

  /** The answer of the lookup, and what it leaves for the key and for the others. */
  lemma LookupFacts(c: Cache, k: Key, now: real)
    requires SoundResults(c) && k in c.locks
    ensures var (deliver, d) := ShouldDeliver(c, k, now);
      && OthersKept(c, d, k) && SoundResults(d) && SameLocks(d, c)
      && (deliver <==> !Unexpired(c, k, now))
      && (if deliver then k !in d.results else SameFor(c, d, k) && k in d.delivered)
  {
    var p := Pruned(c, now);
    PrunedKeeps(c, k, now);
    if Unexpired(c, k, now) {
      assert ShouldDeliver(c, k, now) == (false, p);
    } else {
      assert ShouldDeliver(c, k, now) == (true, Started(p, k, now));
      StartFacts(c, p, k, now);
    }
  }

  lemma StartFacts(c: Cache, p: Cache, k: Key, now: real)
    requires SoundResults(p) && OthersKept(c, p, k) && SameLocks(p, c)
    ensures var d := Started(p, k, now);
      OthersKept(c, d, k) && SoundResults(d) && SameLocks(d, c) && k !in d.results
  {
    ReservedFacts(p, k, now);
    KeptTwice(c, p, Started(p, k, now), k);
  }

  lemma ReservedFacts(p: Cache, k: Key, now: real)
    requires SoundResults(p)
    ensures var d := Started(p, k, now);
      OthersKept(p, d, k) && SoundResults(d) && SameLocks(d, p) && k !in d.results
  {
    ForgetFacts(p, k);
    ReserveFacts(Forget(p, k), k, now);
    KeptTwice(p, Forget(p, k), Started(p, k, now), k);
  }

  lemma ForgetFacts(p: Cache, k: Key)
    requires SoundResults(p)
    ensures OthersKept(p, Forget(p, k), k) && SoundResults(Forget(p, k)) && SameLocks(Forget(p, k), p)
    ensures k !in Forget(p, k).results
  {
    MapShrinks(p.delivered, {k});
  }

  lemma ReserveFacts(f: Cache, k: Key, now: real)
    requires SoundResults(f)
    ensures var d := Reserve(f, k, now);
      OthersKept(f, d, k) && SoundResults(d) && SameLocks(d, f) && d.results == f.results
  {
    MapGrows(f.delivered, k, now + TTL_SEC);
  }

  lemma KeptTwice(c: Cache, p: Cache, d: Cache, k: Key)
    requires OthersKept(c, p, k) && OthersKept(p, d, k) && p.locks == c.locks
    ensures OthersKept(c, d, k)
  {
  }

  lemma MapGrows(m: map<Key, real>, k: Key, v: real)
    ensures |m[k := v]| <= |m| + 1
  {
    assert m[k := v].Keys == m.Keys + {k};
  }

  lemma SettledFacts(c: Cache, k: Key, authenticated: bool, now: real)
    requires SoundResults(c)
    ensures var d := Settled(c, k, authenticated, now);
      && OthersKept(c, d, k) && SoundResults(d) && SameLocks(d, c)
      && (k in d.delivered <==> k in d.results) && (k in d.results <==> authenticated && k in c.delivered)
  {
    if authenticated && k in c.delivered {
      assert c.delivered[k := now + TTL_SEC].Keys == c.delivered.Keys;
    } else {
      MapShrinks(c.delivered, {k});
    }
  }

  /** Two copies of different locks have different keys. */
  lemma OtherLockOtherKey(s: System, t: nat, u: nat)
    requires SharedLock(s) && t in s.tasks && u in s.tasks && s.tasks[t].entry != s.tasks[u].entry
    ensures s.tasks[t].key != s.tasks[u].key
  {
    assert Shares(s, t) && Shares(s, u);
  }

  /** An update of the key of copy t leaves the deliveries under other locks as they were. */
  lemma OthersUndisturbed(s: System, c: Cache, t: nat, u: nat)
    requires Inv(s) && t in s.tasks && u in s.tasks && s.tasks[u].Delivering? && s.tasks[t].entry != s.tasks[u].entry
    requires OthersKept(s.cache, c, s.tasks[t].key)
    ensures s.tasks[u].key !in c.results && (s.tasks[u].reserved <==> s.tasks[u].key in c.delivered)
  {
    OtherLockOtherKey(s, t, u);
    assert Undecided(s, u) && Shares(s, u);
  }

  /** Starting a delivery: the copy takes the free lock of its key. */
  lemma StartKeepsInv(s: System, s': System, t: nat)
    requires Inv(s) && t in s.tasks && s.tasks[t].Waiting? && s.tasks[t].entry !in s.holder
    requires OthersKept(s.cache, s'.cache, s.tasks[t].key) && SoundResults(s'.cache) && SameLocks(s'.cache, s.cache)
    requires s.tasks[t].key !in s'.cache.results
    requires s'.tasks == s.tasks[t := Delivering(s.tasks[t].key, s.tasks[t].entry, false,
                                                 s.tasks[t].key in s'.cache.delivered)]
    requires s'.holder == s.holder[s.tasks[t].entry := t]
    ensures Inv(s')
  {
    assert Shares(s, t);
    RelabelKeepsLock(s, s');
    forall e | e in s'.holder ensures Held(s', e) {
      assert e != s.tasks[t].entry ==> Held(s, e);
    }
    forall u | u in s'.tasks ensures Holds(s', u) && Undecided(s', u) {
      assert Holds(s, u) && Undecided(s, u);
      if u != t && s.tasks[u].Delivering? {
        OthersUndisturbed(s, s'.cache, t, u);
      }
    }
    forall j | j in s'.cache.delivered ensures Reserved(s', j) {
      assert j != s.tasks[t].key ==> Reserved(s, j);
    }
  }

  predicate SameFor(c: Cache, d: Cache, k: Key) {
    (k in d.delivered <==> k in c.delivered) && (k in d.results <==> k in c.results)
  }

  /** Copy t goes, with or without having held the lock; c is the cache just before the user count goes down. */
  predicate Exits(s: System, s': System, c: Cache, t: nat)
    requires t in s.tasks
  {
    var (k, e) := (s.tasks[t].key, s.tasks[t].entry);
    && OthersKept(s.cache, c, k) && SameLocks(c, s.cache)
    && (if s.tasks[t].Delivering? then k in c.delivered <==> k in c.results else SameFor(s.cache, c, k))
    && s'.cache == Left(c, k, e) && s'.tasks == s.tasks - {t}
    && s'.holder == if s.tasks[t].Delivering? then s.holder - {e} else s.holder
  }

  lemma ExitKeepsInv(s: System, s': System, c: Cache, t: nat)
    requires Inv(s) && t in s.tasks && Exits(s, s', c, t) && SoundResults(c)
    ensures Inv(s')
  {
    LeaveKeepsLock(s, s', t);
    ExitKeepsHolders(s, s', t);
    ExitKeepsUndecided(s, s', c, t);
    ExitKeepsReservations(s, s', c, t);
    SoundAgain(c, s'.cache);
  }

  lemma SoundAgain(c: Cache, d: Cache)
    requires SoundResults(c) && d.delivered == c.delivered && d.results == c.results
    ensures SoundResults(d)
  {
  }

  lemma ExitKeepsReservations(s: System, s': System, c: Cache, t: nat)
    requires Inv(s) && t in s.tasks && SharedLock(s') && Exits(s, s', c, t)
    ensures Reservations(s')
  {
    forall j | j in s'.cache.delivered ensures Reserved(s', j) {
      ExitKeepsReserved(s, s', c, t, j);
    }
  }

  lemma ExitKeepsHolders(s: System, s': System, t: nat)
    requires HeldByDeliverer(s) && t in s.tasks && s'.tasks == s.tasks - {t}
    requires s'.holder == if s.tasks[t].Delivering? then s.holder - {s.tasks[t].entry} else s.holder
    ensures HeldByDeliverer(s')
  {
    assert Holds(s, t);
    forall e | e in s'.holder ensures Held(s', e) {
      assert Held(s, e);
    }
    forall u | u in s'.tasks ensures Holds(s', u) {
      assert Holds(s, u);
    }
  }

  lemma ExitKeepsUndecided(s: System, s': System, c: Cache, t: nat)
    requires Inv(s) && t in s.tasks && Exits(s, s', c, t)
    ensures DelivererState(s')
  {
    forall u | u in s'.tasks ensures Undecided(s', u) {
      assert Undecided(s, u) && Holds(s, u) && Holds(s, t) && Shares(s, u) && Shares(s, t);
      if s.tasks[u].Delivering? && s.tasks[t].entry != s.tasks[u].entry {
        OthersUndisturbed(s, c, t, u);
      } else if s.tasks[u].Delivering? {
        assert Apart(s.cache, s.tasks[t].key, s.tasks[u].key);
      }
    }
  }

  lemma ExitKeepsReserved(s: System, s': System, c: Cache, t: nat, j: Key)
    requires Inv(s) && t in s.tasks && SharedLock(s') && Exits(s, s', c, t) && j in s'.cache.delivered
    ensures Reserved(s', j)
  {
    if j !in c.results {
      assert Reserved(s, j);
      HolderRemains(s, s', t, j);
    }
  }

  /** The copy that holds the lock of key j is another one than t, so it is still there. */
  lemma HolderRemains(s: System, s': System, t: nat, j: Key)
    requires LockInv(s) && HeldByDeliverer(s) && SharedLock(s') && t in s.tasks && s'.tasks == s.tasks - {t}
    requires s'.holder == if s.tasks[t].Delivering? then s.holder - {s.tasks[t].entry} else s.holder
    requires j in s.cache.locks && s.cache.locks[j] in s.holder
    requires s.tasks[t].Waiting? || s.tasks[t].key != j
    ensures j in s'.cache.locks && s'.cache.locks[j] in s'.holder
  {
    var e := s.cache.locks[j];
    var u := s.holder[e];
    assert Held(s, e) && Shares(s, u) && Holds(s, t) && Shares(s, t);
    assert Apart(s.cache, j, s.tasks[u].key) && Apart(s.cache, j, s.tasks[t].key);
    assert Shares(s', u);
  }

  lemma StepKeepsInv(s: System, a: Step)
    requires Inv(s) && Enabled(s, a)
    ensures Inv(Next(s, a))
  {
    var s' := Next(s, a);
    match a {
      case Enter(t, k) => EnterKeepsInv(s, t, k);
      case Acquire(t) => AcquireKeepsInv(s, t);
      case CancelWait(t) => ExitKeepsInv(s, s', s.cache, t);
      case CancelDelivery(t) => QuietKeepsInv(s, s');
      case Settle(t, outcome) =>
        SettledFacts(s.cache, s.tasks[t].key, outcome == Authenticated, s.now);
        ExitKeepsInv(s, s', Settled(s.cache, s.tasks[t].key, outcome == Authenticated, s.now), t);
      case Tick(_) => QuietKeepsInv(s, s');
    }
  }

  lemma EnterKeepsInv(s: System, t: nat, k: Key)
    requires Inv(s) && t !in s.tasks
    ensures Inv(Next(s, Enter(t, k)))
  {
    EnterKeepsLock(s, t, k);
    EnterKeepsRest(s, Next(s, Enter(t, k)), t);
  }

  lemma EnterKeepsRest(s: System, s': System, t: nat)
    requires Inv(s) && t !in s.tasks && t in s'.tasks && s'.tasks == s.tasks[t := s'.tasks[t]] && s'.tasks[t].Waiting?
    requires s'.holder == s.holder && s'.cache.delivered == s.cache.delivered && s'.cache.results == s.cache.results
    requires forall j | j in s.cache.locks :: j in s'.cache.locks && s'.cache.locks[j] == s.cache.locks[j]
    ensures HeldByDeliverer(s') && SoundResults(s'.cache) && Reservations(s') && DelivererState(s')
  {
    forall e | e in s'.holder ensures Held(s', e) {
      assert Held(s, e);
    }
    forall u | u in s'.tasks ensures Holds(s', u) && Undecided(s', u) {
      assert u != t ==> Holds(s, u) && Undecided(s, u);
    }
    forall j | j in s'.cache.delivered ensures Reserved(s', j) {
      assert Reserved(s, j);
    }
  }

  lemma AcquireKeepsInv(s: System, t: nat)
    requires Inv(s) && Enabled(s, Acquire(t))
    ensures Inv(Next(s, Acquire(t)))
  {
    var s', k := Next(s, Acquire(t)), s.tasks[t].key;
    var (deliver, c) := ShouldDeliver(s.cache, k, s.now);
    assert Shares(s, t);
    LookupFacts(s.cache, k, s.now);
    if deliver {
      StartKeepsInv(s, s', t);
    } else {
      ExitKeepsInv(s, s', c, t);
    }
  }

  /** Cancelling the route of a delivering copy, or the passing of time, releases nothing. */
  lemma QuietKeepsInv(s: System, s': System)
    requires Inv(s) && s'.cache == s.cache && s'.holder == s.holder && s'.tasks.Keys == s.tasks.Keys
    requires forall t | t in s.tasks :: SamePhase(s.tasks[t], s'.tasks[t])
    ensures Inv(s')
  {
    RelabelKeepsLock(s, s');
    forall e | e in s'.holder ensures Held(s', e) {
      assert Held(s, e);
    }
    forall u | u in s'.tasks ensures Holds(s', u) && Undecided(s', u) {
      assert Holds(s, u) && Undecided(s, u);
    }
    forall j | j in s'.cache.delivered ensures Reserved(s', j) {
      assert Reserved(s, j);
    }
  }

  predicate SamePhase(p: Phase, q: Phase) {
    p.key == q.key && p.entry == q.entry && p.Waiting? == q.Waiting? && (p.Delivering? ==> p.reserved == q.reserved)
  }
}
