/**
 What companion delivery guarantees in every interleaving: a single delivery at a time, true answers, and no
 second delivery while an authenticated answer is remembered.
 */
module CompanionRuns {
  import opened CompanionCache
  import opened CompanionDelivery

  // ---------------------------------------------------------------- every interleaving

  /** Never two deliveries of a packet to one bridge at a time. */
  predicate AtMostOneDelivery(s: System) {
    forall t, u | t in s.tasks && u in s.tasks && s.tasks[t].Delivering? && s.tasks[u].Delivering?
                  && s.tasks[t].key == s.tasks[u].key :: t == u
  }

  lemma OneDelivererPerKey(s: System)
    requires SharedLock(s) && HeldByDeliverer(s)
    ensures AtMostOneDelivery(s)
  {
    forall t, u | t in s.tasks && u in s.tasks && s.tasks[t].Delivering? && s.tasks[u].Delivering?
                  && s.tasks[t].key == s.tasks[u].key
      ensures t == u
    {
      assert Shares(s, t) && Shares(s, u) && Holds(s, t) && Holds(s, u);
    }
  }

  lemma {:induction false} RunKeepsInv(s: System, run: seq<Step>, s': System)
    requires Inv(s) && Leads(s, run, s')
    ensures Inv(s')
    decreases |run|
  {
    if run != [] {
      StepKeepsInv(s, run[0]);
      RunKeepsInv(Next(s, run[0]), run[1..], s');
    }
  }

  /** In every run: at most one delivery per packet and bridge at any time, one shared lock entry per key
      that exists exactly while copies use it, and at most 1024 cached results. */
  lemma EveryRunIsSafe(run: seq<Step>, s: System)
    requires Leads(START, run, s)
    ensures Inv(s) && AtMostOneDelivery(s) && |s.cache.delivered| <= 1024
  {
    RunKeepsInv(START, run, s);
    OneDelivererPerKey(s);
  }

  /** A copy that finds a cached, unexpired answer always has a result to return, it is true, and the copy
      leaves without reaching the bridge; a copy that finds none starts a delivery. */
  lemma AcquireAnswers(s: System, t: nat)
    requires Inv(s) && Enabled(s, Acquire(t))
    ensures var s', k := Next(s, Acquire(t)), s.tasks[t].key;
      if Unexpired(s.cache, k, s.now)
      then k in s.cache.results && s.cache.results[k] && t !in s'.tasks && k in s'.cache.results && s'.cache.results[k]
      else t in s'.tasks && s'.tasks[t].Delivering? && s'.tasks[t].key == k
  {
    assert Shares(s, t);
    LookupFacts(s.cache, s.tasks[t].key, s.now);
    assert s.tasks[t].key in s.cache.delivered ==> Reserved(s, s.tasks[t].key);
  }

  // ---------------------------------------------------------------- what a cached answer guarantees

  /** The answer of key k is cached until the given time. */
  predicate Cached(s: System, k: Key, until: real) {
    k in s.cache.results && k in s.cache.delivered && s.cache.delivered[k] == until
  }

  predicate NobodyDelivers(s: System, k: Key) {
    forall u | u in s.tasks && s.tasks[u].Delivering? :: s.tasks[u].key != k
  }

  /** The lookup for any key keeps the answer of an unexpired key. */
  lemma LookupKeepsUnexpired(c: Cache, j: Key, k: Key, now: real)
    requires Unexpired(c, k, now) && k in c.results && (j in c.delivered ==> j in c.results || j != k)
    ensures var d := ShouldDeliver(c, j, now).1;
      k in d.delivered && d.delivered[k] == c.delivered[k] && k in d.results
  {
    var p := Pruned(c, now);
    assert k in p.delivered && p.delivered[k] == c.delivered[k] && k in p.results;
  }

  lemma CachedStays(s: System, a: Step, k: Key, until: real)
    requires DelivererState(s) && Enabled(s, a) && Cached(s, k, until) && s.now < until
    ensures Cached(Next(s, a), k, until)
  {
    match a {
      case Acquire(t) => LookupKeepsUnexpired(s.cache, s.tasks[t].key, k, s.now);
      case Settle(t, _) => assert Undecided(s, t);
      case _ =>
    }
  }

  lemma {:induction false} TimeOnlyPasses(s: System, run: seq<Step>, s': System)
    requires Leads(s, run, s')
    ensures s.now <= s'.now
    decreases |run|
  {
    if run != [] {
      TimeOnlyPasses(Next(s, run[0]), run[1..], s');
    }
  }

  lemma {:induction false} CachedOverRun(s: System, run: seq<Step>, s': System, k: Key, until: real)
    requires Inv(s) && Cached(s, k, until) && Leads(s, run, s') && s'.now < until
    ensures Inv(s') && Cached(s', k, until)
    decreases |run|
  {
    if run != [] {
      TimeOnlyPasses(s, run, s');
      StepKeepsInv(s, run[0]);
      CachedStays(s, run[0], k, until);
      CachedOverRun(Next(s, run[0]), run[1..], s', k, until);
    }
  }

  /** Once a reserved delivery is authenticated, for 60 seconds and whatever else happens the answer stays
      cached, so no copy of the packet reaches the bridge again. */
  lemma AuthenticatedSuppressesCopies(s: System, t: nat, run: seq<Step>, s': System)
    requires Inv(s) && Enabled(s, Settle(t, Authenticated)) && s.tasks[t].reserved
    requires Leads(Next(s, Settle(t, Authenticated)), run, s') && s'.now < s.now + 60.0
    ensures Cached(s', s.tasks[t].key, s.now + 60.0) && NobodyDelivers(s', s.tasks[t].key)
  {
    var k := s.tasks[t].key;
    assert Undecided(s, t);
    StepKeepsInv(s, Settle(t, Authenticated));
    CachedOverRun(Next(s, Settle(t, Authenticated)), run, s', k, s.now + 60.0);
    forall u | u in s'.tasks && s'.tasks[u].Delivering? ensures s'.tasks[u].key != k {
      assert Undecided(s', u);
    }
  }

  // ---- when a delivery is cached at all

  predicate Settles(a: Step, t: nat) {
    a.Settle? && a.task == t
  }

  predicate NeverSettles(run: seq<Step>, t: nat)
    decreases |run|
  {
    run == [] || (!Settles(run[0], t) && NeverSettles(run[1..], t))
  }

  predicate Delivers(s: System, t: nat, k: Key, reserved: bool) {
    t in s.tasks && s.tasks[t].Delivering? && s.tasks[t].key == k && s.tasks[t].reserved == reserved
  }

  lemma {:induction false} DeliveryRuns(s: System, run: seq<Step>, s': System, t: nat, k: Key, reserved: bool)
    requires Inv(s) && Leads(s, run, s') && NeverSettles(run, t) && Delivers(s, t, k, reserved)
    ensures Inv(s') && Delivers(s', t, k, reserved)
    decreases |run|
  {
    if run != [] {
      StepKeepsInv(s, run[0]);
      assert Delivers(Next(s, run[0]), t, k, reserved);
      DeliveryRuns(Next(s, run[0]), run[1..], s', t, k, reserved);
    }
  }

  lemma DeliveryStarts(s: System, t: nat)
    requires Enabled(s, Acquire(t)) && !Unexpired(s.cache, s.tasks[t].key, s.now)
    ensures Delivers(Next(s, Acquire(t)), t, s.tasks[t].key, HasRoom(s.cache, s.tasks[t].key, s.now))
  {
    var k := s.tasks[t].key;
    LookupEffect(s.cache, k, s.now);
  }

  lemma DeliveryEnds(s: System, t: nat, k: Key, reserved: bool, outcome: Outcome)
    requires DelivererState(s) && Delivers(s, t, k, reserved)
    ensures var s' := Next(s, Settle(t, outcome));
      if outcome == Authenticated && reserved then Cached(s', k, s.now + 60.0)
      else k !in s'.cache.delivered && k !in s'.cache.results
  {
    assert Undecided(s, t);
  }

  /** A finished delivery leaves a cached answer exactly if it was authenticated and the cache had room
      when it started, whatever happened to the cache in between. */
  lemma AnswerCachedIff(s: System, t: nat, run: seq<Step>, s': System, outcome: Outcome)
    requires Inv(s) && Enabled(s, Acquire(t)) && !Unexpired(s.cache, s.tasks[t].key, s.now)
    requires Leads(Next(s, Acquire(t)), run, s') && NeverSettles(run, t)
    ensures Delivers(s', t, s.tasks[t].key, HasRoom(s.cache, s.tasks[t].key, s.now))
    ensures var k, s'' := s.tasks[t].key, Next(s', Settle(t, outcome));
      if outcome == Authenticated && HasRoom(s.cache, k, s.now) then Cached(s'', k, s'.now + 60.0)
      else k !in s''.cache.delivered && k !in s''.cache.results
  {
    var k := s.tasks[t].key;
    var room := HasRoom(s.cache, k, s.now);
    StepKeepsInv(s, Acquire(t));
    DeliveryStarts(s, t);
    DeliveryRuns(Next(s, Acquire(t)), run, s', t, k, room);
    DeliveryEnds(s', t, k, room, outcome);
  }
}
