/**
 Room activations among other coroutines. A run interleaves the sections of one activation after the other
 (they share a lock) with arbitrary changes by other owners and with the daemon's shutdown.
 */
module RoomRuns {
  import opened Wrappers
  import opened IdentityRegistry
  import opened RoomActivation

  datatype Attempt = Attempt(name: string, identity: Identity, entries: Entries)

  /** `born` are the identity objects that activations have created so far. */
  datatype World = World(shared: Shared, pending: Option<Attempt>, born: set<Identity>, active: map<Identity, Attempt>)

  datatype Step =
    | Begin(q: Request, identity: Identity, made: Entries, specOk: bool)
    | Fail                                        // a helper or a start task failed, or the activation was cancelled
    | Complete(specOk: bool, monitorFails: bool)
    | Others(after: Shared)
    | Shutdown

  /** What an identity owns in the maps and in the manager. */
  datatype Part = Part(slots: map<Slot, Entry>, identities: map<Hash, Registered>, named: map<string, Registered>)

  const NOTHING := Part(map[], map[], map[])

  function PartOf(s: Shared, i: Identity): Part {
    Part(map t | t in s.slots && s.slots[t].creator == i :: s.slots[t],
         map h | h in s.registry.identities && s.registry.identities[h].identity == i :: s.registry.identities[h],
         map n | n in s.registry.named && s.registry.named[n].identity == i :: s.registry.named[n])
  }

  /** Every entry of a room: five handlers, its identity and its name. */
  function Whole(a: Attempt): Part {
    var g := Registered(a.identity, "room_server");
    Part(Put(map[], a.identity.hash, a.entries, LABELS), map[a.identity.hash := g], map[a.name := g])
  }

  predicate MadeBy(entries: Entries, i: Identity) {
    forall l | l in entries :: entries[l].creator == i
  }

  /** Other owners keep the manager consistent, do not revive the daemon, and have no entries of rooms. */
  predicate OthersMay(w: World, after: Shared) {
    && OneToOne(after.registry) && (w.shared.shutdown ==> after.shutdown)
    && forall i | i in w.born :: PartOf(after, i) == PartOf(w.shared, i)
  }

  predicate Enabled(w: World, a: Step) {
    match a
    case Begin(_, i, made, _) => w.pending.None? && i !in w.born && PartOf(w.shared, i) == NOTHING && MadeBy(made, i)
    case Fail => w.pending.Some?
    case Complete(_, _) => w.pending.Some?
    case Others(after) => OthersMay(w, after)
    case Shutdown => true
  }

  function RolledBack(s: Shared, a: Attempt): Shared {
    s.(slots := Removed(s.slots, a.identity.hash, a.entries, LABELS),
       registry := Withdrawn(s.registry, a.name, a.identity))
  }

  predicate Succeeds(s: Shared, a: Attempt, specOk: bool, monitorFails: bool) {
    Publishable(s, a.name, a.identity, a.entries, specOk) && !monitorFails
  }

  /** The last section: publish if all checks pass, and roll back whatever was published if anything fails. */
  function Completed(s: Shared, a: Attempt, specOk: bool, monitorFails: bool): Shared {
    if !Publishable(s, a.name, a.identity, a.entries, specOk) then RolledBack(s, a)
    else if monitorFails then RolledBack(Published(s, a.name, a.identity, a.entries), a)
    else Published(s, a.name, a.identity, a.entries)
  }

  function Next(w: World, a: Step): World
    requires Enabled(w, a)
  {
    match a
    case Begin(q, i, made, specOk) =>
      w.(born := w.born + {i},
         pending := if Admissible(w.shared, q, i.hash, specOk) then Some(Attempt(q.name, i, made)) else None)
    case Fail => w.(pending := None, shared := RolledBack(w.shared, w.pending.value))
    case Complete(specOk, monitorFails) =>
      var p := w.pending.value;
      w.(pending := None, shared := Completed(w.shared, p, specOk, monitorFails),
         active := if Succeeds(w.shared, p, specOk, monitorFails) then w.active[p.identity := p] else w.active)
    case Others(after) => w.(shared := after)
    case Shutdown => w.(shared := w.shared.(shutdown := true))
  }

  predicate Leads(w: World, run: seq<Step>, w': World)
    decreases |run|
  {
    if run == [] then w == w' else Enabled(w, run[0]) && Leads(Next(w, run[0]), run[1..], w')
  }

  // ---------------------------------------------------------------- the invariant

  /** A room is published whole, or not at all. */
  predicate AllOrNothing(w: World, i: Identity) {
    PartOf(w.shared, i) == if i in w.active then Whole(w.active[i]) else NOTHING
  }

  predicate ActiveIsReady(w: World, i: Identity)
    requires i in w.active
  {
    i in w.born && w.active[i].identity == i && Ready(w.active[i].entries, i)
  }

  predicate PendingIsHidden(w: World) {
    w.pending.Some? ==>
      && w.pending.value.identity in w.born && w.pending.value.identity !in w.active
      && MadeBy(w.pending.value.entries, w.pending.value.identity)
  }

  predicate Inv(w: World) {
    && OneToOne(w.shared.registry) && PendingIsHidden(w)
    && (forall i {:trigger AllOrNothing(w, i)} | i in w.born :: AllOrNothing(w, i))
    && (forall i {:trigger ActiveIsReady(w, i)} | i in w.active :: ActiveIsReady(w, i))
  }

  lemma NothingIsForeign(s: Shared, i: Identity)
    requires PartOf(s, i) == NOTHING
    ensures Foreign(s, i)
  {
    var p := PartOf(s, i);
    assert forall t | t in s.slots :: s.slots[t].creator == i ==> t in p.slots;
    assert forall h | h in s.registry.identities :: s.registry.identities[h].identity == i ==> h in p.identities;
    assert forall n | n in s.registry.named :: s.registry.named[n].identity == i ==> n in p.named;
  }

  /** A rollback of a hidden room changes nothing for anybody. */
  lemma RollbackIsExact(s: Shared, a: Attempt)
    requires PartOf(s, a.identity) == NOTHING && MadeBy(a.entries, a.identity)
    ensures RolledBack(s, a) == s
  {
    NothingIsForeign(s, a.identity);
    RemoveSparesOthers(s.slots, a.identity.hash, a.entries);
    WithdrawSparesOthers(s.registry, a.name, a.identity);
  }

  /** So is one that follows a publication. */
  lemma CompletionIsExact(s: Shared, a: Attempt, specOk: bool, monitorFails: bool)
    requires OneToOne(s.registry) && PartOf(s, a.identity) == NOTHING && MadeBy(a.entries, a.identity)
    ensures Completed(s, a, specOk, monitorFails)
      == if Succeeds(s, a, specOk, monitorFails) then Published(s, a.name, a.identity, a.entries) else s
  {
    if !Publishable(s, a.name, a.identity, a.entries, specOk) {
      RollbackIsExact(s, a);
    } else if monitorFails {
      RemoveUndoesPublishing(s.slots, a.identity.hash, a.entries);
      WithdrawUndoesRegister(s.registry, a.name, Registered(a.identity, "room_server"));
    }
  }

  /** Publishing adds all of the room and leaves what others own as it was. */
  lemma PublishedParts(s: Shared, a: Attempt, j: Identity)
    requires PartOf(s, a.identity) == NOTHING && MadeBy(a.entries, a.identity)
    requires Free(s.registry, a.name, a.identity.hash) && SlotsFree(s.slots, a.identity.hash)
    ensures var after := Published(s, a.name, a.identity, a.entries);
      PartOf(after, j) == if j == a.identity then Whole(a) else PartOf(s, j)
  {
    NothingIsForeign(s, a.identity);
    SlotPart(s, a, j);
    IdentityPart(s.registry, a, j);
  }

  lemma SlotPart(s: Shared, a: Attempt, j: Identity)
    requires Foreign(s, a.identity) && MadeBy(a.entries, a.identity) && SlotsFree(s.slots, a.identity.hash)
    ensures PartOf(Published(s, a.name, a.identity, a.entries), j).slots
         == if j == a.identity then Whole(a).slots else PartOf(s, j).slots
  {
    var after := Put(s.slots, a.identity.hash, a.entries, LABELS);
    var mine := Put(map[], a.identity.hash, a.entries, LABELS);
    forall t: Slot
      ensures t in after && after[t].creator == j <==>
        if j == a.identity then t in mine else t in s.slots && s.slots[t].creator == j
      ensures t in after && after[t].creator == j ==> after[t] == if j == a.identity then mine[t] else s.slots[t]
    {
      PutAt(s.slots, a.identity.hash, a.entries, LABELS, t);
      PutAt(map[], a.identity.hash, a.entries, LABELS, t);
    }
  }

  lemma IdentityPart(r: Registry, a: Attempt, j: Identity)
    requires a.identity.hash !in r.identities
    requires forall h | h in r.identities :: r.identities[h].identity != a.identity
    ensures var g := Registered(a.identity, "room_server");
      var after := r.identities[a.identity.hash := g];
      (map h | h in after && after[h].identity == j :: after[h])
      == if j == a.identity then map[a.identity.hash := g]
         else map h | h in r.identities && r.identities[h].identity == j :: r.identities[h]
  {
    var g, h0 := Registered(a.identity, "room_server"), a.identity.hash;
    var after := r.identities[h0 := g];
    if j == a.identity {
      var mine := map h | h in after && after[h].identity == j :: after[h];
      assert forall h :: h in mine <==> h == h0;
    }
  }

  lemma StepKeepsInv(w: World, a: Step)
    requires Inv(w) && Enabled(w, a)
    ensures Inv(Next(w, a))
  {
    match a {
      case Begin(q, i, made, specOk) => BeginKeepsInv(w, q, i, made, specOk);
      case Fail => QuietKeepsInv(w, Next(w, a));
      case Complete(specOk, monitorFails) => CompleteKeepsInv(w, specOk, monitorFails);
      case Others(after) => OthersKeepInv(w, after);
      case Shutdown => ShutdownKeepsInv(w);
    }
  }

  lemma BeginKeepsInv(w: World, q: Request, i: Identity, made: Entries, specOk: bool)
    requires Inv(w) && Enabled(w, Begin(q, i, made, specOk))
    ensures Inv(Next(w, Begin(q, i, made, specOk)))
  {
    var w' := Next(w, Begin(q, i, made, specOk));
    assert i in w.active ==> ActiveIsReady(w, i);
    forall j | j in w'.born ensures AllOrNothing(w', j) {
      assert j != i ==> AllOrNothing(w, j);
    }
    forall j | j in w'.active ensures ActiveIsReady(w', j) {
      assert ActiveIsReady(w, j);
    }
  }

  /** The pending activation gives up: nothing was visible, and nothing changes. */
  lemma QuietKeepsInv(w: World, w': World)
    requires Inv(w) && w.pending.Some?
    requires w' == w.(pending := None) || w' == w.(pending := None, shared := RolledBack(w.shared, w.pending.value))
    ensures Inv(w') && w'.shared == w.shared
  {
    assert AllOrNothing(w, w.pending.value.identity);
    RollbackIsExact(w.shared, w.pending.value);
    forall j | j in w'.born ensures AllOrNothing(w', j) {
      assert AllOrNothing(w, j);
    }
    forall j | j in w'.active ensures ActiveIsReady(w', j) {
      assert ActiveIsReady(w, j);
    }
  }

  lemma CompleteKeepsInv(w: World, specOk: bool, monitorFails: bool)
    requires Inv(w) && w.pending.Some?
    ensures Inv(Next(w, Complete(specOk, monitorFails)))
  {
    var p := w.pending.value;
    assert AllOrNothing(w, p.identity);
    CompletionIsExact(w.shared, p, specOk, monitorFails);
    if Succeeds(w.shared, p, specOk, monitorFails) {
      PublishKeepsInv(w, p, Next(w, Complete(specOk, monitorFails)));
    } else {
      QuietKeepsInv(w, w.(pending := None));
    }
  }

  lemma PublishKeepsInv(w: World, p: Attempt, w': World)
    requires Inv(w) && w.pending == Some(p) && Ready(p.entries, p.identity)
    requires Free(w.shared.registry, p.name, p.identity.hash) && SlotsFree(w.shared.slots, p.identity.hash)
    requires w' == w.(pending := None, shared := Published(w.shared, p.name, p.identity, p.entries),
                      active := w.active[p.identity := p])
    ensures Inv(w')
  {
    RegisterKeepsOneToOne(w.shared.registry, p.name, Registered(p.identity, "room_server"));
    assert AllOrNothing(w, p.identity);
    forall j | j in w'.born ensures AllOrNothing(w', j) {
      assert AllOrNothing(w, j);
      PublishedParts(w.shared, p, j);
    }
    forall j | j in w'.active ensures ActiveIsReady(w', j) {
      assert j != p.identity ==> ActiveIsReady(w, j);
    }
  }

  lemma OthersKeepInv(w: World, after: Shared)
    requires Inv(w) && OthersMay(w, after)
    ensures Inv(w.(shared := after))
  {
    var w' := w.(shared := after);
    forall j | j in w'.born ensures AllOrNothing(w', j) {
      assert AllOrNothing(w, j);
    }
    forall j | j in w'.active ensures ActiveIsReady(w', j) {
      assert ActiveIsReady(w, j);
    }
  }

  lemma ShutdownKeepsInv(w: World)
    requires Inv(w)
    ensures Inv(w.(shared := w.shared.(shutdown := true)))
  {
    var w' := w.(shared := w.shared.(shutdown := true));
    forall j | j in w'.born ensures AllOrNothing(w', j) {
      assert AllOrNothing(w, j) && PartOf(w'.shared, j) == PartOf(w.shared, j);
    }
    forall j | j in w'.active ensures ActiveIsReady(w', j) {
      assert ActiveIsReady(w, j);
    }
  }

  /** At every await of every run, each room that was ever attempted is published whole or not at all, and
      the manager's three dictionaries are one-to-one. */
  lemma {:induction false} EveryRunIsAllOrNothing(w: World, run: seq<Step>, w': World)
    requires Inv(w) && Leads(w, run, w')
    ensures Inv(w')
    decreases |run|
  {
    if run != [] {
      StepKeepsInv(w, run[0]);
      EveryRunIsAllOrNothing(Next(w, run[0]), run[1..], w');
    }
  }

  /** A daemon without rooms; its other owners may be anybody. */
  function Start(shared: Shared): World
    requires OneToOne(shared.registry)
  {
    World(shared, None, {}, map[])
  }

  /** So from a daemon without rooms, whatever happens: each room ever attempted owns all of its entries in the
      maps and in the manager, or none, and what is under way is hidden. */
  lemma RoomsAreAllOrNothing(shared: Shared, run: seq<Step>, w: World, i: Identity)
    requires OneToOne(shared.registry) && Leads(Start(shared), run, w)
    ensures i in w.born ==> PartOf(w.shared, i) == if i in w.active then Whole(w.active[i]) else NOTHING
    ensures OneToOne(w.shared.registry) && w.active.Keys <= w.born
    ensures w.pending.Some? ==> w.pending.value.identity in w.born && w.pending.value.identity !in w.active
  {
    EveryRunIsAllOrNothing(Start(shared), run, w);
    assert i in w.born ==> AllOrNothing(w, i);
    assert forall k | k in w.active :: ActiveIsReady(w, k);
  }

  /** An activation that fails, at whatever point, leaves the shared state exactly as it found it. */
  lemma FailureRestores(w: World, a: Step)
    requires Inv(w) && Enabled(w, a) && (a.Fail? || a.Complete?) && Next(w, a).active == w.active
    ensures Next(w, a).shared == w.shared
  {
    var p := w.pending.value;
    assert AllOrNothing(w, p.identity);
    if a.Fail? {
      RollbackIsExact(w.shared, p);
    } else {
      CompletionIsExact(w.shared, p, a.specOk, a.monitorFails);
      assert p.identity !in w.active;
    }
  }

  /** The steps of a run are the sections of `RoomHost`: in every reachable state what `Complete` demands holds,
      and the shared state afterwards is the one that its contract and that of `Begin` state. */
  lemma StepsAreHosts(w: World, a: Step)
    requires Inv(w) && Enabled(w, a)
    ensures a.Begin? ==>
      && Next(w, a).shared == w.shared
      && (Next(w, a).pending.Some? <==> Admissible(w.shared, a.q, a.identity.hash, a.specOk))
    ensures a.Complete? ==>
      var p := w.pending.value;
      && OneToOne(w.shared.registry) && Foreign(w.shared, p.identity) && MadeBy(p.entries, p.identity)
      && var ok := Publishable(w.shared, p.name, p.identity, p.entries, a.specOk) && !a.monitorFails;
         Next(w, a).shared == (if ok then Published(w.shared, p.name, p.identity, p.entries) else w.shared)
  {
    if a.Complete? {
      var p := w.pending.value;
      assert AllOrNothing(w, p.identity);
      NothingIsForeign(w.shared, p.identity);
      CompletionIsExact(w.shared, p, a.specOk, a.monitorFails);
    }
  }

  // ---------------------------------------------------------------- when a room begins, and when it is published

  /** Nothing stands under the hash or the name. */
  predicate Vacant(s: Shared, name: string, h: Hash) {
    && name !in s.registry.named && h !in s.registry.identities
    && Slot(Acl, h) !in s.slots && Slot(Login, h) !in s.slots && Slot(Text, h) !in s.slots
    && Slot(Protocol, h) !in s.slots && Slot(Room, h) !in s.slots
  }

  /** The five entries of a room: all but the first carry its identity, the last three share the first one's access
      list, and its sync task runs. */
  predicate FiveEntries(e: Entries, i: Identity) {
    && e.Keys == {Acl, Login, Text, Protocol, Room}
    && e[Login].localIdentity == e[Text].localIdentity == e[Protocol].localIdentity == e[Room].localIdentity == i
    && e[Text].acl == e[Protocol].acl == e[Room].acl == e[Acl].serial
    && e[Room].running
  }

  lemma VacantIff(s: Shared, name: string, h: Hash)
    ensures Vacant(s, name, h) <==> Free(s.registry, name, h) && SlotsFree(s.slots, h)
  {
    if Vacant(s, name, h) {
      forall l: Label ensures Slot(l, h) !in s.slots {
        EveryLabel(l);
      }
    }
  }

  lemma ReadyIff(e: Entries, i: Identity)
    ensures Ready(e, i) <==> FiveEntries(e, i)
  {
    if Ready(e, i) {
      forall l: Label ensures l in e.Keys <==> l in {Acl, Login, Text, Protocol, Room} {
        EveryLabel(l);
      }
    }
  }

  /** An activation begins exactly if the daemon is not shutting down, the specification is well formed and still the
      saved one, and name and hash are taken by nobody: no identity, no handler, no companion, not the node itself. */
  lemma BeginsIff(w: World, q: Request, i: Identity, made: Entries, specOk: bool)
    requires Enabled(w, Begin(q, i, made, specOk))
    ensures Next(w, Begin(q, i, made, specOk)).pending == Some(Attempt(q.name, i, made)) <==>
      && !w.shared.shutdown && specOk
      && (exists c | c in q.name :: c !in " \t\n\r") && q.name != "repeater"
      && q.settingsAreMapping && q.keyLength in {32, 64}
      && i.hash != w.shared.localHash && i.hash !in w.shared.companions && Vacant(w.shared, q.name, i.hash)
  {
    VacantIff(w.shared, q.name, i.hash);
  }

  /** It ends with the room published exactly if at that moment the daemon is still not shutting down, the saved
      specification is still the same, all five entries are there and belong together, name and hash are still
      vacant, and monitoring could start. */
  lemma PublishesIff(w: World, specOk: bool, monitorFails: bool)
    requires Inv(w) && w.pending.Some?
    ensures var p := w.pending.value;
      p.identity in Next(w, Complete(specOk, monitorFails)).active <==>
        && specOk && !monitorFails && !w.shared.shutdown
        && FiveEntries(p.entries, p.identity) && Vacant(w.shared, p.name, p.identity.hash)
  {
    var p := w.pending.value;
    VacantIff(w.shared, p.name, p.identity.hash);
    ReadyIff(p.entries, p.identity);
  }

  /** Every room that has become active in a run was published by a step that found all of that. */
  lemma {:induction false} ActiveWasChecked(w: World, run: seq<Step>, w': World, i: Identity)
      returns (k: nat, u: World)
    requires Inv(w) && Leads(w, run, w') && i in w'.active && i !in w.active
    ensures k < |run| && run[k] == Complete(true, false) && Leads(w, run[..k], u)
    ensures u.pending == Some(w'.active[i]) && w'.active[i].identity == i && !u.shared.shutdown
    ensures FiveEntries(w'.active[i].entries, i) && Vacant(u.shared, w'.active[i].name, i.hash)
    decreases |run|
  {
    var w1 := Next(w, run[0]);
    StepKeepsInv(w, run[0]);
    if i in w1.active {
      k, u := 0, w;
      PublishesIff(w, run[0].specOk, run[0].monitorFails);
      ActiveStays(w1, run[1..], w', i);
      assert run[..0] == [];
    } else {
      var n;
      n, u := ActiveWasChecked(w1, run[1..], w', i);
      k := n + 1;
      assert run[..k][0] == run[0] && run[..k][1..] == run[1..][..n];
    }
  }

  lemma {:induction false} ActiveStays(w: World, run: seq<Step>, w': World, i: Identity)
    requires Inv(w) && Leads(w, run, w') && i in w.active
    ensures i in w'.active && w'.active[i] == w.active[i]
    decreases |run|
  {
    if run != [] {
      StepKeepsInv(w, run[0]);
      ActiveStays(Next(w, run[0]), run[1..], w', i);
    }
  }

  /** Once shutdown has started, no activation publishes anything, however the run goes on. */
  lemma {:induction false} ShutdownClosesRooms(w: World, run: seq<Step>, w': World)
    requires Inv(w) && w.shared.shutdown && Leads(w, run, w')
    ensures w'.shared.shutdown && w'.active == w.active
    ensures forall i | i in w.born :: PartOf(w'.shared, i) == PartOf(w.shared, i)
    decreases |run|
  {
    if run != [] {
      StepKeepsInv(w, run[0]);
      ShutdownStep(w, run[0]);
      ShutdownClosesRooms(Next(w, run[0]), run[1..], w');
    }
  }

  lemma ShutdownStep(w: World, a: Step)
    requires Inv(w) && w.shared.shutdown && Enabled(w, a)
    ensures var w1 := Next(w, a);
      && w1.shared.shutdown && w1.active == w.active && w.born <= w1.born
      && forall i | i in w.born :: PartOf(w1.shared, i) == PartOf(w.shared, i)
  {
    if a.Fail? || a.Complete? {
      FailureRestores(w, a);
    }
    if a.Shutdown? {
      assert w.shared.(shutdown := true) == w.shared;
    }
  }
}
