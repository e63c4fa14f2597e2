/**
 Activating a room server (`_activate_room_from_config` in room_lifecycle.py). Three helpers publish five
 handler entries for the room; the activation detaches them before its first await, waits for the room's start
 tasks, and then publishes handlers and identity in one piece, or rolls back.

 Other coroutines run only at the awaits. The functions give the effect of each uninterrupted section;
 `RoomHost` carries the sections out on the shared dictionaries.
 */
module RoomActivation {
  import opened IdentityRegistry

  datatype Label = Acl | Login | Text | Protocol | Room

  const LABELS: seq<Label> := [Acl, Login, Text, Protocol, Room]

  /** A place in one of the five handler maps. */
  datatype Slot = Slot(place: Label, hash: Hash)

  /** A handler object, the activation that created it, and what the readiness check looks at. */
  datatype Entry = Entry(serial: nat, creator: Identity, localIdentity: Identity, acl: nat, running: bool)

  type Entries = map<Label, Entry>

  datatype Shared = Shared(slots: map<Slot, Entry>, registry: Registry, companions: set<Hash>, localHash: Hash,
      shutdown: bool)

  datatype Request = Request(name: string, keyLength: nat, settingsAreMapping: bool)

  predicate Blank(name: string) {
    forall c | c in name :: c in " \t\n\r"
  }

  predicate WellFormed(q: Request) {
    !Blank(q.name) && q.name != "repeater" && q.settingsAreMapping && (q.keyLength == 32 || q.keyLength == 64)
  }

  predicate SlotsFree(slots: map<Slot, Entry>, h: Hash) {
    forall l: Label :: Slot(l, h) !in slots
  }

  /** May the activation begin? */
  predicate Admissible(s: Shared, q: Request, h: Hash, specOk: bool) {
    && !s.shutdown && WellFormed(q) && specOk
    && Free(s.registry, q.name, h) && h != s.localHash && h !in s.companions && SlotsFree(s.slots, h)
  }

  /** `_require_room_ready`: all five entries belong together and the sync task runs. */
  predicate Ready(entries: Entries, identity: Identity) {
    && Acl in entries && Login in entries && Text in entries && Protocol in entries && Room in entries
    && entries[Login].localIdentity == identity
    && entries[Text].localIdentity == identity && entries[Text].acl == entries[Acl].serial
    && entries[Protocol].localIdentity == identity && entries[Protocol].acl == entries[Acl].serial
    && entries[Room].localIdentity == identity && entries[Room].acl == entries[Acl].serial && entries[Room].running
  }

  /** May the room be published after its start tasks have ended? */
  predicate Publishable(s: Shared, name: string, identity: Identity, entries: Entries, specOk: bool) {
    && Ready(entries, identity) && !s.shutdown && specOk
    && Free(s.registry, name, identity.hash) && SlotsFree(s.slots, identity.hash)
  }

  /** Entries published one label after the other. */
  function Put(slots: map<Slot, Entry>, h: Hash, entries: Entries, ls: seq<Label>): map<Slot, Entry>
    decreases |ls|
  {
    if ls == [] then slots
    else Put(if ls[0] in entries then slots[Slot(ls[0], h) := entries[ls[0]]] else slots, h, entries, ls[1..])
  }

  /** What is left when everything under the hash is popped. */
  function Emptied(slots: map<Slot, Entry>, h: Hash, ls: seq<Label>): map<Slot, Entry>
    decreases |ls|
  {
    if ls == [] then slots else Emptied(slots - {Slot(ls[0], h)}, h, ls[1..])
  }

  /** What popping everything under the hash yields, on top of what was popped before. */
  function Popped(slots: map<Slot, Entry>, h: Hash, ls: seq<Label>, before: Entries): Entries
    decreases |ls|
  {
    if ls == [] then before
    else
      var s := Slot(ls[0], h);
      Popped(slots - {s}, h, ls[1..], if s in slots then before[ls[0] := slots[s]] else before)
  }

  /** Only the exact entries of a failed activation are removed. */
  function Removed(slots: map<Slot, Entry>, h: Hash, entries: Entries, ls: seq<Label>): map<Slot, Entry>
    decreases |ls|
  {
    if ls == [] then slots
    else
      var s := Slot(ls[0], h);
      var rest := if ls[0] in entries && s in slots && slots[s] == entries[ls[0]] then slots - {s} else slots;
      Removed(rest, h, entries, ls[1..])
  }

  function Published(s: Shared, name: string, identity: Identity, entries: Entries): Shared {
    s.(slots := Put(s.slots, identity.hash, entries, LABELS),
       registry := Added(s.registry, name, Registered(identity, "room_server")))
  }

  // ---------------------------------------------------------------- the maps, slot by slot

  lemma {:induction false} PutAt(slots: map<Slot, Entry>, h: Hash, entries: Entries, ls: seq<Label>, s: Slot)
    ensures var mine := s.hash == h && s.place in ls && s.place in entries;
      var after := Put(slots, h, entries, ls);
      (s in after <==> mine || s in slots) && (s in after ==> after[s] == if mine then entries[s.place] else slots[s])
    decreases |ls|
  {
    if ls != [] {
      PutAt(if ls[0] in entries then slots[Slot(ls[0], h) := entries[ls[0]]] else slots, h, entries, ls[1..], s);
    }
  }

  lemma {:induction false} EmptiedAt(slots: map<Slot, Entry>, h: Hash, ls: seq<Label>, s: Slot)
    ensures var after := Emptied(slots, h, ls);
      (s in after <==> s in slots && !(s.hash == h && s.place in ls)) && (s in after ==> after[s] == slots[s])
    decreases |ls|
  {
    if ls != [] {
      EmptiedAt(slots - {Slot(ls[0], h)}, h, ls[1..], s);
    }
  }

  lemma {:induction false} PoppedAt(slots: map<Slot, Entry>, h: Hash, ls: seq<Label>, before: Entries, l: Label)
    ensures var popped := Popped(slots, h, ls, before);
      var now := l in ls && Slot(l, h) in slots;
      (l in popped <==> now || l in before)
        && (l in popped ==> popped[l] == if now then slots[Slot(l, h)] else before[l])
    decreases |ls|
  {
    if ls != [] {
      var s := Slot(ls[0], h);
      PoppedAt(slots - {s}, h, ls[1..], if s in slots then before[ls[0] := slots[s]] else before, l);
    }
  }

  lemma {:induction false} RemovedAt(slots: map<Slot, Entry>, h: Hash, entries: Entries, ls: seq<Label>, s: Slot)
    ensures var mine := s.hash == h && s.place in ls && s.place in entries && s in slots
      && slots[s] == entries[s.place];
      var after := Removed(slots, h, entries, ls);
      (s in after <==> s in slots && !mine) && (s in after ==> after[s] == slots[s])
    decreases |ls|
  {
    if ls != [] {
      var s0 := Slot(ls[0], h);
      var mine := ls[0] in entries && s0 in slots && slots[s0] == entries[ls[0]];
      RemovedAt(if mine then slots - {s0} else slots, h, entries, ls[1..], s);
    }
  }

  lemma EveryLabel(l: Label)
    ensures l in LABELS
  {
    match l {
      case Acl => assert LABELS[0] == l;
      case Login => assert LABELS[1] == l;
      case Text => assert LABELS[2] == l;
      case Protocol => assert LABELS[3] == l;
      case Room => assert LABELS[4] == l;
    }
  }

  /** Publishing into free slots and detaching at once gives back the maps and all that was published. */
  lemma DetachUndoesPublishing(slots: map<Slot, Entry>, h: Hash, made: Entries)
    requires SlotsFree(slots, h)
    ensures var provisional := Put(slots, h, made, LABELS);
      Emptied(provisional, h, LABELS) == slots && Popped(provisional, h, LABELS, map[]) == made
  {
    var provisional := Put(slots, h, made, LABELS);
    forall s: Slot ensures s in Emptied(provisional, h, LABELS) <==> s in slots {
      EveryLabel(s.place);
      PutAt(slots, h, made, LABELS, s);
      EmptiedAt(provisional, h, LABELS, s);
    }
    forall s | s in slots ensures Emptied(provisional, h, LABELS)[s] == slots[s] {
      PutAt(slots, h, made, LABELS, s);
      EmptiedAt(provisional, h, LABELS, s);
    }
    forall l: Label ensures l in Popped(provisional, h, LABELS, map[]) <==> l in made {
      EveryLabel(l);
      PutAt(slots, h, made, LABELS, Slot(l, h));
      PoppedAt(provisional, h, LABELS, map[], l);
    }
    forall l | l in made ensures Popped(provisional, h, LABELS, map[])[l] == made[l] {
      EveryLabel(l);
      PutAt(slots, h, made, LABELS, Slot(l, h));
      PoppedAt(provisional, h, LABELS, map[], l);
    }
  }

  /** The rollback of a complete publication restores the maps. */
  lemma RemoveUndoesPublishing(slots: map<Slot, Entry>, h: Hash, entries: Entries)
    requires SlotsFree(slots, h)
    ensures Removed(Put(slots, h, entries, LABELS), h, entries, LABELS) == slots
  {
    var full := Put(slots, h, entries, LABELS);
    forall s: Slot ensures s in Removed(full, h, entries, LABELS) <==> s in slots {
      EveryLabel(s.place);
      PutAt(slots, h, entries, LABELS, s);
      RemovedAt(full, h, entries, LABELS, s);
    }
    forall s | s in slots ensures Removed(full, h, entries, LABELS)[s] == slots[s] {
      PutAt(slots, h, entries, LABELS, s);
      RemovedAt(full, h, entries, LABELS, s);
    }
  }

  /** Entries that nobody published are not found, so the rollback leaves other owners' entries alone. */
  lemma RemoveSparesOthers(slots: map<Slot, Entry>, h: Hash, entries: Entries)
    requires forall s | s in slots && s.hash == h && s.place in entries :: slots[s] != entries[s.place]
    ensures Removed(slots, h, entries, LABELS) == slots
  {
    forall s: Slot ensures s in Removed(slots, h, entries, LABELS) <==> s in slots {
      RemovedAt(slots, h, entries, LABELS, s);
    }
    forall s | s in slots ensures Removed(slots, h, entries, LABELS)[s] == slots[s] {
      RemovedAt(slots, h, entries, LABELS, s);
    }
  }

  class RoomHost {
    var slots: map<Slot, Entry>
    var companions: set<Hash>
    var localHash: Hash
    var shutdown: bool
    const manager: IdentityManager

    function View(): Shared
      reads this, manager
    {
      Shared(slots, manager.View(), companions, localHash, shutdown)
    }

    constructor (manager: IdentityManager, localHash: Hash)
      ensures this.manager == manager
      ensures View() == Shared(map[], manager.View(), {}, localHash, false)
    {
      this.manager, this.localHash := manager, localHash;
      slots, companions, shutdown := map[], {}, false;
    }

    /** Publish the entries there are, one map after the other. */
    method PutAll(h: Hash, entries: Entries)
      modifies this`slots
      ensures slots == Put(old(slots), h, entries, LABELS)
    {
      var i := 0;
      while i < |LABELS|
        invariant 0 <= i <= |LABELS|
        invariant Put(slots, h, entries, LABELS[i..]) == Put(old(slots), h, entries, LABELS)
      {
        if LABELS[i] in entries {
          slots := slots[Slot(LABELS[i], h) := entries[LABELS[i]]];
        }
        assert LABELS[i..][1..] == LABELS[i + 1..];
        i := i + 1;
      }
    }

    /** Take whatever stands under the room's hash out of the maps again. */
    method Detach(h: Hash) returns (entries: Entries)
      modifies this`slots
      ensures slots == Emptied(old(slots), h, LABELS)
      ensures entries == Popped(old(slots), h, LABELS, map[])
    {
      entries := map[];
      var i := 0;
      while i < |LABELS|
        invariant 0 <= i <= |LABELS|
        invariant Emptied(slots, h, LABELS[i..]) == Emptied(old(slots), h, LABELS)
        invariant Popped(slots, h, LABELS[i..], entries) == Popped(old(slots), h, LABELS, map[])
      {
        var s := Slot(LABELS[i], h);
        assert LABELS[i..][1..] == LABELS[i + 1..];
        assert s !in slots ==> slots - {s} == slots;
        if s in slots {
          entries, slots := entries[LABELS[i] := slots[s]], slots - {s};
        }
        i := i + 1;
      }
    }

    /** Remove exactly these entries, where they still stand. */
    method RemoveExact(h: Hash, entries: Entries)
      modifies this`slots
      ensures slots == Removed(old(slots), h, entries, LABELS)
    {
      var i := 0;
      while i < |LABELS|
        invariant 0 <= i <= |LABELS|
        invariant Removed(slots, h, entries, LABELS[i..]) == Removed(old(slots), h, entries, LABELS)
      {
        var s := Slot(LABELS[i], h);
        assert LABELS[i..][1..] == LABELS[i + 1..];
        if LABELS[i] in entries && s in slots && slots[s] == entries[LABELS[i]] {
          slots := slots - {s};
        }
        i := i + 1;
      }
    }

    /** The section up to the first await. `made` is what the helpers published before they returned or
        failed; none of it is visible at the await, nor after a failure. */
    method Begin(q: Request, identity: Identity, made: Entries, specOk: bool) returns (ok: bool, entries: Entries)
      modifies this`slots
      ensures ok == Admissible(old(View()), q, identity.hash, specOk)
      ensures View() == old(View())
      ensures entries == if ok then made else map[]
    {
      var h := identity.hash;
      entries := map[];
      if shutdown || !WellFormed(q) {
        return false, entries;
      }
      if q.name in manager.named || h in manager.identities || h == localHash || h in companions
         || exists l: Label :: Slot(l, h) in slots {
        return false, entries;
      }
      if !specOk {
        return false, entries;
      }
      DetachUndoesPublishing(slots, h, made);
      PutAll(h, made);
      entries := Detach(h);
      ok := true;
    }

    /** The section after the last await: check again, publish, register, start monitoring; or roll back. */
    method Complete(name: string, identity: Identity, entries: Entries, specOk: bool,
        monitorFails: bool) returns (ok: bool)
      requires OneToOne(manager.View()) && Foreign(View(), identity)
      requires forall l | l in entries :: entries[l].creator == identity
      modifies this`slots, manager
      ensures ok == (Publishable(old(View()), name, identity, entries, specOk) && !monitorFails)
      ensures View() == if ok then Published(old(View()), name, identity, entries) else old(View())
    {
      ok := false;
      if Ready(entries, identity) && !shutdown && specOk {
        var conflict := name in manager.named || identity.hash in manager.identities
          || exists l: Label :: Slot(l, identity.hash) in slots;
        if !conflict {
          WithdrawUndoesRegister(manager.View(), name, Registered(identity, "room_server"));
          RemoveUndoesPublishing(slots, identity.hash, entries);
          PutAll(identity.hash, entries);
          var registered := manager.RegisterIdentity(name, Registered(identity, "room_server"));
          if !monitorFails {
            return true;
          }
        } else {
          RemoveSparesOthers(slots, identity.hash, entries);
        }
      } else {
        RemoveSparesOthers(slots, identity.hash, entries);
      }
      Rollback(name, identity, entries);
    }

    /** The rollback up to its first await. */
    method Rollback(name: string, identity: Identity, entries: Entries)
      modifies this`slots, manager
      ensures slots == Removed(old(slots), identity.hash, entries, LABELS)
      ensures manager.View() == Withdrawn(old(manager.View()), name, identity)
    {
      RemoveExact(identity.hash, entries);
      manager.Withdraw(name, identity);
    }
  }

  /** Nothing in the maps or the manager belongs to this identity. */
  predicate Foreign(s: Shared, identity: Identity) {
    && (forall t | t in s.slots :: s.slots[t].creator != identity)
    && (forall h | h in s.registry.identities :: s.registry.identities[h].identity != identity)
    && (forall n | n in s.registry.named :: s.registry.named[n].identity != identity)
  }
}
