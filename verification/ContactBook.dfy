/**
 Handling verified adverts for a companion's contacts (`_handle_advert_event` in advert_persistence.py, with
 `_contact_pools` and `_next_contact_lastmod` of contact_commands.py and `prepare_load` of contact_store.py).

 A pool is an insertion-ordered dictionary, held as the sequence of its contacts. The functions decide what an
 event does; `CompanionBook` carries it out.
 */
module ContactBook {
  import opened Wrappers

  const ANONYMOUS := 0
  const UINT32_MAX := 0xFFFF_FFFF

  type Key = seq<int>

  /** The stored fields of a contact; kind 0 is an anonymous recipient. */
  datatype Contact = Contact(
    key: Key, name: string, kind: nat, flags: nat, routeLen: int, route: seq<int>, advertTime: int,
    packet: Option<seq<int>>, lastmod: int, lat: real, lon: real, syncSince: int)

  type Pool = seq<Contact>

  predicate Favourite(c: Contact) {
    c.flags % 2 == 1
  }

  // ---------------------------------------------------------------- pools

  function Keys(p: Pool): set<Key> {
    if p == [] then {} else {p[0].key} + Keys(p[1..])
  }

  predicate Distinct(p: Pool) {
    p == [] || (p[0].key !in Keys(p[1..]) && Distinct(p[1..]))
  }

  function Find(p: Pool, k: Key): Option<Contact> {
    if p == [] then None else if p[0].key == k then Some(p[0]) else Find(p[1..], k)
  }

  function Drop(p: Pool, k: Key): Pool {
    if p == [] then [] else if p[0].key == k then Drop(p[1..], k) else [p[0]] + Drop(p[1..], k)
  }

  function Real(p: Pool): Pool {
    if p == [] then [] else if p[0].kind == ANONYMOUS then Real(p[1..]) else [p[0]] + Real(p[1..])
  }

  function Transient(p: Pool): Pool {
    if p == [] then [] else if p[0].kind == ANONYMOUS then [p[0]] + Transient(p[1..]) else Transient(p[1..])
  }

  function Overwritable(p: Pool): Pool {
    if p == [] then [] else if Favourite(p[0]) then Overwritable(p[1..]) else [p[0]] + Overwritable(p[1..])
  }

  /** min(..., key=lastmod): the first of the least. */
  function Oldest(p: Pool): Contact
    requires p != []
  {
    if |p| == 1 then p[0]
    else
      var rest := Oldest(p[1..]);
      if p[0].lastmod <= rest.lastmod then p[0] else rest
  }

  function Latest(p: Pool, floor: int): int {
    if p == [] then floor else Latest(p[1..], if p[0].lastmod > floor then p[0].lastmod else floor)
  }

  function AsRows(p: Pool): map<Key, Contact> {
    if p == [] then map[] else AsRows(p[1..])[p[0].key := p[0]]
  }

  // ---------------------------------------------------------------- the decision

  datatype Advert = Advert(contact: Contact, hasLocation: Option<bool>, hops: nat)

  /** `autoAdd` is the answer of the preferences for the advert's type. */
  datatype Settings = Settings(autoAdd: bool, maxHops: nat, overwriteWhenFull: bool)

  datatype Limits = Limits(peers: nat, anonymous: nat)

  datatype Verdict =
    | Stale
    | Refused(peers: Pool, transient: Pool, full: bool)
    | Taken(peers: Pool, transient: Pool, contact: Contact, deleted: Option<Key>)

  /** An advert of a known peer keeps what only this node knows about the peer. */
  function Merged(a: Advert, known: Contact): Contact {
    var c := a.contact.(routeLen := known.routeLen, route := known.route, flags := known.flags,
                        syncSince := known.syncSince,
                        packet := if a.contact.packet.None? then known.packet else a.contact.packet);
    if a.hasLocation == Some(true) then c else c.(lat := known.lat, lon := known.lon)
  }

  predicate Outdated(peers: Pool, transient: Pool, a: Advert) {
    var existing := if Find(peers, a.contact.key).Some? then Find(peers, a.contact.key)
      else Find(transient, a.contact.key);
    existing.Some? && a.contact.advertTime <= existing.value.advertTime
  }

  function Candidate(peers: Pool, a: Advert): Contact {
    var known := Find(peers, a.contact.key);
    if known.Some? then Merged(a, known.value) else a.contact
  }

  /** Room in the anonymous pool: its oldest goes when it is full. */
  function Thinned(p: Pool, limit: nat): Pool {
    if |p| >= limit && p != [] then Drop(p, Oldest(p).key) else p
  }

  function Judge(peers: Pool, transient: Pool, a: Advert, s: Settings, limits: Limits): Verdict {
    var k := a.contact.key;
    var known := Find(peers, k).Some?;
    var c := Candidate(peers, a);
    var (peers1, transient1) := (Drop(peers, k), Drop(transient, k));
    if Outdated(peers, transient, a) then Stale
    else if !known && !(s.autoAdd && (s.maxHops == 0 || a.hops < s.maxHops)) then Refused(peers1, transient1, false)
    else if c.kind == ANONYMOUS then
      Taken(peers1, Thinned(transient1, limits.anonymous) + [c], c, if known then Some(k) else None)
    else if |peers1| < limits.peers then Taken(peers1 + [c], transient1, c, None)
    else if s.overwriteWhenFull && Overwritable(peers1) != [] then
      var victim := Oldest(Overwritable(peers1)).key;
      Taken(Drop(peers1, victim) + [c], transient1, c, Some(victim))
    else Refused(peers1, transient1, true)
  }

  /** The accepted contact, last in its pool, gets its revision. */
  function Stamped(p: Pool, c: Contact, revision: int): Pool {
    if p != [] && p[|p| - 1].key == c.key then p[..|p| - 1] + [p[|p| - 1].(lastmod := revision)] else p
  }

  // ---------------------------------------------------------------- the event

  datatype Book = Book(contacts: Pool, rows: map<Key, Contact>, watermark: int)

  datatype Outcome = Outcome(failed: bool, accepted: bool, deleted: Option<Key>, full: bool)

  const QUIET := Outcome(false, false, None, false)
  const FAILED := Outcome(true, false, None, false)

  /** `prepare_load`: None stands for its ValueError. */
  function PrepareLoad(peers: Pool, transient: Pool, limits: Limits): Option<Pool> {
    if Distinct(peers + transient) && |peers| <= limits.peers && |transient| <= limits.anonymous
       && Transient(peers) == [] && Real(transient) == []
    then Some(peers + transient) else None
  }

  function Saved(rows: map<Key, Contact>, peers: Pool, c: Contact, deleted: Option<Key>): map<Key, Contact> {
    if deleted.Some? then AsRows(peers) else if c.kind != ANONYMOUS then rows[c.key := c] else rows
  }

  /** Is the database asked at all? */
  predicate NeedsSave(c: Contact, deleted: Option<Key>) {
    deleted.Some? || c.kind != ANONYMOUS
  }

  function Revision(watermark: int, now: int): int {
    if now > watermark then now else watermark + 1
  }

  function Commit(b: Book, v: Verdict, now: int, saves: bool, limits: Limits): (Outcome, Book)
    requires v.Taken?
  {
    var revision := Revision(b.watermark, now);
    if revision > UINT32_MAX then (FAILED, b)
    else
      var b1 := b.(watermark := revision);
      var c := v.contact.(lastmod := revision);
      var (peers, transient) := (Stamped(v.peers, c, revision), Stamped(v.transient, c, revision));
      var load := PrepareLoad(peers, transient, limits);
      if load.None? || (NeedsSave(c, v.deleted) && !saves) then (FAILED, b1)
      else (Outcome(false, true, v.deleted, false),
            b1.(contacts := load.value, rows := Saved(b.rows, peers, c, v.deleted)))
  }

  function Handle(b: Book, a: Advert, s: Settings, now: int, saves: bool, limits: Limits): (Outcome, Book) {
    var (peers, transient) := (Real(b.contacts), Transient(b.contacts));
    var seen := b.(watermark := Latest(b.contacts, b.watermark));
    var v := Judge(peers, transient, a, s, limits);
    match v
    case Stale => (QUIET, seen)
    case Taken(_, _, _, _) => Commit(seen, v, now, saves, limits)
    case Refused(peers1, transient1, full) =>
      if Find(transient, a.contact.key).None? then (Outcome(false, false, None, full), seen)
      else
        var load := PrepareLoad(peers1, transient1, limits);
        if load.None? then (FAILED, seen) else (Outcome(false, false, None, full), seen.(contacts := load.value))
  }

  class CompanionBook {
    var contacts: Pool
    var rows: map<Key, Contact>
    var watermark: int
    const limits: Limits

    function View(): Book
      reads this
    {
      Book(contacts, rows, watermark)
    }

    constructor (limits: Limits)
      ensures this.limits == limits && View() == Book([], map[], 0)
    {
      this.limits := limits;
      contacts, rows, watermark := [], map[], 0;
    }

    /** `_contact_pools` */
    method ContactPools() returns (peers: Pool, transient: Pool)
      modifies this`watermark
      ensures peers == Real(contacts) && transient == Transient(contacts)
      ensures watermark == Latest(contacts, old(watermark))
    {
      peers, transient := [], [];
      var i := 0;
      while i < |contacts|
        invariant 0 <= i <= |contacts|
        invariant peers + Real(contacts[i..]) == Real(contacts)
        invariant transient + Transient(contacts[i..]) == Transient(contacts)
        invariant Latest(contacts[i..], watermark) == Latest(contacts, old(watermark))
      {
        assert contacts[i..][1..] == contacts[i + 1..];
        if contacts[i].lastmod > watermark {
          watermark := contacts[i].lastmod;
        }
        if contacts[i].kind == ANONYMOUS {
          transient := transient + [contacts[i]];
        } else {
          peers := peers + [contacts[i]];
        }
        i := i + 1;
      }
    }

    /** `_handle_advert_event` up to its notifications. */
    method HandleAdvert(a: Advert, s: Settings, now: int, saves: bool) returns (o: Outcome)
      modifies this
      ensures (o, View()) == Handle(old(View()), a, s, now, saves, limits)
    {
      var all := contacts;
      var peers, transient := ContactPools();
      var k := a.contact.key;
      var known, removed := Find(peers, k), Find(transient, k);
      var existing := if known.Some? then known else removed;
      if existing.Some? && a.contact.advertTime <= existing.value.advertTime {
        return QUIET;
      }
      peers, transient := Drop(peers, k), Drop(transient, k);
      var c := a.contact;
      var accepted, full, deleted := s.autoAdd && (s.maxHops == 0 || a.hops < s.maxHops), false, None;
      if known.Some? {
        c, accepted := Merged(a, known.value), true;
      }
      if accepted {
        if c.kind == ANONYMOUS {
          transient := Thinned(transient, limits.anonymous) + [c];
          deleted := if known.Some? then Some(k) else None;
        } else {
          if |peers| >= limits.peers {
            var candidates := Overwritable(peers);
            if s.overwriteWhenFull && candidates != [] {
              deleted := Some(Oldest(candidates).key);
              peers := Drop(peers, Oldest(candidates).key);
            } else {
              full, accepted := true, false;
            }
          }
          if accepted {
            peers := peers + [c];
          }
        }
      }
      if accepted {
        o := Publish(Taken(peers, transient, c, deleted), now, saves);
      } else {
        o := Outcome(false, false, None, full);
        if removed.Some? {
          var load := PrepareLoad(peers, transient, limits);
          if load.None? {
            return FAILED;
          }
          contacts := load.value;
        }
      }
    }

    /** Allocate the revision, validate, save, and only then publish. */
    method Publish(v: Verdict, now: int, saves: bool) returns (o: Outcome)
      requires v.Taken?
      modifies this
      ensures (o, View()) == Commit(old(View()), v, now, saves, limits)
    {
      var revision := Revision(watermark, now);
      if revision > UINT32_MAX {
        return FAILED;
      }
      watermark := revision;
      var c := v.contact.(lastmod := revision);
      var peers, transient := Stamped(v.peers, c, revision), Stamped(v.transient, c, revision);
      var load := PrepareLoad(peers, transient, limits);
      if load.None? || (NeedsSave(c, v.deleted) && !saves) {
        return FAILED;
      }
      rows := Saved(rows, peers, c, v.deleted);
      contacts := load.value;
      o := Outcome(false, true, v.deleted, false);
    }
  }
}
