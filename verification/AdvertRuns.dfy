/**
 What adverts can do to a contact book: the stored rows are the real contacts after every event, failed saves
 change neither, the pools keep apart and within their limits, advert times only rise, and favourites stay.
 */
module AdvertRuns {
  import opened Wrappers
  import opened ContactBook

  // ---------------------------------------------------------------- pools as dictionaries

  lemma {:induction false} FindIff(p: Pool, k: Key)
    ensures Find(p, k).Some? <==> k in Keys(p)
    ensures Find(p, k).Some? ==> Find(p, k).value.key == k && Find(p, k).value in p
    ensures k in AsRows(p) <==> k in Keys(p)
    ensures k in AsRows(p) ==> AsRows(p)[k] == Find(p, k).value
  {
    if p != [] {
      FindIff(p[1..], k);
    }
  }

  lemma {:induction false} DropFacts(p: Pool, k: Key)
    ensures Keys(Drop(p, k)) == Keys(p) - {k} && |Drop(p, k)| <= |p|
    ensures Distinct(p) ==> Distinct(Drop(p, k))
    ensures k !in Keys(p) ==> Drop(p, k) == p
    ensures k in Keys(p) ==> |Drop(p, k)| < |p|
    ensures Transient(p) == [] ==> Transient(Drop(p, k)) == []
    ensures Real(p) == [] ==> Real(Drop(p, k)) == []
  {
    if p != [] {
      DropFacts(p[1..], k);
    }
  }

  lemma {:induction false} DropFind(p: Pool, k: Key, j: Key)
    ensures Find(Drop(p, k), j) == if j == k then None else Find(p, j)
  {
    if p != [] {
      DropFind(p[1..], k, j);
    }
  }

  lemma AppendFacts(p: Pool, q: Pool)
    ensures Keys(p + q) == Keys(p) + Keys(q)
    ensures Distinct(p + q) <==> Distinct(p) && Distinct(q) && Keys(p) * Keys(q) == {}
    ensures Real(p + q) == Real(p) + Real(q) && Transient(p + q) == Transient(p) + Transient(q)
  {
    AppendKeys(p, q);
    AppendReal(p, q);
    AppendTransient(p, q);
  }

  lemma {:induction false} AppendKeys(p: Pool, q: Pool)
    ensures Keys(p + q) == Keys(p) + Keys(q)
    ensures Distinct(p + q) <==> Distinct(p) && Distinct(q) && Keys(p) * Keys(q) == {}
  {
    if p == [] {
      assert p + q == q;
    } else {
      assert (p + q)[0] == p[0] && (p + q)[1..] == p[1..] + q;
      AppendKeys(p[1..], q);
    }
  }

  lemma {:induction false} AppendReal(p: Pool, q: Pool)
    ensures Real(p + q) == Real(p) + Real(q)
  {
    if p == [] {
      assert p + q == q;
    } else {
      assert (p + q)[0] == p[0] && (p + q)[1..] == p[1..] + q;
      AppendReal(p[1..], q);
    }
  }

  lemma {:induction false} AppendTransient(p: Pool, q: Pool)
    ensures Transient(p + q) == Transient(p) + Transient(q)
  {
    if p == [] {
      assert p + q == q;
    } else {
      assert (p + q)[0] == p[0] && (p + q)[1..] == p[1..] + q;
      AppendTransient(p[1..], q);
    }
  }

  lemma {:induction false} AppendFind(p: Pool, q: Pool, j: Key)
    ensures Find(p + q, j) == if Find(p, j).Some? then Find(p, j) else Find(q, j)
  {
    if p == [] {
      assert p + q == q;
    } else {
      assert p + q == [p[0]] + (p[1..] + q);
      AppendFind(p[1..], q, j);
    }
  }

  /** A pool of one kind is all its real, or all its anonymous, contacts. */
  lemma {:induction false} OneKind(p: Pool)
    ensures Transient(p) == [] ==> Real(p) == p
    ensures Real(p) == [] ==> Transient(p) == p
    ensures Transient(Real(p)) == [] && Real(Transient(p)) == []
    ensures Keys(Real(p)) <= Keys(p) && Keys(Transient(p)) <= Keys(p)
    ensures Distinct(p) ==> Distinct(Real(p)) && Distinct(Transient(p)) && Keys(Real(p)) * Keys(Transient(p)) == {}
    ensures |Real(p)| <= |p| && |Transient(p)| <= |p|
  {
    if p != [] {
      OneKind(p[1..]);
    }
  }

  lemma {:induction false} KindFind(p: Pool, j: Key)
    requires Distinct(p)
    ensures Find(p, j) == if Find(Real(p), j).Some? then Find(Real(p), j) else Find(Transient(p), j)
  {
    if p != [] {
      KindFind(p[1..], j);
      OneKind(p[1..]);
      FindIff(Real(p[1..]), j);
    }
  }

  lemma {:induction false} OverwritableFacts(p: Pool)
    ensures Keys(Overwritable(p)) <= Keys(p)
    ensures forall c | c in Overwritable(p) :: c in p && !Favourite(c)
  {
    if p != [] {
      OverwritableFacts(p[1..]);
    }
  }

  lemma {:induction false} OldestIn(p: Pool)
    requires p != []
    ensures Oldest(p) in p && forall c | c in p :: Oldest(p).lastmod <= c.lastmod
  {
    if |p| > 1 {
      OldestIn(p[1..]);
    }
  }

  lemma {:induction false} KeyOf(p: Pool, c: Contact)
    requires c in p
    ensures c.key in Keys(p) && (Distinct(p) ==> Find(p, c.key) == Some(c))
  {
    if p[0] != c {
      KeyOf(p[1..], c);
    }
  }

  /** Replacing one contact of a pool replaces one row. */
  lemma RowsReplaced(p: Pool, c: Contact)
    ensures AsRows(Drop(p, c.key) + [c]) == AsRows(p)[c.key := c]
  {
    var q := Drop(p, c.key) + [c];
    forall j: Key ensures j in AsRows(q) <==> j in AsRows(p) || j == c.key {
      RowAt(p, c, j);
    }
    forall j | j in AsRows(q) ensures AsRows(q)[j] == AsRows(p)[c.key := c][j] {
      RowAt(p, c, j);
    }
  }

  lemma RowAt(p: Pool, c: Contact, j: Key)
    ensures var q := Drop(p, c.key) + [c];
      && (j in AsRows(q) <==> j in AsRows(p) || j == c.key)
      && (j in AsRows(q) ==> AsRows(q)[j] == AsRows(p)[c.key := c][j])
  {
    FindIff(Drop(p, c.key) + [c], j);
    FindIff(p, j);
    AppendFind(Drop(p, c.key), [c], j);
    DropFind(p, c.key, j);
  }

  // ---------------------------------------------------------------- the invariant

  /** Rows are the real contacts; no key is twice in the book; both pools are within their limits. */
  predicate Inv(b: Book, limits: Limits) {
    && Distinct(b.contacts)
    && |Real(b.contacts)| <= limits.peers && |Transient(b.contacts)| <= limits.anonymous
    && b.rows == AsRows(Real(b.contacts))
  }

  /** The pools that a verdict would publish satisfy everything prepare_load checks. */
  predicate Loadable(peers: Pool, transient: Pool, limits: Limits) {
    && Distinct(peers) && Distinct(transient) && Keys(peers) * Keys(transient) == {}
    && |peers| <= limits.peers && |transient| <= limits.anonymous
    && Transient(peers) == [] && Real(transient) == []
  }

  lemma LoadableLoads(peers: Pool, transient: Pool, limits: Limits)
    requires Loadable(peers, transient, limits)
    ensures PrepareLoad(peers, transient, limits) == Some(peers + transient)
    ensures Distinct(peers + transient) && Real(peers + transient) == peers && Transient(peers + transient) == transient
  {
    AppendFacts(peers, transient);
    OneKind(peers);
    OneKind(transient);
  }

  lemma {:induction false} DistinctIff(p: Pool)
    ensures Distinct(p) <==> forall i, j :: 0 <= i < j < |p| ==> p[i].key != p[j].key
  {
    if p != [] {
      var rest := p[1..];
      assert forall i | 0 <= i < |rest| :: rest[i] == p[i + 1];
      DistinctIff(rest);
      if p[0].key in Keys(rest) {
        FindIff(rest, p[0].key);
        var i :| 0 <= i < |rest| && rest[i] == Find(rest, p[0].key).value;
        assert p[0].key == p[i + 1].key;
      }
      forall i | 0 <= i < |rest| ensures rest[i].key in Keys(rest) {
        KeyOf(rest, rest[i]);
      }
    }
  }

  lemma {:induction false} OneKindIff(p: Pool)
    ensures Transient(p) == [] <==> forall c | c in p :: c.kind != 0
    ensures Real(p) == [] <==> forall c | c in p :: c.kind == 0
  {
    if p != [] {
      OneKindIff(p[1..]);
      assert p[0] in p && forall c | c in p :: c == p[0] || c in p[1..];
      assert forall c | c in p[1..] :: c in p;
    }
  }

  /** `prepare_load` accepts two pools exactly if no key occurs twice among them, each is within its limit, and
      anonymous recipients are in the second one alone; it publishes the first and then the second. */
  lemma PrepareLoadIff(peers: Pool, transient: Pool, limits: Limits)
    ensures var all := peers + transient;
      PrepareLoad(peers, transient, limits) ==
        if (forall i, j :: 0 <= i < j < |all| ==> all[i].key != all[j].key)
           && |peers| <= limits.peers && |transient| <= limits.anonymous
           && (forall c | c in peers :: c.kind != 0) && (forall c | c in transient :: c.kind == 0)
        then Some(all) else None
  {
    DistinctIff(peers + transient);
    OneKindIff(peers);
    OneKindIff(transient);
  }

  lemma BookLoadable(b: Book, limits: Limits)
    requires Inv(b, limits)
    ensures Loadable(Real(b.contacts), Transient(b.contacts), limits)
  {
    OneKind(b.contacts);
  }

  lemma DropLoadable(peers: Pool, transient: Pool, k: Key, limits: Limits)
    requires Loadable(peers, transient, limits)
    ensures Loadable(Drop(peers, k), Drop(transient, k), limits)
    ensures k !in Keys(Drop(peers, k)) && k !in Keys(Drop(transient, k))
  {
    DropFacts(peers, k);
    DropFacts(transient, k);
  }

  lemma AddPeer(peers: Pool, transient: Pool, c: Contact, limits: Limits)
    requires Loadable(peers, transient, limits) && |peers| < limits.peers && c.kind != ANONYMOUS
    requires c.key !in Keys(peers) && c.key !in Keys(transient)
    ensures Loadable(peers + [c], transient, limits)
  {
    AppendFacts(peers, [c]);
  }

  lemma AddAnonymous(peers: Pool, transient: Pool, c: Contact, limits: Limits)
    requires Loadable(peers, transient, limits) && |transient| < limits.anonymous && c.kind == ANONYMOUS
    requires c.key !in Keys(peers) && c.key !in Keys(transient)
    ensures Loadable(peers, transient + [c], limits)
  {
    AppendFacts(transient, [c]);
  }

  lemma ThinnedFacts(p: Pool, limit: nat)
    requires limit > 0 && |p| <= limit
    ensures |Thinned(p, limit)| < limit && Keys(Thinned(p, limit)) <= Keys(p)
    ensures Thinned(p, limit) == p || (p != [] && Thinned(p, limit) == Drop(p, Oldest(p).key))
  {
    if |p| >= limit {
      OldestIn(p);
      KeyOf(p, Oldest(p));
      DropFacts(p, Oldest(p).key);
    }
  }

  /** An anonymous recipient makes room only in a full pool, and only the one longest unchanged does. */
  lemma ThinnedEvicts(p: Pool, limit: nat, j: Key, c: Contact)
    requires Distinct(p) && c in p && Find(p, j).Some? && Find(Thinned(p, limit), j).None?
    ensures |p| >= limit && Find(p, j).value.lastmod <= c.lastmod
  {
    OldestIn(p);
    DropFind(p, Oldest(p).key, j);
    KeyOf(p, Oldest(p));
  }

  lemma ThinnedLoadable(peers: Pool, transient: Pool, limits: Limits)
    requires Loadable(peers, transient, limits) && limits.anonymous > 0
    ensures var t := Thinned(transient, limits.anonymous);
      Loadable(peers, t, limits) && |t| < limits.anonymous && Keys(t) <= Keys(transient)
  {
    ThinnedFacts(transient, limits.anonymous);
    if Thinned(transient, limits.anonymous) != transient {
      DropFacts(transient, Oldest(transient).key);
    }
  }

  /** The victim of a full book is a real contact that is no favourite, the one longest unchanged. */
  lemma VictimFacts(p: Pool)
    requires Overwritable(p) != []
    ensures var v := Oldest(Overwritable(p));
      v in p && !Favourite(v) && v.key in Keys(p) && (Distinct(p) ==> Find(p, v.key) == Some(v))
  {
    OverwritableFacts(p);
    OldestIn(Overwritable(p));
    KeyOf(p, Oldest(Overwritable(p)));
  }

  lemma VictimLoadable(peers: Pool, transient: Pool, limits: Limits)
    requires Loadable(peers, transient, limits) && Overwritable(peers) != []
    ensures var rest := Drop(peers, Oldest(Overwritable(peers)).key);
      Loadable(rest, transient, limits) && |rest| < limits.peers && Keys(rest) <= Keys(peers)
  {
    VictimFacts(peers);
    DropFacts(peers, Oldest(Overwritable(peers)).key);
  }

  lemma CandidateKey(peers: Pool, a: Advert)
    ensures Candidate(peers, a).key == a.contact.key && Candidate(peers, a).advertTime == a.contact.advertTime
  {
  }

  /** Whatever the advert, prepare_load accepts what the handler has put together. */
  lemma VerdictLoads(b: Book, a: Advert, s: Settings, limits: Limits)
    requires Inv(b, limits) && limits.anonymous > 0
    ensures match Judge(Real(b.contacts), Transient(b.contacts), a, s, limits)
      case Stale => true
      case Refused(peers, transient, _) => Loadable(peers, transient, limits)
      case Taken(peers, transient, _, _) => Loadable(peers, transient, limits)
  {
    var (p, t, k) := (Real(b.contacts), Transient(b.contacts), a.contact.key);
    BookLoadable(b, limits);
    DropLoadable(p, t, k, limits);
    CandidateKey(p, a);
    var c := Candidate(p, a);
    var (p1, t1) := (Drop(p, k), Drop(t, k));
    if c.kind == ANONYMOUS {
      ThinnedLoadable(p1, t1, limits);
      AddAnonymous(p1, Thinned(t1, limits.anonymous), c, limits);
    } else if |p1| < limits.peers {
      AddPeer(p1, t1, c, limits);
    } else if Overwritable(p1) != [] {
      VictimLoadable(p1, t1, limits);
      AddPeer(Drop(p1, Oldest(Overwritable(p1)).key), t1, c, limits);
    }
  }

  // ---------------------------------------------------------------- what is published

  /** The real contacts that stay when one is added. */
  function Survivors(peers: Pool, limits: Limits): Pool {
    if |peers| < limits.peers || Overwritable(peers) == [] then peers else Drop(peers, Oldest(Overwritable(peers)).key)
  }

  /** Both pools after an accepted advert. */
  function Final(peers: Pool, transient: Pool, a: Advert, limits: Limits, revision: int): (Pool, Pool) {
    var c, k := Candidate(peers, a).(lastmod := revision), a.contact.key;
    if c.kind == ANONYMOUS then (Drop(peers, k), Thinned(Drop(transient, k), limits.anonymous) + [c])
    else (Survivors(Drop(peers, k), limits) + [c], Drop(transient, k))
  }

  lemma StampLast(p: Pool, c: Contact, revision: int)
    ensures Stamped(p + [c], c.(lastmod := revision), revision) == p + [c.(lastmod := revision)]
  {
  }

  lemma StampNone(p: Pool, c: Contact, revision: int)
    requires c.key !in Keys(p)
    ensures Stamped(p, c, revision) == p
  {
    if p != [] {
      KeyOf(p, p[|p| - 1]);
    }
  }

  lemma StampedIsFinal(b: Book, a: Advert, s: Settings, limits: Limits, revision: int)
    requires Inv(b, limits) && limits.anonymous > 0
    requires Judge(Real(b.contacts), Transient(b.contacts), a, s, limits).Taken?
    ensures var (p, t) := (Real(b.contacts), Transient(b.contacts));
      var v := Judge(p, t, a, s, limits);
      var c := v.contact.(lastmod := revision);
      && (Stamped(v.peers, c, revision), Stamped(v.transient, c, revision)) == Final(p, t, a, limits, revision)
  {
    var (p, t, k) := (Real(b.contacts), Transient(b.contacts), a.contact.key);
    var v := Judge(p, t, a, s, limits);
    var c := v.contact.(lastmod := revision);
    CandidateKey(p, a);
    DropFacts(p, k);
    DropFacts(t, k);
    if v.contact.kind == ANONYMOUS {
      StampNone(v.peers, c, revision);
      StampLast(Thinned(Drop(t, k), limits.anonymous), v.contact, revision);
    } else {
      StampNone(v.transient, c, revision);
      StampLast(Survivors(Drop(p, k), limits), v.contact, revision);
    }
  }

  lemma FinalLoads(b: Book, a: Advert, s: Settings, limits: Limits, revision: int)
    requires Inv(b, limits) && limits.anonymous > 0
    requires Judge(Real(b.contacts), Transient(b.contacts), a, s, limits).Taken?
    ensures var (p, t) := Final(Real(b.contacts), Transient(b.contacts), a, limits, revision);
      Loadable(p, t, limits)
  {
    var (p, t, k) := (Real(b.contacts), Transient(b.contacts), a.contact.key);
    BookLoadable(b, limits);
    DropLoadable(p, t, k, limits);
    CandidateKey(p, a);
    var c := Candidate(p, a).(lastmod := revision);
    var (p1, t1) := (Drop(p, k), Drop(t, k));
    if c.kind == ANONYMOUS {
      ThinnedLoadable(p1, t1, limits);
      AddAnonymous(p1, Thinned(t1, limits.anonymous), c, limits);
    } else if |p1| < limits.peers {
      AddPeer(p1, t1, c, limits);
    } else {
      VictimLoadable(p1, t1, limits);
      AddPeer(Survivors(p1, limits), t1, c, limits);
    }
  }

  /** The rows a successful save leaves are the real contacts about to be published. */
  lemma SavedRows(b: Book, a: Advert, s: Settings, limits: Limits, revision: int)
    requires Inv(b, limits) && Judge(Real(b.contacts), Transient(b.contacts), a, s, limits).Taken?
    ensures var v := Judge(Real(b.contacts), Transient(b.contacts), a, s, limits);
      var peers := Final(Real(b.contacts), Transient(b.contacts), a, limits, revision).0;
      Saved(b.rows, peers, v.contact.(lastmod := revision), v.deleted) == AsRows(peers)
  {
    var (p, k) := (Real(b.contacts), a.contact.key);
    var c := Candidate(p, a).(lastmod := revision);
    CandidateKey(p, a);
    RowsReplaced(p, c);
    DropFacts(p, k);
    FindIff(p, k);
  }

  /** The book that a run of the handler publishes. */
  lemma CommitPublishes(b: Book, a: Advert, s: Settings, now: int, saves: bool, limits: Limits)
    requires Inv(b, limits) && limits.anonymous > 0
    requires Judge(Real(b.contacts), Transient(b.contacts), a, s, limits).Taken?
    ensures var v := Judge(Real(b.contacts), Transient(b.contacts), a, s, limits);
      var (o, b') := Commit(b, v, now, saves, limits);
      var revision := Revision(b.watermark, now);
      var (p, t) := Final(Real(b.contacts), Transient(b.contacts), a, limits, revision);
      && (o.failed <==> revision > UINT32_MAX || (NeedsSave(v.contact, v.deleted) && !saves))
      && (o.failed ==> o == FAILED && b'.contacts == b.contacts && b'.rows == b.rows)
      && (!o.failed ==> o == Outcome(false, true, v.deleted, false))
      && (!o.failed ==> b'.contacts == p + t && b'.rows == AsRows(p) && Loadable(p, t, limits))
  {
    var revision := Revision(b.watermark, now);
    StampedIsFinal(b, a, s, limits, revision);
    FinalLoads(b, a, s, limits, revision);
    SavedRows(b, a, s, limits, revision);
    var (p, t) := Final(Real(b.contacts), Transient(b.contacts), a, limits, revision);
    LoadableLoads(p, t, limits);
  }

  lemma PublishedInv(p: Pool, t: Pool, rows: map<Key, Contact>, watermark: int, limits: Limits)
    requires Loadable(p, t, limits) && rows == AsRows(p)
    ensures Inv(Book(p + t, rows, watermark), limits)
    ensures Real(p + t) == p && Transient(p + t) == t
  {
    LoadableLoads(p, t, limits);
  }

  /** When a refused advert clears an anonymous recipient, the real contacts are as before. */
  lemma RefusedKeepsPeers(b: Book, k: Key, limits: Limits)
    requires Inv(b, limits) && Find(Transient(b.contacts), k).Some?
    ensures Find(Real(b.contacts), k).None? && Drop(Real(b.contacts), k) == Real(b.contacts)
  {
    OneKind(b.contacts);
    FindIff(Transient(b.contacts), k);
    FindIff(Real(b.contacts), k);
    DropFacts(Real(b.contacts), k);
  }

  // ---------------------------------------------------------------- one event

  /** After every advert, saved or not, the stored rows are the real contacts and the pools are in order; and
      the event fails only for want of revisions or because the save fails. */
  lemma EventKeepsInv(b: Book, a: Advert, s: Settings, now: int, saves: bool, limits: Limits)
    requires Inv(b, limits) && limits.anonymous > 0
    ensures var (o, b') := Handle(b, a, s, now, saves, limits);
      && Inv(b', limits)
      && (o.failed ==> b'.contacts == b.contacts && b'.rows == b.rows)
  {
    var seen := b.(watermark := Latest(b.contacts, b.watermark));
    var v := Judge(Real(b.contacts), Transient(b.contacts), a, s, limits);
    match v {
      case Stale =>
      case Taken(_, _, _, _) =>
        CommitPublishes(seen, a, s, now, saves, limits);
        var revision := Revision(seen.watermark, now);
        var (p, t) := Final(Real(b.contacts), Transient(b.contacts), a, limits, revision);
        if !Commit(seen, v, now, saves, limits).0.failed {
          PublishedInv(p, t, AsRows(p), Commit(seen, v, now, saves, limits).1.watermark, limits);
        }
      case Refused(peers, transient, _) =>
        if Find(Transient(b.contacts), a.contact.key).Some? {
          VerdictLoads(b, a, s, limits);
          RefusedKeepsPeers(b, a.contact.key, limits);
          LoadableLoads(peers, transient, limits);
          PublishedInv(peers, transient, b.rows, seen.watermark, limits);
        }
    }
  }

  /** An event fails exactly if it has something to commit and either no revision is left or the save it
      needs fails; in particular prepare_load never raises. */
  lemma EventFailsIff(b: Book, a: Advert, s: Settings, now: int, saves: bool, limits: Limits)
    requires Inv(b, limits) && limits.anonymous > 0
    ensures var v := Judge(Real(b.contacts), Transient(b.contacts), a, s, limits);
      Handle(b, a, s, now, saves, limits).0.failed <==>
        (v.Taken? && (Revision(Latest(b.contacts, b.watermark), now) > UINT32_MAX
                      || (NeedsSave(v.contact, v.deleted) && !saves)))
  {
    var seen := b.(watermark := Latest(b.contacts, b.watermark));
    match Judge(Real(b.contacts), Transient(b.contacts), a, s, limits) {
      case Stale =>
      case Taken(_, _, _, _) => CommitPublishes(seen, a, s, now, saves, limits);
      case Refused(peers, transient, _) =>
        VerdictLoads(b, a, s, limits);
        LoadableLoads(peers, transient, limits);
    }
  }

  /** What becomes of the contact with key j when the pools change from (p, t) to the published ones. */
  lemma FinalFind(b: Book, a: Advert, s: Settings, limits: Limits, revision: int, j: Key)
    requires Inv(b, limits) && Judge(Real(b.contacts), Transient(b.contacts), a, s, limits).Taken?
    ensures var (p, t, k) := (Real(b.contacts), Transient(b.contacts), a.contact.key);
      var v := Judge(p, t, a, s, limits);
      var c := Candidate(p, a).(lastmod := revision);
      var (p', t') := Final(p, t, a, limits, revision);
      && Find(p', j) == (if j == k then (if c.kind == ANONYMOUS then None else Some(c))
                         else if v.deleted == Some(j) then None else Find(p, j))
      && (j == k ==> Find(t', j) == if c.kind == ANONYMOUS then Some(c) else None)
      && (j != k ==> Find(t', j) == Find(t, j) || Find(t', j) == None)
  {
    var (p, t, k) := (Real(b.contacts), Transient(b.contacts), a.contact.key);
    var c := Candidate(p, a).(lastmod := revision);
    var (p1, t1) := (Drop(p, k), Drop(t, k));
    CandidateKey(p, a);
    DropFind(p, k, j);
    DropFind(t, k, j);
    DropFacts(p, k);
    if c.kind == ANONYMOUS {
      var thin := Thinned(t1, limits.anonymous);
      if thin != t1 {
        DropFind(t1, Oldest(t1).key, j);
      }
      AppendFind(thin, [c], j);
    } else {
      AppendFind(Survivors(p1, limits), [c], j);
      if |p1| >= limits.peers {
        VictimFacts(p1);
        DropFind(p1, Oldest(Overwritable(p1)).key, j);
      }
    }
  }

  /** The two pools of the book after an event, key by key. */
  lemma EventFind(b: Book, a: Advert, s: Settings, now: int, saves: bool, limits: Limits, j: Key)
    requires Inv(b, limits) && limits.anonymous > 0
    ensures var (o, b') := Handle(b, a, s, now, saves, limits);
      var revision := Revision(Latest(b.contacts, b.watermark), now);
      var c := Candidate(Real(b.contacts), a).(lastmod := revision);
      if o.accepted then
        && Find(Real(b'.contacts), j) == (if j == c.key then (if c.kind == ANONYMOUS then None else Some(c))
                                          else if o.deleted == Some(j) then None else Find(Real(b.contacts), j))
        && (j == c.key ==> Find(Transient(b'.contacts), j) == if c.kind == ANONYMOUS then Some(c) else None)
        && (j != c.key ==> Find(Transient(b'.contacts), j) in {None, Find(Transient(b.contacts), j)})
      else
        && o.deleted == None && Find(Real(b'.contacts), j) == Find(Real(b.contacts), j)
        && Find(Transient(b'.contacts), j) in {None, Find(Transient(b.contacts), j)}
  {
    var seen := b.(watermark := Latest(b.contacts, b.watermark));
    CandidateKey(Real(b.contacts), a);
    match Judge(Real(b.contacts), Transient(b.contacts), a, s, limits) {
      case Stale =>
      case Taken(_, _, _, _) =>
        var revision := Revision(seen.watermark, now);
        var (p, t) := Final(Real(b.contacts), Transient(b.contacts), a, limits, revision);
        CommitPublishes(seen, a, s, now, saves, limits);
        FinalFind(b, a, s, limits, revision, j);
        if Handle(b, a, s, now, saves, limits).0.accepted {
          LoadableLoads(p, t, limits);
        }
      case Refused(peers, transient, _) =>
        if Find(Transient(b.contacts), a.contact.key).Some? {
          VerdictLoads(b, a, s, limits);
          RefusedKeepsPeers(b, a.contact.key, limits);
          LoadableLoads(peers, transient, limits);
          DropFind(Transient(b.contacts), a.contact.key, j);
        }
    }
  }

  /** The deletion that is announced is the one that happened, and there is no other. */
  lemma DeletedIff(b: Book, a: Advert, s: Settings, now: int, saves: bool, limits: Limits, j: Key)
    requires Inv(b, limits) && limits.anonymous > 0
    ensures var (o, b') := Handle(b, a, s, now, saves, limits);
      o.deleted == Some(j) <==> Find(Real(b.contacts), j).Some? && Find(Real(b'.contacts), j).None?
  {
    EventFind(b, a, s, now, saves, limits, j);
    VictimIsKnown(b, a, s, limits, j);
    CandidateKey(Real(b.contacts), a);
  }

  lemma VictimIsKnown(b: Book, a: Advert, s: Settings, limits: Limits, j: Key)
    requires Inv(b, limits)
    ensures var v := Judge(Real(b.contacts), Transient(b.contacts), a, s, limits);
      v.Taken? && v.deleted == Some(j) ==>
        && Find(Real(b.contacts), j).Some?
        && (if v.contact.kind == ANONYMOUS then j == a.contact.key
            else j != a.contact.key && !Favourite(Find(Real(b.contacts), j).value))
  {
    var (p, k) := (Real(b.contacts), a.contact.key);
    var p1 := Drop(p, k);
    OneKind(b.contacts);
    DropFacts(p, k);
    DropFind(p, k, j);
    FindIff(p, j);
    if Overwritable(p1) != [] {
      VictimFacts(p1);
    }
  }

  /** A peer in the book that sends a newer advert is never refused, however full the book is; it leaves the
      real contacts only by turning anonymous. */
  lemma KnownIsNeverRefused(b: Book, a: Advert, s: Settings, limits: Limits)
    requires Inv(b, limits) && Find(Real(b.contacts), a.contact.key).Some?
    requires !Outdated(Real(b.contacts), Transient(b.contacts), a)
    ensures var v := Judge(Real(b.contacts), Transient(b.contacts), a, s, limits);
      v.Taken? && v.deleted == if a.contact.kind == ANONYMOUS then Some(a.contact.key) else None
  {
    DropFacts(Real(b.contacts), a.contact.key);
    FindIff(Real(b.contacts), a.contact.key);
  }

  /** What only this node knows about a peer outlasts the peer's adverts. */
  lemma OwnKnowledgeKept(b: Book, a: Advert, s: Settings, now: int, saves: bool, limits: Limits)
    requires Inv(b, limits) && limits.anonymous > 0 && Find(Real(b.contacts), a.contact.key).Some?
    requires Handle(b, a, s, now, saves, limits).0.accepted
    ensures var k, after := a.contact.key, Handle(b, a, s, now, saves, limits).1;
      && Find(after.contacts, k).Some?
      && var (known, kept) := (Find(Real(b.contacts), k).value, Find(after.contacts, k).value);
         && kept.flags == known.flags && kept.syncSince == known.syncSince
         && kept.routeLen == known.routeLen && kept.route == known.route
         && (a.hasLocation != Some(true) ==> kept.lat == known.lat && kept.lon == known.lon)
         && (a.hasLocation == Some(true) ==> kept.lat == a.contact.lat && kept.lon == a.contact.lon)
         && kept.packet == (if a.contact.packet.Some? then a.contact.packet else known.packet)
         && kept.name == a.contact.name && kept.kind == a.contact.kind && kept.advertTime == a.contact.advertTime
  {
    var b' := Handle(b, a, s, now, saves, limits).1;
    EventKeepsInv(b, a, s, now, saves, limits);
    EventFind(b, a, s, now, saves, limits, a.contact.key);
    KindFind(b'.contacts, a.contact.key);
    CandidateKey(Real(b.contacts), a);
  }

  /** A real contact evicted for another peer is the one longest unchanged among those that are no favourites,
      and goes only from a full book. */
  lemma EvictedIsOldest(b: Book, a: Advert, s: Settings, limits: Limits, j: Key, c: Contact)
    requires Inv(b, limits) && j != a.contact.key
    requires var v := Judge(Real(b.contacts), Transient(b.contacts), a, s, limits); v.Taken? && v.deleted == Some(j)
    requires c in Real(b.contacts) && !Favourite(c)
    ensures Find(Real(b.contacts), j).Some? && Find(Real(b.contacts), j).value.lastmod <= c.lastmod
    ensures |Real(b.contacts)| == limits.peers && s.overwriteWhenFull
  {
    var (p, k) := (Real(b.contacts), a.contact.key);
    OneKind(b.contacts);
    DropFacts(p, k);
    VictimFacts(Drop(p, k));
    DropFind(p, k, j);
    FindIff(p, k);
    OldestIn(Overwritable(Drop(p, k)));
    OverwritableHas(p, c);
  }

  lemma {:induction false} OverwritableHas(p: Pool, c: Contact)
    requires c in p && !Favourite(c)
    ensures c in Overwritable(p)
  {
    if p[0] != c {
      OverwritableHas(p[1..], c);
    }
  }

  /** Another peer's advert never evicts or changes a favourite. */
  lemma FavouriteStays(b: Book, a: Advert, s: Settings, now: int, saves: bool, limits: Limits, j: Key)
    requires Inv(b, limits) && limits.anonymous > 0 && j != a.contact.key
    requires Find(Real(b.contacts), j).Some? && Favourite(Find(Real(b.contacts), j).value)
    ensures Find(Real(Handle(b, a, s, now, saves, limits).1.contacts), j) == Find(Real(b.contacts), j)
  {
    EventFind(b, a, s, now, saves, limits, j);
    VictimIsKnown(b, a, s, limits, j);
    CandidateKey(Real(b.contacts), a);
  }

  lemma InOnePool(b: Book, limits: Limits, j: Key)
    requires Inv(b, limits)
    ensures Find(Real(b.contacts), j).None? || Find(Transient(b.contacts), j).None?
  {
    OneKind(b.contacts);
    FindIff(Real(b.contacts), j);
    FindIff(Transient(b.contacts), j);
  }

  /** A contact that stays in the book is unchanged, or the advert was its own and newer by its timestamp. */
  lemma TimeRises(b: Book, a: Advert, s: Settings, now: int, saves: bool, limits: Limits, j: Key)
    requires Inv(b, limits) && limits.anonymous > 0
    requires Find(b.contacts, j).Some? && Find(Handle(b, a, s, now, saves, limits).1.contacts, j).Some?
    ensures var (before, after) := (Find(b.contacts, j).value,
                                    Find(Handle(b, a, s, now, saves, limits).1.contacts, j).value);
      after == before || (j == a.contact.key && after.advertTime == a.contact.advertTime > before.advertTime)
  {
    var b' := Handle(b, a, s, now, saves, limits).1;
    EventKeepsInv(b, a, s, now, saves, limits);
    EventFind(b, a, s, now, saves, limits, j);
    InOnePool(b, limits, j);
    KindFind(b.contacts, j);
    KindFind(b'.contacts, j);
    CandidateKey(Real(b.contacts), a);
  }

  lemma {:induction false} LatestBounds(p: Pool, floor: int)
    ensures Latest(p, floor) >= floor && forall c | c in p :: c.lastmod <= Latest(p, floor)
  {
    if p != [] {
      LatestBounds(p[1..], if p[0].lastmod > floor then p[0].lastmod else floor);
    }
  }

  /** An accepted contact gets a revision above everything in the book and every revision given out before. */
  lemma RevisionIsNew(b: Book, a: Advert, s: Settings, now: int, saves: bool, limits: Limits)
    requires Inv(b, limits) && limits.anonymous > 0 && Handle(b, a, s, now, saves, limits).0.accepted
    ensures var b' := Handle(b, a, s, now, saves, limits).1;
      && Find(b'.contacts, a.contact.key).Some?
      && var revision := Find(b'.contacts, a.contact.key).value.lastmod;
         && revision == b'.watermark && b.watermark < revision <= UINT32_MAX
         && forall c | c in b.contacts :: c.lastmod < revision
  {
    var b' := Handle(b, a, s, now, saves, limits).1;
    LatestBounds(b.contacts, b.watermark);
    EventKeepsInv(b, a, s, now, saves, limits);
    EventFind(b, a, s, now, saves, limits, a.contact.key);
    KindFind(b'.contacts, a.contact.key);
    CandidateKey(Real(b.contacts), a);
  }

  // ---------------------------------------------------------------- which adverts are accepted

  /** Kind 0 is an anonymous recipient; the others are peers. */
  ghost predicate IsPeer(b: Book, k: Key) {
    exists c | c in b.contacts :: c.key == k && c.kind != 0
  }

  /** Is the advert newer than what the book knows of its sender? */
  predicate IsNews(b: Book, a: Advert) {
    forall c | c in b.contacts && c.key == a.contact.key :: c.advertTime < a.contact.advertTime
  }

  /** The filters for unknown peers. */
  predicate Admitted(a: Advert, s: Settings) {
    s.autoAdd && (s.maxHops == 0 || a.hops < s.maxHops)
  }

  /** Room for one more contact: a peer needs a free place, or that of a peer that is no favourite. */
  ghost predicate HasPlace(b: Book, a: Advert, s: Settings, limits: Limits) {
    a.contact.kind == 0 || |Real(b.contacts)| < limits.peers
    || (s.overwriteWhenFull && exists c | c in b.contacts :: c.kind != 0 && c.flags % 2 == 0)
  }

  /** Is there a 32-bit revision above the ones in use? */
  predicate HasRevision(b: Book, now: int) {
    now <= 0xFFFF_FFFF && b.watermark < 0xFFFF_FFFF && forall c | c in b.contacts :: c.lastmod < 0xFFFF_FFFF
  }

  /** An advert is accepted exactly if it is news, it comes from a known peer or passes the filters and finds a place,
      a revision is left, and it is saved; only an anonymous recipient that was no peer needs no save. */
  lemma AcceptedIff(b: Book, a: Advert, s: Settings, now: int, saves: bool, limits: Limits)
    requires Inv(b, limits) && limits.anonymous > 0
    ensures var known := IsPeer(b, a.contact.key);
      Handle(b, a, s, now, saves, limits).0.accepted <==>
        && IsNews(b, a) && (known || (Admitted(a, s) && HasPlace(b, a, s, limits)))
        && HasRevision(b, now) && (saves || (a.contact.kind == 0 && !known))
  {
    KnownIff(b, a, limits);
    RevisionIff(b, now);
    TakenIff(b, a, s, limits);
    EventFailsIff(b, a, s, now, saves, limits);
  }

  lemma TakenIff(b: Book, a: Advert, s: Settings, limits: Limits)
    requires Inv(b, limits)
    ensures var known := IsPeer(b, a.contact.key);
      var v := Judge(Real(b.contacts), Transient(b.contacts), a, s, limits);
      && (v.Taken? <==> IsNews(b, a) && (known || (Admitted(a, s) && HasPlace(b, a, s, limits))))
      && (v.Taken? ==> (NeedsSave(v.contact, v.deleted) <==> a.contact.kind != 0 || known))
      && (v.Stale? <==> !IsNews(b, a))
      && (v.Refused? ==> (v.full <==> Admitted(a, s)))
  {
    var (p, k) := (Real(b.contacts), a.contact.key);
    KnownIff(b, a, limits);
    DropFacts(p, k);
    FindIff(p, k);
    if Find(p, k).None? {
      assert Drop(p, k) == p;
      OverwritableIff(b);
    }
  }

  lemma {:induction false} KindIff(p: Pool, c: Contact)
    ensures c in Real(p) <==> c in p && c.kind != 0
    ensures c in Transient(p) <==> c in p && c.kind == 0
  {
    if p != [] {
      KindIff(p[1..], c);
    }
  }

  lemma OverwritableIff(b: Book)
    ensures Overwritable(Real(b.contacts)) != [] <==> exists c | c in b.contacts :: c.kind != 0 && c.flags % 2 == 0
  {
    var free := Overwritable(Real(b.contacts));
    if free != [] {
      OverwritableFacts(Real(b.contacts));
      KindIff(b.contacts, free[0]);
      assert free[0] in free;
    }
    forall c | c in b.contacts && c.kind != 0 && c.flags % 2 == 0 ensures free != [] {
      KindIff(b.contacts, c);
      OverwritableHas(Real(b.contacts), c);
    }
  }

  lemma FoundIff(b: Book, limits: Limits, k: Key)
    requires Inv(b, limits)
    ensures Find(b.contacts, k).Some? <==> exists c | c in b.contacts :: c.key == k
    ensures forall c | c in b.contacts && c.key == k :: Find(b.contacts, k) == Some(c)
  {
    FindIff(b.contacts, k);
    forall c | c in b.contacts && c.key == k ensures Find(b.contacts, k) == Some(c) {
      KeyOf(b.contacts, c);
    }
  }

  lemma KnownIff(b: Book, a: Advert, limits: Limits)
    requires Inv(b, limits)
    ensures Find(Real(b.contacts), a.contact.key).Some? <==> IsPeer(b, a.contact.key)
    ensures Outdated(Real(b.contacts), Transient(b.contacts), a) <==> !IsNews(b, a)
  {
    var k := a.contact.key;
    FoundIff(b, limits, k);
    KindFind(b.contacts, k);
    FindIff(Real(b.contacts), k);
    FindIff(Transient(b.contacts), k);
    if Find(b.contacts, k).Some? {
      KindIff(b.contacts, Find(b.contacts, k).value);
    }
  }

  lemma {:induction false} LatestBelow(p: Pool, floor: int, limit: int)
    ensures Latest(p, floor) < limit <==> floor < limit && forall c | c in p :: c.lastmod < limit
  {
    if p != [] {
      LatestBelow(p[1..], if p[0].lastmod > floor then p[0].lastmod else floor, limit);
      assert forall c | c in p :: c == p[0] || c in p[1..];
      assert p[0] in p && forall c | c in p[1..] :: c in p;
    }
  }

  lemma RevisionIff(b: Book, now: int)
    ensures Revision(Latest(b.contacts, b.watermark), now) <= UINT32_MAX <==> HasRevision(b, now)
  {
    LatestBelow(b.contacts, b.watermark, 0xFFFF_FFFF);
  }

  /** A new peer, or one that was an anonymous recipient so far, enters as its advert says, with the new revision. */
  lemma NewContactIsTheAdvert(b: Book, a: Advert, s: Settings, now: int, saves: bool, limits: Limits)
    requires Inv(b, limits) && limits.anonymous > 0 && !IsPeer(b, a.contact.key)
    requires Handle(b, a, s, now, saves, limits).0.accepted
    ensures var b' := Handle(b, a, s, now, saves, limits).1;
      Find(b'.contacts, a.contact.key) == Some(a.contact.(lastmod := b'.watermark))
  {
    var b' := Handle(b, a, s, now, saves, limits).1;
    KnownIff(b, a, limits);
    EventKeepsInv(b, a, s, now, saves, limits);
    EventFind(b, a, s, now, saves, limits, a.contact.key);
    KindFind(b'.contacts, a.contact.key);
  }

  /** An advert that is no news changes no contact. One that is refused forgets an anonymous recipient of that key and
      changes no other contact; the book is reported full exactly if the filters passed. */
  lemma RefusedEffect(b: Book, a: Advert, s: Settings, now: int, saves: bool, limits: Limits, j: Key)
    requires Inv(b, limits) && limits.anonymous > 0
    ensures var (o, b') := Handle(b, a, s, now, saves, limits);
      var refused := IsNews(b, a) && !IsPeer(b, a.contact.key) && !(Admitted(a, s) && HasPlace(b, a, s, limits));
      && (!IsNews(b, a) ==> o == QUIET && b'.contacts == b.contacts)
      && (refused ==> !o.failed && !o.accepted && (o.full <==> Admitted(a, s))
                      && Find(b'.contacts, j) == if j == a.contact.key then None else Find(b.contacts, j))
      && (o.full ==> refused)
  {
    var (t, k) := (Transient(b.contacts), a.contact.key);
    KnownIff(b, a, limits);
    TakenIff(b, a, s, limits);
    KindFind(b.contacts, j);
    KindFind(b.contacts, k);
    if IsNews(b, a) && !IsPeer(b, k) && !(Admitted(a, s) && HasPlace(b, a, s, limits)) && Find(t, k).Some? {
      VerdictLoads(b, a, s, limits);
      RefusedKeepsPeers(b, k, limits);
      LoadableLoads(Real(b.contacts), Drop(t, k), limits);
      AppendFind(Real(b.contacts), Drop(t, k), j);
      DropFind(t, k, j);
    }
  }

  // ---------------------------------------------------------------- any sequence of events

  datatype Event = Event(advert: Advert, settings: Settings, now: int, saves: bool)

  function After(b: Book, e: Event, limits: Limits): Book {
    Handle(b, e.advert, e.settings, e.now, e.saves, limits).1
  }

  function AfterAll(b: Book, events: seq<Event>, limits: Limits): Book
    decreases |events|
  {
    if events == [] then b else AfterAll(After(b, events[0], limits), events[1..], limits)
  }

  /** Over every sequence of adverts, settings, clocks and save failures. */
  lemma {:induction false} EveryRunKeepsInv(b: Book, events: seq<Event>, limits: Limits)
    requires Inv(b, limits) && limits.anonymous > 0
    ensures Inv(AfterAll(b, events, limits), limits)
    decreases |events|
  {
    if events != [] {
      var e := events[0];
      EventKeepsInv(b, e.advert, e.settings, e.now, e.saves, limits);
      EveryRunKeepsInv(After(b, e, limits), events[1..], limits);
    }
  }

  /** A companion that has met nobody. */
  const EMPTY_BOOK := Book([], map[], 0)

  /** So from an empty book, after any events: the rows are the real contacts and the pools fit their limits. */
  lemma RowsAreTheContacts(events: seq<Event>, limits: Limits)
    requires limits.anonymous > 0
    ensures var b := AfterAll(EMPTY_BOOK, events, limits);
      && b.rows == AsRows(Real(b.contacts)) && Distinct(b.contacts)
      && |Real(b.contacts)| <= limits.peers && |Transient(b.contacts)| <= limits.anonymous
  {
    EveryRunKeepsInv(EMPTY_BOOK, events, limits);
  }

  predicate NoneFrom(events: seq<Event>, j: Key)
    decreases |events|
  {
    events == [] || (events[0].advert.contact.key != j && NoneFrom(events[1..], j))
  }

  /** A favourite outlasts any number of other peers' adverts, unchanged. */
  lemma {:induction false} FavouriteOutlasts(b: Book, events: seq<Event>, limits: Limits, j: Key)
    requires Inv(b, limits) && limits.anonymous > 0 && NoneFrom(events, j)
    requires Find(Real(b.contacts), j).Some? && Favourite(Find(Real(b.contacts), j).value)
    ensures Find(Real(AfterAll(b, events, limits).contacts), j) == Find(Real(b.contacts), j)
    decreases |events|
  {
    if events != [] {
      var e := events[0];
      FavouriteStays(b, e.advert, e.settings, e.now, e.saves, limits, j);
      EventKeepsInv(b, e.advert, e.settings, e.now, e.saves, limits);
      FavouriteOutlasts(After(b, e, limits), events[1..], limits, j);
    }
  }

  /** Is a contact with key j in the book all the time? */
  predicate Retained(b: Book, events: seq<Event>, limits: Limits, j: Key)
    decreases |events|
  {
    Find(b.contacts, j).Some? && (events == [] || Retained(After(b, events[0], limits), events[1..], limits, j))
  }

  /** The advert time of a retained contact never falls; while it is the same, so is the whole contact. */
  lemma {:induction false} TimeOnlyRises(b: Book, events: seq<Event>, limits: Limits, j: Key)
    requires Inv(b, limits) && limits.anonymous > 0 && Retained(b, events, limits, j)
    ensures Find(AfterAll(b, events, limits).contacts, j).Some?
    ensures var (before, after) := (Find(b.contacts, j).value, Find(AfterAll(b, events, limits).contacts, j).value);
      after == before || after.advertTime > before.advertTime
    decreases |events|
  {
    if events != [] {
      var e := events[0];
      EventKeepsInv(b, e.advert, e.settings, e.now, e.saves, limits);
      TimeOnlyRises(After(b, e, limits), events[1..], limits, j);
      TimeRises(b, e.advert, e.settings, e.now, e.saves, limits, j);
    }
  }
}
