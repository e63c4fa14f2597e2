/**
 The identity manager (identity_manager.py): three dictionaries that together register identities one to one
 under a name and under the first byte of their public key.
 */
module IdentityRegistry {

  type Hash = int

  /** An identity object and the first byte of its public key. */
  datatype Identity = Identity(serial: nat, hash: Hash)

  datatype Registered = Registered(identity: Identity, kind: string)

  datatype Registry = Registry(
    identities: map<Hash, Registered>, named: map<string, Registered>, hashes: map<Hash, string>)

  const EMPTY := Registry(map[], map[], map[])

  /** f"{identity_type}:{name}" */
  function Tag(kind: string, name: string): string {
    kind + ":" + name
  }

  predicate Free(r: Registry, name: string, h: Hash) {
    name !in r.named && h !in r.identities
  }

  function Added(r: Registry, name: string, g: Registered): Registry {
    var h := g.identity.hash;
    Registry(r.identities[h := g], r.named[name := g], r.hashes[h := Tag(g.kind, name)])
  }

  /** `register_identity` */
  function Register(r: Registry, name: string, g: Registered): (bool, Registry) {
    if Free(r, name, g.identity.hash) then (true, Added(r, name, g)) else (false, r)
  }

  /** What a rollback removes: the registration of exactly this identity object. */
  function Withdrawn(r: Registry, name: string, identity: Identity): Registry {
    var h := identity.hash;
    if h in r.identities && r.identities[h].identity == identity then
      Registry(r.identities - {h},
               if name in r.named && r.named[name].identity == identity then r.named - {name} else r.named,
               r.hashes - {h})
    else r
  }

  /** The name in the tag of a hash. */
  function NameAt(r: Registry, h: Hash): string
    requires h in r.hashes && h in r.identities
  {
    var skipped := |r.identities[h].kind| + 1;
    if skipped <= |r.hashes[h]| then r.hashes[h][skipped..] else ""
  }

  predicate HashNamed(r: Registry, h: Hash)
    requires h in r.identities
  {
    && r.identities[h].identity.hash == h && h in r.hashes
    && var name := NameAt(r, h);
       r.hashes[h] == Tag(r.identities[h].kind, name) && name in r.named && r.named[name] == r.identities[h]
  }

  predicate NameHashed(r: Registry, name: string)
    requires name in r.named
  {
    var h := r.named[name].identity.hash;
    h in r.identities && h in r.hashes && NameAt(r, h) == name
  }

  /** Names and hashes correspond one to one, and the three dictionaries tell the same story. */
  predicate OneToOne(r: Registry) {
    && r.hashes.Keys == r.identities.Keys
    && (forall h {:trigger HashNamed(r, h)} | h in r.identities :: HashNamed(r, h))
    && (forall name {:trigger NameHashed(r, name)} | name in r.named :: NameHashed(r, name))
  }

  /** Two names never share an identity, and two identities never share a name. */
  lemma NamesAreInjective(r: Registry, m: string, n: string)
    requires OneToOne(r) && m in r.named && n in r.named
    ensures r.named[m].identity.hash == r.named[n].identity.hash <==> m == n
  {
    assert NameHashed(r, m) && NameHashed(r, n);
  }

  lemma RegisterKeepsOneToOne(r: Registry, name: string, g: Registered)
    requires OneToOne(r)
    ensures OneToOne(Register(r, name, g).1)
  {
    if Free(r, name, g.identity.hash) {
      var r' := Added(r, name, g);
      forall h | h in r'.identities ensures HashNamed(r', h) {
        if h != g.identity.hash {
          assert HashNamed(r, h);
        }
      }
      forall n | n in r'.named ensures NameHashed(r', n) {
        if n != name {
          assert NameHashed(r, n);
        }
      }
    }
  }

  /** Withdrawing what was just registered restores all three dictionaries exactly. */
  lemma WithdrawUndoesRegister(r: Registry, name: string, g: Registered)
    requires OneToOne(r)
    ensures var (ok, r') := Register(r, name, g); ok ==> Withdrawn(r', name, g.identity) == r
  {
  }

  /** An identity that is not registered under its own object is not touched. */
  lemma WithdrawSparesOthers(r: Registry, name: string, identity: Identity)
    requires identity.hash !in r.identities || r.identities[identity.hash].identity != identity
    ensures Withdrawn(r, name, identity) == r
  {
  }

  class IdentityManager {
    var identities: map<Hash, Registered>
    var named: map<string, Registered>
    var hashes: map<Hash, string>

    function View(): Registry
      reads this
    {
      Registry(identities, named, hashes)
    }

    constructor ()
      ensures View() == EMPTY && OneToOne(View())
    {
      identities, named, hashes := map[], map[], map[];
    }

    /** `register_identity`: refuses a name or a hash that is taken, by whomever. */
    method RegisterIdentity(name: string, g: Registered) returns (ok: bool)
      modifies this
      ensures (ok, View()) == Register(old(View()), name, g)
      ensures ok <==> name !in old(named) && g.identity.hash !in old(identities)
      ensures ok ==> identities == old(identities)[g.identity.hash := g] && named == old(named)[name := g]
      ensures ok ==> hashes == old(hashes)[g.identity.hash := g.kind + ":" + name]
      ensures !ok ==> identities == old(identities) && named == old(named) && hashes == old(hashes)
    {
      var h := g.identity.hash;
      if name in named {
        return false;
      }
      if h in identities {
        return false;
      }
      identities := identities[h := g];
      named := named[name := g];
      hashes := hashes[h := Tag(g.kind, name)];
      ok := true;
    }

    /** The part of the rollback that concerns the manager. */
    method Withdraw(name: string, identity: Identity)
      modifies this
      ensures View() == Withdrawn(old(View()), name, identity)
    {
      var h := identity.hash;
      if h in identities && identities[h].identity == identity {
        identities, hashes := identities - {h}, hashes - {h};
        if name in named && named[name].identity == identity {
          named := named - {name};
        }
      }
    }
  }
}
