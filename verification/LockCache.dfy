/** The two-way cache of file locks (locking/cache.go). */
module LockCache {
  import opened Locks

  type Store = map<string, Lock>

  const ID_PREFIX := "*id*://"

  predicate IsIdKey(key: string) { ID_PREFIX <= key }

  function EncodeIdKey(id: string): (key: string)
    ensures IsIdKey(key)
  {
    if IsIdKey(id) then id else ID_PREFIX + id
  }

  function DecodeIdKey(key: string): string { if IsIdKey(key) then key[|ID_PREFIX|..] else key }

  lemma DecodeEncoded(id: string)
    requires !IsIdKey(id)
    ensures DecodeIdKey(EncodeIdKey(id)) == id
  {
  }

  /** Encoding keeps apart ids that do not look encoded. */
  lemma EncodeIsInjective(a: string, b: string)
    requires !IsIdKey(a) && !IsIdKey(b) && EncodeIdKey(a) == EncodeIdKey(b)
    ensures a == b
  {
    DecodeEncoded(a);
    DecodeEncoded(b);
  }

  // ---------------------------------------------------------------- the operations

  function WithLock(s: Store, l: Lock): Store { s[l.path := l][EncodeIdKey(l.id) := l] }

  function WithoutLock(s: Store, l: Lock): Store { s - {l.path, EncodeIdKey(l.id)} }

  function RemovedByPath(s: Store, path: string): Store { if path in s then WithoutLock(s, s[path]) else s }

  function RemovedById(s: Store, id: string): Store {
    var key := EncodeIdKey(id);
    if key in s then s - {key, s[key].path} else s
  }

  class Cache {
    var kv: Store

    constructor ()
      ensures kv == map[]
    {
      kv := map[];
    }

    method Add(l: Lock)
      modifies this
      ensures kv == WithLock(old(kv), l)
    {
      kv := kv[l.path := l];
      kv := kv[EncodeIdKey(l.id) := l];
    }

    method RemoveByPath(path: string)
      modifies this
      ensures kv == RemovedByPath(old(kv), path)
    {
      if path in kv {
        var lock := kv[path];
        kv := kv - {lock.path};
        kv := kv - {EncodeIdKey(lock.id)};
        assert kv == WithoutLock(old(kv), lock);
      }
    }

    method RemoveById(id: string)
      modifies this
      ensures kv == RemovedById(old(kv), id)
    {
      var idKey := EncodeIdKey(id);
      if idKey in kv {
        var lock := kv[idKey];
        kv := kv - {idKey};
        kv := kv - {lock.path};
        assert kv == old(kv) - {idKey, lock.path};
      }
    }

    method Clear()
      modifies this
      ensures kv == map[]
    {
      kv := map[];
    }

    /** Locks, visiting the store in any order: one for each path key. */
    method Locks() returns (locks: seq<Lock>, ghost keys: seq<string>)
      ensures ListsPathKeys(kv, keys, locks)
    {
      hide IsIdKey;
      locks, keys := [], [];
      var seen: set<string> := {};
      while kv.Keys - seen != {}
        invariant seen <= kv.Keys
        invariant ListsKeys(kv, seen, keys, locks)
        decreases kv.Keys - seen
      {
        var k :| k in kv.Keys - seen;
        if !IsIdKey(k) {
          locks, keys := locks + [kv[k]], keys + [k];
        }
        seen := seen + {k};
      }
      assert forall k :: k in kv.Keys ==> k !in kv.Keys - seen;
      assert seen == kv.Keys;
    }
  }

  /** The locks under the path keys among those seen, each key once. */
  ghost predicate ListsKeys(s: Store, seen: set<string>, keys: seq<string>, locks: seq<Lock>) {
    && |locks| == |keys|
    && (forall i, j :: 0 <= i < j < |keys| ==> keys[i] != keys[j])
    && (forall k :: k in keys <==> k in seen && !IsIdKey(k))
    && (forall i :: 0 <= i < |keys| ==> keys[i] in s && locks[i] == s[keys[i]])
  }

  ghost predicate ListsPathKeys(s: Store, keys: seq<string>, locks: seq<Lock>) {
    ListsKeys(s, s.Keys, keys, locks)
  }

  // ---------------------------------------------------------------- what the store represents

  /** Neither the path nor the id looks like an encoded id. */
  predicate PlainKeys(l: Lock) { !IsIdKey(l.path) && !IsIdKey(l.id) }

  /** The store is exactly the path image and the id image of the lock set. */
  ghost predicate Represents(s: Store, live: set<Lock>) {
    && (forall l :: l in live ==> PlainKeys(l))
    && (forall l :: l in live ==> l.path in s && s[l.path] == l && EncodeIdKey(l.id) in s && s[EncodeIdKey(l.id)] == l)
    && (forall k :: k in s ==> s[k] in live && (k == s[k].path || k == EncodeIdKey(s[k].id)))
  }

  /** The two locks are for the same path under the same id, or for neither. */
  predicate Agree(a: Lock, b: Lock) { a.path == b.path <==> a.id == b.id }

  ghost function WithLive(live: set<Lock>, l: Lock): set<Lock> { (set m | m in live && m.path != l.path) + {l} }

  lemma AddAgreeing(s: Store, live: set<Lock>, l: Lock)
    requires Represents(s, live) && PlainKeys(l) && forall m :: m in live ==> Agree(m, l)
    ensures Represents(WithLock(s, l), WithLive(live, l))
  {
    hide IsIdKey, EncodeIdKey;
    var after, now := WithLock(s, l), WithLive(live, l);
    forall m | m in now && m != l
      ensures after[m.path] == m && EncodeIdKey(m.id) in after && after[EncodeIdKey(m.id)] == m
    {
      if EncodeIdKey(m.id) == EncodeIdKey(l.id) {
        EncodeIsInjective(m.id, l.id);
      }
      KeysApart(m, l);
      KeysApart(l, m);
    }
    forall k | k in after
      ensures after[k] in now && (k == after[k].path || k == EncodeIdKey(after[k].id))
    {
      if after[k] != l {
        assert after[k] == s[k] && s[k] in live;
      }
    }
  }

  /** A plain path is never an encoded id. */
  lemma KeysApart(a: Lock, b: Lock)
    requires PlainKeys(a)
    ensures a.path != EncodeIdKey(b.id)
  {
  }

  /** Adding a lock leaves a store that represents some lock set exactly when no live
      lock shares only one of path and id with it. */
  lemma AddRepresentsIff(s: Store, live: set<Lock>, l: Lock)
    requires Represents(s, live) && PlainKeys(l)
    ensures (exists now :: Represents(WithLock(s, l), now)) <==> forall m :: m in live ==> Agree(m, l)
  {
    if forall m :: m in live ==> Agree(m, l) {
      AddAgreeing(s, live, l);
    } else {
      var m :| m in live && !Agree(m, l);
      forall now
        ensures !Represents(WithLock(s, l), now)
      {
        StaleEntry(s, live, l, m, now);
      }
    }
  }

  /** Two locks on one path under different ids: the store then represents nothing,
      because the first id still leads to the first lock. */
  lemma RelockedPathBreaksTheCache(l: Lock, id: string)
    requires PlainKeys(l) && !IsIdKey(id) && id != l.id
    ensures Represents(WithLock(map[], l), {l})
    ensures forall now :: !Represents(WithLock(WithLock(map[], l), l.(id := id)), now)
  {
    hide IsIdKey;
    AddAgreeing(map[], {}, l);
    assert WithLive({}, l) == {l};
    assert !Agree(l, l.(id := id));
    AddRepresentsIff(WithLock(map[], l), {l}, l.(id := id));
  }

  /** The entry of the lock that shares only one key survives under the other. */
  lemma StaleEntry(s: Store, live: set<Lock>, l: Lock, m: Lock, now: set<Lock>)
    requires Represents(s, live) && PlainKeys(l) && m in live && !Agree(m, l)
    ensures !Represents(WithLock(s, l), now)
  {
    hide IsIdKey, EncodeIdKey;
    var after := WithLock(s, l);
    KeysApart(m, l);
    KeysApart(l, m);
    if m.path == l.path {
      if EncodeIdKey(m.id) == EncodeIdKey(l.id) {
        EncodeIsInjective(m.id, l.id);
      }
      assert after[EncodeIdKey(m.id)] == m && after[m.path] == l;
    } else {
      assert after[m.path] == m && after[EncodeIdKey(m.id)] == l;
    }
  }

  ghost function WithoutKey(s: Store, live: set<Lock>, key: string): set<Lock> {
    if key in s then live - {s[key]} else live
  }

  /** Removals always leave the image of the remaining locks. */
  lemma RemoveRepresents(s: Store, live: set<Lock>, path: string)
    requires Represents(s, live)
    ensures Represents(RemovedByPath(s, path), WithoutKey(s, live, path))
  {
    hide IsIdKey, EncodeIdKey;
    if path in s {
      RemoveOne(s, live, s[path]);
    }
  }

  lemma RemoveOne(s: Store, live: set<Lock>, l: Lock)
    requires Represents(s, live) && l in live
    ensures Represents(WithoutLock(s, l), live - {l})
  {
    hide IsIdKey, EncodeIdKey;
    var after := WithoutLock(s, l);
    forall m | m in live - {l}
      ensures m.path in after && EncodeIdKey(m.id) in after
    {
      KeysApart(m, l);
      KeysApart(l, m);
    }
  }

  lemma RemoveByIdRepresents(s: Store, live: set<Lock>, id: string)
    requires Represents(s, live)
    ensures Represents(RemovedById(s, id), set m | m in live && EncodeIdKey(m.id) != EncodeIdKey(id))
  {
    hide IsIdKey, EncodeIdKey, Represents;
    var key := EncodeIdKey(id);
    if key in s {
      FoundById(s, live, id);
      RemoveOne(s, live, s[key]);
    }
    IdHolders(s, live, key);
  }

  lemma FoundById(s: Store, live: set<Lock>, id: string)
    requires Represents(s, live) && EncodeIdKey(id) in s
    ensures var l := s[EncodeIdKey(id)];
            l in live && EncodeIdKey(l.id) == EncodeIdKey(id) && RemovedById(s, id) == WithoutLock(s, l)
  {
    hide IsIdKey, EncodeIdKey;
    var l := s[EncodeIdKey(id)];
    KeysApart(l, l.(id := id));
  }

  lemma IdHolders(s: Store, live: set<Lock>, key: string)
    requires Represents(s, live) && (key in s ==> key == EncodeIdKey(s[key].id))
    ensures (set m | m in live && EncodeIdKey(m.id) != key) == WithoutKey(s, live, key)
  {
  }

  // ---------------------------------------------------------------- over every sequence of operations

  datatype Op = Add(lock: Lock) | RemoveByPath(path: string) | RemoveById(id: string) | Clear

  function Apply(s: Store, op: Op): Store {
    match op
    case Add(l) => WithLock(s, l)
    case RemoveByPath(path) => RemovedByPath(s, path)
    case RemoveById(id) => RemovedById(s, id)
    case Clear => map[]
  }

  /** The locks that are live after an operation: what a caller means by it. */
  ghost function Live(live: set<Lock>, op: Op): set<Lock> {
    match op
    case Add(l) => WithLive(live, l)
    case RemoveByPath(path) => set m | m in live && m.path != path
    case RemoveById(id) => set m | m in live && m.id != id
    case Clear => {}
  }

  /** Callers name plain paths and ids, and add only locks that agree with the live ones. */
  ghost predicate Proper(live: set<Lock>, op: Op) {
    match op
    case Add(l) => PlainKeys(l) && forall m :: m in live ==> Agree(m, l)
    case RemoveByPath(path) => !IsIdKey(path)
    case RemoveById(id) => !IsIdKey(id)
    case Clear => true
  }

  function Run(s: Store, ops: seq<Op>): Store
    decreases |ops|
  {
    if ops == [] then s else Run(Apply(s, ops[0]), ops[1..])
  }

  ghost function RunLive(live: set<Lock>, ops: seq<Op>): set<Lock>
    decreases |ops|
  {
    if ops == [] then live else RunLive(Live(live, ops[0]), ops[1..])
  }

  ghost predicate ProperRun(live: set<Lock>, ops: seq<Op>)
    decreases |ops|
  {
    ops != [] ==> Proper(live, ops[0]) && ProperRun(Live(live, ops[0]), ops[1..])
  }

  lemma OpRepresents(s: Store, live: set<Lock>, op: Op)
    requires Represents(s, live) && Proper(live, op)
    ensures Represents(Apply(s, op), Live(live, op))
  {
    match op
    case Add(l) => AddAgreeing(s, live, l);
    case RemoveByPath(path) =>
      RemoveRepresents(s, live, path);
      PathRemoved(s, live, path);
    case RemoveById(id) =>
      RemoveByIdRepresents(s, live, id);
      IdRemoved(live, id);
    case Clear =>
  }

  lemma PathRemoved(s: Store, live: set<Lock>, path: string)
    requires Represents(s, live) && !IsIdKey(path)
    ensures WithoutKey(s, live, path) == set m | m in live && m.path != path
  {
  }

  lemma IdRemoved(live: set<Lock>, id: string)
    requires !IsIdKey(id) && forall m :: m in live ==> PlainKeys(m)
    ensures (set m | m in live && EncodeIdKey(m.id) != EncodeIdKey(id)) == set m | m in live && m.id != id
  {
    forall m | m in live && EncodeIdKey(m.id) == EncodeIdKey(id)
      ensures m.id == id
    {
      EncodeIsInjective(m.id, id);
    }
  }

  /** After any proper sequence of operations the store is exactly the path image and
      the id image of the live locks. */
  lemma {:induction false} StoreIsTheLiveLocks(s: Store, live: set<Lock>, ops: seq<Op>)
    requires Represents(s, live) && ProperRun(live, ops)
    ensures Represents(Run(s, ops), RunLive(live, ops))
    decreases |ops|
  {
    if ops != [] {
      OpRepresents(s, live, ops[0]);
      StoreIsTheLiveLocks(Apply(s, ops[0]), Live(live, ops[0]), ops[1..]);
    }
  }

  /** What Locks lists from such a store: each live lock, once. */
  lemma ListingIsTheLiveLocks(s: Store, live: set<Lock>, keys: seq<string>, locks: seq<Lock>)
    requires Represents(s, live) && ListsPathKeys(s, keys, locks)
    ensures forall l :: l in locks <==> l in live
    ensures forall i, j :: 0 <= i < j < |locks| ==> locks[i] != locks[j]
  {
    hide IsIdKey, EncodeIdKey;
    forall i | 0 <= i < |keys|
      ensures locks[i] in live && locks[i].path == keys[i]
    {
      assert keys[i] in keys;
      IdKeysAreEncoded(locks[i]);
    }
    forall l | l in live
      ensures l in locks
    {
      assert l.path in s && !IsIdKey(l.path);
      var i :| 0 <= i < |keys| && keys[i] == l.path;
      assert locks[i] == l;
    }
  }

  lemma IdKeysAreEncoded(l: Lock)
    ensures IsIdKey(EncodeIdKey(l.id))
  {
  }
}
