/** Searching locks page by page while filling the cache, and in the cache itself
    (locking/locks.go). */
module LockSearch {
  import opened Options
  import opened LockCache
  import opened Locks

  /** One answer of the server. The last one carries no cursor; Refused stands for an
      error status, a failed request or an error message. */
  datatype Page = Page(ours: seq<Lock>, theirs: seq<Lock>) | Refused

  /** A lock and whether it is ours. */
  datatype Item = Item(lock: Lock, mine: bool)

  function Tagged(locks: seq<Lock>, mine: bool): (r: seq<Item>)
    ensures |r| == |locks| && forall i :: 0 <= i < |r| ==> r[i] == Item(locks[i], mine)
  {
    seq(|locks|, i requires 0 <= i < |locks| => Item(locks[i], mine))
  }

  function Items(p: Page): seq<Item> { if p.Refused? then [] else Tagged(p.ours, true) + Tagged(p.theirs, false) }

  /** Everything the server has, in the order it sends it. */
  function AllItems(pages: seq<Page>): seq<Item> {
    if pages == [] then [] else Items(pages[0]) + AllItems(pages[1..])
  }

  /** A limit of zero means no limit. */
  function Cut(items: seq<Item>, limit: nat): seq<Item> {
    if 0 < limit <= |items| then items[..limit] else items
  }

  predicate Full(n: nat, limit: nat) { 0 < limit <= n }

  /** The pages that are asked for until the limit is reached or one is refused. */
  function Collect(pages: seq<Page>, taken: seq<Item>, limit: nat): (seq<Item>, bool)
    requires !Full(|taken|, limit)
    decreases |pages|
  {
    if pages == [] then (taken, true)
    else if pages[0].Refused? then (taken, false)
    else
      var all := taken + Items(pages[0]);
      if Full(|all|, limit) then (all[..limit], true) else Collect(pages[1..], all, limit)
  }

  function Side(items: seq<Item>, mine: bool): seq<Lock> {
    if items == [] then []
    else Side(items[..|items| - 1], mine)
         + (if items[|items| - 1].mine == mine then [items[|items| - 1].lock] else [])
  }

  function Cached(items: seq<Item>): Store {
    if items == [] then map[] else WithLock(Cached(items[..|items| - 1]), items[|items| - 1].lock)
  }

  lemma {:induction false} OneMore(items: seq<Item>, x: Item)
    ensures Cached(items + [x]) == WithLock(Cached(items), x.lock)
    ensures Side(items + [x], x.mine) == Side(items, x.mine) + [x.lock]
    ensures Side(items + [x], !x.mine) == Side(items, !x.mine)
    ensures |Side(items + [x], true)| + |Side(items + [x], false)| == |Side(items, true)| + |Side(items, false)| + 1
  {
    assert (items + [x])[..|items|] == items;
  }

  lemma {:induction false} SidesCover(items: seq<Item>)
    ensures |Side(items, true)| + |Side(items, false)| == |items|
  {
    if items != [] {
      SidesCover(items[..|items| - 1]);
    }
  }

  /** The inner loops: cache and keep each lock until the limit is reached. */
  method TakeAll(cache: Cache, locks: seq<Lock>, mine: bool, limit: nat, kept: seq<Lock>, others: nat,
                 ghost before: seq<Item>)
    returns (now: seq<Lock>, full: bool, ghost after: seq<Item>)
    requires cache.kv == Cached(before) && !Full(|before|, limit)
    requires kept == Side(before, mine) && others == |Side(before, !mine)|
    modifies cache
    ensures var all := before + Tagged(locks, mine);
            full == Full(|all|, limit) && after == if full then all[..limit] else all
    ensures cache.kv == Cached(after) && now == Side(after, mine) && Side(after, !mine) == Side(before, !mine)
  {
    hide Side, Cached;
    var all := before + Tagged(locks, mine);
    now, after := kept, before;
    for i := 0 to |locks|
      invariant after == before + Tagged(locks[..i], mine)
      invariant |after| == |before| + i && !Full(|after|, limit)
      invariant cache.kv == Cached(after) && now == Side(after, mine) && Side(after, !mine) == Side(before, !mine)
    {
      var x := Item(locks[i], mine);
      cache.Add(locks[i]);
      now := now + [locks[i]];
      OneMore(after, x);
      assert before + Tagged(locks[..i + 1], mine) == after + [x];
      after := after + [x];
      SidesCover(after);
      if limit > 0 && |now| + others >= limit {
        assert |after| == limit;
        assert after == all[..limit];
        return now, true, after;
      }
    }
    assert locks[..|locks|] == locks;
    full := false;
  }

  /** SearchLocksVerifiable, not from the cache file: clear the cache, then take ours
      and theirs of each page until the limit, the last page or a refusal. */
  method SearchLocksVerifiable(cache: Cache, pages: seq<Page>, limit: nat)
    returns (ours: seq<Lock>, theirs: seq<Lock>, ok: bool)
    modifies cache
    ensures var (items, done) := Collect(pages, [], limit);
            ok == done && ours == Side(items, true) && theirs == Side(items, false) && cache.kv == Cached(items)
  {
    cache.Clear();
    ours, theirs := [], [];
    ghost var taken: seq<Item> := [];
    for i := 0 to |pages|
      invariant !Full(|taken|, limit) && cache.kv == Cached(taken)
      invariant ours == Side(taken, true) && theirs == Side(taken, false)
      invariant Collect(pages, [], limit) == Collect(pages[i..], taken, limit)
    {
      hide Side, Cached;
      var page := pages[i];
      assert pages[i..][0] == page && pages[i..][1..] == pages[i + 1..];
      if page.Refused? {
        return ours, theirs, false;
      }
      ghost var all := taken + Items(page);
      assert all == (taken + Tagged(page.ours, true)) + Tagged(page.theirs, false);
      ghost var after;
      var full;
      ours, full, after := TakeAll(cache, page.ours, true, limit, ours, |theirs|, taken);
      if full {
        assert after == all[..limit];
        return ours, theirs, true;
      }
      theirs, full, after := TakeAll(cache, page.theirs, false, limit, theirs, |ours|, after);
      if full {
        return ours, theirs, true;
      }
      taken := after;
    }
    ok := true;
  }

  // ---------------------------------------------------------------- what the search returns

  lemma {:induction false} CollectIsCut(pages: seq<Page>, taken: seq<Item>, limit: nat)
    requires !Full(|taken|, limit) && forall p :: p in pages ==> !p.Refused?
    ensures Collect(pages, taken, limit) == (Cut(taken + AllItems(pages), limit), true)
    decreases |pages|
  {
    if pages == [] {
      assert taken + [] == taken;
    } else {
      var all := taken + Items(pages[0]);
      assert pages[0] in pages && forall p :: p in pages[1..] ==> p in pages;
      assert taken + AllItems(pages) == all + AllItems(pages[1..]);
      if Full(|all|, limit) {
        assert (all + AllItems(pages[1..]))[..limit] == all[..limit];
      } else {
        CollectIsCut(pages[1..], all, limit);
      }
    }
  }

  /** A search without refusals returns all the server's locks, cut at the limit,
      whatever the pages they come in. */
  lemma {:induction false} SearchIsCut(pages: seq<Page>, limit: nat)
    requires forall p :: p in pages ==> !p.Refused?
    ensures Collect(pages, [], limit) == (Cut(AllItems(pages), limit), true)
  {
    CollectIsCut(pages, [], limit);
    assert [] + AllItems(pages) == AllItems(pages);
  }

  /** Page i is refused, and asked for because n locks and those before it are not enough. */
  ghost predicate RefusedAt(pages: seq<Page>, n: nat, limit: nat, i: nat) {
    i < |pages| && pages[i].Refused? && !Full(n + |AllItems(pages[..i])|, limit)
  }

  lemma RefusedLater(pages: seq<Page>, n: nat, limit: nat, i: nat)
    requires pages != [] && i > 0
    ensures RefusedAt(pages, n, limit, i) <==> RefusedAt(pages[1..], n + |Items(pages[0])|, limit, i - 1)
  {
    if i < |pages| {
      assert pages[..i][1..] == pages[1..][..i - 1];
    }
  }

  lemma {:induction false} CollectFailsIff(pages: seq<Page>, taken: seq<Item>, limit: nat)
    requires !Full(|taken|, limit)
    ensures !Collect(pages, taken, limit).1 <==> exists i: nat :: RefusedAt(pages, |taken|, limit, i)
    decreases |pages|
  {
    hide Items;
    if pages != [] {
      var all := taken + Items(pages[0]);
      forall i: nat | i > 0
        ensures RefusedAt(pages, |taken|, limit, i) <==> RefusedAt(pages[1..], |all|, limit, i - 1)
      {
        RefusedLater(pages, |taken|, limit, i);
      }
      assert pages[..0] == [];
      if pages[0].Refused? {
        assert RefusedAt(pages, |taken|, limit, 0);
      } else if Full(|all|, limit) {
        forall i: nat
          ensures !RefusedAt(pages, |taken|, limit, i)
        {
        }
      } else {
        CollectFailsIff(pages[1..], all, limit);
        if i: nat :| RefusedAt(pages[1..], |all|, limit, i) {
          assert RefusedAt(pages, |taken|, limit, i + 1);
        }
      }
    }
  }

  /** A search fails exactly when a page is refused before the limit is reached. */
  lemma {:induction false} SearchFailsIff(pages: seq<Page>, limit: nat)
    ensures !Collect(pages, [], limit).1
            <==> exists i: nat :: i < |pages| && pages[i].Refused? && !Full(|AllItems(pages[..i])|, limit)
  {
    CollectFailsIff(pages, [], limit);
    assert forall i: nat :: RefusedAt(pages, 0, limit, i)
                            <==> i < |pages| && pages[i].Refused? && !Full(|AllItems(pages[..i])|, limit);
  }

  // ---------------------------------------------------------------- what the cache then holds

  /** Any two locks are the same, or differ in both path and id. */
  predicate Apart(items: seq<Item>) {
    forall i, j :: 0 <= i < j < |items| ==>
      || items[i].lock == items[j].lock
      || (items[i].lock.path != items[j].lock.path && items[i].lock.id != items[j].lock.id)
  }

  ghost function LockSet(items: seq<Item>): set<Lock> { set x | x in items :: x.lock }

  /** A lock apart from all earlier ones joins their set. */
  lemma LastJoins(items: seq<Item>)
    requires items != [] && Apart(items)
    ensures var n := |items| - 1;
            var rest, l := items[..n], items[n].lock;
            && Apart(rest)
            && (forall m :: m in LockSet(rest) ==> Agree(m, l))
            && LockSet(items) == WithLive(LockSet(rest), l)
  {
    var n := |items| - 1;
    var rest, l := items[..n], items[n].lock;
    forall m | m in LockSet(rest)
      ensures m == l || (m.path != l.path && m.id != l.id)
    {
      var i :| 0 <= i < n && rest[i].lock == m;
      assert items[i].lock == m;
    }
    assert items == rest + [items[n]];
    assert forall m :: m in LockSet(items) <==> m in LockSet(rest) || m == l;
  }

  lemma {:induction false} CacheHoldsTheItems(items: seq<Item>)
    requires Apart(items) && forall x :: x in items ==> PlainKeys(x.lock)
    ensures Represents(Cached(items), LockSet(items))
  {
    hide PlainKeys, Apart, LockSet, Represents, Agree;
    if items == [] {
      NothingCached();
    } else {
      var n := |items| - 1;
      assert items[n] in items && forall x :: x in items[..n] ==> x in items;
      LastJoins(items);
      CacheHoldsTheItems(items[..n]);
      AddAgreeing(Cached(items[..n]), LockSet(items[..n]), items[n].lock);
    }
  }

  lemma NothingCached()
    ensures Represents(Cached([]), LockSet([]))
  {
  }

  lemma LockSetAppend(items: seq<Item>, x: Item, l: Lock)
    ensures l in LockSet(items + [x]) <==> l in LockSet(items) || l == x.lock
  {
    assert x in items + [x];
  }

  lemma {:induction false} SidesHoldTheItems(items: seq<Item>, l: Lock)
    ensures l in LockSet(items) <==> l in Side(items, true) || l in Side(items, false)
  {
    hide LockSet;
    if items == [] {
      NoLocks(l);
    } else {
      var n := |items| - 1;
      SidesHoldTheItems(items[..n], l);
      assert items == items[..n] + [items[n]];
      LockSetAppend(items[..n], items[n], l);
    }
  }

  lemma NoLocks(l: Lock)
    ensures l !in LockSet([])
  {
  }

  /** After a search, failed or not, whose locks are told apart by path and by id, the
      cache lists exactly the locks it returned, ours and theirs together, each once. */
  lemma {:induction false} CacheListsTheReturnedLocks(pages: seq<Page>, limit: nat, keys: seq<string>,
                                                      listed: seq<Lock>)
    requires var items := Collect(pages, [], limit).0;
             && Apart(items) && (forall x :: x in items ==> PlainKeys(x.lock))
             && ListsPathKeys(Cached(items), keys, listed)
    ensures var items := Collect(pages, [], limit).0;
            forall l :: l in listed <==> l in Side(items, true) || l in Side(items, false)
    ensures forall i, j :: 0 <= i < j < |listed| ==> listed[i] != listed[j]
  {
    hide Collect, Represents, Apart, PlainKeys, ListsPathKeys;
    var items := Collect(pages, [], limit).0;
    CacheHoldsTheItems(items);
    ListingIsTheLiveLocks(Cached(items), LockSet(items), keys, listed);
    forall l
      ensures l in listed <==> l in Side(items, true) || l in Side(items, false)
    {
      SidesHoldTheItems(items, l);
    }
  }

  // ---------------------------------------------------------------- searching the cache

  predicate Wanted(l: Lock, path: Option<string>, id: Option<string>) {
    (path.Some? ==> l.path == path.value) && (id.Some? ==> l.id == id.value)
  }

  function Matching(locks: seq<Lock>, path: Option<string>, id: Option<string>): seq<Lock> {
    if locks == [] then []
    else (if Wanted(locks[0], path, id) then [locks[0]] else []) + Matching(locks[1..], path, id)
  }

  function CutLocks(locks: seq<Lock>, limit: nat): seq<Lock> { if 0 < limit <= |locks| then locks[..limit] else locks }

  lemma {:induction false} MatchingStep(locks: seq<Lock>, path: Option<string>, id: Option<string>, i: nat)
    requires i < |locks|
    ensures Matching(locks[i..], path, id)
            == (if Wanted(locks[i], path, id) then [locks[i]] else []) + Matching(locks[i + 1..], path, id)
  {
    assert locks[i..][0] == locks[i] && locks[i..][1..] == locks[i + 1..];
  }

  lemma {:induction false} NoneMatching(path: Option<string>, id: Option<string>)
    ensures Matching([], path, id) == []
  {
  }

  /** searchLocalLocks on the cached locks: the matching ones in order, cut at the limit. */
  method SearchLocalLocks(cached: seq<Lock>, path: Option<string>, id: Option<string>, limit: nat)
    returns (locks: seq<Lock>)
    ensures locks == CutLocks(Matching(cached, path, id), limit)
  {
    hide Matching;
    locks := [];
    ghost var all, rest := Matching(cached, path, id), Matching(cached, path, id);
    for i := 0 to |cached|
      invariant rest == Matching(cached[i..], path, id)
      invariant all == locks + rest && !Full(|locks|, limit)
    {
      var l := cached[i];
      MatchingStep(cached, path, id, i);
      rest := Matching(cached[i + 1..], path, id);
      if (path.Some? && path.value != l.path) || (id.Some? && id.value != l.id) {
        assert [] + rest == rest;
        continue;
      }
      assert locks + ([l] + rest) == (locks + [l]) + rest;
      locks := locks + [l];
      if limit > 0 && |locks| >= limit {
        assert all[..limit] == locks;
        return;
      }
    }
    assert cached[|cached|..] == [];
    NoneMatching(path, id);
  }
}
