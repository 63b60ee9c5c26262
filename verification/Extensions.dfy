/** Filter extensions and their order (config/extension.go). */
module Extensions {
  import opened Options
  import Sorting

  /** The clean and smudge fields are command lines. */
  datatype Extension = Extension(name: string, clean: string, smudge: string, priority: int)

  type Registry = map<string, Extension>

  predicate Ascending(s: seq<Extension>) {
    forall i, j :: 0 <= i < j < |s| ==> s[i].priority < s[j].priority
  }

  ghost predicate Registered(m: Registry, e: Extension) { exists k :: k in m && m[k] == e }

  /** The extensions of a registry, in ascending order of priority. */
  ghost predicate Lists(m: Registry, s: seq<Extension>) {
    && Ascending(s)
    && (forall k :: k in m ==> m[k] in s)
    && (forall i :: 0 <= i < |s| ==> Registered(m, s[i]))
  }

  predicate DistinctPriorities(m: Registry) {
    forall k, l :: k in m && l in m && k != l ==> m[k].priority != m[l].priority
  }

  function Priority(e: Extension): int { e.priority }

  /** The order does not depend on Go's map iteration. */
  lemma ListingIsUnique(m: Registry, a: seq<Extension>, b: seq<Extension>)
    requires Lists(m, a) && Lists(m, b)
    ensures a == b
  {
    forall x
      ensures x in a ==> x in b
      ensures x in b ==> x in a
    {
      ListedIsRegistered(m, a, x);
      ListedIsRegistered(m, b, x);
    }
    Sorting.AscendingIsUnique(a, b, Priority);
  }

  lemma ListedIsRegistered(m: Registry, s: seq<Extension>, x: Extension)
    requires Lists(m, s)
    ensures x in s <==> Registered(m, x)
  {
  }

  predicate AscendingInts(s: seq<int>) { forall i, j :: 0 <= i < j < |s| ==> s[i] < s[j] }

  function Itself(n: int): int { n }

  /** sort.Ints on distinct numbers. */
  function SortInts(s: seq<int>): (r: seq<int>)
    requires forall i, j :: 0 <= i < j < |s| ==> s[i] != s[j]
    ensures AscendingInts(r) && forall x :: x in r <==> x in s
  {
    Sorting.Sort(s, Itself)
  }

  /** Each extension of the keys seen so far under its priority. */
  ghost predicate Indexes(m: Registry, seen: set<string>, pMap: map<int, Extension>) {
    && (forall k :: k in seen ==> k in m && m[k].priority in pMap && pMap[m[k].priority] == m[k])
    && (forall p :: p in pMap ==> pMap[p].priority == p && exists k :: k in seen && m[k] == pMap[p])
    && (forall k, l :: k in seen && l in seen && k != l ==> m[k].priority != m[l].priority)
  }

  lemma IndexOneMore(m: Registry, seen: set<string>, pMap: map<int, Extension>, n: string)
    requires Indexes(m, seen, pMap) && n in m && n !in seen && m[n].priority !in pMap
    ensures Indexes(m, seen + {n}, pMap[m[n].priority := m[n]])
  {
    var next := pMap[m[n].priority := m[n]];
    forall p | p in next
      ensures exists k :: k in seen + {n} && m[k] == next[p]
    {
      if p != m[n].priority {
        var k :| k in seen && m[k] == pMap[p];
        assert k in seen + {n};
      }
    }
  }

  /** The first loop of SortExtensions, which walks the map in any order. */
  method IndexByPriority(m: Registry) returns (ok: bool, pMap: map<int, Extension>, priorities: seq<int>)
    ensures ok <==> DistinctPriorities(m)
    ensures ok ==> Indexes(m, m.Keys, pMap) && forall p :: p in priorities <==> p in pMap
    ensures ok ==> forall i, j :: 0 <= i < j < |priorities| ==> priorities[i] != priorities[j]
  {
    pMap, priorities := map[], [];
    var seen: set<string> := {};
    while m.Keys - seen != {}
      invariant seen <= m.Keys && Indexes(m, seen, pMap)
      invariant forall p :: p in priorities <==> p in pMap
      invariant forall i, j :: 0 <= i < j < |priorities| ==> priorities[i] != priorities[j]
      decreases m.Keys - seen
    {
      var n :| n in m.Keys - seen;
      var p := m[n].priority;
      if p in pMap {
        return false, pMap, priorities;
      }
      IndexOneMore(m, seen, pMap, n);
      pMap, priorities, seen := pMap[p := m[n]], priorities + [p], seen + {n};
    }
    assert forall k :: k in m.Keys ==> k !in m.Keys - seen;
    assert seen == m.Keys;
    ok := true;
  }

  lemma FiledUnderSomeKey(m: Registry, pMap: map<int, Extension>, p: int)
    requires Indexes(m, m.Keys, pMap) && p in pMap
    ensures Registered(m, pMap[p])
  {
    var k :| k in m.Keys && m[k] == pMap[p];
    assert k in m;
  }

  /** Reading the index in ascending order of priority lists the registry. */
  lemma ReadInOrder(m: Registry, pMap: map<int, Extension>, sorted: seq<int>, list: seq<Extension>)
    requires Indexes(m, m.Keys, pMap) && AscendingInts(sorted) && forall p :: p in sorted <==> p in pMap
    requires |list| == |sorted| && forall j :: 0 <= j < |list| ==> sorted[j] in pMap && list[j] == pMap[sorted[j]]
    ensures Lists(m, list)
  {
    forall k | k in m
      ensures m[k] in list
    {
      assert k in m.Keys;
      var j :| 0 <= j < |sorted| && sorted[j] == m[k].priority;
      assert list[j] == m[k];
    }
    forall i | 0 <= i < |list|
      ensures Registered(m, list[i])
    {
      FiledUnderSomeKey(m, pMap, sorted[i]);
    }
  }

  /** SortExtensions: fails exactly when two extensions share a priority, and
      otherwise lists them in ascending order, whatever order the map is walked in. */
  method SortExtensions(m: Registry) returns (result: Option<seq<Extension>>)
    ensures result.Some? <==> DistinctPriorities(m)
    ensures result.Some? ==> Lists(m, result.value)
  {
    hide Indexes, Lists;
    var ok, pMap, priorities := IndexByPriority(m);
    if !ok {
      return None;
    }
    var sorted := SortInts(priorities);
    var list: seq<Extension> := [];
    for i := 0 to |sorted|
      invariant |list| == i && forall j :: 0 <= j < i ==> sorted[j] in pMap && list[j] == pMap[sorted[j]]
    {
      assert sorted[i] in sorted;
      list := list + [pMap[sorted[i]]];
    }
    ReadInOrder(m, pMap, sorted, list);
    result := Some(list);
  }
}
