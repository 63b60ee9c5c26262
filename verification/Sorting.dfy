/** Sorting by distinct integer keys. */
module Sorting {

  ghost predicate Ascending<T(!new)>(s: seq<T>, key: T -> int) {
    forall i, j :: 0 <= i < j < |s| ==> key(s[i]) < key(s[j])
  }

  ghost predicate DistinctKeys<T(!new)>(s: seq<T>, key: T -> int) {
    forall i, j :: 0 <= i < j < |s| ==> key(s[i]) != key(s[j])
  }

  function Insert<T(!new)>(x: T, s: seq<T>, key: T -> int): (r: seq<T>)
    requires Ascending(s, key) && forall y :: y in s ==> key(y) != key(x)
    ensures Ascending(r, key) && |r| == |s| + 1
    ensures forall y :: y in r <==> y == x || y in s
  {
    if s == [] || key(x) < key(s[0]) then [x] + s
    else
      var rest := Insert(x, s[1..], key);
      assert forall y :: y in s[1..] ==> key(s[0]) < key(y);
      assert forall i :: 0 <= i < |rest| ==> rest[i] in rest && key(s[0]) < key(rest[i]);
      [s[0]] + rest
  }

  function Sort<T(!new)>(s: seq<T>, key: T -> int): (r: seq<T>)
    requires DistinctKeys(s, key)
    ensures Ascending(r, key) && |r| == |s|
    ensures forall y :: y in r <==> y in s
  {
    if s == [] then [] else Insert(s[0], Sort(s[1..], key), key)
  }

  lemma {:induction false} SortedStaysSorted<T(!new)>(s: seq<T>, key: T -> int)
    requires Ascending(s, key)
    ensures Sort(s, key) == s
  {
    if s != [] {
      SortedStaysSorted(s[1..], key);
    }
  }

  /** A set has only one ascending listing. */
  lemma {:induction false} AscendingIsUnique<T(!new)>(a: seq<T>, b: seq<T>, key: T -> int)
    requires Ascending(a, key) && Ascending(b, key) && forall x :: x in a <==> x in b
    ensures a == b
  {
    if b != [] {
      assert b[0] in b;
    }
    if a != [] {
      assert a[0] in b && b != [] && b[0] in a;
      assert a[0] == b[0];
      forall x
        ensures x in a[1..] <==> x in b[1..]
      {
        assert x in a[1..] ==> x in b && x != b[0];
        assert x in b[1..] ==> x in a && x != a[0];
      }
      AscendingIsUnique(a[1..], b[1..], key);
    }
  }
}
