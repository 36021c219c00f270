/** Sorting by a whole-number key, as the language libraries do it: elements of equal key keep their
    order. */
module StableSort {

  /** Places an element after those whose key is not larger. */
  function Place<T>(s: seq<T>, x: T, key: T -> int): seq<T> {
    if s == [] || key(s[|s| - 1]) <= key(x) then s + [x] else Place(s[..|s| - 1], x, key) + [s[|s| - 1]]
  }

  function Sorted<T>(s: seq<T>, key: T -> int): seq<T> {
    if s == [] then [] else Place(Sorted(s[..|s| - 1], key), s[|s| - 1], key)
  }

  predicate Ascending<T>(s: seq<T>, key: T -> int) {
    forall i, j | 0 <= i <= j < |s| :: key(s[i]) <= key(s[j])
  }

  lemma {:induction false} PlaceKeeps<T>(s: seq<T>, x: T, key: T -> int)
    ensures forall y :: y in Place(s, x, key) <==> y in s || y == x
    decreases |s|
  {
    if s != [] && key(s[|s| - 1]) > key(x) {
      PlaceKeeps(s[..|s| - 1], x, key);
      assert s == s[..|s| - 1] + [s[|s| - 1]];
    }
  }

  lemma {:induction false} PlaceOrders<T>(s: seq<T>, x: T, key: T -> int)
    requires Ascending(s, key)
    ensures |Place(s, x, key)| == |s| + 1 && Ascending(Place(s, x, key), key)
    ensures Place(s, x, key)[|s|] == if s == [] || key(s[|s| - 1]) <= key(x) then x else s[|s| - 1]
    decreases |s|
  {
    if s != [] && key(s[|s| - 1]) > key(x) {
      PlaceOrders(s[..|s| - 1], x, key);
    }
  }

  lemma {:induction false} SortedKeeps<T>(s: seq<T>, key: T -> int)
    ensures forall y :: y in Sorted(s, key) <==> y in s
    decreases |s|
  {
    if s != [] {
      var k := |s| - 1;
      SortedKeeps(s[..k], key);
      PlaceKeeps(Sorted(s[..k], key), s[k], key);
      assert s == s[..k] + [s[k]];
    }
  }

  lemma {:induction false} SortedOrders<T>(s: seq<T>, key: T -> int)
    ensures |Sorted(s, key)| == |s| && Ascending(Sorted(s, key), key)
    decreases |s|
  {
    if s != [] {
      SortedOrders(s[..|s| - 1], key);
      PlaceOrders(Sorted(s[..|s| - 1], key), s[|s| - 1], key);
    }
  }

  /** The elements of one key, in their order. */
  function WithKey<T>(s: seq<T>, key: T -> int, k: int): seq<T> {
    if s == [] then []
    else WithKey(s[..|s| - 1], key, k) + if key(s[|s| - 1]) == k then [s[|s| - 1]] else []
  }

  lemma WithKeyMore<T>(s: seq<T>, x: T, key: T -> int, k: int)
    ensures WithKey(s + [x], key, k) == WithKey(s, key, k) + if key(x) == k then [x] else []
  {
    assert (s + [x])[..|s|] == s;
  }

  lemma {:induction false} PlaceIsStable<T>(s: seq<T>, x: T, key: T -> int, k: int)
    requires Ascending(s, key)
    ensures WithKey(Place(s, x, key), key, k) == WithKey(s, key, k) + if key(x) == k then [x] else []
    decreases |s|
  {
    if s == [] || key(s[|s| - 1]) <= key(x) {
      WithKeyMore(s, x, key, k);
    } else {
      var n := |s| - 1;
      PlaceIsStable(s[..n], x, key, k);
      WithKeyMore(Place(s[..n], x, key), s[n], key, k);
    }
  }

  /** Sorting loses nothing, repeats nothing and keeps the order of elements of equal key. */
  lemma {:induction false} SortedIsStable<T>(s: seq<T>, key: T -> int, k: int)
    ensures WithKey(Sorted(s, key), key, k) == WithKey(s, key, k)
    decreases |s|
  {
    if s != [] {
      var n := |s| - 1;
      SortedOrders(s[..n], key);
      SortedIsStable(s[..n], key, k);
      PlaceIsStable(Sorted(s[..n], key), s[n], key, k);
    }
  }
}
