/** A stable sort, as the array `sort` of the sources is. */
module Sorting {

  /** One more element goes behind everything whose key is no larger. */
  function Insert<T>(sorted: seq<T>, x: T, key: T -> int): seq<T> {
    if sorted == [] || key(sorted[|sorted| - 1]) <= key(x) then sorted + [x]
    else Insert(sorted[..|sorted| - 1], x, key) + [sorted[|sorted| - 1]]
  }

  function StableSort<T>(xs: seq<T>, key: T -> int): seq<T> {
    if xs == [] then [] else Insert(StableSort(xs[..|xs| - 1], key), xs[|xs| - 1], key)
  }

  ghost predicate Increasing<T(!new)>(xs: seq<T>, before: (T, T) -> bool) {
    forall i, j :: 0 <= i < j < |xs| ==> before(xs[i], xs[j])
  }

  predicate Ahead<T>(a: T, b: T, key: T -> int, before: (T, T) -> bool) {
    key(a) < key(b) || (key(a) == key(b) && before(a, b))
  }

  ghost predicate SortedBy<T(!new)>(xs: seq<T>, key: T -> int, before: (T, T) -> bool) {
    forall i, j :: 0 <= i < j < |xs| ==> Ahead(xs[i], xs[j], key, before)
  }

  lemma {:induction false} InsertKeepsOrder<T(!new)>(sorted: seq<T>, x: T, key: T -> int, before: (T, T) -> bool)
    requires SortedBy(sorted, key, before) && forall s :: s in sorted ==> before(s, x)
    ensures SortedBy(Insert(sorted, x, key), key, before)
    ensures forall s :: s in Insert(sorted, x, key) <==> s in sorted || s == x
  {
    if sorted == [] {
    } else if key(sorted[|sorted| - 1]) <= key(x) {
      LastAhead(sorted, x, key, before);
    } else {
      var init, last := sorted[..|sorted| - 1], sorted[|sorted| - 1];
      assert sorted == init + [last];
      InsertKeepsOrder(init, x, key, before);
      assert Ahead(x, last, key, before);
      hide Ahead;
      var rest := Insert(init, x, key);
      forall s | s in rest ensures Ahead(s, last, key, before) {
        assert s == x || s in init;
      }
    }
  }

  lemma LastAhead<T(!new)>(sorted: seq<T>, x: T, key: T -> int, before: (T, T) -> bool)
    requires sorted != [] && SortedBy(sorted, key, before) && key(sorted[|sorted| - 1]) <= key(x)
    requires forall s :: s in sorted ==> before(s, x)
    ensures SortedBy(sorted + [x], key, before)
  {
    var n := |sorted| - 1;
    forall i | 0 <= i < |sorted| ensures Ahead(sorted[i], x, key, before) {
      assert i == n || Ahead(sorted[i], sorted[n], key, before);
    }
  }

  /** By key, and among equal keys in the order they came; the same elements. */
  lemma {:induction false} SortMeans<T(!new)>(xs: seq<T>, key: T -> int, before: (T, T) -> bool)
    requires Increasing(xs, before)
    ensures SortedBy(StableSort(xs, key), key, before)
    ensures forall x :: x in StableSort(xs, key) <==> x in xs
  {
    hide Insert, SortedBy;
    if xs == [] {
      SortedNothing(key, before);
    } else {
      var init, last := xs[..|xs| - 1], xs[|xs| - 1];
      assert xs == init + [last];
      SortMeans(init, key, before);
      assert forall s :: s in init ==> before(s, last);
      InsertKeepsOrder(StableSort(init, key), last, key, before);
    }
  }

  lemma SortedNothing<T(!new)>(key: T -> int, before: (T, T) -> bool)
    ensures SortedBy<T>([], key, before)
  {
  }

  /** Nothing is lost and nothing doubled. */
  lemma {:induction false} SortPermutes<T>(xs: seq<T>, key: T -> int)
    ensures multiset(StableSort(xs, key)) == multiset(xs)
  {
    if xs == [] {
    } else {
      var init, last := xs[..|xs| - 1], xs[|xs| - 1];
      assert xs == init + [last];
      SortPermutes(init, key);
      InsertAdds(StableSort(init, key), last, key);
    }
  }

  lemma {:induction false} InsertAdds<T>(sorted: seq<T>, x: T, key: T -> int)
    ensures multiset(Insert(sorted, x, key)) == multiset(sorted) + multiset{x}
  {
    if sorted == [] || key(sorted[|sorted| - 1]) <= key(x) {
    } else {
      assert sorted == sorted[..|sorted| - 1] + [sorted[|sorted| - 1]];
      InsertAdds(sorted[..|sorted| - 1], x, key);
    }
  }
}
