/** Canonical order: a sorted list depends only on what is in it. */
module Sorting {

  /** No two different members share a key. */
  ghost predicate DistinctKeys<T(!new)>(xs: seq<T>, key: T -> int) {
    forall x, y :: x in xs && y in xs && key(x) == key(y) ==> x == y
  }

  ghost predicate AtMost<T(!new)>(k: int, xs: seq<T>, key: T -> int) {
    forall x :: x in xs ==> k <= key(x)
  }

  ghost predicate Ordered<T(!new)>(xs: seq<T>, key: T -> int) {
    xs == [] || (AtMost(key(xs[0]), xs[1..], key) && Ordered(xs[1..], key))
  }

  function Insert<T>(x: T, xs: seq<T>, key: T -> int): (ys: seq<T>) {
    if xs == [] || key(x) <= key(xs[0]) then [x] + xs else [xs[0]] + Insert(x, xs[1..], key)
  }

  function Sort<T>(xs: seq<T>, key: T -> int): (ys: seq<T>) {
    if xs == [] then [] else Insert(xs[0], Sort(xs[1..], key), key)
  }

  lemma SplitFirst<T>(xs: seq<T>)
    requires xs != []
    ensures xs == [xs[0]] + xs[1..]
    ensures multiset(xs) == multiset{xs[0]} + multiset(xs[1..])
  {
    assert xs == [xs[0]] + xs[1..];
  }

  lemma {:induction false} InsertAdds<T>(x: T, xs: seq<T>, key: T -> int)
    ensures multiset(Insert(x, xs, key)) == multiset{x} + multiset(xs)
    decreases |xs|
  {
    if xs != [] && key(xs[0]) < key(x) {
      InsertAdds(x, xs[1..], key);
      SplitFirst(xs);
    }
  }

  lemma {:induction false} SortPermutes<T>(xs: seq<T>, key: T -> int)
    ensures multiset(Sort(xs, key)) == multiset(xs)
    decreases |xs|
  {
    if xs != [] {
      SortPermutes(xs[1..], key);
      InsertAdds(xs[0], Sort(xs[1..], key), key);
      SplitFirst(xs);
    }
  }

  lemma MemberOf<T>(x: T, xs: seq<T>)
    ensures x in xs <==> x in multiset(xs)
  {
  }

  lemma AtMostTransfers<T(!new)>(k: int, xs: seq<T>, ys: seq<T>, key: T -> int)
    requires AtMost(k, xs, key) && multiset(ys) <= multiset(xs)
    ensures AtMost(k, ys, key)
  {
    forall y | y in ys ensures k <= key(y) {
      MemberOf(y, ys);
      MemberOf(y, xs);
    }
  }

  lemma {:induction false} InsertKeepsOrder<T(!new)>(x: T, xs: seq<T>, key: T -> int)
    requires Ordered(xs, key)
    ensures Ordered(Insert(x, xs, key), key)
    decreases |xs|
  {
    if xs == [] || key(x) <= key(xs[0]) {
      assert ([x] + xs)[1..] == xs;
    } else {
      var rest := xs[1..];
      InsertKeepsOrder(x, rest, key);
      InsertAdds(x, rest, key);
      var k, grown := key(xs[0]), [x] + rest;
      assert AtMost(k, grown, key);
      AtMostTransfers(k, grown, Insert(x, rest, key), key);
    }
  }

  lemma {:induction false} SortOrders<T(!new)>(xs: seq<T>, key: T -> int)
    ensures Ordered(Sort(xs, key), key)
    decreases |xs|
  {
    if xs != [] {
      SortOrders(xs[1..], key);
      InsertKeepsOrder(xs[0], Sort(xs[1..], key), key);
    }
  }

  lemma FirstIsLeast<T(!new)>(xs: seq<T>, y: T, key: T -> int)
    requires xs != [] && Ordered(xs, key) && y in multiset(xs)
    ensures key(xs[0]) <= key(y)
  {
    SplitFirst(xs);
    MemberOf(y, xs[1..]);
  }

  lemma SubDistinct<T(!new)>(xs: seq<T>, ys: seq<T>, key: T -> int)
    requires DistinctKeys(xs, key) && multiset(ys) <= multiset(xs)
    ensures DistinctKeys(ys, key)
  {
    forall y | y in ys ensures y in xs {
      MemberOf(y, ys);
      MemberOf(y, xs);
    }
  }

  /** Sorted permutations with distinct keys are unique, whatever algorithm made them. */
  lemma {:induction false} OrderedIsUnique<T(!new)>(xs: seq<T>, ys: seq<T>, key: T -> int)
    requires Ordered(xs, key) && Ordered(ys, key) && DistinctKeys(xs, key) && multiset(xs) == multiset(ys)
    ensures xs == ys
    decreases |xs|
  {
    assert |multiset(xs)| == |xs| && |multiset(ys)| == |ys|;
    if xs != [] {
      SplitFirst(xs);
      SplitFirst(ys);
      FirstIsLeast(xs, ys[0], key);
      FirstIsLeast(ys, xs[0], key);
      MemberOf(ys[0], xs);
      assert xs[0] == ys[0];
      SubDistinct(xs, xs[1..], key);
      OrderedIsUnique(xs[1..], ys[1..], key);
    }
  }

  /** Two collections sort alike exactly when they hold the same items. */
  lemma SortIsCanonical<T(!new)>(xs: seq<T>, ys: seq<T>, key: T -> int)
    ensures Sort(xs, key) == Sort(ys, key) ==> multiset(xs) == multiset(ys)
    ensures DistinctKeys(xs, key) && multiset(xs) == multiset(ys) ==> Sort(xs, key) == Sort(ys, key)
  {
    SortPermutes(xs, key);
    SortPermutes(ys, key);
    if DistinctKeys(xs, key) && multiset(xs) == multiset(ys) {
      SortOrders(xs, key);
      SortOrders(ys, key);
      SubDistinct(xs, Sort(xs, key), key);
      OrderedIsUnique(Sort(xs, key), Sort(ys, key), key);
    }
  }
}
