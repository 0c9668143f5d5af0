/** Sorting by a string key, the specification of `slices.SortFunc` and `sort.Slice` as the source calls them. */
module Sorting {
  import opened Text

  ghost predicate Sorted<T>(xs: seq<T>, key: T -> string) {
    forall i, j :: 0 <= i < j < |xs| ==> AtMost(key(xs[i]), key(xs[j]))
  }

  function Insert<T>(x: T, xs: seq<T>, key: T -> string): (r: seq<T>)
    ensures |r| == |xs| + 1
    ensures multiset(r) == multiset(xs) + multiset{x}
    ensures Sorted(xs, key) ==> Sorted(r, key)
  {
    if xs == [] then [x]
    else if AtMost(key(x), key(xs[0])) then
      assert Sorted(xs, key) ==> Sorted([x] + xs, key) by { InsertFirst(x, xs, key); }
      [x] + xs
    else
      var rest := Insert(x, xs[1..], key);
      assert xs == [xs[0]] + xs[1..];
      assert Sorted(xs, key) ==> Sorted([xs[0]] + rest, key) by { InsertLater(x, xs, rest, key); }
      [xs[0]] + rest
  }

  lemma InsertFirst<T>(x: T, xs: seq<T>, key: T -> string)
    requires xs != [] && AtMost(key(x), key(xs[0]))
    ensures Sorted(xs, key) ==> Sorted([x] + xs, key)
  {
    if Sorted(xs, key) {
      forall j | 0 <= j < |xs|
        ensures AtMost(key(x), key(xs[j]))
      {
        if j > 0 { AtMostTransitive(key(x), key(xs[0]), key(xs[j])); }
      }
    }
  }

  lemma InsertLater<T>(x: T, xs: seq<T>, rest: seq<T>, key: T -> string)
    requires xs != [] && !AtMost(key(x), key(xs[0]))
    requires multiset(rest) == multiset(xs[1..]) + multiset{x}
    requires Sorted(xs[1..], key) ==> Sorted(rest, key)
    ensures Sorted(xs, key) ==> Sorted([xs[0]] + rest, key)
  {
    if Sorted(xs, key) {
      forall j | 0 <= j < |rest|
        ensures AtMost(key(xs[0]), key(rest[j]))
      {
        assert rest[j] in multiset(rest);
        if rest[j] == x {
          AtMostTotal(key(x), key(xs[0]));
        } else {
          assert rest[j] in multiset(xs[1..]);
          var i :| 0 <= i < |xs[1..]| && xs[1..][i] == rest[j];
          assert xs[i + 1] == rest[j];
        }
      }
    }
  }

  function Sort<T>(xs: seq<T>, key: T -> string): (r: seq<T>)
    ensures |r| == |xs|
    ensures multiset(r) == multiset(xs)
    ensures Sorted(r, key)
  {
    if xs == [] then []
    else
      assert xs == [xs[0]] + xs[1..];
      Insert(xs[0], Sort(xs[1..], key), key)
  }

  ghost predicate Injective<T(!new)>(key: T -> string) {
    forall x, y :: key(x) == key(y) ==> x == y
  }

  lemma SortMembers<T>(xs: seq<T>, key: T -> string)
    ensures forall x :: x in Sort(xs, key) <==> x in xs
  {
    forall x ensures x in Sort(xs, key) <==> x in xs {
      assert x in multiset(Sort(xs, key)) <==> x in multiset(xs);
    }
  }

  lemma SortedHeadsAgree<T>(xs: seq<T>, ys: seq<T>, key: T -> string)
    requires Sorted(xs, key) && Sorted(ys, key) && xs != [] && ys != []
    requires multiset(xs) == multiset(ys)
    ensures key(xs[0]) == key(ys[0])
  {
    assert xs[0] in multiset(ys) && ys[0] in multiset(xs);
    var i :| 0 <= i < |ys| && ys[i] == xs[0];
    var j :| 0 <= j < |xs| && xs[j] == ys[0];
    AtMostAntisymmetric(key(xs[0]), key(ys[0]));
  }

  lemma MultisetTail<T>(xs: seq<T>)
    requires xs != []
    ensures multiset(xs[1..]) == multiset(xs) - multiset{xs[0]}
  {
    assert xs == [xs[0]] + xs[1..];
  }

  /** Two sorted arrangements of the same elements are the same sequence when the key tells elements apart. */
  lemma {:induction false} SortedIsUnique<T(!new)>(xs: seq<T>, ys: seq<T>, key: T -> string)
    requires Sorted(xs, key) && Sorted(ys, key)
    requires Injective(key)
    requires multiset(xs) == multiset(ys)
    ensures xs == ys
  {
    assert |xs| == |multiset(xs)| == |multiset(ys)| == |ys|;
    if xs != [] {
      SortedHeadsAgree(xs, ys, key);
      MultisetTail(xs);
      MultisetTail(ys);
      SortedIsUnique(xs[1..], ys[1..], key);
      assert xs == [xs[0]] + xs[1..] && ys == [ys[0]] + ys[1..];
    }
  }

  /** Sorting by an injective key is a canonical form of multisets: it forgets the order and nothing else. */
  lemma SortIsCanonical<T(!new)>(xs: seq<T>, ys: seq<T>, key: T -> string)
    requires Injective(key)
    ensures Sort(xs, key) == Sort(ys, key) <==> multiset(xs) == multiset(ys)
  {
    if multiset(xs) == multiset(ys) {
      SortedIsUnique(Sort(xs, key), Sort(ys, key), key);
    }
  }

  ghost predicate DistinctKeys<T>(xs: seq<T>, key: T -> string) {
    forall i, j :: 0 <= i < j < |xs| ==> key(xs[i]) != key(xs[j])
  }

  lemma {:induction false} InsertDistinct<T>(x: T, xs: seq<T>, key: T -> string)
    requires DistinctKeys(xs, key) && forall y <- xs :: key(y) != key(x)
    ensures DistinctKeys(Insert(x, xs, key), key)
  {
    if xs != [] && !AtMost(key(x), key(xs[0])) {
      InsertDistinct(x, xs[1..], key);
      var rest := Insert(x, xs[1..], key);
      forall j | 0 <= j < |rest| ensures key(rest[j]) != key(xs[0]) {
        assert rest[j] in multiset(rest);
        assert rest[j] == x || rest[j] in multiset(xs[1..]);
      }
    }
  }

  /** Distinct keys stay distinct, so the sorted order is strict. */
  lemma {:induction false} SortDistinct<T>(xs: seq<T>, key: T -> string)
    requires DistinctKeys(xs, key)
    ensures forall i, j :: 0 <= i < j < |xs| ==> Less(key(Sort(xs, key)[i]), key(Sort(xs, key)[j]))
  {
    SortKeepsDistinct(xs, key);
  }

  lemma {:induction false} SortKeepsDistinct<T>(xs: seq<T>, key: T -> string)
    requires DistinctKeys(xs, key)
    ensures DistinctKeys(Sort(xs, key), key)
  {
    if xs != [] {
      SortKeepsDistinct(xs[1..], key);
      SortMembers(xs[1..], key);
      forall y <- Sort(xs[1..], key) ensures key(y) != key(xs[0]) {
        assert y in multiset(Sort(xs[1..], key)) && y in multiset(xs[1..]);
        var j :| 0 <= j < |xs[1..]| && xs[1..][j] == y;
        assert xs[j + 1] == y;
      }
      InsertDistinct(xs[0], Sort(xs[1..], key), key);
    }
  }

  /** Sorting what is sorted changes nothing. */
  lemma {:induction false} SortOfSorted<T>(xs: seq<T>, key: T -> string)
    requires Sorted(xs, key)
    ensures Sort(xs, key) == xs
  {
    if xs != [] {
      SortOfSorted(xs[1..], key);
      assert xs == [xs[0]] + xs[1..];
    }
  }
}
