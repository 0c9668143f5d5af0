/** Small facts about sequences, kept apart so that proofs can ask for one at a time. */
module Sequences {

  lemma TakeNext<T>(xs: seq<T>, k: nat)
    requires k < |xs|
    ensures xs[..k + 1] == xs[..k] + [xs[k]]
  {
  }

  lemma TakeAll<T>(xs: seq<T>)
    ensures xs[..|xs|] == xs
  {
  }

  lemma LastOf<T>(xs: seq<T>)
    requires xs != []
    ensures xs == xs[..|xs| - 1] + [xs[|xs| - 1]]
  {
  }

  lemma FirstOf<T>(xs: seq<T>)
    requires xs != []
    ensures xs == [xs[0]] + xs[1..]
  {
  }

  lemma FirstIn<T>(xs: seq<T>)
    ensures xs != [] ==> exists x :: x in xs
  {
    if xs != [] { assert xs[0] in xs; }
  }

  /** Adding at the end and taking the end off again. */
  lemma Snoc<T>(xs: seq<T>, x: T)
    ensures (xs + [x])[..|xs + [x]| - 1] == xs && (xs + [x])[|xs + [x]| - 1] == x
  {
  }

  lemma Associate<T>(a: seq<T>, b: seq<T>, c: seq<T>)
    ensures a + (b + c) == (a + b) + c
  {
  }

  lemma CutBack<T>(s: seq<T>, i: nat)
    requires i < |s|
    ensures s[..i] + [s[i]] + s[i + 1..] == s
  {
  }

  lemma InLonger<T>(before: seq<T>, after: seq<T>, x: T)
    requires before <= after && x in before
    ensures x in after
  {
    var i :| 0 <= i < |before| && before[i] == x;
    assert after[i] == x;
  }

  lemma InMore<T>(xs: seq<T>, x: T, y: T)
    ensures y in xs + [x] <==> y in xs || y == x
  {
    assert (xs + [x])[|xs|] == x;
    if y in xs { InLonger(xs, xs + [x], y); }
  }

  lemma Element<T>(s: set<T>) returns (x: T)
    requires s != {}
    ensures x in s
  {
    x :| x in s;
  }

  /** The results for all elements, one after the other. */
  function FlatMap<A, B>(f: A -> seq<B>, xs: seq<A>): seq<B> {
    if xs == [] then [] else FlatMap(f, xs[..|xs| - 1]) + f(xs[|xs| - 1])
  }

  lemma {:induction false} FlatMapConcat<A, B>(f: A -> seq<B>, xs: seq<A>, ys: seq<A>)
    ensures FlatMap(f, xs + ys) == FlatMap(f, xs) + FlatMap(f, ys)
    decreases |ys|
  {
    if ys == [] {
      assert xs + ys == xs;
    } else {
      var fewer, last := ys[..|ys| - 1], ys[|ys| - 1];
      FlatMapConcat(f, xs, fewer);
      assert (xs + ys)[..|xs + ys| - 1] == xs + fewer;
      Associate(FlatMap(f, xs), FlatMap(f, fewer), f(last));
    }
  }

  lemma FlatMapWithout<A, B>(f: A -> seq<B>, xs: seq<A>, k: nat)
    requires k < |xs|
    ensures multiset(FlatMap(f, xs)) == multiset(FlatMap(f, xs[..k] + xs[k + 1..])) + multiset(f(xs[k]))
  {
    CutBack(xs, k);
    FlatMapConcat(f, xs[..k] + [xs[k]], xs[k + 1..]);
    FlatMapConcat(f, xs[..k], [xs[k]]);
    FlatMapConcat(f, xs[..k], xs[k + 1..]);
    assert [xs[k]][..0] == [];
  }

  lemma MultisetWithout<A>(xs: seq<A>, k: nat)
    requires k < |xs|
    ensures multiset(xs[..k] + xs[k + 1..]) == multiset(xs) - multiset{xs[k]}
  {
    CutBack(xs, k);
  }

  /** The results do not depend on the order of the elements, but for their own order. */
  lemma {:induction false} FlatMapPermute<A, B>(f: A -> seq<B>, xs: seq<A>, ys: seq<A>)
    requires multiset(xs) == multiset(ys)
    ensures multiset(FlatMap(f, xs)) == multiset(FlatMap(f, ys))
    decreases |xs|
  {
    assert |xs| == |multiset(xs)| == |multiset(ys)| == |ys|;
    if xs != [] {
      var last := xs[|xs| - 1];
      assert last in multiset(ys);
      var k :| 0 <= k < |ys| && ys[k] == last;
      MultisetWithout(ys, k);
      MultisetWithout(xs, |xs| - 1);
      assert xs[..|xs| - 1] + xs[|xs|..] == xs[..|xs| - 1];
      FlatMapPermute(f, xs[..|xs| - 1], ys[..k] + ys[k + 1..]);
      FlatMapWithout(f, ys, k);
    }
  }

  /** No two places hold a bad pair. */
  ghost predicate PairwiseFree<T>(bad: (T, T) -> bool, xs: seq<T>) {
    forall i, j :: 0 <= i < j < |xs| ==> !bad(xs[i], xs[j])
  }

  lemma {:induction false} TwoPlaces<T>(xs: seq<T>, x: T) returns (i: nat, j: nat)
    requires multiset(xs)[x] >= 2
    ensures i < j < |xs| && xs[i] == x && xs[j] == x
  {
    LastOf(xs);
    var fewer, last := xs[..|xs| - 1], xs[|xs| - 1];
    if last == x {
      assert multiset(fewer)[x] >= 1;
      assert x in fewer;
      j := |xs| - 1;
      i :| 0 <= i < |fewer| && fewer[i] == x;
    } else {
      i, j := TwoPlaces(fewer, x);
    }
  }

  lemma CountTwice<T>(xs: seq<T>, i: nat, j: nat)
    requires i < j < |xs| && xs[i] == xs[j]
    ensures multiset(xs)[xs[i]] >= 2
  {
    assert xs == xs[..i] + [xs[i]] + xs[i + 1..j] + [xs[j]] + xs[j + 1..];
  }

  /** Being free of bad pairs does not depend on the order when badness does not. */
  lemma PairwisePermute<T>(bad: (T, T) -> bool, xs: seq<T>, ys: seq<T>)
    requires multiset(xs) == multiset(ys) && PairwiseFree(bad, xs)
    requires forall x <- xs, y <- xs :: bad(x, y) == bad(y, x)
    ensures PairwiseFree(bad, ys)
  {
    forall i, j | 0 <= i < j < |ys| ensures !bad(ys[i], ys[j]) {
      PairPermute(bad, xs, ys, i, j);
    }
  }

  lemma PairPermute<T>(bad: (T, T) -> bool, xs: seq<T>, ys: seq<T>, i: nat, j: nat)
    requires multiset(xs) == multiset(ys) && PairwiseFree(bad, xs) && i < j < |ys|
    requires forall x <- xs, y <- xs :: bad(x, y) == bad(y, x)
    ensures !bad(ys[i], ys[j])
  {
    assert ys[i] in multiset(ys) && ys[j] in multiset(ys);
    assert ys[i] in xs && ys[j] in xs;
    if ys[i] == ys[j] {
      CountTwice(ys, i, j);
      var a, b := TwoPlaces(xs, ys[i]);
      assert !bad(xs[a], xs[b]);
    } else {
      var a :| 0 <= a < |xs| && xs[a] == ys[i];
      var b :| 0 <= b < |xs| && xs[b] == ys[j];
      if a < b { assert !bad(xs[a], xs[b]); } else { assert !bad(xs[b], xs[a]); }
    }
  }

  lemma PermuteMembers<T>(xs: seq<T>, ys: seq<T>)
    requires multiset(xs) == multiset(ys)
    ensures |xs| == |ys| && forall x :: x in xs <==> x in ys
  {
    assert |multiset(xs)| == |xs| && |multiset(ys)| == |ys|;
    forall x ensures x in xs <==> x in ys { assert x in multiset(xs) <==> x in multiset(ys); }
  }

  /** The elements of two sequences are related one by one. */
  ghost predicate Matches<A, B>(related: (A, B) -> bool, xs: seq<A>, ys: seq<B>) {
    |xs| == |ys| && forall i :: 0 <= i < |xs| ==> related(xs[i], ys[i])
  }

  lemma MatchesOneMore<A, B>(related: (A, B) -> bool, xs: seq<A>, ys: seq<B>, k: nat, y: B)
    requires k < |xs| && Matches(related, xs[..k], ys) && related(xs[k], y)
    ensures Matches(related, xs[..k + 1], ys + [y])
  {
  }

  /** A set inside another one of at most its size is all of it. */
  lemma SubsetOfSameSize<T>(a: set<T>, b: set<T>)
    requires a <= b && |b| <= |a|
    ensures a == b
  {
    assert |b - a| == |b| - |a|;
  }

  lemma SubsetSize<T>(a: set<T>, b: set<T>)
    requires a <= b
    ensures |a| <= |b|
  {
    assert |b - a| == |b| - |a|;
  }
}
