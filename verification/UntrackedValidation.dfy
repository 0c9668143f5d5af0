/** Validation of untracked entries: sorting, binary search and a comparison of neighbours decide a condition
    on all pairs of paths. */
module UntrackedValidation {
  import opened FileSystem
  import opened Paths
  import opened Administrative
  import Sequences
  import opened Text
  import opened Sorting

  const MAXIMUM_UNTRACKED := 4096
  const MAXIMUM_TEXT := 4096

  datatype UntrackedEntry = UntrackedEntry(path: string, kind: string, mode: FileMode, data: Option<Bytes>,
                                           linkTarget: string) {
    function Size(): nat {
      if data.Some? then |data.value| else 0
    }
  }

  // ---------------------------------------------------------------- one entry

  /** Following link components from a directory at this depth leaves the tree. */
  predicate Escapes(depth: nat, components: seq<string>)
    decreases |components|
  {
    components != [] &&
    if components[0] == "." then Escapes(depth, components[1..])
    else if components[0] == ".." then depth == 0 || Escapes(depth - 1, components[1..])
    else Escapes(depth + 1, components[1..])
  }

  predicate ValidUntrackedLink(letters: Letters, path: string, target: string) {
    && target != "" && target[0] != '/'
    && (forall part <- Split(target, '/') ::
          part == "." || part == ".." || (ValidAdministrativePath(letters, part) && !EqualFold(letters, part, ".git")))
    && !Escapes(|Split(path, '/')| - 1, Split(target, '/'))
  }

  predicate ValidUntrackedEntry(letters: Letters, e: UntrackedEntry) {
    && Utf8Length(e.path) <= MAXIMUM_TEXT && Utf8Length(e.linkTarget) <= MAXIMUM_TEXT
    && e.path != "." && ValidAdministrativePath(letters, e.path)
    && (forall part <- Split(e.path, '/') :: !EqualFold(letters, part, ".git"))
    && (|| (e.kind == "file" && e.linkTarget == "" && e.mode.kind == Regular)
        || (e.kind == "directory" && e.data == None && e.linkTarget == "" && e.mode.kind == Directory)
        || (e.kind == "symlink" && e.data == None && ValidUntrackedLink(letters, e.path, e.linkTarget)
            && e.mode.kind == Symlink))
  }

  // ---------------------------------------------------------------- pairs of paths

  /** A path's directory or the path itself ends at length n. */
  predicate Boundary(path: string, n: nat) {
    n == |path| || (n < |path| && path[n] == '/')
  }

  /** Up to a common boundary both paths fold to the same name, spelled differently. */
  ghost predicate MisspelledAt(letters: Letters, a: string, b: string, n: nat) {
    && n <= |a| && n <= |b| && Boundary(a, n) && Boundary(b, n)
    && Fold(letters, a[..n]) == Fold(letters, b[..n]) && a[..n] != b[..n]
  }

  ghost predicate Misspelled(letters: Letters, a: string, b: string) {
    exists n: nat :: MisspelledAt(letters, a, b, n)
  }

  /** The folded ancestor of another entry is a directory, spelled as in the descendant. */
  ghost predicate AncestorFine(letters: Letters, e: UntrackedEntry, d: UntrackedEntry) {
    Fold(letters, e.path) + "/" <= Fold(letters, d.path) ==> e.kind == "directory" && e.path + "/" <= d.path
  }

  ghost predicate PairFine(letters: Letters, e: UntrackedEntry, d: UntrackedEntry) {
    AncestorFine(letters, e, d) && !Misspelled(letters, e.path, d.path)
  }

  ghost predicate DistinctIdentities(letters: Letters, entries: seq<UntrackedEntry>) {
    forall i, j :: 0 <= i < j < |entries| ==> Fold(letters, entries[i].path) != Fold(letters, entries[j].path)
  }

  ghost predicate AncestorsFine(letters: Letters, entries: seq<UntrackedEntry>) {
    forall e, d :: e in entries && d in entries ==> AncestorFine(letters, e, d)
  }

  ghost predicate SpellingsFine(letters: Letters, entries: seq<UntrackedEntry>) {
    forall e, d :: e in entries && d in entries ==> !Misspelled(letters, e.path, d.path)
  }

  /** What the validation is for, stated for every pair of entries. */
  ghost predicate AllPairsFine(letters: Letters, entries: seq<UntrackedEntry>) {
    DistinctIdentities(letters, entries) && AncestorsFine(letters, entries) && SpellingsFine(letters, entries)
  }

  /** A folded character is a slash exactly when the character is. */
  lemma FoldKeepsSlashes(letters: Letters, s: string, i: nat)
    requires letters.Lawful() && i < |s|
    ensures Fold(letters, s)[i] == '/' <==> s[i] == '/'
  {
  }

  lemma FoldPrefix(letters: Letters, s: string, n: nat)
    requires n <= |s|
    ensures Fold(letters, s[..n]) == Fold(letters, s)[..n]
  {
  }

  /** Paths that agree up to n, where a component starts, share no boundary beyond n unless their next components
      have the same length and fold to the same name. */
  lemma NextComponents(letters: Letters, a: string, b: string, n: nat, i: nat, j: nat, m: nat)
    requires letters.Lawful()
    requires n <= |a| && n <= |b| && i == Find(a[n..], '/') && j == Find(b[n..], '/')
    requires n <= m <= |a| && m <= |b| && Boundary(a, m) && Boundary(b, m)
             && Fold(letters, a[..m]) == Fold(letters, b[..m])
    ensures i == j && n + i <= m && Fold(letters, a[n..][..i]) == Fold(letters, b[n..][..j])
  {
    forall k | n <= k < n + i && k < |a| ensures a[k] != '/' {
      assert a[k] == a[n..][..i][k - n];
    }
    forall k | n <= k < n + j && k < |b| ensures b[k] != '/' {
      assert b[k] == b[n..][..j][k - n];
    }
    assert i < |a[n..]| ==> a[n + i] == '/';
    assert j < |b[n..]| ==> b[n + j] == '/';
    forall k | 0 <= k < m ensures a[k] == '/' <==> b[k] == '/' {
      assert Fold(letters, a[..m])[k] == letters.fold(a[k]) && Fold(letters, b[..m])[k] == letters.fold(b[k]);
    }
    assert n + i <= m && n + j <= m;
    assert i == j;
    forall k | 0 <= k < i ensures letters.fold(a[n..][..i][k]) == letters.fold(b[n..][..j][k]) {
      assert Fold(letters, a[..m])[n + k] == Fold(letters, b[..m])[n + k];
    }
  }

  /** Both paths have been read up to the same length, alike so far. */
  ghost predicate ReadAlike(a: string, b: string, n: nat, left: string, right: string) {
    n <= |a| && n <= |b| && left == a[n..] && right == b[n..] && a[..n] == b[..n]
  }

  lemma BoundaryFound(path: string, n: nat)
    requires n <= |path|
    ensures Boundary(path, n + Find(path[n..], '/'))
  {
  }

  lemma ReadOn(a: string, b: string, n: nat, left: string, right: string, i: nat)
    requires ReadAlike(a, b, n, left, right) && i <= |left| && i <= |right| && left[..i] == right[..i]
    ensures a[..n + i] == b[..n + i]
    ensures i < |left| && i < |right| && left[i] == right[i] ==>
              ReadAlike(a, b, n + i + 1, left[i + 1..], right[i + 1..])
  {
    assert a[..n + i] == a[..n] + left[..i] && b[..n + i] == b[..n] + right[..i];
    if i < |left| && i < |right| && left[i] == right[i] {
      assert a[..n + i + 1] == a[..n + i] + [left[i]] && b[..n + i + 1] == b[..n + i] + [right[i]];
    }
  }

  /** `untrackedPathSpellingConflict`: component by component until the first difference. */
  method SpellingConflict(letters: Letters, a: string, b: string) returns (conflict: bool)
    requires letters.Lawful()
    ensures conflict <==> Misspelled(letters, a, b)
  {
    var left, right := a, b;
    ghost var n: nat := 0;
    while true
      invariant ReadAlike(a, b, n, left, right)
      decreases |left|
    {
      var i, j := Find(left, '/'), Find(right, '/');
      BoundaryFound(a, n);
      BoundaryFound(b, n);
      if !EqualFold(letters, left[..i], right[..j]) {
        NoLaterMisspelling(letters, a, b, n, i, j);
        return false;
      }
      assert |Fold(letters, left[..i])| == i && |Fold(letters, right[..j])| == j;
      if left[..i] != right[..j] {
        SpelledApart(letters, a, b, n, i);
        return true;
      }
      ReadOn(a, b, n, left, right, i);
      if i == |left| || j == |right| {
        EndReached(letters, a, b, n, i);
        return false;
      }
      left, right := left[i + 1..], right[j + 1..];
      n := n + i + 1;
    }
  }

  lemma NoLaterMisspelling(letters: Letters, a: string, b: string, n: nat, i: nat, j: nat)
    requires letters.Lawful()
    requires n <= |a| && n <= |b| && i == Find(a[n..], '/') && j == Find(b[n..], '/') && a[..n] == b[..n]
    requires !EqualFold(letters, a[n..][..i], b[n..][..j])
    ensures !Misspelled(letters, a, b)
  {
    forall m: nat ensures !MisspelledAt(letters, a, b, m) {
      if m <= |a| && m <= |b| && Boundary(a, m) && Boundary(b, m) && Fold(letters, a[..m]) == Fold(letters, b[..m]) {
        if n <= m {
          NextComponents(letters, a, b, n, i, j, m);
        }
        assert m <= n && a[..m] == a[..n][..m] && b[..m] == b[..n][..m];
      }
    }
  }

  lemma SpelledApart(letters: Letters, a: string, b: string, n: nat, i: nat)
    requires n + i <= |a| && n + i <= |b| && a[..n] == b[..n]
    requires Boundary(a, n + i) && Boundary(b, n + i)
    requires EqualFold(letters, a[n..][..i], b[n..][..i]) && a[n..][..i] != b[n..][..i]
    ensures Misspelled(letters, a, b)
  {
    assert a[..n + i] == a[..n] + a[n..][..i] && b[..n + i] == b[..n] + b[n..][..i];
    MapConcat(letters.fold, a[..n], a[n..][..i]);
    MapConcat(letters.fold, b[..n], b[n..][..i]);
    assert a[..n + i][n..] == a[n..][..i] && b[..n + i][n..] == b[n..][..i];
    assert MisspelledAt(letters, a, b, n + i);
  }

  lemma EndReached(letters: Letters, a: string, b: string, n: nat, i: nat)
    requires letters.Lawful() && n + i <= |a| && n + i <= |b| && a[..n + i] == b[..n + i]
    requires n + i == |a| || n + i == |b|
    ensures !Misspelled(letters, a, b)
  {
    forall m: nat ensures !MisspelledAt(letters, a, b, m) {
      if m <= |a| && m <= |b| {
        assert a[..m] == a[..n + i][..m] && b[..m] == b[..n + i][..m];
      }
    }
  }

  // ---------------------------------------------------------------- sorted paths

  datatype Item = Item(original: string, identity: string)

  ghost predicate Ordered(letters: Letters, items: seq<Item>) {
    && (forall i :: 0 <= i < |items| ==> items[i].identity == Fold(letters, items[i].original))
    && (forall i, j :: 0 <= i < j < |items| ==> Less(items[i].identity, items[j].identity))
  }

  ghost predicate NeighboursAgree(letters: Letters, items: seq<Item>) {
    forall i :: 0 < i < |items| ==> !Misspelled(letters, items[i - 1].original, items[i].original)
  }

  lemma SortedBetween(letters: Letters, items: seq<Item>, i: nat, k: nat, j: nat, prefix: string)
    requires Ordered(letters, items) && i <= k <= j < |items|
    requires prefix <= items[i].identity && prefix <= items[j].identity
    ensures prefix <= items[k].identity
  {
    PrefixesAreContiguous(prefix, items[i].identity, items[k].identity, items[j].identity);
  }

  /** Two paths below the same folded directory, not misspelled, spell that directory alike. */
  lemma SameDirectorySpelling(letters: Letters, a: string, b: string, prefix: string)
    requires letters.Lawful() && prefix != "" && prefix[|prefix| - 1] == '/'
    requires prefix <= Fold(letters, a) && prefix <= Fold(letters, b)
    requires !Misspelled(letters, a, b)
    ensures a[..|prefix|] == b[..|prefix|]
  {
    var n := |prefix| - 1;
    FoldKeepsSlashes(letters, a, n);
    FoldKeepsSlashes(letters, b, n);
    FoldPrefix(letters, a, n);
    FoldPrefix(letters, b, n);
    assert Fold(letters, a)[..n] == prefix[..n] == Fold(letters, b)[..n];
    assert !MisspelledAt(letters, a, b, n);
    assert a[..|prefix|] == a[..n] + "/" && b[..|prefix|] == b[..n] + "/";
  }

  /** In a run of neighbours below the same folded directory, all spell that directory alike. */
  lemma {:induction false} BlockSpelling(letters: Letters, items: seq<Item>, i: nat, j: nat, prefix: string)
    requires letters.Lawful() && Ordered(letters, items) && NeighboursAgree(letters, items) && i <= j < |items|
    requires prefix != "" && prefix[|prefix| - 1] == '/'
    requires prefix <= items[i].identity && prefix <= items[j].identity
    ensures |prefix| <= |items[i].original| && |prefix| <= |items[j].original|
    ensures items[i].original[..|prefix|] == items[j].original[..|prefix|]
    decreases j - i
  {
    if i < j {
      SortedBetween(letters, items, i, i + 1, j, prefix);
      BlockSpelling(letters, items, i + 1, j, prefix);
      assert !Misspelled(letters, items[i + 1 - 1].original, items[i + 1].original);
      SameDirectorySpelling(letters, items[i].original, items[i + 1].original, prefix);
    }
  }

  /** The position that the binary search finds. */
  ghost predicate FirstAtLeast(items: seq<Item>, target: string, index: nat) {
    && index <= |items|
    && (forall i :: 0 <= i < index ==> Less(items[i].identity, target))
    && (forall i :: index <= i < |items| ==> AtMost(target, items[i].identity))
  }

  /** `slices.BinarySearchFunc` on the sorted identities. */
  method Search(letters: Letters, items: seq<Item>, target: string) returns (index: nat)
    requires Ordered(letters, items)
    ensures FirstAtLeast(items, target, index)
  {
    var low, high := 0, |items|;
    while low < high
      invariant 0 <= low <= high <= |items|
      invariant forall i :: 0 <= i < low ==> Less(items[i].identity, target)
      invariant forall i :: high <= i < |items| ==> AtMost(target, items[i].identity)
    {
      var middle := (low + high) / 2;
      if Less(items[middle].identity, target) {
        forall i | low <= i < middle ensures Less(items[i].identity, target) {
          LessTransitive(items[i].identity, items[middle].identity, target);
        }
        low := middle + 1;
      } else {
        LessTotal(items[middle].identity, target);
        forall i | middle < i < high ensures AtMost(target, items[i].identity) {
          AtMostTransitive(target, items[middle].identity, items[i].identity);
        }
        high := middle;
      }
    }
    index := low;
  }

  /** Only one position can be first. */
  lemma FirstIsUnique(items: seq<Item>, target: string, m: nat, n: nat)
    requires FirstAtLeast(items, target, m) && FirstAtLeast(items, target, n)
    ensures m == n
  {
    if m < n { LessAsymmetric(items[m].identity, target); }
    if n < m { LessAsymmetric(items[n].identity, target); }
  }

  ghost predicate FineAt(items: seq<Item>, i: nat, directory: bool, m: nat)
    requires i < |items|
  {
    && FirstAtLeast(items, items[i].identity + "/", m)
    && (m < |items| && items[i].identity + "/" <= items[m].identity ==>
          directory && items[i].original + "/" <= items[m].original)
  }

  /** What the ancestor loop checks of one path: only the first descendant, if there is one. */
  ghost predicate FirstDescendantFine(items: seq<Item>, i: nat, directory: bool)
    requires i < |items|
  {
    exists m: nat :: FineAt(items, i, directory, m)
  }

  /** The first descendant speaks for all: neighbours carry its spelling to every other descendant. */
  lemma DescendantsFine(letters: Letters, items: seq<Item>, i: nat, m: nat, j: nat, directory: bool)
    requires letters.Lawful() && Ordered(letters, items) && NeighboursAgree(letters, items)
    requires i < |items| && j < |items| && items[i].identity + "/" <= items[j].identity
    requires FirstAtLeast(items, items[i].identity + "/", m)
    requires m < |items| && items[i].identity + "/" <= items[m].identity ==>
               directory && items[i].original + "/" <= items[m].original
    ensures directory && items[i].original + "/" <= items[j].original
  {
    var prefix := items[i].identity + "/";
    PrefixAtMost(prefix, items[j].identity);
    if j < m { LessAsymmetric(items[j].identity, prefix); }
    assert m <= j;
    PrefixesAreContiguous(prefix, prefix, items[m].identity, items[j].identity);
    BlockSpelling(letters, items, m, j, prefix);
    assert |prefix| == |items[i].original + "/"|;
  }

  /** Neighbours and first descendants decide every pair of sorted paths. */
  lemma NeighboursDecide(letters: Letters, items: seq<Item>, i: nat, j: nat, n: nat)
    requires letters.Lawful() && Ordered(letters, items) && NeighboursAgree(letters, items) && i < j < |items|
    requires forall k :: 0 <= k < |items| && items[i].identity + "/" <= items[k].identity ==>
               items[i].original + "/" <= items[k].original
    ensures !MisspelledAt(letters, items[i].original, items[j].original, n)
  {
    var a, b := items[i].original, items[j].original;
    if n <= |a| && n <= |b| && Boundary(a, n) && Boundary(b, n) && Fold(letters, a[..n]) == Fold(letters, b[..n]) {
      FoldPrefix(letters, a, n);
      FoldPrefix(letters, b, n);
      if n == |b| {
        assert items[j].identity == Fold(letters, b[..n]) by { assert b[..n] == b; }
        assert items[j].identity <= items[i].identity;
        PrefixAtMost(items[j].identity, items[i].identity);
        LessAsymmetric(items[i].identity, items[j].identity);
      }
      assert n < |b| && b[n] == '/';
      FoldKeepsSlashes(letters, b, n);
      if n == |a| {
        assert a[..n] == a;
        assert items[i].identity + "/" == items[j].identity[..n + 1];
        assert a[..n] == b[..n];
      } else {
        FoldKeepsSlashes(letters, a, n);
        var prefix := Fold(letters, a)[..n + 1];
        assert prefix == Fold(letters, a[..n]) + "/" == Fold(letters, b)[..n + 1];
        BlockSpelling(letters, items, i, j, prefix);
        assert a[..n] == a[..n + 1][..n] && b[..n] == b[..n + 1][..n];
      }
    }
  }

  // ---------------------------------------------------------------- the whole list

  function TotalData(entries: seq<UntrackedEntry>): nat {
    if entries == [] then 0 else TotalData(entries[..|entries| - 1]) + entries[|entries| - 1].Size()
  }

  function DataOf(e: UntrackedEntry): Bytes { if e.data.Some? then e.data.value else [] }

  lemma {:induction false} TotalDataFlat(entries: seq<UntrackedEntry>)
    ensures TotalData(entries) == |Sequences.FlatMap(DataOf, entries)|
  {
    if entries != [] { TotalDataFlat(entries[..|entries| - 1]); }
  }

  lemma TotalDataPermutes(xs: seq<UntrackedEntry>, ys: seq<UntrackedEntry>)
    requires multiset(xs) == multiset(ys)
    ensures TotalData(xs) == TotalData(ys)
  {
    TotalDataFlat(xs);
    TotalDataFlat(ys);
    Sequences.FlatMapPermute(DataOf, xs, ys);
    assert |multiset(Sequences.FlatMap(DataOf, xs))| == |Sequences.FlatMap(DataOf, xs)|;
  }

  lemma {:induction false} TotalDataGrows(entries: seq<UntrackedEntry>, k: nat)
    requires k <= |entries|
    ensures TotalData(entries[..k]) <= TotalData(entries)
  {
    if k < |entries| {
      TotalDataGrows(entries[..|entries| - 1], k);
      assert entries[..|entries| - 1][..k] == entries[..k];
    } else {
      assert entries[..k] == entries;
    }
  }

  ghost predicate EachValid(letters: Letters, entries: seq<UntrackedEntry>) {
    forall i :: 0 <= i < |entries| ==> ValidUntrackedEntry(letters, entries[i])
  }

  /** The map from identities to positions among the entries. */
  ghost predicate Located(letters: Letters, entries: seq<UntrackedEntry>, byIdentity: map<string, nat>) {
    && (forall i ::
          0 <= i < |entries| ==>
              Fold(letters, entries[i].path) in byIdentity && byIdentity[Fold(letters, entries[i].path)] == i)
    && (forall f :: f in byIdentity ==> byIdentity[f] < |entries| && Fold(letters, entries[byIdentity[f]].path) == f)
  }

  function ItemOf(letters: Letters, e: UntrackedEntry): Item {
    Item(e.path, Fold(letters, e.path))
  }

  function Items(letters: Letters, entries: seq<UntrackedEntry>): (items: seq<Item>)
    ensures |items| == |entries| && forall i :: 0 <= i < |items| ==> items[i] == ItemOf(letters, entries[i])
  {
    seq(|entries|, i requires 0 <= i < |entries| => ItemOf(letters, entries[i]))
  }

  function Identity(x: Item): string { x.identity }

  /** What the first loop has established about the entries it has seen. */
  ghost predicate Indexed(letters: Letters, entries: seq<UntrackedEntry>, paths: seq<Item>,
                          byIdentity: map<string, nat>) {
    && EachValid(letters, entries)
    && DistinctIdentities(letters, entries)
    && Located(letters, entries, byIdentity)
    && paths == Items(letters, entries)
  }

  lemma IndexedOneMore(letters: Letters, entries: seq<UntrackedEntry>, entry: UntrackedEntry, paths: seq<Item>,
                       byIdentity: map<string, nat>)
    requires Indexed(letters, entries, paths, byIdentity) && ValidUntrackedEntry(letters, entry)
    requires Fold(letters, entry.path) !in byIdentity
    ensures Indexed(letters, entries + [entry], paths + [ItemOf(letters, entry)],
                    byIdentity[Fold(letters, entry.path) := |entries|])
  {
    var more := entries + [entry];
    var located := byIdentity[Fold(letters, entry.path) := |entries|];
    forall i | 0 <= i < |more|
      ensures Fold(letters, more[i].path) in located && located[Fold(letters, more[i].path)] == i
    {
      if i < |entries| { assert more[i] == entries[i]; }
    }
    forall f | f in located ensures located[f] < |more| && Fold(letters, more[located[f]].path) == f {
      if f != Fold(letters, entry.path) { assert more[located[f]] == entries[byIdentity[f]]; }
    }
  }

  lemma IdentityTaken(letters: Letters, entries: seq<UntrackedEntry>, k: nat, byIdentity: map<string, nat>)
    requires k < |entries| && Located(letters, entries[..k], byIdentity) && Fold(letters, entries[k].path) in byIdentity
    ensures !DistinctIdentities(letters, entries)
  {
    var i := byIdentity[Fold(letters, entries[k].path)];
    assert entries[..k][i] == entries[i];
  }

  lemma TakeOneMore(entries: seq<UntrackedEntry>, k: nat)
    requires k < |entries|
    ensures entries[..k + 1] == entries[..k] + [entries[k]]
    ensures TotalData(entries[..k + 1]) == TotalData(entries[..k]) + entries[k].Size() <= TotalData(entries)
  {
    var more := entries[..k + 1];
    assert more[..|more| - 1] == entries[..k] && more[|more| - 1] == entries[k];
    TotalDataGrows(entries, k + 1);
  }

  /** The first loop: every entry by itself, the bytes together, and no identity twice. */
  method IndexByIdentity(letters: Letters, entries: seq<UntrackedEntry>, maximumBytes: nat)
    returns (ok: bool, paths: seq<Item>, byIdentity: map<string, nat>)
    ensures ok <==>
              EachValid(letters, entries) && TotalData(entries) <= maximumBytes && DistinctIdentities(letters, entries)
    ensures ok ==> paths == Items(letters, entries) && Located(letters, entries, byIdentity)
  {
    paths, byIdentity := [], map[];
    var remaining: int := maximumBytes;
    for k := 0 to |entries|
      invariant remaining == maximumBytes - TotalData(entries[..k]) && 0 <= remaining
      invariant Indexed(letters, entries[..k], paths, byIdentity)
    {
      var entry := entries[k];
      if !ValidUntrackedEntry(letters, entry) { return false, paths, byIdentity; }
      TakeOneMore(entries, k);
      if entry.Size() > remaining { return false, paths, byIdentity; }
      remaining := remaining - entry.Size();
      var identity := Fold(letters, entry.path);
      if identity in byIdentity {
        IdentityTaken(letters, entries, k, byIdentity);
        return false, paths, byIdentity;
      }
      IndexedOneMore(letters, entries[..k], entry, paths, byIdentity);
      byIdentity := byIdentity[identity := k];
      paths := paths + [Item(entry.path, identity)];
    }
    assert entries[..|entries|] == entries;
    ok := true;
  }

  /** The sorted paths are those of the entries, and the map leads from each back to its entry. */
  ghost predicate Arranged(letters: Letters, entries: seq<UntrackedEntry>, byIdentity: map<string, nat>,
                           items: seq<Item>) {
    && Ordered(letters, items)
    && Located(letters, entries, byIdentity)
    && (forall i :: 0 <= i < |items| ==>
          items[i].identity in byIdentity && items[i] == ItemOf(letters, entries[byIdentity[items[i].identity]]))
    && (forall e :: e in entries ==> ItemOf(letters, e) in items)
  }

  lemma SortArranges(letters: Letters, entries: seq<UntrackedEntry>, byIdentity: map<string, nat>)
    requires DistinctIdentities(letters, entries) && Located(letters, entries, byIdentity)
    ensures Arranged(letters, entries, byIdentity, Sort(Items(letters, entries), Identity))
  {
    var items := Items(letters, entries);
    var sorted := Sort(items, Identity);
    SortMembers(items, Identity);
    SortDistinct(items, Identity);
    forall i | 0 <= i < |sorted|
      ensures sorted[i].identity in byIdentity && sorted[i] == ItemOf(letters, entries[byIdentity[sorted[i].identity]])
    {
      assert sorted[i] in items;
      var k :| 0 <= k < |items| && items[k] == sorted[i];
    }
    forall e | e in entries ensures ItemOf(letters, e) in sorted {
      var k :| 0 <= k < |entries| && entries[k] == e;
      assert items[k] in items;
    }
  }

  /** The entry that the item at a position came from is a directory. */
  predicate IsDirectory(entries: seq<UntrackedEntry>, byIdentity: map<string, nat>, item: Item) {
    item.identity in byIdentity && byIdentity[item.identity] < |entries|
    && entries[byIdentity[item.identity]].kind == "directory"
  }

  ghost predicate FirstDescendantsFine(entries: seq<UntrackedEntry>, byIdentity: map<string, nat>, items: seq<Item>) {
    forall i: nat {:trigger FineFrom(entries, byIdentity, items, i)} ::
      i < |items| ==> FineFrom(entries, byIdentity, items, i)
  }

  ghost predicate FineFrom(entries: seq<UntrackedEntry>, byIdentity: map<string, nat>, items: seq<Item>, i: nat) {
    i < |items| && FirstDescendantFine(items, i, IsDirectory(entries, byIdentity, items[i]))
  }

  lemma NotFine(items: seq<Item>, i: nat, directory: bool, first: nat)
    requires i < |items| && FirstAtLeast(items, items[i].identity + "/", first)
    requires !FineAt(items, i, directory, first)
    ensures !FirstDescendantFine(items, i, directory)
  {
    forall m: nat ensures !FineAt(items, i, directory, m) {
      if FirstAtLeast(items, items[i].identity + "/", m) { FirstIsUnique(items, items[i].identity + "/", m, first); }
    }
  }

  /** A binary search for the first descendant of one path, and a look at it. */
  method CheckFirstDescendant(letters: Letters, entries: seq<UntrackedEntry>, byIdentity: map<string, nat>,
                              items: seq<Item>, i: nat)
    returns (fine: bool)
    requires i < |items| && Arranged(letters, entries, byIdentity, items)
    ensures fine <==> FineFrom(entries, byIdentity, items, i)
  {
    var prefix := items[i].identity + "/";
    var first := Search(letters, items, prefix);
    ghost var directory := IsDirectory(entries, byIdentity, items[i]);
    fine := true;
    if first < |items| && prefix <= items[first].identity {
      var ancestor := entries[byIdentity[items[i].identity]];
      fine := ancestor.kind == "directory" && ancestor.path + "/" <= items[first].original;
    }
    assert fine <==> FineAt(items, i, directory, first);
    if !fine { NotFine(items, i, directory, first); }
  }

  /** The second loop: the first descendant of every path. */
  method CheckAncestors(letters: Letters, entries: seq<UntrackedEntry>, byIdentity: map<string, nat>, items: seq<Item>)
    returns (ok: bool)
    requires Arranged(letters, entries, byIdentity, items)
    ensures ok <==> FirstDescendantsFine(entries, byIdentity, items)
  {
    for i := 0 to |items|
      invariant forall k: nat {:trigger FineFrom(entries, byIdentity, items, k)} ::
                  k < i ==> FineFrom(entries, byIdentity, items, k)
    {
      var fine := CheckFirstDescendant(letters, entries, byIdentity, items, i);
      if !fine { return false; }
    }
    ok := true;
  }

  /** The third loop: every path against its neighbour. */
  method CheckNeighbours(letters: Letters, items: seq<Item>) returns (ok: bool)
    requires letters.Lawful()
    ensures ok <==> NeighboursAgree(letters, items)
  {
    var index := 1;
    while index < |items|
      invariant 1 <= index
      invariant forall i :: 0 < i < index && i < |items| ==>
                  !Misspelled(letters, items[i - 1].original, items[i].original)
    {
      var conflict := SpellingConflict(letters, items[index - 1].original, items[index].original);
      if conflict { return false; }
      index := index + 1;
    }
    ok := true;
  }

  lemma MisspelledSymmetric(letters: Letters, a: string, b: string)
    requires !Misspelled(letters, a, b)
    ensures !Misspelled(letters, b, a)
  {
    forall n: nat ensures !MisspelledAt(letters, b, a, n) {
      assert !MisspelledAt(letters, a, b, n);
    }
  }

  /** The two loops over the sorted paths reject whatever is wrong with any pair of entries. */
  lemma DescendantFine(letters: Letters, entries: seq<UntrackedEntry>, byIdentity: map<string, nat>, items: seq<Item>,
                       i: nat, j: nat)
    requires letters.Lawful() && Arranged(letters, entries, byIdentity, items)
    requires NeighboursAgree(letters, items) && FirstDescendantsFine(entries, byIdentity, items)
    requires i < |items| && j < |items| && items[i].identity + "/" <= items[j].identity
    ensures IsDirectory(entries, byIdentity, items[i]) && items[i].original + "/" <= items[j].original
  {
    var directory := IsDirectory(entries, byIdentity, items[i]);
    assert FineFrom(entries, byIdentity, items, i);
    var m: nat :| FineAt(items, i, directory, m);
    DescendantsFine(letters, items, i, m, j, directory);
  }

  lemma PathsSpelled(letters: Letters, entries: seq<UntrackedEntry>, byIdentity: map<string, nat>, items: seq<Item>,
                     i: nat, j: nat)
    requires letters.Lawful() && Arranged(letters, entries, byIdentity, items)
    requires NeighboursAgree(letters, items) && FirstDescendantsFine(entries, byIdentity, items)
    requires i < j < |items|
    ensures !Misspelled(letters, items[i].original, items[j].original)
  {
    forall k | 0 <= k < |items| && items[i].identity + "/" <= items[k].identity
      ensures items[i].original + "/" <= items[k].original
    {
      DescendantFine(letters, entries, byIdentity, items, i, k);
    }
    forall n: nat ensures !MisspelledAt(letters, items[i].original, items[j].original, n) {
      NeighboursDecide(letters, items, i, j, n);
    }
  }

  lemma PositionOf(letters: Letters, entries: seq<UntrackedEntry>, byIdentity: map<string, nat>, items: seq<Item>,
                   e: UntrackedEntry)
    returns (i: nat)
    requires Arranged(letters, entries, byIdentity, items) && e in entries
    ensures i < |items| && items[i] == ItemOf(letters, e)
    ensures IsDirectory(entries, byIdentity, items[i]) ==> e.kind == "directory"
  {
    i :| 0 <= i < |items| && items[i] == ItemOf(letters, e);
    var k :| 0 <= k < |entries| && entries[k] == e;
    assert byIdentity[Fold(letters, entries[k].path)] == k;
  }

  lemma EntriesFine(letters: Letters, entries: seq<UntrackedEntry>, byIdentity: map<string, nat>, items: seq<Item>,
                    e: UntrackedEntry, d: UntrackedEntry)
    requires letters.Lawful() && Arranged(letters, entries, byIdentity, items)
    requires NeighboursAgree(letters, items) && FirstDescendantsFine(entries, byIdentity, items)
    requires e in entries && d in entries
    ensures PairFine(letters, e, d)
  {
    var i := PositionOf(letters, entries, byIdentity, items, e);
    var j := PositionOf(letters, entries, byIdentity, items, d);
    if Fold(letters, e.path) + "/" <= Fold(letters, d.path) {
      DescendantFine(letters, entries, byIdentity, items, i, j);
    }
    if i < j {
      PathsSpelled(letters, entries, byIdentity, items, i, j);
    } else if j < i {
      PathsSpelled(letters, entries, byIdentity, items, j, i);
      MisspelledSymmetric(letters, d.path, e.path);
    }
  }

  lemma PairsSuffice(letters: Letters, entries: seq<UntrackedEntry>)
    requires forall e, d :: e in entries && d in entries ==> PairFine(letters, e, d)
    ensures AncestorsFine(letters, entries) && SpellingsFine(letters, entries)
  {
  }

  lemma ChecksSuffice(letters: Letters, entries: seq<UntrackedEntry>, byIdentity: map<string, nat>, items: seq<Item>)
    requires letters.Lawful() && Arranged(letters, entries, byIdentity, items)
    requires NeighboursAgree(letters, items) && FirstDescendantsFine(entries, byIdentity, items)
    ensures AncestorsFine(letters, entries) && SpellingsFine(letters, entries)
  {
    forall e, d | e in entries && d in entries
      ensures PairFine(letters, e, d)
    {
      EntriesFine(letters, entries, byIdentity, items, e, d);
    }
    PairsSuffice(letters, entries);
  }

  lemma {:induction false} FirstExists(items: seq<Item>, target: string, letters: Letters) returns (m: nat)
    requires Ordered(letters, items)
    ensures FirstAtLeast(items, target, m)
  {
    m := 0;
    while m < |items| && Less(items[m].identity, target)
      invariant m <= |items| && forall i :: 0 <= i < m ==> Less(items[i].identity, target)
    {
      m := m + 1;
    }
    forall i | m <= i < |items| ensures AtMost(target, items[i].identity) {
      LessTotal(items[m].identity, target);
      AtMostTransitive(target, items[m].identity, items[i].identity);
    }
  }

  lemma ChecksNecessary(letters: Letters, entries: seq<UntrackedEntry>, byIdentity: map<string, nat>, items: seq<Item>)
    requires Arranged(letters, entries, byIdentity, items)
    requires AncestorsFine(letters, entries) && SpellingsFine(letters, entries)
    ensures NeighboursAgree(letters, items) && FirstDescendantsFine(entries, byIdentity, items)
  {
    forall i | 0 <= i < |items|
      ensures FineFrom(entries, byIdentity, items, i)
    {
      var e := entries[byIdentity[items[i].identity]];
      var m := FirstExists(items, items[i].identity + "/", letters);
      if m < |items| {
        var d := entries[byIdentity[items[m].identity]];
        assert e in entries && d in entries && AncestorFine(letters, e, d);
      }
      assert FineAt(items, i, IsDirectory(entries, byIdentity, items[i]), m);
    }
    forall i | 0 < i < |items| ensures !Misspelled(letters, items[i - 1].original, items[i].original) {
      var e, d := entries[byIdentity[items[i - 1].identity]], entries[byIdentity[items[i].identity]];
      assert e in entries && d in entries;
    }
  }

  /** `validateUntrackedEntries` decides the condition on all pairs from sorted neighbours. */
  method ValidateUntrackedEntries(letters: Letters, entries: seq<UntrackedEntry>, maximumBytes: nat) returns (ok: bool)
    requires letters.Lawful()
    ensures ok <==>
      && |entries| <= MAXIMUM_UNTRACKED
      && EachValid(letters, entries)
      && TotalData(entries) <= maximumBytes
      && AllPairsFine(letters, entries)
  {
    if |entries| > MAXIMUM_UNTRACKED { return false; }
    var indexed, paths, byIdentity := IndexByIdentity(letters, entries, maximumBytes);
    if !indexed { return false; }
    var sorted := Sort(paths, Identity);
    SortArranges(letters, entries, byIdentity);
    var ancestors := CheckAncestors(letters, entries, byIdentity, sorted);
    if !ancestors {
      if AllPairsFine(letters, entries) { ChecksNecessary(letters, entries, byIdentity, sorted); }
      return false;
    }
    ok := CheckNeighbours(letters, sorted);
    if ok {
      ChecksSuffice(letters, entries, byIdentity, sorted);
    } else if AllPairsFine(letters, entries) {
      ChecksNecessary(letters, entries, byIdentity, sorted);
    }
  }
}
