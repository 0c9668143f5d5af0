/** Publishing a private directory all at once: stage it, seal every file, read everything back, rename it
    exclusively, and look again; after a failure remove only what provably belongs to this run. */
module DirectoryPublication {
  import opened FileSystem
  import opened Storage
  import Paths
  import Sequences

  datatype PrivateFile = PrivateFile(name: string, contents: Bytes)

  /** A file this run created. `identity` is refreshed when the file is sealed. */
  datatype Child = Child(name: string, identity: FileSystem.Stat, isSealed: bool)

  /** `sameDirectoryIdentity` */
  predicate SameIdentity(x: FileSystem.Stat, y: FileSystem.Stat) {
    x.ino == y.ino && x.generation == y.generation && x.kind == y.kind
  }

  /** `sameDirectoryFileSnapshot` */
  predicate SameSnapshot(x: FileSystem.Stat, y: FileSystem.Stat) {
    && SameIdentity(x, y) && x.mode == y.mode && x.links == y.links && x.owner == y.owner
    && x.size == y.size && x.mtime == y.mtime && x.ctime == y.ctime
  }

  /** The part of `verifyUnixPrivacy` and `verifyDirectoryHandle` that looks at one stat result. */
  predicate IsPrivate(x: FileSystem.Stat, user: nat, directory: bool) {
    && x.owner == user
    && (directory ==> x.kind == Directory && x.mode == PRIVATE_DIRECTORY)
    && (!directory ==> x.kind == Regular && x.mode == PRIVATE_FILE && x.links == 1)
  }

  // ---------------------------------------------------------------- what the checks prove

  /** At moment m the child was under its name with its identity, private, and unchanged if sealed. */
  ghost predicate ChildSeen(history: seq<FS>, user: nat, staging: Ino, c: Child, m: nat) {
    && m < |history|
    && Bound(history[m], staging, c.name, c.identity.ino)
    && SameIdentity(StatOf(history[m], c.identity.ino), c.identity)
    && IsPrivate(StatOf(history[m], c.identity.ino), user, false)
    && (c.isSealed ==> SameSnapshot(StatOf(history[m], c.identity.ino), c.identity))
  }

  ghost predicate SeenWithin(history: seq<FS>, user: nat, staging: Ino, c: Child, from: nat, to: nat) {
    exists m :: from <= m < to && ChildSeen(history, user, staging, c, m)
  }

  ghost predicate AllSeen(history: seq<FS>, user: nat, staging: Ino, children: seq<Child>, from: nat, to: nat) {
    forall k :: 0 <= k < |children| ==> SeenWithin(history, user, staging, children[k], from, to)
  }

  /** Between two sightings a sealed child stood still, under its name. */
  lemma ChildHeld(history: seq<FS>, user: nat, staging: Ino, c: Child, first: nat, m: nat, last: nat)
    requires Chronicle(history) && c.isSealed && first <= m <= last
    requires ChildSeen(history, user, staging, c, first) && ChildSeen(history, user, staging, c, last)
    ensures At(history[m], c.identity.ino) == At(history[first], c.identity.ino)
    ensures ChildSeen(history, user, staging, c, m)
  {
    assert Evolves(history[first], history[m]) && Evolves(history[m], history[last]);
    ObjectHeld(history[first], history[m], history[last], c.identity.ino);
  }

  /** The child, seen at m, holds exactly these bytes. */
  ghost predicate Holds(history: seq<FS>, user: nat, staging: Ino, c: Child, contents: Bytes, m: nat) {
    ChildSeen(history, user, staging, c, m) && At(history[m], c.identity.ino).data == contents
  }

  /** A sealed child seen at the end of `known`, and again with all the others from `from` on, stood still at m in
      between. */
  lemma StoodUntil(known: seq<FS>, history: seq<FS>, user: nat, staging: Ino, children: seq<Child>, k: nat,
                   contents: Bytes, first: nat, m: nat, from: nat)
    requires Chronicle(history) && known <= history && k < |children| && children[k].isSealed && first <= m < from
    requires Holds(known, user, staging, children[k], contents, first)
    requires AllSeen(history, user, staging, children, from, |history|)
    ensures m < |history| && At(history[m], children[k].identity.ino).data == contents
  {
    assert SeenWithin(history, user, staging, children[k], from, |history|);
    assert ChildSeen(history, user, staging, children[k], first);
    var last :| from <= last < |history| && ChildSeen(history, user, staging, children[k], last);
    ChildHeld(history, user, staging, children[k], first, m, last);
  }

  ghost predicate HeldWithin(history: seq<FS>, user: nat, staging: Ino, c: Child, contents: Bytes, from: nat, to: nat) {
    exists m :: from <= m < to && Holds(history, user, staging, c, contents, m)
  }

  lemma HeldWider(history: seq<FS>, user: nat, staging: Ino, c: Child, contents: Bytes, from: nat, earlier: nat)
    requires HeldWithin(history, user, staging, c, contents, from, |history|) && earlier <= from
    ensures HeldWithin(history, user, staging, c, contents, earlier, |history|)
  {
  }

  lemma AllSeenLater(history: seq<FS>, longer: seq<FS>, user: nat, staging: Ino, children: seq<Child>, from: nat,
                     to: nat, start: nat, end: nat)
    requires AllSeen(history, user, staging, children, from, to) && history <= longer && start <= from && to <= end
    ensures AllSeen(longer, user, staging, children, start, end)
  {
    forall k | 0 <= k < |children| ensures SeenWithin(longer, user, staging, children[k], start, end) {
      var m :| from <= m < to && ChildSeen(history, user, staging, children[k], m);
      assert ChildSeen(longer, user, staging, children[k], m);
    }
  }

  lemma OneMoreSeen(history: seq<FS>, longer: seq<FS>, user: nat, staging: Ino, children: seq<Child>, k: nat, from: nat)
    requires k < |children| && history <= longer && from <= |history|
    requires AllSeen(history, user, staging, children[..k], from, |history|)
    requires SeenWithin(longer, user, staging, children[k], |history|, |longer|)
    ensures AllSeen(longer, user, staging, children[..k + 1], from, |longer|)
  {
    AllSeenLater(history, longer, user, staging, children[..k], from, |history|, from, |longer|);
    var some := children[..k + 1];
    forall j | 0 <= j < |some| ensures SeenWithin(longer, user, staging, some[j], from, |longer|) {
      if j < k { assert children[..k][j] == some[j]; }
    }
  }

  /** Only the last child may differ, and that only in what was recorded of it. */
  ghost predicate Renewed(before: seq<Child>, children: seq<Child>) {
    && |children| == |before| > 0 && children[..|children| - 1] == before[..|children| - 1]
    && children[|children| - 1].name == before[|children| - 1].name
    && children[|children| - 1].identity.ino == before[|children| - 1].identity.ino
  }

  function Names(children: seq<Child>): set<string> {
    set c <- children :: c.name
  }

  /** The listing of the directory is exactly the children's names, at moment m. */
  ghost predicate ListedAt(history: seq<FS>, staging: Ino, children: seq<Child>, m: nat) {
    m < |history| && At(history[m], staging).names.Keys == Names(children)
  }

  /** The directory binds the file's name to a private regular file with exactly its contents. */
  ghost predicate FileHeld(fs: FS, user: nat, directory: Ino, f: PrivateFile) {
    && f.name in At(fs, directory).names
    && IsPrivate(StatOf(fs, At(fs, directory).names[f.name]), user, false)
    && At(fs, At(fs, directory).names[f.name]).data == f.contents
  }

  function Requested(files: seq<PrivateFile>): set<string> {
    set f <- files :: f.name
  }

  /** One directory with exactly the requested files, all at once. */
  ghost predicate DirectoryHolds(fs: FS, user: nat, directory: Ino, files: seq<PrivateFile>) {
    && At(fs, directory).names.Keys == Requested(files)
    && forall f <- files :: FileHeld(fs, user, directory, f)
  }

  ghost predicate Matches(children: seq<Child>, files: seq<PrivateFile>) {
    |children| == |files| && forall k :: 0 <= k < |files| ==> children[k].isSealed && children[k].name == files[k].name
  }

  ghost predicate AllHeld(history: seq<FS>, user: nat, staging: Ino, children: seq<Child>, files: seq<PrivateFile>,
                          from: nat, to: nat)
    requires |children| == |files|
  {
    forall k :: 0 <= k < |files| ==> HeldWithin(history, user, staging, children[k], files[k].contents, from, to)
  }

  /** There are children for the first of the files, in their order. */
  ghost predicate Begun(children: seq<Child>, files: seq<PrivateFile>) {
    |children| <= |files| && forall k :: 0 <= k < |children| ==> children[k].name == files[k].name
  }

  ghost predicate OneMoreChild(before: seq<Child>, children: seq<Child>, name: string) {
    |children| == |before| + 1 && children[..|before|] == before && children[|before|].name == name
  }

  lemma BegunNext(before: seq<Child>, children: seq<Child>, files: seq<PrivateFile>, k: nat)
    requires k < |files| && Matches(before, files[..k])
    requires children == before || OneMoreChild(before, children, files[k].name)
    ensures Begun(children, files)
  {
    forall j | 0 <= j < |children| ensures children[j].name == files[j].name {
      if j < k { assert children[..k][j] == children[j] && files[..k][j] == files[j]; }
    }
  }

  lemma MatchesNext(before: seq<Child>, children: seq<Child>, files: seq<PrivateFile>, k: nat)
    requires k < |files| && Matches(before, files[..k]) && |children| == k + 1 && children[..k] == before
    requires children[k].name == files[k].name && children[k].isSealed
    ensures Matches(children, files[..k + 1])
  {
    forall j | 0 <= j < k ensures children[j] == before[j] && files[..k][j] == files[j] {
      assert children[..k][j] == children[j];
    }
  }

  lemma MatchingNames(children: seq<Child>, files: seq<PrivateFile>)
    requires Matches(children, files)
    ensures Names(children) == Requested(files)
  {
    forall n ensures n in Names(children) <==> n in Requested(files) {
      if n in Names(children) {
        var k :| 0 <= k < |children| && children[k].name == n;
        assert files[k].name == n;
      }
      if n in Requested(files) {
        var k :| 0 <= k < |files| && files[k].name == n;
        assert children[k].name == n;
      }
    }
  }

  lemma ChildHeldAtListing(history: seq<FS>, user: nat, staging: Ino, c: Child, f: PrivateFile, from: nat, m: nat)
    requires Chronicle(history) && c.isSealed && c.name == f.name
    requires HeldWithin(history, user, staging, c, f.contents, from, m)
    requires SeenWithin(history, user, staging, c, m, |history|)
    ensures m < |history| && FileHeld(history[m], user, staging, f)
  {
    var first :| from <= first < m && Holds(history, user, staging, c, f.contents, first);
    var last :| m <= last < |history| && ChildSeen(history, user, staging, c, last);
    ChildHeld(history, user, staging, c, first, m, last);
  }

  /** Read-backs before the listing and sightings after it meet at the listing: one instant for everything. */
  lemma ListingIsInstant(history: seq<FS>, user: nat, staging: Ino, children: seq<Child>, files: seq<PrivateFile>,
                         from: nat, m: nat)
    requires Chronicle(history) && Matches(children, files)
    requires ListedAt(history, staging, children, m)
    requires AllHeld(history, user, staging, children, files, from, m)
    requires AllSeen(history, user, staging, children, m, |history|)
    ensures DirectoryHolds(history[m], user, staging, files)
  {
    forall f <- files ensures FileHeld(history[m], user, staging, f) {
      var k :| 0 <= k < |files| && files[k] == f;
      assert HeldWithin(history, user, staging, children[k], files[k].contents, from, m);
      assert SeenWithin(history, user, staging, children[k], m, |history|);
      ChildHeldAtListing(history, user, staging, children[k], f, from, m);
    }
    MatchingNames(children, files);
  }

  /** Distinct listed names, all known, as many as there are children: the listing is exactly the children. */
  lemma CountedListing(fs: FS, staging: Ino, children: seq<Child>, entries: seq<DirectoryEntry>)
    requires ListingOf(fs, staging, |children| + 1, entries)
    requires |entries| == |children| && forall e <- entries :: e.name in Names(children)
    ensures At(fs, staging).names.Keys == Names(children)
  {
    var listed := set e <- entries :: e.name;
    DistinctCount(entries);
    NamesCount(children);
    Sequences.SubsetOfSameSize(listed, Names(children));
    forall n ensures n in At(fs, staging).names <==> n in listed {
    }
  }

  /** As many listed names as the directory has, when there was room for one more. */
  lemma ListedCount(fs: FS, i: Ino, maximum: nat, entries: seq<DirectoryEntry>)
    requires ListingOf(fs, i, maximum, entries) && |At(fs, i).names.Keys| < maximum
    ensures |entries| == |At(fs, i).names.Keys|
  {
    var listed := set e <- entries :: e.name;
    DistinctCount(entries);
    assert listed <= At(fs, i).names.Keys;
    Sequences.SubsetSize(listed, At(fs, i).names.Keys);
    assert At(fs, i).names.Keys <= listed;
    Sequences.SubsetSize(At(fs, i).names.Keys, listed);
  }

  lemma {:induction false} NamesDistinct(children: seq<Child>)
    requires forall j, k :: 0 <= j < k < |children| ==> children[j].name != children[k].name
    ensures |Names(children)| == |children|
  {
    if children != [] {
      var last := |children| - 1;
      NamesDistinct(children[..last]);
      Sequences.LastOf(children);
      OneMoreName(children[..last], children[last]);
      forall c | c in children[..last] ensures c.name != children[last].name {
        var i :| 0 <= i < last && children[..last][i] == c;
        assert children[i].name != children[last].name;
      }
    }
  }

  /** An intact staging directory lists exactly the children, all of them regular files. */
  lemma StagedListing(fs: FS, site: Site, children: seq<Child>, entries: seq<DirectoryEntry>)
    requires StagedIn(fs, site, children) && ListingOf(fs, site.staging.ino, |children| + 1, entries)
    ensures |entries| == |children| && forall e <- entries :: e.name in Names(children) && e.kind == Regular
  {
    NamesDistinct(children);
    ListedCount(fs, site.staging.ino, |children| + 1, entries);
    forall e | e in entries ensures e.name in Names(children) && e.kind == Regular {
      var k :| 0 <= k < |children| && children[k].name == e.name;
      assert ChildIntact(fs, site, children[k]);
    }
  }

  lemma {:induction false} DistinctCount(entries: seq<DirectoryEntry>)
    requires forall j, k :: 0 <= j < k < |entries| ==> entries[j].name != entries[k].name
    ensures |set e <- entries :: e.name| == |entries|
  {
    if entries != [] {
      var last := |entries| - 1;
      DistinctCount(entries[..last]);
      assert (set e <- entries :: e.name) == (set e <- entries[..last] :: e.name) + {entries[last].name};
    }
  }

  lemma {:induction false} NamesCount(children: seq<Child>)
    ensures |Names(children)| <= |children|
  {
    if children != [] {
      var last := |children| - 1;
      NamesCount(children[..last]);
      assert Names(children) == Names(children[..last]) + {children[last].name};
    }
  }

  /** The name led to the object at some moment of the window. */
  ghost predicate SeenUnder(history: seq<FS>, directory: Ino, name: string, i: Ino, from: nat, to: nat) {
    exists m :: from <= m < to <= |history| && Bound(history[m], directory, name, i)
  }

  lemma SeenUnderLater(history: seq<FS>, longer: seq<FS>, directory: Ino, name: string, i: Ino, from: nat, to: nat,
                       start: nat, end: nat)
    requires SeenUnder(history, directory, name, i, from, to) && history <= longer && start <= from
             && to <= end <= |longer|
    ensures SeenUnder(longer, directory, name, i, start, end)
  {
    var m :| from <= m < to && Bound(history[m], directory, name, i);
    assert Bound(longer[m], directory, name, i);
  }

  const NO_STAT := StatOf(map[], 0)

  // ---------------------------------------------------------------- privacy, and what was made here

  /** The object was seen to be the user's own in this stretch, and private if it is a directory. */
  ghost predicate PrivateWithin(history: seq<FS>, user: nat, i: Ino, directory: bool, from: nat, to: nat) {
    exists m :: from <= m < to <= |history| && StatOf(history[m], i).owner == user
                && (directory ==> IsPrivate(StatOf(history[m], i), user, true))
  }

  lemma PrivateLater(history: seq<FS>, longer: seq<FS>, user: nat, i: Ino, directory: bool, from: nat, to: nat,
                     start: nat, end: nat)
    requires PrivateWithin(history, user, i, directory, from, to) && history <= longer && start <= from
             && to <= end <= |longer|
    ensures PrivateWithin(longer, user, i, directory, start, end)
  {
    var m :| from <= m < to && StatOf(history[m], i).owner == user
        && (directory ==> IsPrivate(StatOf(history[m], i), user, true));
    assert StatOf(longer[m], i).owner == user;
  }

  /** Everything `verifyDirectoryHandle` asks of an object, at once. */
  ghost predicate Fit(fs: FS, user: nat, i: Ino, identity: FileSystem.Stat, directory: bool) {
    i == identity.ino && SameIdentity(StatOf(fs, i), identity) && IsPrivate(StatOf(fs, i), user, directory)
  }

  /** This run created the child's name in the directory, and the object behind it is the one it recorded. */
  ghost predicate ChildAdded(additions: seq<Addition>, began: nat, directory: Ino, c: Child) {
    exists j :: began <= j < |additions| && additions[j].directory == directory && additions[j].name == c.name
                && additions[j].kind == Regular && additions[j].ino == c.identity.ino
  }

  datatype Origin = Here | Elsewhere

  /** The k-th file that the run added is this child: its name in the directory, and the object behind it. */
  ghost predicate FileAdded(additions: seq<Addition>, began: nat, k: nat, directory: Ino, c: Child) {
    && began + 1 + k < |additions|
    && var a := additions[began + 1 + k];
    a.directory == directory && a.name == c.name && a.kind == Regular && a.ino == c.identity.ino
  }

  ghost predicate FilesAdded(additions: seq<Addition>, began: nat, directory: Ino, children: seq<Child>) {
    forall k {:trigger FileAdded(additions, began, k, directory, children[k])} ::
      0 <= k < |children| ==> FileAdded(additions, began, k, directory, children[k])
  }

  /** What the run has added, one by one: the staging directory, then the children; after them one more file when it is
      not certain what became of it. Nothing else. */
  ghost predicate Added(additions: seq<Addition>, began: nat, parent: Ino, name: string, directory: Ino,
                        children: seq<Child>, uncertain: bool) {
    && |additions| == began + 1 + |children| + (if uncertain then 1 else 0)
    && additions[began].directory == parent && additions[began].name == name && additions[began].kind == Directory
    && FilesAdded(additions, began, directory, children)
    && (uncertain ==> additions[|additions| - 1].directory == directory && additions[|additions| - 1].kind == Regular)
  }

  ghost function AddedOf(additions: seq<Addition>, began: nat, parent: Ino, name: string, directory: Ino,
                         children: seq<Child>, uncertain: bool): Origin {
    if Added(additions, began, parent, name, directory, children, uncertain) then Here else Elsewhere
  }

  lemma DirectoryJustAdded(additions: seq<Addition>, began: nat, parent: Ino, name: string, directory: Ino)
    requires |additions| == began + 1 && additions[began].directory == parent && additions[began].name == name
    requires additions[began].kind == Directory
    ensures AddedOf(additions, began, parent, name, directory, [], false) == Here
  {
  }

  lemma SealingKeepsAdded(additions: seq<Addition>, began: nat, parent: Ino, name: string, directory: Ino,
                          children: seq<Child>, final: Child)
    requires AddedOf(additions, began, parent, name, directory, children, false) == Here && children != []
    requires final.name == children[|children| - 1].name && final.identity.ino == children[|children| - 1].identity.ino
    ensures AddedOf(additions, began, parent, name, directory, children[|children| - 1 := final], false) == Here
  {
    var changed := children[|children| - 1 := final];
    forall k | 0 <= k < |changed| ensures FileAdded(additions, began, k, directory, changed[k]) {
      assert FileAdded(additions, began, k, directory, children[k]);
    }
  }

  lemma FilesStayAdded(additions: seq<Addition>, more: seq<Addition>, began: nat, directory: Ino, children: seq<Child>)
    requires FilesAdded(additions, began, directory, children) && additions <= more
    ensures FilesAdded(more, began, directory, children)
  {
    forall k | 0 <= k < |children| ensures FileAdded(more, began, k, directory, children[k]) {
      assert FileAdded(additions, began, k, directory, children[k]);
    }
  }

  /** One more file: a child, or one that it is not certain of. */
  lemma OneMoreAdded(additions: seq<Addition>, a: Addition, began: nat, parent: Ino, name: string, directory: Ino,
                     children: seq<Child>, c: Child)
    requires AddedOf(additions, began, parent, name, directory, children, false) == Here
    requires a.directory == directory && a.kind == Regular
    ensures AddedOf(additions + [a], began, parent, name, directory, children, true) == Here
    ensures a.name == c.name && a.ino == c.identity.ino ==>
              AddedOf(additions + [a], began, parent, name, directory, children + [c], false) == Here
  {
    FilesStayAdded(additions, additions + [a], began, directory, children);
    var more := children + [c];
    forall k | 0 <= k < |more| && a.name == c.name && a.ino == c.identity.ino
      ensures FileAdded(additions + [a], began, k, directory, more[k])
    {
      if k < |children| { assert FileAdded(additions + [a], began, k, directory, children[k]); }
    }
  }

  /** Some file that the run added. */
  ghost predicate OwnFile(additions: seq<Addition>, began: nat, i: Ino) {
    exists k :: began < k < |additions| && additions[k].kind == Regular && additions[k].ino == i
  }

  /** The run wrote to files that it had added, and to nothing else. */
  ghost predicate Written(writes: seq<Ino>, wrote: nat, additions: seq<Addition>, began: nat) {
    wrote <= |writes|
    && forall j {:trigger OwnFile(additions, began, writes[j])} ::
         wrote <= j < |writes| ==> OwnFile(additions, began, writes[j])
  }

  ghost function WrittenOf(writes: seq<Ino>, wrote: nat, additions: seq<Addition>, began: nat): Origin {
    if Written(writes, wrote, additions, began) then Here else Elsewhere
  }

  lemma WrittenLater(writes: seq<Ino>, wrote: nat, additions: seq<Addition>, more: seq<Addition>, began: nat)
    requires WrittenOf(writes, wrote, additions, began) == Here && additions <= more
    ensures WrittenOf(writes, wrote, more, began) == Here
  {
    forall j | wrote <= j < |writes| ensures OwnFile(more, began, writes[j]) {
      assert OwnFile(additions, began, writes[j]);
      var k :| began < k < |additions| && additions[k].kind == Regular && additions[k].ino == writes[j];
      assert more[k] == additions[k];
    }
  }

  lemma OneMoreWritten(writes: seq<Ino>, wrote: nat, additions: seq<Addition>, began: nat, parent: Ino, name: string,
                       directory: Ino, children: seq<Child>)
    requires WrittenOf(writes, wrote, additions, began) == Here && children != []
    requires AddedOf(additions, began, parent, name, directory, children, false) == Here
    ensures WrittenOf(writes + [children[|children| - 1].identity.ino], wrote, additions, began) == Here
  {
    var last, more := |children| - 1, writes + [children[|children| - 1].identity.ino];
    assert FileAdded(additions, began, last, directory, children[last]);
    assert additions[began + 1 + last].kind == Regular;
    forall j | wrote <= j < |more| ensures OwnFile(additions, began, more[j]) {
      if j < |writes| { assert OwnFile(additions, began, writes[j]); }
    }
  }

  /** The first look after the addition found this object under the new name. */
  ghost predicate Pinned(history: seq<FS>, a: Addition, pin: nat, staging: Ino) {
    a.moment < pin < |history| && Bound(history[pin], a.directory, a.name, staging)
  }

  /** In the step to this moment the new name stopped leading to the added object. */
  ghost predicate Exchanged(history: seq<FS>, a: Addition, m: nat) {
    && 0 < m < |history|
    && Bound(history[m - 1], a.directory, a.name, a.ino) && !Bound(history[m], a.directory, a.name, a.ino)
  }

  /** What was pinned is the added object, unless somebody took the name away from it in between. */
  lemma PinnedUnlessExchanged(history: seq<FS>, a: Addition, pin: nat, staging: Ino)
    requires a.moment < |history| && Bound(history[a.moment], a.directory, a.name, a.ino)
    requires Pinned(history, a, pin, staging)
    ensures staging == a.ino || exists m :: a.moment < m <= pin && Exchanged(history, a, m)
  {
    if staging != a.ino { var m := LostBefore(history, a, pin); }
  }

  lemma {:induction false} LostBefore(history: seq<FS>, a: Addition, pin: nat) returns (m: nat)
    requires a.moment <= pin < |history| && Bound(history[a.moment], a.directory, a.name, a.ino)
    requires !Bound(history[pin], a.directory, a.name, a.ino)
    ensures a.moment < m <= pin && Exchanged(history, a, m)
    decreases pin
  {
    if Bound(history[pin - 1], a.directory, a.name, a.ino) { m := pin; } else { m := LostBefore(history, a, pin - 1); }
  }

  function Swapped(fs: FS, directory: Ino, name: string, i: Ino, other: Ino): FS {
    Relinked(Relinked(WithName(fs, directory, name, other), i, At(fs, i).links), other, At(fs, other).links)
  }

  lemma SwapEvolves(fs: FS, directory: Ino, name: string, i: Ino, other: Ino)
    requires Bound(fs, directory, name, i) && other != i && other != directory && i != directory
    ensures Evolves(fs, Swapped(fs, directory, name, i, other))
  {
  }

  /** Putting another private directory of the same user under the new name, between its addition and the first look, is
      a lawful change. The looks of `createStaging` all accept the other one and pin it, though this run did not create
      it. */
  lemma SwapIsPinned(history: seq<FS>, user: nat, a: Addition, other: Ino) returns (longer: seq<FS>)
    requires Chronicle(history) && a.moment == |history| - 1
    requires var fs := history[|history| - 1];
             Bound(fs, a.directory, a.name, a.ino) && IsPrivate(StatOf(fs, other), user, true)
    requires a.name != "." && other != a.ino && other != a.directory && a.ino != a.directory
    ensures Chronicle(longer) && longer[..|longer| - 1] == history
    ensures Pinned(longer, a, |history|, other) && Exchanged(longer, a, |history|)
    ensures var fs := longer[|longer| - 1];
            Resolve(fs, a.directory, a.name) == Some(other) && Fit(fs, user, other, StatOf(fs, other), true)
  {
    var fs := history[|history| - 1];
    SwapEvolves(fs, a.directory, a.name, a.ino, other);
    ChronicleGrows(history, Swapped(fs, a.directory, a.name, a.ino, other));
    longer := history + [Swapped(fs, a.directory, a.name, a.ino, other)];
  }

  // ---------------------------------------------------------------- a run that nobody disturbs

  /** Where a run works: the user, the parent's path and names at the start, and what was recorded of both
      directories. */
  datatype Site = Site(user: nat, path: string, initial: map<string, Ino>, parent: FileSystem.Stat, name: string,
                       staging: FileSystem.Stat)

  datatype Condition = Intact | Disturbed

  ghost predicate ParentIntact(fs: FS, site: Site) {
    && site.path != "." && Resolve(fs, ABOVE, site.path) == Some(site.parent.ino)
    && Fit(fs, site.user, site.parent.ino, site.parent, true)
  }

  ghost function ParentCondition(fs: FS, site: Site): Condition {
    if ParentIntact(fs, site) then Intact else Disturbed
  }

  ghost predicate ChildIntact(fs: FS, site: Site, c: Child) {
    && Bound(fs, site.staging.ino, c.name, c.identity.ino) && c.name != "." && c.identity.ino != ABOVE
    && Fit(fs, site.user, c.identity.ino, c.identity, false)
    && (c.isSealed ==> SameSnapshot(StatOf(fs, c.identity.ino), c.identity))
  }

  ghost predicate ChildrenIntact(fs: FS, site: Site, children: seq<Child>) {
    && (forall k {:trigger ChildIntact(fs, site, children[k])} ::
          0 <= k < |children| ==> ChildIntact(fs, site, children[k]))
    && (forall j, k :: 0 <= j < k < |children| ==> children[j].name != children[k].name)
    && (forall j, k :: 0 <= j < k < |children| ==> children[j].identity.ino != children[k].identity.ino)
  }

  /** The parent has one name more than at the start, and the staging directory exactly the children; all of them are as
      they were recorded. */
  ghost predicate StagedIn(fs: FS, site: Site, children: seq<Child>) {
    && ParentIntact(fs, site) && site.parent.ino != site.staging.ino && site.staging.ino != ABOVE
    && site.name != "." && site.name !in site.initial
    && At(fs, site.parent.ino).names == site.initial[site.name := site.staging.ino]
    && Fit(fs, site.user, site.staging.ino, site.staging, true)
    && At(fs, site.staging.ino).names.Keys == Names(children)
    && ChildrenIntact(fs, site, children)
  }

  /** Whether everything the run has staged is there and as it was recorded. */
  ghost function ConditionOf(fs: FS, site: Site, children: seq<Child>): Condition {
    if StagedIn(fs, site, children) then Intact else Disturbed
  }

  /** The only change is a new object of the user, under a name that was free; this is its stat result. */
  ghost predicate Made(before: FS, after: FS, user: nat, directory: Ino, name: string, identity: FileSystem.Stat,
                       kind: Kind, mode: Permissions) {
    && name !in At(before, directory).names && identity.ino !in before && identity.ino != directory
    && after == Create(before, directory, name, identity.ino, kind, mode, user)
    && identity == StatOf(after, identity.ino)
  }

  datatype Change = OnlyNew | MoreThanNew

  /** Whether nothing but the new object makes the difference. */
  ghost function ChangeOf(before: FS, after: FS, user: nat, directory: Ino, name: string, identity: FileSystem.Stat,
                          kind: Kind, mode: Permissions): Change {
    if Made(before, after, user, directory, name, identity, kind, mode) then OnlyNew else MoreThanNew
  }

  /** A directory was just created in an intact parent. */
  lemma CreationStages(before: FS, after: FS, site: Site)
    requires ParentCondition(before, site) == Intact && At(before, site.parent.ino).names == site.initial
             && site.name != "."
    requires ChangeOf(before, after, site.user, site.parent.ino, site.name, site.staging, Directory, PRIVATE_DIRECTORY)
             == OnlyNew
    ensures StagedIn(after, site, [])
  {
    CreateNames(before, site.parent.ino, site.name, site.staging.ino, Directory, PRIVATE_DIRECTORY, site.user,
                site.parent.ino);
    assert ABOVE in before && Names([]) == {};
  }

  lemma CreationKeepsChild(before: FS, after: FS, site: Site, children: seq<Child>, k: nat, c: Child)
    requires StagedIn(before, site, children) && k < |children|
    requires ChangeOf(before, after, site.user, site.staging.ino, c.name, c.identity, Regular, PRIVATE_FILE) == OnlyNew
    ensures ChildIntact(after, site, children[k]) && children[k].identity.ino != c.identity.ino
            && children[k].name != c.name
  {
    assert ChildIntact(before, site, children[k]) && children[k] in children;
  }

  /** Neither the parent nor the staging directory itself is touched but for the new name. */
  lemma CreationKeepsDirectories(before: FS, after: FS, site: Site, children: seq<Child>, c: Child)
    requires StagedIn(before, site, children)
    requires ChangeOf(before, after, site.user, site.staging.ino, c.name, c.identity, Regular, PRIVATE_FILE) == OnlyNew
    ensures ParentIntact(after, site) && At(after, site.parent.ino).names == At(before, site.parent.ino).names
    ensures Fit(after, site.user, site.staging.ino, site.staging, true)
    ensures At(after, site.staging.ino).names.Keys == Names(children + [c])
  {
    CreateNames(before, site.staging.ino, c.name, c.identity.ino, Regular, PRIVATE_FILE, site.user, site.staging.ino);
    CreateNames(before, site.staging.ino, c.name, c.identity.ino, Regular, PRIVATE_FILE, site.user, site.parent.ino);
    OneMoreName(children, c);
    assert ABOVE in before && site.parent.ino in before;
  }

  /** One more file was created in the staging directory. */
  lemma CreationAddsChild(before: FS, after: FS, site: Site, children: seq<Child>, c: Child)
    requires StagedIn(before, site, children) && c.name != "." && !c.isSealed
    requires ChangeOf(before, after, site.user, site.staging.ino, c.name, c.identity, Regular, PRIVATE_FILE) == OnlyNew
    ensures StagedIn(after, site, children + [c])
  {
    var more := children + [c];
    CreationKeepsDirectories(before, after, site, children, c);
    assert ABOVE in before;
    assert ChildIntact(after, site, c);
    forall k | 0 <= k < |more| ensures ChildIntact(after, site, more[k]) {
      if k < |children| { CreationKeepsChild(before, after, site, children, k, c); }
    }
    forall j, k | 0 <= j < k < |more|
      ensures more[j].name != more[k].name && more[j].identity.ino != more[k].identity.ino
    {
      if k == |children| { CreationKeepsChild(before, after, site, children, j, c); }
    }
  }

  /** The last child, not yet sealed, was written to. */
  lemma WritingKeepsStaged(fs: FS, site: Site, children: seq<Child>, bytes: Bytes)
    requires StagedIn(fs, site, children) && children != [] && !children[|children| - 1].isSealed
    ensures StagedIn(Append(fs, children[|children| - 1].identity.ino, bytes), site, children)
  {
    var last := |children| - 1;
    assert ChildIntact(fs, site, children[last]);
    forall k | 0 <= k < |children|
      ensures ChildIntact(Append(fs, children[last].identity.ino, bytes), site, children[k])
    {
      assert ChildIntact(fs, site, children[k]);
    }
  }

  /** The last child was sealed with what it is now. */
  lemma SealingKeepsStaged(fs: FS, site: Site, children: seq<Child>, final: Child)
    requires StagedIn(fs, site, children) && children != []
    requires final == Child(children[|children| - 1].name, StatOf(fs, children[|children| - 1].identity.ino), true)
    ensures StagedIn(fs, site, children[|children| - 1 := final])
  {
    var last, changed := |children| - 1, children[|children| - 1 := final];
    assert ChildIntact(fs, site, children[last]);
    SameNames(children, changed);
    forall k | 0 <= k < |changed| ensures ChildIntact(fs, site, changed[k]) {
      assert ChildIntact(fs, site, children[k]);
    }
  }

  /** The name of a staging directory, around a random text. */
  function StagingName(text: string): (name: string)
    ensures |name| > 1 && IsStagingName(name)
  {
    assert Named(".treeclear-directory-" + text + ".tmp", text);
    ".treeclear-directory-" + text + ".tmp"
  }

  predicate Named(name: string, text: string) {
    name == ".treeclear-directory-" + text + ".tmp"
  }

  ghost predicate IsStagingName(name: string) {
    exists text: string :: Named(name, text)
  }

  datatype Naming = Ours | Foreign

  /** Whether a name is that of a staging directory, if it is one at all. */
  ghost function NamingOf(name: string): Naming {
    if name == "" || IsStagingName(name) then Ours else Foreign
  }

  // ---------------------------------------------------------------- the publisher

  class DirectoryPublisher {
    const storage: Storage
    const parentPath: string
    var parent: Option<Ino>
    var parentIdentity: FileSystem.Stat
    var staging: Option<Ino>
    var stagingName: string
    var stagingIdentity: FileSystem.Stat
    var stagingPinned: bool
    var children: seq<Child>
    var uncertain: bool
    var published: bool
    /** The names of the parent when this run started to change anything, and how many names had been added by then. */
    ghost var initial: map<string, Ino>
    ghost const began: nat
    /** How many writes there had been by then, and when the staging directory was first looked at. */
    ghost const wrote: nat
    ghost var pin: nat
    /** When the parent was opened by its path. */
    ghost var placed: nat

    constructor (storage: Storage, parentPath: string)
      ensures this.storage == storage && this.parentPath == parentPath
      ensures parent == None && staging == None && stagingName == "" && !stagingPinned && children == []
      ensures !uncertain && !published && began == |storage.additions| && wrote == |storage.writes|
    {
      this.storage, this.parentPath := storage, parentPath;
      parent, parentIdentity, staging, stagingName, stagingIdentity := None, NO_STAT, None, "", NO_STAT;
      stagingPinned, children, uncertain, published, initial := false, [], false, false, map[];
      began, wrote, pin, placed := |storage.additions|, |storage.writes|, 0, 0;
    }

    /** The copy that `checkPublished` works on: everything but the two handles. */
    constructor Probe(original: DirectoryPublisher, parent: Ino, staging: Ino)
      ensures storage == original.storage && parentPath == original.parentPath
      ensures this.parent == Some(parent) && this.staging == Some(staging)
      ensures parentIdentity == original.parentIdentity && stagingIdentity == original.stagingIdentity
      ensures stagingName == original.stagingName && children == original.children
    {
      storage, parentPath := original.storage, original.parentPath;
      this.parent, this.staging := Some(parent), Some(staging);
      parentIdentity, stagingIdentity := original.parentIdentity, original.stagingIdentity;
      stagingName, stagingPinned, children := original.stagingName, original.stagingPinned, original.children;
      uncertain, published, initial := original.uncertain, original.published, original.initial;
      began, wrote, pin, placed := original.began, original.wrote, original.pin, original.placed;
    }

    /** `verifyDirectoryHandle` */
    method VerifyHandle(i: Ino, identity: FileSystem.Stat, directory: bool) returns (ok: bool)
      requires storage.Valid()
      modifies storage`fs, storage`turns, storage`history
      ensures storage.Valid() && old(storage.history) < storage.history
      ensures storage.Calm() ==> storage.fs == old(storage.fs)
      ensures ok ==> i == identity.ino && SameIdentity(StatOf(storage.fs, i), identity)
      ensures ok ==>
                PrivateWithin(storage.history, storage.user, i, directory, |old(storage.history)|, |storage.history|)
      ensures ok && !directory ==>
                var found := StatOf(storage.fs, i);
                found.kind == Regular && found.mode == PRIVATE_FILE && found.links == 1
      ensures ok && storage.Calm() ==> Fit(storage.fs, storage.user, i, identity, directory)
      ensures storage.Undisturbed(|old(storage.history)|) ==>
                Fit(storage.fs, storage.user, i, identity, directory) ==> ok
    {
      var privacy := storage.Fstat(i);
      if privacy.None? || privacy.value.owner != storage.user { return false; }
      if directory && (privacy.value.kind != Directory || privacy.value.mode != PRIVATE_DIRECTORY) { return false; }
      if !directory && (privacy.value.kind != Regular || privacy.value.mode % 64 != 0 || privacy.value.mode >= 512) {
        return false;
      }
      ghost var m := |storage.history| - 1;
      assert StatOf(storage.history[m], i) == privacy.value;
      var actual := storage.Fstat(i);
      ok := actual.Some? && SameIdentity(actual.value, identity)
            && (directory
                || (actual.value.kind == Regular && actual.value.mode == PRIVATE_FILE && actual.value.links == 1));
    }

    ghost function Place(): Site
      reads this
    {
      Site(storage.user, parentPath, initial, parentIdentity, stagingName, stagingIdentity)
    }

    /** `verifyDirectoryHandle`, where only the verdict matters. */
    method Reverify(i: Ino, identity: FileSystem.Stat, directory: bool) returns (ok: bool)
      requires storage.Valid()
      modifies storage`fs, storage`turns, storage`history
      ensures storage.Valid() && old(storage.history) < storage.history
      ensures storage.Calm() ==> storage.fs == old(storage.fs)
      ensures ok ==> i == identity.ino
      ensures storage.Undisturbed(|old(storage.history)|) ==>
                Fit(storage.fs, storage.user, i, identity, directory) ==> ok
    {
      ok := VerifyHandle(i, identity, directory);
    }

    /** `verifyDirectoryParentPath` */
    method VerifyParentPath() returns (ok: bool)
      requires storage.Valid()
      modifies storage`fs, storage`turns, storage`history
      ensures storage.Valid() && old(storage.history) < storage.history
      ensures storage.Calm() ==> storage.fs == old(storage.fs)
      ensures ok ==>
                SeenUnder(storage.history, ABOVE, parentPath, parentIdentity.ino, |old(storage.history)|,
                          |storage.history|)
      ensures ok ==>
                PrivateWithin(storage.history, storage.user, parentIdentity.ino, true, |old(storage.history)|,
                              |storage.history|)
      ensures ok && storage.Calm() ==> ParentCondition(storage.fs, Place()) == Intact
      ensures storage.Undisturbed(|old(storage.history)|) && ParentCondition(storage.fs, Place()) == Intact ==> ok
    {
      if parentPath == "." { var _ := storage.Close(); return false; }
      var again := storage.Open(ABOVE, parentPath);
      if again.None? { return false; }
      ghost var reached := storage.history;
      assert Bound(reached[|reached| - 1], ABOVE, parentPath, again.value);
      assert SeenUnder(reached, ABOVE, parentPath, again.value, |old(storage.history)|, |reached|);
      ok := VerifyHandle(again.value, parentIdentity, true);
      ghost var verified := storage.history;
      var closed := storage.Close();
      if ok {
        SeenUnderLater(reached, storage.history, ABOVE, parentPath, parentIdentity.ino, |old(storage.history)|,
                       |reached|, |old(storage.history)|, |storage.history|);
        PrivateLater(verified, storage.history, storage.user, parentIdentity.ino, true, |reached|, |verified|,
                     |old(storage.history)|, |storage.history|);
      }
      ok := ok && closed;
    }

    /** One turn of the child loop of `checkStorage`. */
    method CheckChild(k: nat) returns (ok: bool)
      requires storage.Valid() && staging.Some? && k < |children| && children[k].name != "."
      modifies storage`fs, storage`turns, storage`history
      ensures storage.Valid() && old(storage.history) < storage.history
      ensures storage.Calm() ==> storage.fs == old(storage.fs)
      ensures ok ==>
                SeenWithin(storage.history, storage.user, staging.value, children[k], |old(storage.history)|,
                           |storage.history|)
      ensures storage.Undisturbed(|old(storage.history)|) && Staged() ==> ok
    {
      var child := children[k];
      assert Staged() ==> ChildIntact(storage.fs, Place(), children[k]);
      var identity := storage.Stat(staging.value, child.name);
      if identity.None? { return false; }
      var current := identity.value;
      if !SameIdentity(current, child.identity) || !IsPrivate(current, storage.user, false)
         || (child.isSealed && !SameSnapshot(current, child.identity)) {
        return false;
      }
      assert ChildSeen(storage.history, storage.user, staging.value, child, |storage.history| - 1);
      ok := true;
    }

    /** The child loop of `checkStorage`. */
    method CheckChildren() returns (ok: bool)
      requires storage.Valid() && staging.Some?
      requires forall k :: 0 <= k < |children| ==> children[k].name != "."
      modifies storage`fs, storage`turns, storage`history
      ensures storage.Valid() && old(storage.history) <= storage.history
      ensures storage.Calm() ==> storage.fs == old(storage.fs)
      ensures ok ==>
                AllSeen(storage.history, storage.user, staging.value, children, |old(storage.history)|,
                        |storage.history|)
      ensures storage.Undisturbed(|old(storage.history)|) && Staged() ==> ok
    {
      for k := 0 to |children|
        invariant storage.Valid() && old(storage.history) <= storage.history
        invariant storage.Calm() ==> storage.fs == old(storage.fs)
        invariant AllSeen(storage.history, storage.user, staging.value, children[..k], |old(storage.history)|,
                          |storage.history|)
      {
        ghost var before := storage.history;
        ok := CheckChild(k);
        if !ok { return; }
        OneMoreSeen(before, storage.history, storage.user, staging.value, children, k, |old(storage.history)|);
      }
      Sequences.TakeAll(children);
      ok := true;
    }

    ghost predicate Plain()
      reads this
    {
      stagingName != "." && forall k :: 0 <= k < |children| ==> children[k].name != "."
    }

    /** What a passed `checkStorage` that began at `from` has seen. */
    ghost predicate Checked(from: nat)
      reads this, storage
    {
      && parent == Some(parentIdentity.ino)
      && SeenUnder(storage.history, ABOVE, parentPath, parentIdentity.ino, from, |storage.history|)
      && PrivateWithin(storage.history, storage.user, parentIdentity.ino, true, from, |storage.history|)
      && (staging.Some? ==>
            && staging == Some(stagingIdentity.ino)
            && PrivateWithin(storage.history, storage.user, stagingIdentity.ino, true, from, |storage.history|)
            && SeenUnder(storage.history, parentIdentity.ino, stagingName, stagingIdentity.ino, from, |storage.history|)
            && AllSeen(storage.history, storage.user, stagingIdentity.ino, children, from, |storage.history|))
    }

    /** The staging part of `checkStorage` that looks at the directory itself. */
    method CheckDirectory() returns (ok: bool)
      requires storage.Valid() && parent == Some(parentIdentity.ino) && staging.Some? && Plain()
      modifies storage`fs, storage`turns, storage`history
      ensures storage.Valid() && old(storage.history) < storage.history
      ensures storage.Calm() ==> storage.fs == old(storage.fs)
      ensures ok ==> staging == Some(stagingIdentity.ino)
      ensures ok ==> SeenUnder(storage.history, parentIdentity.ino, stagingName, stagingIdentity.ino,
                               |old(storage.history)|, |storage.history|)
      ensures ok ==>
                PrivateWithin(storage.history, storage.user, stagingIdentity.ino, true, |old(storage.history)|,
                              |storage.history|)
      ensures storage.Undisturbed(|old(storage.history)|) && Staged() ==> ok
    {
      ok := VerifyHandle(staging.value, stagingIdentity, true);
      if !ok { return; }
      ghost var verified := storage.history;
      var identity := storage.Stat(parent.value, stagingName);
      if identity.None? || !SameIdentity(identity.value, stagingIdentity) { return false; }
      assert Bound(storage.history[|storage.history| - 1], parentIdentity.ino, stagingName, stagingIdentity.ino);
      PrivateLater(verified, storage.history, storage.user, stagingIdentity.ino, true, |old(storage.history)|,
                   |verified|, |old(storage.history)|, |storage.history|);
    }

    /** The staging part of `checkStorage`. */
    method CheckStaging() returns (ok: bool)
      requires storage.Valid() && parent == Some(parentIdentity.ino) && staging.Some? && Plain()
      modifies storage`fs, storage`turns, storage`history
      ensures storage.Valid() && old(storage.history) < storage.history
      ensures storage.Calm() ==> storage.fs == old(storage.fs)
      ensures ok ==> staging == Some(stagingIdentity.ino)
      ensures ok ==> SeenUnder(storage.history, parentIdentity.ino, stagingName, stagingIdentity.ino,
                               |old(storage.history)|, |storage.history|)
      ensures ok ==> AllSeen(storage.history, storage.user, stagingIdentity.ino, children,
                             |old(storage.history)|, |storage.history|)
      ensures ok ==>
                PrivateWithin(storage.history, storage.user, stagingIdentity.ino, true, |old(storage.history)|,
                              |storage.history|)
      ensures storage.Undisturbed(|old(storage.history)|) && Staged() ==> ok
    {
      ok := CheckDirectory();
      if !ok { return; }
      ghost var seen := storage.history;
      ok := CheckChildren();
      if !ok { return; }
      SeenUnderLater(seen, storage.history, parentIdentity.ino, stagingName, stagingIdentity.ino,
                     |old(storage.history)|, |seen|, |old(storage.history)|, |storage.history|);
      AllSeenLater(storage.history, storage.history, storage.user, stagingIdentity.ino, children,
                   |seen|, |storage.history|, |old(storage.history)|, |storage.history|);
      PrivateLater(seen, storage.history, storage.user, stagingIdentity.ino, true, |old(storage.history)|, |seen|,
                   |old(storage.history)|, |storage.history|);
    }

    /** The parent part of `checkStorage`. */
    method CheckParent() returns (ok: bool)
      requires storage.Valid() && parent.Some?
      modifies storage`fs, storage`turns, storage`history
      ensures storage.Valid() && old(storage.history) < storage.history
      ensures storage.Calm() ==> storage.fs == old(storage.fs)
      ensures ok ==> parent == Some(parentIdentity.ino)
      ensures ok ==>
                SeenUnder(storage.history, ABOVE, parentPath, parentIdentity.ino, |old(storage.history)|,
                          |storage.history|)
      ensures ok ==>
                PrivateWithin(storage.history, storage.user, parentIdentity.ino, true, |old(storage.history)|,
                              |storage.history|)
      ensures ok && storage.Calm() ==> ParentCondition(storage.fs, Place()) == Intact
      ensures storage.Undisturbed(|old(storage.history)|) && Staged() ==> ok
    {
      ok := Reverify(parent.value, parentIdentity, true);
      if !ok { return; }
      ghost var start := storage.history;
      ok := VerifyParentPath();
      if !ok { return; }
      ghost var seen := storage.history;
      SeenUnderLater(seen, seen, ABOVE, parentPath, parentIdentity.ino, |start|, |seen|, |old(storage.history)|,
                     |seen|);
      PrivateLater(seen, seen, storage.user, parentIdentity.ino, true, |start|, |seen|, |old(storage.history)|, |seen|);
    }

    /** The check of the parent and then that of the staging directory make up the whole check. */
    lemma CheckedTogether(before: seq<FS>, from: nat)
      requires before <= storage.history && from <= |before|
      requires parent == Some(parentIdentity.ino) && staging == Some(stagingIdentity.ino)
      requires SeenUnder(before, ABOVE, parentPath, parentIdentity.ino, from, |before|)
      requires PrivateWithin(before, storage.user, parentIdentity.ino, true, from, |before|)
      requires SeenUnder(storage.history, parentIdentity.ino, stagingName, stagingIdentity.ino, |before|,
                         |storage.history|)
      requires AllSeen(storage.history, storage.user, stagingIdentity.ino, children, |before|, |storage.history|)
      requires PrivateWithin(storage.history, storage.user, stagingIdentity.ino, true, |before|, |storage.history|)
      ensures Checked(from)
    {
      var after, user := storage.history, storage.user;
      SeenUnderLater(before, after, ABOVE, parentPath, parentIdentity.ino, from, |before|, from, |after|);
      SeenUnderLater(after, after, parentIdentity.ino, stagingName, stagingIdentity.ino, |before|, |after|, from,
                     |after|);
      AllSeenLater(after, after, user, stagingIdentity.ino, children, |before|, |after|, from, |after|);
      PrivateLater(before, after, user, parentIdentity.ino, true, from, |before|, from, |after|);
      PrivateLater(after, after, user, stagingIdentity.ino, true, |before|, |after|, from, |after|);
    }

    /** `checkStorage` */
    method CheckStorage() returns (ok: bool)
      requires storage.Valid() && parent.Some? && Plain()
      modifies storage`fs, storage`turns, storage`history
      ensures storage.Valid() && old(storage.history) < storage.history
      ensures storage.Calm() ==> storage.fs == old(storage.fs)
      ensures ok ==> Checked(|old(storage.history)|)
      ensures ok && storage.Calm() ==>
                parent == Some(parentIdentity.ino) && ParentCondition(storage.fs, Place()) == Intact
      ensures storage.Undisturbed(|old(storage.history)|) && Staged() ==> ok
    {
      ok := CheckParent();
      if !ok || staging.None? { return; }
      ghost var before := storage.history;
      ok := CheckStaging();
      if ok { CheckedTogether(before, |old(storage.history)|); }
    }

    /** `check`: the caller's context may be cancelled, the background context never is. */
    method Check(background: bool) returns (ok: bool)
      requires storage.Valid() && parent.Some? && Plain()
      modifies storage`fs, storage`turns, storage`history
      ensures storage.Valid() && old(storage.history) < storage.history
      ensures storage.Calm() ==> storage.fs == old(storage.fs)
      ensures ok ==> Checked(|old(storage.history)|)
      ensures ok && storage.Calm() ==>
                parent == Some(parentIdentity.ino) && ParentCondition(storage.fs, Place()) == Intact
      ensures background && storage.Undisturbed(|old(storage.history)|) && Staged() ==> ok
    {
      ok := CheckStorage();
      var cancelled: bool := *;
      ok := ok && (background || !cancelled);
    }

    /** `check`, where only the verdict matters. */
    method Recheck() returns (ok: bool)
      requires storage.Valid() && parent.Some? && Plain()
      modifies storage`fs, storage`turns, storage`history
      ensures storage.Valid() && old(storage.history) < storage.history
      ensures storage.Calm() ==> storage.fs == old(storage.fs)
    {
      ok := Check(false);
    }

    /** `sync` */
    method Sync(i: Ino) returns (ok: bool)
      requires storage.Valid() && parent.Some? && Plain()
      modifies storage`fs, storage`turns, storage`history
      ensures storage.Valid() && old(storage.history) < storage.history
      ensures storage.Calm() ==> storage.fs == old(storage.fs)
    {
      ok := Recheck();
      if !ok { return; }
      var synced := storage.Sync(i);
      ok := Recheck();
      ok := ok && synced;
    }

    /** Opening the listing and reading it. */
    method ReadEntries() returns (entries: Option<seq<DirectoryEntry>>)
      requires storage.Valid() && staging == Some(stagingIdentity.ino)
      modifies storage`fs, storage`turns, storage`history
      ensures storage.Valid() && old(storage.history) < storage.history
      ensures storage.Calm() ==> storage.fs == old(storage.fs)
      ensures entries.Some? ==> ListingOf(storage.fs, stagingIdentity.ino, |children| + 1, entries.value)
      ensures storage.Undisturbed(|old(storage.history)|) ==>
                Fit(storage.fs, storage.user, stagingIdentity.ino, stagingIdentity, true) ==> entries.Some?
    {
      var listing := storage.Open(staging.value, ".");
      if listing.None? { return None; }
      var ok := Reverify(listing.value, stagingIdentity, true);
      if !ok { return None; }
      entries := storage.ReadDirectory(listing.value, |children| + 1);
    }

    /** Reading the listing at moment m, and comparing it with the children. */
    method ReadListing() returns (ok: bool, ghost m: nat)
      requires storage.Valid() && staging == Some(stagingIdentity.ino)
      modifies storage`fs, storage`turns, storage`history
      ensures storage.Valid() && old(storage.history) < storage.history
      ensures storage.Calm() ==> storage.fs == old(storage.fs)
      ensures ok ==>
                |old(storage.history)| <= m < |storage.history|
                && ListedAt(storage.history, stagingIdentity.ino, children, m)
      ensures storage.Undisturbed(|old(storage.history)|) && Staged() ==> ok
    {
      var entries := ReadEntries();
      m := |storage.history| - 1;
      if storage.Calm() && Staged() && entries.Some? { StagedListing(storage.fs, Place(), children, entries.value); }
      if entries.None? || |entries.value| != |children| { return false, m; }
      var known := Names(children);
      for k := 0 to |entries.value|
        invariant forall j :: 0 <= j < k ==> entries.value[j].name in known
      {
        if entries.value[k].name !in known || entries.value[k].kind != Regular { return false, m; }
      }
      CountedListing(storage.fs, stagingIdentity.ino, children, entries.value);
      ok := storage.Close();
    }

    /** `checkListing`: at one moment m the directory's names are exactly the children's, and every child is
        seen both before and after m. */
    method CheckListing(background: bool) returns (ok: bool, ghost m: nat)
      requires storage.Valid() && parent.Some? && staging.Some? && Plain()
      modifies storage`fs, storage`turns, storage`history
      ensures storage.Valid() && old(storage.history) < storage.history
      ensures storage.Calm() ==> storage.fs == old(storage.fs)
      ensures ok ==> |old(storage.history)| <= m < |storage.history|
      ensures ok ==> Listing(|old(storage.history)|, m)
      ensures background && storage.Undisturbed(|old(storage.history)|) && Staged() ==> ok
    {
      m := 0;
      ok := Check(background);
      if !ok { return; }
      ghost var before := storage.history;
      ok, m := ReadListing();
      ghost var between := storage.history;
      var after := Check(background);
      ok := ok && after;
      if ok {
        ListingSeen(before, between, storage.history, |old(storage.history)|, m);
      }
    }

    /** A passed `checkListing` that began at `from` and read the names at moment m. */
    ghost predicate Listing(from: nat, m: nat)
      reads this, storage
    {
      && parent == Some(parentIdentity.ino) && staging == Some(stagingIdentity.ino)
      && from <= m < |storage.history|
      && ListedAt(storage.history, stagingIdentity.ino, children, m)
      && AllSeen(storage.history, storage.user, stagingIdentity.ino, children, from, m)
      && AllSeen(storage.history, storage.user, stagingIdentity.ino, children, m, |storage.history|)
      && SeenUnder(storage.history, parentIdentity.ino, stagingName, stagingIdentity.ino, from, m)
      && SeenUnder(storage.history, parentIdentity.ino, stagingName, stagingIdentity.ino, m, |storage.history|)
      && SeenUnder(storage.history, ABOVE, parentPath, parentIdentity.ino, from, m)
      && SeenUnder(storage.history, ABOVE, parentPath, parentIdentity.ino, m, |storage.history|)
      && PrivateWithin(storage.history, storage.user, stagingIdentity.ino, true, from, m)
      && PrivateWithin(storage.history, storage.user, stagingIdentity.ino, true, m, |storage.history|)
    }

    lemma ListingSeen(before: seq<FS>, between: seq<FS>, after: seq<FS>, from: nat, m: nat)
      requires storage.history == after && before <= between <= after && from <= |before| <= m < |between|
      requires staging.Some? && parent == Some(parentIdentity.ino)
      requires SeenUnder(before, ABOVE, parentPath, parentIdentity.ino, from, |before|)
      requires SeenUnder(before, parentIdentity.ino, stagingName, stagingIdentity.ino, from, |before|)
      requires AllSeen(before, storage.user, stagingIdentity.ino, children, from, |before|)
      requires PrivateWithin(before, storage.user, stagingIdentity.ino, true, from, |before|)
      requires ListedAt(between, stagingIdentity.ino, children, m)
      requires Checked(|between|)
      ensures Listing(from, m)
    {
      var i, name, path := stagingIdentity.ino, stagingName, parentPath;
      SeenUnderLater(before, after, ABOVE, path, parentIdentity.ino, from, |before|, from, m);
      SeenUnderLater(after, after, ABOVE, path, parentIdentity.ino, |between|, |after|, m, |after|);
      SeenUnderLater(before, after, parentIdentity.ino, name, i, from, |before|, from, m);
      SeenUnderLater(after, after, parentIdentity.ino, name, i, |between|, |after|, m, |after|);
      AllSeenLater(before, after, storage.user, i, children, from, |before|, from, m);
      AllSeenLater(after, after, storage.user, i, children, |between|, |after|, m, |after|);
      PrivateLater(before, after, storage.user, i, true, from, |before|, from, m);
      PrivateLater(after, after, storage.user, i, true, |between|, |after|, m, |after|);
    }

    /** Where a read-back stands: `known` is the history up to the sighting of child k at `first`. */
    ghost predicate ReadingBack(k: nat, known: seq<FS>, contents: Bytes, first: nat)
      reads this, storage
    {
      && storage.Valid() && parent.Some? && staging == Some(stagingIdentity.ino) && Plain()
      && k < |children| && children[k].isSealed
      && known <= storage.history && Holds(known, storage.user, stagingIdentity.ino, children[k], contents, first)
    }

    /** A read and the check after it. */
    method GuardedRead(k: nat, offset: nat, length: nat, ghost known: seq<FS>, ghost contents: Bytes, ghost first: nat)
        returns (ok: bool, count: int, bytes: Bytes, status: Status)
      requires ReadingBack(k, known, contents, first)
      modifies storage`fs, storage`turns, storage`history
      ensures storage.Valid() && old(storage.history) < storage.history
      ensures storage.Calm() ==> storage.fs == old(storage.fs)
      ensures ok && 0 <= count <= length && status != Failed ==> |bytes| == count && ChunkOf(contents, offset, bytes)
    {
      count, bytes, status := storage.Read(children[k].identity.ino, offset, length);
      ghost var reading := storage.history;
      ghost var found := At(reading[|reading| - 1], children[k].identity.ino).data;
      ok := Check(false);
      if !ok { return; }
      assert found == At(storage.history[|reading| - 1], children[k].identity.ino).data;
      StoodUntil(known, storage.history, storage.user, stagingIdentity.ino, children, k, contents, first,
                 |reading| - 1, |reading|);
    }

    /** `directoryReader.Read`: one read between two checks, so the bytes are those of the sealed file. */
    method ReadChunk(k: nat, offset: nat, length: nat, ghost known: seq<FS>, ghost contents: Bytes, ghost first: nat)
        returns (ok: bool, bytes: Bytes, ended: bool)
      requires ReadingBack(k, known, contents, first) && length > 0
      modifies storage`fs, storage`turns, storage`history
      ensures storage.Valid() && old(storage.history) < storage.history
      ensures storage.Calm() ==> storage.fs == old(storage.fs)
      ensures ok ==> |bytes| <= length && (ended || bytes != []) && ChunkOf(contents, offset, bytes)
    {
      bytes, ended := [], false;
      ok := Recheck();
      if !ok { return; }
      var count, chunk, status;
      ok, count, chunk, status := GuardedRead(k, offset, length, known, contents, first);
      if !ok { return; }
      ok := Reverify(children[k].identity.ino, children[k].identity, false);
      if !ok { return; }
      if count < 0 || count > length || status == Failed { return false, bytes, ended; }
      if count == 0 && status == More { return false, bytes, ended; }
      bytes, ended := chunk, status == End;
    }

    /** The `io.ReadAll` of `readChild` with its limit of one byte beyond the expected length, and the comparison. */
    method ReadBack(k: nat, expected: Bytes, ghost known: seq<FS>, ghost contents: Bytes, ghost first: nat)
        returns (ok: bool)
      requires ReadingBack(k, known, contents, first) && |contents| == |expected|
      modifies storage`fs, storage`turns, storage`history
      ensures storage.Valid() && old(storage.history) < storage.history
      ensures storage.Calm() ==> storage.fs == old(storage.fs)
      ensures ok ==> contents == expected
    {
      var actual: Bytes := [];
      var ended := false;
      while !ended && |actual| < |expected| + 1
        invariant ReadingBack(k, known, contents, first) && old(storage.history) <= storage.history
        invariant storage.Calm() ==> storage.fs == old(storage.fs)
        invariant |actual| <= |expected| + 1 && actual <= contents
        decreases !ended, |expected| + 1 - |actual|
      {
        var size: int :| 0 < size;
        var length := if size < |expected| + 1 - |actual| then size else |expected| + 1 - |actual|;
        var bytes;
        ok, bytes, ended := ReadChunk(k, |actual|, length, known, contents, first);
        if !ok { return; }
        actual := actual + bytes;
      }
      ok := Recheck();
      ok := ok && actual == expected;
    }

    /** `readChild` from the opening of the file on. */
    method ReadOpened(k: nat, expected: Bytes, ghost known: seq<FS>, ghost contents: Bytes, ghost first: nat)
        returns (ok: bool)
      requires ReadingBack(k, known, contents, first)
      modifies storage`fs, storage`turns, storage`history
      ensures storage.Valid() && old(storage.history) < storage.history
      ensures storage.Calm() ==> storage.fs == old(storage.fs)
      ensures ok ==> contents == expected
    {
      var file := storage.Open(staging.value, children[k].name);
      if file.None? { return false; }
      ok := Reverify(file.value, children[k].identity, false);
      ok := ok && children[k].identity.size == |expected|;
      if ok {
        ok := ReadBack(k, expected, known, contents, first);
      }
      var closed := storage.Close();
      var after := Recheck();
      ok := ok && closed && after;
    }

    /** `readChild`: reads the file back; on success a sealed child held exactly `expected`. */
    method ReadChild(k: nat, expected: Bytes) returns (ok: bool)
      requires storage.Valid() && parent.Some? && staging.Some? && Plain()
      requires k < |children| && children[k].isSealed
      modifies storage`fs, storage`turns, storage`history
      ensures storage.Valid() && old(storage.history) < storage.history
      ensures storage.Calm() ==> storage.fs == old(storage.fs)
      ensures ok ==> HeldWithin(storage.history, storage.user, stagingIdentity.ino, children[k], expected,
                                |old(storage.history)|, |storage.history|)
    {
      ok := Check(false);
      if !ok { return; }
      ghost var known := storage.history;
      assert SeenWithin(known, storage.user, stagingIdentity.ino, children[k], |old(storage.history)|, |known|);
      ghost var first :| |old(storage.history)| <= first < |known|
                         && ChildSeen(known, storage.user, stagingIdentity.ino, children[k], first);
      ghost var contents := At(known[first], children[k].identity.ino).data;
      ok := ReadOpened(k, expected, known, contents, first);
      assert ok ==> Holds(storage.history, storage.user, stagingIdentity.ino, children[k], expected, first);
    }

    /** What each state of the fields means: what this run created, and, when nobody else changes anything, what there
        is. */
    ghost predicate Tidy()
      reads this, storage
    {
      && (stagingName != "" ==> parent.Some?)
      && (stagingPinned ==> staging.Some? && stagingName != "")
      && Ownership(stagingName) == Here
      && (storage.Calm() && parent.Some? && stagingName == "" ==> At(storage.fs, parent.value).names == initial)
      && (storage.Calm() && stagingPinned && !uncertain ==> Staged())
    }

    /** What this run has added and written, under interference as well: nothing before there is a staging directory,
        which was added under this name; then that and the children. */
    ghost predicate Own(name: string)
      reads this, storage
    {
      && began <= |storage.additions| && WrittenOf(storage.writes, wrote, storage.additions, began) == Here
      && (name == "" ==> |storage.additions| == began && |storage.writes| == wrote)
      && (name == "" ==> children == [] && !stagingPinned && !uncertain)
      && (name != "" ==> parent == Some(parentIdentity.ino) && began < |storage.additions|)
      && (name != "" ==> AddedOf(storage.additions, began, parentIdentity.ino, name, stagingIdentity.ino, children,
                                 uncertain) == Here)
      && (stagingPinned && name != "" ==> staging == Some(stagingIdentity.ino)
                                          && Pinned(storage.history, storage.additions[began], pin,
                                                    stagingIdentity.ino))
      && (children != [] || uncertain ==> stagingPinned)
    }

    ghost function Ownership(name: string): Origin
      reads this, storage
    {
      if Own(name) then Here else Elsewhere
    }

    /** What the run has staged is there and intact. */
    ghost predicate Staged()
      reads this, storage
    {
      parent == Some(parentIdentity.ino) && staging == Some(stagingIdentity.ino)
      && ConditionOf(storage.fs, Place(), children) == Intact
    }

    /** Exclusive creation of a private file, and what the handle says of it. */
    method CreateFile(name: string) returns (file: Option<Ino>, identity: Option<FileSystem.Stat>)
      requires storage.Valid() && staging.Some? && name != "."
      modifies storage`fs, storage`turns, storage`history, storage`additions
      ensures storage.Valid() && old(storage.history) < storage.history
      ensures file.None? ==>
                storage.additions == old(storage.additions) && (storage.Calm() ==> storage.fs == old(storage.fs))
      ensures file.Some? ==>
                |storage.additions| == |old(storage.additions)| + 1 && old(storage.additions) <= storage.additions
      ensures file.Some? ==> var a := storage.additions[|old(storage.additions)|];
                             a.directory == staging.value && a.name == name && a.kind == Regular && a.ino == file.value
      ensures identity.Some? ==> file.Some? && identity.value.ino == file.value
      ensures identity.Some? && storage.Calm() ==>
                ChangeOf(old(storage.fs), storage.fs, storage.user, staging.value, name, identity.value, Regular,
                         PRIVATE_FILE) == OnlyNew
    {
      file, identity := None, None;
      var created := storage.CreateExclusive(staging.value, name, Regular, PRIVATE_FILE);
      if !created.Created? { return; }
      file := Some(created.ino);
      identity := storage.Fstat(created.ino);
    }

    /** One more file was added: as a child, or without certainty. */
    lemma OneMoreOwn(additions: seq<Addition>, child: Child)
      requires stagingName != "" && began < |additions| && |storage.additions| == |additions| + 1
      requires additions <= storage.additions
      requires AddedOf(additions, began, parentIdentity.ino, stagingName, stagingIdentity.ino, children, false) == Here
      requires WrittenOf(storage.writes, wrote, additions, began) == Here
      requires var a := storage.additions[|additions|]; a.directory == stagingIdentity.ino && a.kind == Regular
      ensures WrittenOf(storage.writes, wrote, storage.additions, began) == Here
      ensures AddedOf(storage.additions, began, parentIdentity.ino, stagingName, stagingIdentity.ino, children,
                      true) == Here
      ensures var a := storage.additions[|additions|];
              a.name == child.name && a.ino == child.identity.ino ==>
                AddedOf(storage.additions, began, parentIdentity.ino, stagingName, stagingIdentity.ino,
                        children + [child], false) == Here
    {
      assert storage.additions == additions + [storage.additions[|additions|]];
      WrittenLater(storage.writes, wrote, additions, storage.additions, began);
      OneMoreAdded(additions, storage.additions[|additions|], began, parentIdentity.ino, stagingName,
                   stagingIdentity.ino, children, child);
    }

    /** `writeChild`: exclusive creation and adoption of the new file. */
    method AdoptChild(name: string) returns (ok: bool)
      requires storage.Valid() && parent.Some? && staging.Some? && stagingPinned && !uncertain && !published
      requires Plain() && Tidy() && name != "."
      modifies this`children, this`uncertain, storage`fs, storage`turns, storage`history, storage`additions
      ensures storage.Valid() && old(storage.history) < storage.history
              && old(storage.additions) <= storage.additions && Plain() && Tidy()
      ensures !ok ==> children == old(children)
      ensures ok ==> !uncertain && |children| == |old(children)| + 1 && old(children) <= children
      ensures ok ==> children[|old(children)|].name == name && !children[|old(children)|].isSealed
      ensures ok ==>
                ChildAdded(storage.additions, |old(storage.additions)|, stagingIdentity.ino, children[|old(children)|])
    {
      ghost var before, additions := storage.fs, storage.additions;
      var file, identity := CreateFile(name);
      if file.None? { return false; }
      var child := Child(name, if identity.Some? then identity.value else NO_STAT, false);
      OneMoreOwn(additions, child);
      if identity.None? {
        uncertain := true;
        return false;
      }
      assert ChildAdded(storage.additions, |additions|, stagingIdentity.ino, child);
      if storage.Calm() { CreationAddsChild(before, storage.fs, Place(), children, child); }
      children := children + [child];
      ok := true;
    }

    /** `writeChild`: writing and syncing of the last child, between two looks at its handle. */
    method FillChild(contents: Bytes) returns (ok: bool)
      requires storage.Valid() && parent.Some? && Plain() && Tidy() && children != []
               && !children[|children| - 1].isSealed && !uncertain
      modifies storage`fs, storage`turns, storage`history, storage`writes
      ensures storage.Valid() && old(storage.history) < storage.history && Tidy()
    {
      var child := children[|children| - 1];
      ok := Reverify(child.identity.ino, child.identity, false);
      if !ok { return; }
      ok := Recheck();
      if !ok { return; }
      ok := WriteContents(contents);
      if !ok { return; }
      ok := Reverify(child.identity.ino, child.identity, false);
    }

    /** `writeChild`: sealing of the last child with its final metadata. */
    method SealChild() returns (ok: bool)
      requires storage.Valid() && Plain() && Tidy() && children != [] && !uncertain
      modifies this`children, storage`fs, storage`turns, storage`history
      ensures storage.Valid() && old(storage.history) < storage.history && Plain() && Tidy()
      ensures Renewed(old(children), children)
      ensures ok ==> children[|children| - 1].isSealed
    {
      var last := |children| - 1;
      var identity := storage.Fstat(children[last].identity.ino);
      if identity.None? { return false; }
      var final := Child(children[last].name, identity.value, true);
      SameNames(children, children[last := final]);
      SealingKeepsAdded(storage.additions, began, parentIdentity.ino, stagingName, stagingIdentity.ino, children,
                        final);
      if storage.Calm() { SealingKeepsStaged(storage.fs, Place(), children, final); }
      children := children[last := final];
      ok := true;
    }

    /** The write to the last child, the checks around it and the sync. */
    method WriteContents(contents: Bytes) returns (ok: bool)
      requires storage.Valid() && parent.Some? && Plain() && Tidy() && children != []
               && !children[|children| - 1].isSealed && !uncertain
      modifies storage`fs, storage`turns, storage`history, storage`writes
      ensures storage.Valid() && old(storage.history) < storage.history && Tidy()
    {
      ghost var before, writes := storage.fs, storage.writes;
      var i := children[|children| - 1].identity.ino;
      var count, written := storage.Write(i, contents);
      OneMoreWritten(writes, wrote, storage.additions, began, parentIdentity.ino, stagingName, stagingIdentity.ino,
                     children);
      if storage.Calm() { WritingKeepsStaged(before, Place(), children, contents[..count]); }
      var after := Recheck();
      ok := written && count == |contents| && after;
      if !ok { return; }
      ok := Sync(i);
    }

    /** `writeChild` from the adoption of the new file to its closing. */
    method CompleteChild(contents: Bytes) returns (ok: bool)
      requires storage.Valid() && parent.Some? && Plain() && Tidy() && children != []
               && !children[|children| - 1].isSealed && !uncertain
      modifies this`children, storage`fs, storage`turns, storage`history, storage`writes
      ensures storage.Valid() && old(storage.history) < storage.history && Plain() && Tidy()
      ensures Renewed(old(children), children)
      ensures ok ==> children[|children| - 1].isSealed
    {
      ok := FillChild(contents);
      if ok { ok := SealChild(); }
      var closed := storage.Close();
      ok := ok && closed;
    }

    /** `writeChild` up to the closing of the file. */
    method CreateChild(input: PrivateFile) returns (ok: bool)
      requires storage.Valid() && parent.Some? && staging.Some? && stagingPinned && !uncertain && !published
      requires Plain() && Tidy() && input.name != "."
      modifies this`children, this`uncertain, storage`fs, storage`turns, storage`history, storage`additions
      modifies storage`writes
      ensures storage.Valid() && old(storage.history) < storage.history
              && old(storage.additions) <= storage.additions && Plain() && Tidy()
      ensures children == old(children) || OneMoreChild(old(children), children, input.name)
      ensures ok ==> !uncertain && |children| == |old(children)| + 1 && children[..|old(children)|] == old(children)
      ensures ok ==> children[|old(children)|].name == input.name && children[|old(children)|].isSealed
      ensures ok ==>
                ChildAdded(storage.additions, |old(storage.additions)|, stagingIdentity.ino, children[|old(children)|])
    {
      ok := AdoptChild(input.name);
      if !ok { return; }
      ok := CompleteChild(input.contents);
    }

    /** `writeChild` */
    method WriteChild(input: PrivateFile) returns (ok: bool)
      requires storage.Valid() && parent.Some? && staging.Some? && stagingPinned && !uncertain && !published
      requires Plain() && Tidy() && input.name != "."
      modifies this`children, this`uncertain, storage`fs, storage`turns, storage`history, storage`additions
      modifies storage`writes
      ensures storage.Valid() && old(storage.history) < storage.history
              && old(storage.additions) <= storage.additions && Plain() && Tidy()
      ensures children == old(children) || OneMoreChild(old(children), children, input.name)
      ensures ok ==> !uncertain && |children| == |old(children)| + 1 && children[..|old(children)|] == old(children)
      ensures ok ==> children[|old(children)|].name == input.name && children[|old(children)|].isSealed
      ensures ok ==>
                ChildAdded(storage.additions, |old(storage.additions)|, stagingIdentity.ino, children[|old(children)|])
      ensures ok ==>
                HeldWithin(storage.history, storage.user, stagingIdentity.ino, children[|old(children)|],
                           input.contents, |old(storage.history)|, |storage.history|)
    {
      ok := Recheck();
      if !ok { return; }
      ok := CreateChild(input);
      if !ok { return; }
      ok := Recheck();
      if !ok { return; }
      ghost var from := |storage.history|;
      ok := ReadChild(|children| - 1, input.contents);
      if ok {
        HeldWider(storage.history, storage.user, stagingIdentity.ino, children[|children| - 1], input.contents, from,
                  |old(storage.history)|);
      }
    }

    /** `createStaging`: a few attempts to make a new private directory. */
    method CreateStaging() returns (ok: bool)
      requires storage.Valid() && parent.Some? && staging.None? && !published && stagingName == "" && !stagingPinned
      requires children == [] && !uncertain && Tidy()
      modifies this`staging, this`stagingName, this`stagingIdentity, this`stagingPinned, this`pin
      modifies storage`fs, storage`turns, storage`history, storage`additions
      ensures storage.Valid() && old(storage.history) <= storage.history
              && old(storage.additions) <= storage.additions && Plain() && Tidy()
      ensures ok ==> staging.Some? && stagingPinned
      ensures NamingOf(stagingName) == Ours
    {
      for attempt := 0 to 10
        invariant storage.Valid() && old(storage.history) <= storage.history && Plain() && Tidy()
        invariant old(storage.additions) <= storage.additions
        invariant staging.None? && stagingName == "" && !stagingPinned
      {
        var text: string := *;
        var name := StagingName(text);
        var created := AttemptStaging(name);
        if created.Refused? { return false; }
        if created.Created? {
          ok := stagingPinned;
          if ok { ok := Recheck(); }
          return;
        }
      }
      ok := false;
    }

    /** One attempt of `createStaging`. */
    method AttemptStaging(name: string) returns (created: Creation)
      requires storage.Valid() && parent.Some? && staging.None? && !published && stagingName == "" && !stagingPinned
      requires children == [] && !uncertain && Tidy() && |name| > 1
      modifies this`staging, this`stagingName, this`stagingIdentity, this`stagingPinned, this`pin
      modifies storage`fs, storage`turns, storage`history, storage`additions
      ensures storage.Valid() && old(storage.history) < storage.history
              && old(storage.additions) <= storage.additions && Plain() && Tidy()
      ensures !created.Created? ==> staging.None? && stagingName == "" && !stagingPinned
      ensures stagingPinned ==> staging.Some?
      ensures stagingName == "" || stagingName == name
    {
      var ok := Check(false);
      if !ok { return Refused; }
      created := MakeStaging(name);
    }

    /** After a successful creation, proof that the handle is on what the name leads to. */
    method MakeStaging(name: string) returns (created: Creation)
      requires storage.Valid() && parent == Some(parentIdentity.ino) && staging.None? && !published
               && stagingName == "" && !stagingPinned
      requires children == [] && !uncertain && Tidy() && |name| > 1
      requires storage.Calm() ==> ParentCondition(storage.fs, Place()) == Intact
      modifies this`staging, this`stagingName, this`stagingIdentity, this`stagingPinned, this`pin
      modifies storage`fs, storage`turns, storage`history, storage`additions
      ensures storage.Valid() && old(storage.history) < storage.history
              && old(storage.additions) <= storage.additions && Plain() && Tidy()
      ensures !created.Created? ==> staging.None? && stagingName == "" && !stagingPinned
      ensures stagingPinned ==> staging.Some?
      ensures stagingName == "" || stagingName == name
    {
      ghost var before, additions := storage.fs, storage.additions;
      var identity, directory, pinned;
      ghost var first;
      created, identity, directory, pinned, first := CreateDirectory(name);
      if !created.Created? { return; }
      AdoptStaging(name, identity, directory, pinned, first, before);
    }

    /** What a successful creation leaves in the fields. */
    method AdoptStaging(name: string, identity: FileSystem.Stat, directory: Option<Ino>, pinned: bool,
                        ghost first: nat, ghost before: FS)
      requires storage.Valid() && parent == Some(parentIdentity.ino) && children == [] && !uncertain && |name| > 1
      requires JustAdded(name) && (pinned ==> directory == Some(identity.ino))
      requires pinned ==> Pinned(storage.history, storage.additions[began], first, identity.ino)
      requires storage.Calm() ==>
                 ParentCondition(before, Place()) == Intact && At(before, parentIdentity.ino).names == initial
      requires storage.Calm() && pinned ==>
                 ChangeOf(before, storage.fs, storage.user, parentIdentity.ino, name, identity, Directory,
                          PRIVATE_DIRECTORY) == OnlyNew
      modifies this`staging, this`stagingName, this`stagingIdentity, this`stagingPinned, this`pin
      ensures Plain() && Tidy() && stagingPinned == pinned && staging == directory && stagingName == name
    {
      stagingName, stagingIdentity, staging, stagingPinned := name, identity, directory, pinned;
      pin := first;
      JustOwned();
      if storage.Calm() && stagingPinned { JustStaged(before); }
    }

    /** The run has added this one directory, and written nothing. */
    ghost predicate JustAdded(name: string)
      reads this, storage
    {
      && |storage.additions| == began + 1 && storage.additions[began].directory == parentIdentity.ino
      && storage.additions[began].name == name && storage.additions[began].kind == Directory
      && |storage.writes| == wrote
    }

    lemma JustOwned()
      requires stagingName != "" && children == [] && !uncertain && parent == Some(parentIdentity.ino)
      requires JustAdded(stagingName) && (stagingPinned ==> staging == Some(stagingIdentity.ino))
      requires stagingPinned ==> Pinned(storage.history, storage.additions[began], pin, stagingIdentity.ino)
      ensures Ownership(stagingName) == Here
    {
      DirectoryJustAdded(storage.additions, began, parentIdentity.ino, stagingName, stagingIdentity.ino);
    }

    lemma JustStaged(before: FS)
      requires children == [] && stagingName != "." && parent == Some(parentIdentity.ino)
               && staging == Some(stagingIdentity.ino)
      requires ParentCondition(before, Place()) == Intact && At(before, parentIdentity.ino).names == initial
      requires ChangeOf(before, storage.fs, storage.user, parentIdentity.ino, stagingName, stagingIdentity,
                        Directory, PRIVATE_DIRECTORY) == OnlyNew
      ensures Staged()
    {
      CreationStages(before, storage.fs, Place());
    }

    /** The first look at what the name leads to, and a handle checked against it. */
    method LookAtStaging(name: string)
        returns (identity: FileSystem.Stat, directory: Option<Ino>, pinned: bool, ghost first: nat)
      requires storage.Valid() && parent.Some? && |name| > 1
      modifies storage`fs, storage`turns, storage`history
      ensures storage.Valid() && old(storage.history) < storage.history
      ensures storage.Calm() ==> storage.fs == old(storage.fs)
      ensures pinned ==> directory == Some(identity.ino) && |old(storage.history)| <= first < |storage.history|
      ensures pinned ==> Bound(storage.history[first], parent.value, name, identity.ino)
      ensures pinned && storage.Calm() ==>
                Bound(storage.fs, parent.value, name, identity.ino) && identity == StatOf(storage.fs, identity.ino)
    {
      identity, directory, pinned, first := NO_STAT, None, false, 0;
      var found := storage.Stat(parent.value, name);
      first := |storage.history| - 1;
      if found.None? { return; }
      identity := found.value;
      assert Bound(storage.history[first], parent.value, name, identity.ino);
      directory := storage.Open(parent.value, name);
      if directory.None? { return; }
      pinned := Reverify(directory.value, identity, true);
    }

    /** Exclusive creation of a private directory, the first look at what its name leads to, and a handle checked
        against it. */
    method CreateDirectory(name: string)
        returns (created: Creation, identity: FileSystem.Stat, directory: Option<Ino>, pinned: bool, ghost first: nat)
      requires storage.Valid() && parent.Some? && |name| > 1
      modifies storage`fs, storage`turns, storage`history, storage`additions
      ensures storage.Valid() && old(storage.history) < storage.history
      ensures !created.Created? ==>
                storage.additions == old(storage.additions) && (storage.Calm() ==> storage.fs == old(storage.fs))
      ensures created.Created? ==>
                |storage.additions| == |old(storage.additions)| + 1 && old(storage.additions) <= storage.additions
      ensures created.Created? ==> var a := storage.additions[|old(storage.additions)|];
                a.directory == parent.value && a.name == name && a.kind == Directory && a.ino == created.ino
      ensures pinned ==> created.Created? && directory == Some(identity.ino)
      ensures pinned ==> Pinned(storage.history, storage.additions[|old(storage.additions)|], first, identity.ino)
      ensures pinned && storage.Calm() ==>
                ChangeOf(old(storage.fs), storage.fs, storage.user, parent.value, name, identity, Directory,
                         PRIVATE_DIRECTORY) == OnlyNew
    {
      identity, directory, pinned, first := NO_STAT, None, false, 0;
      created := storage.CreateExclusive(parent.value, name, Directory, PRIVATE_DIRECTORY);
      if !created.Created? { return; }
      identity, directory, pinned, first := LookAtStaging(name);
    }

    // -------------------------------------------------------------- cleanup

    /** `cleanup`: the child must open as the object that was sealed. */
    method OpensAsSealed(k: nat) returns (ok: bool)
      requires storage.Valid() && staging.Some? && k < |children|
      modifies storage`fs, storage`turns, storage`history
      ensures storage.Valid() && old(storage.history) < storage.history
      ensures storage.Calm() ==> storage.fs == old(storage.fs)
      ensures storage.Undisturbed(|old(storage.history)|) && Staged() ==> ok
    {
      assert Staged() ==> ChildIntact(storage.fs, Place(), children[k]);
      var file := storage.Open(staging.value, children[k].name);
      if file.None? { return false; }
      ok := Reverify(file.value, children[k].identity, false);
      var closed := storage.Close();
      ok := ok && closed;
    }

    /** `cleanup`: each child must be sealed and must open as the object that was sealed. */
    method VerifyOwned() returns (ok: bool)
      requires storage.Valid() && staging.Some?
      modifies storage`fs, storage`turns, storage`history
      ensures storage.Valid() && old(storage.history) <= storage.history
      ensures storage.Calm() ==> storage.fs == old(storage.fs)
      ensures ok ==> AllSealed(children)
      ensures storage.Undisturbed(|old(storage.history)|) && Staged() && AllSealed(children) ==> ok
    {
      for k := 0 to |children|
        invariant storage.Valid() && old(storage.history) <= storage.history
        invariant storage.Calm() ==> storage.fs == old(storage.fs)
        invariant AllSealed(children[..k])
      {
        if !children[k].isSealed { return false; }
        ok := OpensAsSealed(k);
        if !ok { return; }
        Sequences.TakeNext(children, k);
      }
      Sequences.TakeAll(children);
      ok := true;
    }

    /** The unlinking of the last child. */
    method UnlinkLast() returns (ok: bool)
      requires storage.Valid() && parent.Some? && staging.Some? && children != []
      requires storage.Calm() ==> Staged()
      modifies this`children, storage`fs, storage`turns, storage`history, storage`removals
      ensures storage.Valid() && old(storage.history) < storage.history
      ensures !ok ==> storage.removals == old(storage.removals) && children == old(children)
      ensures ok ==> children == old(children)[..|old(children)| - 1]
      ensures storage.Calm() ==> Staged()
      ensures storage.Undisturbed(|old(storage.history)|) ==> ok
      ensures ok ==> |storage.removals| == |old(storage.removals)| + 1 && old(storage.removals) <= storage.removals
      ensures ok ==>
                RemovedBy(storage.removals[|old(storage.removals)|], staging.value,
                          old(children)[|old(children)| - 1].name, false, |old(storage.history)|, storage.history)
    {
      var child := children[|children| - 1];
      ghost var before := storage.fs;
      assert storage.Calm() ==> ChildIntact(before, Place(), child);
      ok := storage.Unlink(staging.value, child.name, false);
      if !ok { return; }
      children := children[..|children| - 1];
      if storage.Calm() { UnlinkKeepsStaged(before, Place(), old(children)); }
    }

    /** The check before the last child goes, of which its sighting matters. */
    method CheckLast() returns (ok: bool)
      requires storage.Valid() && parent.Some? && Plain() && children != []
      requires staging.Some? && (storage.Calm() ==> Staged())
      modifies storage`fs, storage`turns, storage`history
      ensures storage.Valid() && old(storage.history) < storage.history
      ensures storage.Calm() ==> Staged()
      ensures storage.Undisturbed(|old(storage.history)|) ==> ok
      ensures ok ==> staging == Some(stagingIdentity.ino)
      ensures ok ==> SeenWithin(storage.history, storage.user, stagingIdentity.ino, children[|children| - 1],
                                |old(storage.history)|, |storage.history|)
    {
      ok := CheckStorage();
    }

    /** One turn of the removing loop: check everything, then unlink the last child. */
    method RemoveLast() returns (ok: bool)
      requires storage.Valid() && parent.Some? && staging.Some? && Plain() && children != [] && AllSealed(children)
      requires storage.Calm() ==> Staged()
      modifies this`children, storage`fs, storage`turns, storage`history, storage`removals
      ensures storage.Valid() && old(storage.history) < storage.history && Plain()
      ensures !ok ==> storage.removals == old(storage.removals) && children == old(children)
      ensures ok ==> children == old(children)[..|old(children)| - 1]
      ensures storage.Calm() ==> Staged()
      ensures storage.Undisturbed(|old(storage.history)|) ==> ok
      ensures ok ==> |storage.removals| == |old(storage.removals)| + 1 && old(storage.removals) <= storage.removals
      ensures ok ==> OwnedChild(storage.history, storage.user, stagingIdentity.ino, old(children)[|old(children)| - 1],
                                storage.removals[|old(storage.removals)|], |old(storage.history)|)
    {
      ok := CheckLast();
      if !ok { return; }
      ghost var checked := storage.history;
      ok := UnlinkLast();
      if !ok { return; }
      OwnedAfterCheck(checked, storage.history, storage.user, stagingIdentity.ino, old(children)[|old(children)| - 1],
                      storage.removals[|old(storage.removals)|], |old(storage.history)|);
    }

    /** One more turn of the removing loop, after those that took the last ones of all the children. */
    method RemoveNext(ghost all: seq<Child>, ghost start: nat, ghost from: nat) returns (ok: bool)
      requires storage.Valid() && parent.Some? && staging.Some? && Plain() && children != [] && AllSealed(children)
      requires storage.Calm() ==> Staged()
      requires children <= all && start <= |storage.removals| && |storage.removals| - start == |all| - |children|
      requires OwnedChildren(storage.history, storage.user, stagingIdentity.ino, all, storage.removals, start, from)
      requires from <= |storage.history|
      requires |storage.removals| > start ==> storage.removals[|storage.removals| - 1].moment < |storage.history|
      modifies this`children, storage`fs, storage`turns, storage`history, storage`removals
      ensures storage.Valid() && old(storage.history) < storage.history && Plain()
      ensures old(storage.removals) <= storage.removals && |storage.removals| - start == |all| - |children|
      ensures ok ==> |children| < |old(children)|
      ensures children <= old(children)
      ensures |storage.removals| > start ==> storage.removals[|storage.removals| - 1].moment < |storage.history|
      ensures OwnedChildren(storage.history, storage.user, stagingIdentity.ino, all, storage.removals, start, from)
      ensures storage.Calm() ==> Staged()
      ensures storage.Undisturbed(|old(storage.history)|) ==> ok
    {
      ghost var history, removals := storage.history, storage.removals;
      ok := RemoveLast();
      OwnedLater(history, storage.history, storage.user, stagingIdentity.ino, all, removals, start, from);
      if !ok { return; }
      OneMoreOwned(storage.history, storage.user, stagingIdentity.ino, all, removals, storage.removals, start, from,
                   |history|);
    }

    /** The removing loop of `cleanup`: the children go one by one, last first. */
    method RemoveChildren(ghost from: nat) returns (ok: bool)
      requires storage.Valid() && parent.Some? && staging.Some? && Plain() && AllSealed(children)
      requires storage.Calm() ==> Staged()
      requires from <= |storage.history|
      modifies this`children, storage`fs, storage`turns, storage`history, storage`removals
      ensures storage.Valid() && old(storage.history) <= storage.history && Plain()
      ensures old(storage.removals) <= storage.removals
      ensures OwnedChildren(storage.history, storage.user, stagingIdentity.ino, old(children), storage.removals,
                            |old(storage.removals)|, from)
      ensures |storage.removals| - |old(storage.removals)| == |old(children)| - |children|
      ensures ok ==> children == [] && (storage.Calm() ==> Staged())
      ensures storage.Undisturbed(|old(storage.history)|) ==> ok
    {
      ghost var start := |storage.removals|;
      while children != []
        invariant storage.Valid() && old(storage.history) <= storage.history && Plain() && AllSealed(children)
        invariant old(storage.removals) <= storage.removals
        invariant children <= old(children) && |storage.removals| - start == |old(children)| - |children|
        invariant OwnedChildren(storage.history, storage.user, stagingIdentity.ino, old(children), storage.removals,
                                start, from)
        invariant |storage.removals| > start ==> storage.removals[|storage.removals| - 1].moment < |storage.history|
        invariant storage.Calm() ==> Staged()
        decreases |children|
      {
        ok := RemoveNext(old(children), start, from);
        if !ok { return; }
      }
      ok := true;
    }

    /** The removal of the empty staging directory, and the sync of the parent. */
    method UnlinkStaging() returns (ok: bool)
      requires storage.Valid() && parent.Some? && staging.Some? && children == []
      requires storage.Calm() ==> Staged()
      modifies storage`fs, storage`turns, storage`history, storage`removals
      ensures storage.Valid() && old(storage.history) < storage.history
      ensures storage.removals == old(storage.removals)
           || (|storage.removals| == |old(storage.removals)| + 1 && old(storage.removals) <= storage.removals
               && EmptyRemoved(storage.history, parent.value, stagingName, storage.removals[|old(storage.removals)|],
                               |old(storage.history)|))
      ensures storage.Undisturbed(|old(storage.history)|) ==> ok
      ensures ok && storage.Calm() ==> At(storage.fs, parent.value).names == initial
    {
      ghost var before := storage.fs;
      ok := storage.Unlink(parent.value, stagingName, true);
      if !ok { return; }
      if storage.Calm() { RemoveNames(before, parent.value, stagingName, parent.value); }
      ok := storage.Sync(parent.value);
    }

    /** The end of `cleanup`: a last check, then the empty staging directory itself. */
    method RemoveStaging() returns (ok: bool)
      requires storage.Valid() && parent.Some? && staging.Some? && Plain() && children == []
      requires storage.Calm() ==> Staged()
      modifies storage`fs, storage`turns, storage`history, storage`removals
      ensures storage.Valid() && old(storage.history) <= storage.history
      ensures storage.removals == old(storage.removals)
           || (|storage.removals| == |old(storage.removals)| + 1 && old(storage.removals) <= storage.removals
               && OwnedDirectory(storage.history, parentIdentity.ino, stagingName, stagingIdentity.ino,
                                 storage.removals[|old(storage.removals)|], |old(storage.history)|))
      ensures storage.Undisturbed(|old(storage.history)|) ==> ok
      ensures ok && storage.Calm() ==> At(storage.fs, parent.value).names == initial
    {
      ok := CheckStorage();
      if !ok { return; }
      ghost var checked, removals := storage.history, storage.removals;
      ok := UnlinkStaging();
      if storage.removals != removals {
        OwnedDirectoryAfterCheck(checked, storage.history, parentIdentity.ino, stagingName, stagingIdentity.ino,
                                 storage.removals[|removals|], |old(storage.history)|);
      }
    }

    /** Opening, listing and verifying of everything that `cleanup` does before it removes anything. */
    method PrepareCleanup() returns (ok: bool, ghost m: nat)
      requires storage.Valid() && parent.Some? && staging.Some? && Plain()
      modifies storage`fs, storage`turns, storage`history
      ensures storage.Valid() && old(storage.history) < storage.history
      ensures storage.Calm() ==> storage.fs == old(storage.fs)
      ensures ok ==> AllSealed(children)
      ensures ok ==>
                |old(storage.history)| <= m < |storage.history|
                && ListedAt(storage.history, stagingIdentity.ino, children, m)
      ensures storage.Undisturbed(|old(storage.history)|) && Staged() && AllSealed(children) ==> ok
    {
      ok, m := CheckListing(true);
      if !ok { return; }
      ok := VerifyOwned();
    }

    /** `cleanup` of a staging directory that was pinned and whose state is certain. */
    method CleanupPinned() returns (ok: bool)
      requires storage.Valid() && Plain() && parent.Some? && staging.Some? && (storage.Calm() ==> Staged())
      modifies this`children, storage`fs, storage`turns, storage`history, storage`removals
      ensures storage.Valid() && old(storage.history) <= storage.history && old(storage.removals) <= storage.removals
              && Plain()
      ensures CleanupIsOwned(storage.history, storage.user, parentIdentity.ino, stagingName, stagingIdentity.ino,
                             old(children), storage.removals, |old(storage.removals)|, |old(storage.history)|)
      ensures storage.Undisturbed(|old(storage.history)|) && AllSealed(old(children)) ==> ok
      ensures ok && storage.Calm() ==> At(storage.fs, parent.value).names == initial
    {
      ghost var start, from := |storage.removals|, |storage.history|;
      ghost var m;
      ok, m := PrepareCleanup();
      if !ok { return; }
      ghost var prepared := storage.history;
      ok := RemoveChildren(|prepared|);
      ghost var removed, removals := storage.history, storage.removals;
      OwnedChildrenAreOwned(prepared, removed, storage.user, parentIdentity.ino, stagingName, stagingIdentity.ino,
                            old(children), removals, start, from, m);
      if !ok { return; }
      ok := RemoveStaging();
      if storage.removals == removals {
        CleanupOwnedLater(removed, storage.history, storage.user, parentIdentity.ino, stagingName, stagingIdentity.ino,
                          old(children), removals, start, from);
      } else {
        CleanupOwnedDirectory(prepared, removed, storage.history, storage.user, parentIdentity.ino, stagingName,
                              stagingIdentity.ino, old(children), removals, storage.removals, start, from, m);
      }
    }

    /** `cleanup`: removes the staged files and directory if, and only as far as, they are this run's own. */
    method Cleanup() returns (ok: bool)
      requires storage.Valid() && Plain() && Tidy()
      modifies this`children, storage`fs, storage`turns, storage`history, storage`removals
      ensures storage.Valid() && old(storage.history) <= storage.history && old(storage.removals) <= storage.removals
              && Plain()
      ensures storage.Calm() && stagingName == "" ==> storage.fs == old(storage.fs)
      ensures CleanupIsOwned(storage.history, storage.user, parentIdentity.ino, stagingName, stagingIdentity.ino,
                             old(children), storage.removals, |old(storage.removals)|, |old(storage.history)|)
      ensures storage.removals != old(storage.removals) ==> stagingPinned && !uncertain
      ensures storage.Undisturbed(|old(storage.history)|) ==>
                (stagingName == "" || (stagingPinned && !uncertain && AllSealed(old(children)))) ==> ok
      ensures ok && storage.Calm() && parent.Some? ==> At(storage.fs, parent.value).names == initial
    {
      if stagingName == "" { return true; }
      if !stagingPinned || uncertain { return false; }
      ok := CleanupPinned();
    }

    // -------------------------------------------------------------- publication

    /** `verifyFiles` */
    method VerifyFiles(files: seq<PrivateFile>) returns (ok: bool)
      requires storage.Valid() && parent.Some? && staging.Some? && Plain() && Matches(children, files)
      modifies storage`fs, storage`turns, storage`history
      ensures storage.Valid() && old(storage.history) < storage.history
      ensures storage.Calm() ==> storage.fs == old(storage.fs)
      ensures ok ==> staging == Some(stagingIdentity.ino) && parent == Some(parentIdentity.ino)
      ensures ok ==>
                AllHeld(storage.history, storage.user, stagingIdentity.ino, children, files, |old(storage.history)|,
                        |storage.history|)
    {
      ghost var from, m := |storage.history|, 0;
      ok, m := CheckListing(false);
      if !ok { return; }
      for k := 0 to |files|
        invariant storage.Valid() && old(storage.history) < storage.history && from <= |storage.history|
        invariant storage.Calm() ==> storage.fs == old(storage.fs)
        invariant HeldSoFar(storage.history, storage.user, stagingIdentity.ino, children, files, k, from)
      {
        ghost var before := storage.history;
        ok := ReadChild(k, files[k].contents);
        if !ok { return; }
        OneMoreHeld(before, storage.history, storage.user, stagingIdentity.ino, children, files, k, from);
      }
      ghost var held := storage.history;
      ok, m := CheckListing(false);
      HeldLater(held, storage.history, storage.user, stagingIdentity.ino, children, files, |files|, from);
    }

    /** The listing through freshly opened handles on the parent and on the published directory. */
    method ProbeListing(above: Ino, directory: Ino) returns (ok: bool, ghost m: nat)
      requires storage.Valid() && Plain()
      modifies storage`fs, storage`turns, storage`history
      ensures storage.Valid() && old(storage.history) <= storage.history
      ensures ok ==> PublishedAt(|old(storage.history)|, m)
    {
      var probe := new DirectoryPublisher.Probe(this, above, directory);
      ok, m := probe.CheckListing(true);
    }

    /** The fresh handles of `checkPublished`. */
    method OpenPublished() returns (above: Option<Ino>, directory: Option<Ino>)
      requires storage.Valid()
      modifies storage`fs, storage`turns, storage`history
      ensures storage.Valid() && old(storage.history) < storage.history
    {
      directory := None;
      above := storage.Open(ABOVE, parentPath);
      if above.None? { return; }
      var ok := Reverify(above.value, parentIdentity, true);
      if ok { directory := storage.Open(above.value, stagingName); }
    }

    /** `checkPublished`: looks at the published directory through fresh handles. */
    method CheckPublished() returns (ok: bool, ghost m: nat)
      requires storage.Valid() && Plain()
      modifies storage`fs, storage`turns, storage`history
      ensures storage.Valid() && old(storage.history) <= storage.history
      ensures ok ==> PublishedAt(|old(storage.history)|, m)
    {
      m := 0;
      if parentPath == "." { return false, m; }
      var above, directory := OpenPublished();
      if above.None? || directory.None? { return false, m; }
      ghost var before := storage.history;
      ok, m := ProbeListing(above.value, directory.value);
      ghost var listed := storage.history;
      var closedDirectory := storage.Close();
      var closedParent := storage.Close();
      if ok {
        PublishedLater(before, listed, storage.history, |old(storage.history)|, m);
      }
      ok := ok && closedDirectory && closedParent;
    }

    /** At moment m the directory held exactly the children's names; the children, the directory's name and the
        parent's path were seen both between `from` and m and afterwards. */
    ghost predicate PublishedAt(from: nat, m: nat)
      reads this, storage
    {
      PublishedIn(storage.history, from, m)
    }

    ghost predicate PublishedIn(history: seq<FS>, from: nat, m: nat)
      reads this
    {
      && from <= m < |history|
      && ListedAt(history, stagingIdentity.ino, children, m)
      && AllSeen(history, storage.user, stagingIdentity.ino, children, m, |history|)
      && SeenUnder(history, parentIdentity.ino, stagingName, stagingIdentity.ino, from, m)
      && SeenUnder(history, parentIdentity.ino, stagingName, stagingIdentity.ino, m, |history|)
      && SeenUnder(history, ABOVE, parentPath, parentIdentity.ino, from, m)
      && SeenUnder(history, ABOVE, parentPath, parentIdentity.ino, m, |history|)
      && PrivateWithin(history, storage.user, stagingIdentity.ino, true, from, m)
      && PrivateWithin(history, storage.user, stagingIdentity.ino, true, m, |history|)
    }

    lemma PublishedLater(before: seq<FS>, listed: seq<FS>, after: seq<FS>, from: nat, m: nat)
      requires PublishedIn(listed, |before|, m) && from <= |before| && listed <= after
      ensures PublishedIn(after, from, m)
    {
      var i, name, path := stagingIdentity.ino, stagingName, parentPath;
      SeenUnderLater(listed, after, ABOVE, path, parentIdentity.ino, |before|, m, from, m);
      SeenUnderLater(listed, after, ABOVE, path, parentIdentity.ino, m, |listed|, m, |after|);
      SeenUnderLater(listed, after, parentIdentity.ino, name, i, |before|, m, from, m);
      SeenUnderLater(listed, after, parentIdentity.ino, name, i, m, |listed|, m, |after|);
      AllSeenLater(listed, after, storage.user, i, children, m, |listed|, m, |after|);
      PrivateLater(listed, after, storage.user, i, true, |before|, m, from, m);
      PrivateLater(listed, after, storage.user, i, true, m, |listed|, m, |after|);
    }

    /** At a moment from `from` on the parent's path led to it. */
    ghost predicate Placed(from: nat)
      reads this, storage
    {
      parent.Some? ==> from <= placed < |storage.history|
                       && Bound(storage.history[placed], ABOVE, parentPath, parent.value)
    }

    /** The run has not changed anything yet. */
    ghost predicate Fresh()
      reads this, storage
    {
      began == |storage.additions| && wrote == |storage.writes|
    }

    /** The parent's own look and the handle, both by its path. */
    method FindParent() returns (identity: Option<FileSystem.Stat>, found: Option<Ino>)
      requires storage.Valid() && parentPath != "."
      modifies storage`fs, storage`turns, storage`history
      ensures storage.Valid() && old(storage.history) < storage.history
      ensures storage.Calm() ==> storage.fs == old(storage.fs)
      ensures found.Some? ==> identity.Some? && Bound(storage.fs, ABOVE, parentPath, found.value)
    {
      found := None;
      identity := storage.Stat(ABOVE, parentPath);
      if identity.Some? { found := storage.Open(ABOVE, parentPath); }
    }

    /** The start of `publish`: the parent, observed by path and then opened. */
    method OpenParent() returns (ok: bool)
      requires storage.Valid() && parentPath != "." && parent.None? && stagingName == "" && !stagingPinned
      requires children == [] && !uncertain && Fresh()
      modifies this`parent, this`parentIdentity, this`initial, this`placed, storage`fs, storage`turns, storage`history
      ensures storage.Valid() && old(storage.history) < storage.history && Tidy() && Placed(|old(storage.history)|)
      ensures storage.Calm() ==> storage.fs == old(storage.fs)
      ensures ok ==> parent.Some?
      ensures parent.Some? && storage.Calm() ==> initial == At(old(storage.fs), parent.value).names
    {
      var identity, found := FindParent();
      if identity.Some? { parentIdentity := identity.value; }
      placed := |storage.history| - 1;
      parent := found;
      ok := found.Some?;
      if ok { initial := At(storage.fs, found.value).names; }
      FreshIsTidy();
    }

    lemma FreshIsTidy()
      requires stagingName == "" && !stagingPinned && children == [] && !uncertain && Fresh()
      requires parent.Some? ==> At(storage.fs, parent.value).names == initial
      ensures Tidy()
    {
    }

    /** The loop over `writeChild` in `publish`. */
    method WriteChildren(files: seq<PrivateFile>) returns (ok: bool)
      requires storage.Valid() && parent.Some? && staging.Some? && stagingPinned && !uncertain && !published
      requires Plain() && Tidy() && children == [] && forall f <- files :: f.name != "."
      modifies this`children, this`uncertain, storage`fs, storage`turns, storage`history, storage`additions
      modifies storage`writes
      ensures storage.Valid() && old(storage.history) <= storage.history
              && old(storage.additions) <= storage.additions && Plain() && Tidy()
      ensures Begun(children, files)
      ensures ok ==> Matches(children, files)
    {
      for k := 0 to |files|
        invariant storage.Valid() && old(storage.history) <= storage.history && Plain() && Tidy()
        invariant old(storage.additions) <= storage.additions
        invariant !uncertain && Matches(children, files[..k])
      {
        assert files[k] in files;
        ghost var before := children;
        ok := WriteChild(files[k]);
        BegunNext(before, children, files, k);
        if !ok { return; }
        MatchesNext(before, children, files, k);
      }
      Sequences.TakeAll(files);
      ok := true;
    }

    /** `publish` from `createStaging` up to the rename. */
    method FillStaging(files: seq<PrivateFile>) returns (ok: bool)
      requires storage.Valid() && parent.Some? && staging.None? && stagingName == "" && !stagingPinned
      requires children == [] && !uncertain && !published && Tidy() && forall f <- files :: f.name != "."
      modifies this`staging, this`stagingName, this`stagingIdentity, this`stagingPinned, this`pin
      modifies this`children, this`uncertain, storage`fs, storage`turns, storage`history, storage`additions
      modifies storage`writes
      ensures storage.Valid() && old(storage.history) <= storage.history
              && old(storage.additions) <= storage.additions && Plain() && Tidy()
      ensures Begun(children, files) && NamingOf(stagingName) == Ours
      ensures ok ==> Matches(children, files) && staging.Some? && stagingPinned
    {
      ok := CreateStaging();
      if !ok { return; }
      ok := WriteChildren(files);
      if !ok { return; }
      ok := Settle(files);
    }

    /** `publish` up to the creation of the staging directory: the parent, and that the name is free in it. */
    method Approach(leaf: string) returns (ok: bool)
      requires storage.Valid() && parentPath != "." && parent.None? && stagingName == "" && !stagingPinned
      requires children == [] && !uncertain && Fresh()
      modifies this`parent, this`parentIdentity, this`initial, this`placed, storage`fs, storage`turns, storage`history
      ensures storage.Valid() && old(storage.history) < storage.history && Tidy() && Placed(|old(storage.history)|)
      ensures storage.Calm() ==> storage.fs == old(storage.fs)
      ensures ok ==> parent.Some?
      ensures parent.Some? && storage.Calm() ==> initial == At(old(storage.fs), parent.value).names
    {
      ok := OpenParent();
      if !ok { return; }
      ok := Recheck();
      if !ok { return; }
      var taken := storage.Probe(parent.value, leaf);
      ok := taken == Absent;
    }

    /** `publish` up to the rename. */
    method Stage(leaf: string, files: seq<PrivateFile>) returns (ok: bool)
      requires storage.Valid() && parentPath != "." && parent.None? && staging.None? && stagingName == ""
               && !stagingPinned
      requires children == [] && !uncertain && !published && Fresh() && forall f <- files :: f.name != "."
      modifies this`parent, this`parentIdentity, this`initial, this`staging, this`stagingName, this`stagingIdentity
      modifies this`stagingPinned, this`children, this`uncertain, this`pin, this`placed
      modifies storage`fs, storage`turns, storage`history, storage`additions, storage`writes
      ensures storage.Valid() && old(storage.history) <= storage.history
              && old(storage.additions) <= storage.additions && Plain() && Tidy()
      ensures ok ==> Matches(children, files) && parent.Some? && staging.Some? && stagingPinned
      ensures Placed(|old(storage.history)|) && Begun(children, files)
      ensures NamingOf(stagingName) == Ours
      ensures parent.Some? && storage.Calm() ==> initial == At(old(storage.fs), parent.value).names
      ensures parent.None? && storage.Calm() ==> storage.fs == old(storage.fs)
    {
      ok := Approach(leaf);
      if !ok { return; }
      ok := FillStaging(files);
    }

    /** The read-backs, the two syncs and the last listing before the rename. */
    method Settle(files: seq<PrivateFile>) returns (ok: bool)
      requires storage.Valid() && parent.Some? && staging.Some? && Plain() && Tidy() && Matches(children, files)
      modifies storage`fs, storage`turns, storage`history
      ensures storage.Valid() && old(storage.history) <= storage.history && Tidy()
    {
      ok := VerifyFiles(files);
      if !ok { return; }
      ok := Sync(staging.value);
      if !ok { return; }
      ok := Sync(parent.value);
      if !ok { return; }
      ghost var m;
      ok, m := CheckListing(false);
    }

    /** `publish` from the rename on. */
    method Promote(leaf: string, files: seq<PrivateFile>) returns (ok: bool, ghost renamed: nat)
      requires storage.Valid() && Plain() && Tidy() && !published && Matches(children, files) && parent.Some?
               && staging.Some? && stagingPinned && leaf != "."
      modifies this`stagingName, this`published, storage`fs, storage`turns, storage`history, storage`renamings
      ensures storage.Valid() && old(storage.history) < storage.history && Plain()
      ensures !published ==>
                !ok && Tidy() && stagingName == old(stagingName) && storage.renamings == old(storage.renamings)
      ensures published ==> Promoted(old(stagingName), leaf, renamed) && |old(storage.history)| <= renamed
      ensures published ==>
                storage.renamings == old(storage.renamings)
                                     + [Renaming(parentIdentity.ino, old(stagingName), leaf, renamed)]
      ensures ok ==> published && stagingName == leaf
      ensures ok ==>
                AllHeld(storage.history, storage.user, stagingIdentity.ino, children, files, renamed, |storage.history|)
    {
      ok := storage.RenameExclusive(parent.value, stagingName, leaf);
      renamed := |storage.history| - 1;
      if !ok { return; }
      published := true;
      stagingName := leaf;
      ghost var from := storage.history;
      ok := VerifyFiles(files);
      if !ok { return; }
      ghost var held := storage.history;
      ok := Sync(parent.value);
      HeldEarlier(held, storage.history, storage.user, stagingIdentity.ino, children, files, |from|, renamed,
                  |storage.history|);
    }

    /** The directory that this run had added and pinned as `name` was renamed to `leaf` at this moment. */
    ghost predicate Promoted(name: string, leaf: string, renamed: nat)
      reads this, storage
    {
      && name != "" && parent == Some(parentIdentity.ino) && stagingPinned && Ownership(name) == Here
      && RenamedAt(storage.history, parentIdentity.ino, name, leaf, renamed)
    }

    /** The deferred closing of both handles. */
    method CloseHandles() returns (ok: bool)
      requires storage.Valid()
      modifies storage`fs, storage`turns, storage`history
      ensures storage.Valid() && old(storage.history) <= storage.history
      ensures storage.Calm() ==> storage.fs == old(storage.fs)
    {
      ok := true;
      if staging.Some? { ok := storage.Close(); }
      if parent.Some? {
        var closed := storage.Close();
        ok := ok && closed;
      }
    }

    /** `publish` between the opening of the parent and the deferred work. */
    method Run(leaf: string, files: seq<PrivateFile>) returns (ok: bool, ghost renamed: nat, ghost name: string)
      requires storage.Valid() && parentPath != "." && parent.None? && staging.None? && stagingName == ""
               && !stagingPinned && leaf != "."
      requires children == [] && !uncertain && !published && Fresh() && forall f <- files :: f.name != "."
      modifies this, storage`fs, storage`turns, storage`history, storage`additions, storage`writes, storage`renamings
      ensures storage.Valid() && old(storage.history) <= storage.history
              && old(storage.additions) <= storage.additions && Plain()
      ensures Placed(|old(storage.history)|) && Begun(children, files) && NamingOf(name) == Ours
      ensures !published ==> !ok && Tidy() && storage.renamings == old(storage.renamings) && stagingName == name
      ensures !published && storage.Calm() && parent.Some? ==> initial == At(old(storage.fs), parent.value).names
      ensures !published && storage.Calm() && parent.None? ==> storage.fs == old(storage.fs)
      ensures published ==>
                Promoted(name, leaf, renamed) && |old(storage.history)| <= renamed && Matches(children, files)
      ensures published ==>
                storage.renamings == old(storage.renamings) + [Renaming(parentIdentity.ino, name, leaf, renamed)]
      ensures ok ==> published && stagingName == leaf
      ensures ok ==>
                AllHeld(storage.history, storage.user, stagingIdentity.ino, children, files, renamed, |storage.history|)
    {
      renamed := 0;
      ok := Stage(leaf, files);
      name := stagingName;
      if !ok { return; }
      ok, renamed := Promote(leaf, files);
    }

    /** What the fields say of the run, which called its staging directory this. */
    ghost function RunAs(name: string, cleanupFrom: nat, renamed: nat): Outcome
      reads this
    {
      Outcome(published, parent, parentIdentity.ino, name, stagingIdentity.ino, stagingPinned, uncertain, children, pin,
              placed, cleanupFrom, renamed)
    }

    lemma RunWorked(name: string, files: seq<PrivateFile>, from: nat, cleanupFrom: nat, renamed: nat)
      requires Placed(from) && Begun(children, files) && NamingOf(name) == Ours && Ownership(name) == Here
      ensures WorkOf(storage.history, from, parentPath, files, RunAs(name, cleanupFrom, renamed)) == Here
    {
    }

    lemma OwnershipAccounts(run: Outcome)
      requires Ownership(run.stagingName) == Here && run == RunAs(run.stagingName, run.cleanupFrom, run.renamed)
      ensures AccountOf(storage.history, storage.additions, began, storage.writes, wrote, run) == Here
    {
    }

    /** What `publish` promises when it succeeds: it renamed, and has read every file back since. */
    ghost predicate Promised(leaf: string, files: seq<PrivateFile>, run: Outcome)
      reads this, storage
    {
      && run.published && run.renamed < |storage.history| && stagingName == leaf
      && run.parentIdentity == parentIdentity.ino && run.directory == stagingIdentity.ino && run.children == children
      && RenamedAt(storage.history, run.parentIdentity, run.stagingName, leaf, run.renamed)
      && Matches(run.children, files)
      && AllHeld(storage.history, storage.user, run.directory, run.children, files, run.renamed, |storage.history|)
    }

    /** `checkPublished` once more, after a `publish` that may have succeeded. */
    method CheckAgain(path: string, files: seq<PrivateFile>, ghost run: Outcome) returns (ok: bool, ghost m: nat)
      requires storage.Valid() && Plain() && Paths.CanonicalAbsolute(path) && parentPath == Paths.Directory(path)
      modifies storage`fs, storage`turns, storage`history
      ensures storage.Valid() && old(storage.history) <= storage.history
      ensures ok && old(Promised(Paths.Base(path), files, run)) ==>
                PublishedWhole(storage.history, storage.user, path, files, run, m)
    {
      ghost var held := storage.history;
      ghost var promised := Promised(Paths.Base(path), files, run);
      ok, m := CheckPublished();
      if ok && promised { PublishedIsWhole(held, path, files, run, m); }
    }

    lemma PublishedIsWhole(held: seq<FS>, path: string, files: seq<PrivateFile>, run: Outcome, instant: nat)
      requires storage.Valid() && held <= storage.history && Paths.CanonicalAbsolute(path)
      requires parentPath == Paths.Directory(path) && stagingName == Paths.Base(path) && Matches(run.children, files)
      requires run.parentIdentity == parentIdentity.ino && run.directory == stagingIdentity.ino
               && run.children == children
      requires AllHeld(held, storage.user, run.directory, run.children, files, run.renamed, |held|)
      requires RenamedAt(held, run.parentIdentity, run.stagingName, Paths.Base(path), run.renamed)
      requires PublishedIn(storage.history, |held|, instant)
      ensures PublishedWhole(storage.history, storage.user, path, files, run, instant)
    {
      WholeAtListing(held, storage.history, storage.user, path, files, run, instant);
    }

    /** The failed end of `publish`: cleanup, then the handles. */
    method Abandon(ghost renamed: nat) returns (ghost run: Outcome)
      requires storage.Valid() && Plain() && Tidy() && !published
      modifies this`children, storage`fs, storage`turns, storage`history, storage`removals
      ensures storage.Valid() && old(storage.history) <= storage.history && old(storage.removals) <= storage.removals
      ensures !run.published && Plain() && |old(storage.history)| <= run.cleanupFrom
      ensures run == old(RunAs(stagingName, run.cleanupFrom, renamed))
      ensures RemovalsOf(storage.history, storage.user, storage.removals, |old(storage.removals)|, run) == Here
      ensures AccountOf(storage.history, storage.additions, began, storage.writes, wrote, run) == Here
      ensures storage.Undisturbed(run.cleanupFrom) && run.AllSealed() && parent.Some? ==>
                At(storage.fs, parent.value).names == initial
      ensures storage.Calm() && stagingName == "" ==> storage.fs == old(storage.fs)
    {
      run := RunAs(stagingName, |storage.history|, renamed);
      OwnershipAccounts(run);
      ghost var before := storage.history;
      var cleaned := Cleanup();
      ghost var worked := storage.history;
      var closed := CloseHandles();
      CleanupOwnedLater(worked, storage.history, storage.user, run.parentIdentity, run.stagingName, run.directory,
                        run.children, storage.removals, |old(storage.removals)|, |before|);
      AccountLater(before, storage.history, storage.additions, began, storage.writes, wrote, run);
    }

    /** The end of `publish` after the rename: only the handles are left to be closed. */
    method Conclude(leaf: string, files: seq<PrivateFile>, verified: bool, ghost name: string, ghost renamed: nat)
        returns (ok: bool, ghost run: Outcome)
      requires storage.Valid() && published && Promoted(name, leaf, renamed) && Matches(children, files)
      requires verified ==> stagingName == leaf
      requires verified ==>
                 AllHeld(storage.history, storage.user, stagingIdentity.ino, children, files, renamed,
                         |storage.history|)
      modifies storage`fs, storage`turns, storage`history
      ensures storage.Valid() && old(storage.history) <= storage.history && run == RunAs(name, 0, renamed)
      ensures AccountOf(storage.history, storage.additions, began, storage.writes, wrote, run) == Here
      ensures forall from :: 0 <= from <= renamed ==> PromotionOf(storage.history, from, leaf, files, run) == Here
      ensures ok ==> Promised(leaf, files, run)
    {
      ghost var ran := storage.history;
      run := RunAs(name, 0, renamed);
      OwnershipAccounts(run);
      ok := CloseHandles();
      AccountLater(ran, storage.history, storage.additions, began, storage.writes, wrote, run);
      ok := ok && verified;
      if ok {
        HeldEarlier(ran, storage.history, storage.user, run.directory, children, files, renamed, renamed,
                    |storage.history|);
      }
    }

    /** `publish` without its last look at the published directory. */
    method Publish(leaf: string, files: seq<PrivateFile>) returns (ok: bool, ghost run: Outcome)
      requires storage.Valid() && parentPath != "." && parent.None? && staging.None? && stagingName == ""
               && !stagingPinned && leaf != "."
      requires children == [] && !uncertain && !published && Fresh() && forall f <- files :: f.name != "."
      modifies this, storage
      ensures storage.Valid() && old(storage.history) <= storage.history && old(storage.removals) <= storage.removals
              && Plain()
      ensures run.published <==> published
      ensures AccountOf(storage.history, storage.additions, |old(storage.additions)|, storage.writes,
                        |old(storage.writes)|, run) == Here
      ensures WorkOf(storage.history, |old(storage.history)|, parentPath, files, run) == Here
      ensures storage.renamings == old(storage.renamings) + run.Renamings(leaf)
      ensures run.published ==> PromotionOf(storage.history, |old(storage.history)|, leaf, files, run) == Here
      ensures run.published ==> storage.removals == old(storage.removals)
      ensures !run.published ==>
                !ok && RemovalsOf(storage.history, storage.user, storage.removals, |old(storage.removals)|, run) == Here
      ensures !run.published && storage.Undisturbed(run.cleanupFrom) && run.AllSealed() && run.parent.Some? ==>
                At(storage.fs, run.parent.value).names == At(old(storage.fs), run.parent.value).names
      ensures !run.published && storage.Calm() && run.parent.None? ==> storage.fs == old(storage.fs)
      ensures ok ==> Promised(leaf, files, run)
    {
      ghost var renamed, name;
      ok, renamed, name := Run(leaf, files);
      ghost var ran := storage.history;
      RunWorked(name, files, |old(storage.history)|, if published then 0 else |ran|, renamed);
      if published {
        ok, run := Conclude(leaf, files, ok, name, renamed);
      } else {
        run := Abandon(renamed);
      }
      WorkLater(ran, storage.history, |old(storage.history)|, parentPath, files, run);
    }
  }

  ghost predicate HeldSoFar(history: seq<FS>, user: nat, staging: Ino, children: seq<Child>, files: seq<PrivateFile>,
                            count: nat, from: nat)
    requires |children| == |files| && count <= |files|
  {
    forall k :: 0 <= k < count ==> HeldWithin(history, user, staging, children[k], files[k].contents, from, |history|)
  }

  lemma HeldLater(history: seq<FS>, longer: seq<FS>, user: nat, staging: Ino, children: seq<Child>,
                  files: seq<PrivateFile>, count: nat, from: nat)
    requires |children| == |files| && count <= |files| && history <= longer
    requires HeldSoFar(history, user, staging, children, files, count, from)
    ensures HeldSoFar(longer, user, staging, children, files, count, from)
  {
    forall k | 0 <= k < count
      ensures HeldWithin(longer, user, staging, children[k], files[k].contents, from, |longer|)
    {
      var m :| from <= m < |history| && Holds(history, user, staging, children[k], files[k].contents, m);
      assert Holds(longer, user, staging, children[k], files[k].contents, m);
    }
  }

  lemma OneMoreHeld(history: seq<FS>, longer: seq<FS>, user: nat, staging: Ino, children: seq<Child>,
                    files: seq<PrivateFile>, k: nat, from: nat)
    requires |children| == |files| && k < |files| && history <= longer && from <= |history|
    requires HeldSoFar(history, user, staging, children, files, k, from)
    requires HeldWithin(longer, user, staging, children[k], files[k].contents, |history|, |longer|)
    ensures HeldSoFar(longer, user, staging, children, files, k + 1, from)
  {
    HeldLater(history, longer, user, staging, children, files, k, from);
    var m :| |history| <= m < |longer| && Holds(longer, user, staging, children[k], files[k].contents, m);
    assert HeldWithin(longer, user, staging, children[k], files[k].contents, from, |longer|);
  }

  lemma HeldEarlier(history: seq<FS>, longer: seq<FS>, user: nat, staging: Ino, children: seq<Child>,
                    files: seq<PrivateFile>, from: nat, earlier: nat, to: nat)
    requires |children| == |files| && history <= longer && earlier <= from && |history| <= to
    requires AllHeld(history, user, staging, children, files, from, |history|)
    ensures AllHeld(longer, user, staging, children, files, earlier, to)
  {
    forall k | 0 <= k < |files| ensures HeldWithin(longer, user, staging, children[k], files[k].contents, earlier, to) {
      var m :| from <= m < |history| && Holds(history, user, staging, children[k], files[k].contents, m);
      assert Holds(longer, user, staging, children[k], files[k].contents, m);
    }
  }

  ghost predicate AllSealed(children: seq<Child>) {
    forall k :: 0 <= k < |children| ==> children[k].isSealed
  }

  /** The removal took the name of a sealed child that a check, begun at `since`, had just seen unchanged. */
  ghost predicate OwnedChild(history: seq<FS>, user: nat, staging: Ino, c: Child, r: Removal, since: nat) {
    && c.isSealed && r.directory == staging && r.name == c.name && since <= r.moment < |history|
    && SeenWithin(history, user, staging, c, since, r.moment)
  }

  lemma OwnedAfterCheck(checked: seq<FS>, history: seq<FS>, user: nat, staging: Ino, c: Child, r: Removal, since: nat)
    requires SeenWithin(checked, user, staging, c, since, |checked|) && c.isSealed && checked <= history
    requires RemovedBy(r, staging, c.name, false, |checked|, history) && since <= |checked|
    ensures OwnedChild(history, user, staging, c, r, since)
  {
    var m :| since <= m < |checked| && ChildSeen(checked, user, staging, c, m);
    assert ChildSeen(history, user, staging, c, m);
  }

  /** A turn of the removing loop begins after the removal of the turn before. */
  function TurnStart(removals: seq<Removal>, start: nat, from: nat, j: nat): nat
    requires start + j < |removals|
  {
    if j == 0 then from else removals[start + j - 1].moment + 1
  }

  ghost predicate OwnedSince(history: seq<FS>, user: nat, staging: Ino, c: Child, r: Removal, bound: nat) {
    exists since :: bound <= since && OwnedChild(history, user, staging, c, r, since)
  }

  /** The j-th removal of a cleanup took the j-th child from the end, after a check begun later than the removal
      before. */
  ghost predicate OwnedTurn(history: seq<FS>, user: nat, staging: Ino, children: seq<Child>, removals: seq<Removal>,
                            start: nat, from: nat, j: nat)
    requires start + j < |removals| && j < |children|
  {
    OwnedSince(history, user, staging, children[|children| - 1 - j], removals[start + j],
               TurnStart(removals, start, from, j))
  }

  lemma OwnedSinceLater(history: seq<FS>, longer: seq<FS>, user: nat, staging: Ino, c: Child, r: Removal, bound: nat)
    requires OwnedSince(history, user, staging, c, r, bound) && history <= longer
    ensures OwnedSince(longer, user, staging, c, r, bound)
  {
    var since :| bound <= since && OwnedChild(history, user, staging, c, r, since);
    var m :| since <= m < r.moment && ChildSeen(history, user, staging, c, m);
    assert ChildSeen(longer, user, staging, c, m);
    assert OwnedChild(longer, user, staging, c, r, since);
  }

  ghost predicate OwnedChildren(history: seq<FS>, user: nat, staging: Ino, children: seq<Child>,
                                removals: seq<Removal>, start: nat, from: nat) {
    && start <= |removals| <= start + |children|
    && forall j :: 0 <= j < |removals| - start ==> OwnedTurn(history, user, staging, children, removals, start, from, j)
  }

  lemma OwnedLater(history: seq<FS>, longer: seq<FS>, user: nat, staging: Ino, children: seq<Child>,
                   removals: seq<Removal>, start: nat, from: nat)
    requires OwnedChildren(history, user, staging, children, removals, start, from) && history <= longer
    ensures OwnedChildren(longer, user, staging, children, removals, start, from)
  {
    forall j | 0 <= j < |removals| - start
      ensures OwnedTurn(longer, user, staging, children, removals, start, from, j)
    {
      assert OwnedTurn(history, user, staging, children, removals, start, from, j);
      OwnedSinceLater(history, longer, user, staging, children[|children| - 1 - j], removals[start + j],
                      TurnStart(removals, start, from, j));
    }
  }

  lemma OneMoreOwned(history: seq<FS>, user: nat, staging: Ino, children: seq<Child>, removals: seq<Removal>,
                     more: seq<Removal>, start: nat, from: nat, since: nat)
    requires OwnedChildren(history, user, staging, children, removals, start, from)
    requires removals <= more && |more| == |removals| + 1 && |removals| - start < |children|
    requires from <= since && (|removals| > start ==> removals[|removals| - 1].moment < since)
    requires OwnedChild(history, user, staging, children[|children| - 1 - (|removals| - start)], more[|removals|],
                        since)
    ensures OwnedChildren(history, user, staging, children, more, start, from)
  {
    forall j | 0 <= j < |more| - start ensures OwnedTurn(history, user, staging, children, more, start, from, j) {
      if j < |removals| - start {
        assert OwnedTurn(history, user, staging, children, removals, start, from, j);
        assert TurnStart(more, start, from, j) == TurnStart(removals, start, from, j);
      } else {
        assert TurnStart(more, start, from, j) <= since;
      }
    }
  }

  /** The removal took the staging name from the parent, empty, after a check begun at `since` had seen it there. */
  ghost predicate OwnedDirectory(history: seq<FS>, parent: Ino, name: string, staging: Ino, r: Removal, since: nat) {
    && r.directory == parent && r.name == name && since <= r.moment < |history|
    && SeenUnder(history, parent, name, staging, since, r.moment)
    && At(history[r.moment], r.found).names == map[]
  }

  /** The removal took an empty directory's name from the parent, at a moment from `since` on. */
  ghost predicate EmptyRemoved(history: seq<FS>, parent: Ino, name: string, r: Removal, since: nat) {
    r.directory == parent && r.name == name && since <= r.moment < |history|
    && At(history[r.moment], r.found).names == map[]
  }

  lemma OwnedDirectoryAfterCheck(checked: seq<FS>, history: seq<FS>, parent: Ino, name: string, staging: Ino,
                                 r: Removal, since: nat)
    requires SeenUnder(checked, parent, name, staging, since, |checked|) && checked <= history && since <= |checked|
    requires EmptyRemoved(history, parent, name, r, |checked|)
    ensures OwnedDirectory(history, parent, name, staging, r, since)
  {
    SeenUnderLater(checked, history, parent, name, staging, since, |checked|, since, r.moment);
  }

  lemma OwnedDirectoryLater(history: seq<FS>, longer: seq<FS>, parent: Ino, name: string, staging: Ino, r: Removal,
                            since: nat)
    requires OwnedDirectory(history, parent, name, staging, r, since) && history <= longer
    ensures OwnedDirectory(longer, parent, name, staging, r, since)
  {
    SeenUnderLater(history, longer, parent, name, staging, since, r.moment, since, r.moment);
  }

  /** The cleanup that began at `from` listed exactly the children, all sealed, before it removed anything; then it
      removed children from the last to the first, each after its own check, and finally the empty directory. */
  ghost predicate CleanupIsOwned(history: seq<FS>, user: nat, parent: Ino, name: string, staging: Ino,
                                 children: seq<Child>,
                                 removals: seq<Removal>, start: nat, from: nat) {
    && start <= |removals| <= start + |children| + 1
    && (|removals| > start ==>
          AllSealed(children) && ListedBefore(history, staging, children, from, removals[start].moment))
    && (if |removals| <= start + |children|
        then OwnedChildren(history, user, staging, children, removals, start, from)
        else OwnedChildren(history, user, staging, children, removals[..start + |children|], start, from)
             && OwnedDirectorySince(history, parent, name, staging, removals[start + |children|], from))
  }

  ghost predicate OwnedDirectorySince(history: seq<FS>, parent: Ino, name: string, staging: Ino, r: Removal,
                                      bound: nat) {
    exists since :: bound <= since && OwnedDirectory(history, parent, name, staging, r, since)
  }

  ghost predicate ListedBefore(history: seq<FS>, staging: Ino, children: seq<Child>, from: nat, before: nat) {
    exists m :: from <= m < before && ListedAt(history, staging, children, m)
  }

  lemma OwnedChildrenAreOwned(prepared: seq<FS>, history: seq<FS>, user: nat, parent: Ino, name: string, staging: Ino,
                              children: seq<Child>, removals: seq<Removal>, start: nat, from: nat, m: nat)
    requires prepared <= history && from <= m < |prepared| && ListedAt(prepared, staging, children, m)
             && AllSealed(children)
    requires OwnedChildren(history, user, staging, children, removals, start, |prepared|)
    ensures CleanupIsOwned(history, user, parent, name, staging, children, removals, start, from)
  {
    OwnedEarlier(history, user, staging, children, removals, start, |prepared|, from);
    if |removals| > start {
      assert OwnedTurn(history, user, staging, children, removals, start, |prepared|, 0);
      assert ListedAt(history, staging, children, m);
    }
  }

  lemma OwnedEarlier(history: seq<FS>, user: nat, staging: Ino, children: seq<Child>, removals: seq<Removal>,
                     start: nat, from: nat, earlier: nat)
    requires OwnedChildren(history, user, staging, children, removals, start, from) && earlier <= from
    ensures OwnedChildren(history, user, staging, children, removals, start, earlier)
  {
    forall j | 0 <= j < |removals| - start
      ensures OwnedTurn(history, user, staging, children, removals, start, earlier, j)
    {
      assert OwnedTurn(history, user, staging, children, removals, start, from, j);
    }
  }

  lemma CleanupOwnedLater(history: seq<FS>, longer: seq<FS>, user: nat, parent: Ino, name: string, staging: Ino,
                          children: seq<Child>, removals: seq<Removal>, start: nat, from: nat)
    requires CleanupIsOwned(history, user, parent, name, staging, children, removals, start, from) && history <= longer
    ensures CleanupIsOwned(longer, user, parent, name, staging, children, removals, start, from)
  {
    if |removals| <= start + |children| {
      OwnedLater(history, longer, user, staging, children, removals, start, from);
    } else {
      OwnedLater(history, longer, user, staging, children, removals[..start + |children|], start, from);
      var since :| from <= since && OwnedDirectory(history, parent, name, staging, removals[start + |children|], since);
      OwnedDirectoryLater(history, longer, parent, name, staging, removals[start + |children|], since);
    }
    if |removals| > start {
      var m :| from <= m < removals[start].moment && ListedAt(history, staging, children, m);
      assert ListedAt(longer, staging, children, m);
    }
  }

  lemma CleanupOwnedDirectory(prepared: seq<FS>, removed: seq<FS>, history: seq<FS>, user: nat, parent: Ino,
                              name: string, staging: Ino, children: seq<Child>, removals: seq<Removal>,
                              more: seq<Removal>, start: nat, from: nat, m: nat)
    requires prepared <= removed <= history && from <= m < |prepared| && ListedAt(prepared, staging, children, m)
    requires CleanupIsOwned(removed, user, parent, name, staging, children, removals, start, from)
             && AllSealed(children)
    requires |removals| == start + |children| && removals <= more && |more| == |removals| + 1
    requires OwnedDirectory(history, parent, name, staging, more[|removals|], |removed|)
    ensures CleanupIsOwned(history, user, parent, name, staging, children, more, start, from)
  {
    OwnedLater(removed, history, user, staging, children, removals, start, from);
    assert more[..|removals|] == removals;
    assert ListedAt(history, staging, children, m);
    if |removals| > start {
      var early :| from <= early < removals[start].moment && ListedAt(removed, staging, children, early);
      assert ListedAt(history, staging, children, early);
    }
  }

  lemma SameNames(children: seq<Child>, changed: seq<Child>)
    requires |children| == |changed| && forall k :: 0 <= k < |children| ==> children[k].name == changed[k].name
    ensures Names(children) == Names(changed)
  {
    forall n ensures n in Names(children) <==> n in Names(changed) {
      if n in Names(children) {
        var k :| 0 <= k < |children| && children[k].name == n;
        assert changed[k].name == n;
      }
      if n in Names(changed) {
        var k :| 0 <= k < |changed| && changed[k].name == n;
        assert children[k].name == n;
      }
    }
  }

  lemma UnlinkKeepsChild(fs: FS, site: Site, children: seq<Child>, k: nat)
    requires StagedIn(fs, site, children) && k < |children| - 1
    requires children[|children| - 1].name in At(fs, site.staging.ino).names
    ensures ChildIntact(Remove(fs, site.staging.ino, children[|children| - 1].name), site, children[k])
  {
    assert ChildIntact(fs, site, children[k]) && ChildIntact(fs, site, children[|children| - 1]);
    assert children[k].identity.ino != children[|children| - 1].identity.ino;
  }

  lemma UnlinkKeepsDirectories(fs: FS, site: Site, children: seq<Child>)
    requires StagedIn(fs, site, children) && children != []
    requires children[|children| - 1].name in At(fs, site.staging.ino).names
    ensures var after := Remove(fs, site.staging.ino, children[|children| - 1].name);
            && ParentIntact(after, site) && At(after, site.parent.ino).names == At(fs, site.parent.ino).names
            && Fit(after, site.user, site.staging.ino, site.staging, true)
  {
    var child := children[|children| - 1];
    assert ChildIntact(fs, site, child);
    RemoveNames(fs, site.staging.ino, child.name, site.parent.ino);
    RemoveNames(fs, site.staging.ino, child.name, ABOVE);
  }

  lemma UnlinkKeepsNames(fs: FS, site: Site, children: seq<Child>)
    requires StagedIn(fs, site, children) && children != []
    requires children[|children| - 1].name in At(fs, site.staging.ino).names
    ensures At(Remove(fs, site.staging.ino, children[|children| - 1].name), site.staging.ino).names.Keys
            == Names(children[..|children| - 1])
  {
    var fewer, child := children[..|children| - 1], children[|children| - 1];
    RemoveNames(fs, site.staging.ino, child.name, site.staging.ino);
    Sequences.LastOf(children);
    OneMoreName(fewer, child);
    forall c | c in fewer ensures c.name != child.name {
      var i :| 0 <= i < |fewer| && fewer[i] == c;
      assert children[i].name != children[|children| - 1].name;
    }
  }

  /** Unlinking the last child leaves the others. */
  lemma UnlinkKeepsStaged(fs: FS, site: Site, children: seq<Child>)
    requires StagedIn(fs, site, children) && children != []
    requires children[|children| - 1].name in At(fs, site.staging.ino).names
    ensures StagedIn(Remove(fs, site.staging.ino, children[|children| - 1].name), site, children[..|children| - 1])
  {
    var fewer, after := children[..|children| - 1], Remove(fs, site.staging.ino, children[|children| - 1].name);
    UnlinkKeepsDirectories(fs, site, children);
    UnlinkKeepsNames(fs, site, children);
    forall k | 0 <= k < |fewer| ensures ChildIntact(after, site, fewer[k]) {
      UnlinkKeepsChild(fs, site, children, k);
    }
    assert ChildrenIntact(after, site, fewer);
  }

  lemma OneMoreName(children: seq<Child>, child: Child)
    ensures Names(children + [child]) == Names(children) + {child.name}
  {
    assert forall c :: c in children + [child] <==> c in children || c == child;
  }

  /** What a run of `publish` left behind: its fields, under which name it added its staging directory, when it opened
      the parent, when its cleanup began, and when it renamed. */
  datatype Outcome = Outcome(published: bool, parent: Option<Ino>, parentIdentity: Ino, stagingName: string,
                             directory: Ino, pinned: bool, uncertain: bool, children: seq<Child>, pin: nat,
                             placed: nat, cleanupFrom: nat, renamed: nat) {
    /** Nothing was begun, or everything that was begun was finished and is known for sure. */
    ghost predicate AllSealed() {
      stagingName == "" || (pinned && !uncertain && forall k :: 0 <= k < |children| ==> children[k].isSealed)
    }

    /** The renamings of the run: one if it published, and none if it did not. */
    function Renamings(leaf: string): seq<Renaming> {
      if published then [Renaming(parentIdentity, stagingName, leaf, renamed)] else []
    }
  }

  /** Everything that the run added and wrote. It added nothing, or the staging directory under its name and then the
      children, one by one, and one more file at most, about which it is uncertain; it wrote to no other file. The
      object behind the staging name is the one that the first look after the addition found there. */
  ghost predicate Accounted(history: seq<FS>, additions: seq<Addition>, began: nat, writes: seq<Ino>, wrote: nat,
                            run: Outcome) {
    && began <= |additions| && WrittenOf(writes, wrote, additions, began) == Here
    && (run.stagingName == "" ==> |additions| == began && |writes| == wrote && run.children == [] && !run.pinned)
    && (run.stagingName != "" ==>
          && began < |additions|
          && AddedOf(additions, began, run.parentIdentity, run.stagingName, run.directory, run.children,
                     run.uncertain) == Here
          && (run.pinned ==> Pinned(history, additions[began], run.pin, run.directory)))
    && (run.children != [] || run.uncertain ==> run.pinned)
  }

  ghost function AccountOf(history: seq<FS>, additions: seq<Addition>, began: nat, writes: seq<Ino>, wrote: nat,
                           run: Outcome): Origin {
    if Accounted(history, additions, began, writes, wrote, run) then Here else Elsewhere
  }

  lemma AccountLater(history: seq<FS>, longer: seq<FS>, additions: seq<Addition>, began: nat, writes: seq<Ino>,
                     wrote: nat, run: Outcome)
    requires AccountOf(history, additions, began, writes, wrote, run) == Here && history <= longer
    ensures AccountOf(longer, additions, began, writes, wrote, run) == Here
  {
  }

  /** What the run was about: during the run the requested path led to the parent that it worked in, its staging
      directory had a name of its own kind there, and its children are the first of the requested files. */
  ghost predicate WorkedWhereAsked(history: seq<FS>, from: nat, above: string, files: seq<PrivateFile>, run: Outcome) {
    && (run.parent.Some? ==>
          from <= run.placed < |history| && Bound(history[run.placed], ABOVE, above, run.parent.value))
    && (run.stagingName != "" ==> run.parent == Some(run.parentIdentity))
    && NamingOf(run.stagingName) == Ours && Begun(run.children, files)
  }

  ghost function WorkOf(history: seq<FS>, from: nat, above: string, files: seq<PrivateFile>, run: Outcome): Origin {
    if WorkedWhereAsked(history, from, above, files, run) then Here else Elsewhere
  }

  lemma WorkLater(history: seq<FS>, longer: seq<FS>, from: nat, above: string, files: seq<PrivateFile>, run: Outcome)
    requires WorkOf(history, from, above, files, run) == Here && history <= longer
    ensures WorkOf(longer, from, above, files, run) == Here
  {
  }

  /** The pinned staging directory became the leaf at a moment of the run, with a sealed child for every requested
      file. */
  ghost predicate PublishedBy(history: seq<FS>, from: nat, leaf: string, files: seq<PrivateFile>, run: Outcome) {
    && run.parent == Some(run.parentIdentity) && run.stagingName != "" && run.pinned && from <= run.renamed
    && RenamedAt(history, run.parentIdentity, run.stagingName, leaf, run.renamed) && Matches(run.children, files)
  }

  ghost function PromotionOf(history: seq<FS>, from: nat, leaf: string, files: seq<PrivateFile>, run: Outcome): Origin {
    if PublishedBy(history, from, leaf, files, run) then Here else Elsewhere
  }

  lemma PromotionLater(history: seq<FS>, longer: seq<FS>, from: nat, leaf: string, files: seq<PrivateFile>,
                       run: Outcome)
    requires PromotionOf(history, from, leaf, files, run) == Here && history <= longer
    ensures PromotionOf(longer, from, leaf, files, run) == Here
  {
  }

  /** A failed run removed names of its own children and of its own staging directory, in the order and with the checks
      of `cleanup`, and none unless that directory was pinned and its state certain. */
  ghost predicate RemovesOnlyItsOwn(history: seq<FS>, user: nat, removals: seq<Removal>, start: nat, run: Outcome) {
    && CleanupIsOwned(history, user, run.parentIdentity, run.stagingName, run.directory, run.children, removals, start,
                      run.cleanupFrom)
    && (|removals| > start ==> run.pinned && !run.uncertain)
  }

  ghost function RemovalsOf(history: seq<FS>, user: nat, removals: seq<Removal>, start: nat, run: Outcome): Origin {
    if RemovesOnlyItsOwn(history, user, removals, start, run) then Here else Elsewhere
  }

  /** There was one instant after the exclusive rename at which the directory held exactly the requested files, and
      it was under the requested path both between the rename and that instant and afterwards. */
  ghost predicate PublishedWhole(history: seq<FS>, user: nat, path: string, files: seq<PrivateFile>, run: Outcome,
                                 instant: nat)
    requires Paths.CanonicalAbsolute(path)
  {
    var leaf, above := Paths.Base(path), Paths.Directory(path);
    && run.renamed <= instant < |history|
    && RenamedAt(history, run.parentIdentity, run.stagingName, leaf, run.renamed)
    && DirectoryHolds(history[instant], user, run.directory, files)
    && SeenUnder(history, run.parentIdentity, leaf, run.directory, run.renamed, instant)
    && SeenUnder(history, run.parentIdentity, leaf, run.directory, instant, |history|)
    && SeenUnder(history, ABOVE, above, run.parentIdentity, run.renamed, instant)
    && SeenUnder(history, ABOVE, above, run.parentIdentity, instant, |history|)
    && PrivateWithin(history, user, run.directory, true, run.renamed, instant)
    && PrivateWithin(history, user, run.directory, true, instant, |history|)
  }

  lemma WholeAtListing(held: seq<FS>, history: seq<FS>, user: nat, path: string, files: seq<PrivateFile>, run: Outcome,
                       instant: nat)
    requires Chronicle(history) && held <= history && Paths.CanonicalAbsolute(path) && Matches(run.children, files)
    requires AllHeld(held, user, run.directory, run.children, files, run.renamed, |held|)
    requires RenamedAt(held, run.parentIdentity, run.stagingName, Paths.Base(path), run.renamed)
    requires |held| <= instant < |history| && ListedAt(history, run.directory, run.children, instant)
    requires AllSeen(history, user, run.directory, run.children, instant, |history|)
    requires SeenUnder(history, run.parentIdentity, Paths.Base(path), run.directory, |held|, instant)
    requires SeenUnder(history, run.parentIdentity, Paths.Base(path), run.directory, instant, |history|)
    requires SeenUnder(history, ABOVE, Paths.Directory(path), run.parentIdentity, |held|, instant)
    requires SeenUnder(history, ABOVE, Paths.Directory(path), run.parentIdentity, instant, |history|)
    requires PrivateWithin(history, user, run.directory, true, |held|, instant)
    requires PrivateWithin(history, user, run.directory, true, instant, |history|)
    ensures PublishedWhole(history, user, path, files, run, instant)
  {
    PrivateLater(history, history, user, run.directory, true, |held|, instant, run.renamed, instant);
    HeldEarlier(held, history, user, run.directory, run.children, files, run.renamed, run.renamed, instant);
    ListingIsInstant(history, user, run.directory, run.children, files, run.renamed, instant);
    SeenUnderLater(history, history, run.parentIdentity, Paths.Base(path), run.directory, |held|, instant,
                   run.renamed, instant);
    SeenUnderLater(history, history, ABOVE, Paths.Directory(path), run.parentIdentity, |held|, instant,
                   run.renamed, instant);
  }

  /** `publishPrivateDirectory` with the destination checks of `PublishPrivateDirectory`. */
  method PublishPrivateDirectory(storage: Storage, path: string, files: seq<PrivateFile>)
      returns (destination: string, ok: bool, ghost run: Outcome, ghost instant: nat)
    requires storage.Valid() && forall f <- files :: f.name != "."
    modifies storage
    ensures storage.Valid() && old(storage.history) <= storage.history && old(storage.removals) <= storage.removals
    ensures ok <==> destination != ""
    ensures run.published ==> Paths.CanonicalAbsolute(path)
    ensures ok ==>
              destination == path && run.published
              && PublishedWhole(storage.history, storage.user, path, files, run, instant)
    ensures AccountOf(storage.history, storage.additions, |old(storage.additions)|, storage.writes,
                      |old(storage.writes)|, run) == Here
    ensures run.stagingName != "" || run.parent.Some? ==> Paths.CanonicalAbsolute(path)
    ensures Paths.CanonicalAbsolute(path) ==>
              WorkOf(storage.history, |old(storage.history)|, Paths.Directory(path), files, run) == Here
    ensures storage.renamings
            == old(storage.renamings) + (if run.published then run.Renamings(Paths.Base(path)) else [])
    ensures run.published ==>
              PromotionOf(storage.history, |old(storage.history)|, Paths.Base(path), files, run) == Here
              && storage.removals == old(storage.removals)
    ensures !run.published ==>
              RemovalsOf(storage.history, storage.user, storage.removals, |old(storage.removals)|, run) == Here
    ensures !run.published && storage.Undisturbed(run.cleanupFrom) && run.AllSealed() && run.parent.Some? ==>
              At(storage.fs, run.parent.value).names == At(old(storage.fs), run.parent.value).names
    ensures !run.published && storage.Calm() && run.parent.None? ==> storage.fs == old(storage.fs)
  {
    destination, ok, instant := "", false, 0;
    run := Outcome(false, None, 0, "", 0, false, false, [], 0, 0, 0, 0);
    if !Paths.CanonicalAbsolute(path) || files == [] { return; }
    var leaf := Paths.Base(path);
    if leaf == "" || leaf == "." || leaf == ".." { return; }
    var publisher := new DirectoryPublisher(storage, Paths.Directory(path));
    Paths.DirectoryAbsolute(path);
    ok, run := publisher.Publish(leaf, files);
    if !publisher.published { return; }
    ghost var history := storage.history;
    var checked;
    checked, instant := publisher.CheckAgain(path, files, run);
    AccountLater(history, storage.history, storage.additions, |old(storage.additions)|, storage.writes,
                 |old(storage.writes)|, run);
    PromotionLater(history, storage.history, |old(storage.history)|, leaf, files, run);
    WorkLater(history, storage.history, |old(storage.history)|, Paths.Directory(path), files, run);
    var cancelled: bool := *;
    ok := ok && checked && !cancelled;
    if ok {
      destination := path;
    }
  }
}
