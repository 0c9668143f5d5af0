/** Reading the requested untracked files while other programs change them: a walk over the trie of requested
    paths, then a second look at everything. A successful read is what all requested paths held at one moment. */
module ReadUntracked {
  import opened FileSystem
  import opened Paths
  import opened UntrackedValidation
  import opened UntrackedSelection
  import opened CaptureSourceState
  import opened ReadAdministrative
  import Sequences
  import Sorting
  import Text

  datatype UntrackedObservation = UntrackedObservation(path: string, name: string, parent: Handle,
                                                       directory: Option<Handle>, info: Stat, linkTarget: string)

  /** The reader's notes. Observation k was made at `times[k]` in the directory of observation `parents[k]`; a link's
      text was read at `readTimes[k]`. Entry k - 1 goes with observation k; observation 0 is the root. */
  datatype Trace = Trace(observations: seq<UntrackedObservation>, entries: seq<UntrackedEntry>, keys: seq<Key>,
                         times: seq<nat>, readTimes: seq<nat>, parents: seq<nat>)

  ghost predicate Aligned(trace: Trace) {
    |trace.observations| == |trace.keys| == |trace.times| == |trace.readTimes| == |trace.parents| == |trace.entries| + 1
  }

  /** The text of the link that the name led to at this time. */
  ghost predicate LinkSeen(timeline: Timeline, text: Bytes -> string, o: UntrackedObservation, target: string, t: nat) {
    exists j :: Bound(timeline(t), o.parent.ino, o.name, j) && target == text(At(timeline(t), j).data)
  }

  ghost predicate EntryOf(timeline: Timeline, text: Bytes -> string, o: UntrackedObservation, e: UntrackedEntry,
                          t: nat, read: nat) {
    && e.path == o.path && e.mode == ModeOf(o.info)
    && (|| (o.info.kind == Directory && e.kind == "directory" && e.data == None && e.linkTarget == "")
        || (o.info.kind == Regular && e.kind == "file" && e.data == Some(At(timeline(t), o.info.ino).data)
            && e.linkTarget == "")
        || (o.info.kind == Symlink && e.kind == "symlink" && e.data == None
            && LinkSeen(timeline, text, o, e.linkTarget, read)))
  }

  /** Observation k was made in the directory of an earlier one, which bound its name to it at that time. */
  ghost predicate PlacedIn(timeline: Timeline, trace: Trace, k: nat)
    requires Aligned(trace) && 0 < k < |trace.observations|
  {
    var o, p := trace.observations[k], trace.parents[k];
    && p < k && trace.times[p] <= trace.times[k]
    && trace.keys[k] == trace.keys[p] + [o.name] && o.path == Join(trace.keys[k], '/')
    && trace.observations[p].info.kind == Directory && o.parent.ino == trace.observations[p].info.ino
    && Bound(timeline(trace.times[k]), o.parent.ino, o.name, o.info.ino)
  }

  ghost predicate NotedAt(timeline: Timeline, text: Bytes -> string, trace: Trace, k: nat, now: nat) {
    && Aligned(trace) && k < |trace.observations|
    && trace.observations[k].info == StatOf(timeline(trace.times[k]), trace.observations[k].info.ino)
    && trace.times[k] <= trace.readTimes[k] <= now
    && (k > 0 ==>
          && PlacedIn(timeline, trace, k)
          && EntryOf(timeline, text, trace.observations[k], trace.entries[k - 1], trace.times[k], trace.readTimes[k]))
  }

  ghost predicate SoundTrace(timeline: Timeline, text: Bytes -> string, trace: Trace, now: nat) {
    && Aligned(trace) && trace.keys[0] == []
    && forall k: nat {:trigger NotedAt(timeline, text, trace, k, now)} ::
         k < |trace.observations| ==> NotedAt(timeline, text, trace, k, now)
  }

  ghost predicate SeenTwice(timeline: Timeline, trace: Trace, k: nat, moment: nat, now: nat) {
    && k < |trace.observations|
    && exists u :: moment <= u <= now && SameInfo(trace.observations[k].info,
                                                  StatOf(timeline(u), trace.observations[k].info.ino))
  }

  ghost predicate AllSeenTwice(timeline: Timeline, trace: Trace, count: nat, moment: nat, now: nat) {
    forall k: nat {:trigger SeenTwice(timeline, trace, k, moment, now)} ::
      k < count ==> SeenTwice(timeline, trace, k, moment, now)
  }

  /** A trace whose every observation was seen again at or after this moment. */
  ghost predicate Settled(timeline: Timeline, text: Bytes -> string, trace: Trace, moment: nat, now: nat) {
    && Lawful(timeline) && SoundTrace(timeline, text, trace, moment)
    && AllSeenTwice(timeline, trace, |trace.observations|, moment, now)
  }

  // ---------------------------------------------------------------- what a settled trace proves

  lemma StoodStill(timeline: Timeline, text: Bytes -> string, trace: Trace, k: nat, t: nat, moment: nat, now: nat)
    requires Settled(timeline, text, trace, moment, now) && k < |trace.observations| && trace.times[k] <= t <= moment
    ensures var i := trace.observations[k].info.ino;
            && SameContent(At(timeline(trace.times[k]), i), At(timeline(t), i))
            && At(timeline(trace.times[k]), i).mtime == At(timeline(t), i).mtime
  {
    var i := trace.observations[k].info.ino;
    assert NotedAt(timeline, text, trace, k, moment) && SeenTwice(timeline, trace, k, moment, now);
    var u :| moment <= u <= now && SameInfo(trace.observations[k].info, StatOf(timeline(u), i));
    ContentHeld(timeline(trace.times[k]), timeline(t), timeline(u), i);
  }

  /** The names of an observed directory are at every later time up to the moment what they were when it was
      observed. */
  lemma {:induction false} KeysLead(timeline: Timeline, text: Bytes -> string, trace: Trace, moment: nat, now: nat,
                                    k: nat)
    requires Settled(timeline, text, trace, moment, now) && k < |trace.observations|
    ensures Walk(timeline(moment), trace.observations[0].info.ino, trace.keys[k])
            == Some(trace.observations[k].info.ino)
  {
    assert NotedAt(timeline, text, trace, k, moment);
    if k > 0 {
      var p, key := trace.parents[k], trace.keys[k];
      assert NotedAt(timeline, text, trace, p, moment);
      KeysLead(timeline, text, trace, moment, now, p);
      StoodStill(timeline, text, trace, p, moment, moment, now);
      StoodStill(timeline, text, trace, p, trace.times[k], moment, now);
      assert key[..|key| - 1] == trace.keys[p];
    }
  }

  /** What an entry says about an object. */
  ghost predicate DescribesUntracked(text: Bytes -> string, e: UntrackedEntry, node: Inode, modes: bool) {
    && e.mode.kind == node.kind && (modes ==> e.mode.permissions == node.mode)
    && (|| (node.kind == Directory && e.kind == "directory" && e.data == None && e.linkTarget == "")
        || (node.kind == Regular && e.kind == "file" && e.data == Some(node.data) && e.linkTarget == "")
        || (node.kind == Symlink && e.kind == "symlink" && e.data == None && e.linkTarget == text(node.data)))
  }

  /** Following the path from the root leads to an object as the entry describes it. */
  ghost predicate HeldAt(fs: FS, root: Ino, text: Bytes -> string, e: UntrackedEntry, modes: bool) {
    var found := Walk(fs, root, Components(e.path));
    found.Some? && DescribesUntracked(text, e, At(fs, found.value), modes)
  }

  /** A link's text was read through a name that stood still, so it is the text of the observed link. */
  lemma LinkHeld(timeline: Timeline, text: Bytes -> string, trace: Trace, moment: nat, now: nat, k: nat)
    requires Settled(timeline, text, trace, moment, now) && 0 < k < |trace.observations|
    requires LinkSeen(timeline, text, trace.observations[k], trace.entries[k - 1].linkTarget, trace.readTimes[k])
    ensures trace.entries[k - 1].linkTarget == text(At(timeline(moment), trace.observations[k].info.ino).data)
  {
    var o, p := trace.observations[k], trace.parents[k];
    assert NotedAt(timeline, text, trace, k, moment);
    assert NotedAt(timeline, text, trace, p, moment);
    StoodStill(timeline, text, trace, p, trace.times[k], moment, now);
    StoodStill(timeline, text, trace, p, trace.readTimes[k], moment, now);
    assert Bound(timeline(trace.readTimes[k]), o.parent.ino, o.name, o.info.ino);
    StoodStill(timeline, text, trace, k, trace.readTimes[k], moment, now);
    StoodStill(timeline, text, trace, k, moment, moment, now);
  }

  lemma {:induction false} NotBeforeFirst(timeline: Timeline, text: Bytes -> string, trace: Trace, now: nat, k: nat)
    requires SoundTrace(timeline, text, trace, now) && k < |trace.observations|
    ensures trace.times[0] <= trace.times[k]
  {
    assert NotedAt(timeline, text, trace, k, now);
    if k > 0 { NotBeforeFirst(timeline, text, trace, now, trace.parents[k]); }
  }

  /** Permissions that do not go away and come back are at the moment what they were when noted. */
  lemma ModeStood(timeline: Timeline, text: Bytes -> string, trace: Trace, from: nat, moment: nat, now: nat, k: nat)
    requires Settled(timeline, text, trace, moment, now) && k < |trace.observations| && from <= trace.times[k]
    requires NeverReturns(timeline, trace.observations[k].info.ino, moment, from, now)
    ensures At(timeline(moment), trace.observations[k].info.ino).mode == trace.observations[k].info.mode
  {
    var i := trace.observations[k].info.ino;
    assert NotedAt(timeline, text, trace, k, moment) && SeenTwice(timeline, trace, k, moment, now);
    var u :| moment <= u <= now && SameInfo(trace.observations[k].info, StatOf(timeline(u), i));
    assert !Returns(timeline, i, trace.times[k], moment, u);
  }

  lemma SettledEntryHeld(timeline: Timeline, text: Bytes -> string, trace: Trace, from: nat, moment: nat, now: nat,
                         k: nat, modes: bool)
    requires Settled(timeline, text, trace, moment, now) && 0 < k < |trace.observations| && from <= trace.times[k]
    requires modes ==> NeverReturns(timeline, trace.observations[k].info.ino, moment, from, now)
    requires Clean(trace.keys[k])
    ensures HeldAt(timeline(moment), trace.observations[0].info.ino, text, trace.entries[k - 1], modes)
  {
    assert NotedAt(timeline, text, trace, k, moment);
    if modes { ModeStood(timeline, text, trace, from, moment, now, k); }
    KeysLead(timeline, text, trace, moment, now, k);
    StoodStill(timeline, text, trace, k, moment, moment, now);
    SplitJoin(trace.keys[k], '/');
    if trace.observations[k].info.kind == Symlink { LinkHeld(timeline, text, trace, moment, now, k); }
  }

  datatype Whole = Complete | Lacking

  /** What was collected is what the paths ask for, in any order, and valid as a list of entries. */
  ghost predicate Gathered(letters: Letters, paths: seq<string>, maximumBytes: int, trace: Trace) {
    && MatchesRequest(trace.entries, paths) && CleanKeys(trace)
    && EachValid(letters, trace.entries) && AllPairsFine(letters, trace.entries)
    && TotalData(trace.entries) <= maximumBytes
  }

  ghost function GatheredOf(letters: Letters, paths: seq<string>, maximumBytes: int, trace: Trace): Whole {
    if Gathered(letters, paths, maximumBytes, trace) then Complete else Lacking
  }

  ghost predicate CleanKeys(trace: Trace) {
    forall k :: 0 < k < |trace.keys| ==> Clean(trace.keys[k])
  }

  /** A trace of the object that the path named before and after it, settled at the moment. */
  ghost predicate SettledSince(timeline: Timeline, text: Bytes -> string, trace: Trace, directory: string,
                               first: nat, moment: nat, last: nat) {
    && Settled(timeline, text, trace, moment, last) && first <= trace.times[0]
    && Bound(timeline(first), ABOVE, directory, trace.observations[0].info.ino)
    && Bound(timeline(last), ABOVE, directory, trace.observations[0].info.ino)
  }

  // ---------------------------------------------------------------- keeping notes

  ghost predicate Grown(before: Trace, after: Trace) {
    && before.observations <= after.observations && before.entries <= after.entries && before.keys <= after.keys
    && before.times <= after.times && before.readTimes <= after.readTimes && before.parents <= after.parents
  }

  ghost function NotedNext(trace: Trace, o: UntrackedObservation, e: UntrackedEntry, key: Key, t: nat, read: nat,
                           p: nat): Trace {
    Trace(trace.observations + [o], trace.entries + [e], trace.keys + [key], trace.times + [t],
          trace.readTimes + [read], trace.parents + [p])
  }

  lemma TraceLater(timeline: Timeline, text: Bytes -> string, trace: Trace, now: nat, later: nat)
    requires SoundTrace(timeline, text, trace, now) && now <= later
    ensures SoundTrace(timeline, text, trace, later)
  {
    forall k: nat | k < |trace.observations| ensures NotedAt(timeline, text, trace, k, later) {
      assert NotedAt(timeline, text, trace, k, now);
    }
  }

  lemma StaysNoted(timeline: Timeline, text: Bytes -> string, before: Trace, after: Trace, k: nat, now: nat)
    requires Aligned(after) && Grown(before, after) && NotedAt(timeline, text, before, k, now)
    ensures NotedAt(timeline, text, after, k, now)
  {
  }

  lemma NotedNextIsSound(timeline: Timeline, text: Bytes -> string, trace: Trace, o: UntrackedObservation,
                         e: UntrackedEntry, key: Key, t: nat, read: nat, p: nat, now: nat)
    requires SoundTrace(timeline, text, trace, now) && p < |trace.observations|
    requires trace.times[p] <= t <= read <= now
    requires o.info == StatOf(timeline(t), o.info.ino) && EntryOf(timeline, text, o, e, t, read)
    requires key == trace.keys[p] + [o.name] && o.path == Join(key, '/')
    requires trace.observations[p].info.kind == Directory && o.parent.ino == trace.observations[p].info.ino
    requires Bound(timeline(t), o.parent.ino, o.name, o.info.ino)
    ensures SoundTrace(timeline, text, NotedNext(trace, o, e, key, t, read, p), now)
    ensures Grown(trace, NotedNext(trace, o, e, key, t, read, p))
  {
    var after := NotedNext(trace, o, e, key, t, read, p);
    forall k: nat | k < |after.observations| ensures NotedAt(timeline, text, after, k, now) {
      if k < |trace.observations| {
        assert NotedAt(timeline, text, trace, k, now);
        StaysNoted(timeline, text, trace, after, k, now);
      }
    }
  }

  /** Observation k is of a node of the trie, and its entry is a directory exactly when the node has children. */
  ghost predicate OfNode(trace: Trace, forest: Forest, repr: set<Node>, k: nat)
    reads repr
  {
    && Aligned(trace) && 0 < k < |trace.observations|
    && trace.keys[k] in forest && forest[trace.keys[k]] in repr
    && (trace.entries[k - 1].kind == "directory" <==> forest[trace.keys[k]].children != [])
  }

  ghost predicate OfTrie(trace: Trace, forest: Forest, repr: set<Node>)
    reads repr
  {
    forall k: nat {:trigger OfNode(trace, forest, repr, k)} ::
      0 < k < |trace.observations| ==> OfNode(trace, forest, repr, k)
  }

  lemma OfTrieNext(trace: Trace, forest: Forest, repr: set<Node>, o: UntrackedObservation, e: UntrackedEntry,
                   key: Key, t: nat, read: nat, p: nat)
    requires Aligned(trace) && OfTrie(trace, forest, repr)
    requires key in forest && forest[key] in repr && (e.kind == "directory" <==> forest[key].children != [])
    ensures OfTrie(NotedNext(trace, o, e, key, t, read, p), forest, repr)
  {
    var after := NotedNext(trace, o, e, key, t, read, p);
    forall k: nat | 0 < k < |after.observations| ensures OfNode(after, forest, repr, k) {
      if k < |trace.observations| { assert OfNode(trace, forest, repr, k); }
    }
  }

  /** Every node from this key downwards has been noted. */
  ghost predicate CoversFrom(keys: seq<Key>, forest: Forest, at: Key) {
    forall c :: c in forest && at <= c ==> c in keys
  }

  ghost predicate CoversBelow(keys: seq<Key>, forest: Forest, at: Key) {
    forall c :: c in forest && at < c ==> c in keys
  }

  lemma StaysCovered(before: seq<Key>, after: seq<Key>, forest: Forest, at: Key)
    requires before <= after && CoversFrom(before, forest, at)
    ensures CoversFrom(after, forest, at)
  {
    forall c | c in forest && at <= c ensures c in after { Sequences.InLonger(before, after, c); }
  }

  lemma CoveredFromHere(keys: seq<Key>, forest: Forest, at: Key)
    requires at in keys && CoversBelow(keys, forest, at)
    ensures CoversFrom(keys, forest, at)
  {
    forall c | c in forest && at <= c ensures c in keys {
      if |c| == |at| { assert c == at; }
    }
  }

  lemma {:induction false} PrefixInForest(forest: Forest, c: Key, d: Key)
    requires Rooted(forest) && c in forest && d <= c
    ensures d in forest
    decreases |c|
  {
    if d != c {
      var e := c[..|c| - 1];
      assert c == e + [c[|c| - 1]];
      assert d <= e;
      PrefixInForest(forest, e, d);
    }
  }

  /** Everything from the first i children downwards has been noted. */
  ghost predicate CoversSome(keys: seq<Key>, forest: Forest, at: Key, children: seq<Node>, i: nat)
    requires i <= |children|
  {
    forall j :: 0 <= j < i ==> CoversFrom(keys, forest, at + [children[j].name])
  }

  lemma CoversOneMore(before: seq<Key>, after: seq<Key>, forest: Forest, at: Key, children: seq<Node>, i: nat)
    requires i < |children| && before <= after && CoversSome(before, forest, at, children, i)
    requires CoversFrom(after, forest, at + [children[i].name])
    ensures CoversSome(after, forest, at, children, i + 1)
  {
    forall j | 0 <= j < i ensures CoversFrom(after, forest, at + [children[j].name]) {
      StaysCovered(before, after, forest, at + [children[j].name]);
    }
  }

  /** A leaf has nothing below it, and an interior node what is below its children. */
  lemma ChildrenCover(keys: seq<Key>, forest: Forest, at: Key, children: seq<Node>)
    requires Rooted(forest) && at in forest && ChildrenAre(forest, at, children)
    requires CoversSome(keys, forest, at, children, |children|)
    ensures CoversBelow(keys, forest, at)
  {
    forall c | c in forest && at < c ensures c in keys {
      var x := c[|at|];
      assert at + [x] <= c;
      PrefixInForest(forest, c, at + [x]);
      var n := forest[at + [x]];
      assert n in children && n.name == x;
      var i :| 0 <= i < |children| && children[i] == n;
      assert CoversFrom(keys, forest, at + [children[i].name]);
    }
  }

  const MAXIMUM_INT := 0x7FFF_FFFF_FFFF_FFFF

  /** A node of the trie with its parent's key, its name and what hangs below it. */
  ghost predicate NodeAt(forest: Forest, repr: set<Node>, at: Key, node: Node)
    reads repr, node
  {
    && Rooted(forest) && at + [node.name] in forest && forest[at + [node.name]] == node && node in repr
    && node.path == Join(at + [node.name], '/') && node.name != "."
    && ChildrenAre(forest, at + [node.name], node.children)
  }

  /** No key is longer than this, and none has a component that names its own directory. */
  ghost predicate Plain(forest: Forest, depth: nat) {
    forall c :: c in forest ==> |c| <= depth && forall i :: 0 <= i < |c| ==> c[i] != "."
  }

  lemma ChildNodeAt(forest: Forest, repr: set<Node>, at: Key, children: seq<Node>, i: nat, depth: nat)
    requires Trie(forest, repr) && Plain(forest, depth) && i < |children| && ChildrenAre(forest, at, children)
    ensures NodeAt(forest, repr, at, children[i])
  {
    var n := children[i];
    assert n in children;
    var key := at + [n.name];
    assert key in forest && key[|at|] == n.name;
    assert NodeDone(forest, repr, key);
  }

  lemma SeenTwiceLater(timeline: Timeline, trace: Trace, count: nat, moment: nat, now: nat, later: nat)
    requires now <= later && AllSeenTwice(timeline, trace, count, moment, now)
    ensures AllSeenTwice(timeline, trace, count, moment, later)
  {
    forall k: nat | k < count ensures SeenTwice(timeline, trace, k, moment, later) {
      assert SeenTwice(timeline, trace, k, moment, now);
    }
  }

  lemma SeenTwiceNext(timeline: Timeline, trace: Trace, k: nat, moment: nat, before: nat, seen: nat, now: nat)
    requires k < |trace.observations| && moment <= before <= seen <= now
    requires AllSeenTwice(timeline, trace, k, moment, before)
    requires SameInfo(trace.observations[k].info, StatOf(timeline(seen), trace.observations[k].info.ino))
    ensures AllSeenTwice(timeline, trace, k + 1, moment, now)
  {
    SeenTwiceLater(timeline, trace, k, moment, before, now);
    assert SeenTwice(timeline, trace, k, moment, now);
  }

  // ---------------------------------------------------------------- the reader

  class UntrackedReader {
    const letters: Letters
    const text: Bytes -> string
    const observer: Observer
    var roots: seq<Handle>
    var observations: seq<UntrackedObservation>
    var entries: seq<UntrackedEntry>
    var remaining: int
    ghost var keys: seq<Key>
    ghost var times: seq<nat>
    ghost var readTimes: seq<nat>
    ghost var parents: seq<nat>

    constructor (letters: Letters, text: Bytes -> string, observer: Observer, maximumBytes: int)
      ensures this.letters == letters && this.text == text && this.observer == observer && remaining == maximumBytes
      ensures roots == [] && Notes() == Trace([], [], [], [], [], [])
    {
      this.letters, this.text, this.observer := letters, text, observer;
      roots, observations, entries, remaining := [], [], [], maximumBytes;
      keys, times, readTimes, parents := [], [], [], [];
    }

    ghost function Notes(): Trace
      reads this
    {
      Trace(observations, entries, keys, times, readTimes, parents)
    }

    ghost predicate Valid()
      reads this, observer
    {
      Lawful(observer.timeline) && SoundTrace(observer.timeline, text, Notes(), observer.now)
    }

    /** `pathInfo`: only directories, regular files and symbolic links pass. */
    method PathInfo(directory: Ino, name: string) returns (r: Option<Stat>)
      modifies observer`now
      ensures old(observer.now) <= observer.now
      ensures r.Some? ==> Resolve(observer.timeline(observer.now), directory, name) == Some(r.value.ino)
      ensures r.Some? ==> r.value == StatOf(observer.timeline(observer.now), r.value.ino) && r.value.kind != Other
    {
      r := observer.Lstat(directory, name);
      if r.Some? && r.value.kind == Other { r := None; }
    }

    method CheckPath(directory: Ino, name: string, info: Stat) returns (ok: bool)
      modifies observer`now
      ensures old(observer.now) <= observer.now
      ensures ok ==> Resolve(observer.timeline(observer.now), directory, name) == Some(info.ino)
      ensures ok ==> SameInfo(info, StatOf(observer.timeline(observer.now), info.ino))
    {
      var current := PathInfo(directory, name);
      ok := current.Some? && SameInfo(info, current.value);
    }

    method CheckFile(file: Ino, info: Stat) returns (ok: bool)
      modifies observer`now
      ensures old(observer.now) <= observer.now
      ensures ok ==> file == info.ino && SameInfo(info, StatOf(observer.timeline(observer.now), file))
    {
      var current := observer.Fstat(file);
      ok := current.Some? && current.value.kind != Other && SameInfo(info, current.value);
    }

    /** `fileData`: on success exactly the bytes the file had when `info` was taken at `t0`. */
    method FileData(root: Ino, name: string, info: Stat, ghost t0: nat) returns (ok: bool, data: Bytes)
      requires Lawful(observer.timeline) && t0 <= observer.now
      requires info == StatOf(observer.timeline(t0), info.ino)
      modifies observer`now
      ensures old(observer.now) <= observer.now
      ensures ok ==> data == At(observer.timeline(t0), info.ino).data && |data| <= remaining
    {
      data := [];
      if info.size > remaining { return false, data; }
      var file := observer.OpenFile(root, name);
      if file.None? { return false, data; }
      ok := CheckFile(file.value.ino, info);
      if !ok { return; }
      ok := CheckPath(root, name, info);
      if !ok { return; }
      ok, data := ReadWhole(observer, info.ino, info.size, info.mtime, t0);
      ghost var atEnd := observer.now;
      if !ok { return; }
      ok := CheckFile(file.value.ino, info);
      if !ok { return; }
      ContentHeld(observer.timeline(t0), observer.timeline(atEnd), observer.timeline(observer.now), info.ino);
      ok := CheckPath(root, name, info);
      if !ok { return; }
      ok := observer.Close();
    }

    /** The readlink operation: the text of whatever link the name leads to by now. */
    method Readlink(directory: Ino, name: string) returns (r: Option<string>)
      modifies observer`now
      ensures old(observer.now) <= observer.now
      ensures r.Some? && name != "." ==>
        (exists j ::
           Bound(observer.timeline(observer.now), directory, name, j)
               && r.value == text(At(observer.timeline(observer.now), j).data))
    {
      var found := observer.Lookup(directory, name);
      if found.None? || At(observer.timeline(observer.now), found.value).kind != Symlink { return None; }
      assert name != "." ==> Bound(observer.timeline(observer.now), directory, name, found.value);
      r := Some(text(At(observer.timeline(observer.now), found.value).data));
    }

    /** `linkText` */
    method LinkText(root: Handle, name: string, info: Stat) returns (r: Option<string>, ghost read: nat)
      modifies observer`now
      ensures old(observer.now) <= read <= observer.now
      ensures r.Some? && name != "." ==>
        (exists j ::
           Bound(observer.timeline(read), root.ino, name, j) && r.value == text(At(observer.timeline(read), j).data))
    {
      read := observer.now;
      var ok := CheckPath(root.ino, name, info);
      if !ok { return None, observer.now; }
      r := Readlink(root.ino, name);
      read := observer.now;
      if r.None? { return; }
      if Utf8Length(r.value) > MAXIMUM_TEXT { return None, read; }
      ok := CheckPath(root.ino, name, info);
      if !ok { return None, read; }
    }

    method Note(o: UntrackedObservation, e: UntrackedEntry, ghost key: Key, ghost t: nat, ghost read: nat, ghost p: nat,
                ghost forest: Forest, ghost repr: set<Node>)
      requires Valid() && OfTrie(Notes(), forest, repr) && p < |observations| && times[p] <= t <= read <= observer.now
      requires o.info == StatOf(observer.timeline(t), o.info.ino) && EntryOf(observer.timeline, text, o, e, t, read)
      requires key == keys[p] + [o.name] && o.path == Join(key, '/')
      requires observations[p].info.kind == Directory && o.parent.ino == observations[p].info.ino
      requires Bound(observer.timeline(t), o.parent.ino, o.name, o.info.ino)
      requires key in forest && forest[key] in repr && (e.kind == "directory" <==> forest[key].children != [])
      modifies this`observations, this`entries, this`keys, this`times, this`readTimes, this`parents
      ensures Valid() && OfTrie(Notes(), forest, repr)
      ensures Notes() == NotedNext(old(Notes()), o, e, key, t, read, p) && Grown(old(Notes()), Notes())
    {
      NotedNextIsSound(observer.timeline, text, Notes(), o, e, key, t, read, p, observer.now);
      OfTrieNext(Notes(), forest, repr, o, e, key, t, read, p);
      observations, entries, keys := observations + [o], entries + [e], keys + [key];
      times, readTimes, parents := times + [t], readTimes + [read], parents + [p];
    }

    /** Where the walk stands: observation k is the open directory `root`, the node at `at`. */
    ghost predicate Within(root: Handle, at: Key, k: nat, forest: Forest, repr: set<Node>)
      reads this, observer, repr
    {
      && Valid() && OfTrie(Notes(), forest, repr)
      && k < |observations| && keys[k] == at && observations[k].info.kind == Directory
      && root.ino == observations[k].info.ino
    }

    /** The leaf branch of `collect`, up to the note: the entry of a file or a link. */
    method ReadLeaf(root: Handle, node: Node, info: Stat, ghost t: nat)
        returns (ok: bool, entry: UntrackedEntry, ghost read: nat)
      requires Lawful(observer.timeline) && t <= observer.now && node.name != "."
      requires info == StatOf(observer.timeline(t), info.ino)
      modifies this`remaining, observer`now
      ensures old(observer.now) <= read <= observer.now
      ensures ok ==> entry.kind != "directory" && entry.path == node.path && ValidUntrackedEntry(letters, entry)
      ensures ok ==> forall o: UntrackedObservation ::
                o.path == node.path && o.name == node.name && o.parent == root && o.info == info ==>
                       EntryOf(observer.timeline, text, o, entry, t, read)
    {
      read := observer.now;
      entry := UntrackedEntry(node.path, "", ModeOf(info), None, "");
      if info.kind == Regular {
        var data;
        ok, data := FileData(root.ino, node.name, info, t);
        read := observer.now;
        if !ok { return; }
        entry := entry.(kind := "file", data := Some(data));
        remaining := remaining - |data|;
      } else if info.kind == Symlink {
        var target;
        target, read := LinkText(root, node.name, info);
        if target.None? { return false, entry, read; }
        entry := entry.(kind := "symlink", linkTarget := target.value);
      } else {
        return false, entry, read;
      }
      ok := ValidUntrackedEntry(letters, entry);
    }

    method VisitLeaf(root: Handle, node: Node, info: Stat, ghost t: nat,
                     ghost at: Key, ghost k: nat, ghost forest: Forest, ghost repr: set<Node>) returns (ok: bool)
      requires Within(root, at, k, forest, repr) && NodeAt(forest, repr, at, node) && node.children == []
      requires times[k] <= t <= observer.now && info == StatOf(observer.timeline(t), info.ino)
      requires Bound(observer.timeline(t), root.ino, node.name, info.ino)
      modifies this`observations, this`entries, this`keys, this`times, this`readTimes, this`parents, this`remaining
      modifies observer`now
      ensures old(observer.now) <= observer.now
      ensures ok ==> Within(root, at, k, forest, repr) && Grown(old(Notes()), Notes())
      ensures ok ==> CoversFrom(keys, forest, at + [node.name])
    {
      var entry;
      ghost var read;
      ok, entry, read := ReadLeaf(root, node, info, t);
      if !ok { return; }
      TraceLater(observer.timeline, text, Notes(), old(observer.now), observer.now);
      var observation := UntrackedObservation(node.path, node.name, root, None, info, entry.linkTarget);
      ghost var key := at + [node.name];
      Note(observation, entry, key, t, read, k, forest, repr);
      assert keys[|keys| - 1] == key;
      ChildrenCover(keys, forest, key, node.children);
      CoveredFromHere(keys, forest, key);
    }

    /** Opening a directory, and making sure both ways that it is the observed one. */
    method OpenPinned(root: Handle, name: string, info: Stat) returns (ok: bool, child: Handle)
      modifies this`roots, observer
      ensures old(observer.now) <= observer.now
      ensures ok ==> child.ino == info.ino
    {
      child := root;
      var pinned := observer.OpenDirectory(root.ino, name);
      if pinned.None? { return false, child; }
      child := pinned.value;
      roots := roots + [child];
      ok := CheckPath(child.ino, ".", info);
      if !ok { return; }
      ok := CheckPath(root.ino, name, info);
    }

    /** The interior branch of `collect`, up to the recursive call. */
    method PinParent(root: Handle, node: Node, info: Stat, ghost t: nat,
                     ghost at: Key, ghost k: nat, ghost forest: Forest, ghost repr: set<Node>)
        returns (ok: bool, child: Handle)
      requires Within(root, at, k, forest, repr) && NodeAt(forest, repr, at, node) && node.children != []
      requires times[k] <= t <= observer.now && info == StatOf(observer.timeline(t), info.ino)
      requires Bound(observer.timeline(t), root.ino, node.name, info.ino)
      modifies this`roots, this`observations, this`entries, this`keys, this`times, this`readTimes, this`parents
      modifies observer
      ensures old(observer.now) <= observer.now
      ensures ok ==> Within(child, at + [node.name], |old(observations)|, forest, repr) && Grown(old(Notes()), Notes())
    {
      child := root;
      if info.kind != Directory { return false, child; }
      ok, child := OpenPinned(root, node.name, info);
      if !ok { return; }
      TraceLater(observer.timeline, text, Notes(), old(observer.now), observer.now);
      var entry := UntrackedEntry(node.path, "directory", ModeOf(info), None, "");
      var observation := UntrackedObservation(node.path, node.name, root, Some(child), info, "");
      Note(observation, entry, at + [node.name], t, t, k, forest, repr);
    }

    method VisitParent(root: Handle, node: Node, info: Stat, ghost t: nat,
                       ghost at: Key, ghost k: nat, ghost forest: Forest, ghost repr: set<Node>, ghost depth: nat)
        returns (ok: bool)
      requires Within(root, at, k, forest, repr) && NodeAt(forest, repr, at, node) && node.children != []
      requires Trie(forest, repr) && Plain(forest, depth)
      requires times[k] <= t <= observer.now && info == StatOf(observer.timeline(t), info.ino)
      requires Bound(observer.timeline(t), root.ino, node.name, info.ino)
      modifies this, observer
      ensures old(observer.now) <= observer.now
      ensures ok ==> Within(root, at, k, forest, repr) && Grown(old(Notes()), Notes())
      ensures ok ==> CoversFrom(keys, forest, at + [node.name])
      decreases depth - |at|, 0
    {
      var child;
      ok, child := PinParent(root, node, info, t, at, k, forest, repr);
      if !ok { return; }
      ghost var key, index, noted := at + [node.name], |old(observations)|, Notes();
      assert key in forest && |key| <= depth;
      ok := Collect(child, node, key, index, forest, repr, depth);
      if !ok { return; }
      Sequences.InLonger(noted.keys, keys, key);
      CoveredFromHere(keys, forest, key);
    }

    /** One turn of the loop in `collect`. */
    method Visit(root: Handle, node: Node, ghost at: Key, ghost k: nat, ghost forest: Forest, ghost repr: set<Node>,
                 ghost depth: nat)
        returns (ok: bool)
      requires Within(root, at, k, forest, repr) && NodeAt(forest, repr, at, node)
      requires Trie(forest, repr) && Plain(forest, depth)
      modifies this, observer
      ensures old(observer.now) <= observer.now
      ensures ok ==> Within(root, at, k, forest, repr) && Grown(old(Notes()), Notes())
      ensures ok ==> CoversFrom(keys, forest, at + [node.name])
      decreases depth - |at|, 1
    {
      var info := PathInfo(root.ino, node.name);
      if info.None? { return false; }
      TraceLater(observer.timeline, text, Notes(), old(observer.now), observer.now);
      assert NotedAt(observer.timeline, text, Notes(), k, observer.now);
      if |node.children| != 0 {
        ok := VisitParent(root, node, info.value, observer.now, at, k, forest, repr, depth);
      } else {
        ok := VisitLeaf(root, node, info.value, observer.now, at, k, forest, repr);
      }
    }

    /** `collect`: everything below one node of the trie. */
    method Collect(root: Handle, selection: Node, ghost at: Key, ghost k: nat, ghost forest: Forest,
                   ghost repr: set<Node>, ghost depth: nat)
        returns (ok: bool)
      requires Within(root, at, k, forest, repr) && at in forest && forest[at] == selection
      requires Trie(forest, repr) && Plain(forest, depth) && |at| <= depth
      modifies this, observer
      ensures old(observer.now) <= observer.now
      ensures ok ==> Within(root, at, k, forest, repr) && Grown(old(Notes()), Notes())
      ensures ok ==> CoversBelow(keys, forest, at)
      decreases depth - |at|, 2
    {
      var children := selection.children;
      assert NodeDone(forest, repr, at);
      for i := 0 to |children|
        invariant old(observer.now) <= observer.now
        invariant Within(root, at, k, forest, repr) && Grown(old(Notes()), Notes())
        invariant CoversSome(keys, forest, at, children, i)
      {
        ghost var before := keys;
        ChildNodeAt(forest, repr, at, children, i, depth);
        ok := Visit(root, children[i], at, k, forest, repr, depth);
        if !ok { return; }
        CoversOneMore(before, keys, forest, at, children, i);
      }
      ChildrenCover(keys, forest, at, children);
      ok := true;
    }

    /** `rootInfo`: the directory that the path names, observed through its own handle. */
    method RootInfo(directory: string) returns (r: Option<Stat>, ghost named: nat, ghost seen: nat)
      requires directory != "."
      modifies observer`now
      ensures old(observer.now) <= named <= seen <= observer.now
      ensures r.Some? ==> Bound(observer.timeline(named), ABOVE, directory, r.value.ino)
      ensures r.Some? ==> r.value == StatOf(observer.timeline(seen), r.value.ino)
    {
      var file := observer.OpenFile(ABOVE, directory);
      named, seen := observer.now, observer.now;
      if file.None? { return None, named, seen; }
      r := observer.Fstat(file.value.ino);
      seen := observer.now;
      if r.Some? && r.value.kind == Other { r := None; }
      var closed := observer.Close();
      if !closed { r := None; }
    }

    method CheckRootPath(directory: string, initial: Stat) returns (ok: bool, ghost named: nat)
      requires directory != "."
      modifies observer`now
      ensures old(observer.now) <= named <= observer.now
      ensures ok ==> Bound(observer.timeline(named), ABOVE, directory, initial.ino)
    {
      var current;
      ghost var seen;
      current, named, seen := RootInfo(directory);
      ok := current.Some? && SameInfo(initial, current.value);
    }

    /** The directory to be read: observed by its path, opened, and checked both ways. */
    method OpenRoot(directory: string)
        returns (ok: bool, root: Handle, initial: Stat, ghost named: nat, ghost seen: nat)
      requires directory != "."
      modifies this`roots, observer
      ensures old(observer.now) <= named <= seen <= observer.now
      ensures ok ==> Bound(observer.timeline(named), ABOVE, directory, initial.ino)
      ensures ok ==>
                initial == StatOf(observer.timeline(seen), initial.ino) && initial.kind == Directory
                && root.ino == initial.ino
    {
      root, initial := Handle(0, 0), StatOf(map[], 0);
      var info, pinned;
      ghost var again;
      info, named, seen := RootInfo(directory);
      if info.None? || info.value.kind != Directory { return false, root, initial, named, seen; }
      initial := info.value;
      pinned := observer.OpenDirectory(ABOVE, directory);
      if pinned.None? { return false, root, initial, named, seen; }
      root := pinned.value;
      roots := roots + [root];
      ok := CheckPath(root.ino, ".", initial);
      if !ok { return; }
      ok, again := CheckRootPath(directory, initial);
    }

    /** The start of `readUntracked`, up to the note of the root itself. */
    method Begin(directory: string, ghost forest: Forest, ghost repr: set<Node>)
        returns (ok: bool, root: Handle, initial: Stat, ghost named: nat)
      requires Lawful(observer.timeline) && directory != "." && Notes() == Trace([], [], [], [], [], [])
      modifies this`roots, this`observations, this`keys, this`times, this`readTimes, this`parents, observer
      ensures old(observer.now) <= named <= observer.now
      ensures ok ==> Within(root, [], 0, forest, repr) && observations[0].info == initial && |observations| == 1
      ensures ok ==> Bound(observer.timeline(named), ABOVE, directory, initial.ino) && named <= times[0]
    {
      ghost var seen;
      ok, root, initial, named, seen := OpenRoot(directory);
      if !ok { return; }
      observations := observations + [UntrackedObservation(".", ".", root, Some(root), initial, "")];
      keys, times, readTimes, parents := [[]], [seen], [seen], [0];
      assert NotedAt(observer.timeline, text, Notes(), 0, observer.now);
    }

    /** One turn of the re-validation loop: the name, the open directory, and the text of a link. */
    method LookAgain(observation: UntrackedObservation) returns (ok: bool, ghost seen: nat)
      modifies observer`now
      ensures old(observer.now) <= seen <= observer.now
      ensures ok ==> SameInfo(observation.info, StatOf(observer.timeline(seen), observation.info.ino))
    {
      ok := CheckPath(observation.parent.ino, observation.name, observation.info);
      seen := observer.now;
      if !ok { return; }
      if observation.directory.Some? && observation.directory.value != observation.parent {
        ok := CheckPath(observation.directory.value.ino, ".", observation.info);
        if !ok { return; }
      }
      if observation.linkTarget != "" {
        var target;
        ghost var read;
        target, read := LinkText(observation.parent, observation.name, observation.info);
        ok := target == Some(observation.linkTarget);
      }
    }

    method Revalidate(ghost trace: Trace) returns (ok: bool)
      requires trace == Notes()
      modifies observer`now
      ensures old(observer.now) <= observer.now
      ensures ok ==> AllSeenTwice(observer.timeline, trace, |trace.observations|, old(observer.now), observer.now)
    {
      for k := 0 to |observations|
        invariant old(observer.now) <= observer.now
        invariant AllSeenTwice(observer.timeline, trace, k, old(observer.now), observer.now)
      {
        ghost var before := observer.now;
        ghost var seen;
        ok, seen := LookAgain(observations[k]);
        if !ok { return; }
        SeenTwiceNext(observer.timeline, trace, k, old(observer.now), before, seen, observer.now);
      }
      ok := true;
    }

    /** The deferred closing of every directory handle. */
    method CloseRoots() returns (ok: bool)
      modifies observer`now
      ensures old(observer.now) <= observer.now
    {
      ok := true;
      for k := |roots| downto 0
        invariant old(observer.now) <= observer.now
      {
        var closed := observer.Close();
        ok := ok && closed;
      }
    }

    /** What is read is what the paths ask for: the given node is the root of their finished trie. */
    ghost function SelectionOf(paths: seq<string>, selection: Node, forest: Forest, repr: set<Node>, depth: nat): Whole
      reads repr
    {
      if Trie(forest, repr) && Mirrors(forest, repr, paths) && Plain(forest, depth) && forest[[]] == selection
      then Complete else Lacking
    }

    /** Open the root, collect, and validate what was found. */
    method Gather(directory: string, selection: Node, maximumBytes: nat, ghost paths: seq<string>, ghost forest: Forest,
                  ghost repr: set<Node>, ghost depth: nat)
        returns (ok: bool, initial: Stat, ghost first: nat)
      requires Lawful(observer.timeline) && letters.Lawful() && directory != "."
               && Notes() == Trace([], [], [], [], [], [])
      requires SelectionOf(paths, selection, forest, repr, depth) == Complete
      modifies this, observer
      ensures old(observer.now) <= first <= observer.now
      ensures ok ==> Valid() && GatheredOf(letters, paths, maximumBytes, Notes()) == Complete
      ensures ok ==>
                observations[0].info == initial && Bound(observer.timeline(first), ABOVE, directory, initial.ino)
                && first <= times[0]
    {
      var root;
      ok, root, initial, first := Begin(directory, forest, repr);
      if !ok { return; }
      ok := Collect(root, selection, [], 0, forest, repr, depth);
      if !ok { return; }
      CollectedMatches(observer.timeline, text, Notes(), observer.now, paths, forest, repr);
      CollectedCleanly(Notes(), forest, repr);
      ok := ValidateUntrackedEntries(letters, entries, maximumBytes);
    }

    /** `readUntracked` up to the deferred closing. */
    method Read(directory: string, selection: Node, maximumBytes: nat, ghost paths: seq<string>, ghost forest: Forest,
                ghost repr: set<Node>, ghost depth: nat)
        returns (ok: bool, ghost moment: nat, ghost first: nat, ghost last: nat)
      requires Lawful(observer.timeline) && letters.Lawful() && directory != "."
               && Notes() == Trace([], [], [], [], [], [])
      requires SelectionOf(paths, selection, forest, repr, depth) == Complete
      modifies this, observer
      ensures old(observer.now) <= first <= moment <= last <= observer.now
      ensures ok ==> SettledSince(observer.timeline, text, Notes(), directory, first, moment, last)
      ensures ok ==> GatheredOf(letters, paths, maximumBytes, Notes()) == Complete
    {
      var initial;
      ok, initial, first := Gather(directory, selection, maximumBytes, paths, forest, repr, depth);
      moment, last := observer.now, observer.now;
      if !ok { return; }
      ghost var trace := Notes();
      ok := Revalidate(trace);
      ghost var seen := observer.now;
      last := seen;
      if !ok { return; }
      ok, last := CheckRootPath(directory, initial);
      SeenTwiceLater(observer.timeline, trace, |trace.observations|, moment, seen, last);
    }

    /** Read, close, and put the entries in order. */
    method ReadAndClose(directory: string, selection: Node, maximumBytes: nat,
                        ghost paths: seq<string>, ghost forest: Forest, ghost repr: set<Node>, ghost depth: nat)
        returns (result: Option<seq<UntrackedEntry>>, ghost moment: nat, ghost root: Ino, ghost first: nat,
                 ghost last: nat)
      requires Lawful(observer.timeline) && letters.Lawful() && directory != "."
               && Notes() == Trace([], [], [], [], [], []) && Requestable(letters, paths)
      requires SelectionOf(paths, selection, forest, repr, depth) == Complete
      modifies this, observer
      ensures result.Some? ==> old(observer.now) <= first <= moment <= last <= observer.now
      ensures result.Some? ==>
                Delivered(letters, text, observer.timeline, directory, paths, maximumBytes, root, first, moment, last,
                          result.value)
    {
      result, root := None, 0;
      var ok;
      ok, moment, first, last := Read(directory, selection, maximumBytes, paths, forest, repr, depth);
      var closed := CloseRoots();
      if !ok || !closed { return; }
      root := observations[0].info.ino;
      SettledResult(letters, text, observer.timeline, Notes(), directory, first, moment, last, paths, maximumBytes);
      result := Some(OrderedByPath(entries));
    }
  }

  // ---------------------------------------------------------------- the whole read

  lemma {:induction false} DepthOf(lists: seq<Key>) returns (depth: nat)
    ensures forall c :: c in Wanted(lists) ==> |c| <= depth
  {
    depth := 0;
    if lists != [] {
      var fewer, last := lists[..|lists| - 1], lists[|lists| - 1];
      var shallow := DepthOf(fewer);
      depth := if shallow < |last| then |last| else shallow;
    }
  }

  /** Requested paths have no component that names its own directory. */
  lemma TrieIsPlain(letters: Letters, paths: seq<string>, forest: Forest, depth: nat)
    requires Requestable(letters, paths) && forest.Keys == Wanted(ComponentLists(paths))
    requires forall c :: c in Wanted(ComponentLists(paths)) ==> |c| <= depth
    ensures Plain(forest, depth)
  {
    var lists := ComponentLists(paths);
    forall c, i | c in forest && 0 <= i < |c| ensures c[i] != "." {
      WantedMeaning(lists, c);
      var j :| 0 <= j < |lists| && c <= lists[j];
      assert ValidUntrackedEntry(letters, Requested(paths)[j]);
      assert lists[j][i] in Split(paths[j], '/');
    }
  }

  /** What `collect` gathers has the shape that `validateSourceUntracked` asks for. */
  lemma CollectedMatches(timeline: Timeline, text: Bytes -> string, trace: Trace, now: nat,
                         paths: seq<string>, forest: Forest, repr: set<Node>)
    requires SoundTrace(timeline, text, trace, now) && OfTrie(trace, forest, repr)
             && CoversBelow(trace.keys, forest, [])
    requires Trie(forest, repr) && Mirrors(forest, repr, paths)
    ensures MatchesRequest(trace.entries, paths)
  {
    forall p | p in paths || IsParent(p, paths) ensures HasPath(trace.entries, p) {
      assert PathMirrored(forest, p);
      assert Components(p) in trace.keys;
      var k :| 0 <= k < |trace.keys| && trace.keys[k] == Components(p);
      assert NotedAt(timeline, text, trace, k, now);
      JoinSplit(p, '/');
      assert trace.entries[k - 1] in trace.entries;
    }
    forall e | e in trace.entries
      ensures e.path in paths || IsParent(e.path, paths)
      ensures e.kind == "directory" <==> IsParent(e.path, paths)
    {
      var i :| 0 <= i < |trace.entries| && trace.entries[i] == e;
      NotedPath(timeline, text, trace, now, paths, forest, repr, i + 1);
    }
  }

  lemma NotedPath(timeline: Timeline, text: Bytes -> string, trace: Trace, now: nat,
                  paths: seq<string>, forest: Forest, repr: set<Node>, k: nat)
    requires SoundTrace(timeline, text, trace, now) && OfTrie(trace, forest, repr) && 0 < k < |trace.observations|
    requires Trie(forest, repr) && Mirrors(forest, repr, paths)
    ensures trace.entries[k - 1].path in paths || IsParent(trace.entries[k - 1].path, paths)
    ensures trace.entries[k - 1].kind == "directory" <==> IsParent(trace.entries[k - 1].path, paths)
  {
    assert NotedAt(timeline, text, trace, k, now) && OfNode(trace, forest, repr, k);
    assert NodeMirrors(forest, repr, paths, trace.keys[k]);
  }

  function OrderedByPath(entries: seq<UntrackedEntry>): seq<UntrackedEntry> {
    Sorting.Sort(entries, (e: UntrackedEntry) => e.path)
  }

  ghost predicate EntriesAscend(entries: seq<UntrackedEntry>) {
    forall i, j :: 0 <= i < j < |entries| ==> Text.Less(entries[i].path, entries[j].path)
  }

  ghost predicate SameMembers(xs: seq<UntrackedEntry>, ys: seq<UntrackedEntry>) {
    (forall e :: e in xs ==> e in ys) && (forall e :: e in ys ==> e in xs)
  }

  /** The conditions on single entries and on pairs of them do not depend on the order. */
  lemma OrderIrrelevant(letters: Letters, xs: seq<UntrackedEntry>, ys: seq<UntrackedEntry>, paths: seq<string>)
    requires SameMembers(xs, ys) && EntriesAscend(ys)
    requires EachValid(letters, xs) && AllPairsFine(letters, xs) && MatchesRequest(xs, paths)
    ensures EachValid(letters, ys) && AllPairsFine(letters, ys) && MatchesRequest(ys, paths)
  {
    forall i | 0 <= i < |ys| ensures ValidUntrackedEntry(letters, ys[i]) {
      assert ys[i] in ys;
      var k :| 0 <= k < |xs| && xs[k] == ys[i];
    }
    forall i, j | 0 <= i < j < |ys| ensures Fold(letters, ys[i].path) != Fold(letters, ys[j].path) {
      assert ys[i] in ys && ys[j] in ys;
      var a :| 0 <= a < |xs| && xs[a] == ys[i];
      var b :| 0 <= b < |xs| && xs[b] == ys[j];
      Text.LessIrreflexive(ys[i].path);
    }
    forall p ensures HasPath(ys, p) <==> HasPath(xs, p) {
      if HasPath(xs, p) { var e :| e in xs && e.path == p; assert e in ys; }
      if HasPath(ys, p) { var e :| e in ys && e.path == p; assert e in xs; }
    }
  }

  lemma SortKeepsEntries(letters: Letters, entries: seq<UntrackedEntry>)
    requires DistinctIdentities(letters, entries)
    ensures SameMembers(entries, OrderedByPath(entries)) && EntriesAscend(OrderedByPath(entries))
  {
    var key := (e: UntrackedEntry) => e.path;
    Sorting.SortMembers(entries, key);
    assert Sorting.DistinctKeys(entries, key);
    Sorting.SortDistinct(entries, key);
  }

  /** Every entry is what its path held at this moment. */
  ghost predicate AllHeld(fs: FS, root: Ino, text: Bytes -> string, entries: seq<UntrackedEntry>, modes: bool) {
    forall e :: e in entries ==> HeldAt(fs, root, text, e, modes)
  }

  /** No object that an entry's path leads to has permissions that go away and come back within the window. */
  ghost predicate NoneOfThemReturns(timeline: Timeline, root: Ino, entries: seq<UntrackedEntry>, moment: nat,
                                    from: nat, to: nat) {
    forall e <- entries :: EntryNeverReturns(timeline, root, e, moment, from, to)
  }

  ghost predicate EntryNeverReturns(timeline: Timeline, root: Ino, e: UntrackedEntry, moment: nat, from: nat, to: nat) {
    var found := Walk(timeline(moment), root, Components(e.path));
    found.Some? ==> NeverReturns(timeline, found.value, moment, from, to)
  }

  lemma CollectedCleanly(trace: Trace, forest: Forest, repr: set<Node>)
    requires Rooted(forest) && Aligned(trace) && OfTrie(trace, forest, repr)
    ensures CleanKeys(trace)
  {
    forall k | 0 < k < |trace.keys| ensures Clean(trace.keys[k]) {
      assert OfNode(trace, forest, repr, k);
    }
  }

  lemma SettledAllHeld(timeline: Timeline, text: Bytes -> string, trace: Trace, from: nat, moment: nat, now: nat,
                       modes: bool)
    requires Settled(timeline, text, trace, moment, now) && from <= trace.times[0] && CleanKeys(trace)
    requires modes ==> NoneOfThemReturns(timeline, trace.observations[0].info.ino, trace.entries, moment, from, now)
    ensures AllHeld(timeline(moment), trace.observations[0].info.ino, text, trace.entries, modes)
  {
    forall e | e in trace.entries ensures HeldAt(timeline(moment), trace.observations[0].info.ino, text, e, modes) {
      var i :| 0 <= i < |trace.entries| && trace.entries[i] == e;
      EntryLeads(timeline, text, trace, moment, now, i + 1);
      NotBeforeFirst(timeline, text, trace, moment, i + 1);
      assert modes ==> EntryNeverReturns(timeline, trace.observations[0].info.ino, e, moment, from, now);
      SettledEntryHeld(timeline, text, trace, from, moment, now, i + 1, modes);
    }
  }

  /** An entry's path leads to the object that was observed. */
  lemma EntryLeads(timeline: Timeline, text: Bytes -> string, trace: Trace, moment: nat, now: nat, k: nat)
    requires Settled(timeline, text, trace, moment, now) && 0 < k < |trace.observations| && CleanKeys(trace)
    ensures Walk(timeline(moment), trace.observations[0].info.ino, Components(trace.entries[k - 1].path))
         == Some(trace.observations[k].info.ino)
  {
    assert NotedAt(timeline, text, trace, k, moment);
    KeysLead(timeline, text, trace, moment, now, k);
    SplitJoin(trace.keys[k], '/');
  }

  /** Everything that was requested, and nothing else, as it was at one moment. */
  ghost predicate RequestedAtOneMoment(letters: Letters, text: Bytes -> string, timeline: Timeline, paths: seq<string>,
                                       root: Ino, from: nat, moment: nat, to: nat, entries: seq<UntrackedEntry>) {
    && Requestable(letters, paths) && MatchesRequest(entries, paths)
    && AllHeld(timeline(moment), root, text, entries, false)
    && (NoneOfThemReturns(timeline, root, entries, moment, from, to) ==>
          AllHeld(timeline(moment), root, text, entries, true))
    && EachValid(letters, entries) && AllPairsFine(letters, entries) && EntriesAscend(entries)
  }

  /** Whether the entries are everything that was requested, as it was at one moment. */
  ghost function ReadingOf(letters: Letters, text: Bytes -> string, timeline: Timeline, paths: seq<string>,
                           root: Ino, from: nat, moment: nat, to: nat, entries: seq<UntrackedEntry>): Whole {
    if RequestedAtOneMoment(letters, text, timeline, paths, root, from, moment, to, entries)
    then Complete else Lacking
  }

  /** What a successful read returns: the requested entries of one moment, within the budget, below the object that the
      path named before and after. */
  ghost predicate Delivered(letters: Letters, text: Bytes -> string, timeline: Timeline, directory: string,
                            paths: seq<string>, maximumBytes: int, root: Ino, first: nat, moment: nat, last: nat,
                            entries: seq<UntrackedEntry>) {
    && ReadingOf(letters, text, timeline, paths, root, first, moment, last, entries) == Complete
    && TotalData(entries) <= maximumBytes
    && Bound(timeline(first), ABOVE, directory, root) && Bound(timeline(last), ABOVE, directory, root)
  }

  lemma SettledReading(letters: Letters, text: Bytes -> string, timeline: Timeline, trace: Trace, from: nat,
                       moment: nat, now: nat, paths: seq<string>, maximumBytes: int)
    requires Settled(timeline, text, trace, moment, now) && from <= trace.times[0] && Requestable(letters, paths)
    requires Gathered(letters, paths, maximumBytes, trace)
    ensures RequestedAtOneMoment(letters, text, timeline, paths, trace.observations[0].info.ino, from, moment, now,
                                 OrderedByPath(trace.entries))
  {
    var root := trace.observations[0].info.ino;
    SettledAllHeld(timeline, text, trace, from, moment, now, false);
    SortKeepsEntries(letters, trace.entries);
    if NoneOfThemReturns(timeline, root, OrderedByPath(trace.entries), moment, from, now) {
      SettledAllHeld(timeline, text, trace, from, moment, now, true);
    }
    OrderIrrelevant(letters, trace.entries, OrderedByPath(trace.entries), paths);
  }

  /** A settled trace of what was requested is, in path order, what may be returned. */
  lemma SettledResult(letters: Letters, text: Bytes -> string, timeline: Timeline, trace: Trace, directory: string,
                      first: nat, moment: nat, last: nat, paths: seq<string>, maximumBytes: int)
    requires SettledSince(timeline, text, trace, directory, first, moment, last) && Requestable(letters, paths)
    requires GatheredOf(letters, paths, maximumBytes, trace) == Complete
    ensures Delivered(letters, text, timeline, directory, paths, maximumBytes, trace.observations[0].info.ino,
                      first, moment, last, OrderedByPath(trace.entries))
  {
    SettledReading(letters, text, timeline, trace, first, moment, last, paths, maximumBytes);
    TotalDataPermutes(trace.entries, OrderedByPath(trace.entries));
  }

  /** `readUntracked` once the requested paths are a trie. */
  method ReadSelection(letters: Letters, text: Bytes -> string, observer: Observer, directory: string, selection: Node,
                       maximumBytes: nat, ghost paths: seq<string>, ghost forest: Forest, ghost repr: set<Node>)
      returns (result: Option<seq<UntrackedEntry>>, ghost moment: nat, ghost root: Ino, ghost first: nat,
               ghost last: nat)
    requires Lawful(observer.timeline) && letters.Lawful() && directory != "."
    requires Trie(forest, repr) && Mirrors(forest, repr, paths) && forest[[]] == selection
    requires Requestable(letters, paths) && forest.Keys == Wanted(ComponentLists(paths))
    modifies observer
    ensures result.Some? ==> old(observer.now) <= first <= moment <= last <= observer.now
    ensures result.Some? ==>
              Delivered(letters, text, observer.timeline, directory, paths, maximumBytes, root, first, moment, last,
                        result.value)
  {
    ghost var depth := DepthOf(ComponentLists(paths));
    TrieIsPlain(letters, paths, forest, depth);
    var reader := new UntrackedReader(letters, text, observer, maximumBytes);
    assert reader.SelectionOf(paths, selection, forest, repr, depth) == Complete;
    result, moment, root, first, last := reader.ReadAndClose(directory, selection, maximumBytes, paths, forest, repr,
                                                             depth);
  }

  /** `readUntracked`. A successful read returns an entry for every requested path and every directory above one, and
      nothing else, as they all were at one moment, while the path named `root` before and after it. */
  method ReadUntracked(letters: Letters, text: Bytes -> string, observer: Observer, directory: string,
                       paths: seq<string>, maximumBytes: int)
      returns (result: Option<seq<UntrackedEntry>>, ghost moment: nat, ghost root: Ino, ghost first: nat,
               ghost last: nat)
    requires Lawful(observer.timeline) && letters.Lawful()
    modifies observer
    ensures result.Some? ==> old(observer.now) <= first <= moment <= last <= observer.now
    ensures result.Some? ==>
              Delivered(letters, text, observer.timeline, directory, paths, maximumBytes, root, first, moment, last,
                        result.value)
  {
    result, moment, root, first, last := None, observer.now, 0, observer.now, observer.now;
    if maximumBytes <= 0 || maximumBytes >= MAXIMUM_INT { return; }
    if Utf8Length(directory) > 32 * 1024 || !CanonicalAbsolute(directory) { return; }
    var selection;
    ghost var forest, repr;
    selection, forest, repr := SelectUntrackedReadPaths(letters, paths);
    if !selection.Selected? { return; }
    result, moment, root, first, last :=
      ReadSelection(letters, text, observer, directory, selection.root, maximumBytes, paths, forest, repr);
  }
}
