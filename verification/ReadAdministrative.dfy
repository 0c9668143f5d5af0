/** Reading an administrative directory while other programs change it.

    Every operation happens at its own moment of an arbitrary history of file-system states. The reader
    notes what it saw, then looks at everything again; equal metadata at both looks means that one moment
    existed at which everything it returned was true at once. */
module ReadAdministrative {
  import opened FileSystem
  import opened Paths
  import opened Administrative
  import Sequences
  import Sorting
  import Text

  type Timeline = nat -> FS

  /** An open directory: where the kernel resolves names from, whatever happens to its own name. */
  datatype Handle = Handle(serial: nat, ino: Ino)

  /** An open file or directory stream; `started` is the object's modification time when it was opened. */
  datatype File = File(ino: Ino, started: nat)

  datatype Status = More | End | Failed

  /** `compareAdministrativeReadInfo`: the identity, mode, size and modification time of a Go `FileInfo`. */
  predicate SameInfo(x: Stat, y: Stat) {
    x.ino == y.ino && x.kind == y.kind && x.mode == y.mode && x.size == y.size && x.mtime == y.mtime
  }

  function ModeOf(info: Stat): FileMode {
    FileMode(info.kind, info.mode)
  }

  function ChildPath(parent: string, name: string): string {
    if parent == "." then name else parent + "/" + name
  }

  ghost predicate Lawful(timeline: Timeline) {
    forall s, t :: s <= t ==> Evolves(timeline(s), timeline(t))
  }

  /** What comparing two looks cannot tell: the permissions are the same at s and at u, and so is the content, but in
      between, at t, the permissions are others. */
  ghost predicate Returns(timeline: Timeline, i: Ino, s: nat, t: nat, u: nat) {
    && s <= t <= u
    && At(timeline(s), i).mtime == At(timeline(u), i).mtime && At(timeline(s), i).mode == At(timeline(u), i).mode
    && At(timeline(t), i).mode != At(timeline(s), i).mode
  }

  /** Around this moment, within the window, the object's permissions do not go away and come back. */
  ghost predicate NeverReturns(timeline: Timeline, i: Ino, moment: nat, from: nat, to: nat) {
    forall s: nat, u: nat {:trigger Returns(timeline, i, s, moment, u)} ::
      from <= s && u <= to ==> !Returns(timeline, i, s, moment, u)
  }

  // ---------------------------------------------------------------- operations

  class Observer {
    const timeline: Timeline
    var now: nat
    var issued: nat

    constructor (timeline: Timeline)
      ensures this.timeline == timeline
    {
      this.timeline := timeline;
      now, issued := 0, 0;
    }

    /** Other programs run for a while. */
    method Pass()
      modifies this`now
      ensures old(now) <= now
    {
      var delay: int :| 0 <= delay;
      now := now + delay;
    }

    method Lookup(directory: Ino, name: string) returns (r: Option<Ino>)
      modifies this`now
      ensures old(now) <= now
      ensures r.Some? ==> Resolve(timeline(now), directory, name) == r
    {
      Pass();
      var refused: bool := *;
      r := if refused then None else Resolve(timeline(now), directory, name);
    }

    method OpenFile(directory: Ino, name: string) returns (r: Option<File>)
      modifies this`now
      ensures old(now) <= now
      ensures r.Some? ==> Resolve(timeline(now), directory, name) == Some(r.value.ino)
      ensures r.Some? ==> r.value.started == At(timeline(now), r.value.ino).mtime
    {
      var found := Lookup(directory, name);
      if found.None? { return None; }
      r := Some(File(found.value, At(timeline(now), found.value).mtime));
    }

    /** Opening a directory to resolve further names from. */
    method OpenDirectory(directory: Ino, name: string) returns (r: Option<Handle>)
      modifies this
      ensures old(now) <= now
      ensures r.Some? ==> Resolve(timeline(now), directory, name) == Some(r.value.ino)
      ensures r.Some? ==> r.value.serial == old(issued) < issued
      ensures old(issued) <= issued
    {
      var found := Lookup(directory, name);
      if found.None? || At(timeline(now), found.value).kind != Directory { return None; }
      r := Some(Handle(issued, found.value));
      issued := issued + 1;
    }

    method Lstat(directory: Ino, name: string) returns (r: Option<Stat>)
      modifies this`now
      ensures old(now) <= now
      ensures r.Some? ==> Resolve(timeline(now), directory, name) == Some(r.value.ino)
      ensures r.Some? ==> r.value == StatOf(timeline(now), r.value.ino)
    {
      var found := Lookup(directory, name);
      if found.None? { return None; }
      r := Some(StatOf(timeline(now), found.value));
    }

    method Fstat(i: Ino) returns (r: Option<Stat>)
      modifies this`now
      ensures old(now) <= now
      ensures r.Some? ==> r.value == StatOf(timeline(now), i)
    {
      Pass();
      var refused: bool := *;
      r := if refused then None else Some(StatOf(timeline(now), i));
    }

    /** One batch of a directory stream. The kernel promises something only about a directory whose
        modification time is still the one the stream started with. */
    method ReadNames(file: File, listed: seq<string>) returns (batch: seq<string>, status: Status)
      modifies this`now
      ensures old(now) <= now
      ensures At(timeline(now), file.ino).mtime == file.started && status != Failed ==>
                && (forall n <- batch :: n in At(timeline(now), file.ino).names)
                && (status == End ==> forall n <- At(timeline(now), file.ino).names :: n in listed || n in batch)
    {
      Pass();
      batch := *;
      status := *;
      if exists n <- batch :: n !in At(timeline(now), file.ino).names {
        if At(timeline(now), file.ino).mtime == file.started { status := Failed; }
      } else if exists n <- At(timeline(now), file.ino).names :: n !in listed && n !in batch {
        if status == End { status := More; }
      }
    }

    /** A read from an open file. A count outside the buffer is possible and must be caught by the caller. */
    method Read(i: Ino, offset: nat, length: nat) returns (count: int, bytes: Bytes, status: Status)
      modifies this`now
      ensures old(now) <= now
      ensures 0 <= count <= length && status != Failed ==>
                offset + count <= |At(timeline(now), i).data|
                && bytes == At(timeline(now), i).data[offset..offset + count]
      ensures 0 <= count <= length && status == End ==> offset + count == |At(timeline(now), i).data|
    {
      Pass();
      count := *;
      status := *;
      bytes := [];
      var data := At(timeline(now), i).data;
      if 0 <= count <= length {
        if offset + count > |data| {
          status := Failed;
        } else {
          bytes := data[offset..offset + count];
          if status == End && offset + count < |data| { status := More; }
        }
      }
    }

    method Close() returns (ok: bool)
      modifies this`now
      ensures old(now) <= now
    {
      Pass();
      ok := *;
    }
  }

  // ---------------------------------------------------------------- what a log of observations proves

  datatype Observation = Observation(path: string, name: string, parent: Handle, directory: Option<Handle>, info: Stat)

  /** The reader's notes: `times[k]` is when observation k was made and `parents[k]` the observation of its
      directory. */
  datatype Log = Log(observations: seq<Observation>, entries: seq<AdminEntry>, times: seq<nat>, parents: seq<nat>)

  predicate DescribesContent(e: AdminEntry, node: Inode) {
    && e.mode.kind == node.kind
    && (node.kind == Directory || node.kind == Regular)
    && (node.kind == Directory ==> e.kind == "directory" && e.data == None)
    && (node.kind == Regular ==> e.kind == "file" && e.data == Some(node.data))
  }

  predicate Describes(e: AdminEntry, node: Inode) {
    DescribesContent(e, node) && e.mode.permissions == node.mode
  }

  /** Entry and observation agree, and describe the object as it was when observed. */
  ghost predicate Recorded(timeline: Timeline, o: Observation, e: AdminEntry, t: nat) {
    && o.info == StatOf(timeline(t), o.info.ino)
    && e.path == o.path
    && Describes(e, At(timeline(t), o.info.ino))
    && (o.directory.Some? <==> o.info.kind == Directory)
    && (o.directory.Some? ==> o.directory.value.ino == o.info.ino)
  }

  ghost predicate WellFormed(log: Log) {
    |log.observations| == |log.entries| == |log.times| == |log.parents| > 0
  }

  /** A name that is one component of a path. */
  predicate PlainName(name: string) {
    name != "" && name != "." && '/' !in name
  }

  ghost predicate PlainNames(names: seq<string>) {
    forall i :: 0 <= i < |names| ==> PlainName(names[i])
  }

  lemma PlainNamesNext(names: seq<string>)
    requires names != [] && PlainNames(names[..|names| - 1]) && PlainName(names[|names| - 1])
    ensures PlainNames(names)
  {
    forall i | 0 <= i < |names| ensures PlainName(names[i]) {
      if i < |names| - 1 { assert names[..|names| - 1][i] == names[i]; }
    }
  }

  lemma ValidIsPlain(name: string)
    requires ValidPath(name) && name != "." && '/' !in name
    ensures PlainName(name)
  {
    SplitWhole(name, '/');
    assert name in Split(name, '/');
  }

  /** Observation k was reached through the directory of an earlier one, which bound its name to it at that time. */
  ghost predicate Placed(timeline: Timeline, log: Log, k: nat)
    requires WellFormed(log) && k < |log.observations|
  {
    var o, p := log.observations[k], log.parents[k];
    && p < k
    && log.observations[p].directory == Some(o.parent)
    && o.parent.ino == log.observations[p].info.ino
    && log.times[p] <= log.times[k]
    && o.path == ChildPath(log.observations[p].path, o.name) && PlainName(o.name)
    && Bound(timeline(log.times[k]), o.parent.ino, o.name, o.info.ino)
  }

  ghost predicate Sound(timeline: Timeline, log: Log, now: nat) {
    && WellFormed(log)
    && log.observations[0].path == "."
    && (forall k :: 0 <= k < |log.observations| ==>
          log.times[k] <= now && Recorded(timeline, log.observations[k], log.entries[k], log.times[k]))
    && (forall k :: 0 < k < |log.observations| ==> Placed(timeline, log, k))
  }

  datatype Shape = Whole | Broken

  /** Whether the entries are a complete administrative tree in form. */
  ghost function ShapeOf(letters: Letters, entries: seq<AdminEntry>): Shape {
    if WellShaped(letters, entries) then Whole else Broken
  }

  ghost predicate ChildOf(log: Log, j: nat, k: nat, name: string)
    requires WellFormed(log)
  {
    0 < j < |log.observations| && log.parents[j] == k && log.observations[j].name == name
  }

  ghost predicate Complete(timeline: Timeline, log: Log, k: nat)
    requires WellFormed(log) && k < |log.observations|
  {
    log.observations[k].directory.Some? ==>
      forall n <- At(timeline(log.times[k]), log.observations[k].info.ino).names :: exists j :: ChildOf(log, j, k, n)
  }

  /** Seen again at or after `moment` with the same metadata. */
  ghost predicate SeenAgain(timeline: Timeline, log: Log, k: nat, moment: nat, now: nat)
    requires WellFormed(log) && k < |log.observations|
  {
    exists u :: moment <= u <= now && SameInfo(log.observations[k].info,
                                               StatOf(timeline(u), log.observations[k].info.ino))
  }

  ghost predicate Extends(before: Log, after: Log) {
    && before.observations <= after.observations && before.entries <= after.entries
    && before.times <= after.times && before.parents <= after.parents
  }

  /** Following component names from the root directory. */
  ghost function Walk(fs: FS, root: Ino, names: seq<string>): Option<Ino> {
    if names == [] then Some(root)
    else
      var parent := Walk(fs, root, names[..|names| - 1]);
      var name := names[|names| - 1];
      if parent.Some? && At(fs, parent.value).kind == Directory && name in At(fs, parent.value).names
      then Some(At(fs, parent.value).names[name])
      else None
  }

  function PathOf(names: seq<string>): string {
    if names == [] then "." else ChildPath(PathOf(names[..|names| - 1]), names[|names| - 1])
  }

  ghost predicate EntryFor(e: AdminEntry, names: seq<string>, node: Inode, modes: bool) {
    e.path == PathOf(names) && (if modes then Describes(e, node) else DescribesContent(e, node))
  }

  /** The object that `names` lead to is among the entries. */
  ghost predicate Listed(fs: FS, root: Ino, entries: seq<AdminEntry>, names: seq<string>, modes: bool)
    requires Walk(fs, root, names).Some?
  {
    exists e <- entries :: EntryFor(e, names, At(fs, Walk(fs, root, names).value), modes)
  }

  /** The entry describes an object that some names lead to. */
  ghost predicate Genuine(fs: FS, root: Ino, e: AdminEntry, modes: bool) {
    exists names: seq<string> :: Walk(fs, root, names).Some? && EntryFor(e, names, At(fs, Walk(fs, root, names).value),
                                                                         modes)
  }

  /** The entries are exactly the tree below `root`: nothing missing, nothing extra, every byte right. */
  ghost predicate IsTree(fs: FS, root: Ino, entries: seq<AdminEntry>, modes: bool) {
    && (forall names: seq<string> :: Walk(fs, root, names).Some? ==> Listed(fs, root, entries, names, modes))
    && (forall e <- entries :: Genuine(fs, root, e, modes))
  }

  /** Some names lead to the object. */
  ghost predicate InTree(fs: FS, root: Ino, i: Ino) {
    exists names: seq<string> :: Walk(fs, root, names) == Some(i)
  }

  /** Nowhere in the tree of this moment do permissions go away and come back within the window. */
  ghost predicate NoneReturns(timeline: Timeline, root: Ino, moment: nat, from: nat, to: nat) {
    forall i :: InTree(timeline(moment), root, i) ==> NeverReturns(timeline, i, moment, from, to)
  }

  /** An object seen twice with the same metadata stood still at every moment in between. */
  lemma Stood(timeline: Timeline, log: Log, k: nat, t: nat, moment: nat, now: nat)
    requires Lawful(timeline) && Sound(timeline, log, moment) && k < |log.observations|
    requires SeenAgain(timeline, log, k, moment, now)
    requires log.times[k] <= t <= moment
    ensures SameContent(At(timeline(log.times[k]), log.observations[k].info.ino),
                        At(timeline(t), log.observations[k].info.ino))
    ensures At(timeline(log.times[k]), log.observations[k].info.ino).mtime
            == At(timeline(t), log.observations[k].info.ino).mtime
  {
    var i := log.observations[k].info.ino;
    var u :| moment <= u <= now && SameInfo(log.observations[k].info, StatOf(timeline(u), i));
    assert Recorded(timeline, log.observations[k], log.entries[k], log.times[k]);
    ContentHeld(timeline(log.times[k]), timeline(t), timeline(u), i);
  }

  ghost predicate Confirmed(timeline: Timeline, log: Log, moment: nat, now: nat) {
    && Sound(timeline, log, moment)
    && forall k ::
          0 <= k < |log.observations| ==> Complete(timeline, log, k) && SeenAgain(timeline, log, k, moment, now)
  }

  /** Every object of the tree at `moment` was observed, under its path. */
  lemma {:induction false} NothingMissing(timeline: Timeline, log: Log, moment: nat, now: nat, names: seq<string>)
      returns (k: nat)
    requires Lawful(timeline) && Confirmed(timeline, log, moment, now)
    requires Walk(timeline(moment), log.observations[0].info.ino, names).Some?
    ensures k < |log.observations|
    ensures log.observations[k].path == PathOf(names)
    ensures Walk(timeline(moment), log.observations[0].info.ino, names) == Some(log.observations[k].info.ino)
    ensures PlainNames(names)
    decreases |names|
  {
    if names == [] {
      k := 0;
    } else {
      var name := names[|names| - 1];
      var p := NothingMissing(timeline, log, moment, now, names[..|names| - 1]);
      var directory := log.observations[p].info.ino;
      assert Recorded(timeline, log.observations[p], log.entries[p], log.times[p]);
      Stood(timeline, log, p, moment, moment, now);
      assert Complete(timeline, log, p);
      k :| ChildOf(log, k, p, name);
      assert Placed(timeline, log, k);
      Stood(timeline, log, p, log.times[k], moment, now);
      PlainNamesNext(names);
    }
  }

  /** Every observation is an object of the tree at `moment`. */
  lemma {:induction false} NothingExtra(timeline: Timeline, log: Log, moment: nat, now: nat, k: nat)
      returns (names: seq<string>)
    requires Lawful(timeline) && Confirmed(timeline, log, moment, now)
    requires k < |log.observations|
    ensures log.observations[k].path == PathOf(names)
    ensures Walk(timeline(moment), log.observations[0].info.ino, names) == Some(log.observations[k].info.ino)
    ensures PlainNames(names)
    decreases k
  {
    if k == 0 {
      names := [];
    } else {
      var p := log.parents[k];
      assert Placed(timeline, log, k);
      var above := NothingExtra(timeline, log, moment, now, p);
      names := above + [log.observations[k].name];
      assert names[..|names| - 1] == above;
      assert Recorded(timeline, log.observations[p], log.entries[p], log.times[p]);
      Stood(timeline, log, p, moment, moment, now);
      Stood(timeline, log, p, log.times[k], moment, now);
      PlainNamesNext(names);
    }
  }

  /** No observation is earlier than this. */
  ghost predicate NotBefore(log: Log, from: nat) {
    forall k :: 0 <= k < |log.times| ==> from <= log.times[k]
  }

  lemma StillDescribed(timeline: Timeline, log: Log, from: nat, moment: nat, now: nat, k: nat)
    requires Lawful(timeline) && Confirmed(timeline, log, moment, now) && NotBefore(log, from) && k < |log.observations|
    ensures DescribesContent(log.entries[k], At(timeline(moment), log.observations[k].info.ino))
    ensures NeverReturns(timeline, log.observations[k].info.ino, moment, from, now) ==>
              Describes(log.entries[k], At(timeline(moment), log.observations[k].info.ino))
  {
    var i := log.observations[k].info.ino;
    assert Recorded(timeline, log.observations[k], log.entries[k], log.times[k]);
    Stood(timeline, log, k, moment, moment, now);
    var u :| moment <= u <= now && SameInfo(log.observations[k].info, StatOf(timeline(u), i));
    assert NeverReturns(timeline, i, moment, from, now) ==> !Returns(timeline, i, log.times[k], moment, u);
  }

  /** The seqlock argument: a confirmed log is the tree of one moment; with its permissions, when nowhere in the tree
      the permissions go away and come back between the first observation and the last look. */
  lemma ConfirmedIsTree(timeline: Timeline, log: Log, from: nat, moment: nat, now: nat, modes: bool)
    requires Lawful(timeline) && Confirmed(timeline, log, moment, now) && NotBefore(log, from)
    requires modes ==> NoneReturns(timeline, log.observations[0].info.ino, moment, from, now)
    ensures IsTree(timeline(moment), log.observations[0].info.ino, log.entries, modes)
  {
    var fs, root := timeline(moment), log.observations[0].info.ino;
    forall names: seq<string> | Walk(fs, root, names).Some?
      ensures Listed(fs, root, log.entries, names, modes)
    {
      var k := NothingMissing(timeline, log, moment, now, names);
      assert InTree(fs, root, log.observations[k].info.ino);
      StillDescribed(timeline, log, from, moment, now, k);
      assert Recorded(timeline, log.observations[k], log.entries[k], log.times[k]);
      assert EntryFor(log.entries[k], names, At(fs, Walk(fs, root, names).value), modes);
    }
    forall e <- log.entries
      ensures Genuine(fs, root, e, modes)
    {
      var k :| 0 <= k < |log.entries| && log.entries[k] == e;
      var names := NothingExtra(timeline, log, moment, now, k);
      assert InTree(fs, root, log.observations[k].info.ino);
      StillDescribed(timeline, log, from, moment, now, k);
      assert Recorded(timeline, log.observations[k], log.entries[k], log.times[k]);
      assert EntryFor(e, names, At(fs, Walk(fs, root, names).value), modes);
    }
  }

  /** The permissions of an entry are those its object had at some moment before and at some moment after. */
  ghost predicate ModeBracketed(timeline: Timeline, e: AdminEntry, i: Ino, moment: nat, now: nat) {
    exists s: nat, u: nat :: s <= moment <= u <= now
      && At(timeline(s), i).mode == e.mode.permissions && At(timeline(u), i).mode == e.mode.permissions
  }

  ghost predicate EntryBracketed(timeline: Timeline, root: Ino, e: AdminEntry, moment: nat, now: nat) {
    exists names: seq<string> :: Walk(timeline(moment), root, names).Some? && e.path == PathOf(names)
      && ModeBracketed(timeline, e, Walk(timeline(moment), root, names).value, moment, now)
  }

  ghost predicate ModesBracketed(timeline: Timeline, root: Ino, entries: seq<AdminEntry>, moment: nat, now: nat) {
    forall e <- entries :: EntryBracketed(timeline, root, e, moment, now)
  }

  lemma ObservationBracketsMode(timeline: Timeline, log: Log, moment: nat, now: nat, k: nat)
    requires Sound(timeline, log, moment) && k < |log.observations| && SeenAgain(timeline, log, k, moment, now)
    ensures ModeBracketed(timeline, log.entries[k], log.observations[k].info.ino, moment, now)
  {
    var i := log.observations[k].info.ino;
    var u :| moment <= u <= now && SameInfo(log.observations[k].info, StatOf(timeline(u), i));
    assert Recorded(timeline, log.observations[k], log.entries[k], log.times[k]);
    assert At(timeline(log.times[k]), i).mode == At(timeline(u), i).mode == log.entries[k].mode.permissions;
  }

  lemma ConfirmedBracketsModes(timeline: Timeline, log: Log, moment: nat, now: nat)
    requires Lawful(timeline) && Confirmed(timeline, log, moment, now)
    ensures ModesBracketed(timeline, log.observations[0].info.ino, log.entries, moment, now)
  {
    forall e <- log.entries
      ensures EntryBracketed(timeline, log.observations[0].info.ino, e, moment, now)
    {
      var k :| 0 <= k < |log.entries| && log.entries[k] == e;
      var names := NothingExtra(timeline, log, moment, now, k);
      ObservationBracketsMode(timeline, log, moment, now, k);
      assert Recorded(timeline, log.observations[k], log.entries[k], log.times[k]);
    }
  }

  /** The permissions need not belong to the same moment: a mode that changes and changes back between the two looks
      leaves no trace in what `compareAdministrativeReadInfo` compares. Module `ReadModes` says exactly when this
      happens. */
  lemma ModeCanBeMissed()
    ensures Lawful(Flicker) && Confirmed(Flicker, FLICKER_LOG, 1, 2)
    ensures IsTree(Flicker(1), 1, FLICKER_LOG.entries, false)
    ensures !IsTree(Flicker(1), 1, FLICKER_LOG.entries, true)
  {
    FlickerIsConfirmed();
    ConfirmedIsTree(Flicker, FLICKER_LOG, 0, 1, 2, false);
    NotListed(Flicker(1), 1, FLICKER_LOG.entries[0]);
  }

  lemma NotListed(fs: FS, root: Ino, e: AdminEntry)
    requires e.mode.permissions != At(fs, root).mode
    ensures !IsTree(fs, root, [e], true)
  {
    assert Walk(fs, root, []) == Some(root);
    assert !Listed(fs, root, [e], [], true);
  }

  lemma FlickerIsConfirmed()
    ensures Lawful(Flicker) && Confirmed(Flicker, FLICKER_LOG, 1, 2)
  {
    forall s, t | s <= t ensures Evolves(Flicker(s), Flicker(t)) {
      FlickerEvolves(s, t);
    }
    assert SameInfo(FLICKER_LOG.observations[0].info, StatOf(Flicker(2), 1));
    assert Complete(Flicker, FLICKER_LOG, 0);
  }

  const PLAIN := Inode(Directory, 0, 7, 0, 1, 5, 5, [], map[])

  /** An empty directory whose mode is 7, then 0, then 7 again. */
  function Flicker(t: nat): FS {
    map[1 := if t == 0 then PLAIN else if t == 1 then PLAIN.(mode := 0, ctime := 6) else PLAIN.(ctime := 7)]
  }

  lemma FlickerEvolves(s: nat, t: nat)
    requires s <= t
    ensures Evolves(Flicker(s), Flicker(t))
  {
  }

  const FLICKER_LOG := Log([Observation(".", ".", Handle(0, 1), Some(Handle(0, 1)), StatOf(Flicker(0), 1))],
                           [AdminEntry(".", "directory", FileMode(Directory, 7), None)], [0], [0])

  ghost function Noted(log: Log, o: Observation, e: AdminEntry, t: nat, p: nat): Log {
    Log(log.observations + [o], log.entries + [e], log.times + [t], log.parents + [p])
  }

  lemma NotedIsSound(timeline: Timeline, log: Log, o: Observation, e: AdminEntry, t: nat, p: nat, now: nat)
    requires Sound(timeline, log, now) && t <= now && p < |log.observations|
    requires Recorded(timeline, o, e, t)
    requires log.observations[p].directory == Some(o.parent) && log.times[p] <= t
    requires o.path == ChildPath(log.observations[p].path, o.name) && PlainName(o.name)
    requires Bound(timeline(t), o.parent.ino, o.name, o.info.ino)
    ensures Sound(timeline, Noted(log, o, e, t, p), now)
    ensures Extends(log, Noted(log, o, e, t, p))
  {
    var after := Noted(log, o, e, t, p);
    assert Recorded(timeline, log.observations[p], log.entries[p], log.times[p]);
    forall k | 0 < k < |after.observations| ensures Placed(timeline, after, k) {
      if k < |log.observations| {
        assert Placed(timeline, log, k);
      }
    }
  }

  lemma {:induction false} NotBeforeRoot(timeline: Timeline, log: Log, now: nat, k: nat)
    requires Sound(timeline, log, now) && k < |log.observations|
    ensures log.times[0] <= log.times[k]
  {
    if k > 0 {
      assert Placed(timeline, log, k);
      NotBeforeRoot(timeline, log, now, log.parents[k]);
    }
  }

  lemma CompleteStays(timeline: Timeline, before: Log, after: Log, k: nat)
    requires WellFormed(before) && WellFormed(after) && Extends(before, after) && k < |before.observations|
    requires Complete(timeline, before, k)
    ensures Complete(timeline, after, k)
  {
    if after.observations[k].directory.Some? {
      forall n <- At(timeline(after.times[k]), after.observations[k].info.ino).names
        ensures exists j :: ChildOf(after, j, k, n)
      {
        var j :| ChildOf(before, j, k, n);
        assert ChildOf(after, j, k, n);
      }
    }
  }

  /** All directories observed from index `first` on have been walked. */
  ghost predicate AllComplete(timeline: Timeline, log: Log, first: nat)
    requires WellFormed(log)
  {
    forall k :: first <= k < |log.observations| ==> Complete(timeline, log, k)
  }

  lemma AllCompleteFrom(timeline: Timeline, log: Log, first: nat)
    requires WellFormed(log) && first < |log.observations| && Complete(timeline, log, first)
             && AllComplete(timeline, log, first + 1)
    ensures AllComplete(timeline, log, first)
  {
  }

  lemma AllCompleteStays(timeline: Timeline, before: Log, after: Log, first: nat)
    requires WellFormed(before) && WellFormed(after) && Extends(before, after)
    requires AllComplete(timeline, before, first)
    requires AllComplete(timeline, after, |before.observations|)
    ensures AllComplete(timeline, after, first)
  {
    forall k | first <= k < |after.observations| ensures Complete(timeline, after, k) {
      if k < |before.observations| { CompleteStays(timeline, before, after, k); }
    }
  }

  /** Observation k has a child for each of these names. */
  ghost predicate HasChildren(log: Log, k: nat, names: seq<string>)
    requires WellFormed(log)
  {
    forall n <- names :: exists j :: ChildOf(log, j, k, n)
  }

  lemma HasChildrenStays(before: Log, after: Log, k: nat, names: seq<string>, name: string, j: nat)
    requires WellFormed(before) && WellFormed(after) && Extends(before, after)
    requires HasChildren(before, k, names) && ChildOf(after, j, k, name)
    ensures HasChildren(after, k, names + [name])
  {
    forall n <- names + [name] ensures exists j :: ChildOf(after, j, k, n) {
      if n in names {
        var i :| ChildOf(before, i, k, n);
        assert ChildOf(after, i, k, n);
      }
    }
  }

  lemma DirectoryDone(timeline: Timeline, before: Log, noted: Log, after: Log, k: nat, name: string)
    requires WellFormed(before) && WellFormed(noted) && WellFormed(after)
    requires Extends(before, noted) && Extends(noted, after) && |noted.observations| == |before.observations| + 1
    requires ChildOf(noted, |before.observations|, k, name)
    requires Complete(timeline, after, |before.observations|) && AllComplete(timeline, after, |noted.observations|)
    ensures Extends(before, after) && ChildOf(after, |before.observations|, k, name)
    ensures AllComplete(timeline, after, |before.observations|)
  {
  }

  ghost predicate AllSeenAgain(timeline: Timeline, log: Log, count: nat, moment: nat, now: nat)
    requires WellFormed(log) && count <= |log.observations|
  {
    forall k :: 0 <= k < count ==> SeenAgain(timeline, log, k, moment, now)
  }

  lemma SeenAgainLater(timeline: Timeline, log: Log, count: nat, moment: nat, now: nat, later: nat)
    requires WellFormed(log) && count <= |log.observations| && now <= later
    requires AllSeenAgain(timeline, log, count, moment, now)
    ensures AllSeenAgain(timeline, log, count, moment, later)
  {
    forall k | 0 <= k < count ensures SeenAgain(timeline, log, k, moment, later) {
      assert SeenAgain(timeline, log, k, moment, now);
    }
  }

  lemma OneMoreSeenAgain(timeline: Timeline, log: Log, k: nat, moment: nat, before: nat, now: nat)
    requires WellFormed(log) && k < |log.observations| && moment <= before <= now
    requires AllSeenAgain(timeline, log, k, moment, before)
    requires SameInfo(log.observations[k].info, StatOf(timeline(now), log.observations[k].info.ino))
    ensures AllSeenAgain(timeline, log, k + 1, moment, now)
  {
    SeenAgainLater(timeline, log, k, moment, before, now);
    assert SeenAgain(timeline, log, k, moment, now);
  }

  /** A well-shaped, confirmed log, in path order, is what a successful read may return. */
  lemma ConfirmedResult(letters: Letters, timeline: Timeline, log: Log, from: nat, moment: nat, now: nat)
    requires Lawful(timeline) && Confirmed(timeline, log, moment, now) && ShapeOf(letters, log.entries) == Whole
             && from <= log.times[0]
    ensures var result, root := InPathOrder(log.entries), log.observations[0].info.ino;
            && IsTree(timeline(moment), root, result, false)
            && (NoneReturns(timeline, root, moment, from, now) ==> IsTree(timeline(moment), root, result, true))
            && ModesBracketed(timeline, root, result, moment, now)
            && PathsAscend(result) && ShapeOf(letters, result) == Whole
  {
    InPathOrderKeeps(letters, log.entries);
    var root := log.observations[0].info.ino;
    forall k | 0 <= k < |log.times| ensures from <= log.times[k] { NotBeforeRoot(timeline, log, moment, k); }
    ConfirmedIsTree(timeline, log, from, moment, now, false);
    SameMembersSameTree(timeline(moment), root, log.entries, InPathOrder(log.entries), false);
    if NoneReturns(timeline, root, moment, from, now) {
      ConfirmedIsTree(timeline, log, from, moment, now, true);
      SameMembersSameTree(timeline(moment), root, log.entries, InPathOrder(log.entries), true);
    }
    ConfirmedBracketsModes(timeline, log, moment, now);
  }

  lemma SameMembersSameTree(fs: FS, root: Ino, xs: seq<AdminEntry>, ys: seq<AdminEntry>, modes: bool)
    requires forall e :: e in xs <==> e in ys
    requires IsTree(fs, root, xs, modes)
    ensures IsTree(fs, root, ys, modes)
  {
    forall names: seq<string> | Walk(fs, root, names).Some?
      ensures Listed(fs, root, ys, names, modes)
    {
      assert Listed(fs, root, xs, names, modes);
      var e :| e in xs && EntryFor(e, names, At(fs, Walk(fs, root, names).value), modes);
      assert e in ys;
    }
  }

  function InPathOrder(entries: seq<AdminEntry>): seq<AdminEntry> {
    Sorting.Sort(entries, (e: AdminEntry) => e.path)
  }

  ghost predicate PathsAscend(entries: seq<AdminEntry>) {
    forall i, j :: 0 <= i < j < |entries| ==> Text.Less(entries[i].path, entries[j].path)
  }

  lemma InPathOrderKeeps(letters: Letters, entries: seq<AdminEntry>)
    requires ShapeOf(letters, entries) == Whole
    ensures ShapeOf(letters, InPathOrder(entries)) == Whole && PathsAscend(InPathOrder(entries))
    ensures forall e :: e in InPathOrder(entries) <==> e in entries
  {
    var key := (e: AdminEntry) => e.path;
    assert Sorting.DistinctKeys(entries, key);
    Sorting.SortDistinct(entries, key);
    Sorting.SortMembers(entries, key);
    WellShapedPermute(letters, entries, InPathOrder(entries));
  }

  // ---------------------------------------------------------------- the reader

  ghost predicate PrefixRead(observer: Observer, i: Ino, mtime: nat, data: Bytes)
    reads observer
  {
    At(observer.timeline(observer.now), i).mtime == mtime ==> data <= At(observer.timeline(observer.now), i).data
  }

  /** The offset loop of `fileData`: `size` bytes, then proof that the file ends there. */
  method ReadWhole(observer: Observer, file: Ino, size: nat, ghost mtime: nat, ghost t0: nat)
      returns (ok: bool, data: Bytes)
    requires Lawful(observer.timeline) && t0 <= observer.now
    requires At(observer.timeline(t0), file).mtime == mtime
    modifies observer`now
    ensures old(observer.now) <= observer.now
    ensures ok ==> |data| == size && PrefixRead(observer, file, mtime, data)
  {
    data := [];
    var ended := false;
    while |data| < size && !ended
      invariant t0 <= observer.now && old(observer.now) <= observer.now
      invariant |data| <= size && (ended ==> |data| == size)
      invariant PrefixRead(observer, file, mtime, data)
      decreases !ended, size - |data|
    {
      var length := if size - |data| < 32 * 1024 then size - |data| else 32 * 1024;
      ghost var before := observer.now;
      var count, bytes, status := observer.Read(file, |data|, length);
      if count < 0 || count > length || status == Failed { return false, data; }
      if At(observer.timeline(observer.now), file).mtime == mtime {
        ContentHeld(observer.timeline(t0), observer.timeline(before), observer.timeline(observer.now), file);
      }
      if count == 0 && status == More { return false, data; }
      data := data + bytes;
      if status == End {
        if |data| != size { return false, data; }
        ended := true;
      }
    }
    if !ended {
      ghost var before := observer.now;
      var count, bytes, status := observer.Read(file, |data|, 1);
      if count < 0 || count > 1 || status == Failed { return false, data; }
      if count == 0 && status == More { return false, data; }
      if count != 0 { return false, data; }
      if At(observer.timeline(observer.now), file).mtime == mtime {
        ContentHeld(observer.timeline(t0), observer.timeline(before), observer.timeline(observer.now), file);
      }
    }
    ok := true;
  }

  class AdministrativeReader {
    const letters: Letters
    const observer: Observer
    var roots: seq<Handle>
    var observations: seq<Observation>
    var entries: seq<AdminEntry>
    var identities: set<string>
    var reserved: nat
    var bytes: nat
    ghost var times: seq<nat>
    ghost var parents: seq<nat>

    constructor (letters: Letters, observer: Observer)
      ensures this.letters == letters && this.observer == observer
      ensures observations == [] && entries == [] && times == [] && parents == [] && roots == []
      ensures identities == {"."} && reserved == 1 && bytes == 0
    {
      this.letters, this.observer := letters, observer;
      roots, observations, entries := [], [], [];
      identities, reserved, bytes := {"."}, 1, 0;
      times, parents := [], [];
    }

    ghost function Notes(): Log
      reads this
    {
      Log(observations, entries, times, parents)
    }

    ghost predicate Valid()
      reads this, observer
    {
      && Lawful(observer.timeline)
      && Sound(observer.timeline, Notes(), observer.now)
      && reserved <= MAXIMUM_ENTRIES
    }

    /** `pathInfo`: only what is a directory or a regular file, and nothing besides, passes. */
    method PathInfo(directory: Ino, name: string) returns (r: Option<Stat>)
      modifies observer`now
      ensures old(observer.now) <= observer.now
      ensures r.Some? ==> Resolve(observer.timeline(observer.now), directory, name) == Some(r.value.ino)
      ensures r.Some? ==> r.value == StatOf(observer.timeline(observer.now), r.value.ino)
      ensures r.Some? ==> r.value.kind == Directory || r.value.kind == Regular
    {
      r := observer.Lstat(directory, name);
      if r.Some? && r.value.kind != Directory && r.value.kind != Regular { r := None; }
    }

    /** `checkPath`: the name still leads to the same object with the same metadata. */
    method CheckPath(directory: Ino, name: string, info: Stat) returns (ok: bool)
      modifies observer`now
      ensures old(observer.now) <= observer.now
      ensures ok ==> Resolve(observer.timeline(observer.now), directory, name) == Some(info.ino)
      ensures ok ==> SameInfo(info, StatOf(observer.timeline(observer.now), info.ino))
    {
      var current := PathInfo(directory, name);
      ok := current.Some? && SameInfo(info, current.value);
    }

    /** `checkFile`: the open object is the expected one with the same metadata. */
    method CheckFile(file: Ino, info: Stat) returns (ok: bool)
      modifies observer`now
      ensures old(observer.now) <= observer.now
      ensures ok ==> file == info.ino && SameInfo(info, StatOf(observer.timeline(observer.now), file))
    {
      var current := observer.Fstat(file);
      ok := current.Some? && (current.value.kind == Directory || current.value.kind == Regular)
          && SameInfo(info, current.value);
    }

    /** The names of one batch: each is a plain portable name, new under folding. */
    method ReserveNames(path: string, batch: seq<string>) returns (ok: bool)
      modifies this`identities
      ensures ok ==> forall n <- batch :: PlainName(n)
    {
      for k := 0 to |batch|
        invariant forall i :: 0 <= i < k ==> PlainName(batch[i])
      {
        var name := batch[k];
        if name == "." || name == ".." || '/' in name || '\\' in name || !ValidAdministrativePath(letters, name) {
          return false;
        }
        var entryPath := ChildPath(path, name);
        if !ValidAdministrativePath(letters, entryPath) { return false; }
        ValidIsPlain(name);
        var identity := Fold(letters, entryPath);
        if identity in identities { return false; }
        identities := identities + {identity};
      }
      ok := true;
    }

    ghost predicate Honest(file: File, names: seq<string>)
      reads observer
    {
      At(observer.timeline(observer.now), file.ino).mtime == file.started ==>
        forall n <- names :: n in At(observer.timeline(observer.now), file.ino).names
    }

    /** The batch loop of `directoryNames`. */
    method ReadBatches(file: File, path: string, ghost t0: nat) returns (ok: bool, names: seq<string>)
      requires Lawful(observer.timeline) && t0 <= observer.now && reserved <= MAXIMUM_ENTRIES
      requires At(observer.timeline(t0), file.ino).mtime == file.started
      modifies this`reserved, this`identities, observer`now
      ensures old(observer.now) <= observer.now
      ensures reserved == old(reserved) + |names| <= MAXIMUM_ENTRIES
      ensures ok ==> forall n <- names :: PlainName(n)
      ensures ok && At(observer.timeline(observer.now), file.ino).mtime == file.started ==>
                forall n :: n in names <==> n in At(observer.timeline(observer.now), file.ino).names
    {
      names := [];
      while true
        invariant t0 <= observer.now && old(observer.now) <= observer.now
        invariant reserved == old(reserved) + |names| <= MAXIMUM_ENTRIES
        invariant forall n <- names :: PlainName(n)
        invariant Honest(file, names)
        decreases MAXIMUM_ENTRIES - reserved
      {
        var requested := if MAXIMUM_ENTRIES - reserved + 1 < 64 then MAXIMUM_ENTRIES - reserved + 1 else 64;
        ghost var before := observer.now;
        var batch, status := observer.ReadNames(file, names);
        if status == Failed { return false, names; }
        if |batch| > requested || |batch| > MAXIMUM_ENTRIES - reserved { return false, names; }
        if At(observer.timeline(observer.now), file.ino).mtime == file.started {
          ContentHeld(observer.timeline(t0), observer.timeline(before), observer.timeline(observer.now), file.ino);
        }
        var reservable := ReserveNames(path, batch);
        if !reservable { return false, names; }
        reserved := reserved + |batch|;
        names := names + batch;
        if status == End { break; }
        if batch == [] { return false, names; }
      }
      ok := true;
    }

    /** `directoryNames`: on success the sorted names the directory had when `info` was taken at `t0`. */
    method DirectoryNames(root: Ino, path: string, info: Stat, ghost t0: nat) returns (ok: bool, names: seq<string>)
      requires Lawful(observer.timeline) && t0 <= observer.now && reserved <= MAXIMUM_ENTRIES
      requires info == StatOf(observer.timeline(t0), root)
      modifies this`reserved, this`identities, observer`now
      ensures old(observer.now) <= observer.now
      ensures ok ==> reserved == old(reserved) + |names| <= MAXIMUM_ENTRIES
      ensures ok ==> forall n <- names :: PlainName(n)
      ensures ok ==> forall n :: n in names <==> n in At(observer.timeline(t0), root).names
    {
      names := [];
      var file := observer.OpenFile(root, ".");
      if file.None? { return false, names; }
      ghost var atOpen := observer.now;
      ok := CheckFile(file.value.ino, info);
      if !ok { return; }
      ContentHeld(observer.timeline(t0), observer.timeline(atOpen), observer.timeline(observer.now), root);
      var batches;
      ok, batches := ReadBatches(file.value, path, t0);
      ghost var atEnd := observer.now;
      if !ok { return; }
      ok := CheckFile(file.value.ino, info);
      if !ok { return; }
      ContentHeld(observer.timeline(t0), observer.timeline(atEnd), observer.timeline(observer.now), root);
      ok := CheckPath(root, ".", info);
      if !ok { return; }
      names := Sorting.Sort(batches, (n: string) => n);
      Sorting.SortMembers(batches, (n: string) => n);
      ok := observer.Close();
    }

    /** `fileData`: on success exactly the bytes the file had when `info` was taken at `t0`. */
    method FileData(root: Ino, name: string, info: Stat, ghost t0: nat) returns (ok: bool, data: Bytes)
      requires Lawful(observer.timeline) && t0 <= observer.now
      requires info == StatOf(observer.timeline(t0), info.ino)
      modifies observer`now
      ensures old(observer.now) <= observer.now
      ensures ok ==> data == At(observer.timeline(t0), info.ino).data
    {
      data := [];
      if info.size > MAXIMUM_BYTES - bytes { return false, data; }
      var file := observer.OpenFile(root, name);
      if file.None? { return false, data; }
      ok := CheckFile(file.value.ino, info);
      if !ok { return; }
      ok := CheckPath(root, name, info);
      if !ok { return; }
      ok, data := ReadWhole(observer, info.ino, info.size, info.mtime, t0);
      ghost var atEnd := observer.now;
      if !ok { return; }
      ok := CheckFile(file.value.ino, info);
      if !ok { return; }
      ContentHeld(observer.timeline(t0), observer.timeline(atEnd), observer.timeline(observer.now), info.ino);
      ok := CheckPath(root, name, info);
      if !ok { return; }
      ok := observer.Close();
    }

    method Note(o: Observation, e: AdminEntry, ghost t: nat, ghost p: nat)
      requires Valid() && t <= observer.now && p < |observations|
      requires Recorded(observer.timeline, o, e, t)
      requires observations[p].directory == Some(o.parent) && times[p] <= t
      requires o.path == ChildPath(observations[p].path, o.name) && PlainName(o.name)
      requires Bound(observer.timeline(t), o.parent.ino, o.name, o.info.ino)
      modifies this`observations, this`entries, this`times, this`parents
      ensures Valid()
      ensures Notes() == Noted(old(Notes()), o, e, t, p)
      ensures Extends(old(Notes()), Notes())
    {
      NotedIsSound(observer.timeline, Notes(), o, e, t, p, observer.now);
      observations, entries := observations + [o], entries + [e];
      times, parents := times + [t], parents + [p];
    }

    /** Where the walk stands: observation k is the open directory `root` under `path`. */
    ghost predicate Within(root: Handle, path: string, k: nat)
      reads this, observer
    {
      Valid() && k < |observations| && observations[k].directory == Some(root) && observations[k].path == path
    }

    /** The file branch of `walk`. */
    method VisitFile(root: Handle, path: string, name: string, info: Stat, ghost t: nat, ghost k: nat)
        returns (ok: bool)
      requires Within(root, path, k) && times[k] <= t <= observer.now
      requires info == StatOf(observer.timeline(t), info.ino) && info.kind == Regular
      requires Bound(observer.timeline(t), root.ino, name, info.ino) && PlainName(name)
      modifies this`observations, this`entries, this`times, this`parents, this`bytes, observer`now
      ensures old(observer.now) <= observer.now
      ensures ok ==> Valid() && Extends(old(Notes()), Notes())
      ensures ok ==>
                ChildOf(Notes(), |old(observations)|, k, name)
                && AllComplete(observer.timeline, Notes(), |old(observations)|)
    {
      var data;
      ok, data := FileData(root.ino, name, info, t);
      if !ok { return; }
      bytes := bytes + |data|;
      var entryPath := ChildPath(path, name);
      Note(Observation(entryPath, name, root, None, info), AdminEntry(entryPath, "file", ModeOf(info), Some(data)), t,
           k);
    }

    /** Opens a directory to read it, and checks the handle and the name against what was observed. */
    method OpenPinned(above: Ino, name: string, info: Stat) returns (ok: bool, child: Handle)
      modifies this`roots, observer
      ensures old(observer.now) <= observer.now
      ensures ok ==> child.ino == info.ino
    {
      child := Handle(0, 0);
      var pinned := observer.OpenDirectory(above, name);
      if pinned.None? { return false, child; }
      child := pinned.value;
      roots := roots + [child];
      ok := CheckPath(child.ino, ".", info);
    }

    /** The directory branch of `walk`, up to the recursive call: open, check both ways, and note. */
    method PinDirectory(root: Handle, path: string, name: string, info: Stat, ghost t: nat, ghost k: nat)
        returns (ok: bool, child: Handle)
      requires Within(root, path, k) && times[k] <= t <= observer.now
      requires info == StatOf(observer.timeline(t), info.ino) && info.kind == Directory
      requires Bound(observer.timeline(t), root.ino, name, info.ino) && PlainName(name)
      modifies this`roots, this`observations, this`entries, this`times, this`parents, observer
      ensures old(observer.now) <= observer.now
      ensures ok ==>
                Within(child, ChildPath(path, name), |old(observations)|) && |observations| == |old(observations)| + 1
      ensures ok ==> observations[|old(observations)|].info == info
      ensures ok ==> Extends(old(Notes()), Notes()) && ChildOf(Notes(), |old(observations)|, k, name)
    {
      ok, child := OpenPinned(root.ino, name, info);
      if !ok { return; }
      ok := CheckPath(root.ino, name, info);
      if !ok { return; }
      var entryPath := ChildPath(path, name);
      Note(Observation(entryPath, name, root, Some(child), info),
           AdminEntry(entryPath, "directory", ModeOf(info), None), t, k);
    }

    /** The directory branch of `walk`. */
    method VisitDirectory(root: Handle, path: string, name: string, info: Stat, ghost t: nat, ghost k: nat)
        returns (ok: bool)
      requires Within(root, path, k) && times[k] <= t <= observer.now
      requires info == StatOf(observer.timeline(t), info.ino) && info.kind == Directory
      requires Bound(observer.timeline(t), root.ino, name, info.ino) && PlainName(name)
      modifies this, observer
      ensures old(observer.now) <= observer.now
      ensures ok ==> old(reserved) <= reserved
      ensures ok ==> Valid() && Extends(old(Notes()), Notes())
      ensures ok ==>
                ChildOf(Notes(), |old(observations)|, k, name)
                && AllComplete(observer.timeline, Notes(), |old(observations)|)
      decreases MAXIMUM_ENTRIES - reserved, 1
    {
      var child;
      ok, child := PinDirectory(root, path, name, info, t, k);
      if !ok { return; }
      ghost var noted := Notes();
      ok := WalkDirectory(child, ChildPath(path, name), info, |old(observations)|);
      if ok { DirectoryDone(observer.timeline, old(Notes()), noted, Notes(), k, name); }
    }

    /** One turn of the loop in `walk`. */
    method Visit(root: Handle, path: string, name: string, ghost k: nat) returns (ok: bool)
      requires Within(root, path, k) && PlainName(name)
      modifies this, observer
      ensures old(observer.now) <= observer.now
      ensures ok ==> old(reserved) <= reserved
      ensures ok ==> Valid() && Extends(old(Notes()), Notes())
      ensures ok ==>
                ChildOf(Notes(), |old(observations)|, k, name)
                && AllComplete(observer.timeline, Notes(), |old(observations)|)
      decreases MAXIMUM_ENTRIES - reserved, 2
    {
      var info := PathInfo(root.ino, name);
      if info.None? { return false; }
      if info.value.kind == Directory {
        ok := VisitDirectory(root, path, name, info.value, observer.now, k);
      } else {
        ok := VisitFile(root, path, name, info.value, observer.now, k);
      }
    }

    /** `walk`: observes everything below the directory of observation k. */
    method WalkDirectory(root: Handle, path: string, info: Stat, ghost k: nat) returns (ok: bool)
      requires Within(root, path, k) && info == observations[k].info
      modifies this, observer
      ensures old(observer.now) <= observer.now
      ensures ok ==> old(reserved) <= reserved
      ensures ok ==> Valid() && Extends(old(Notes()), Notes()) && Complete(observer.timeline, Notes(), k)
      ensures ok ==> AllComplete(observer.timeline, Notes(), |old(observations)|)
      decreases MAXIMUM_ENTRIES - reserved, 0
    {
      assert Recorded(observer.timeline, observations[k], entries[k], times[k]);
      var names;
      ok, names := DirectoryNames(root.ino, path, info, times[k]);
      if !ok { return; }
      ghost var first := |observations|;
      for i := 0 to |names|
        invariant old(observer.now) <= observer.now
        invariant old(reserved) + |names| <= reserved
        invariant Within(root, path, k) && Extends(old(Notes()), Notes())
        invariant HasChildren(Notes(), k, names[..i])
        invariant AllComplete(observer.timeline, Notes(), first)
      {
        ghost var before := Notes();
        assert names[i] in names;
        Sequences.TakeNext(names, i);
        ok := Visit(root, path, names[i], k);
        if !ok { return; }
        HasChildrenStays(before, Notes(), k, names[..i], names[i], |before.observations|);
        AllCompleteStays(observer.timeline, before, Notes(), first);
      }
      Sequences.TakeAll(names);
    }

    /** `rootInfo`: the directory that the path names, observed through its own handle. */
    method RootInfo(directory: string) returns (r: Option<Stat>, ghost named: nat, ghost seen: nat)
      requires directory != "."
      modifies observer`now
      ensures old(observer.now) <= named <= seen <= observer.now
      ensures r.Some? ==> Bound(observer.timeline(named), ABOVE, directory, r.value.ino)
      ensures r.Some? ==> r.value == StatOf(observer.timeline(seen), r.value.ino)
    {
      var file := observer.OpenFile(ABOVE, directory);
      named, seen := observer.now, observer.now;
      if file.None? { return None, named, seen; }
      r := observer.Fstat(file.value.ino);
      seen := observer.now;
      var closed := observer.Close();
      if !closed { r := None; }
    }

    /** `checkRootPath` */
    method CheckRootPath(directory: string, initial: Stat) returns (ok: bool, ghost named: nat)
      requires directory != "."
      modifies observer`now
      ensures old(observer.now) <= named <= observer.now
      ensures ok ==> Bound(observer.timeline(named), ABOVE, directory, initial.ino)
    {
      var current;
      ghost var seen;
      current, named, seen := RootInfo(directory);
      ok := current.Some? && SameInfo(initial, current.value);
    }

    /** The directory to be read: observed by its path, opened, and checked both ways. */
    method OpenRoot(directory: string)
        returns (ok: bool, root: Handle, initial: Stat, ghost named: nat, ghost seen: nat)
      requires directory != "."
      modifies this`roots, observer
      ensures old(observer.now) <= named <= seen <= observer.now
      ensures ok ==> Bound(observer.timeline(named), ABOVE, directory, initial.ino)
      ensures ok ==>
                initial == StatOf(observer.timeline(seen), initial.ino) && initial.kind == Directory
                && root.ino == initial.ino
    {
      root, initial := Handle(0, 0), StatOf(map[], 0);
      var info;
      ghost var again;
      info, named, seen := RootInfo(directory);
      if info.None? || info.value.kind != Directory { return false, root, initial, named, seen; }
      initial := info.value;
      ok, root := OpenPinned(ABOVE, directory, initial);
      if !ok { return; }
      ok, again := CheckRootPath(directory, initial);
    }

    /** The start of `readAdministrative`, up to the note of the root itself. */
    method Begin(directory: string) returns (ok: bool, root: Handle, initial: Stat, ghost named: nat)
      requires Lawful(observer.timeline) && directory != "." && reserved == 1
      requires observations == [] && entries == [] && times == [] && parents == []
      modifies this`roots, this`observations, this`entries, this`times, this`parents, observer
      ensures old(observer.now) <= named <= observer.now
      ensures ok ==> Within(root, ".", 0) && observations[0].info == initial && |observations| == 1
      ensures ok ==> Bound(observer.timeline(named), ABOVE, directory, initial.ino) && named <= times[0]
    {
      ghost var seen;
      ok, root, initial, named, seen := OpenRoot(directory);
      if !ok { return; }
      entries := entries + [AdminEntry(".", "directory", ModeOf(initial), None)];
      observations := observations + [Observation(".", ".", root, Some(root), initial)];
      times, parents := times + [seen], parents + [0];
    }

    /** The re-validation loop: every observation is looked up again, directories also through their own handle. */
    method Revalidate(ghost log: Log) returns (ok: bool)
      requires log == Notes() && WellFormed(log)
      modifies observer`now
      ensures old(observer.now) <= observer.now
      ensures ok ==> AllSeenAgain(observer.timeline, log, |log.observations|, old(observer.now), observer.now)
    {
      for k := 0 to |observations|
        invariant old(observer.now) <= observer.now
        invariant AllSeenAgain(observer.timeline, log, k, old(observer.now), observer.now)
      {
        var observation := observations[k];
        ghost var before := observer.now;
        ok := CheckPath(observation.parent.ino, observation.name, observation.info);
        if !ok { return; }
        OneMoreSeenAgain(observer.timeline, log, k, old(observer.now), before, observer.now);
        if observation.directory.Some? && observation.directory.value != observation.parent {
          ghost var between := observer.now;
          ok := CheckPath(observation.directory.value.ino, ".", observation.info);
          if !ok { return; }
          SeenAgainLater(observer.timeline, log, k + 1, old(observer.now), between, observer.now);
        }
      }
      ok := true;
    }

    /** The deferred closing of every directory handle. */
    method CloseRoots() returns (ok: bool)
      modifies observer`now
      ensures old(observer.now) <= observer.now
    {
      ok := true;
      for k := |roots| downto 0
        invariant old(observer.now) <= observer.now
      {
        var closed := observer.Close();
        ok := ok && closed;
      }
    }

    /** The first half of `readAdministrative`: open the root, walk, and check the shape of what was found. */
    method Gather(directory: string) returns (ok: bool, initial: Stat, ghost first: nat)
      requires Lawful(observer.timeline) && directory != "." && reserved == 1
      requires observations == [] && entries == [] && times == [] && parents == []
      modifies this, observer
      ensures old(observer.now) <= first <= observer.now
      ensures ok ==> Valid() && AllComplete(observer.timeline, Notes(), 0) && ShapeOf(letters, entries) == Whole
      ensures ok ==>
                observations[0].info == initial && Bound(observer.timeline(first), ABOVE, directory, initial.ino)
                && first <= times[0]
    {
      var root;
      ok, root, initial, first := Begin(directory);
      if !ok { return; }
      ok := WalkDirectory(root, ".", initial, 0);
      if !ok { return; }
      AllCompleteFrom(observer.timeline, Notes(), 0);
      ok := ValidateAdministrativeEntries(letters, entries);
    }

    /** `readAdministrative` up to the deferred closing. */
    method Collect(directory: string) returns (ok: bool, ghost moment: nat, ghost first: nat, ghost last: nat)
      requires Lawful(observer.timeline) && directory != "." && reserved == 1
      requires observations == [] && entries == [] && times == [] && parents == []
      modifies this, observer
      ensures old(observer.now) <= first <= moment <= last <= observer.now
      ensures ok ==> WellFormed(Notes()) && Confirmed(observer.timeline, Notes(), moment, last) && first <= times[0]
      ensures ok ==> Bound(observer.timeline(first), ABOVE, directory, observations[0].info.ino)
      ensures ok ==> Bound(observer.timeline(last), ABOVE, directory, observations[0].info.ino)
      ensures ok ==> ShapeOf(letters, entries) == Whole
    {
      var initial;
      ok, initial, first := Gather(directory);
      moment, last := observer.now, observer.now;
      if !ok { return; }
      ghost var log := Notes();
      ok := Revalidate(log);
      ghost var seen := observer.now;
      last := seen;
      if !ok { return; }
      ok, last := CheckRootPath(directory, initial);
      SeenAgainLater(observer.timeline, log, |log.observations|, moment, seen, last);
    }
  }

  /** `readAdministrative`. A successful read returns, in path order, exactly the tree that `root` was at one
      moment, while the path named `root` at a moment before and at a moment after it. */
  method ReadAdministrative(letters: Letters, observer: Observer, directory: string)
      returns (result: Option<seq<AdminEntry>>, ghost moment: nat, ghost root: Ino, ghost first: nat, ghost last: nat)
    requires Lawful(observer.timeline)
    modifies observer
    ensures result.Some? ==> old(observer.now) <= first <= moment <= last <= observer.now
    ensures result.Some? ==> IsTree(observer.timeline(moment), root, result.value, false)
    ensures result.Some? && NoneReturns(observer.timeline, root, moment, first, last) ==>
              IsTree(observer.timeline(moment), root, result.value, true)
    ensures result.Some? ==> ModesBracketed(observer.timeline, root, result.value, moment, last)
    ensures result.Some? ==> Bound(observer.timeline(first), ABOVE, directory, root)
    ensures result.Some? ==> Bound(observer.timeline(last), ABOVE, directory, root)
    ensures result.Some? ==> PathsAscend(result.value) && ShapeOf(letters, result.value) == Whole
  {
    result, moment, root, first, last := None, observer.now, 0, observer.now, observer.now;
    if Utf8Length(directory) > 32 * 1024 || !CanonicalAbsolute(directory) { return; }
    var reader := new AdministrativeReader(letters, observer);
    var ok;
    ok, moment, first, last := reader.Collect(directory);
    var closed := reader.CloseRoots();
    if !ok || !closed { return; }
    ghost var log := reader.Notes();
    root := log.observations[0].info.ino;
    result := Some(InPathOrder(reader.entries));
    ConfirmedResult(letters, observer.timeline, log, first, moment, last);
  }
}
