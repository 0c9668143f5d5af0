/** A file system that this program and any number of others change in turn.

    Every operation first lets the others act, then takes effect at one instant. The others are an arbitrary
    strategy restricted only by the law of the two times (`FileSystem.Evolves`). `history` keeps every state. */
module Storage {
  import opened FileSystem

  datatype Status = More | End | Failed

  datatype Creation = Created(ino: Ino) | Exists | Refused

  datatype Presence = Present | Absent | Unknown

  datatype DirectoryEntry = DirectoryEntry(name: string, kind: Kind)

  /** A name that this program created: in which directory, the new object behind it, and the state it was first in. */
  datatype Addition = Addition(directory: Ino, name: string, ino: Ino, kind: Kind, moment: nat)

  /** A name that this program removed: from which directory, what it led to, and the state it was removed from. */
  datatype Removal = Removal(directory: Ino, name: string, found: Ino, moment: nat)

  /** A name that this program moved inside a directory, and the first state with the new name. */
  datatype Renaming = Renaming(directory: Ino, from: string, to: string, moment: nat)

  const PRIVATE_FILE: Permissions := 384       // 0o600
  const PRIVATE_DIRECTORY: Permissions := 448  // 0o700

  ghost predicate Chronicle(history: seq<FS>) {
    && |history| > 0
    && forall s, t {:trigger Evolves(history[s], history[t])} ::
          0 <= s <= t < |history| ==> Evolves(history[s], history[t])
  }

  lemma ChronicleGrows(history: seq<FS>, next: FS)
    requires Chronicle(history) && Evolves(history[|history| - 1], next)
    ensures Chronicle(history + [next])
  {
    var longer := history + [next];
    forall s, t | 0 <= s <= t < |longer| ensures Evolves(longer[s], longer[t]) {
      if t == |history| {
        EvolvesReflexive(next);
        if s < |history| { EvolvesTransitive(history[s], history[|history| - 1], next); }
      }
    }
  }

  // ---------------------------------------------------------------- effects

  function WithName(fs: FS, d: Ino, name: string, i: Ino): FS {
    var node := At(fs, d);
    fs[d := node.(names := node.names[name := i], mtime := node.mtime + 1, ctime := node.ctime + 1)]
  }

  function WithoutName(fs: FS, d: Ino, name: string): FS {
    var node := At(fs, d);
    fs[d := node.(names := node.names - {name}, mtime := node.mtime + 1, ctime := node.ctime + 1)]
  }

  function Relinked(fs: FS, i: Ino, links: nat): FS {
    fs[i := At(fs, i).(links := links, ctime := At(fs, i).ctime + 1)]
  }

  function NewFile(fs: FS, i: Ino, kind: Kind, mode: Permissions, owner: nat): FS {
    var node := At(fs, i);
    fs[i := Inode(kind, node.generation + 1, mode, owner, 1, node.mtime + 1, node.ctime + 1, [], map[])]
  }

  function Create(fs: FS, d: Ino, name: string, i: Ino, kind: Kind, mode: Permissions, owner: nat): FS {
    WithName(NewFile(fs, i, kind, mode, owner), d, name, i)
  }

  function Append(fs: FS, i: Ino, bytes: Bytes): FS {
    var node := At(fs, i);
    fs[i := node.(data := node.data + bytes, mtime := node.mtime + 1, ctime := node.ctime + 1)]
  }

  function Remove(fs: FS, d: Ino, name: string): FS
    requires name in At(fs, d).names
  {
    var i := At(fs, d).names[name];
    var links := At(fs, i).links;
    Relinked(WithoutName(fs, d, name), i, if links == 0 then 0 else links - 1)
  }

  function Rename(fs: FS, d: Ino, from: string, to: string): FS
    requires from in At(fs, d).names
  {
    var i := At(fs, d).names[from];
    Relinked(WithName(WithoutName(fs, d, from), d, to, i), i, At(fs, i).links)
  }

  lemma CreateEvolves(fs: FS, d: Ino, name: string, i: Ino, kind: Kind, mode: Permissions, owner: nat)
    requires name !in At(fs, d).names && i != d && At(fs, i) == NOTHING
    ensures Evolves(fs, Create(fs, d, name, i, kind, mode, owner))
  {
  }

  lemma AppendEvolves(fs: FS, i: Ino, bytes: Bytes)
    ensures Evolves(fs, Append(fs, i, bytes))
  {
  }

  lemma RemoveEvolves(fs: FS, d: Ino, name: string)
    requires name in At(fs, d).names
    ensures Evolves(fs, Remove(fs, d, name))
  {
  }

  lemma RenameEvolves(fs: FS, d: Ino, from: string, to: string)
    requires from in At(fs, d).names && to !in At(fs, d).names
    ensures Evolves(fs, Rename(fs, d, from, to))
  {
  }

  lemma RenameNames(fs: FS, d: Ino, from: string, to: string)
    requires from in At(fs, d).names && to !in At(fs, d).names
    ensures At(Rename(fs, d, from, to), d).names == (At(fs, d).names - {from})[to := At(fs, d).names[from]]
  {
  }

  lemma CreateNames(fs: FS, d: Ino, name: string, i: Ino, kind: Kind, mode: Permissions, owner: nat, e: Ino)
    requires i != d && e != i
    ensures At(Create(fs, d, name, i, kind, mode, owner), e).names
         == if e == d then At(fs, d).names[name := i] else At(fs, e).names
    ensures At(Create(fs, d, name, i, kind, mode, owner), i).names == map[]
  {
  }

  lemma RemoveNames(fs: FS, d: Ino, name: string, e: Ino)
    requires name in At(fs, d).names
    ensures At(Remove(fs, d, name), e).names == if e == d then At(fs, d).names - {name} else At(fs, e).names
  {
  }

  // ---------------------------------------------------------------- the storage

  class Storage {
    const user: nat
    /** What the others do when they find the given state after n states. */
    const others: (nat, FS) -> FS
    /** Whether an operation that begins after n states fails for no reason that the state shows. */
    const refuses: nat -> bool
    var fs: FS
    var turns: nat
    ghost var history: seq<FS>
    ghost var additions: seq<Addition>
    ghost var removals: seq<Removal>
    ghost var renamings: seq<Renaming>
    /** The objects that this program wrote to. */
    ghost var writes: seq<Ino>

    constructor (user: nat, others: (nat, FS) -> FS, refuses: nat -> bool, fs: FS)
      requires forall n, f :: Evolves(f, others(n, f))
      ensures Valid() && this.user == user && this.others == others && this.refuses == refuses && this.fs == fs
      ensures additions == [] && removals == [] && renamings == [] && writes == []
    {
      this.user, this.others, this.refuses, this.fs := user, others, refuses, fs;
      turns, history, additions, removals, renamings, writes := 1, [fs], [], [], [], [];
    }

    ghost predicate Valid()
      reads this
    {
      && Chronicle(history)
      && history[|history| - 1] == fs && turns == |history|
      && RecordOf(additions, history) == Genuine
      && (forall n, f :: Evolves(f, others(n, f)))
    }

    /** Nobody else changes anything. */
    ghost predicate Calm() {
      forall n, f :: others(n, f) == f
    }

    /** No operation that began in this stretch was refused. */
    ghost predicate Willing(from: nat, to: nat) {
      forall n :: from <= n < to ==> !refuses(n)
    }

    /** From the given moment on nobody else changed anything, and no operation was refused. */
    ghost predicate Undisturbed(from: nat)
      reads this
    {
      Calm() && Willing(from, |history|)
    }

    method Become(next: FS)
      requires Valid() && Evolves(fs, next)
      modifies this`fs, this`turns, this`history
      ensures Valid() && fs == next && history == old(history) + [next]
    {
      ChronicleGrows(history, next);
      AddedLater(additions, history, history + [next]);
      fs, turns := next, turns + 1;
      history := history + [next];
    }

    /** The others take their turn. */
    method Yield()
      requires Valid()
      modifies this`fs, this`turns, this`history
      ensures Valid() && old(history) < history && |history| == |old(history)| + 1
      ensures Calm() ==> fs == old(fs)
    {
      Become(others(turns, fs));
    }

    method Stat(directory: Ino, name: string) returns (r: Option<FileSystem.Stat>)
      requires Valid()
      modifies this`fs, this`turns, this`history
      ensures Valid() && old(history) < history
      ensures Calm() ==> fs == old(fs)
      ensures r.Some? ==> Resolve(fs, directory, name) == Some(r.value.ino) && r.value == StatOf(fs, r.value.ino)
      ensures !refuses(|old(history)|) && Resolve(fs, directory, name).Some? ==> r.Some?
    {
      var refused := refuses(turns);
      Yield();
      var found := Resolve(fs, directory, name);
      r := if refused || found.None? then None else Some(StatOf(fs, found.value));
    }

    method Open(directory: Ino, name: string) returns (r: Option<Ino>)
      requires Valid()
      modifies this`fs, this`turns, this`history
      ensures Valid() && old(history) < history
      ensures Calm() ==> fs == old(fs)
      ensures r.Some? ==> Resolve(fs, directory, name) == r
      ensures !refuses(|old(history)|) ==> Resolve(fs, directory, name) == r
    {
      var refused := refuses(turns);
      Yield();
      r := if refused then None else Resolve(fs, directory, name);
    }

    /** A stat whose error tells whether the name is missing. */
    method Probe(directory: Ino, name: string) returns (r: Presence)
      requires Valid()
      modifies this`fs, this`turns, this`history
      ensures Valid() && old(history) < history
      ensures Calm() ==> fs == old(fs)
      ensures r == Absent ==> Resolve(fs, directory, name) == None
      ensures r == Present ==> Resolve(fs, directory, name).Some?
    {
      Yield();
      var refused: bool := *;
      r := if refused then Unknown else if Resolve(fs, directory, name).Some? then Present else Absent;
    }

    method Fstat(i: Ino) returns (r: Option<FileSystem.Stat>)
      requires Valid()
      modifies this`fs, this`turns, this`history
      ensures Valid() && old(history) < history
      ensures Calm() ==> fs == old(fs)
      ensures r.Some? ==> r.value == StatOf(fs, i)
      ensures !refuses(|old(history)|) ==> r.Some?
    {
      var refused := refuses(turns);
      Yield();
      r := if refused then None else Some(StatOf(fs, i));
    }

    /** Exclusive creation of a file or directory, private to the user. The number was never used before. */
    method CreateExclusive(directory: Ino, name: string, kind: Kind, mode: Permissions) returns (r: Creation)
      requires Valid() && name != "."
      modifies this`fs, this`turns, this`history, this`additions
      ensures Valid() && old(history) < history
      ensures !r.Created? ==> additions == old(additions)
      ensures r.Created? ==> additions == old(additions) + [Addition(directory, name, r.ino, kind, |history| - 1)]
      ensures r.Created? ==> AddedBy(additions[|old(additions)|], |old(history)|, history)
      ensures r.Created? ==> Bound(fs, directory, name, r.ino) && StatOf(fs, r.ino).kind == kind
      ensures Calm() && !r.Created? ==> fs == old(fs)
      ensures Calm() && r.Created? ==> name !in At(old(fs), directory).names && r.ino !in old(fs) && r.ino != directory
      ensures Calm() && r.Created? ==> fs == Create(old(fs), directory, name, r.ino, kind, mode, user)
    {
      Yield();
      if name in At(fs, directory).names { return Exists; }
      var i: int :| 0 <= i;
      var refused: bool := *;
      if refused || i in fs || i == directory { return Refused; }
      CreateEvolves(fs, directory, name, i, kind, mode, user);
      Become(Create(fs, directory, name, i, kind, mode, user));
      ghost var added := Addition(directory, name, i, kind, |history| - 1);
      AddedOneMore(additions, added, history, |old(history)|);
      additions := additions + [added];
      r := Created(i);
    }

    /** A write may stop early, with or without an error. */
    method Write(i: Ino, bytes: Bytes) returns (count: nat, ok: bool)
      requires Valid()
      modifies this`fs, this`turns, this`history, this`writes
      ensures Valid() && old(history) < history && count <= |bytes|
      ensures writes == old(writes) + [i]
      ensures Calm() ==> fs == Append(old(fs), i, bytes[..count])
    {
      Yield();
      ok := *;
      var n: int :| 0 <= n;
      count := if n <= |bytes| then n else |bytes|;
      AppendEvolves(fs, i, bytes[..count]);
      Become(Append(fs, i, bytes[..count]));
      writes := writes + [i];
    }

    /** A count outside the buffer is possible and must be caught by the caller. */
    method Read(i: Ino, offset: nat, length: nat) returns (count: int, bytes: Bytes, status: Status)
      requires Valid()
      modifies this`fs, this`turns, this`history
      ensures Valid() && old(history) < history
      ensures Calm() ==> fs == old(fs)
      ensures 0 <= count <= length && status != Failed ==> |bytes| == count && ChunkOf(At(fs, i).data, offset, bytes)
    {
      Yield();
      count := *;
      status := *;
      bytes := [];
      var data := At(fs, i).data;
      if 0 <= count <= length {
        if offset + count > |data| {
          status := Failed;
        } else {
          bytes := data[offset..offset + count];
        }
      }
    }

    /** Up to `maximum` entries of a directory, all of them when there are fewer. */
    method ReadDirectory(i: Ino, maximum: nat) returns (r: Option<seq<DirectoryEntry>>)
      requires Valid()
      modifies this`fs, this`turns, this`history
      ensures Valid() && old(history) < history
      ensures Calm() ==> fs == old(fs)
      ensures r.Some? ==> ListingOf(fs, i, maximum, r.value)
      ensures !refuses(|old(history)|) ==> r.Some?
    {
      var refused := refuses(turns);
      Yield();
      if refused { return None; }
      var entries: seq<DirectoryEntry> := [];
      var left := At(fs, i).names.Keys;
      while left != {} && |entries| < maximum
        invariant forall e <- entries ::
                    e.name in At(fs, i).names && e.name !in left && e.kind == At(fs, At(fs, i).names[e.name]).kind
        invariant forall j, k :: 0 <= j < k < |entries| ==> entries[j].name != entries[k].name
        invariant forall n <- At(fs, i).names :: n in left || exists e <- entries :: e.name == n
        invariant left <= At(fs, i).names.Keys && |entries| <= maximum
        decreases left
      {
        var n :| n in left;
        var before := entries;
        entries := entries + [DirectoryEntry(n, At(fs, At(fs, i).names[n]).kind)];
        assert forall e <- before :: e in entries;
        left := left - {n};
      }
      r := Some(entries);
    }

    method Sync(i: Ino) returns (ok: bool)
      requires Valid()
      modifies this`fs, this`turns, this`history
      ensures Valid() && old(history) < history
      ensures Calm() ==> fs == old(fs)
      ensures ok <==> !refuses(|old(history)|)
    {
      ok := !refuses(turns);
      Yield();
    }

    method Close() returns (ok: bool)
      requires Valid()
      modifies this`fs, this`turns, this`history
      ensures Valid() && old(history) < history
      ensures Calm() ==> fs == old(fs)
      ensures ok <==> !refuses(|old(history)|)
    {
      ok := !refuses(turns);
      Yield();
    }

    /** An exclusive rename inside one directory: it fails when the new name exists. */
    method RenameExclusive(directory: Ino, from: string, to: string) returns (ok: bool)
      requires Valid()
      modifies this`fs, this`turns, this`history, this`renamings
      ensures Valid() && old(history) < history
      ensures Calm() && !ok ==> fs == old(fs)
      ensures !ok ==> renamings == old(renamings)
      ensures ok ==> renamings == old(renamings) + [Renaming(directory, from, to, |history| - 1)]
      ensures ok ==> RenamedAt(history, directory, from, to, |history| - 1)
    {
      Yield();
      var refused: bool := *;
      if refused || from !in At(fs, directory).names || to in At(fs, directory).names { return false; }
      RenameEvolves(fs, directory, from, to);
      RenameNames(fs, directory, from, to);
      Become(Rename(fs, directory, from, to));
      renamings := renamings + [Renaming(directory, from, to, |history| - 1)];
      ok := true;
    }

    /** Removal of a file name, or of an empty directory when `emptyDirectory`. */
    method Unlink(directory: Ino, name: string, emptyDirectory: bool) returns (ok: bool)
      requires Valid()
      modifies this`fs, this`turns, this`history, this`removals
      ensures Valid() && old(history) < history
      ensures !ok ==> removals == old(removals) && (Calm() ==> fs == old(fs))
      ensures ok ==> |removals| == |old(removals)| + 1 && old(removals) <= removals
      ensures ok ==> RemovedBy(removals[|old(removals)|], directory, name, emptyDirectory, |old(history)|, history)
      ensures !refuses(|old(history)|) && Removable(fs, directory, name, emptyDirectory) ==> ok
      ensures ok && Calm() ==> name in At(old(fs), directory).names && fs == Remove(old(fs), directory, name)
    {
      var refused := refuses(turns);
      Yield();
      if refused || name !in At(fs, directory).names { return false; }
      var i := At(fs, directory).names[name];
      if emptyDirectory != (At(fs, i).kind == Directory) || (emptyDirectory && At(fs, i).names != map[]) {
        return false;
      }
      removals := removals + [Removal(directory, name, i, |history| - 1)];
      RemoveEvolves(fs, directory, name);
      Become(Remove(fs, directory, name));
      ok := true;
    }
  }

  /** At this moment the directory's name `from` became `to`, which had been free. */
  ghost predicate RenamedAt(history: seq<FS>, directory: Ino, from: string, to: string, moment: nat) {
    && 0 < moment < |history|
    && from in At(history[moment - 1], directory).names && to !in At(history[moment - 1], directory).names
    && Bound(history[moment], directory, to, At(history[moment - 1], directory).names[from])
    && from !in At(history[moment], directory).names
  }

  /** The name can be removed: it is there, and leads to a file, or to an empty directory when one is meant. */
  ghost predicate Removable(fs: FS, directory: Ino, name: string, emptyDirectory: bool) {
    && name in At(fs, directory).names
    && var i := At(fs, directory).names[name];
    emptyDirectory == (At(fs, i).kind == Directory) && (emptyDirectory ==> At(fs, i).names == map[])
  }

  /** The addition a took place at a moment from `since` on: the name was free, and the object's number never used. */
  ghost predicate AddedBy(a: Addition, since: nat, history: seq<FS>) {
    && since <= a.moment < |history| && a.moment > 0
    && a.name !in At(history[a.moment - 1], a.directory).names && a.ino !in history[a.moment - 1]
    && Bound(history[a.moment], a.directory, a.name, a.ino) && At(history[a.moment], a.ino).kind == a.kind
  }

  /** Every addition on record took place in this history. */
  ghost predicate AllAdded(additions: seq<Addition>, history: seq<FS>) {
    forall j {:trigger AddedBy(additions[j], 0, history)} :: 0 <= j < |additions| ==> AddedBy(additions[j], 0, history)
  }

  lemma AddedOneMore(additions: seq<Addition>, a: Addition, history: seq<FS>, since: nat)
    requires AllAdded(additions, history) && AddedBy(a, since, history)
    ensures AllAdded(additions + [a], history)
  {
    forall j | 0 <= j < |additions + [a]| ensures AddedBy((additions + [a])[j], 0, history) {
      if j < |additions| { assert AddedBy(additions[j], 0, history); }
    }
  }

  lemma AddedLater(additions: seq<Addition>, history: seq<FS>, longer: seq<FS>)
    requires AllAdded(additions, history) && history <= longer
    ensures AllAdded(additions, longer)
  {
    forall j | 0 <= j < |additions| ensures AddedBy(additions[j], 0, longer) {
      assert AddedBy(additions[j], 0, history);
    }
  }

  datatype Record = Genuine | Forged

  /** Whether the record of additions agrees with the history. */
  ghost function RecordOf(additions: seq<Addition>, history: seq<FS>): Record {
    if AllAdded(additions, history) then Genuine else Forged
  }

  /** The removal r of a name took place at a moment from `since` on; a removed directory was empty. */
  ghost predicate RemovedBy(r: Removal, directory: Ino, name: string, emptyDirectory: bool, since: nat,
                            history: seq<FS>) {
    && r.directory == directory && r.name == name
    && since <= r.moment == |history| - 2 && r.moment < |history|
    && Bound(history[r.moment], directory, name, r.found)
    && history[|history| - 1] == Remove(history[r.moment], directory, name)
    && (emptyDirectory ==> At(history[r.moment], r.found).names == map[])
  }

  ghost predicate ListingOf(fs: FS, i: Ino, maximum: nat, entries: seq<DirectoryEntry>) {
    && |entries| <= maximum
    && (forall e <- entries :: e.name in At(fs, i).names && e.kind == At(fs, At(fs, i).names[e.name]).kind)
    && (forall j, k :: 0 <= j < k < |entries| ==> entries[j].name != entries[k].name)
    && (|entries| < maximum ==> forall n <- At(fs, i).names :: exists e <- entries :: e.name == n)
  }
}
