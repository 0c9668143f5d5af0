/** An abstract file system: numbered objects, the two times the kernel keeps for each of them, and what
    an outside change is allowed to do.

    `mtime` moves with every change of content (bytes or directory names); `ctime` moves with every change at
    all, and also when a name of the object is added or removed (its link count or place changed). Both only
    move to values the object never had before. Nothing else is assumed about other programs. */
module FileSystem {
  datatype Option<+T> = None | Some(value: T)

  type Byte = n: nat | n < 256
  type Bytes = seq<Byte>
  type Ino = nat

  /** What a mode says outside the permission bits: a directory, a regular file, a symbolic link, or anything else. */
  datatype Kind = Directory | Regular | Symlink | Other

  /** The twelve permission bits: nine for reading, writing and executing, set-user, set-group and sticky. */
  type Permissions = m: nat | m < 4096

  datatype Inode = Inode(kind: Kind, generation: nat, mode: Permissions, owner: nat, links: nat,
                         mtime: nat, ctime: nat, data: Bytes, names: map<string, Ino>)

  type FS = map<Ino, Inode>

  const NOTHING := Inode(Other, 0, 0, 0, 0, 0, 0, [], map[])

  function At(fs: FS, i: Ino): Inode {
    if i in fs then fs[i] else NOTHING
  }

  /** Absolute paths resolve through this object: its names are absolute paths. */
  const ABOVE: Ino := 0

  function Resolve(fs: FS, directory: Ino, name: string): Option<Ino> {
    if name == "." then Some(directory)
    else if name in At(fs, directory).names then Some(At(fs, directory).names[name])
    else None
  }

  predicate Bound(fs: FS, directory: Ino, name: string, i: Ino) {
    name in At(fs, directory).names && At(fs, directory).names[name] == i
  }

  /** What a stat call reports. */
  datatype Stat = Stat(ino: Ino, kind: Kind, generation: nat, mode: Permissions, owner: nat, links: nat,
                       size: nat, mtime: nat, ctime: nat)

  function StatOf(fs: FS, i: Ino): Stat {
    var node := At(fs, i);
    Stat(i, node.kind, node.generation, node.mode, node.owner, node.links, |node.data|, node.mtime, node.ctime)
  }

  predicate SameContent(x: Inode, y: Inode) {
    x.kind == y.kind && x.generation == y.generation && x.data == y.data && x.names == y.names
  }

  predicate Evolved(x: Inode, y: Inode) {
    || x == y
    || (x.ctime < y.ctime && x.mtime <= y.mtime && (SameContent(x, y) || x.mtime < y.mtime))
  }

  /** Any number of changes by anybody, as the law of the two times restricts them. */
  ghost predicate Evolves(before: FS, after: FS) {
    && (forall i :: Evolved(At(before, i), At(after, i)))
    && (forall d, n, i :: Bound(before, d, n, i) != Bound(after, d, n, i) ==> At(before, i).ctime < At(after, i).ctime)
  }

  lemma EvolvesReflexive(fs: FS)
    ensures Evolves(fs, fs)
  {
  }

  lemma EvolvesTransitive(a: FS, b: FS, c: FS)
    requires Evolves(a, b) && Evolves(b, c)
    ensures Evolves(a, c)
  {
    forall i ensures Evolved(At(a, i), At(c, i)) {
      assert Evolved(At(a, i), At(b, i)) && Evolved(At(b, i), At(c, i));
    }
    forall d, n, i | Bound(a, d, n, i) != Bound(c, d, n, i)
      ensures At(a, i).ctime < At(c, i).ctime
    {
      assert Evolved(At(a, i), At(b, i)) && Evolved(At(b, i), At(c, i));
      assert Bound(a, d, n, i) != Bound(b, d, n, i) || Bound(b, d, n, i) != Bound(c, d, n, i);
    }
  }

  /** Equal content times at two moments: the content stood still in between. */
  lemma ContentHeld(a: FS, b: FS, c: FS, i: Ino)
    requires Evolves(a, b) && Evolves(b, c)
    requires At(a, i).mtime == At(c, i).mtime
    ensures SameContent(At(a, i), At(b, i)) && SameContent(At(b, i), At(c, i))
    ensures At(a, i).mtime == At(b, i).mtime
  {
    assert Evolved(At(a, i), At(b, i)) && Evolved(At(b, i), At(c, i));
  }

  /** Equal change times at two moments: the whole object, and every name it had at both, stood still in between. */
  lemma ObjectHeld(a: FS, b: FS, c: FS, i: Ino)
    requires Evolves(a, b) && Evolves(b, c)
    requires At(a, i).ctime == At(c, i).ctime
    ensures At(a, i) == At(b, i) == At(c, i)
    ensures forall d, n :: Bound(a, d, n, i) == Bound(b, d, n, i) == Bound(c, d, n, i)
  {
    assert Evolved(At(a, i), At(b, i)) && Evolved(At(b, i), At(c, i));
    forall d, n ensures Bound(a, d, n, i) == Bound(b, d, n, i) == Bound(c, d, n, i) {
    }
  }

  /** The bytes are what the contents have from this offset on. */
  ghost predicate ChunkOf(contents: Bytes, offset: nat, bytes: Bytes) {
    offset + |bytes| <= |contents| && bytes == contents[offset..offset + |bytes|]
  }
}
