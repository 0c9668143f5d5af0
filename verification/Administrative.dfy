/** Administrative entries of a snapshot manifest and their validation. */
module Administrative {
  import opened FileSystem
  import opened Paths
  import Sequences

  const MAXIMUM_ENTRIES := 4096
  const MAXIMUM_BYTES := 16 * 1024 * 1024

  /** A Go file mode: the type bits and the permission bits. */
  datatype FileMode = FileMode(kind: Kind, permissions: Permissions)

  datatype AdminEntry = AdminEntry(path: string, kind: string, mode: FileMode, data: Option<Bytes>) {
    function Size(): nat {
      if data.Some? then |data.value| else 0
    }
  }

  const RESERVED_NAMES: set<string> := {"CON", "PRN", "AUX", "NUL", "CONIN$", "CONOUT$"}
  const FORBIDDEN: set<char> := {'\\', '<', '>', ':', '"', '|', '?', '*'}

  function TrimRightSpaces(s: string): string {
    if s != "" && s[|s| - 1] == ' ' then TrimRightSpaces(s[..|s| - 1]) else s
  }

  predicate PortableComponent(letters: Letters, component: string) {
    && (component != "" ==> component[|component| - 1] != '.' && component[|component| - 1] != ' ')
    && var base := Map(letters.upper, TrimRightSpaces(component[..Find(component, '.')]));
    && base !in RESERVED_NAMES
    && ("COM" <= base || "LPT" <= base ==>
          var suffix := base[3..];
          && !(|suffix| == 1 && '1' <= suffix[0] <= '9')
          && suffix !in {"\U{00B9}", "\U{00B2}", "\U{00B3}"})
  }

  predicate ValidAdministrativePath(letters: Letters, path: string) {
    && Utf8Length(path) <= 4096
    && ValidPath(path)
    && (path != "." ==>
          && (forall c <- path :: c !in FORBIDDEN && c as int >= 32 && c as int != 127)
          && (forall part <- Split(path, '/') :: PortableComponent(letters, part)))
  }

  function TotalBytes(entries: seq<AdminEntry>): nat {
    if entries == [] then 0 else TotalBytes(entries[..|entries| - 1]) + entries[|entries| - 1].Size()
  }

  predicate ValidEntry(letters: Letters, entry: AdminEntry) {
    && ValidAdministrativePath(letters, entry.path)
    && (entry.kind == "directory" || entry.kind == "file")
    && (entry.kind == "directory" ==> entry.mode.kind == Directory && entry.data == None)
    && (entry.kind == "file" ==> entry.mode.kind == Regular && entry.path != ".")
  }

  ghost predicate DistinctFolds(letters: Letters, entries: seq<AdminEntry>) {
    forall i, j :: 0 <= i < j < |entries| ==> Fold(letters, entries[i].path) != Fold(letters, entries[j].path)
  }

  ghost predicate HasDirectory(entries: seq<AdminEntry>, path: string) {
    exists e <- entries :: e.path == path && e.kind == "directory"
  }

  ghost predicate HasFile(entries: seq<AdminEntry>, path: string) {
    exists e <- entries :: e.path == path && e.kind == "file" && e.Size() > 0
  }

  ghost predicate AllValid(letters: Letters, entries: seq<AdminEntry>) {
    forall i :: 0 <= i < |entries| ==> ValidEntry(letters, entries[i])
  }

  ghost predicate ParentsPresent(entries: seq<AdminEntry>) {
    forall e <- entries :: e.path != "." ==> HasDirectory(entries, Parent(e.path))
  }

  ghost predicate IndexIsFile(entries: seq<AdminEntry>) {
    forall e <- entries :: e.path == "index" ==> e.kind == "file"
  }

  /** What makes a list of entries a complete administrative tree. */
  ghost predicate WellShaped(letters: Letters, entries: seq<AdminEntry>) {
    && AllValid(letters, entries)
    && DistinctFolds(letters, entries)
    && TotalBytes(entries) <= MAXIMUM_BYTES
    && HasDirectory(entries, ".")
    && ParentsPresent(entries)
    && HasFile(entries, "HEAD") && HasFile(entries, "commondir") && HasFile(entries, "gitdir")
    && IndexIsFile(entries)
  }

  lemma {:induction false} TotalBytesGrows(entries: seq<AdminEntry>, k: nat)
    requires k <= |entries|
    ensures TotalBytes(entries[..k]) <= TotalBytes(entries)
  {
    if k < |entries| {
      TotalBytesGrows(entries[..|entries| - 1], k);
      assert entries[..|entries| - 1][..k] == entries[..k];
    } else {
      assert entries[..k] == entries;
    }
  }

  ghost predicate Indexes(byPath: map<string, AdminEntry>, entries: seq<AdminEntry>) {
    forall p, e :: p in byPath && byPath[p] == e <==> e in entries && e.path == p
  }

  ghost predicate Folded(letters: Letters, entries: seq<AdminEntry>, identities: set<string>) {
    forall f :: f in identities <==> exists i :: 0 <= i < |entries| && Fold(letters, entries[i].path) == f
  }

  lemma FoldedOneMore(letters: Letters, entries: seq<AdminEntry>, entry: AdminEntry, identities: set<string>)
    requires Folded(letters, entries, identities)
    requires DistinctFolds(letters, entries) && Fold(letters, entry.path) !in identities
    ensures DistinctFolds(letters, entries + [entry])
    ensures Folded(letters, entries + [entry], identities + {Fold(letters, entry.path)})
  {
    var more := entries + [entry];
    assert forall i :: 0 <= i < |entries| ==> Fold(letters, entries[i].path) in identities;
    forall f | f in identities ensures exists i :: 0 <= i < |more| && Fold(letters, more[i].path) == f {
      var i :| 0 <= i < |entries| && Fold(letters, entries[i].path) == f;
      assert more[i] == entries[i];
    }
    assert more[|entries|] == entry;
  }

  lemma IndexOneMore(letters: Letters, entries: seq<AdminEntry>, entry: AdminEntry, byPath: map<string, AdminEntry>,
                     identities: set<string>)
    requires Indexes(byPath, entries) && Folded(letters, entries, identities)
    requires Fold(letters, entry.path) !in identities
    ensures Indexes(byPath[entry.path := entry], entries + [entry])
  {
    forall e <- entries ensures e.path != entry.path {
      var i :| 0 <= i < |entries| && entries[i] == e;
      assert Fold(letters, entries[i].path) in identities;
    }
  }

  /** The first loop: valid entries, distinct folded paths, bounded bytes, and an index of the entries by path. */
  method IndexEntries(letters: Letters, entries: seq<AdminEntry>) returns (ok: bool, byPath: map<string, AdminEntry>)
    ensures ok <==>
              AllValid(letters, entries) && DistinctFolds(letters, entries) && TotalBytes(entries) <= MAXIMUM_BYTES
    ensures ok ==> Indexes(byPath, entries)
  {
    byPath := map[];
    var identities: set<string> := {};
    var total: nat := 0;
    for k := 0 to |entries|
      invariant AllValid(letters, entries[..k])
      invariant DistinctFolds(letters, entries[..k])
      invariant Folded(letters, entries[..k], identities)
      invariant total == TotalBytes(entries[..k]) <= MAXIMUM_BYTES
      invariant Indexes(byPath, entries[..k])
    {
      var entry := entries[k];
      var identity := Fold(letters, entry.path);
      assert entries[..k + 1] == entries[..k] + [entry];
      TotalBytesGrows(entries, k + 1);
      if !ValidEntry(letters, entry) { return false, byPath; }
      if identity in identities { return false, byPath; }
      if entry.Size() > MAXIMUM_BYTES - total { return false, byPath; }
      IndexOneMore(letters, entries[..k], entry, byPath, identities);
      FoldedOneMore(letters, entries[..k], entry, identities);
      identities := identities + {identity};
      byPath := byPath[entry.path := entry];
      total := total + entry.Size();
    }
    assert entries[..|entries|] == entries;
    ok := true;
  }

  /** The second loop: every entry except the root has its parent directory among the entries. */
  method HaveParents(entries: seq<AdminEntry>, byPath: map<string, AdminEntry>) returns (ok: bool)
    requires Indexes(byPath, entries)
    ensures ok <==> ParentsPresent(entries)
  {
    for k := 0 to |entries|
      invariant forall i :: 0 <= i < k && entries[i].path != "." ==> HasDirectory(entries, Parent(entries[i].path))
    {
      var path := entries[k].path;
      if path != "." {
        var parent := Parent(path);
        if parent !in byPath || byPath[parent].kind != "directory" {
          assert entries[k] in entries && !HasDirectory(entries, parent);
          return false;
        }
      }
    }
    ok := true;
  }

  /** The third loop: the three files that every linked worktree has. */
  method HaveRequiredFiles(entries: seq<AdminEntry>, byPath: map<string, AdminEntry>) returns (ok: bool)
    requires Indexes(byPath, entries)
    ensures ok <==> HasFile(entries, "HEAD") && HasFile(entries, "commondir") && HasFile(entries, "gitdir")
  {
    var names := ["HEAD", "commondir", "gitdir"];
    for k := 0 to 3
      invariant forall i :: 0 <= i < k ==> HasFile(entries, names[i])
    {
      if names[k] !in byPath || byPath[names[k]].kind != "file" || byPath[names[k]].Size() == 0 {
        assert !HasFile(entries, names[k]);
        return false;
      }
    }
    assert HasFile(entries, names[0]) && HasFile(entries, names[1]) && HasFile(entries, names[2]);
    ok := true;
  }

  lemma LookedUp(entries: seq<AdminEntry>, byPath: map<string, AdminEntry>)
    requires Indexes(byPath, entries)
    ensures HasDirectory(entries, ".") <==> "." in byPath && byPath["."].kind == "directory"
    ensures IndexIsFile(entries) <==> "index" !in byPath || byPath["index"].kind == "file"
  {
  }

  /** `validateAdministrativeEntries` accepts exactly the well-shaped trees. */
  method ValidateAdministrativeEntries(letters: Letters, entries: seq<AdminEntry>) returns (ok: bool)
    ensures ok <==> WellShaped(letters, entries)
  {
    var indexed, byPath := IndexEntries(letters, entries);
    if !indexed { return false; }
    LookedUp(entries, byPath);
    if "." !in byPath || byPath["."].kind != "directory" { return false; }
    var parents := HaveParents(entries, byPath);
    if !parents { return false; }
    var required := HaveRequiredFiles(entries, byPath);
    if !required { return false; }
    ok := "index" !in byPath || byPath["index"].kind == "file";
  }

  // ---------------------------------------------------------------- the order of the entries does not matter

  function DataOf(e: AdminEntry): Bytes { if e.data.Some? then e.data.value else [] }

  lemma {:induction false} TotalBytesFlat(entries: seq<AdminEntry>)
    ensures TotalBytes(entries) == |Sequences.FlatMap(DataOf, entries)|
  {
    if entries != [] { TotalBytesFlat(entries[..|entries| - 1]); }
  }

  lemma TotalBytesPermute(xs: seq<AdminEntry>, ys: seq<AdminEntry>)
    requires multiset(xs) == multiset(ys)
    ensures TotalBytes(xs) == TotalBytes(ys)
  {
    TotalBytesFlat(xs);
    TotalBytesFlat(ys);
    Sequences.FlatMapPermute(DataOf, xs, ys);
    assert |multiset(Sequences.FlatMap(DataOf, xs))| == |Sequences.FlatMap(DataOf, xs)|;
  }

  lemma DistinctFoldsPermute(letters: Letters, xs: seq<AdminEntry>, ys: seq<AdminEntry>)
    requires multiset(xs) == multiset(ys) && DistinctFolds(letters, xs)
    ensures DistinctFolds(letters, ys)
  {
    var same := (a: AdminEntry, b: AdminEntry) => Fold(letters, a.path) == Fold(letters, b.path);
    assert Sequences.PairwiseFree(same, xs);
    Sequences.PairwisePermute(same, xs, ys);
    forall i, j | 0 <= i < j < |ys| ensures Fold(letters, ys[i].path) != Fold(letters, ys[j].path) {
      assert !same(ys[i], ys[j]);
    }
  }

  /** A tree may be listed in any order. */
  lemma WellShapedPermute(letters: Letters, xs: seq<AdminEntry>, ys: seq<AdminEntry>)
    requires multiset(xs) == multiset(ys) && WellShaped(letters, xs)
    ensures WellShaped(letters, ys)
  {
    Sequences.PermuteMembers(xs, ys);
    DistinctFoldsPermute(letters, xs, ys);
    TotalBytesPermute(xs, ys);
    forall i | 0 <= i < |ys| ensures ValidEntry(letters, ys[i]) {
      assert ys[i] in ys;
      var j :| 0 <= j < |xs| && xs[j] == ys[i];
    }
    forall path ensures HasDirectory(xs, path) ==> HasDirectory(ys, path) { }
    forall path ensures HasFile(xs, path) ==> HasFile(ys, path) { }
  }
}
