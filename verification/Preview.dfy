/** Selections of worktrees and the validation of a preview plan's selection record. */
module Preview {
  import opened Domain
  import opened FileSystem
  import opened Paths
  import Sequences
  import Sorting

  /** `buildPathKey` works character by character: as it is, or in lower case where paths ignore case. */
  ghost predicate LawfulKey(key: char -> char) {
    key('/') == '/' && forall c :: key(c) == '/' ==> c == '/'
  }

  function Key(key: char -> char, path: string): string { Map(key, path) }

  /** The first path is a proper ancestor of the second; both are canonical absolute paths. */
  predicate ProperAncestor(ancestor: string, path: string) {
    (ancestor == "/" && path != "/") || ancestor + "/" <= path
  }

  ghost predicate AllCanonical(paths: seq<string>) {
    forall i :: 0 <= i < |paths| ==> CanonicalAbsolute(paths[i])
  }

  ghost predicate DistinctPathKeys(key: char -> char, paths: seq<string>) {
    forall i, j :: 0 <= i < j < |paths| ==> Key(key, paths[i]) != Key(key, paths[j])
  }

  ghost predicate NoneAbove(key: char -> char, paths: seq<string>) {
    forall i, j :: 0 <= i < |paths| && 0 <= j < |paths| ==> !ProperAncestor(Key(key, paths[i]), Key(key, paths[j]))
  }

  /** What is asked of selected paths, stated for every path and every pair. */
  ghost predicate Selectable(key: char -> char, paths: seq<string>) {
    AllCanonical(paths) && DistinctPathKeys(key, paths) && NoneAbove(key, paths)
  }

  ghost predicate KeysOf(key: char -> char, paths: seq<string>, identities: set<string>) {
    && (forall i :: 0 <= i < |paths| ==> Key(key, paths[i]) in identities)
    && (forall k :: k in identities ==> exists i :: 0 <= i < |paths| && Key(key, paths[i]) == k)
  }

  lemma KeysOneMore(key: char -> char, paths: seq<string>, k: nat, identities: set<string>)
    requires k < |paths| && KeysOf(key, paths[..k], identities)
    ensures KeysOf(key, paths[..k + 1], identities + {Key(key, paths[k])})
    ensures Key(key, paths[k]) in identities <==> exists i :: 0 <= i < k && Key(key, paths[i]) == Key(key, paths[k])
  {
    var some, more := paths[..k], paths[..k + 1];
    assert forall i :: 0 <= i < k ==> some[i] == more[i] == paths[i];
    assert more[k] == paths[k];
    forall id | id in identities + {Key(key, paths[k])} ensures exists i :: 0 <= i < |more| && Key(key, more[i]) == id {
      if id in identities {
        var i :| 0 <= i < |some| && Key(key, some[i]) == id;
        assert Key(key, more[i]) == id;
      } else {
        assert Key(key, more[k]) == id;
      }
    }
    if Key(key, paths[k]) in identities {
      var i :| 0 <= i < |some| && Key(key, some[i]) == Key(key, paths[k]);
      assert Key(key, paths[i]) == Key(key, paths[k]);
    }
  }

  /** The first loop of `validateSelectedPaths`. */
  method CollectKeys(key: char -> char, paths: seq<string>) returns (ok: bool, identities: set<string>)
    ensures ok <==> AllCanonical(paths) && DistinctPathKeys(key, paths)
    ensures ok ==> KeysOf(key, paths, identities)
  {
    identities := {};
    for k := 0 to |paths|
      invariant AllCanonical(paths[..k]) && DistinctPathKeys(key, paths[..k]) && KeysOf(key, paths[..k], identities)
    {
      var path := paths[k];
      KeysOneMore(key, paths, k, identities);
      Sequences.TakeNext(paths, k);
      if !CanonicalAbsolute(path) { return false, identities; }
      if Key(key, path) in identities { return false, identities; }
      identities := identities + {Key(key, path)};
    }
    Sequences.TakeAll(paths);
    ok := true;
  }

  // ---------------------------------------------------------------- the ancestor walk

  /** Some proper ancestor of the path, down from the root to `limit` characters, has one of these keys. */
  ghost predicate AncestorAmong(key: char -> char, path: string, limit: nat, identities: set<string>) {
    || (path != "/" && Key(key, "/") in identities)
    || (exists n :: 0 < n < |path| && n <= limit && path[n] == '/' && Key(key, path[..n]) in identities)
  }

  /** A canonical path does not start with two slashes. */
  lemma OneSlash(path: string)
    requires CanonicalAbsolute(path) && |path| > 1
    ensures path[1] != '/'
  {
    var parts := Split(path[1..], '/');
    assert parts[0] in parts;
  }

  lemma DirectoryOf(path: string)
    requires path != "" && path[0] == '/' && (|path| > 1 ==> path[1] != '/')
    ensures var d := Paths.Directory(path);
            && d != "" && d[0] == '/' && (d == path <==> path == "/")
            && (d == "/" || (|d| < |path| && d == path[..|d|] && path[|d|] == '/'))
            && (forall n :: (if d == "/" then 0 else |d|) < n < |path| ==> path[n] != '/')
  {
    var i := LastSlash(path);
    forall n | i < n < |path| ensures path[n] != '/' {
      assert path[i + 1..][n - i - 1] == path[n];
    }
  }

  /** Where the walk stands: an ancestor of the path, everything below it looked up in vain. */
  ghost predicate Climbed(key: char -> char, path: string, parent: string, identities: set<string>) {
    && parent != "" && parent[0] == '/' && (|parent| > 1 ==> parent[1] != '/')
    && (parent == "/" || (|parent| < |path| && parent == path[..|parent|] && path[|parent|] == '/'))
    && (forall n ::
          (if parent == "/" then 0 else |parent|) < n < |path| && path[n] == '/' ==> Key(key, path[..n]) !in identities)
  }

  lemma ClimbedFirst(key: char -> char, path: string, identities: set<string>)
    requires CanonicalAbsolute(path) && path != "/"
    ensures Climbed(key, path, Paths.Directory(path), identities)
  {
    OneSlash(path);
    DirectoryOf(path);
  }

  lemma ClimbedOn(key: char -> char, path: string, parent: string, identities: set<string>)
    requires Climbed(key, path, parent, identities) && Key(key, parent) !in identities && parent != "/"
    ensures Climbed(key, path, Paths.Directory(parent), identities) && |Paths.Directory(parent)| < |parent|
  {
    DirectoryOf(parent);
    var next := Paths.Directory(parent);
    forall n | (if next == "/" then 0 else |next|) < n < |path| && path[n] == '/'
      ensures Key(key, path[..n]) !in identities
    {
      if n == |parent| { assert path[..n] == parent; }
    }
  }

  lemma ClimbedOut(key: char -> char, path: string, parent: string, identities: set<string>)
    requires Climbed(key, path, parent, identities) && path != "/"
    ensures Key(key, parent) in identities ==> AncestorAmong(key, path, |path|, identities)
    ensures Key(key, parent) !in identities && parent == "/" ==> !AncestorAmong(key, path, |path|, identities)
  {
  }

  /** The second loop for one path: up through `filepath.Dir` until the root. */
  method AncestorSelected(key: char -> char, path: string, identities: set<string>) returns (found: bool)
    requires CanonicalAbsolute(path)
    ensures found <==> AncestorAmong(key, path, |path|, identities)
  {
    if path == "/" { return false; }
    ClimbedFirst(key, path, identities);
    var parent := Paths.Directory(path);
    while true
      invariant Climbed(key, path, parent, identities)
      decreases |parent|
    {
      ClimbedOut(key, path, parent, identities);
      if Key(key, parent) in identities { return true; }
      DirectoryOf(parent);
      if parent == Paths.Directory(parent) { return false; }
      ClimbedOn(key, path, parent, identities);
      parent := Paths.Directory(parent);
    }
  }

  /** Walking up from one path finds a selected ancestor exactly when one of the paths is above it. */
  lemma WalkIsPairwise(key: char -> char, paths: seq<string>, identities: set<string>, path: string)
    requires LawfulKey(key) && AllCanonical(paths) && KeysOf(key, paths, identities) && CanonicalAbsolute(path)
    ensures AncestorAmong(key, path, |path|, identities) <==>
      exists i :: 0 <= i < |paths| && ProperAncestor(Key(key, paths[i]), Key(key, path))
  {
    assert Key(key, "/") == "/";
    if AncestorAmong(key, path, |path|, identities) {
      if path != "/" && "/" in identities {
        var i :| 0 <= i < |paths| && Key(key, paths[i]) == "/";
        RootKey(key, path);
        assert ProperAncestor(Key(key, paths[i]), Key(key, path));
      } else {
        var n :| 0 < n < |path| && path[n] == '/' && Key(key, path[..n]) in identities;
        var i :| 0 <= i < |paths| && Key(key, paths[i]) == Key(key, path[..n]);
        KeyPrefix(key, path, n);
        assert ProperAncestor(Key(key, paths[i]), Key(key, path));
      }
    }
    if exists i :: 0 <= i < |paths| && ProperAncestor(Key(key, paths[i]), Key(key, path)) {
      var i :| 0 <= i < |paths| && ProperAncestor(Key(key, paths[i]), Key(key, path));
      PairwiseIsWalk(key, paths, identities, path, i);
    }
  }

  lemma RootKey(key: char -> char, path: string)
    requires LawfulKey(key) && path != "" && path[0] == '/'
    ensures Key(key, path) == "/" <==> path == "/"
  {
    if |path| == 1 { assert path == "/"; }
  }

  lemma KeyPrefix(key: char -> char, path: string, n: nat)
    requires LawfulKey(key) && n < |path|
    ensures Key(key, path)[..n] == Key(key, path[..n])
    ensures path[n] == '/' <==> Key(key, path[..n]) + "/" <= Key(key, path)
  {
    if path[n] == '/' {
      assert Key(key, path)[..n + 1] == Key(key, path[..n]) + "/";
    }
    if Key(key, path[..n]) + "/" <= Key(key, path) {
      assert (Key(key, path[..n]) + "/")[n] == Key(key, path)[n];
    }
  }

  lemma PairwiseIsWalk(key: char -> char, paths: seq<string>, identities: set<string>, path: string, i: nat)
    requires LawfulKey(key) && AllCanonical(paths) && KeysOf(key, paths, identities) && CanonicalAbsolute(path)
    requires i < |paths| && ProperAncestor(Key(key, paths[i]), Key(key, path))
    ensures AncestorAmong(key, path, |path|, identities)
  {
    RootKey(key, path);
    if !(Key(key, paths[i]) == "/" && path != "/") {
      var n := |paths[i]|;
      assert Key(key, paths[i]) + "/" <= Key(key, path);
      assert Key(key, path[..n]) == Key(key, paths[i]);
      KeyPrefix(key, path, n);
    }
  }

  /** `validateSelectedPaths`: the walk up from every path decides the condition on all pairs. */
  method ValidateSelectedPaths(key: char -> char, paths: seq<string>) returns (ok: bool)
    requires LawfulKey(key)
    ensures ok <==> Selectable(key, paths)
  {
    var identities;
    ok, identities := CollectKeys(key, paths);
    if !ok { return; }
    for k := 0 to |paths|
      invariant forall j :: 0 <= j < k ==> !AncestorAmong(key, paths[j], |paths[j]|, identities)
    {
      WalkIsPairwise(key, paths, identities, paths[k]);
      var found := AncestorSelected(key, paths[k], identities);
      if found { return false; }
    }
    forall i, j | 0 <= i < |paths| && 0 <= j < |paths| ensures !ProperAncestor(Key(key, paths[i]), Key(key, paths[j])) {
      WalkIsPairwise(key, paths, identities, paths[j]);
    }
  }

  // ---------------------------------------------------------------- identities of worktrees

  function PathsOf(worktrees: seq<Worktree>): (paths: seq<string>)
    ensures |paths| == |worktrees| && forall i :: 0 <= i < |paths| ==> paths[i] == worktrees[i].path
  {
    seq(|worktrees|, i requires 0 <= i < |worktrees| => worktrees[i].path)
  }

  ghost predicate DistinctAdmins(key: char -> char, worktrees: seq<Worktree>) {
    forall i, j ::
        0 <= i < j < |worktrees| && CanonicalAbsolute(worktrees[i].adminDir)
            && CanonicalAbsolute(worktrees[j].adminDir) ==>
      Key(key, worktrees[i].adminDir) != Key(key, worktrees[j].adminDir)
  }

  /** Every worktree has its own canonical path, and its own administrative directory if that is canonical. */
  ghost predicate Identified(key: char -> char, worktrees: seq<Worktree>) {
    AllCanonical(PathsOf(worktrees)) && DistinctPathKeys(key, PathsOf(worktrees)) && DistinctAdmins(key, worktrees)
  }

  ghost predicate AdminKeys(key: char -> char, worktrees: seq<Worktree>, admins: set<string>) {
    && (forall i ::
          0 <= i < |worktrees| && CanonicalAbsolute(worktrees[i].adminDir) ==>
              Key(key, worktrees[i].adminDir) in admins)
    && (forall a :: a in admins ==> exists i ::
          0 <= i < |worktrees| && CanonicalAbsolute(worktrees[i].adminDir) && Key(key, worktrees[i].adminDir) == a)
  }

  lemma AdminTaken(key: char -> char, worktrees: seq<Worktree>, k: nat, admins: set<string>)
    requires k < |worktrees| && AdminKeys(key, worktrees[..k], admins)
    requires CanonicalAbsolute(worktrees[k].adminDir) && Key(key, worktrees[k].adminDir) in admins
    ensures !DistinctAdmins(key, worktrees)
  {
    var some := worktrees[..k];
    var i :| 0 <= i < |some| && CanonicalAbsolute(some[i].adminDir)
        && Key(key, some[i].adminDir) == Key(key, worktrees[k].adminDir);
    assert worktrees[i] == some[i];
  }

  lemma AdminOneMore(key: char -> char, worktrees: seq<Worktree>, k: nat, admins: set<string>)
    requires k < |worktrees| && AdminKeys(key, worktrees[..k], admins) && DistinctAdmins(key, worktrees[..k])
    requires CanonicalAbsolute(worktrees[k].adminDir) ==> Key(key, worktrees[k].adminDir) !in admins
    ensures DistinctAdmins(key, worktrees[..k + 1])
    ensures AdminKeys(key, worktrees[..k + 1],
                      if CanonicalAbsolute(worktrees[k].adminDir) then admins + {Key(key, worktrees[k].adminDir)}
                      else admins)
  {
    var some, more := worktrees[..k], worktrees[..k + 1];
    var after := if CanonicalAbsolute(worktrees[k].adminDir) then admins + {Key(key, worktrees[k].adminDir)}
        else admins;
    assert forall i :: 0 <= i < k ==> some[i] == more[i];
    assert more[k] == worktrees[k];
    forall a | a in after
      ensures exists i :: 0 <= i < |more| && CanonicalAbsolute(more[i].adminDir) && Key(key, more[i].adminDir) == a
    {
      if a in admins {
        var i :| 0 <= i < |some| && CanonicalAbsolute(some[i].adminDir) && Key(key, some[i].adminDir) == a;
        assert Key(key, more[i].adminDir) == a;
      } else {
        assert Key(key, more[k].adminDir) == a;
      }
    }
  }

  /** What the loop has established about the first k worktrees. */
  ghost predicate IdentifiedSoFar(key: char -> char, worktrees: seq<Worktree>, k: nat, paths: set<string>,
                                  admins: set<string>)
    requires k <= |worktrees|
  {
    var some := PathsOf(worktrees)[..k];
    && AllCanonical(some) && DistinctPathKeys(key, some) && KeysOf(key, some, paths)
    && DistinctAdmins(key, worktrees[..k]) && AdminKeys(key, worktrees[..k], admins)
  }

  /** The key of an administrative directory, when it has one. */
  function AdminKey(key: char -> char, worktree: Worktree): set<string> {
    if CanonicalAbsolute(worktree.adminDir) then {Key(key, worktree.adminDir)} else {}
  }

  lemma IdentifiedNext(key: char -> char, worktrees: seq<Worktree>, k: nat, paths: set<string>, admins: set<string>)
    requires k < |worktrees| && IdentifiedSoFar(key, worktrees, k, paths, admins)
    requires CanonicalAbsolute(worktrees[k].path) && Key(key, worktrees[k].path) !in paths
    requires AdminKey(key, worktrees[k]) * admins == {}
    ensures IdentifiedSoFar(key, worktrees, k + 1, paths + {Key(key, worktrees[k].path)},
                            admins + AdminKey(key, worktrees[k]))
  {
    var all := PathsOf(worktrees);
    KeysOneMore(key, all, k, paths);
    Sequences.TakeNext(all, k);
    if CanonicalAbsolute(worktrees[k].adminDir) {
      assert Key(key, worktrees[k].adminDir) in AdminKey(key, worktrees[k]);
    }
    AdminOneMore(key, worktrees, k, admins);
    assert admins + {} == admins;
  }

  lemma PathTaken(key: char -> char, worktrees: seq<Worktree>, k: nat, paths: set<string>, admins: set<string>)
    requires k < |worktrees| && IdentifiedSoFar(key, worktrees, k, paths, admins)
    requires !CanonicalAbsolute(worktrees[k].path) || Key(key, worktrees[k].path) in paths
    ensures !Identified(key, worktrees)
  {
    var all := PathsOf(worktrees);
    assert all[k] == worktrees[k].path;
    KeysOneMore(key, all, k, paths);
  }

  lemma IdentifiedAll(key: char -> char, worktrees: seq<Worktree>, paths: set<string>, admins: set<string>)
    requires IdentifiedSoFar(key, worktrees, |worktrees|, paths, admins)
    ensures Identified(key, worktrees)
  {
    Sequences.TakeAll(PathsOf(worktrees));
    Sequences.TakeAll(worktrees);
  }

  /** `validateBuildIdentities` */
  method ValidateBuildIdentities(key: char -> char, worktrees: seq<Worktree>) returns (ok: bool)
    ensures ok <==> Identified(key, worktrees)
  {
    var paths, admins: set<string> := {}, {};
    for k := 0 to |worktrees|
      invariant IdentifiedSoFar(key, worktrees, k, paths, admins)
    {
      var worktree := worktrees[k];
      if !CanonicalAbsolute(worktree.path) || Key(key, worktree.path) in paths {
        PathTaken(key, worktrees, k, paths, admins);
        return false;
      }
      if CanonicalAbsolute(worktree.adminDir) && Key(key, worktree.adminDir) in admins {
        AdminTaken(key, worktrees, k, admins);
        return false;
      }
      IdentifiedNext(key, worktrees, k, paths, admins);
      paths := paths + {Key(key, worktree.path)};
      admins := admins + AdminKey(key, worktree);
    }
    IdentifiedAll(key, worktrees, paths, admins);
    ok := true;
  }

  // ---------------------------------------------------------------- matching the selection

  /** The last worktree whose path has this key. */
  function Registered(key: char -> char, worktrees: seq<Worktree>, k: string): Option<Worktree> {
    if worktrees == [] then None
    else if Key(key, worktrees[|worktrees| - 1].path) == k then Some(worktrees[|worktrees| - 1])
    else Registered(key, worktrees[..|worktrees| - 1], k)
  }

  predicate Selected(key: char -> char, worktrees: seq<Worktree>, path: string) {
    Registered(key, worktrees, Key(key, path)).Some? && !Registered(key, worktrees, Key(key, path)).value.primary
  }

  function RegisteredPath(key: char -> char, worktrees: seq<Worktree>, path: string): string {
    var worktree := Registered(key, worktrees, Key(key, path));
    if worktree.Some? then worktree.value.path else path
  }

  /** The registered paths of the selected ones, in the order selected. */
  function RegisteredPaths(key: char -> char, worktrees: seq<Worktree>, paths: seq<string>): (r: seq<string>)
    ensures |r| == |paths| && forall i :: 0 <= i < |r| ==> r[i] == RegisteredPath(key, worktrees, paths[i])
  {
    seq(|paths|, i requires 0 <= i < |paths| => RegisteredPath(key, worktrees, paths[i]))
  }

  function Itself(s: string): string { s }

  ghost predicate Registers(key: char -> char, worktrees: seq<Worktree>, registered: map<string, Worktree>) {
    forall k :: (k in registered <==> Registered(key, worktrees, k).Some?)
                && (k in registered ==> registered[k] == Registered(key, worktrees, k).value)
  }

  /** `matchSelectedPaths` */
  method MatchSelectedPaths(key: char -> char, paths: seq<string>, worktrees: seq<Worktree>)
      returns (matched: Option<seq<string>>)
    ensures matched.Some? <==> forall i :: 0 <= i < |paths| ==> Selected(key, worktrees, paths[i])
    ensures matched.Some? ==> matched.value == Sorting.Sort(RegisteredPaths(key, worktrees, paths), Itself)
  {
    var registered: map<string, Worktree> := map[];
    for k := 0 to |worktrees|
      invariant Registers(key, worktrees[..k], registered)
    {
      Sequences.TakeNext(worktrees, k);
      Sequences.Snoc(worktrees[..k], worktrees[k]);
      registered := registered[Key(key, worktrees[k].path) := worktrees[k]];
    }
    Sequences.TakeAll(worktrees);
    var found := [];
    for k := 0 to |paths|
      invariant |found| == k
      invariant forall i :: 0 <= i < k ==>
                  Selected(key, worktrees, paths[i]) && found[i] == RegisteredPath(key, worktrees, paths[i])
    {
      var id := Key(key, paths[k]);
      if id !in registered { return None; }
      if registered[id].primary { return None; }
      found := found + [registered[id].path];
    }
    assert found == RegisteredPaths(key, worktrees, paths);
    matched := Some(Sorting.Sort(found, Itself));
  }

  /** `previewSelection` */
  function PreviewSelection(worktree: Worktree, selected: bool, skipDirty: bool): CandidateSelection {
    var status := worktree.status;
    var known := worktree.gitStateKnown && worktree.collectionErrors == []
                 && status.staged >= 0 && status.unstaged >= 0 && status.unmerged >= 0 && status.untracked >= 0;
    CandidateSelection(selected, if selected && skipDirty && known && !status.Clean() then "dirty" else "")
  }

  /** `validatePreviewRequest`, for what a plan records of its request. */
  ghost predicate RequestFits(key: char -> char, mode: ApplyMode, paths: seq<string>, skipDirty: bool) {
    && (skipDirty ==> paths != [])
    && (paths != [] ==> mode == Interactive)
    && Selectable(key, paths)
  }

  method ValidatePreviewRequest(key: char -> char, mode: ApplyMode, paths: seq<string>, skipDirty: bool, backup: bool)
      returns (ok: bool)
    requires LawfulKey(key)
    ensures ok <==> !backup && RequestFits(key, mode, paths, skipDirty)
  {
    if backup { return false; }
    if skipDirty && |paths| == 0 { return false; }
    if |paths| != 0 && mode != Interactive { return false; }
    ok := ValidateSelectedPaths(key, paths);
  }
}
