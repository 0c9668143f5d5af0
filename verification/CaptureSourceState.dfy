/** Checking that what was read of the untracked files is what was asked for: a byte budget that every entry
    draws on, and a worklist over the trie of requested paths. */
module CaptureSourceState {
  import opened Paths
  import opened Administrative
  import opened UntrackedValidation
  import opened UntrackedSelection
  import Sequences
  import Sorting

  /** `sourceByteBudget` */
  class SourceByteBudget {
    var remaining: nat

    constructor (bytes: nat)
      ensures remaining == bytes
    {
      remaining := bytes;
    }

    method Take(size: nat) returns (ok: bool)
      modifies this
      ensures ok <==> size <= old(remaining)
      ensures remaining == if ok then old(remaining) - size else old(remaining)
    {
      ok := size <= remaining;
      if ok { remaining := remaining - size; }
    }
  }

  function Draw(e: UntrackedEntry): nat {
    e.Size() + Utf8Length(e.linkTarget)
  }

  function TotalDraw(entries: seq<UntrackedEntry>): nat {
    if entries == [] then 0 else TotalDraw(entries[..|entries| - 1]) + Draw(entries[|entries| - 1])
  }

  lemma {:induction false} TotalDrawGrows(entries: seq<UntrackedEntry>, k: nat)
    requires k <= |entries|
    ensures TotalDraw(entries[..k]) <= TotalDraw(entries)
  {
    if k < |entries| {
      TotalDrawGrows(entries[..|entries| - 1], k);
      assert entries[..|entries| - 1][..k] == entries[..k];
    } else {
      assert entries[..k] == entries;
    }
  }

  lemma DrawOneMore(entries: seq<UntrackedEntry>, k: nat)
    requires k < |entries|
    ensures TotalDraw(entries[..k + 1]) == TotalDraw(entries[..k]) + Draw(entries[k]) <= TotalDraw(entries)
  {
    var more := entries[..k + 1];
    assert more[..|more| - 1] == entries[..k] && more[|more| - 1] == entries[k];
    TotalDrawGrows(entries, k + 1);
  }

  // ---------------------------------------------------------------- the index by path

  ghost predicate IndexOf(byPath: map<string, UntrackedEntry>, entries: seq<UntrackedEntry>) {
    && (forall p :: p in byPath ==> byPath[p] in entries && byPath[p].path == p)
    && (forall e :: e in entries ==> e.path in byPath && byPath[e.path] == e)
  }

  lemma IndexOneMore(letters: Letters, entries: seq<UntrackedEntry>, k: nat, byPath: map<string, UntrackedEntry>)
    requires DistinctIdentities(letters, entries) && k < |entries| && IndexOf(byPath, entries[..k])
    ensures IndexOf(byPath[entries[k].path := entries[k]], entries[..k + 1])
  {
    var some, more, last := entries[..k], entries[..k + 1], entries[k];
    assert more == some + [last];
    forall e | e in some ensures e.path != last.path {
      var i :| 0 <= i < k && some[i] == e;
      assert Fold(letters, entries[i].path) != Fold(letters, entries[k].path);
    }
  }

  /** The first loop: every entry draws its bytes and its link text, and is entered by path. */
  method TakeAndIndex(letters: Letters, entries: seq<UntrackedEntry>, budget: SourceByteBudget)
      returns (ok: bool, byPath: map<string, UntrackedEntry>)
    requires DistinctIdentities(letters, entries)
    modifies budget
    ensures ok <==> TotalDraw(entries) <= old(budget.remaining)
    ensures ok ==> budget.remaining == old(budget.remaining) - TotalDraw(entries)
    ensures ok ==> IndexOf(byPath, entries)
  {
    byPath := map[];
    for k := 0 to |entries|
      invariant TotalDraw(entries[..k]) <= old(budget.remaining)
      invariant budget.remaining == old(budget.remaining) - TotalDraw(entries[..k])
      invariant IndexOf(byPath, entries[..k])
    {
      var entry := entries[k];
      DrawOneMore(entries, k);
      ok := budget.Take(entry.Size());
      if !ok { return; }
      ok := budget.Take(Utf8Length(entry.linkTarget));
      if !ok { return; }
      IndexOneMore(letters, entries, k, byPath);
      byPath := byPath[entry.path := entry];
    }
    assert entries[..|entries|] == entries;
    ok := true;
  }

  // ---------------------------------------------------------------- the worklist

  /** A node has an entry of the right kind. */
  predicate NodeAgrees(byPath: map<string, UntrackedEntry>, path: string, children: bool) {
    path in byPath && (byPath[path].kind == "directory") == children
  }

  ghost predicate ShapeAgrees(byPath: map<string, UntrackedEntry>, forest: Forest, repr: set<Node>)
    reads repr
  {
    && (forall c ::
          c in forest && c != [] ==> forest[c] in repr && NodeAgrees(byPath, forest[c].path, forest[c].children != []))
    && (forall p :: p in byPath ==> Components(p) in forest)
  }

  /** The worklist holds nodes of the trie, each once, none of them visited, all with visited parents. */
  ghost predicate Listed(forest: Forest, visited: set<Key>, pending: seq<Node>) {
    && (forall n ::
          n in pending ==> KeyOf(n) in forest && forest[KeyOf(n)] == n && KeyOf(n) != [] && KeyOf(n) !in visited)
    && (forall i, j :: 0 <= i < j < |pending| ==> pending[i] != pending[j])
    && (forall c, x :: c + [x] in forest && forest[c + [x]] in pending ==> c == [] || c in visited)
  }

  /** The visited keys grow downwards, and every child of one of them is visited or waiting. */
  ghost predicate Covered(forest: Forest, visited: set<Key>, pending: seq<Node>) {
    && visited <= forest.Keys && [] !in visited
    && (forall c, x :: c + [x] in visited ==> c == [] || c in visited)
    && (forall c, x ::
          c + [x] in forest && (c == [] || c in visited) ==> c + [x] in visited || forest[c + [x]] in pending)
  }

  /** What is left of the index is what belongs to no visited node. */
  ghost predicate LeftOver(all: map<string, UntrackedEntry>, left: map<string, UntrackedEntry>, visited: set<Key>) {
    && (forall p :: p in left <==> p in all && Components(p) !in visited)
    && (forall p :: p in left ==> left[p] == all[p])
  }

  ghost predicate VisitedAgree(all: map<string, UntrackedEntry>, forest: Forest, repr: set<Node>, visited: set<Key>)
    reads repr
  {
    forall c ::
      c in visited && c in forest && forest[c] in repr ==> NodeAgrees(all, forest[c].path, forest[c].children != [])
  }

  /** The popped node's children are new to the worklist. */
  lemma ChildrenAreNew(forest: Forest, visited: set<Key>, pending: seq<Node>, node: Node, children: seq<Node>, n: Node)
    requires Rooted(forest) && Listed(forest, visited, pending + [node]) && Covered(forest, visited, pending + [node])
    requires ChildrenAre(forest, KeyOf(node), children) && n in children
    ensures KeyOf(n) == KeyOf(node) + [n.name] && KeyOf(n) in forest && forest[KeyOf(n)] == n
    ensures KeyOf(n) !in visited && n !in pending && n != node
  {
    var at := KeyOf(node);
    assert (pending + [node])[|pending|] == node && node in pending + [node];
    assert forall m :: m in pending ==> m in pending + [node];
    assert at + [n.name] in forest && KeyOf(forest[at + [n.name]]) == at + [n.name];
    assert at !in visited && at != [];
  }

  lemma PoppedIsGone(pending: seq<Node>, node: Node)
    requires forall i, j :: 0 <= i < j < |pending + [node]| ==> (pending + [node])[i] != (pending + [node])[j]
    ensures node !in pending
    ensures forall i, j :: 0 <= i < j < |pending| ==> pending[i] != pending[j]
  {
    forall i | 0 <= i < |pending| ensures pending[i] != node {
      assert (pending + [node])[i] != (pending + [node])[|pending|];
    }
    forall i, j | 0 <= i < j < |pending| ensures pending[i] != pending[j] {
      assert (pending + [node])[i] != (pending + [node])[j];
    }
  }

  lemma DistinctTogether(pending: seq<Node>, children: seq<Node>)
    requires forall i, j :: 0 <= i < j < |pending| ==> pending[i] != pending[j]
    requires Sorting.DistinctKeys(children, NodeName)
    requires forall n :: n in children ==> n !in pending
    ensures forall i, j :: 0 <= i < j < |pending + children| ==> (pending + children)[i] != (pending + children)[j]
  {
    var after := pending + children;
    forall i, j | 0 <= i < j < |after| ensures after[i] != after[j] {
      if |pending| <= i {
        assert NodeName(children[i - |pending|]) != NodeName(children[j - |pending|]);
      } else if |pending| <= j {
        assert after[i] in pending && after[j] in children;
      }
    }
  }

  lemma ListedOneMore(forest: Forest, visited: set<Key>, pending: seq<Node>, node: Node, children: seq<Node>)
    requires Rooted(forest) && Listed(forest, visited, pending + [node]) && Covered(forest, visited, pending + [node])
    requires ChildrenAre(forest, KeyOf(node), children)
    ensures Listed(forest, visited + {KeyOf(node)}, pending + children)
  {
    var at, after := KeyOf(node), pending + children;
    PoppedIsGone(pending, node);
    forall n | n in children
      ensures KeyOf(n) == at + [n.name] && KeyOf(n) in forest && forest[KeyOf(n)] == n
      ensures KeyOf(n) !in visited && n !in pending && n != node
    {
      ChildrenAreNew(forest, visited, pending, node, children, n);
    }
    DistinctTogether(pending, children);
    forall n | n in after
      ensures KeyOf(n) in forest && forest[KeyOf(n)] == n && KeyOf(n) != [] && KeyOf(n) !in visited + {at}
    {
      if n in pending { assert n in pending + [node] && n != node; }
    }
    forall c, x | c + [x] in forest && forest[c + [x]] in after ensures c == [] || c in visited + {at} {
      var n := forest[c + [x]];
      if n in children {
        assert KeyOf(n) == c + [x];
        SameExtension(c, at, x, n.name);
      } else {
        assert n in pending + [node];
      }
    }
  }

  lemma CoveredOneMore(forest: Forest, visited: set<Key>, pending: seq<Node>, node: Node, children: seq<Node>)
    requires Rooted(forest) && Listed(forest, visited, pending + [node]) && Covered(forest, visited, pending + [node])
    requires ChildrenAre(forest, KeyOf(node), children)
    ensures Covered(forest, visited + {KeyOf(node)}, pending + children)
  {
    var at := KeyOf(node);
    assert (pending + [node])[|pending|] == node;
    forall c, x | c + [x] in visited + {at} ensures c == [] || c in visited + {at} {
      if c + [x] == at { assert forest[c + [x]] == node; }
    }
    forall c, x | c + [x] in forest && (c == [] || c in visited + {at})
      ensures c + [x] in visited + {at} || forest[c + [x]] in pending + children
    {
      if c != at {
        assert c + [x] in visited || forest[c + [x]] in pending + [node];
        if forest[c + [x]] == node { assert KeyOf(forest[c + [x]]) == c + [x]; }
      }
    }
  }

  /** Where the worklist stands. */
  ghost predicate Working(all: map<string, UntrackedEntry>, left: map<string, UntrackedEntry>, forest: Forest,
                          repr: set<Node>, visited: set<Key>, pending: seq<Node>)
    reads repr
  {
    && Listed(forest, visited, pending) && Covered(forest, visited, pending)
    && LeftOver(all, left, visited) && VisitedAgree(all, forest, repr, visited)
  }

  lemma StartsWorking(all: map<string, UntrackedEntry>, forest: Forest, repr: set<Node>)
    requires Trie(forest, repr)
    ensures Working(all, all, forest, repr, {}, forest[[]].children)
  {
    var children := forest[[]].children;
    assert NodeDone(forest, repr, []);
    forall n | n in children ensures KeyOf(n) == [] + [n.name] && KeyOf(n) in forest && forest[KeyOf(n)] == n {
      assert [] + [n.name] in forest;
    }
    forall i, j | 0 <= i < j < |children| ensures children[i] != children[j] {
      assert NodeName(children[i]) != NodeName(children[j]);
    }
    forall c, x | c + [x] in forest && forest[c + [x]] in children ensures c == [] {
      var n := forest[c + [x]];
      assert KeyOf(n) == c + [x] == [] + [n.name];
      SameExtension(c, [], x, n.name);
    }
  }

  lemma LeftOverOneLess(all: map<string, UntrackedEntry>, left: map<string, UntrackedEntry>, forest: Forest,
                        visited: set<Key>, at: Key)
    requires Rooted(forest) && at in forest && at != []
    requires LeftOver(all, left, visited)
    ensures LeftOver(all, left - {forest[at].path}, visited + {at})
  {
    assert Components(forest[at].path) == at by { SplitJoin(at, '/'); }
    forall p ensures Components(p) == at <==> p == forest[at].path {
      JoinSplit(p, '/');
    }
  }

  /** When the worklist is empty every node has been visited. */
  lemma {:induction false} AllVisited(forest: Forest, visited: set<Key>, c: Key)
    requires Rooted(forest) && Covered(forest, visited, []) && c in forest && c != []
    ensures c in visited
    decreases |c|
  {
    var d, x := c[..|c| - 1], c[|c| - 1];
    assert c == d + [x];
    if d != [] { AllVisited(forest, visited, d); }
  }

  /** What the loop looks at is what the index said at the start: the node has not been struck out. */
  lemma PoppedUntouched(all: map<string, UntrackedEntry>, left: map<string, UntrackedEntry>, forest: Forest,
                        repr: set<Node>, visited: set<Key>, pending: seq<Node>, node: Node)
    requires Trie(forest, repr) && Working(all, left, forest, repr, visited, pending) && node in pending
    ensures KeyOf(node) in forest && forest[KeyOf(node)] == node && KeyOf(node) != []
    ensures node in repr && ChildrenAre(forest, KeyOf(node), node.children)
    ensures NodeAgrees(left, node.path, node.children != []) <==> NodeAgrees(all, node.path, node.children != [])
  {
    SplitJoin(KeyOf(node), '/');
    assert NodeDone(forest, repr, KeyOf(node));
  }

  lemma WorkOneMore(all: map<string, UntrackedEntry>, left: map<string, UntrackedEntry>, forest: Forest,
                    repr: set<Node>, visited: set<Key>, pending: seq<Node>, rest: seq<Node>, node: Node)
    requires Rooted(forest) && Working(all, left, forest, repr, visited, pending)
    requires pending == rest + [node] && node in repr && ChildrenAre(forest, KeyOf(node), node.children)
    requires KeyOf(node) in forest && forest[KeyOf(node)] == node && KeyOf(node) != []
    requires NodeAgrees(all, node.path, node.children != [])
    ensures Working(all, left - {node.path}, forest, repr, visited + {KeyOf(node)}, rest + node.children)
  {
    LeftOverOneLess(all, left, forest, visited, KeyOf(node));
    ListedOneMore(forest, visited, rest, node, node.children);
    CoveredOneMore(forest, visited, rest, node, node.children);
  }

  lemma NothingLeft(all: map<string, UntrackedEntry>, left: map<string, UntrackedEntry>, forest: Forest,
                    visited: set<Key>)
    requires visited == forest.Keys - {[]} && LeftOver(all, left, visited)
    ensures (forall p :: p in all ==> Components(p) in forest) <==> |left| == 0
  {
    if |left| != 0 {
      assert left.Keys != {};
      var p :| p in left;
      assert Components(p) != [];
    } else {
      forall p | p in all ensures Components(p) in forest { assert p !in left; }
    }
  }

  lemma WorkDone(all: map<string, UntrackedEntry>, left: map<string, UntrackedEntry>, forest: Forest, repr: set<Node>,
                 visited: set<Key>, pending: seq<Node>)
    requires Trie(forest, repr) && Working(all, left, forest, repr, visited, pending) && pending == []
    ensures ShapeAgrees(all, forest, repr) <==> |left| == 0
  {
    forall c | c in forest && c != [] ensures c in visited && forest[c] in repr {
      AllVisited(forest, visited, c);
      assert NodeDone(forest, repr, c);
    }
    assert visited == forest.Keys - {[]};
    NothingLeft(all, left, forest, visited);
  }

  /** Pop a node, strike its entry out, push its children, until nothing waits. */
  method CompareShape(byPath: map<string, UntrackedEntry>, selection: Node, ghost forest: Forest, ghost repr: set<Node>)
      returns (ok: bool)
    requires Trie(forest, repr) && forest[[]] == selection
    ensures ok <==> ShapeAgrees(byPath, forest, repr)
  {
    var left, pending := byPath, selection.children;
    ghost var visited: set<Key> := {};
    StartsWorking(byPath, forest, repr);
    while |pending| != 0
      invariant Working(byPath, left, forest, repr, visited, pending)
      decreases |left|
    {
      var node, rest := pending[|pending| - 1], pending[..|pending| - 1];
      Sequences.LastOf(pending);
      PoppedUntouched(byPath, left, forest, repr, visited, pending, node);
      if node.path !in left || (left[node.path].kind == "directory") != (|node.children| != 0) {
        return false;
      }
      WorkOneMore(byPath, left, forest, repr, visited, pending, rest, node);
      left := left - {node.path};
      visited := visited + {KeyOf(node)};
      pending := rest + node.children;
    }
    WorkDone(byPath, left, forest, repr, visited, pending);
    ok := |left| == 0;
  }

  // ---------------------------------------------------------------- in terms of the requested paths

  ghost predicate HasPath(entries: seq<UntrackedEntry>, p: string) {
    exists e <- entries :: e.path == p
  }

  /** The entries are the requested paths and their directories, and the directories are marked as such. */
  ghost predicate MatchesRequest(entries: seq<UntrackedEntry>, paths: seq<string>) {
    && (forall p :: HasPath(entries, p) <==> p in paths || IsParent(p, paths))
    && (forall e <- entries :: e.kind == "directory" <==> IsParent(e.path, paths))
  }

  /** A path of the trie, or of an entry that the shape accounts for, and what the trie says about it. */
  lemma NodeOf(paths: seq<string>, forest: Forest, repr: set<Node>, p: string)
    requires Trie(forest, repr) && Mirrors(forest, repr, paths) && Components(p) in forest
    ensures forest[Components(p)].path == p && forest[Components(p)] in repr
    ensures forest[Components(p)].children != [] <==> IsParent(p, paths)
    ensures p in paths || IsParent(p, paths)
  {
    assert NodeMirrors(forest, repr, paths, Components(p));
    JoinSplit(p, '/');
  }

  lemma ShapeIsRequest(entries: seq<UntrackedEntry>, byPath: map<string, UntrackedEntry>, paths: seq<string>,
                       forest: Forest, repr: set<Node>)
    requires IndexOf(byPath, entries) && Trie(forest, repr) && Mirrors(forest, repr, paths)
    requires ShapeAgrees(byPath, forest, repr)
    ensures MatchesRequest(entries, paths)
  {
    forall p ensures HasPath(entries, p) <==> p in paths || IsParent(p, paths) {
      if HasPath(entries, p) {
        assert p in byPath;
        NodeOf(paths, forest, repr, p);
      }
      if p in paths || IsParent(p, paths) {
        assert PathMirrored(forest, p);
        assert NodeAgrees(byPath, p, forest[Components(p)].children != []);
      }
    }
    forall e <- entries ensures e.kind == "directory" <==> IsParent(e.path, paths) {
      assert e.path in byPath;
      NodeOf(paths, forest, repr, e.path);
      assert NodeAgrees(byPath, e.path, forest[Components(e.path)].children != []);
    }
  }

  lemma RequestIsShape(entries: seq<UntrackedEntry>, byPath: map<string, UntrackedEntry>, paths: seq<string>,
                       forest: Forest, repr: set<Node>)
    requires IndexOf(byPath, entries) && Trie(forest, repr) && Mirrors(forest, repr, paths)
    requires MatchesRequest(entries, paths)
    ensures ShapeAgrees(byPath, forest, repr)
  {
    forall c | c in forest && c != []
      ensures forest[c] in repr && NodeAgrees(byPath, forest[c].path, forest[c].children != [])
    {
      assert NodeMirrors(forest, repr, paths, c);
      assert HasPath(entries, forest[c].path);
    }
    forall p | p in byPath ensures Components(p) in forest {
      assert HasPath(entries, p);
      assert PathMirrored(forest, p);
    }
  }

  /** `validateSourceUntracked`: accepts exactly valid entries within the budget that are what was requested. */
  method ValidateSourceUntracked(letters: Letters, entries: seq<UntrackedEntry>, selection: Node,
                                 budget: SourceByteBudget, ghost paths: seq<string>, ghost forest: Forest,
                                 ghost repr: set<Node>)
      returns (ok: bool)
    requires letters.Lawful()
    requires Trie(forest, repr) && Mirrors(forest, repr, paths) && forest[[]] == selection
    modifies budget
    ensures ok <==>
      && |entries| <= MAXIMUM_UNTRACKED && EachValid(letters, entries) && AllPairsFine(letters, entries)
      && TotalData(entries) <= old(budget.remaining) && TotalDraw(entries) <= old(budget.remaining)
      && MatchesRequest(entries, paths)
    ensures ok ==> budget.remaining == old(budget.remaining) - TotalDraw(entries)
  {
    ok := ValidateUntrackedEntries(letters, entries, budget.remaining);
    if !ok { return; }
    var byPath;
    ok, byPath := TakeAndIndex(letters, entries, budget);
    if !ok { return; }
    ok := CompareShape(byPath, selection, forest, repr);
    if ok {
      ShapeIsRequest(entries, byPath, paths, forest, repr);
    } else if MatchesRequest(entries, paths) {
      RequestIsShape(entries, byPath, paths, forest, repr);
    }
  }
}
