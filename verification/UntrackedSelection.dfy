/** The trie of requested untracked paths: heap nodes with a map and a list of children, built path by path,
    then sorted in place. A ghost map from component lists to nodes is what the heap structure means. */
module UntrackedSelection {
  import opened FileSystem
  import opened Paths
  import opened Administrative
  import opened UntrackedValidation
  import Sequences
  import Sorting
  import Text

  type Key = seq<string>

  class Node {
    const path: string
    const name: string
    var children: seq<Node>
    var byName: map<string, Node>

    constructor (path: string, name: string)
      ensures this.path == path && this.name == name && children == [] && byName == map[]
    {
      this.path, this.name := path, name;
      children, byName := [], map[];
    }
  }

  type Forest = map<Key, Node>

  function NodeName(n: Node): string { n.name }

  // ---------------------------------------------------------------- component lists

  function Components(path: string): Key { Split(path, '/') }

  function ComponentLists(paths: seq<string>): (lists: seq<Key>)
    ensures |lists| == |paths| && forall i :: 0 <= i < |paths| ==> lists[i] == Components(paths[i])
  {
    seq(|paths|, i requires 0 <= i < |paths| => Components(paths[i]))
  }

  ghost function Prefixes(parts: Key): set<Key> {
    set n | 0 <= n <= |parts| :: parts[..n]
  }

  /** The root and every nonempty prefix of a requested list. */
  ghost function Wanted(lists: seq<Key>): set<Key> {
    if lists == [] then {[]} else Wanted(lists[..|lists| - 1]) + Prefixes(lists[|lists| - 1])
  }

  /** No component is empty or holds a separator. */
  ghost predicate Clean(c: Key) {
    forall i :: 0 <= i < |c| ==> c[i] != "" && '/' !in c[i]
  }

  lemma {:induction false} JoinConcat(c: Key, d: Key)
    requires c != [] && d != []
    ensures Join(c + d, '/') == Join(c, '/') + "/" + Join(d, '/')
  {
    if |c| == 1 {
      assert (c + d)[1..] == d;
    } else {
      JoinConcat(c[1..], d);
      assert (c + d)[1..] == c[1..] + d;
      assert c[0] + "/" + (Join(c[1..], '/') + "/" + Join(d, '/'))
             == c[0] + "/" + Join(c[1..], '/') + "/" + Join(d, '/');
    }
  }

  lemma {:induction false} SplitConcat(p: string, rest: string)
    ensures Components(p + "/" + rest) == Components(p) + Components(rest)
    decreases |p|
  {
    var i := Find(p, '/');
    if i == |p| {
      assert p[..i] == p;
      SplitFirst(p, rest, '/');
    } else {
      var first, more := p[..i], p[i + 1..];
      assert p == first + "/" + more;
      calc {
        Components(p + "/" + rest);
        { assert p + "/" + rest == first + "/" + (more + "/" + rest); }
        Components(first + "/" + (more + "/" + rest));
        { SplitFirst(first, more + "/" + rest, '/'); }
        [first] + Components(more + "/" + rest);
        { SplitConcat(more, rest); }
        [first] + (Components(more) + Components(rest));
        ([first] + Components(more)) + Components(rest);
        { SplitFirst(first, more, '/'); }
        Components(p) + Components(rest);
      }
    }
  }

  /** Components read the directory order on paths as the prefix order on lists. */
  lemma DirectoryIsPrefix(p: string, q: string)
    ensures p + "/" <= q <==> Components(p) < Components(q)
  {
    if p + "/" <= q {
      var rest := q[|p| + 1..];
      assert q == p + "/" + rest;
      SplitConcat(p, rest);
    }
    if Components(p) < Components(q) {
      var rest := Components(q)[|Components(p)|..];
      assert Components(q) == Components(p) + rest;
      JoinConcat(Components(p), rest);
      JoinSplit(p, '/');
      JoinSplit(q, '/');
      assert q == p + "/" + Join(rest, '/');
    }
  }

  lemma JoinSnoc(c: Key, x: string)
    requires c != []
    ensures Join(c + [x], '/') == Join(c, '/') + "/" + x
  {
    JoinConcat(c, [x]);
  }

  lemma JoinNonempty(c: Key)
    requires c != [] && Clean(c)
    ensures Join(c, '/') != ""
  {
  }

  lemma JoinInjective(c: Key, d: Key)
    requires c != [] && d != [] && Clean(c) && Clean(d)
    requires Join(c, '/') == Join(d, '/')
    ensures c == d
  {
    SplitJoin(c, '/');
    SplitJoin(d, '/');
  }

  // ---------------------------------------------------------------- what the nodes mean

  ghost predicate ChildrenAre(forest: Forest, c: Key, children: seq<Node>) {
    && (forall n :: n in children ==> c + [n.name] in forest && forest[c + [n.name]] == n)
    && (forall x :: c + [x] in forest ==> forest[c + [x]] in children)
    && Sorting.DistinctKeys(children, NodeName)
  }

  ghost predicate NamesAre(forest: Forest, c: Key, byName: map<string, Node>) {
    && (forall x :: x in byName ==> c + [x] in forest && byName[x] == forest[c + [x]])
    && (forall x :: c + [x] in forest ==> x in byName)
  }

  /** A node's place in the trie, read from its path. */
  function KeyOf(n: Node): Key {
    if n.path == "" then [] else Components(n.path)
  }

  /** Keys, constants and identity of the nodes: nothing here depends on the heap. */
  ghost predicate Rooted(forest: Forest) {
    && [] in forest && forest[[]].path == ""
    && (forall c, x :: c + [x] in forest ==> c in forest && forest[c + [x]].name == x)
    && (forall c :: c in forest ==> Clean(c) && forest[c].path == Join(c, '/') && KeyOf(forest[c]) == c)
  }

  /** The heap says at a node what the forest says. */
  ghost predicate NodeGrows(forest: Forest, repr: set<Node>, c: Key)
    reads repr
  {
    c in forest && forest[c] in repr && ChildrenAre(forest, c, forest[c].children)
    && NamesAre(forest, c, forest[c].byName)
  }

  ghost predicate Growing(forest: Forest, repr: set<Node>)
    reads repr
  {
    && Rooted(forest)
    && forall c {:trigger NodeGrows(forest, repr, c)} :: c in forest ==> NodeGrows(forest, repr, c)
  }

  lemma SameExtension(c: Key, d: Key, x: string, y: string)
    requires c + [x] == d + [y]
    ensures c == d && x == y
  {
    assert (c + [x])[..|c|] == c && (d + [y])[..|d|] == d;
    assert (c + [x])[|c|] == x && (d + [y])[|d|] == y;
  }

  lemma NewNodeNamed(c: Key, x: string, parentPath: string, child: Node)
    requires Clean(c) && parentPath == Join(c, '/') && x != "" && '/' !in x
    requires child.path == (if parentPath == "" then x else parentPath + "/" + x)
    ensures Clean(c + [x]) && child.path == Join(c + [x], '/') && KeyOf(child) == c + [x]
  {
    assert Clean(c + [x]);
    if c == [] {
      assert c + [x] == [x];
    } else {
      JoinNonempty(c);
      JoinSnoc(c, x);
    }
    SplitJoin(c + [x], '/');
    JoinNonempty(c + [x]);
  }

  lemma RootedOneMore(forest: Forest, c: Key, x: string, child: Node)
    requires Rooted(forest) && c in forest && c + [x] !in forest && child.name == x
    requires Clean(c + [x]) && child.path == Join(c + [x], '/') && KeyOf(child) == c + [x]
    ensures Rooted(forest[c + [x] := child])
  {
    forall d, y | d + [y] == c + [x] ensures d == c && y == x { SameExtension(d, c, y, x); }
  }

  /** A new node changes the children of its parent and of nobody else. */
  lemma ElsewhereSame(forest: Forest, c: Key, x: string, child: Node, d: Key, children: seq<Node>,
                      byName: map<string, Node>)
    requires c + [x] !in forest && d != c
    requires ChildrenAre(forest, d, children) && NamesAre(forest, d, byName)
    ensures ChildrenAre(forest[c + [x] := child], d, children) && NamesAre(forest[c + [x] := child], d, byName)
  {
    forall y ensures d + [y] != c + [x] {
      if d + [y] == c + [x] { SameExtension(d, c, y, x); }
    }
  }

  lemma HereOneMore(forest: Forest, c: Key, x: string, child: Node, children: seq<Node>, byName: map<string, Node>)
    requires c + [x] !in forest && child.name == x
    requires ChildrenAre(forest, c, children) && NamesAre(forest, c, byName)
    ensures ChildrenAre(forest[c + [x] := child], c, children + [child])
    ensures NamesAre(forest[c + [x] := child], c, byName[x := child])
  {
    var more := forest[c + [x] := child];
    forall y | c + [y] in more ensures more[c + [y]] in children + [child] {
      if y == x { assert (children + [child])[|children|] == child; } else { SameExtension2(c, y, x); }
    }
    forall n | n in children + [child] ensures c + [n.name] in more && more[c + [n.name]] == n {
      if n in children { SameExtension2(c, n.name, x); }
    }
    forall i, j | 0 <= i < j < |children + [child]|
      ensures NodeName((children + [child])[i]) != NodeName((children + [child])[j])
    {
      assert children[i] in children;
    }
    forall y | y in byName && y != x ensures c + [y] in more && more[c + [y]] == byName[y] {
      SameExtension2(c, y, x);
    }
    forall y | c + [y] in more ensures y == x || y in byName { SameExtension2(c, y, x); }
  }

  lemma SameExtension2(c: Key, x: string, y: string)
    ensures c + [x] == c + [y] ==> x == y
  {
    if c + [x] == c + [y] { SameExtension(c, c, x, y); }
  }

  lemma FreshChildless(forest: Forest, c: Key, x: string, child: Node)
    requires Rooted(forest) && c + [x] !in forest
    ensures ChildrenAre(forest[c + [x] := child], c + [x], []) && NamesAre(forest[c + [x] := child], c + [x], map[])
  {
    forall y ensures c + [x] + [y] !in forest[c + [x] := child] {
      assert |c + [x] + [y]| > |c + [x]|;
    }
  }

  // ---------------------------------------------------------------- building

  ghost predicate Extends(before: Forest, after: Forest) {
    before.Keys <= after.Keys && forall c :: c in before ==> after[c] == before[c]
  }

  /** The source's list of nodes and its count of the ones besides the root. */
  ghost predicate Counted(forest: Forest, nodes: seq<Node>, reserved: nat) {
    && (forall n :: n in nodes ==> KeyOf(n) in forest && forest[KeyOf(n)] == n)
    && (forall c :: c in forest ==> forest[c] in nodes)
    && |forest| == reserved + 1
  }

  lemma CountedOneMore(forest: Forest, nodes: seq<Node>, reserved: nat, key: Key, made: Node)
    requires Counted(forest, nodes, reserved) && key !in forest && KeyOf(made) == key
    ensures Counted(forest[key := made], nodes + [made], reserved + 1)
  {
    assert (nodes + [made])[|nodes|] == made;
  }

  /** Entering a new node in its parent's map and list. */
  method Attach(parent: Node, component: string, made: Node, ghost forest: Forest, ghost repr: set<Node>, ghost at: Key)
    requires Growing(forest, repr) && at in forest && forest[at] == parent && at + [component] !in forest
    requires component != "" && '/' !in component
    requires made !in repr && made.children == [] && made.byName == map[] && made.name == component
    requires made.path == (if parent.path == "" then component else parent.path + "/" + component)
    modifies parent
    ensures Growing(forest[at + [component] := made], repr + {made})
  {
    ghost var key, children, byName := at + [component], parent.children, parent.byName;
    NewNodeNamed(at, component, parent.path, made);
    RootedOneMore(forest, at, component, made);
    assert NodeGrows(forest, repr, at);
    label before:
    parent.byName := parent.byName[component := made];
    parent.children := parent.children + [made];
    ghost var more := forest[key := made];
    forall d | d in more ensures NodeGrows(more, repr + {made}, d) {
      if d == key {
        FreshChildless(forest, at, component, made);
      } else if d == at {
        HereOneMore(forest, at, component, made, children, byName);
      } else {
        assert old@before(NodeGrows(forest, repr, d));
        assert forest[d] != parent && forest[d] != made;
        ElsewhereSame(forest, at, component, made, d, forest[d].children, forest[d].byName);
      }
    }
  }

  /** Where the building of the trie stands. */
  ghost predicate Building(forest: Forest, repr: set<Node>, nodes: seq<Node>, reserved: nat)
    reads repr
  {
    Growing(forest, repr) && Counted(forest, nodes, reserved) && reserved <= MAXIMUM_UNTRACKED
  }

  /** `forest'` has one more node, or the same ones. */
  ghost predicate Reaches(forest: Forest, forest': Forest, key: Key, child: Node) {
    Extends(forest, forest') && forest'.Keys == forest.Keys + {key} && forest'[key] == child
  }

  method MakeChild(parent: Node, component: string, nodes: seq<Node>, reserved: nat,
                   ghost forest: Forest, ghost repr: set<Node>, ghost at: Key)
      returns (child: Node, nodes': seq<Node>, ghost forest': Forest)
    requires Building(forest, repr, nodes, reserved) && reserved < MAXIMUM_UNTRACKED
    requires at in forest && forest[at] == parent && component != "" && '/' !in component
    requires at + [component] !in forest
    modifies parent
    ensures Building(forest', repr + {child}, nodes', reserved + 1)
    ensures Reaches(forest, forest', at + [component], child)
    ensures fresh(child)
  {
    child := new Node(if parent.path != "" then parent.path + "/" + component else component, component);
    Attach(parent, component, child, forest, repr, at);
    forest' := forest[at + [component] := child];
    assert forest'[at + [component]] == child;
    nodes' := nodes + [child];
    CountedOneMore(forest, nodes, reserved, at + [component], child);
  }

  /** The child of this name, made when there is none and the limit allows. */
  method ChildNamed(parent: Node, component: string, nodes: seq<Node>, reserved: nat,
                    ghost forest: Forest, ghost repr: set<Node>, ghost at: Key)
      returns (child: Option<Node>, nodes': seq<Node>, reserved': nat, ghost forest': Forest, ghost repr': set<Node>)
    requires Building(forest, repr, nodes, reserved)
    requires at in forest && forest[at] == parent && component != "" && '/' !in component
    modifies parent
    ensures child == None ==> at + [component] !in forest && |forest| > MAXIMUM_UNTRACKED
    ensures child.Some? ==>
      Building(forest', repr', nodes', reserved') && Reaches(forest, forest', at + [component], child.value)
    ensures repr <= repr' && forall n :: n in repr' && n !in repr ==> fresh(n)
  {
    nodes', reserved', forest', repr' := nodes, reserved, forest, repr;
    assert NodeGrows(forest, repr, at);
    if component in parent.byName {
      child := Some(parent.byName[component]);
      assert forest.Keys == forest.Keys + {at + [component]};
    } else if reserved == MAXIMUM_UNTRACKED {
      child := None;
    } else {
      var made;
      made, nodes', forest' := MakeChild(parent, component, nodes, reserved, forest, repr, at);
      child, reserved', repr' := Some(made), reserved + 1, repr + {made};
    }
  }

  lemma PrefixesGrow(parts: Key, m: nat)
    requires m < |parts|
    ensures Prefixes(parts[..m + 1]) == Prefixes(parts[..m]) + {parts[..m + 1]}
  {
    forall c ensures c in Prefixes(parts[..m + 1]) <==> c in Prefixes(parts[..m]) || c == parts[..m + 1] {
      if c in Prefixes(parts[..m + 1]) {
        var n :| 0 <= n <= m + 1 && c == parts[..m + 1][..n];
        if n <= m { assert c == parts[..m][..n]; }
      }
      if c in Prefixes(parts[..m]) {
        var n :| 0 <= n <= m && c == parts[..m][..n];
        assert c == parts[..m + 1][..n];
      }
      assert parts[..m + 1] == parts[..m + 1][..m + 1];
    }
  }

  lemma PrefixesWithin(parts: Key, m: nat)
    requires m <= |parts|
    ensures Prefixes(parts[..m]) <= Prefixes(parts)
  {
    forall c | c in Prefixes(parts[..m]) ensures c in Prefixes(parts) {
      var n :| 0 <= n <= m && c == parts[..m][..n];
      assert c == parts[..n];
    }
  }

  lemma OverTheLimit(forest: Forest, keys: set<Key>, key: Key)
    requires |forest| > MAXIMUM_UNTRACKED && key !in forest
    requires forest.Keys <= keys && key in keys
    ensures |keys| > MAXIMUM_UNTRACKED + 1
  {
    assert |forest.Keys| == |forest|;
    Sequences.SubsetSize(forest.Keys + {key}, keys);
  }

  lemma OneComponentMore(parts: Key, m: nat)
    requires m < |parts|
    ensures parts[..m] + [parts[m]] == parts[..m + 1] && parts[..m + 1] in Prefixes(parts)
    ensures Prefixes(parts[..m + 1]) == Prefixes(parts[..m]) + {parts[..m + 1]}
    ensures Prefixes(parts[..m]) <= Prefixes(parts)
  {
    assert parts[..m] + [parts[m]] == parts[..m + 1];
    PrefixesGrow(parts, m);
    PrefixesWithin(parts, m);
  }

  /** The first m components of one path are in the trie. */
  ghost predicate Climbed(forest: Forest, forest': Forest, parts: Key, m: nat, parent: Node)
    requires m <= |parts|
  {
    && Extends(forest, forest') && forest'.Keys == forest.Keys + Prefixes(parts[..m])
    && parts[..m] in forest' && parent == forest'[parts[..m]]
  }

  lemma ClimbedNone(forest: Forest, parts: Key)
    requires [] in forest
    ensures Climbed(forest, forest, parts, 0, forest[[]])
  {
    assert parts[..0] == [] && parts[..0][..0] == [];
    assert Prefixes(parts[..0]) == {[]};
  }

  lemma ClimbedOneMore(forest: Forest, before: Forest, after: Forest, parts: Key, m: nat, parent: Node, child: Node)
    requires m < |parts| && Climbed(forest, before, parts, m, parent)
    requires Reaches(before, after, parts[..m] + [parts[m]], child)
    ensures Climbed(forest, after, parts, m + 1, child)
  {
    OneComponentMore(parts, m);
  }

  lemma ClimbedAll(forest: Forest, after: Forest, parts: Key, parent: Node)
    requires Climbed(forest, after, parts, |parts|, parent)
    ensures Extends(forest, after) && after.Keys == forest.Keys + Prefixes(parts)
  {
    assert parts[..|parts|] == parts;
  }

  lemma ClimbStopped(forest: Forest, before: Forest, parts: Key, m: nat, parent: Node)
    requires m < |parts| && Climbed(forest, before, parts, m, parent)
    requires |before| > MAXIMUM_UNTRACKED && parts[..m] + [parts[m]] !in before
    ensures |forest.Keys + Prefixes(parts)| > MAXIMUM_UNTRACKED + 1
  {
    OneComponentMore(parts, m);
    OverTheLimit(before, forest.Keys + Prefixes(parts), parts[..m + 1]);
  }

  /** The inner loop: one requested path, component by component from the root. */
  method AddPath(root: Node, path: string, nodes: seq<Node>, reserved: nat, ghost forest: Forest, ghost repr: set<Node>)
      returns (ok: bool, nodes': seq<Node>, reserved': nat, ghost forest': Forest, ghost repr': set<Node>)
    requires Building(forest, repr, nodes, reserved) && [] in forest && forest[[]] == root
    requires Clean(Components(path))
    modifies repr
    ensures ok ==> Building(forest', repr', nodes', reserved') && Extends(forest, forest')
    ensures ok ==> forest'.Keys == forest.Keys + Prefixes(Components(path))
    ensures !ok ==> |forest.Keys + Prefixes(Components(path))| > MAXIMUM_UNTRACKED + 1
    ensures repr <= repr' && forall n :: n in repr' && n !in repr ==> fresh(n)
  {
    nodes', reserved', forest', repr' := nodes, reserved, forest, repr;
    var parent, parts := root, Split(path, '/');
    ClimbedNone(forest, parts);
    for m := 0 to |parts|
      invariant Building(forest', repr', nodes', reserved') && Climbed(forest, forest', parts, m, parent)
      invariant repr <= repr' && forall n :: n in repr' && n !in repr ==> fresh(n)
    {
      ghost var before := forest';
      assert NodeGrows(forest', repr', parts[..m]);
      var child;
      child, nodes', reserved', forest', repr' := ChildNamed(parent, parts[m], nodes', reserved', forest', repr',
                                                             parts[..m]);
      if child == None {
        ClimbStopped(forest, before, parts, m, parent);
        return false, nodes', reserved', forest', repr';
      }
      ClimbedOneMore(forest, before, forest', parts, m, parent, child.value);
      parent := child.value;
    }
    ClimbedAll(forest, forest', parts, parent);
    ok := true;
  }

  lemma {:induction false} WantedGrows(lists: seq<Key>, k: nat)
    requires k <= |lists|
    ensures Wanted(lists[..k]) <= Wanted(lists)
  {
    if k < |lists| {
      WantedGrows(lists[..|lists| - 1], k);
      assert lists[..|lists| - 1][..k] == lists[..k];
    } else {
      assert lists[..k] == lists;
    }
  }

  lemma WantedOneMore(lists: seq<Key>, k: nat)
    requires k < |lists|
    ensures Wanted(lists[..k + 1]) == Wanted(lists[..k]) + Prefixes(lists[k])
    ensures Wanted(lists[..k + 1]) <= Wanted(lists)
  {
    var more := lists[..k + 1];
    assert more[..|more| - 1] == lists[..k] && more[|more| - 1] == lists[k];
    WantedGrows(lists, k + 1);
  }

  /** The first k requested paths are in the trie and nothing else is. */
  ghost predicate Added(forest: Forest, lists: seq<Key>, k: nat, root: Node)
    requires k <= |lists|
  {
    forest.Keys == Wanted(lists[..k]) && [] in forest && forest[[]] == root
  }

  lemma AddedOneMore(before: Forest, after: Forest, lists: seq<Key>, k: nat, root: Node)
    requires k < |lists| && Added(before, lists, k, root)
    requires Extends(before, after) && after.Keys == before.Keys + Prefixes(lists[k])
    ensures Added(after, lists, k + 1, root)
  {
    WantedOneMore(lists, k);
  }

  lemma AddingStopped(before: Forest, lists: seq<Key>, k: nat, root: Node)
    requires k < |lists| && Added(before, lists, k, root)
    requires |before.Keys + Prefixes(lists[k])| > MAXIMUM_UNTRACKED + 1
    ensures |Wanted(lists)| > MAXIMUM_UNTRACKED + 1
  {
    WantedOneMore(lists, k);
    Sequences.SubsetSize(Wanted(lists[..k + 1]), Wanted(lists));
  }

  lemma OnlyTheRoot(root: Node, lists: seq<Key>)
    requires root.path == "" && root.children == [] && root.byName == map[]
    ensures Building(map[[] := root], {root}, [root], 0) && Added(map[[] := root], lists, 0, root)
  {
    assert [root][0] == root;
    assert lists[..0] == [];
  }

  datatype Selection = Selected(root: Node) | Invalid | TooMany | Cancelled

  /** The outer loop: all requested paths. */
  method AddPaths(root: Node, paths: seq<string>, ghost lists: seq<Key>)
      returns (outcome: Selection, nodes: seq<Node>, reserved: nat, ghost forest: Forest, ghost repr: set<Node>)
    requires root.path == "" && root.children == [] && root.byName == map[]
    requires lists == ComponentLists(paths) && forall i :: 0 <= i < |lists| ==> Clean(lists[i])
    modifies root
    ensures outcome.Selected? ==> outcome.root == root && Building(forest, repr, nodes, reserved)
    ensures outcome.Selected? ==> Added(forest, lists, |lists|, root)
    ensures outcome.TooMany? ==> |Wanted(lists)| > MAXIMUM_UNTRACKED + 1
    ensures !outcome.Invalid?
    ensures root in repr && forall n :: n in repr && n != root ==> fresh(n)
  {
    reserved, nodes, forest, repr := 0, [root], map[[] := root], {root};
    OnlyTheRoot(root, lists);
    for k := 0 to |paths|
      invariant Building(forest, repr, nodes, reserved) && Added(forest, lists, k, root)
      invariant root in repr && forall n :: n in repr && n != root ==> fresh(n)
    {
      var stopped: bool := *;
      if stopped { return Cancelled, nodes, reserved, forest, repr; }
      ghost var before := forest;
      var ok;
      ok, nodes, reserved, forest, repr := AddPath(root, paths[k], nodes, reserved, forest, repr);
      if !ok {
        AddingStopped(before, lists, k, root);
        return TooMany, nodes, reserved, forest, repr;
      }
      AddedOneMore(before, forest, lists, k, root);
    }
    outcome := Selected(root);
  }

  // ---------------------------------------------------------------- finishing

  ghost predicate StrictlySorted(children: seq<Node>) {
    forall i, j :: 0 <= i < j < |children| ==> Text.Less(children[i].name, children[j].name)
  }

  ghost predicate Finished(n: Node)
    reads n
  {
    n.byName == map[] && StrictlySorted(n.children)
  }

  ghost predicate ChildrenKnown(forest: Forest, repr: set<Node>, c: Key)
    reads repr
  {
    c in forest && forest[c] in repr && ChildrenAre(forest, c, forest[c].children)
  }

  /** Every node has its final children; those among the first k of the list are in final form. */
  ghost predicate Finishing(forest: Forest, repr: set<Node>, nodes: seq<Node>, k: nat)
    requires k <= |nodes|
    reads repr
  {
    && (forall c {:trigger ChildrenKnown(forest, repr, c)} :: c in forest ==> ChildrenKnown(forest, repr, c))
    && (forall i :: 0 <= i < k ==> nodes[i] in repr && Finished(nodes[i]))
  }

  lemma SameChildren(forest: Forest, c: Key, children: seq<Node>, sorted: seq<Node>)
    requires ChildrenAre(forest, c, children) && Sorting.DistinctKeys(sorted, NodeName)
    requires (forall n :: n in sorted ==> n in children) && (forall n :: n in children ==> n in sorted)
    ensures ChildrenAre(forest, c, sorted)
  {
  }

  lemma SortedChildren(forest: Forest, c: Key, children: seq<Node>, sorted: seq<Node>)
    requires ChildrenAre(forest, c, children) && sorted == Sorting.Sort(children, NodeName)
    ensures ChildrenAre(forest, c, sorted) && StrictlySorted(sorted)
  {
    Sorting.SortMembers(children, NodeName);
    Sorting.SortKeepsDistinct(children, NodeName);
    SameChildren(forest, c, children, sorted);
    forall i, j | 0 <= i < j < |sorted| ensures Text.Less(sorted[i].name, sorted[j].name) {
      assert Text.AtMost(NodeName(sorted[i]), NodeName(sorted[j]));
      assert NodeName(sorted[i]) != NodeName(sorted[j]);
    }
  }

  /** What the last loop does to one node. */
  method FinishNode(node: Node, ghost forest: Forest, ghost at: Key)
    requires ChildrenAre(forest, at, node.children)
    modifies node
    ensures ChildrenAre(forest, at, node.children) && Finished(node)
  {
    ghost var children := node.children;
    node.byName := map[];
    node.children := Sorting.Sort(node.children, NodeName);
    SortedChildren(forest, at, children, node.children);
  }

  /** One turn of the last loop: the map goes, the children are sorted in place. */
  method Finish(node: Node, ghost forest: Forest, ghost repr: set<Node>, ghost nodes: seq<Node>, ghost k: nat,
                ghost at: Key)
    requires Rooted(forest) && k < |nodes| && node == nodes[k] && node in repr
    requires Finishing(forest, repr, nodes, k)
    requires at in forest && forest[at] == node
    modifies node
    ensures Finishing(forest, repr, nodes, k + 1)
  {
    assert ChildrenKnown(forest, repr, at);
    FinishNode(node, forest, at);
    forall c | c in forest ensures ChildrenKnown(forest, repr, c) {
      assert old(ChildrenKnown(forest, repr, c));
    }
  }

  /** What the heap says at one node of the finished trie. */
  ghost predicate NodeDone(forest: Forest, repr: set<Node>, c: Key)
    reads repr
  {
    c in forest && forest[c] in repr && ChildrenAre(forest, c, forest[c].children) && Finished(forest[c])
  }

  /** The finished trie: who the nodes are, what they are called, and what hangs below each of them. */
  ghost predicate Trie(forest: Forest, repr: set<Node>)
    reads repr
  {
    && Rooted(forest)
    && forall c {:trigger NodeDone(forest, repr, c)} :: c in forest ==> NodeDone(forest, repr, c)
  }

  /** What is asked of requested paths: each a valid file path, and together a valid list of files. */
  function Requested(paths: seq<string>): (r: seq<UntrackedEntry>)
    ensures |r| == |paths| && forall i :: 0 <= i < |r| ==>
              r[i] == UntrackedEntry(paths[i], "file", FileMode(Regular, 0), None, "")
  {
    seq(|paths|, i requires 0 <= i < |paths| => UntrackedEntry(paths[i], "file", FileMode(Regular, 0), None, ""))
  }

  ghost predicate Requestable(letters: Letters, paths: seq<string>) {
    && |paths| <= MAXIMUM_UNTRACKED
    && EachValid(letters, Requested(paths))
    && AllPairsFine(letters, Requested(paths))
  }

  lemma RequestedComponentsClean(letters: Letters, paths: seq<string>)
    requires EachValid(letters, Requested(paths))
    ensures forall i :: 0 <= i < |paths| ==> Clean(Components(paths[i]))
  {
    forall i | 0 <= i < |paths| ensures Clean(Components(paths[i])) {
      assert ValidUntrackedEntry(letters, Requested(paths)[i]);
      forall j | 0 <= j < |Components(paths[i])| ensures Components(paths[i])[j] != "" {
        assert Components(paths[i])[j] in Split(paths[i], '/');
      }
    }
  }

  /** The last loop over all nodes. */
  method FinishAll(nodes: seq<Node>, ghost forest: Forest, ghost repr: set<Node>, ghost reserved: nat)
    requires Building(forest, repr, nodes, reserved)
    modifies repr
    ensures Trie(forest, repr)
  {
    forall c | c in forest ensures ChildrenKnown(forest, repr, c) {
      assert NodeGrows(forest, repr, c);
    }
    for k := 0 to |nodes|
      invariant Finishing(forest, repr, nodes, k)
    {
      assert nodes[k] in nodes;
      Finish(nodes[k], forest, repr, nodes, k, KeyOf(nodes[k]));
    }
    forall c | c in forest ensures NodeDone(forest, repr, c) {
      assert forest[c] in nodes && ChildrenKnown(forest, repr, c);
    }
  }

  lemma {:induction false} NoBytesRequested(paths: seq<string>, k: nat)
    requires k <= |paths|
    ensures TotalData(Requested(paths)[..k]) == 0
    ensures TotalData(Requested(paths)) == TotalData(Requested(paths)[..|paths|])
  {
    assert Requested(paths)[..|paths|] == Requested(paths);
    if k > 0 {
      NoBytesRequested(paths, k - 1);
      var some := Requested(paths)[..k];
      assert some[..|some| - 1] == Requested(paths)[..k - 1];
    }
  }

  // ---------------------------------------------------------------- what the trie says about paths

  ghost predicate IsParent(path: string, paths: seq<string>) {
    exists q <- paths :: path + "/" <= q
  }

  lemma {:induction false} WantedMeaning(lists: seq<Key>, c: Key)
    ensures c in Wanted(lists) <==> c == [] || exists i :: 0 <= i < |lists| && c <= lists[i]
  {
    if lists != [] {
      var fewer, last := lists[..|lists| - 1], lists[|lists| - 1];
      WantedMeaning(fewer, c);
      if c <= last { assert c == last[..|c|]; }
      assert c in Prefixes(last) <==> c <= last;
      assert forall i :: 0 <= i < |fewer| ==> fewer[i] == lists[i];
    }
  }

  lemma FoldBelow(letters: Letters, p: string, q: string)
    requires letters.Lawful()
    ensures p + "/" <= q ==> Fold(letters, p) + "/" <= Fold(letters, q)
  {
    if p + "/" <= q {
      MapConcat(letters.fold, p, "/");
      MapConcat(letters.fold, p + "/", q[|p| + 1..]);
      assert q == p + "/" + q[|p| + 1..];
      assert Fold(letters, "/") == "/";
    }
  }

  /** A requested path is never the directory of another one. */
  lemma NeverBoth(letters: Letters, paths: seq<string>, p: string)
    requires letters.Lawful() && Requestable(letters, paths) && p in paths
    ensures !IsParent(p, paths)
  {
    var i :| 0 <= i < |paths| && paths[i] == p;
    forall q | q in paths ensures !(p + "/" <= q) {
      var j :| 0 <= j < |paths| && paths[j] == q;
      var e, d := Requested(paths)[i], Requested(paths)[j];
      assert e in Requested(paths) && d in Requested(paths);
      assert AncestorFine(letters, e, d);
      FoldBelow(letters, p, q);
    }
  }

  /** A node is a requested path exactly when it is a leaf, and a directory of one exactly when it is interior. */
  ghost predicate NodeMirrors(forest: Forest, repr: set<Node>, paths: seq<string>, c: Key)
    reads repr
  {
    && c in forest && forest[c] in repr
    && Components(forest[c].path) == c
    && (forest[c].children == [] <==> forest[c].path in paths)
    && (forest[c].children != [] <==> IsParent(forest[c].path, paths))
  }

  ghost predicate PathMirrored(forest: Forest, p: string) {
    Components(p) in forest && forest[Components(p)].path == p
  }

  /** The node set, read as paths: the requested ones and their directories, each at one node. */
  ghost predicate Mirrors(forest: Forest, repr: set<Node>, paths: seq<string>)
    reads repr
  {
    && (forall p {:trigger PathMirrored(forest, p)} :: p in paths || IsParent(p, paths) ==> PathMirrored(forest, p))
    && (forall c {:trigger NodeMirrors(forest, repr, paths, c)} ::
          c in forest && c != [] ==> NodeMirrors(forest, repr, paths, c))
  }

  /** Some list goes on below this key. */
  ghost predicate Below(c: Key, lists: seq<Key>) {
    exists j :: 0 <= j < |lists| && c < lists[j]
  }

  lemma NextPrefix(c: Key, list: Key)
    requires c < list
    ensures c + [list[|c|]] <= list
  {
  }

  lemma ChildIsBelow(lists: seq<Key>, c: Key, x: string)
    requires c + [x] in Wanted(lists)
    ensures Below(c, lists)
  {
    WantedMeaning(lists, c + [x]);
    var j :| 0 <= j < |lists| && c + [x] <= lists[j];
    assert c < lists[j];
  }

  lemma BelowHasChild(lists: seq<Key>, c: Key) returns (x: string)
    requires Below(c, lists)
    ensures c + [x] in Wanted(lists)
  {
    var j :| 0 <= j < |lists| && c < lists[j];
    NextPrefix(c, lists[j]);
    x := lists[j][|c|];
    WantedMeaning(lists, c + [x]);
  }

  lemma ChildrenBelow(lists: seq<Key>, forest: Forest, c: Key, children: seq<Node>)
    requires ChildrenAre(forest, c, children) && forest.Keys == Wanted(lists)
    ensures children != [] <==> Below(c, lists)
  {
    if children != [] {
      assert children[0] in children;
      ChildIsBelow(lists, c, children[0].name);
    }
    if Below(c, lists) {
      var x := BelowHasChild(lists, c);
      assert c + [x] in forest;
    }
  }

  lemma BelowIsParent(paths: seq<string>, p: string)
    ensures Below(Components(p), ComponentLists(paths)) <==> IsParent(p, paths)
  {
    var lists := ComponentLists(paths);
    if IsParent(p, paths) {
      var q :| q in paths && p + "/" <= q;
      var j :| 0 <= j < |paths| && paths[j] == q;
      DirectoryIsPrefix(p, q);
      assert Components(p) < lists[j];
    }
    if Below(Components(p), lists) {
      var j :| 0 <= j < |lists| && Components(p) < lists[j];
      DirectoryIsPrefix(p, paths[j]);
      assert paths[j] in paths;
    }
  }

  lemma RequestedOrBelow(paths: seq<string>, p: string)
    requires Components(p) in Wanted(ComponentLists(paths))
    ensures p in paths || Below(Components(p), ComponentLists(paths))
  {
    var lists := ComponentLists(paths);
    WantedMeaning(lists, Components(p));
    var i :| 0 <= i < |lists| && Components(p) <= lists[i];
    if Components(p) == lists[i] {
      JoinSplit(p, '/');
      JoinSplit(paths[i], '/');
      assert paths[i] in paths;
    }
  }

  lemma NodeMeaning(letters: Letters, paths: seq<string>, forest: Forest, repr: set<Node>, c: Key)
    requires letters.Lawful() && Requestable(letters, paths)
    requires Trie(forest, repr) && forest.Keys == Wanted(ComponentLists(paths))
    requires c in forest && c != []
    ensures NodeMirrors(forest, repr, paths, c)
  {
    var p := forest[c].path;
    assert NodeDone(forest, repr, c);
    SplitJoin(c, '/');
    ChildrenBelow(ComponentLists(paths), forest, c, forest[c].children);
    BelowIsParent(paths, p);
    RequestedOrBelow(paths, p);
    if p in paths { NeverBoth(letters, paths, p); }
  }

  lemma PathMeaning(paths: seq<string>, forest: Forest, repr: set<Node>, p: string)
    requires Trie(forest, repr) && forest.Keys == Wanted(ComponentLists(paths))
    requires p in paths || IsParent(p, paths)
    ensures PathMirrored(forest, p)
  {
    var lists := ComponentLists(paths);
    WantedMeaning(lists, Components(p));
    JoinSplit(p, '/');
    if p in paths {
      var i :| 0 <= i < |paths| && paths[i] == p;
      assert Components(p) <= lists[i];
    } else {
      BelowIsParent(paths, p);
    }
  }

  /** A trie with the wanted keys mirrors the requested paths. */
  lemma TrieMirrorsPaths(letters: Letters, paths: seq<string>, forest: Forest, repr: set<Node>)
    requires letters.Lawful() && Requestable(letters, paths)
    requires Trie(forest, repr) && forest.Keys == Wanted(ComponentLists(paths))
    ensures Mirrors(forest, repr, paths)
  {
    forall p | p in paths || IsParent(p, paths) ensures PathMirrored(forest, p) {
      PathMeaning(paths, forest, repr, p);
    }
    forall c | c in forest && c != [] ensures NodeMirrors(forest, repr, paths, c) {
      NodeMeaning(letters, paths, forest, repr, c);
    }
  }

  /** `selectUntrackedReadPaths` */
  method SelectUntrackedReadPaths(letters: Letters, paths: seq<string>)
      returns (outcome: Selection, ghost forest: Forest, ghost repr: set<Node>)
    requires letters.Lawful()
    ensures outcome.Selected? ==> Requestable(letters, paths)
    ensures outcome.Selected? ==> Trie(forest, repr) && Mirrors(forest, repr, paths) && fresh(repr)
    ensures outcome.Selected? ==> forest[[]] == outcome.root && forest.Keys == Wanted(ComponentLists(paths))
    ensures outcome.Selected? ==> |forest| <= MAXIMUM_UNTRACKED + 1
    ensures outcome.Invalid? ==> !Requestable(letters, paths)
    ensures outcome.TooMany? ==> |Wanted(ComponentLists(paths))| > MAXIMUM_UNTRACKED + 1
  {
    forest, repr := map[], {};
    if |paths| > MAXIMUM_UNTRACKED { return Invalid, forest, repr; }
    var valid := ValidateUntrackedEntries(letters, Requested(paths), 0);
    NoBytesRequested(paths, |paths|);
    if !valid { return Invalid, forest, repr; }
    RequestedComponentsClean(letters, paths);
    var root := new Node("", "");
    var nodes, reserved;
    outcome, nodes, reserved, forest, repr := AddPaths(root, paths, ComponentLists(paths));
    if !outcome.Selected? { return; }
    assert ComponentLists(paths)[..|paths|] == ComponentLists(paths);
    FinishAll(nodes, forest, repr, reserved);
    TrieMirrorsPaths(letters, paths, forest, repr);
    var stopped: bool := *;
    if stopped { outcome := Cancelled; }
  }
}
