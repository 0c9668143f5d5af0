/** Building a preview plan from whatever the collectors return. */
module PlanBuild {
  import opened Domain
  import opened FileSystem
  import opened Paths
  import opened Preview
  import opened PreviewPlan
  import opened ProcessProblems
  import Correlate
  import Evaluate
  import Fingerprint
  import ProcessCollector
  import Sequences
  import Sorting

  datatype Request = Request(roots: seq<string>, settings: PolicySettings, mode: ApplyMode, selectedPaths: seq<string>,
                             skipDirty: bool, backup: bool)

  /** What the collectors return, and how the faults of a worktree's record are put into words. */
  datatype Answers = Answers(worktrees: seq<Worktree>, inventoryProblems: seq<string>,
                             wording: (Worktree, WorktreeFault) -> string, processes: ProcessCollector.Collection,
                             returned: seq<Option<ProcessProblems.Returned>>, diagnostics: seq<string>)

  /** The worktrees and processes that a plan is made from, and everything that is wrong with them. */
  datatype Collected = Collected(worktrees: seq<Worktree>, inventoryProblems: seq<string>,
                                 worktreeProblems: Worktree -> seq<string>, processes: ProcessCollector.Collection,
                                 processProblems: seq<ProcessProblem>)

  // ---------------------------------------------------------------- the request

  ghost predicate RequestValid(key: char -> char, request: Request) {
    && request.roots != [] && AllCanonical(request.roots)
    && ModeKnown(request.mode)
    && request.settings.inactivityThreshold > 0 && request.settings.planExpiry > 0
    && request.settings.snapshotMaxBytes > 0
    && Evaluate.TrustRank(request.settings.minimumTrustGrade) < |Evaluate.GRADES|
    && !request.backup && RequestFits(key, request.mode, request.selectedPaths, request.skipDirty)
  }

  /** `validateRequest` */
  method ValidateRequest(key: char -> char, request: Request) returns (ok: bool)
    requires LawfulKey(key)
    ensures ok <==> RequestValid(key, request)
  {
    if |request.roots| == 0 { return false; }
    for k := 0 to |request.roots|
      invariant forall i :: 0 <= i < k ==> CanonicalAbsolute(request.roots[i])
    {
      if !CanonicalAbsolute(request.roots[k]) { return false; }
    }
    if request.mode != Interactive && request.mode != Scheduled { return false; }
    var settings := request.settings;
    if settings.inactivityThreshold <= 0 || settings.planExpiry <= 0 || settings.snapshotMaxBytes <= 0 { return false; }
    if Evaluate.TrustRank(settings.minimumTrustGrade) >= |Evaluate.GRADES| { return false; }
    ok := ValidatePreviewRequest(key, request.mode, request.selectedPaths, request.skipDirty, request.backup);
  }

  // ---------------------------------------------------------------- faults of a worktree's record

  datatype WorktreeFault = CollectionError(text: string) | NotCanonical(what: string, path: string) | IdentityConflict
                         | CollectionIncomplete | ProofMissing(what: string) | NegativeCount

  /** Nothing is wrong with the record itself: the Git state is known, every path and proof is there, and nothing
      conflicts. */
  ghost predicate RecordKnown(key: char -> char, w: Worktree) {
    && w.collectionErrors == [] && w.gitStateKnown && !w.lastCommitAt.IsZero() && !w.metadataModifiedAt.IsZero()
    && CanonicalAbsolute(w.repositoryRoot) && CanonicalAbsolute(w.commonGitDir) && CanonicalAbsolute(w.adminDir)
    && (w.primary
        || (Key(key, w.path) != Key(key, w.repositoryRoot) && Key(key, w.adminDir) != Key(key, w.commonGitDir)))
    && w.head != "" && w.indexHash != "" && w.adminHash != ""
    && w.estimatedBytes >= 0 && w.status.staged >= 0 && w.status.unstaged >= 0 && w.status.unmerged >= 0
    && w.status.untracked >= 0
  }

  function FaultIf(found: bool, fault: WorktreeFault): (r: seq<WorktreeFault>)
    ensures r == [] <==> !found
  {
    if found then [fault] else []
  }

  function CollectionFault(diagnostic: string): seq<WorktreeFault> {
    [CollectionError(if diagnostic == "" then "Git collection failed without a diagnostic" else diagnostic)]
  }

  function PathFaults(w: Worktree): (r: seq<WorktreeFault>)
    ensures r == [] <==>
              CanonicalAbsolute(w.repositoryRoot) && CanonicalAbsolute(w.commonGitDir) && CanonicalAbsolute(w.adminDir)
  {
    FaultIf(!CanonicalAbsolute(w.repositoryRoot), NotCanonical("repository root", w.repositoryRoot))
    + FaultIf(!CanonicalAbsolute(w.commonGitDir), NotCanonical("common Git directory", w.commonGitDir))
    + FaultIf(!CanonicalAbsolute(w.adminDir), NotCanonical("administrative directory", w.adminDir))
  }

  function ProofFaults(w: Worktree): (r: seq<WorktreeFault>)
    ensures r == [] <==> w.head != "" && w.indexHash != "" && w.adminHash != ""
  {
    FaultIf(w.head == "", ProofMissing("HEAD")) + FaultIf(w.indexHash == "", ProofMissing("index hash"))
    + FaultIf(w.adminHash == "", ProofMissing("administrative hash"))
  }

  /** `buildWorktreeProblems`: silent exactly about records with nothing wrong. */
  function WorktreeFaults(key: char -> char, w: Worktree): (faults: seq<WorktreeFault>)
    ensures faults == [] <==> RecordKnown(key, w)
  {
    Sequences.FlatMap(CollectionFault, w.collectionErrors) + PathFaults(w)
    + FaultIf(!w.primary && (Key(key, w.path) == Key(key, w.repositoryRoot)
                             || (w.adminDir != "" && Key(key, w.adminDir) == Key(key, w.commonGitDir))),
                             IdentityConflict)
    + FaultIf(!w.gitStateKnown || w.lastCommitAt.IsZero() || w.metadataModifiedAt.IsZero(), CollectionIncomplete)
    + ProofFaults(w)
    + FaultIf(w.estimatedBytes < 0 || w.status.staged < 0 || w.status.unstaged < 0 || w.status.unmerged < 0
              || w.status.untracked < 0,
              NegativeCount)
  }

  function FaultTexts(key: char -> char, wording: (Worktree, WorktreeFault) -> string,
                      w: Worktree): (texts: seq<string>)
    ensures texts == [] <==> RecordKnown(key, w)
  {
    var faults := WorktreeFaults(key, w);
    seq(|faults|, i requires 0 <= i < |faults| => wording(w, faults[i]))
  }

  // ---------------------------------------------------------------- warnings

  /** `slices.Compact` */
  function Compact(xs: seq<string>): (r: seq<string>)
    ensures forall x :: x in r <==> x in xs
    ensures r == [] <==> xs == []
  {
    if |xs| <= 1 then xs
    else
      var fewer := Compact(xs[..|xs| - 1]);
      if xs[|xs| - 1] == xs[|xs| - 2] then
        assert forall x :: x in xs <==> x in xs[..|xs| - 1] || x == xs[|xs| - 1];
        assert xs[..|xs| - 1][|xs| - 2] == xs[|xs| - 1];
        fewer
      else
        assert forall x :: x in xs <==> x in xs[..|xs| - 1] || x == xs[|xs| - 1];
        fewer + [xs[|xs| - 1]]
  }

  /** `sortedBuildWarnings` */
  function SortedWarnings(warnings: seq<string>): (r: seq<string>)
    ensures forall w :: w in r <==> w in warnings
  {
    Sorting.SortMembers(warnings, Itself);
    Compact(Sorting.Sort(warnings, Itself))
  }

  /** The warnings that concern every worktree, those of single worktrees, and all that were reported. */
  datatype Warnings = Warnings(global: seq<string>, byPath: map<string, seq<string>>, all: seq<string>)

  function Of(w: Warnings, path: string): seq<string> {
    if path in w.byPath then w.byPath[path] else []
  }

  /** One more problem of the worktrees with these paths; of all worktrees, when there are none. */
  method Report(w: Warnings, text: string, paths: seq<string>, everywhere: bool) returns (r: Warnings)
    ensures r.all == w.all + [text] && r.global == (if everywhere then w.global + [text] else w.global)
    ensures forall p :: p in paths ==> text in Of(r, p)
    ensures forall p, t :: t in Of(w, p) ==> t in Of(r, p)
    ensures forall p :: p !in paths ==> Of(r, p) == Of(w, p)
  {
    r := Warnings(if everywhere then w.global + [text] else w.global, w.byPath, w.all + [text]);
    for k := 0 to |paths|
      invariant r.all == w.all + [text] && r.global == (if everywhere then w.global + [text] else w.global)
      invariant forall i :: 0 <= i < k ==> text in Of(r, paths[i])
      invariant forall p, t :: t in Of(w, p) ==> t in Of(r, p)
      invariant forall p :: p !in paths ==> Of(r, p) == Of(w, p)
    {
      assert paths[k] in paths;
      ghost var before := r;
      r := r.(byPath := r.byPath[paths[k] := Of(r, paths[k]) + [text]]);
      assert Of(r, paths[k])[|Of(before, paths[k])|] == text;
      forall p, t | t in Of(before, p) ensures t in Of(r, p) {
        if p == paths[k] { Sequences.InLonger(Of(before, p), Of(r, p), t); }
      }
    }
  }

  /** Warnings are only ever added. */
  ghost predicate More(w: Warnings, r: Warnings) {
    && w.global <= r.global
    && forall p, t :: t in Of(w, p) ==> t in Of(r, p)
  }

  lemma MoreStays(w: Warnings, r: Warnings, p: string)
    requires More(w, r)
    ensures Of(w, p) != [] ==> Of(r, p) != []
  {
    if Of(w, p) != [] { assert Of(w, p)[0] in Of(w, p); }
  }

  /** All problems of one kind. */
  method ReportAll(w: Warnings, texts: seq<string>, paths: seq<string>, everywhere: bool) returns (r: Warnings)
    ensures More(w, r) && r.all == w.all + texts
    ensures texts != [] && everywhere ==> r.global != []
    ensures texts != [] ==> forall p :: p in paths ==> Of(r, p) != []
    ensures texts == [] ==> r == w
    ensures !everywhere ==> r.global == w.global
    ensures forall p :: p !in paths ==> Of(r, p) == Of(w, p)
  {
    r := w;
    for k := 0 to |texts|
      invariant More(w, r) && r.all == w.all + texts[..k]
      invariant k > 0 && everywhere ==> r.global != []
      invariant k > 0 ==> forall p :: p in paths ==> Of(r, p) != []
      invariant k == 0 ==> r == w
      invariant !everywhere ==> r.global == w.global
      invariant forall p :: p !in paths ==> Of(r, p) == Of(w, p)
    {
      Sequences.TakeNext(texts, k);
      Sequences.Associate(w.all, texts[..k], [texts[k]]);
      r := Report(r, texts[k], paths, everywhere);
    }
    Sequences.TakeAll(texts);
  }

  /** The problems of the worktrees themselves are among the warnings of their paths. */
  ghost predicate WorktreesWarned(collected: Collected, w: Warnings, k: nat) {
    forall i :: 0 <= i < k && i < |collected.worktrees| && collected.worktreeProblems(collected.worktrees[i]) != [] ==>
      Of(w, collected.worktrees[i].path) != []
  }

  /** A problem with the processes warns the worktrees it concerns, or all. */
  ghost predicate ProblemWarned(problem: ProcessProblem, w: Warnings) {
    if problem.paths == [] then w.global != [] else forall p :: p in problem.paths ==> Of(w, p) != []
  }

  ghost predicate ProcessesWarned(collected: Collected, w: Warnings, k: nat) {
    forall i :: 0 <= i < k && i < |collected.processProblems| ==> ProblemWarned(collected.processProblems[i], w)
  }

  /** Something went wrong that concerns every worktree. */
  ghost predicate GlobalTrouble(collected: Collected, deadline: Option<string>) {
    collected.inventoryProblems != [] || deadline.Some?
    || exists problem <- collected.processProblems :: problem.paths == []
  }

  ghost predicate WorktreeTrouble(collected: Collected, path: string) {
    exists worktree <- collected.worktrees :: worktree.path == path && collected.worktreeProblems(worktree) != []
  }

  ghost predicate ProcessTrouble(collected: Collected, path: string) {
    exists problem <- collected.processProblems :: path in problem.paths
  }

  /** Something went wrong that concerns the worktree with this path. */
  ghost predicate Troubled(collected: Collected, deadline: Option<string>, path: string) {
    GlobalTrouble(collected, deadline) || WorktreeTrouble(collected, path) || ProcessTrouble(collected, path)
  }

  /** Nobody is warned without a reason. */
  ghost predicate OnlyTroubled(collected: Collected, deadline: Option<string>, w: Warnings) {
    && (w.global != [] ==> GlobalTrouble(collected, deadline))
    && forall p :: Of(w, p) != [] ==> WorktreeTrouble(collected, p) || ProcessTrouble(collected, p)
  }

  function TextsOf(problem: ProcessProblem): seq<string> { [problem.text] }

  function DeadlineText(deadline: Option<string>): seq<string> {
    if deadline.Some? then [deadline.value] else []
  }

  /** Everything that went wrong, in the order in which it is found. */
  function AllProblems(collected: Collected, deadline: Option<string>): seq<string> {
    collected.inventoryProblems + Sequences.FlatMap(collected.worktreeProblems, collected.worktrees)
    + DeadlineText(deadline) + Sequences.FlatMap(TextsOf, collected.processProblems)
  }

  /** Every problem has become a warning where it belongs, and nothing else was reported. */
  ghost predicate Warned(collected: Collected, deadline: Option<string>, w: Warnings) {
    && (collected.inventoryProblems != [] || deadline.Some? ==> w.global != [])
    && WorktreesWarned(collected, w, |collected.worktrees|)
    && ProcessesWarned(collected, w, |collected.processProblems|)
    && w.all == AllProblems(collected, deadline)
    && OnlyTroubled(collected, deadline, w)
  }

  lemma FlatMapNext<A, B>(f: A -> seq<B>, xs: seq<A>, k: nat, before: seq<B>)
    requires k < |xs|
    ensures before + Sequences.FlatMap(f, xs[..k + 1]) == before + Sequences.FlatMap(f, xs[..k]) + f(xs[k])
  {
    Sequences.TakeNext(xs, k);
    Sequences.Snoc(xs[..k], xs[k]);
    Sequences.Associate(before, Sequences.FlatMap(f, xs[..k]), f(xs[k]));
  }

  lemma WorktreesStayWarned(collected: Collected, w: Warnings, r: Warnings, k: nat)
    requires More(w, r) && WorktreesWarned(collected, w, k)
    ensures WorktreesWarned(collected, r, k)
  {
    forall i | 0 <= i < k && i < |collected.worktrees|
      ensures Of(w, collected.worktrees[i].path) != [] ==> Of(r, collected.worktrees[i].path) != []
    {
      MoreStays(w, r, collected.worktrees[i].path);
    }
  }

  method WarnWorktrees(collected: Collected, w: Warnings) returns (r: Warnings)
    ensures More(w, r) && WorktreesWarned(collected, r, |collected.worktrees|)
    ensures r.all == w.all + Sequences.FlatMap(collected.worktreeProblems, collected.worktrees)
    ensures r.global == w.global && forall p :: Of(r, p) != [] ==> Of(w, p) != [] || WorktreeTrouble(collected, p)
  {
    r := w;
    for k := 0 to |collected.worktrees|
      invariant More(w, r) && WorktreesWarned(collected, r, k)
      invariant r.all == w.all + Sequences.FlatMap(collected.worktreeProblems, collected.worktrees[..k])
      invariant r.global == w.global && forall p :: Of(r, p) != [] ==> Of(w, p) != [] || WorktreeTrouble(collected, p)
    {
      FlatMapNext(collected.worktreeProblems, collected.worktrees, k, w.all);
      ghost var before := r;
      var worktree := collected.worktrees[k];
      r := ReportAll(r, collected.worktreeProblems(worktree), [worktree.path], false);
      assert worktree.path in [worktree.path] && worktree in collected.worktrees;
      WorktreesStayWarned(collected, before, r, k);
    }
    Sequences.TakeAll(collected.worktrees);
  }

  method WarnProcesses(collected: Collected, w: Warnings) returns (r: Warnings)
    ensures More(w, r) && ProcessesWarned(collected, r, |collected.processProblems|)
    ensures r.all == w.all + Sequences.FlatMap(TextsOf, collected.processProblems)
    ensures r.global != [] ==> w.global != [] || exists problem <- collected.processProblems :: problem.paths == []
    ensures forall p :: Of(r, p) != [] ==> Of(w, p) != [] || ProcessTrouble(collected, p)
  {
    r := w;
    for k := 0 to |collected.processProblems|
      invariant More(w, r) && ProcessesWarned(collected, r, k)
      invariant r.all == w.all + Sequences.FlatMap(TextsOf, collected.processProblems[..k])
      invariant r.global != [] ==> w.global != [] || exists problem <- collected.processProblems :: problem.paths == []
      invariant forall p :: Of(r, p) != [] ==> Of(w, p) != [] || ProcessTrouble(collected, p)
    {
      FlatMapNext(TextsOf, collected.processProblems, k, w.all);
      ghost var before := r;
      var problem := collected.processProblems[k];
      assert problem in collected.processProblems;
      r := Report(r, problem.text, problem.paths, |problem.paths| == 0);
      forall p ensures Of(before, p) != [] ==> Of(r, p) != [] { MoreStays(before, r, p); }
    }
    Sequences.TakeAll(collected.processProblems);
  }

  /** Everything that was reported while the plan was collected. */
  method GatherWarnings(collected: Collected, deadline: Option<string>) returns (w: Warnings)
    ensures Warned(collected, deadline, w)
  {
    w := ReportAll(Warnings([], map[], []), collected.inventoryProblems, [], true);
    ghost var inventory := w;
    w := WarnWorktrees(collected, w);
    ghost var worktrees := w;
    if deadline.Some? { w := Report(w, deadline.value, [], true); }
    w := WarnProcesses(collected, w);
    forall i | 0 <= i < |collected.worktrees|
      ensures Of(worktrees, collected.worktrees[i].path) != [] ==> Of(w, collected.worktrees[i].path) != []
    {
      MoreStays(worktrees, w, collected.worktrees[i].path);
    }
  }

  // ---------------------------------------------------------------- what sorting the worktrees keeps

  predicate SamePathKey(key: char -> char, a: Worktree, b: Worktree) { Key(key, a.path) == Key(key, b.path) }

  predicate SameAdminKey(key: char -> char, a: Worktree, b: Worktree) {
    CanonicalAbsolute(a.adminDir) && CanonicalAbsolute(b.adminDir) && Key(key, a.adminDir) == Key(key, b.adminDir)
  }

  /** Identity of worktrees does not depend on their order. */
  lemma IdentifiedPermute(key: char -> char, ws: seq<Worktree>, vs: seq<Worktree>)
    requires Identified(key, ws) && multiset(ws) == multiset(vs)
    ensures Identified(key, vs)
  {
    var samePath, sameAdmin := (a, b) => SamePathKey(key, a, b), (a, b) => SameAdminKey(key, a, b);
    forall i, j | 0 <= i < j < |ws| ensures !samePath(ws[i], ws[j]) && !sameAdmin(ws[i], ws[j]) {
      assert PathsOf(ws)[i] == ws[i].path && PathsOf(ws)[j] == ws[j].path;
    }
    Sequences.PairwisePermute(samePath, ws, vs);
    Sequences.PairwisePermute(sameAdmin, ws, vs);
    Sequences.PermuteMembers(ws, vs);
    forall i | 0 <= i < |vs| ensures CanonicalAbsolute(PathsOf(vs)[i]) {
      assert vs[i] in vs;
      var j :| 0 <= j < |ws| && ws[j] == vs[i];
      assert CanonicalAbsolute(PathsOf(ws)[j]);
    }
    forall i, j | 0 <= i < j < |vs| ensures Key(key, PathsOf(vs)[i]) != Key(key, PathsOf(vs)[j]) {
      assert !samePath(vs[i], vs[j]);
    }
    forall i, j | 0 <= i < j < |vs| ensures !SameAdminKey(key, vs[i], vs[j]) {
      assert !sameAdmin(vs[i], vs[j]);
    }
  }

  lemma {:induction false} RegisteredIsListed(key: char -> char, ws: seq<Worktree>, k: string)
    ensures var w := Registered(key, ws, k);
            && (w.Some? ==> w.value in ws && Key(key, w.value.path) == k)
            && (w.None? ==> forall v <- ws :: Key(key, v.path) != k)
  {
    if ws != [] {
      RegisteredIsListed(key, ws[..|ws| - 1], k);
      Sequences.LastOf(ws);
      assert forall v :: v in ws <==> v in ws[..|ws| - 1] || v == ws[|ws| - 1];
    }
  }

  lemma OnlyOne(key: char -> char, ws: seq<Worktree>, a: Worktree, b: Worktree)
    requires Identified(key, ws) && a in ws && b in ws && Key(key, a.path) == Key(key, b.path)
    ensures a == b
  {
    var i :| 0 <= i < |ws| && ws[i] == a;
    var j :| 0 <= j < |ws| && ws[j] == b;
    assert PathsOf(ws)[i] == a.path && PathsOf(ws)[j] == b.path;
  }

  /** With distinct paths, being registered is being listed. */
  lemma RegisteredMeans(key: char -> char, ws: seq<Worktree>, w: Worktree)
    requires Identified(key, ws) && w in ws
    ensures Registered(key, ws, Key(key, w.path)) == Some(w)
  {
    RegisteredIsListed(key, ws, Key(key, w.path));
    OnlyOne(key, ws, w, Registered(key, ws, Key(key, w.path)).value);
  }

  // ---------------------------------------------------------------- what the selection keeps

  /** A selected path and its registered form have the same key. */
  lemma RegisteredKey(key: char -> char, ws: seq<Worktree>, path: string)
    requires Identified(key, ws) && Selected(key, ws, path)
    ensures Key(key, RegisteredPath(key, ws, path)) == Key(key, path)
    ensures exists w <- ws :: w.path == RegisteredPath(key, ws, path) && !w.primary
    ensures CanonicalAbsolute(RegisteredPath(key, ws, path))
  {
    RegisteredIsListed(key, ws, Key(key, path));
    var w := Registered(key, ws, Key(key, path)).value;
    var i :| 0 <= i < |ws| && ws[i] == w;
    assert PathsOf(ws)[i] == w.path;
  }

  predicate Clash(key: char -> char, a: string, b: string) {
    Key(key, a) == Key(key, b) || ProperAncestor(Key(key, a), Key(key, b)) || ProperAncestor(Key(key, b), Key(key, a))
  }

  lemma SelectableIsPairwise(key: char -> char, paths: seq<string>)
    ensures Selectable(key, paths) <==> AllCanonical(paths) && Sequences.PairwiseFree((a, b) => Clash(key, a, b), paths)
  {
    var clash := (a, b) => Clash(key, a, b);
    if Selectable(key, paths) {
      forall i, j | 0 <= i < j < |paths| ensures !clash(paths[i], paths[j]) { }
    }
    if Sequences.PairwiseFree(clash, paths) {
      forall i, j | 0 <= i < |paths| && 0 <= j < |paths|
        ensures !ProperAncestor(Key(key, paths[i]), Key(key, paths[j]))
      {
        if i < j { assert !clash(paths[i], paths[j]); }
        if j < i { assert !clash(paths[j], paths[i]); }
      }
      forall i, j | 0 <= i < j < |paths| ensures Key(key, paths[i]) != Key(key, paths[j]) {
        assert !clash(paths[i], paths[j]);
      }
    }
  }

  /** The registered forms of selectable paths are selectable, in any order. */
  lemma RegisteredSelectable(key: char -> char, ws: seq<Worktree>, paths: seq<string>, matched: seq<string>)
    requires Identified(key, ws) && Selectable(key, paths) && forall i :: 0 <= i < |paths| ==>
               Selected(key, ws, paths[i])
    requires multiset(matched) == multiset(RegisteredPaths(key, ws, paths))
    ensures Selectable(key, matched)
  {
    var registered, clash := RegisteredPaths(key, ws, paths), (a, b) => Clash(key, a, b);
    SelectableIsPairwise(key, paths);
    forall i | 0 <= i < |registered|
      ensures CanonicalAbsolute(registered[i]) && Key(key, registered[i]) == Key(key, paths[i])
    {
      RegisteredKey(key, ws, paths[i]);
    }
    forall i, j | 0 <= i < j < |registered| ensures !clash(registered[i], registered[j]) {
      assert !clash(paths[i], paths[j]);
    }
    Sequences.PairwisePermute(clash, registered, matched);
    Sequences.PermuteMembers(registered, matched);
    forall i | 0 <= i < |matched| ensures CanonicalAbsolute(matched[i]) {
      assert matched[i] in matched;
      var j :| 0 <= j < |registered| && registered[j] == matched[i];
    }
    SelectableIsPairwise(key, matched);
  }

  /** Every recorded path is the path of one of the worktrees, and not of a primary one. */
  lemma RecordedIsListed(key: char -> char, ws: seq<Worktree>, paths: seq<string>, matched: seq<string>, p: string)
      returns (w: Worktree)
    requires Identified(key, ws) && forall i :: 0 <= i < |paths| ==> Selected(key, ws, paths[i])
    requires multiset(matched) == multiset(RegisteredPaths(key, ws, paths)) && p in matched
    ensures w in ws && w.path == p && !w.primary
  {
    Sequences.PermuteMembers(RegisteredPaths(key, ws, paths), matched);
    var i :| 0 <= i < |paths| && RegisteredPaths(key, ws, paths)[i] == p;
    RegisteredKey(key, ws, paths[i]);
    w :| w in ws && w.path == RegisteredPath(key, ws, paths[i]) && !w.primary;
  }

  lemma SelectionSurvives(key: char -> char, ws: seq<Worktree>, vs: seq<Worktree>, paths: seq<string>,
                          matched: seq<string>)
    requires Identified(key, ws) && Identified(key, vs) && multiset(ws) == multiset(vs)
    requires forall i :: 0 <= i < |paths| ==> Selected(key, ws, paths[i])
    requires matched == Sorting.Sort(RegisteredPaths(key, ws, paths), Itself)
    ensures SelectionRecorded(key, vs, matched)
  {
    Sequences.PermuteMembers(ws, vs);
    forall i | 0 <= i < |matched|
      ensures Selected(key, vs, matched[i]) && RegisteredPath(key, vs, matched[i]) == matched[i]
    {
      assert matched[i] in matched;
      var w := RecordedIsListed(key, ws, paths, matched, matched[i]);
      RegisteredMeans(key, vs, w);
    }
    assert RegisteredPaths(key, vs, matched) == matched;
    assert Sorting.Injective(Itself);
    Sorting.SortedIsUnique(Sorting.Sort(matched, Itself), matched, Itself);
  }

  // ---------------------------------------------------------------- the candidates

  function PathOfWorktree(w: Worktree): string { w.path }

  method MakeCandidate(tools: Tools, worktree: Worktree, evidence: EvidenceSet, policy: Policy, selected: seq<string>,
                       skipDirty: bool)
      returns (c: Option<Candidate>)
    ensures c.None? ==> evidence.agents != []
    ensures c.Some? ==>
      && CandidateFits(tools, selected, skipDirty, c.value) && c.value.worktree == worktree
      && c.value.evidence == evidence
      && c.value.decision == Evaluate.Decide(worktree, evidence, policy)
  {
    var decision := Evaluate.Evaluate(worktree, evidence, policy);
    var candidate := Candidate(tools.CandidateId(worktree), worktree, evidence, decision, "none", "", NO_SNAPSHOT,
                               Some(PreviewSelection(worktree, worktree.path in selected, skipDirty)));
    var fingerprint := Fingerprint.CandidateFingerprint(tools.encoders, candidate);
    if fingerprint.None? { return None; }
    FingerprintIgnoresItself(tools.encoders, candidate, fingerprint.value);
    c := Some(candidate.(fingerprint := fingerprint.value));
  }

  /** A candidate's own fingerprint is not among its preconditions. */
  lemma FingerprintIgnoresItself(encoders: Fingerprint.Encoders, c: Candidate, fingerprint: string)
    ensures Fingerprint.FingerprintOf(encoders, c.(fingerprint := fingerprint))
            == Fingerprint.FingerprintOf(encoders, c)
  {
    assert Fingerprint.FixedOf(c.(fingerprint := fingerprint)) == Fingerprint.FixedOf(c);
    assert Fingerprint.Unsorted(encoders, c.(fingerprint := fingerprint)) == Fingerprint.Unsorted(encoders, c);
  }

  /** Everything the candidates are made from, besides the worktrees. */
  datatype Setting = Setting(tools: Tools, selected: seq<string>, skipDirty: bool, policy: Policy,
                             processes: ProcessCollector.Collection, global: seq<ProcessEvidence>, warnings: Warnings)

  /** A candidate that fits its own contents and was decided from its evidence; the evidence is what was grouped for the
      worktree, with the warnings that concern it. */
  ghost predicate Made(s: Setting, worktree: Worktree, c: Candidate) {
    && CandidateFits(s.tools, s.selected, s.skipDirty, c) && c.worktree == worktree
    && c.evidence == Correlate.EvidenceOf(worktree, s.processes, s.global, []).(
                       warnings := SortedWarnings(s.warnings.global + Of(s.warnings, worktree.path)))
    && c.decision == Evaluate.Decide(worktree, c.evidence, s.policy)
  }

  ghost function MadeFrom(s: Setting): (Worktree, Candidate) -> bool {
    (worktree, c) => Made(s, worktree, c)
  }

  ghost predicate GroupedFor(s: Setting, grouped: map<string, EvidenceSet>, worktree: Worktree) {
    worktree.path in grouped && grouped[worktree.path] == Correlate.EvidenceOf(worktree, s.processes, s.global, [])
  }

  /** Where a cancelled context, or a tool that encodes, hashes or draws random numbers, may stop the building. */
  datatype Step = AtStart | BeforeInventory | AfterInventory | AfterProcesses | AtCandidate(index: nat) | AtEnd

  /** None of the first `count` candidates is where it stops. */
  ghost predicate NoneStops(stops: Step -> bool, count: nat) {
    forall k: nat :: k < count ==> !stops(AtCandidate(k))
  }

  lemma OneMorePassed(stops: Step -> bool, k: nat)
    requires NoneStops(stops, k) && !stops(AtCandidate(k))
    ensures NoneStops(stops, k + 1)
  {
  }

  ghost predicate RunsThrough(stops: Step -> bool, count: nat) {
    && !stops(AtStart) && !stops(BeforeInventory) && !stops(AfterInventory) && !stops(AfterProcesses)
    && NoneStops(stops, count) && !stops(AtEnd)
  }

  /** The candidate for one worktree. Its evidence holds no agents, so its fingerprint can be computed. */
  method MakeOne(ghost s: Setting, tools: Tools, worktree: Worktree, grouped: map<string, EvidenceSet>, policy: Policy,
                 selected: seq<string>, skipDirty: bool, warnings: Warnings)
      returns (candidate: Candidate)
    requires s == Setting(tools, selected, skipDirty, policy, s.processes, s.global, warnings)
    requires GroupedFor(s, grouped, worktree)
    ensures MadeFrom(s)(worktree, candidate)
  {
    var evidence := grouped[worktree.path].(warnings := SortedWarnings(warnings.global + Of(warnings, worktree.path)));
    var made := MakeCandidate(tools, worktree, evidence, policy, selected, skipDirty);
    candidate := made.value;
  }

  /** The loop over the sorted worktrees. */
  method MakeCandidates(ghost s: Setting, tools: Tools, worktrees: seq<Worktree>, grouped: map<string, EvidenceSet>,
                        policy: Policy, selected: seq<string>, skipDirty: bool, warnings: Warnings,
                        stops: Step -> bool)
      returns (ok: bool, candidates: seq<Candidate>, summary: PlanSummary)
    requires s == Setting(tools, selected, skipDirty, policy, s.processes, s.global, warnings)
    requires forall w :: w in worktrees ==> GroupedFor(s, grouped, w)
    ensures ok <==> NoneStops(stops, |worktrees|)
    ensures ok ==> Sequences.Matches(MadeFrom(s), worktrees, candidates) && summary == SummaryOf(candidates)
  {
    ok, candidates, summary := true, [], PlanSummary(0, 0, 0, 0);
    for k := 0 to |worktrees|
      invariant Sequences.Matches(MadeFrom(s), worktrees[..k], candidates) && summary == SummaryOf(candidates) && ok
      invariant NoneStops(stops, k)
    {
      if stops(AtCandidate(k)) { return false, candidates, summary; }
      OneMorePassed(stops, k);
      assert worktrees[k] in worktrees;
      var candidate := MakeOne(s, tools, worktrees[k], grouped, policy, selected, skipDirty, warnings);
      Sequences.MatchesOneMore(MadeFrom(s), worktrees, candidates, k, candidate);
      Sequences.Snoc(candidates, candidate);
      summary := Tallied(summary, candidate.decision.classification);
      candidates := candidates + [candidate];
    }
    Sequences.TakeAll(worktrees);
  }

  lemma MadeFit(s: Setting, worktrees: seq<Worktree>, candidates: seq<Candidate>)
    requires Sequences.Matches(MadeFrom(s), worktrees, candidates)
    ensures CandidatesFit(s.tools, s.selected, s.skipDirty, candidates) && WorktreesOf(candidates) == worktrees
  {
    forall c | c in candidates ensures CandidateFits(s.tools, s.selected, s.skipDirty, c) {
      var i :| 0 <= i < |candidates| && candidates[i] == c;
      assert MadeFrom(s)(worktrees[i], candidates[i]);
    }
    forall i | 0 <= i < |worktrees| ensures WorktreesOf(candidates)[i] == worktrees[i] {
      assert MadeFrom(s)(worktrees[i], candidates[i]);
    }
  }

  // ---------------------------------------------------------------- what a built plan is

  /** A candidate with this worktree's key that can be and is selected. */
  ghost predicate SelectedCandidate(key: char -> char, c: Candidate, path: string) {
    Key(key, c.worktree.path) == Key(key, path) && !c.worktree.primary && c.selection.Some?
    && c.selection.value.selected
  }

  ghost predicate OnlyCandidate(key: char -> char, candidates: seq<Candidate>, path: string) {
    forall i, j :: (&& 0 <= i < |candidates| && 0 <= j < |candidates|
                    && Key(key, candidates[i].worktree.path) == Key(key, path)
                    && Key(key, candidates[j].worktree.path) == Key(key, path)) ==> i == j
  }

  /** Every requested path is exactly one candidate, which is not a primary worktree and is marked as selected. */
  ghost predicate SelectionsMatched(key: char -> char, paths: seq<string>, candidates: seq<Candidate>) {
    forall p <- paths :: (exists c <- candidates :: SelectedCandidate(key, c, p)) && OnlyCandidate(key, candidates, p)
  }

  /** A selected path is recorded under the name of the worktree that has it. */
  lemma SelectedIsRecorded(key: char -> char, ws: seq<Worktree>, paths: seq<string>, matched: seq<string>, n: nat)
      returns (w: Worktree)
    requires Identified(key, ws) && n < |paths| && Selected(key, ws, paths[n])
    requires multiset(matched) == multiset(RegisteredPaths(key, ws, paths))
    ensures w in ws && !w.primary && w.path in matched && Key(key, w.path) == Key(key, paths[n])
  {
    RegisteredKey(key, ws, paths[n]);
    w :| w in ws && w.path == RegisteredPath(key, ws, paths[n]) && !w.primary;
    var registered := RegisteredPaths(key, ws, paths);
    Sequences.PermuteMembers(registered, matched);
    assert registered[n] in registered;
  }

  lemma MadeIsSelected(key: char -> char, s: Setting, w: Worktree, c: Candidate, path: string)
    requires Made(s, w, c) && !w.primary && w.path in s.selected && Key(key, w.path) == Key(key, path)
    ensures SelectedCandidate(key, c, path)
  {
  }

  lemma SelectionIsMatched(key: char -> char, ws: seq<Worktree>, vs: seq<Worktree>, paths: seq<string>,
                           matched: seq<string>, s: Setting, candidates: seq<Candidate>, n: nat)
    requires Identified(key, ws) && multiset(ws) == multiset(vs) && n < |paths| && Selected(key, ws, paths[n])
    requires multiset(matched) == multiset(RegisteredPaths(key, ws, paths))
    requires Sequences.Matches(MadeFrom(s), vs, candidates) && s.selected == matched
    ensures exists c <- candidates :: SelectedCandidate(key, c, paths[n])
  {
    var w := SelectedIsRecorded(key, ws, paths, matched, n);
    Sequences.PermuteMembers(ws, vs);
    var i :| 0 <= i < |vs| && vs[i] == w;
    assert MadeFrom(s)(vs[i], candidates[i]);
    MadeIsSelected(key, s, w, candidates[i], paths[n]);
    assert candidates[i] in candidates;
  }

  lemma CandidateIsOnly(key: char -> char, candidates: seq<Candidate>, path: string)
    requires Identified(key, WorktreesOf(candidates))
    ensures OnlyCandidate(key, candidates, path)
  {
    var paths := PathsOf(WorktreesOf(candidates));
    forall i, j | 0 <= i < |candidates| && 0 <= j < |candidates|
                  && Key(key, candidates[i].worktree.path) == Key(key, path)
                  && Key(key, candidates[j].worktree.path) == Key(key, path)
      ensures i == j
    {
      assert paths[i] == candidates[i].worktree.path && paths[j] == candidates[j].worktree.path;
    }
  }

  lemma SelectionsAreMatched(key: char -> char, ws: seq<Worktree>, vs: seq<Worktree>, paths: seq<string>,
                             matched: seq<string>, s: Setting, candidates: seq<Candidate>)
    requires Identified(key, ws) && Identified(key, vs) && multiset(ws) == multiset(vs)
    requires forall i :: 0 <= i < |paths| ==> Selected(key, ws, paths[i])
    requires multiset(matched) == multiset(RegisteredPaths(key, ws, paths))
    requires Sequences.Matches(MadeFrom(s), vs, candidates) && s.selected == matched && WorktreesOf(candidates) == vs
    ensures SelectionsMatched(key, paths, candidates)
  {
    forall p | p in paths
      ensures (exists c <- candidates :: SelectedCandidate(key, c, p)) && OnlyCandidate(key, candidates, p)
    {
      var n :| 0 <= n < |paths| && paths[n] == p;
      SelectionIsMatched(key, ws, vs, paths, matched, s, candidates, n);
      CandidateIsOnly(key, candidates, p);
    }
  }

  lemma TroubledIsWarned(collected: Collected, deadline: Option<string>, w: Warnings, path: string)
    requires Warned(collected, deadline, w) && Troubled(collected, deadline, path)
    ensures w.global != [] || Of(w, path) != []
  {
    if exists problem <- collected.processProblems :: problem.paths == [] || path in problem.paths {
      var problem :| problem in collected.processProblems && (problem.paths == [] || path in problem.paths);
      var n :| 0 <= n < |collected.processProblems| && collected.processProblems[n] == problem;
      assert ProblemWarned(problem, w);
    }
    if exists worktree <- collected.worktrees :: worktree.path == path && collected.worktreeProblems(worktree) != [] {
      var worktree :| worktree in collected.worktrees && worktree.path == path
          && collected.worktreeProblems(worktree) != [];
      var n :| 0 <= n < |collected.worktrees| && collected.worktrees[n] == worktree;
      assert Of(w, collected.worktrees[n].path) != [];
    }
  }

  /** A candidate was decided from the collected evidence: it carries a warning exactly when something went wrong that
      concerns it, and is then protected. */
  ghost predicate FromEvidence(collected: Collected, deadline: Option<string>, policy: Policy, c: Candidate) {
    && (c.evidence.warnings != [] <==> Troubled(collected, deadline, c.worktree.path))
    && (Troubled(collected, deadline, c.worktree.path) ==> c.decision.classification == Protected)
    && c.decision == Evaluate.Decide(c.worktree, c.evidence, policy)
    && HasOwnEvidence(collected.processes, c)
  }

  /** Its evidence is what was grouped for its worktree. */
  ghost predicate HasOwnEvidence(processes: ProcessCollector.Collection, c: Candidate) {
    exists global: seq<ProcessEvidence> :: Correlate.IsGlobal(processes, global)
      && c.evidence == Correlate.EvidenceOf(c.worktree, processes, global, []).(warnings := c.evidence.warnings)
  }

  ghost predicate AllFromEvidence(collected: Collected, deadline: Option<string>, policy: Policy,
                                  candidates: seq<Candidate>) {
    forall c {:trigger FromEvidence(collected, deadline, policy, c)} ::
      c in candidates ==> FromEvidence(collected, deadline, policy, c)
  }

  lemma MadeIsFromEvidence(s: Setting, worktree: Worktree, c: Candidate, collected: Collected, deadline: Option<string>)
    requires Made(s, worktree, c) && Warned(collected, deadline, s.warnings)
    requires s.processes == collected.processes && Correlate.IsGlobal(s.processes, s.global)
    ensures FromEvidence(collected, deadline, s.policy, c)
  {
    var all := s.warnings.global + Of(s.warnings, worktree.path);
    Sequences.FirstIn(all);
    Sequences.FirstIn(SortedWarnings(all));
    if Troubled(collected, deadline, worktree.path) {
      TroubledIsWarned(collected, deadline, s.warnings, worktree.path);
      Evaluate.WarningProtects(worktree, c.evidence, s.policy);
    }
  }

  lemma AllMadeFromEvidence(s: Setting, worktrees: seq<Worktree>, candidates: seq<Candidate>, collected: Collected,
                            deadline: Option<string>)
    requires Sequences.Matches(MadeFrom(s), worktrees, candidates) && Warned(collected, deadline, s.warnings)
    requires s.processes == collected.processes && Correlate.IsGlobal(s.processes, s.global)
    ensures AllFromEvidence(collected, deadline, s.policy, candidates)
  {
    forall c | c in candidates ensures FromEvidence(collected, deadline, s.policy, c) {
      var k :| 0 <= k < |candidates| && candidates[k] == c;
      assert MadeFrom(s)(worktrees[k], candidates[k]);
      MadeIsFromEvidence(s, worktrees[k], c, collected, deadline);
    }
  }

  /** What a plan takes over from its request. */
  ghost predicate Records(tools: Tools, request: Request, now: Time, id: string, collected: Collected, plan: Plan) {
    && plan.id == id && plan.generatedAt == now.Utc() && plan.expiresAt == now.Utc().Plus(request.settings.planExpiry)
    && plan.intendedApplyMode == request.mode && plan.roots == request.roots
    && plan.removal
        == Some(RemovalOf(Sorting.Sort(RegisteredPaths(tools.key, collected.worktrees, request.selectedPaths),
                                                   Itself), request.skipDirty))
    && WorktreesOf(plan.candidates) == Sorting.Sort(collected.worktrees, PathOfWorktree)
  }

  /** What can be said of a plan that was built, whatever the collectors returned. */
  ghost predicate Built(tools: Tools, request: Request, now: Time, id: string, collected: Collected,
                        deadline: Option<string>, banner: string,
                        plan: Plan, complete: bool) {
    && ValidPreview(tools, plan)
    && Records(tools, request, now, id, collected, plan)
    && SelectionsMatched(tools.key, request.selectedPaths, plan.candidates)
    && AllFromEvidence(collected, deadline, Policy(now.Utc(), request.settings), plan.candidates)
    && (forall text :: text in plan.warnings <==> text == banner || text in AllProblems(collected, deadline))
    && (complete <==> AllProblems(collected, deadline) == [])
  }

  datatype Outcome = Aborted | Returned(plan: Plan, complete: bool)

  /** What the plan records of the request. */
  function RemovalOf(matched: seq<string>, skipDirty: bool): RemovalPlan {
    RemovalPlan(if matched == [] then INTENT_INVENTORY else INTENT_EXPLICIT, DISCARD_ALL, BACKUP_NONE, skipDirty,
                matched, PREVIEW_ONLY)
  }

  lemma BuildIsValid(tools: Tools, request: Request, collected: Collected, s: Setting, sorted: seq<Worktree>,
                     matched: seq<string>, plan: Plan)
    requires LawfulKey(tools.key) && RequestValid(tools.key, request) && Identified(tools.key, collected.worktrees)
    requires forall i :: 0 <= i < |request.selectedPaths| ==>
               Selected(tools.key, collected.worktrees, request.selectedPaths[i])
    requires matched == Sorting.Sort(RegisteredPaths(tools.key, collected.worktrees, request.selectedPaths), Itself)
    requires multiset(sorted) == multiset(collected.worktrees)
    requires s.tools == tools && s.selected == matched && s.skipDirty == request.skipDirty
    requires Sequences.Matches(MadeFrom(s), sorted, plan.candidates)
    requires plan.removal == Some(RemovalOf(matched, request.skipDirty)) && plan.intendedApplyMode == request.mode
    requires !plan.generatedAt.IsZero() && plan.summary == SummaryOf(plan.candidates)
    ensures ValidPreview(tools, plan) && WorktreesOf(plan.candidates) == sorted
    ensures SelectionsMatched(tools.key, request.selectedPaths, plan.candidates)
  {
    var ws, paths := collected.worktrees, request.selectedPaths;
    IdentifiedPermute(tools.key, ws, sorted);
    MadeFit(s, sorted, plan.candidates);
    RegisteredSelectable(tools.key, ws, paths, matched);
    assert |matched| == |paths|;
    SelectionSurvives(tools.key, ws, sorted, paths, matched);
    SelectionsAreMatched(tools.key, ws, sorted, paths, matched, s, plan.candidates);
  }

  const NO_PROCESSES := ProcessCollector.Collection(map[], map[], [], true)

  /** The processes are only asked for when there are worktrees. */
  function Asked(answers: Answers): Answers {
    if answers.worktrees == [] then answers.(processes := NO_PROCESSES, returned := [], diagnostics := []) else answers
  }

  function LateFor(answers: Answers, deadline: Option<string>): Option<string> {
    if answers.worktrees == [] then None else deadline
  }

  function KnownPaths(worktrees: seq<Worktree>): set<string> { set w <- worktrees :: w.path }

  /** The collected record of what was answered: the same, with every problem of the processes reported. */
  ghost predicate CollectedFrom(key: char -> char, phrase: Phrasing, answers: Answers, collected: Collected) {
    && collected == Collected(answers.worktrees, answers.inventoryProblems, collected.worktreeProblems,
                              answers.processes, collected.processProblems)
    && (forall w <- answers.worktrees :: collected.worktreeProblems(w) == FaultTexts(key, answers.wording, w))
    && AllReported(phrase, KnownPaths(answers.worktrees), answers.processes, answers.returned, answers.diagnostics,
                   collected.processProblems)
    && (collected.processProblems == [] <==>
          NothingWrong(KnownPaths(answers.worktrees), answers.processes, answers.returned, answers.diagnostics))
  }

  lemma IdentifiedAreLast(key: char -> char, worktrees: seq<Worktree>, i: nat)
    requires Identified(key, worktrees) && i < |worktrees|
    ensures Correlate.LastUnderPath(worktrees, i)
  {
    var paths := PathsOf(worktrees);
    forall j | i < j < |worktrees| ensures worktrees[j].path != worktrees[i].path {
      assert paths[i] == worktrees[i].path && paths[j] == worktrees[j].path;
    }
  }

  /** Every worktree finds its own evidence, in whatever order they are visited. */
  lemma EachIsGrouped(key: char -> char, s: Setting, worktrees: seq<Worktree>, sorted: seq<Worktree>,
                      grouped: map<string, EvidenceSet>)
    requires Identified(key, worktrees) && multiset(sorted) == multiset(worktrees)
    requires forall i: nat {:trigger Correlate.GroupedAt(worktrees, s.processes, s.global, [], grouped, i)} ::
               Correlate.LastUnderPath(worktrees, i) ==>
                   Correlate.GroupedAt(worktrees, s.processes, s.global, [], grouped, i)
    ensures forall w :: w in sorted ==> GroupedFor(s, grouped, w)
  {
    Sequences.PermuteMembers(sorted, worktrees);
    forall w | w in sorted ensures GroupedFor(s, grouped, w) {
      var i :| 0 <= i < |worktrees| && worktrees[i] == w;
      IdentifiedAreLast(key, worktrees, i);
      assert Correlate.GroupedAt(worktrees, s.processes, s.global, [], grouped, i);
    }
  }

  /** Candidates for the worktrees in order of their paths. */
  method MakeSorted(tools: Tools, collected: Collected, policy: Policy, selected: seq<string>, skipDirty: bool,
                    warnings: Warnings, stops: Step -> bool)
      returns (ok: bool, candidates: seq<Candidate>, summary: PlanSummary, ghost s: Setting,
               ghost sorted: seq<Worktree>)
    requires Identified(tools.key, collected.worktrees)
    ensures ok <==> NoneStops(stops, |collected.worktrees|)
    ensures s == Setting(tools, selected, skipDirty, policy, collected.processes, s.global, warnings)
    ensures sorted == Sorting.Sort(collected.worktrees, PathOfWorktree)
            && Correlate.IsGlobal(collected.processes, s.global)
    ensures ok ==> Sequences.Matches(MadeFrom(s), sorted, candidates) && summary == SummaryOf(candidates)
  {
    ghost var global, keys;
    var grouped;
    grouped, global, keys := Correlate.Group(collected.worktrees, collected.processes, []);
    s := Setting(tools, selected, skipDirty, policy, collected.processes, global, warnings);
    var worktrees := Sorting.Sort(collected.worktrees, PathOfWorktree);
    sorted := worktrees;
    EachIsGrouped(tools.key, s, collected.worktrees, sorted, grouped);
    ok, candidates, summary := MakeCandidates(s, tools, worktrees, grouped, policy, selected, skipDirty, warnings,
                                              stops);
  }

  /** The worktrees can be told apart, and every selected path is one of them that may be selected. */
  ghost predicate Selecting(key: char -> char, worktrees: seq<Worktree>, paths: seq<string>) {
    Identified(key, worktrees) && forall i :: 0 <= i < |paths| ==> Selected(key, worktrees, paths[i])
  }

  /** `Build`. It returns a plan for every valid request for worktrees that were found, unless it is stopped; nothing
      else keeps the plan from being made, least of all anything that went wrong. No agents are asked for yet, so every
      fingerprint can be computed. */
  method Build(tools: Tools, phrase: Phrasing, request: Request, now: Time, answers: Answers, deadline: Option<string>,
               banner: string, id: string, stops: Step -> bool)
      returns (outcome: Outcome, ghost collected: Collected)
    requires LawfulKey(tools.key)
    ensures outcome.Returned? <==>
              RequestValid(tools.key, request) && !now.IsZero() && RunsThrough(stops, |answers.worktrees|)
              && Selecting(tools.key, answers.worktrees, request.selectedPaths)
    ensures outcome.Returned? ==> CollectedFrom(tools.key, phrase, Asked(answers), collected)
    ensures outcome.Returned? ==>
              Built(tools, request, now, id, collected, LateFor(answers, deadline), banner, outcome.plan,
                    outcome.complete)
  {
    var asked, late := Asked(answers), LateFor(answers, deadline);
    collected := Collected(asked.worktrees, asked.inventoryProblems, w => [], asked.processes, []);
    if stops(AtStart) { return Aborted, collected; }
    var ok := ValidateRequest(tools.key, request);
    if !ok || now.Utc().IsZero() || stops(BeforeInventory) || stops(AfterInventory) { return Aborted, collected; }
    ok := ValidateBuildIdentities(tools.key, asked.worktrees);
    if !ok { return Aborted, collected; }
    var matched := MatchSelectedPaths(tools.key, request.selectedPaths, asked.worktrees);
    if matched.None? { return Aborted, collected; }
    var found := Collect(tools.key, phrase, asked);
    collected := found;
    if stops(AfterProcesses) { return Aborted, collected; }
    var plan, complete := Assemble(tools, request, now, found, late, banner, id, matched.value, stops);
    outcome := if plan.Some? then Outcome.Returned(plan.value, complete) else Aborted;
  }

  /** What the collectors returned, with the problems of the records and of the processes. */
  method Collect(key: char -> char, phrase: Phrasing, asked: Answers) returns (collected: Collected)
    ensures CollectedFrom(key, phrase, asked, collected)
  {
    var problems := BuildProcessProblems(phrase, KnownPaths(asked.worktrees), asked.processes, asked.returned,
                                         asked.diagnostics);
    collected := Collected(asked.worktrees, asked.inventoryProblems, w => FaultTexts(key, asked.wording, w),
                           asked.processes, problems);
  }

  /** `Build` from the gathering of the warnings on, with a valid request and matched selections. */
  method Assemble(tools: Tools, request: Request, now: Time, collected: Collected, deadline: Option<string>,
                  banner: string, id: string, matched: seq<string>, stops: Step -> bool)
      returns (plan: Option<Plan>, complete: bool)
    requires LawfulKey(tools.key) && RequestValid(tools.key, request) && !now.IsZero()
             && Selecting(tools.key, collected.worktrees, request.selectedPaths)
    requires matched == Sorting.Sort(RegisteredPaths(tools.key, collected.worktrees, request.selectedPaths), Itself)
    ensures plan.Some? <==> NoneStops(stops, |collected.worktrees|) && !stops(AtEnd)
    ensures plan.Some? ==> Built(tools, request, now, id, collected, deadline, banner, plan.value, complete)
  {
    var warnings := GatherWarnings(collected, deadline);
    complete := |warnings.all| == 0;
    var ok, candidates, summary;
    ghost var s, sorted;
    ok, candidates, summary, s, sorted := MakeSorted(tools, collected, Policy(now.Utc(), request.settings), matched,
                                                     request.skipDirty, warnings, stops);
    if !ok || stops(AtEnd) { return None, complete; }
    plan := Some(Plan(id, now.Utc(), now.Utc().Plus(request.settings.planExpiry), request.mode, request.roots,
                      candidates, summary, SortedWarnings([banner] + warnings.all),
                      Some(RemovalOf(matched, request.skipDirty))));
    AssembledIsBuilt(tools, request, now, id, collected, deadline, banner, s, sorted, matched, plan.value);
  }

  lemma AssembledIsBuilt(tools: Tools, request: Request, now: Time, id: string, collected: Collected,
                         deadline: Option<string>, banner: string, s: Setting, sorted: seq<Worktree>,
                         matched: seq<string>, plan: Plan)
    requires LawfulKey(tools.key) && RequestValid(tools.key, request) && !now.IsZero()
             && Selecting(tools.key, collected.worktrees, request.selectedPaths)
    requires matched == Sorting.Sort(RegisteredPaths(tools.key, collected.worktrees, request.selectedPaths), Itself)
    requires s == Setting(tools, matched, request.skipDirty, Policy(now.Utc(), request.settings), collected.processes,
                          s.global, s.warnings)
    requires sorted == Sorting.Sort(collected.worktrees, PathOfWorktree)
             && Correlate.IsGlobal(collected.processes, s.global) && Warned(collected, deadline, s.warnings)
    requires Sequences.Matches(MadeFrom(s), sorted, plan.candidates)
    requires plan == Plan(id, now.Utc(), now.Utc().Plus(request.settings.planExpiry), request.mode, request.roots,
                          plan.candidates, SummaryOf(plan.candidates), SortedWarnings([banner] + s.warnings.all),
                          Some(RemovalOf(matched, request.skipDirty)))
    ensures Built(tools, request, now, id, collected, deadline, banner, plan, |s.warnings.all| == 0)
  {
    BuildIsValid(tools, request, collected, s, sorted, matched, plan);
    AllMadeFromEvidence(s, sorted, plan.candidates, collected, deadline);
  }

  lemma UnprotectedIsUntroubled(collected: Collected, deadline: Option<string>, policy: Policy,
                                candidates: seq<Candidate>, c: Candidate)
    requires WorktreesOf(candidates) == Sorting.Sort(collected.worktrees, PathOfWorktree)
    requires AllFromEvidence(collected, deadline, policy, candidates)
    requires c in candidates && c.decision.classification != Protected
    ensures c.worktree in collected.worktrees && !Troubled(collected, deadline, c.worktree.path)
  {
    var worktrees := WorktreesOf(candidates);
    var i :| 0 <= i < |candidates| && candidates[i] == c;
    assert worktrees[i] in worktrees && FromEvidence(collected, deadline, policy, c);
    Sorting.SortMembers(collected.worktrees, PathOfWorktree);
  }

  lemma UntroubledIsKnown(key: char -> char, phrase: Phrasing, answers: Answers, collected: Collected,
                          deadline: Option<string>, w: Worktree)
    requires CollectedFrom(key, phrase, answers, collected) && w in collected.worktrees
             && !Troubled(collected, deadline, w.path)
    ensures KnownFor(KnownPaths(answers.worktrees), answers.processes, w.path)
    ensures answers.inventoryProblems == [] && deadline == None && RecordKnown(key, w)
  {
    assert w.path in KnownPaths(answers.worktrees);
    UnconcernedIsKnown(phrase, KnownPaths(answers.worktrees), answers.processes, answers.returned, answers.diagnostics,
                       collected.processProblems, w.path);
  }

  /** Whatever a plan does not protect had everything known about its processes, in time, and nothing wrong with its own
      record: the Git state is known, no path or hash is missing, and no count is negative. */
  lemma UnprotectedIsKnown(tools: Tools, phrase: Phrasing, request: Request, now: Time, id: string, answers: Answers,
                           collected: Collected, deadline: Option<string>, banner: string, plan: Plan, complete: bool,
                           c: Candidate)
    requires CollectedFrom(tools.key, phrase, answers, collected)
             && Built(tools, request, now, id, collected, deadline, banner, plan, complete)
    requires c in plan.candidates && c.decision.classification != Protected
    ensures KnownFor(KnownPaths(answers.worktrees), answers.processes, c.worktree.path)
    ensures answers.inventoryProblems == [] && deadline == None && RecordKnown(tools.key, c.worktree)
  {
    UnprotectedIsUntroubled(collected, deadline, Policy(now.Utc(), request.settings), plan.candidates, c);
    UntroubledIsKnown(tools.key, phrase, answers, collected, deadline, c.worktree);
  }

  /** Some requested path is the candidate's, as far as path keys tell. */
  ghost predicate RequestedHere(key: char -> char, paths: seq<string>, c: Candidate) {
    exists p <- paths :: Key(key, p) == Key(key, c.worktree.path)
  }

  lemma RegisteredPathKey(key: char -> char, ws: seq<Worktree>, v: Worktree, path: string)
    requires v in ws && Key(key, v.path) == Key(key, path)
    ensures Key(key, RegisteredPath(key, ws, path)) == Key(key, path)
  {
    RegisteredIsListed(key, ws, Key(key, path));
  }

  /** The recorded paths are those of the requested candidates. */
  lemma RecordedExactly(key: char -> char, worktrees: seq<Worktree>, paths: seq<string>, matched: seq<string>,
                        candidates: seq<Candidate>, c: Candidate)
    requires WorktreesOf(candidates) == Sorting.Sort(worktrees, PathOfWorktree) && c in candidates
    requires matched == Sorting.Sort(RegisteredPaths(key, worktrees, paths), Itself)
             && SelectionsMatched(key, paths, candidates)
    ensures c.worktree.path in matched ==> RequestedHere(key, paths, c)
  {
    var registered := RegisteredPaths(key, worktrees, paths);
    Sorting.SortMembers(registered, Itself);
    Sorting.SortMembers(worktrees, PathOfWorktree);
    if c.worktree.path in matched {
      var i :| 0 <= i < |paths| && registered[i] == c.worktree.path;
      assert paths[i] in paths;
      var d :| d in candidates && SelectedCandidate(key, d, paths[i]);
      CandidateIsListed(candidates, d);
      RegisteredPathKey(key, worktrees, d.worktree, paths[i]);
    }
  }

  lemma RequestedIsSelected(key: char -> char, paths: seq<string>, candidates: seq<Candidate>, c: Candidate)
    requires SelectionsMatched(key, paths, candidates) && c in candidates && RequestedHere(key, paths, c)
    ensures c.selection.Some? && c.selection.value.selected
  {
    var p :| p in paths && Key(key, p) == Key(key, c.worktree.path);
    var d :| d in candidates && SelectedCandidate(key, d, p);
    var i :| 0 <= i < |candidates| && candidates[i] == c;
    var j :| 0 <= j < |candidates| && candidates[j] == d;
    assert OnlyCandidate(key, candidates, p);
  }

  lemma CandidateIsListed(candidates: seq<Candidate>, c: Candidate)
    requires c in candidates
    ensures c.worktree in WorktreesOf(candidates)
  {
    var i :| 0 <= i < |candidates| && candidates[i] == c;
    assert WorktreesOf(candidates)[i] == c.worktree;
  }

  /** What a built plan says of one of its candidates. */
  lemma CandidateOf(tools: Tools, request: Request, now: Time, id: string, collected: Collected,
                    deadline: Option<string>, banner: string, plan: Plan, complete: bool,
                    c: Candidate) returns (matched: seq<string>)
    requires Built(tools, request, now, id, collected, deadline, banner, plan, complete) && c in plan.candidates
    ensures c.selection == Some(PreviewSelection(c.worktree, c.worktree.path in matched, request.skipDirty))
    ensures matched == Sorting.Sort(RegisteredPaths(tools.key, collected.worktrees, request.selectedPaths), Itself)
    ensures c.decision == Evaluate.Decide(c.worktree, c.evidence, Policy(now.Utc(), request.settings))
  {
    matched := plan.removal.value.selectedPaths;
    assert CandidateFits(tools, matched, request.skipDirty, c);
    assert FromEvidence(collected, deadline, Policy(now.Utc(), request.settings), c);
  }

  /** A candidate is selected exactly when it was requested. */
  lemma SelectedExactly(tools: Tools, request: Request, now: Time, id: string, collected: Collected,
                        deadline: Option<string>, banner: string, plan: Plan, complete: bool, c: Candidate)
    requires Built(tools, request, now, id, collected, deadline, banner, plan, complete) && c in plan.candidates
    ensures c.selection.Some? && (c.selection.value.selected <==> RequestedHere(tools.key, request.selectedPaths, c))
  {
    var matched := CandidateOf(tools, request, now, id, collected, deadline, banner, plan, complete, c);
    RecordedExactly(tools.key, collected.worktrees, request.selectedPaths, matched, plan.candidates, c);
    if RequestedHere(tools.key, request.selectedPaths, c) {
      RequestedIsSelected(tools.key, request.selectedPaths, plan.candidates, c);
    }
  }

  /** A candidate is skipped exactly when it was requested, dirty ones are to be skipped, and it is known to be dirty.
      It is then protected: skipping never takes a worktree out that could have been removed. */
  lemma SkippedExactly(tools: Tools, request: Request, now: Time, id: string, collected: Collected,
                       deadline: Option<string>, banner: string, plan: Plan, complete: bool, c: Candidate)
    requires Built(tools, request, now, id, collected, deadline, banner, plan, complete) && c in plan.candidates
    ensures c.selection.Some?
    ensures c.selection.value.skipReason != "" <==>
      && request.skipDirty && RequestedHere(tools.key, request.selectedPaths, c)
      && c.worktree.gitStateKnown && c.worktree.collectionErrors == [] && KnownDirty(c.worktree.status)
    ensures c.selection.value.skipReason != "" ==> c.decision.classification == Protected
  {
    SelectedExactly(tools, request, now, id, collected, deadline, banner, plan, complete, c);
    SkippingKnownDirty(tools, request, now, id, collected, deadline, banner, plan, complete, c);
  }

  lemma SkippingKnownDirty(tools: Tools, request: Request, now: Time, id: string, collected: Collected,
                           deadline: Option<string>, banner: string, plan: Plan, complete: bool, c: Candidate)
    requires Built(tools, request, now, id, collected, deadline, banner, plan, complete) && c in plan.candidates
    ensures c.selection.Some?
    ensures c.selection.value.skipReason != "" <==>
      && c.selection.value.selected && request.skipDirty
      && c.worktree.gitStateKnown && c.worktree.collectionErrors == [] && KnownDirty(c.worktree.status)
    ensures c.selection.value.skipReason != "" ==> c.decision.classification == Protected
  {
    var matched := CandidateOf(tools, request, now, id, collected, deadline, banner, plan, complete, c);
    SkipsKnownDirty(c.worktree, c.worktree.path in matched, request.skipDirty);
    if KnownDirty(c.worktree.status) { DirtyIsProtected(c.worktree, c.evidence, Policy(now.Utc(), request.settings)); }
  }

  lemma SkipsKnownDirty(worktree: Worktree, selected: bool, skipDirty: bool)
    ensures PreviewSelection(worktree, selected, skipDirty).skipReason != "" <==>
      selected && skipDirty && worktree.gitStateKnown && worktree.collectionErrors == [] && KnownDirty(worktree.status)
  {
  }

  /** The counts make sense, and one of them is of changes. */
  ghost predicate KnownDirty(status: GitStatus) {
    && status.staged >= 0 && status.unstaged >= 0 && status.unmerged >= 0 && status.untracked >= 0
    && status.staged + status.unstaged + status.unmerged + status.untracked > 0
  }

  lemma DirtyIsProtected(worktree: Worktree, evidence: EvidenceSet, policy: Policy)
    requires !worktree.status.Clean()
    ensures Evaluate.Decide(worktree, evidence, policy).classification == Protected
  {
  }
}
