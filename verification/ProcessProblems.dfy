/** What went wrong with the processes, and which worktrees each problem is about. */
module ProcessProblems {
  import opened Domain
  import opened FileSystem
  import opened ProcessCollector
  import Sequences
  import Sorting

  /** One thing that went wrong with the processes, and the worktrees it concerns; none means all. */
  datatype ProcessProblem = ProcessProblem(text: string, paths: seq<string>)

  /** An error that the collector returned, the worktrees it is limited to, and whether it says that time ran out. */
  datatype Returned = Returned(text: string, scope: Option<seq<string>>, outOfTime: bool)

  datatype Trouble = IncompleteEnumeration | FailedProcess(pid: int, error: string) | UnknownProcess(pid: int)
                   | UnboundList(path: string) | PidImpossible(pid: int) | ConflictingEvidence(pid: int)

  /** How troubles are put into words. */
  type Phrasing = Trouble -> string

  const NO_DIAGNOSTIC := "process collection failed without a diagnostic"

  /** A record that some worktree lists. */
  datatype Occurrence = Occurrence(path: string, evidence: ProcessEvidence)

  predicate Listed(c: Collection, o: Occurrence) { o.path in c.byWorktree && o.evidence in c.byWorktree[o.path] }

  predicate Settled(state: EvidenceState) { state == Active || state == Inactive || state == NotApplicable }

  /** A record that does not say for sure what the process is doing. */
  predicate Doubtful(e: ProcessEvidence) { e.error != "" || !Settled(e.state) }

  /** Only a failed enumeration has no process of its own. */
  predicate ImpossiblePid(e: ProcessEvidence) { e.pid < 0 || (e.pid == 0 && (e.state != Unknown || e.error == "")) }

  function TroubleOf(e: ProcessEvidence): Trouble {
    if e.error != "" then FailedProcess(e.pid, e.error) else UnknownProcess(e.pid)
  }

  function ScopeOf(known: set<string>, path: string): seq<string> { if path in known then [path] else [] }

  predicate Conflict(a: ProcessEvidence, b: ProcessEvidence) { a.pid == b.pid && a.pid > 0 && a != b }

  // ---------------------------------------------------------------- what has to be reported

  predicate Reports(problems: seq<ProcessProblem>, text: string,
                    paths: seq<string>) { ProcessProblem(text, paths) in problems }

  /** A doubtful record is reported for the worktree that lists it, an impossible one for all. */
  predicate RecordReported(phrase: Phrasing, known: set<string>, problems: seq<ProcessProblem>, o: Occurrence) {
    && (Doubtful(o.evidence) ==> Reports(problems, phrase(TroubleOf(o.evidence)), ScopeOf(known, o.path)))
    && (ImpossiblePid(o.evidence) ==> Reports(problems, phrase(PidImpossible(o.evidence.pid)), []))
  }

  predicate PairReported(phrase: Phrasing, problems: seq<ProcessProblem>, a: Occurrence, b: Occurrence) {
    Conflict(a.evidence, b.evidence) ==> Reports(problems, phrase(ConflictingEvidence(a.evidence.pid)), [])
  }

  predicate ListReported(phrase: Phrasing, known: set<string>, problems: seq<ProcessProblem>, path: string) {
    path !in known ==> Reports(problems, phrase(UnboundList(path)), [])
  }

  predicate Fine(o: Occurrence) { !Doubtful(o.evidence) && !ImpossiblePid(o.evidence) }

  /** Everything about these lists and records is reported, and nothing is when there is nothing wrong. */
  ghost predicate ListsReported(phrase: Phrasing, known: set<string>, paths: set<string>, done: seq<Occurrence>,
                                problems: seq<ProcessProblem>) {
    && (forall path {:trigger ListReported(phrase, known, problems, path)} ::
          path in paths ==> ListReported(phrase, known, problems, path))
    && (forall o {:trigger RecordReported(phrase, known, problems, o)} ::
          o in done ==> RecordReported(phrase, known, problems, o))
    && (forall a, b {:trigger PairReported(phrase, problems, a, b)} ::
          a in done && b in done ==> PairReported(phrase, problems, a, b))
    && (problems == [] <==> ListsFine(known, paths, done))
  }

  ghost predicate ListsFine(known: set<string>, paths: set<string>, done: seq<Occurrence>) {
    && paths <= known && (forall o <- done :: Fine(o))
    && (forall a, b :: a in done && b in done ==> !Conflict(a.evidence, b.evidence))
  }

  /** The process has records, all the same, and only for known worktrees. */
  ghost predicate Unambiguous(known: set<string>, done: seq<Occurrence>, pid: int, e: ProcessEvidence) {
    forall o <- done :: o.evidence.pid == pid ==> o.path in known && o.evidence == e
  }

  ghost predicate Mentioned(done: seq<Occurrence>, pid: int) { exists o <- done :: o.evidence.pid == pid }

  /** What the records say about one process. */
  datatype ProcessBinding = ProcessBinding(evidence: ProcessEvidence, paths: seq<string>, ambiguous: bool)

  ghost predicate BindingFits(known: set<string>, done: seq<Occurrence>, pid: int, b: ProcessBinding) {
    && (exists o <- done :: o.evidence.pid == pid && o.evidence == b.evidence)
    && (!b.ambiguous <==> Unambiguous(known, done, pid, b.evidence))
    && (forall path :: path in b.paths <==>
                       path in known && exists o <- done :: o.evidence.pid == pid && o.path == path)
  }

  ghost predicate BindingsFit(known: set<string>, done: seq<Occurrence>, bindings: map<int, ProcessBinding>) {
    && (forall pid :: pid in bindings <==> Mentioned(done, pid))
    && (forall pid {:trigger BindingFits(known, done, pid, bindings[pid])} ::
          pid in bindings ==> BindingFits(known, done, pid, bindings[pid]))
  }

  // ---------------------------------------------------------------- one more record

  /** The problem that `inspect` appends, if any. */
  function Inspected(phrase: Phrasing, e: ProcessEvidence, unknown: bool, paths: seq<string>): seq<ProcessProblem> {
    if e.error != "" || unknown || !Settled(e.state) then [ProcessProblem(phrase(TroubleOf(e)), paths)] else []
  }

  function Impossible(phrase: Phrasing, e: ProcessEvidence): seq<ProcessProblem> {
    if ImpossiblePid(e) then [ProcessProblem(phrase(PidImpossible(e.pid)), [])] else []
  }

  function Conflicting(phrase: Phrasing, bindings: map<int, ProcessBinding>, e: ProcessEvidence): seq<ProcessProblem> {
    if e.pid in bindings && e.pid > 0 && bindings[e.pid].evidence != e
    then [ProcessProblem(phrase(ConflictingEvidence(e.pid)), [])] else []
  }

  function Rebound(bindings: map<int, ProcessBinding>, e: ProcessEvidence, paths: seq<string>): ProcessBinding {
    var b := if e.pid in bindings then bindings[e.pid] else ProcessBinding(e, [], false);
    ProcessBinding(b.evidence, b.paths + paths, b.ambiguous || paths == [] || b.evidence != e)
  }

  lemma RecordBinds(known: set<string>, done: seq<Occurrence>, bindings: map<int, ProcessBinding>, o: Occurrence)
    requires BindingsFit(known, done, bindings)
    ensures BindingsFit(known, done + [o],
                        bindings[o.evidence.pid := Rebound(bindings, o.evidence, ScopeOf(known, o.path))])
  {
    var more, pid := done + [o], o.evidence.pid;
    var after := bindings[pid := Rebound(bindings, o.evidence, ScopeOf(known, o.path))];
    forall x ensures x in more <==> x in done || x == o { Sequences.InMore(done, o, x); }
    forall p ensures p in after <==> Mentioned(more, p) {
      if p == pid { assert o in more; }
    }
    forall p | p in after ensures BindingFits(known, more, p, after[p]) {
      if p != pid {
        assert BindingFits(known, done, p, bindings[p]);
        OtherBinding(known, done, o, p, bindings[p]);
      } else if pid in bindings {
        assert BindingFits(known, done, pid, bindings[pid]);
        SameBinding(known, done, o, bindings[pid]);
      } else {
        FirstBinding(known, done, o);
      }
    }
  }

  lemma OtherBinding(known: set<string>, done: seq<Occurrence>, o: Occurrence, pid: int, b: ProcessBinding)
    requires BindingFits(known, done, pid, b) && pid != o.evidence.pid
    ensures BindingFits(known, done + [o], pid, b)
  {
    forall x ensures x in done + [o] <==> x in done || x == o { Sequences.InMore(done, o, x); }
  }

  lemma SameBinding(known: set<string>, done: seq<Occurrence>, o: Occurrence, b: ProcessBinding)
    requires BindingFits(known, done, o.evidence.pid, b)
    ensures var scope := ScopeOf(known, o.path);
            BindingFits(known, done + [o], o.evidence.pid,
                        ProcessBinding(b.evidence, b.paths + scope,
                                       b.ambiguous || scope == [] || b.evidence != o.evidence))
  {
    var scope, more := ScopeOf(known, o.path), done + [o];
    forall x ensures x in more <==> x in done || x == o { Sequences.InMore(done, o, x); }
    assert forall path :: path in b.paths + scope <==> path in b.paths || path in scope;
  }

  lemma FirstBinding(known: set<string>, done: seq<Occurrence>, o: Occurrence)
    requires !Mentioned(done, o.evidence.pid)
    ensures var scope := ScopeOf(known, o.path);
            BindingFits(known, done + [o], o.evidence.pid, ProcessBinding(o.evidence, [] + scope, false || scope == []))
  {
    forall x ensures x in done + [o] <==> x in done || x == o { Sequences.InMore(done, o, x); }
    assert [] + ScopeOf(known, o.path) == ScopeOf(known, o.path);
  }

  /** A conflict with some earlier record shows as a conflict with the first one, which is reported, or was reported
      before. */
  lemma RecordConflicts(phrase: Phrasing, known: set<string>, paths: set<string>, done: seq<Occurrence>,
                        bindings: map<int, ProcessBinding>, problems: seq<ProcessProblem>, o: Occurrence, a: Occurrence)
    requires ListsReported(phrase, known, paths, done, problems) && BindingsFit(known, done, bindings)
    requires a in done && Conflict(a.evidence, o.evidence)
    ensures Reports(problems + Conflicting(phrase, bindings, o.evidence), phrase(ConflictingEvidence(o.evidence.pid)),
                    [])
  {
    var pid := o.evidence.pid;
    assert Mentioned(done, pid) && BindingFits(known, done, pid, bindings[pid]);
    if bindings[pid].evidence == o.evidence {
      var first :| first in done && first.evidence == bindings[pid].evidence;
      assert PairReported(phrase, problems, a, first);
    }
  }

  lemma ReportedStays(phrase: Phrasing, known: set<string>, problems: seq<ProcessProblem>, more: seq<ProcessProblem>)
    requires forall p :: p in problems ==> p in more
    ensures forall path {:trigger ListReported(phrase, known, more, path)} ::
              ListReported(phrase, known, problems, path) ==> ListReported(phrase, known, more, path)
    ensures forall o {:trigger RecordReported(phrase, known, more, o)} ::
              RecordReported(phrase, known, problems, o) ==> RecordReported(phrase, known, more, o)
    ensures forall a, b {:trigger PairReported(phrase, more, a, b)} :: PairReported(phrase, problems, a, b) ==>
              PairReported(phrase, more, a, b)
  {
  }

  /** What one more record adds to the problems. */
  function RecordProblems(phrase: Phrasing, known: set<string>, bindings: map<int, ProcessBinding>,
                          o: Occurrence): seq<ProcessProblem> {
    Inspected(phrase, o.evidence, false, ScopeOf(known, o.path)) + Impossible(phrase, o.evidence)
        + Conflicting(phrase, bindings, o.evidence)
  }

  lemma RecordAdds(phrase: Phrasing, known: set<string>, paths: set<string>, done: seq<Occurrence>,
                   bindings: map<int, ProcessBinding>, problems: seq<ProcessProblem>, o: Occurrence)
    requires ListsReported(phrase, known, paths, done, problems) && BindingsFit(known, done, bindings)
    ensures RecordReported(phrase, known, problems + RecordProblems(phrase, known, bindings, o), o)
    ensures forall a :: a in done && Conflict(a.evidence, o.evidence) ==>
      Reports(problems + RecordProblems(phrase, known, bindings, o), phrase(ConflictingEvidence(o.evidence.pid)), [])
    ensures RecordProblems(phrase, known, bindings, o) == [] ==> Fine(o)
    ensures problems + RecordProblems(phrase, known, bindings, o) == [] ==>
              forall a <- done :: !Conflict(a.evidence, o.evidence)
    ensures RecordProblems(phrase, known, bindings, o) != [] && Fine(o) ==>
              exists a <- done :: Conflict(a.evidence, o.evidence)
  {
    var first := Inspected(phrase, o.evidence, false, ScopeOf(known, o.path));
    var second, third := Impossible(phrase, o.evidence), Conflicting(phrase, bindings, o.evidence);
    forall p
      ensures p in problems + RecordProblems(phrase, known, bindings, o) <==>
                p in problems || p in first || p in second || p in third
    {
    }
    forall a | a in done && Conflict(a.evidence, o.evidence)
      ensures Reports(problems + RecordProblems(phrase, known, bindings, o),
                      phrase(ConflictingEvidence(o.evidence.pid)), [])
    {
      RecordConflicts(phrase, known, paths, done, bindings, problems, o, a);
    }
    if third != [] {
      assert BindingFits(known, done, o.evidence.pid, bindings[o.evidence.pid]);
      var a :| a in done && a.evidence.pid == o.evidence.pid && a.evidence == bindings[o.evidence.pid].evidence;
      assert Conflict(a.evidence, o.evidence);
    }
  }

  lemma RecordNext(phrase: Phrasing, known: set<string>, paths: set<string>, done: seq<Occurrence>,
                   bindings: map<int, ProcessBinding>, problems: seq<ProcessProblem>, o: Occurrence)
    requires ListsReported(phrase, known, paths, done, problems) && BindingsFit(known, done, bindings)
    ensures ListsReported(phrase, known, paths, done + [o], problems + RecordProblems(phrase, known, bindings, o))
  {
    var more, added := done + [o], RecordProblems(phrase, known, bindings, o);
    var after := problems + added;
    forall x ensures x in more <==> x in done || x == o { Sequences.InMore(done, o, x); }
    RecordAdds(phrase, known, paths, done, bindings, problems, o);
    ReportedStays(phrase, known, problems, after);
    forall a, b | a in more && b in more ensures PairReported(phrase, after, a, b) {
      if a in done && b in done { assert PairReported(phrase, problems, a, b); }
    }
    RecordCleanness(phrase, known, paths, done, bindings, problems, o);
  }

  lemma RecordCleanness(phrase: Phrasing, known: set<string>, paths: set<string>, done: seq<Occurrence>,
                        bindings: map<int, ProcessBinding>, problems: seq<ProcessProblem>, o: Occurrence)
    requires ListsReported(phrase, known, paths, done, problems) && BindingsFit(known, done, bindings)
    ensures problems + RecordProblems(phrase, known, bindings, o) == [] <==> ListsFine(known, paths, done + [o])
  {
    var more, added := done + [o], RecordProblems(phrase, known, bindings, o);
    forall x ensures x in more <==> x in done || x == o { Sequences.InMore(done, o, x); }
    RecordAdds(phrase, known, paths, done, bindings, problems, o);
    assert problems + added == [] <==> problems == [] && added == [];
  }

  // ---------------------------------------------------------------- the lists of the worktrees

  /** The loop over the records of one list. */
  method ReportRecords(phrase: Phrasing, known: set<string>, path: string, records: seq<ProcessEvidence>,
                       problems: seq<ProcessProblem>, bindings: map<int, ProcessBinding>, ghost paths: set<string>,
                       ghost done: seq<Occurrence>)
      returns (r: seq<ProcessProblem>, bound: map<int, ProcessBinding>, ghost seen: seq<Occurrence>)
    requires ListsReported(phrase, known, paths, done, problems) && BindingsFit(known, done, bindings)
    ensures ListsReported(phrase, known, paths, seen, r) && BindingsFit(known, seen, bound)
    ensures forall o :: o in seen <==> o in done || (o.path == path && o.evidence in records)
  {
    r, bound, seen := problems, bindings, done;
    var scope := ScopeOf(known, path);
    for k := 0 to |records|
      invariant ListsReported(phrase, known, paths, seen, r) && BindingsFit(known, seen, bound)
      invariant forall o :: o in seen <==> o in done || (o.path == path && o.evidence in records[..k])
    {
      Sequences.TakeNext(records, k);
      var e := records[k];
      ghost var o := Occurrence(path, e);
      RecordNext(phrase, known, paths, seen, bound, r, o);
      RecordBinds(known, seen, bound, o);
      forall x ensures x in seen + [o] <==> x in seen || x == o { Sequences.InMore(seen, o, x); }
      forall x ensures x in records[..k + 1] <==> x in records[..k] || x == e { Sequences.InMore(records[..k], e, x); }
      r := r + (Inspected(phrase, e, false, scope) + Impossible(phrase, e) + Conflicting(phrase, bound, e));
      bound := bound[e.pid := Rebound(bound, e, scope)];
      seen := seen + [o];
    }
    Sequences.TakeAll(records);
  }

  lemma ListNext(phrase: Phrasing, known: set<string>, paths: set<string>, done: seq<Occurrence>,
                 problems: seq<ProcessProblem>, path: string)
    requires ListsReported(phrase, known, paths, done, problems)
    ensures ListsReported(phrase, known, paths + {path}, done,
                          if path in known then problems
                          else problems + [ProcessProblem(phrase(UnboundList(path)), [])])
  {
    if path !in known {
      var unbound := ProcessProblem(phrase(UnboundList(path)), []);
      forall p ensures p in problems + [unbound] <==> p in problems || p == unbound {
        Sequences.InMore(problems, unbound, p);
      }
      ReportedStays(phrase, known, problems, problems + [unbound]);
    }
  }

  /** The loop over the lists, in whatever order. */
  method ReportLists(phrase: Phrasing, known: set<string>, c: Collection)
      returns (problems: seq<ProcessProblem>, bindings: map<int, ProcessBinding>, ghost done: seq<Occurrence>)
    ensures ListsReported(phrase, known, c.byWorktree.Keys, done, problems) && BindingsFit(known, done, bindings)
    ensures forall o :: o in done <==> Listed(c, o)
  {
    problems, bindings, done := [], map[], [];
    var rest := c.byWorktree.Keys;
    while rest != {}
      invariant rest <= c.byWorktree.Keys
      invariant ListsReported(phrase, known, c.byWorktree.Keys - rest, done, problems)
                && BindingsFit(known, done, bindings)
      invariant forall o :: o in done <==> Listed(c, o) && o.path !in rest
      decreases |rest|
    {
      ghost var some := Sequences.Element(rest);
      var path :| path in rest;
      ListNext(phrase, known, c.byWorktree.Keys - rest, done, problems, path);
      if path !in known { problems := problems + [ProcessProblem(phrase(UnboundList(path)), [])]; }
      assert c.byWorktree.Keys - (rest - {path}) == c.byWorktree.Keys - rest + {path};
      rest := rest - {path};
      problems, bindings, done := ReportRecords(phrase, known, path, c.byWorktree[path], problems, bindings,
                                                c.byWorktree.Keys - rest, done);
    }
  }

  // ---------------------------------------------------------------- everything else

  /** The worktrees that an uninspectable process concerns; none means all. */
  function UninspectablePaths(bindings: map<int, ProcessBinding>, pid: int, e: ProcessEvidence): seq<string> {
    if pid !in bindings || pid <= 0 || pid != e.pid || e.state != Unknown || bindings[pid].ambiguous
        || bindings[pid].evidence != e then []
    else bindings[pid].paths
  }

  /** An uninspectable process is reported for all worktrees, or, when every list that has it is that of a known
      worktree and says the same about it, for exactly the worktrees that list it. */
  ghost predicate UninspectableReported(phrase: Phrasing, known: set<string>, c: Collection,
                                        problems: seq<ProcessProblem>, pid: int, e: ProcessEvidence) {
    exists paths ::
        Reports(problems, phrase(TroubleOf(e)), paths) && (paths == [] || LimitedTo(known, c, pid, e, paths))
  }

  ghost predicate LimitedTo(known: set<string>, c: Collection, pid: int, e: ProcessEvidence, paths: seq<string>) {
    && (forall o :: Listed(c, o) && o.evidence.pid == pid ==> o.path in known && o.evidence == e)
    && (forall path :: path in paths <==> Listed(c, Occurrence(path, e)))
  }

  lemma PathsLimited(known: set<string>, c: Collection, done: seq<Occurrence>, bindings: map<int, ProcessBinding>,
                     pid: int, e: ProcessEvidence)
    requires BindingsFit(known, done, bindings) && forall o :: o in done <==> Listed(c, o)
    ensures var paths := UninspectablePaths(bindings, pid, e); paths == [] || LimitedTo(known, c, pid, e, paths)
  {
    var paths := UninspectablePaths(bindings, pid, e);
    if paths != [] {
      assert BindingFits(known, done, pid, bindings[pid]);
      forall path ensures path in paths <==> Listed(c, Occurrence(path, e)) {
        assert Occurrence(path, e) in done <==> Listed(c, Occurrence(path, e));
      }
    }
  }

  /** The loop over the uninspectable processes, in whatever order. */
  method ReportUninspectable(phrase: Phrasing, known: set<string>, c: Collection, bindings: map<int, ProcessBinding>,
                             ghost done: seq<Occurrence>)
      returns (problems: seq<ProcessProblem>)
    requires BindingsFit(known, done, bindings) && forall o :: o in done <==> Listed(c, o)
    ensures forall pid :: pid in c.uninspectable ==>
              UninspectableReported(phrase, known, c, problems, pid, c.uninspectable[pid])
    ensures problems == [] <==> c.uninspectable == map[]
  {
    problems := [];
    var rest := c.uninspectable.Keys;
    while rest != {}
      invariant rest <= c.uninspectable.Keys
      invariant forall pid :: pid in c.uninspectable && pid !in rest ==>
                  UninspectableReported(phrase, known, c, problems, pid, c.uninspectable[pid])
      invariant problems == [] <==> rest == c.uninspectable.Keys
      decreases |rest|
    {
      ghost var some := Sequences.Element(rest);
      var pid :| pid in rest;
      var e := c.uninspectable[pid];
      var paths := UninspectablePaths(bindings, pid, e);
      PathsLimited(known, c, done, bindings, pid, e);
      ghost var before := problems;
      var problem := ProcessProblem(phrase(TroubleOf(e)), paths);
      problems := problems + [problem];
      forall p ensures p in problems <==> p in before || p == problem { Sequences.InMore(before, problem, p); }
      assert Reports(problems, phrase(TroubleOf(e)), paths);
      forall q | q in c.uninspectable && q !in rest
        ensures UninspectableReported(phrase, known, c, problems, q, c.uninspectable[q])
      {
        ReportedLater(phrase, known, c, before, problems, q, c.uninspectable[q]);
      }
      rest := rest - {pid};
    }
    assert c.uninspectable.Keys == {} <==> c.uninspectable == map[];
  }

  lemma ReportedLater(phrase: Phrasing, known: set<string>, c: Collection, problems: seq<ProcessProblem>,
                      more: seq<ProcessProblem>, pid: int, e: ProcessEvidence)
    requires UninspectableReported(phrase, known, c, problems, pid, e) && forall p :: p in problems ==> p in more
    ensures UninspectableReported(phrase, known, c, more, pid, e)
  {
    var paths :| Reports(problems, phrase(TroubleOf(e)), paths) && (paths == [] || LimitedTo(known, c, pid, e, paths));
    assert Reports(more, phrase(TroubleOf(e)), paths);
  }

  /** The unknown processes that concern everyone. */
  function GlobalProblems(phrase: Phrasing, global: seq<ProcessEvidence>): (r: seq<ProcessProblem>)
    ensures |r| == |global| && forall i :: 0 <= i < |r| ==> r[i] == ProcessProblem(phrase(TroubleOf(global[i])), [])
  {
    seq(|global|, i requires 0 <= i < |global| => ProcessProblem(phrase(TroubleOf(global[i])), []))
  }

  /** The worktrees an error says it is limited to, if that can be believed: all known, none named twice. */
  function BelievedPaths(known: set<string>, failure: Returned): seq<string> {
    if failure.scope.None? || failure.outOfTime || !KnownOnce(known, failure.scope.value) then []
    else failure.scope.value
  }

  predicate KnownOnce(known: set<string>, paths: seq<string>) {
    && (forall path <- paths :: path in known)
    && (forall i, j :: 0 <= i < j < |paths| ==> paths[i] != paths[j])
  }

  /** `buildProcessErrorPaths` */
  method ErrorPaths(known: set<string>, failure: Returned) returns (paths: seq<string>)
    ensures paths == BelievedPaths(known, failure)
  {
    if failure.scope.None? || |failure.scope.value| == 0 || failure.outOfTime { return []; }
    paths := failure.scope.value;
    var seen: set<string> := {};
    for k := 0 to |paths|
      invariant forall i :: 0 <= i < k ==> paths[i] in known && paths[i] in seen
      invariant forall path :: path in seen ==> exists i :: 0 <= i < k && paths[i] == path
      invariant forall i, j :: 0 <= i < j < k ==> paths[i] != paths[j]
    {
      if paths[k] !in known || paths[k] in seen {
        assert paths[k] in paths;
        return [];
      }
      seen := seen + {paths[k]};
    }
  }

  /** A returned error is limited to worktrees only when the diagnostics confirm it. */
  function ReturnedScope(known: set<string>, returned: seq<Option<Returned>>, diagnostics: seq<string>,
                         i: nat): seq<string> {
    if i < |returned| && i < |diagnostics| && returned[i].Some? && diagnostics[i] != ""
        && diagnostics[i] == returned[i].value.text
    then BelievedPaths(known, returned[i].value) else []
  }

  function DiagnosticText(diagnostic: string): string { if diagnostic == "" then NO_DIAGNOSTIC else diagnostic }

  predicate ReturnedReported(known: set<string>, returned: seq<Option<Returned>>, diagnostics: seq<string>,
                             problems: seq<ProcessProblem>, i: nat) {
    i < |returned| && returned[i].Some? ==> Reports(problems, returned[i].value.text,
                                                    ReturnedScope(known, returned, diagnostics, i))
  }

  predicate DiagnosticReported(known: set<string>, returned: seq<Option<Returned>>, diagnostics: seq<string>,
                               problems: seq<ProcessProblem>, i: nat) {
    i < |diagnostics| ==> Reports(problems, DiagnosticText(diagnostics[i]),
                                  ReturnedScope(known, returned, diagnostics, i))
  }

  /** The paths of `returnedScopes[i]`. */
  method ScopeAt(known: set<string>, returned: seq<Option<Returned>>, diagnostics: seq<string>, i: nat)
      returns (paths: seq<string>)
    ensures paths == ReturnedScope(known, returned, diagnostics, i)
  {
    paths := [];
    if i < |returned| && i < |diagnostics| && returned[i].Some? && diagnostics[i] != ""
        && diagnostics[i] == returned[i].value.text {
      paths := ErrorPaths(known, returned[i].value);
    }
  }

  /** The loop over the returned errors. */
  method ReportReturned(known: set<string>, returned: seq<Option<Returned>>, diagnostics: seq<string>)
      returns (problems: seq<ProcessProblem>)
    ensures forall i: nat :: ReturnedReported(known, returned, diagnostics, problems, i)
    ensures problems == [] <==> NoneReturned(returned)
  {
    problems := [];
    for k := 0 to |returned|
      invariant forall i: nat :: i < k ==> ReturnedReported(known, returned, diagnostics, problems, i)
      invariant problems == [] <==> forall i :: 0 <= i < k ==> returned[i].None?
    {
      ghost var before := problems;
      var scope := ScopeAt(known, returned, diagnostics, k);
      if returned[k].Some? { problems := AddProblem(problems, ProcessProblem(returned[k].value.text, scope)); }
      forall i: nat | i < k + 1 ensures ReturnedReported(known, returned, diagnostics, problems, i) {
        if i < k { assert ReturnedReported(known, returned, diagnostics, before, i); }
      }
    }
  }

  /** The loop over the diagnostics of the collection. */
  method ReportDiagnostics(known: set<string>, returned: seq<Option<Returned>>, diagnostics: seq<string>)
      returns (problems: seq<ProcessProblem>)
    ensures forall i: nat :: DiagnosticReported(known, returned, diagnostics, problems, i)
    ensures problems == [] <==> diagnostics == []
  {
    problems := [];
    for k := 0 to |diagnostics|
      invariant forall i: nat :: i < k ==> DiagnosticReported(known, returned, diagnostics, problems, i)
      invariant problems == [] <==> k == 0
    {
      ghost var before := problems;
      var scope := ScopeAt(known, returned, diagnostics, k);
      problems := AddProblem(problems, ProcessProblem(DiagnosticText(diagnostics[k]), scope));
      forall i: nat | i < k + 1 ensures DiagnosticReported(known, returned, diagnostics, problems, i) {
        if i < k { assert DiagnosticReported(known, returned, diagnostics, before, i); }
      }
    }
  }

  method AddProblem(problems: seq<ProcessProblem>, problem: ProcessProblem) returns (more: seq<ProcessProblem>)
    ensures more == problems + [problem] && forall p :: p in more <==> p in problems || p == problem
  {
    more := problems + [problem];
    forall p ensures p in more <==> p in problems || p == problem { Sequences.InMore(problems, problem, p); }
  }

  // ---------------------------------------------------------------- all of it

  /** Everything the collector found or said is reported to the worktrees it is about. */
  ghost predicate AllReported(phrase: Phrasing, known: set<string>, c: Collection, returned: seq<Option<Returned>>,
                              diagnostics: seq<string>,
                              problems: seq<ProcessProblem>) {
    && (!c.complete ==> Reports(problems, phrase(IncompleteEnumeration), []))
    && (forall path {:trigger ListReported(phrase, known, problems, path)} ::
          path in c.byWorktree ==> ListReported(phrase, known, problems, path))
    && (forall o {:trigger RecordReported(phrase, known, problems, o)} ::
          Listed(c, o) ==> RecordReported(phrase, known, problems, o))
    && (forall a, b {:trigger PairReported(phrase, problems, a, b)} ::
          Listed(c, a) && Listed(c, b) ==> PairReported(phrase, problems, a, b))
    && (forall e <- c.globalUnknown :: Reports(problems, phrase(TroubleOf(e)), []))
    && (forall pid ::
          pid in c.uninspectable ==> UninspectableReported(phrase, known, c, problems, pid, c.uninspectable[pid]))
    && (forall i: nat :: ReturnedReported(known, returned, diagnostics, problems, i))
    && (forall i: nat :: DiagnosticReported(known, returned, diagnostics, problems, i))
  }

  /** Nothing at all is wrong with the processes. */
  ghost predicate NothingWrong(known: set<string>, c: Collection, returned: seq<Option<Returned>>,
                               diagnostics: seq<string>) {
    && c.complete && c.byWorktree.Keys <= known && c.globalUnknown == [] && c.uninspectable == map[]
    && (forall o :: Listed(c, o) ==> Fine(o))
    && (forall a, b :: Listed(c, a) && Listed(c, b) ==> !Conflict(a.evidence, b.evidence))
    && NoneReturned(returned) && diagnostics == []
  }

  predicate NoneReturned(returned: seq<Option<Returned>>) { forall i :: 0 <= i < |returned| ==> returned[i].None? }

  lemma NothingWrongMeans(known: set<string>, c: Collection, returned: seq<Option<Returned>>, diagnostics: seq<string>,
                          done: seq<Occurrence>)
    requires forall o :: o in done <==> Listed(c, o)
    ensures NothingWrong(known, c, returned, diagnostics) <==>
      c.complete && ListsFine(known, c.byWorktree.Keys, done) && c.globalUnknown == [] && c.uninspectable == map[]
      && NoneReturned(returned) && diagnostics == []
  {
    if ListsFine(known, c.byWorktree.Keys, done) {
      forall a, b | Listed(c, a) && Listed(c, b) ensures !Conflict(a.evidence, b.evidence) {
        assert a in done && b in done;
      }
    }
  }

  lemma TogetherReported(phrase: Phrasing, known: set<string>, c: Collection, returned: seq<Option<Returned>>,
                         diagnostics: seq<string>, done: seq<Occurrence>, lists: seq<ProcessProblem>,
                         uninspectable: seq<ProcessProblem>, failures: seq<ProcessProblem>,
                         spoken: seq<ProcessProblem>, all: seq<ProcessProblem>)
    requires ListsReported(phrase, known, c.byWorktree.Keys, done, lists) && forall o :: o in done <==> Listed(c, o)
    requires forall pid :: pid in c.uninspectable ==>
               UninspectableReported(phrase, known, c, uninspectable, pid, c.uninspectable[pid])
    requires forall i: nat :: ReturnedReported(known, returned, diagnostics, failures, i)
    requires forall i: nat :: DiagnosticReported(known, returned, diagnostics, spoken, i)
    requires forall p :: (|| p in lists || p in GlobalProblems(phrase, c.globalUnknown) || p in uninspectable
                          || p in failures || p in spoken) ==> p in all
    requires !c.complete ==> Reports(all, phrase(IncompleteEnumeration), [])
    ensures AllReported(phrase, known, c, returned, diagnostics, all)
  {
    ReportedStays(phrase, known, lists, all);
    forall path | path in c.byWorktree ensures ListReported(phrase, known, all, path) {
      assert ListReported(phrase, known, lists, path);
    }
    forall o | Listed(c, o) ensures RecordReported(phrase, known, all, o) {
      assert RecordReported(phrase, known, lists, o);
    }
    forall a, b | Listed(c, a) && Listed(c, b) ensures PairReported(phrase, all, a, b) {
      assert a in done && b in done && PairReported(phrase, lists, a, b);
    }
    forall e | e in c.globalUnknown ensures Reports(all, phrase(TroubleOf(e)), []) {
      var i :| 0 <= i < |c.globalUnknown| && c.globalUnknown[i] == e;
      assert GlobalProblems(phrase, c.globalUnknown)[i] in GlobalProblems(phrase, c.globalUnknown);
    }
    forall pid | pid in c.uninspectable
      ensures UninspectableReported(phrase, known, c, all, pid, c.uninspectable[pid])
    {
      ReportedLater(phrase, known, c, uninspectable, all, pid, c.uninspectable[pid]);
    }
    forall i: nat ensures ReturnedReported(known, returned, diagnostics, all, i) {
      assert ReturnedReported(known, returned, diagnostics, failures, i);
    }
    forall i: nat ensures DiagnosticReported(known, returned, diagnostics, all, i) {
      assert DiagnosticReported(known, returned, diagnostics, spoken, i);
    }
  }

  function TextOf(problem: ProcessProblem): string { problem.text }

  /** `buildProcessProblems`: everything is reported where it belongs, and nothing is when nothing is wrong. */
  method BuildProcessProblems(phrase: Phrasing, known: set<string>, c: Collection, returned: seq<Option<Returned>>,
                              diagnostics: seq<string>)
      returns (problems: seq<ProcessProblem>)
    ensures AllReported(phrase, known, c, returned, diagnostics, problems)
    ensures problems == [] <==> NothingWrong(known, c, returned, diagnostics)
  {
    var first := if c.complete then [] else [ProcessProblem(phrase(IncompleteEnumeration), [])];
    var lists, bindings;
    ghost var done;
    lists, bindings, done := ReportLists(phrase, known, c);
    var global := GlobalProblems(phrase, c.globalUnknown);
    var uninspectable := ReportUninspectable(phrase, known, c, bindings, done);
    var failures := ReportReturned(known, returned, diagnostics);
    var spoken := ReportDiagnostics(known, returned, diagnostics);
    var all := Gathered(first, lists, global, uninspectable, failures, spoken);
    problems := Sorting.Sort(all, TextOf);
    Sorting.SortMembers(all, TextOf);
    NothingWrongMeans(known, c, returned, diagnostics, done);
    TogetherReported(phrase, known, c, returned, diagnostics, done, lists, uninspectable, failures, spoken, problems);
  }

  function Gathered(a: seq<ProcessProblem>, b: seq<ProcessProblem>, c: seq<ProcessProblem>, d: seq<ProcessProblem>,
                    e: seq<ProcessProblem>, f: seq<ProcessProblem>): (r: seq<ProcessProblem>)
    ensures r == [] <==> a == [] && b == [] && c == [] && d == [] && e == [] && f == []
    ensures forall p :: p in r <==> p in a || p in b || p in c || p in d || p in e || p in f
  {
    a + b + c + d + e + f
  }

  /** A problem concerns a worktree when it names it or names none. */
  ghost predicate Concerned(problems: seq<ProcessProblem>, path: string) {
    exists p <- problems :: p.paths == [] || path in p.paths
  }

  /** What is known about the processes as far as one worktree is concerned. */
  ghost predicate KnownFor(known: set<string>, c: Collection, path: string) {
    && c.complete && c.byWorktree.Keys <= known && c.globalUnknown == []
    && (forall o :: Listed(c, o) ==> !ImpossiblePid(o.evidence) && (o.path == path ==> !Doubtful(o.evidence)))
    && (forall a, b :: Listed(c, a) && Listed(c, b) ==> !Conflict(a.evidence, b.evidence))
    && (forall pid :: pid in c.uninspectable ==> ElsewhereOnly(known, c, path, pid, c.uninspectable[pid]))
  }

  /** The process is on some list, everywhere with this same record, and not on the list of this worktree. */
  ghost predicate ElsewhereOnly(known: set<string>, c: Collection, path: string, pid: int, e: ProcessEvidence) {
    && (forall o :: Listed(c, o) && o.evidence.pid == pid ==> o.path in known && o.evidence == e)
    && (exists o :: Listed(c, o) && o.evidence == e) && !Listed(c, Occurrence(path, e))
  }

  lemma LimitedElsewhere(phrase: Phrasing, known: set<string>, c: Collection, problems: seq<ProcessProblem>,
                         path: string, pid: int, e: ProcessEvidence)
    requires UninspectableReported(phrase, known, c, problems, pid, e) && !Concerned(problems, path)
    ensures ElsewhereOnly(known, c, path, pid, e)
  {
    var paths :| Reports(problems, phrase(TroubleOf(e)), paths) && (paths == [] || LimitedTo(known, c, pid, e, paths));
    assert ProcessProblem(phrase(TroubleOf(e)), paths) in problems;
    assert paths != [] && path !in paths && paths[0] in paths;
    assert Listed(c, Occurrence(paths[0], e)) && Occurrence(paths[0], e).evidence == e;
  }

  /** Unknown evidence never disappears here either: a worktree that no problem concerns had everything known about
      it. */
  lemma UnconcernedIsKnown(phrase: Phrasing, known: set<string>, c: Collection, returned: seq<Option<Returned>>,
                           diagnostics: seq<string>, problems: seq<ProcessProblem>, path: string)
    requires AllReported(phrase, known, c, returned, diagnostics, problems) && path in known
             && !Concerned(problems, path)
    ensures KnownFor(known, c, path)
  {
    forall text ensures !Reports(problems, text, []) && !Reports(problems, text, [path]) {
      assert path in [path];
    }
    forall other | other in c.byWorktree ensures other in known { assert ListReported(phrase, known, problems, other); }
    forall o | Listed(c, o) ensures !ImpossiblePid(o.evidence) && (o.path == path ==> !Doubtful(o.evidence)) {
      assert RecordReported(phrase, known, problems, o);
    }
    forall a, b | Listed(c, a) && Listed(c, b) ensures !Conflict(a.evidence, b.evidence) {
      assert PairReported(phrase, problems, a, b);
    }
    forall pid | pid in c.uninspectable ensures ElsewhereOnly(known, c, path, pid, c.uninspectable[pid]) {
      LimitedElsewhere(phrase, known, c, problems, path, pid, c.uninspectable[pid]);
    }
    Sequences.FirstIn(c.globalUnknown);
  }
}
