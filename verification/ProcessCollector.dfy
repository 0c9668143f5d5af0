/** Collecting evidence about running processes: who is inside which worktree, and what could not be found out.

    The operating system's answers are arbitrary: they may differ from one process record to the next. */
module ProcessCollector {
  import opened Domain
  import opened FileSystem
  import opened Paths
  import Sequences

  datatype OwnerRelation = OwnerSame | OwnerOther | OwnerUnknown

  /** One record of the process listing. */
  datatype Info = Info(pid: int, createdAt: Time, executable: string, commandLine: seq<string>, cwd: string,
                       owner: string, ownerRelation: OwnerRelation, inspectable: bool, error: string)

  datatype Answer<T> = Fine(value: T) | Failed(text: string)

  /** What the operating system says about paths: their canonical form, what stands there, and containment. */
  datatype Answers = Answers(canonical: string -> Answer<string>, stat: string -> Answer<Kind>,
                             contains: (string, string) -> Answer<bool>) {
    /** `canonicalDirectory` */
    function CanonicalDirectory(path: string): Answer<string> {
      match canonical(path)
      case Failed(text) => Failed(text)
      case Fine(found) =>
        match stat(found)
        case Failed(text) => Failed(text)
        case Fine(kind) => if kind == Directory then Fine(found) else Failed("path is not a directory")
    }
  }

  datatype Listing = Listing(infos: seq<Info>, failed: bool)

  /** Everything the collector asks: the source of processes, and the answers per worktree and per record. */
  datatype World = World(source: Option<Listing>, worktrees: nat -> Answers, records: nat -> Answers,
                         digest: (int, Time, string, string) -> string)

  datatype Collection = Collection(byWorktree: map<string, seq<ProcessEvidence>>,
                                   uninspectable: map<int, ProcessEvidence>, globalUnknown: seq<ProcessEvidence>,
                                   complete: bool)

  const NUL: char := '\0'

  // ---------------------------------------------------------------- one record by itself

  predicate AbsolutePath(path: string) {
    path != "" && NUL !in path && path[0] == '/'
  }

  function Fingerprint(world: World, e: ProcessEvidence): ProcessEvidence {
    e.(fingerprint := world.digest(e.pid, e.createdAt.Utc(), e.executable, e.cwd))
  }

  function UnknownOf(world: World, text: string): ProcessEvidence {
    Fingerprint(world, ProcessEvidence(0, NO_TIME, "", "", Unknown, text, ""))
  }

  /** What can be wrong with a record. */
  datatype Problem =
    | Reported(text: string) | IncompleteInspection | NoCreationTime | NulInCommandLine | NulInOwner
    | ExecutableNotAbsolute | ExecutableFailed(text: string) | ExecutableNotRegular
    | CwdNotAbsolute | CwdFailed(text: string)

  function Text(problem: Problem): string {
    match problem
    case Reported(text) => text
    case IncompleteInspection => "process inspection is incomplete"
    case NoCreationTime => "creation time is unavailable or invalid"
    case NulInCommandLine => "command line contains a NUL byte"
    case NulInOwner => "owner contains a NUL byte"
    case ExecutableNotAbsolute => "executable is not a valid absolute path"
    case ExecutableFailed(text) => "executable: " + text
    case ExecutableNotRegular => "executable is not a regular file"
    case CwdNotAbsolute => "cwd is not a valid absolute path"
    case CwdFailed(text) => "cwd: " + text
  }

  function ExecutableProblem(answers: Answers, path: string): seq<Problem> {
    if !AbsolutePath(path) then [ExecutableNotAbsolute]
    else match answers.canonical(path)
      case Failed(text) => [ExecutableFailed(text)]
      case Fine(found) =>
        match answers.stat(found)
        case Failed(text) => [ExecutableFailed(text)]
        case Fine(kind) => if kind == Regular then [] else [ExecutableNotRegular]
  }

  function CwdProblem(answers: Answers, path: string): seq<Problem> {
    if !AbsolutePath(path) then [CwdNotAbsolute]
    else match answers.CanonicalDirectory(path)
      case Failed(text) => [CwdFailed(text)]
      case Fine(_) => []
  }

  function Problems(answers: Answers, info: Info): seq<Problem> {
    (if info.error != "" then [Reported(info.error)] else [])
    + (if !info.inspectable && info.error == "" then [IncompleteInspection] else [])
    + (if info.createdAt.IsZero() || !info.createdAt.After(UNIX_EPOCH) then [NoCreationTime] else [])
    + (if exists argument <- info.commandLine :: NUL in argument then [NulInCommandLine] else [])
    + (if NUL in info.owner then [NulInOwner] else [])
    + ExecutableProblem(answers, info.executable)
    + CwdProblem(answers, info.cwd)
  }

  function JoinTexts(texts: seq<string>): string {
    if texts == [] then "" else if |texts| == 1 then texts[0] else texts[0] + "; " + JoinTexts(texts[1..])
  }

  function JoinProblems(problems: seq<Problem>): string {
    if problems == [] then "" else if |problems| == 1 then Text(problems[0])
    else Text(problems[0]) + "; " + JoinProblems(problems[1..])
  }

  /** `evidenceFor` */
  function EvidenceFor(world: World, answers: Answers, info: Info): ProcessEvidence {
    var problems := Problems(answers, info);
    var cwd := if AbsolutePath(info.cwd) && answers.CanonicalDirectory(info.cwd).Fine?
        then answers.CanonicalDirectory(info.cwd).value else "";
    Fingerprint(world, ProcessEvidence(info.pid, info.createdAt.Utc(), info.executable, cwd,
                                       if problems == [] then Active else Unknown, JoinProblems(problems), ""))
  }

  /** A process is taken as active only when nothing at all is wrong with its record. */
  predicate Sound(answers: Answers, info: Info) {
    && info.error == "" && info.inspectable && info.createdAt.After(UNIX_EPOCH)
    && (forall argument <- info.commandLine :: NUL !in argument) && NUL !in info.owner
    && AbsolutePath(info.executable) && answers.canonical(info.executable).Fine?
    && answers.stat(answers.canonical(info.executable).value) == Fine(Regular)
    && AbsolutePath(info.cwd) && answers.CanonicalDirectory(info.cwd).Fine?
  }

  lemma NoProblemsExactlyWhenSound(answers: Answers, info: Info)
    ensures Problems(answers, info) == [] <==> Sound(answers, info)
  {
  }

  lemma TextsSay(problem: Problem)
    ensures Text(problem) == "" ==> problem == Reported("")
  {
  }

  lemma JoinedSays(problems: seq<Problem>)
    requires Reported("") !in problems
    ensures JoinProblems(problems) == "" <==> problems == []
  {
    if problems != [] { TextsSay(problems[0]); }
  }

  lemma ProblemsSay(answers: Answers, info: Info)
    ensures Reported("") !in Problems(answers, info)
  {
  }

  lemma ActiveExactlyWhenSound(world: World, answers: Answers, info: Info)
    ensures var e := EvidenceFor(world, answers, info);
            && (e.state == Active <==> Sound(answers, info))
            && (e.state == Active || e.state == Unknown)
            && (e.state == Unknown <==> e.error != "")
  {
    NoProblemsExactlyWhenSound(answers, info);
    ProblemsSay(answers, info);
    JoinedSays(Problems(answers, info));
  }

  // ---------------------------------------------------------------- where a record belongs

  /** The path that an argument holds, also behind the equals sign of an option. */
  function HintIn(argument: string): string {
    if !AbsolutePath(argument) && argument != "" && argument[0] == '-' && Find(argument, '=') < |argument|
    then argument[Find(argument, '=') + 1..] else argument
  }

  /** `processPathHints` */
  function PathHints(answers: Answers, paths: seq<string>): (hints: seq<string>) {
    if paths == [] then []
    else
      var earlier, path := PathHints(answers, paths[..|paths| - 1]), HintIn(paths[|paths| - 1]);
      if AbsolutePath(path) && answers.canonical(path).Fine? then earlier + [answers.canonical(path).value] else earlier
  }

  function Hints(answers: Answers, info: Info, evidence: ProcessEvidence): seq<string> {
    [evidence.cwd]
        + (if evidence.state == Unknown then PathHints(answers, [info.executable] + info.commandLine) else [])
  }

  datatype Root = Root(key: string, canonical: string)

  /** Some hint of the record is inside this directory. */
  predicate Inside(answers: Answers, directory: string, hints: seq<string>) {
    exists hint <- hints :: hint != "" && answers.contains(directory, hint) == Fine(true)
  }

  /** Some hint could not be compared with this directory, and no earlier one was found inside. */
  ghost predicate Uncertain(answers: Answers, directory: string, hints: seq<string>) {
    exists i :: 0 <= i < |hints| && hints[i] != "" && answers.contains(directory, hints[i]).Failed?
                && !Inside(answers, directory, hints[..i])
  }

  /** The loop over the hints of one record for one worktree. */
  method ScanHints(answers: Answers, directory: string, hints: seq<string>)
      returns (contained: bool, errors: seq<string>)
    ensures contained <==> Inside(answers, directory, hints)
    ensures errors != [] <==> Uncertain(answers, directory, hints)
    ensures forall text <- errors :: text != ""
  {
    errors := [];
    for k := 0 to |hints|
      invariant !Inside(answers, directory, hints[..k])
      invariant errors != [] <==>
                  exists i :: 0 <= i < k && hints[i] != "" && answers.contains(directory, hints[i]).Failed?
      invariant forall text <- errors :: text != ""
    {
      var hint := hints[k];
      Sequences.TakeNext(hints, k);
      if hint != "" {
        var answer := answers.contains(directory, hint);
        if answer.Failed? {
          errors := errors + ["worktree " + directory + ": " + answer.text];
        } else if answer.value {
          assert hint in hints && Inside(answers, directory, hints);
          UncertainBefore(answers, directory, hints, k);
          return true, errors;
        }
      }
    }
    Sequences.TakeAll(hints);
    NotInsideBefore(answers, directory, hints);
    contained := false;
  }

  lemma NotInsideBefore(answers: Answers, directory: string, hints: seq<string>)
    requires !Inside(answers, directory, hints)
    ensures Uncertain(answers, directory, hints) <==>
      exists i :: 0 <= i < |hints| && hints[i] != "" && answers.contains(directory, hints[i]).Failed?
  {
    forall i | 0 <= i < |hints| ensures !Inside(answers, directory, hints[..i]) {
      assert forall hint <- hints[..i] :: hint in hints;
    }
  }

  lemma UncertainBefore(answers: Answers, directory: string, hints: seq<string>, k: nat)
    requires k < |hints| && hints[k] != "" && answers.contains(directory, hints[k]) == Fine(true)
    requires !Inside(answers, directory, hints[..k])
    ensures Uncertain(answers, directory, hints) <==>
      exists i :: 0 <= i < k && hints[i] != "" && answers.contains(directory, hints[i]).Failed?
  {
    forall i | k < i < |hints| ensures Inside(answers, directory, hints[..i]) {
      assert hints[..i][k] == hints[k];
    }
    forall i | 0 <= i < k ensures !Inside(answers, directory, hints[..i]) {
      assert forall hint <- hints[..i] :: hint in hints[..k] by {
        assert hints[..i] == hints[..k][..i];
      }
    }
  }

  method ProcessPathHints(answers: Answers, info: Info) returns (hints: seq<string>)
    ensures hints == PathHints(answers, [info.executable] + info.commandLine)
  {
    hints := [];
    var paths := [info.executable] + info.commandLine;
    for k := 0 to |paths|
      invariant hints == PathHints(answers, paths[..k])
    {
      Sequences.TakeNext(paths, k);
      Sequences.Snoc(paths[..k], paths[k]);
      var path := HintIn(paths[k]);
      if AbsolutePath(path) {
        var canonical := answers.canonical(path);
        if canonical.Fine? { hints := hints + [canonical.value]; }
      }
    }
    Sequences.TakeAll(paths);
  }

  /** The keys of the worktrees that some hint is inside of, in order. */
  function Matched(answers: Answers, roots: seq<Root>, hints: seq<string>): (keys: seq<string>) {
    if roots == [] then []
    else
      var earlier, root := Matched(answers, roots[..|roots| - 1], hints), roots[|roots| - 1];
      if Inside(answers, root.canonical, hints) then earlier + [root.key] else earlier
  }

  ghost predicate SomeUncertain(answers: Answers, roots: seq<Root>, hints: seq<string>) {
    exists root <- roots :: Uncertain(answers, root.canonical, hints)
  }

  lemma {:induction false} MatchedMeans(answers: Answers, roots: seq<Root>, hints: seq<string>, key: string)
    ensures key in Matched(answers, roots, hints) <==>
              exists root <- roots :: root.key == key && Inside(answers, root.canonical, hints)
  {
    if roots != [] {
      var fewer, last := roots[..|roots| - 1], roots[|roots| - 1];
      MatchedMeans(answers, fewer, hints, key);
      Sequences.LastOf(roots);
      assert forall root <- fewer :: root in roots;
      assert forall root <- roots :: root in fewer || root == last;
      Sequences.InMore(Matched(answers, fewer, hints), last.key, key);
    }
  }

  /** The loop over the worktrees for one record. */
  method ScanRoots(answers: Answers, roots: seq<Root>, hints: seq<string>)
      returns (matched: seq<string>, errors: seq<string>)
    ensures matched == Matched(answers, roots, hints)
    ensures errors != [] <==> SomeUncertain(answers, roots, hints)
    ensures forall text <- errors :: text != ""
  {
    matched, errors := [], [];
    for k := 0 to |roots|
      invariant matched == Matched(answers, roots[..k], hints)
      invariant errors != [] <==> SomeUncertain(answers, roots[..k], hints)
      invariant forall text <- errors :: text != ""
    {
      Sequences.TakeNext(roots, k);
      Sequences.Snoc(roots[..k], roots[k]);
      UncertainOneMore(answers, roots[..k], roots[k], hints);
      var contained, more := ScanHints(answers, roots[k].canonical, hints);
      errors := errors + more;
      if contained { matched := matched + [roots[k].key]; }
    }
    Sequences.TakeAll(roots);
  }

  lemma UncertainOneMore(answers: Answers, roots: seq<Root>, root: Root, hints: seq<string>)
    ensures SomeUncertain(answers, roots + [root], hints) <==>
              SomeUncertain(answers, roots, hints) || Uncertain(answers, root.canonical, hints)
  {
    forall r ensures r in roots + [root] <==> r in roots || r == root { Sequences.InMore(roots, root, r); }
  }

  // ---------------------------------------------------------------- the listing as a whole

  ghost predicate Twice(infos: seq<Info>, pid: int) {
    exists i, j :: 0 <= i < j < |infos| && infos[i].pid == pid && infos[j].pid == pid
  }

  ghost predicate Listed(infos: seq<Info>, pid: int) {
    exists i :: 0 <= i < |infos| && infos[i].pid == pid
  }

  /** A process number that no record may have, or that more than one has. */
  ghost predicate BadPid(infos: seq<Info>, pid: int) {
    (pid <= 0 && Listed(infos, pid)) || Twice(infos, pid)
  }

  /** The numbers that are bad, each with why. */
  ghost predicate BadPids(infos: seq<Info>, invalid: map<int, string>) {
    && (forall pid :: pid in invalid <==> BadPid(infos, pid))
    && (forall pid :: pid in invalid ==> invalid[pid] != "")
  }

  ghost predicate PidsOf(infos: seq<Info>, seen: set<int>) {
    forall pid :: pid in seen <==> Listed(infos, pid)
  }

  lemma ListedOneMore(infos: seq<Info>, info: Info, pid: int)
    ensures Listed(infos + [info], pid) <==> Listed(infos, pid) || info.pid == pid
  {
    var more := infos + [info];
    assert more[|infos|] == info;
    if Listed(infos, pid) {
      var i :| 0 <= i < |infos| && infos[i].pid == pid;
      assert more[i].pid == pid;
    }
  }

  lemma TwiceOneMore(infos: seq<Info>, info: Info, pid: int)
    ensures Twice(infos + [info], pid) <==> Twice(infos, pid) || (Listed(infos, pid) && info.pid == pid)
  {
    var more := infos + [info];
    assert more[|infos|] == info;
    if Twice(infos, pid) {
      var i, j :| 0 <= i < j < |infos| && infos[i].pid == pid && infos[j].pid == pid;
      assert more[i].pid == pid && more[j].pid == pid;
    }
    if Listed(infos, pid) && info.pid == pid {
      var i :| 0 <= i < |infos| && infos[i].pid == pid;
      assert more[i].pid == pid && more[|infos|].pid == pid;
    }
    if Twice(more, pid) {
      var i, j :| 0 <= i < j < |more| && more[i].pid == pid && more[j].pid == pid;
      assert infos[i].pid == pid;
      if j < |infos| { assert infos[j].pid == pid; }
    }
  }

  lemma BadOneMore(infos: seq<Info>, info: Info, seen: set<int>, invalid: map<int, string>)
    requires PidsOf(infos, seen) && BadPids(infos, invalid)
    ensures PidsOf(infos + [info], seen + {info.pid})
    ensures forall pid :: BadPid(infos + [info], pid) <==>
              BadPid(infos, pid) || (pid == info.pid && (pid <= 0 || pid in seen))
  {
    forall pid
      ensures Listed(infos + [info], pid) <==> Listed(infos, pid) || info.pid == pid
      ensures Twice(infos + [info], pid) <==> Twice(infos, pid) || (Listed(infos, pid) && info.pid == pid)
    {
      ListedOneMore(infos, info, pid);
      TwiceOneMore(infos, info, pid);
    }
  }

  /** The first loop over the listing: impossible and repeated process numbers. */
  method FindBadPids(infos: seq<Info>) returns (invalid: map<int, string>, failures: seq<Failure>)
    ensures BadPids(infos, invalid)
    ensures failures == [] <==> invalid == map[]
  {
    invalid, failures := map[], [];
    var seen: set<int> := {};
    for k := 0 to |infos|
      invariant PidsOf(infos[..k], seen) && BadPids(infos[..k], invalid)
      invariant failures == [] <==> invalid == map[]
    {
      var pid := infos[k].pid;
      Sequences.TakeNext(infos, k);
      BadOneMore(infos[..k], infos[k], seen, invalid);
      if (pid <= 0 || pid in seen) && pid !in invalid {
        var failure := if pid <= 0 then InvalidPid else ConflictingPid;
        invalid := invalid[pid := FailureText(failure)];
        failures := failures + [failure];
        assert pid in invalid;
      }
      seen := seen + {pid};
    }
    Sequences.TakeAll(infos);
  }

  // ---------------------------------------------------------------- routing

  /** What one record of the listing amounts to: its evidence, the worktrees it is inside of, and whether containment
      in some worktree could not be decided. */
  datatype Mark = Mark(evidence: ProcessEvidence, matched: seq<string>, broken: bool) {
    /** The record leaves something unknown. */
    predicate Doubtful() { broken || evidence.state == Unknown }

    /** It concerns every worktree: undecided, or unknown and nowhere inside. */
    predicate Global() { broken || (evidence.state == Unknown && matched == []) }

    /** The record's evidence, unknown with a reason; nothing is added to a record that could be placed. */
    predicate Explains(e: ProcessEvidence) {
      e.state == Unknown && e.error != "" && e == evidence.(state := Unknown, error := e.error)
      && (!broken ==> e == evidence)
    }

    /** An unknown record says why it is. */
    predicate Lawful() {
      evidence.state == Unknown ==> evidence.error != ""
    }
  }

  function Repeat(e: ProcessEvidence, n: nat): (r: seq<ProcessEvidence>)
    ensures |r| == n && forall i :: 0 <= i < n ==> r[i] == e
  {
    seq(n, i => e)
  }

  function Occurrences(keys: seq<string>, key: string): nat { multiset(keys)[key] }

  /** What a record adds to the list of this worktree. */
  function Added(mark: Mark, key: string): seq<ProcessEvidence> {
    if mark.broken then [] else Repeat(mark.evidence, Occurrences(mark.matched, key))
  }

  /** What the records put into the list of this worktree, in order. */
  function RoutedTo(marks: seq<Mark>, key: string): seq<ProcessEvidence> {
    if marks == [] then [] else RoutedTo(marks[..|marks| - 1], key) + Added(marks[|marks| - 1], key)
  }

  /** The records that concern every worktree, in order. */
  function Everywhere(marks: seq<Mark>): seq<Mark> {
    if marks == [] then []
    else Everywhere(marks[..|marks| - 1]) + (if marks[|marks| - 1].Global() then [marks[|marks| - 1]] else [])
  }

  /** The last record with this number that leaves something unknown. */
  function LastDoubtful(marks: seq<Mark>, pid: int): Option<Mark> {
    if marks == [] then None
    else
      var last := marks[|marks| - 1];
      if last.evidence.pid == pid && last.Doubtful() then Some(last) else LastDoubtful(marks[..|marks| - 1], pid)
  }

  function OfWorktree(c: Collection, key: string): seq<ProcessEvidence> {
    if key in c.byWorktree then c.byWorktree[key] else []
  }

  ghost predicate WorktreeAccounted(initial: map<string, seq<ProcessEvidence>>, c: Collection, marks: seq<Mark>,
                                    key: string) {
    OfWorktree(c, key) == (if key in initial then initial[key] else []) + RoutedTo(marks, key)
  }

  ghost predicate GlobalAt(global: seq<ProcessEvidence>, marks: seq<Mark>, i: nat) {
    i < |global| && i < |Everywhere(marks)| && Everywhere(marks)[i].Explains(global[i])
  }

  ghost predicate GlobalAccounted(global: seq<ProcessEvidence>, marks: seq<Mark>) {
    && |global| == |Everywhere(marks)|
    && (forall i: nat {:trigger GlobalAt(global, marks, i)} :: i < |global| ==> GlobalAt(global, marks, i))
  }

  /** The entry for this number is the last record that leaves something unknown about it. */
  ghost predicate DoubtAccounted(uninspectable: map<int, ProcessEvidence>, marks: seq<Mark>, pid: int) {
    var mark := LastDoubtful(marks, pid);
    (pid in uninspectable <==> mark.Some?) && (pid in uninspectable ==> mark.value.Explains(uninspectable[pid]))
  }

  /** Every record is where it belongs, and nothing else is anywhere. */
  ghost predicate Accounted(initial: map<string, seq<ProcessEvidence>>, c: Collection, marks: seq<Mark>) {
    && (forall key {:trigger WorktreeAccounted(initial, c, marks, key)} :: WorktreeAccounted(initial, c, marks, key))
    && GlobalAccounted(c.globalUnknown, marks)
    && (forall pid {:trigger DoubtAccounted(c.uninspectable, marks, pid)} ::
          DoubtAccounted(c.uninspectable, marks, pid))
  }

  lemma GlobalNext(global: seq<ProcessEvidence>, marks: seq<Mark>, mark: Mark, e: ProcessEvidence)
    requires GlobalAccounted(global, marks) && (mark.Global() ==> mark.Explains(e))
    ensures GlobalAccounted(if mark.Global() then global + [e] else global, marks + [mark])
  {
    var after, more := if mark.Global() then global + [e] else global, marks + [mark];
    Sequences.Snoc(marks, mark);
    forall i: nat {:trigger GlobalAt(after, more, i)} | i < |after| ensures GlobalAt(after, more, i) {
      if i < |global| { assert GlobalAt(global, marks, i); }
    }
  }

  lemma DoubtNext(uninspectable: map<int, ProcessEvidence>, marks: seq<Mark>, mark: Mark, e: ProcessEvidence, pid: int)
    requires DoubtAccounted(uninspectable, marks, pid) && (mark.Doubtful() ==> mark.Explains(e))
    ensures DoubtAccounted(if mark.Doubtful() then uninspectable[mark.evidence.pid := e] else uninspectable,
                           marks + [mark], pid)
  {
    Sequences.Snoc(marks, mark);
  }

  /** What record `mark` added to this worktree's list. */
  ghost predicate Grown(c: Collection, r: Collection, mark: Mark, key: string) {
    OfWorktree(r, key) == OfWorktree(c, key) + Added(mark, key)
  }

  lemma WorktreeNext(initial: map<string, seq<ProcessEvidence>>, c: Collection, r: Collection, marks: seq<Mark>,
                     mark: Mark, key: string)
    requires WorktreeAccounted(initial, c, marks, key) && Grown(c, r, mark, key)
    ensures WorktreeAccounted(initial, r, marks + [mark], key)
  {
    Sequences.Snoc(marks, mark);
    Sequences.Associate(if key in initial then initial[key] else [], RoutedTo(marks, key), Added(mark, key));
  }

  /** The next record in its places keeps everything accounted for. */
  lemma AccountedNext(initial: map<string, seq<ProcessEvidence>>, c: Collection, r: Collection, marks: seq<Mark>,
                      mark: Mark, e: ProcessEvidence)
    requires Accounted(initial, c, marks) && (mark.Doubtful() ==> mark.Explains(e))
    requires forall key {:trigger Grown(c, r, mark, key)} :: Grown(c, r, mark, key)
    requires r.globalUnknown == if mark.Global() then c.globalUnknown + [e] else c.globalUnknown
    requires r.uninspectable == if mark.Doubtful() then c.uninspectable[mark.evidence.pid := e] else c.uninspectable
    ensures Accounted(initial, r, marks + [mark])
  {
    var more := marks + [mark];
    GlobalNext(c.globalUnknown, marks, mark, e);
    forall pid {:trigger DoubtAccounted(r.uninspectable, more, pid)}
      ensures DoubtAccounted(r.uninspectable, more, pid)
    {
      assert DoubtAccounted(c.uninspectable, marks, pid);
      DoubtNext(c.uninspectable, marks, mark, e, pid);
    }
    forall key {:trigger WorktreeAccounted(initial, r, more, key)} ensures WorktreeAccounted(initial, r, more, key) {
      assert WorktreeAccounted(initial, c, marks, key) && Grown(c, r, mark, key);
      WorktreeNext(initial, c, r, marks, mark, key);
    }
  }

  lemma OccurrencesNext(keys: seq<string>, last: string, key: string, e: ProcessEvidence)
    ensures Repeat(e, Occurrences(keys + [last], key))
            == Repeat(e, Occurrences(keys, key)) + (if key == last then [e] else [])
  {
  }

  /** The worktree's list got the record once for every time it is among the keys. */
  ghost predicate Appended(c: Collection, r: Collection, keys: seq<string>, e: ProcessEvidence, key: string) {
    OfWorktree(r, key) == OfWorktree(c, key) + Repeat(e, Occurrences(keys, key))
  }

  lemma AppendedOneMore(c: Collection, before: Collection, after: Collection, keys: seq<string>, last: string,
                        e: ProcessEvidence, key: string)
    requires Appended(c, before, keys, e, key)
    requires OfWorktree(after, key) == OfWorktree(before, key) + (if key == last then [e] else [])
    ensures Appended(c, after, keys + [last], e, key)
  {
    OccurrencesNext(keys, last, key, e);
    Sequences.Associate(OfWorktree(c, key), Repeat(e, Occurrences(keys, key)), if key == last then [e] else []);
  }

  /** Appending a record to the lists of the worktrees it is inside of. */
  method AppendTo(c: Collection, keys: seq<string>, evidence: ProcessEvidence) returns (r: Collection)
    ensures r == c.(byWorktree := r.byWorktree)
    ensures forall key {:trigger Appended(c, r, keys, evidence, key)} :: Appended(c, r, keys, evidence, key)
  {
    r := c;
    for k := 0 to |keys|
      invariant r == c.(byWorktree := r.byWorktree)
      invariant forall key {:trigger Appended(c, r, keys[..k], evidence, key)} ::
                  Appended(c, r, keys[..k], evidence, key)
    {
      ghost var before := r;
      r := r.(byWorktree := r.byWorktree[keys[k] := OfWorktree(r, keys[k]) + [evidence]]);
      Sequences.TakeNext(keys, k);
      ghost var some := keys[..k] + [keys[k]];
      forall key {:trigger Appended(c, r, some, evidence, key)} ensures Appended(c, r, some, evidence, key) {
        assert Appended(c, before, keys[..k], evidence, key);
        AppendedOneMore(c, before, r, keys[..k], keys[k], evidence, key);
      }
    }
    Sequences.TakeAll(keys);
  }

  /** A record whose containment could not be decided concerns every worktree. */
  method RouteBroken(c: Collection, evidence: ProcessEvidence, errors: seq<string>, ghost mark: Mark,
                     ghost initial: map<string, seq<ProcessEvidence>>, ghost marks: seq<Mark>) returns (r: Collection)
    requires Accounted(initial, c, marks) && mark.broken && evidence == mark.evidence
    ensures Accounted(initial, r, marks + [mark]) && r.complete == c.complete
  {
    var text := (if evidence.error != "" then evidence.error + "; " else "") + "containment: " + JoinTexts(errors);
    var unknown := evidence.(state := Unknown, error := text);
    r := c.(uninspectable := c.uninspectable[evidence.pid := unknown], globalUnknown := c.globalUnknown + [unknown]);
    forall key {:trigger Grown(c, r, mark, key)} ensures Grown(c, r, mark, key) {
      assert OfWorktree(c, key) + [] == OfWorktree(c, key);
    }
    AccountedNext(initial, c, r, marks, mark, unknown);
  }

  /** A record that could be placed goes to the worktrees it is inside of, and everywhere if unknown and nowhere
      inside. */
  method RoutePlaced(c: Collection, evidence: ProcessEvidence, matched: seq<string>, ghost mark: Mark,
                     ghost initial: map<string, seq<ProcessEvidence>>, ghost marks: seq<Mark>) returns (r: Collection)
    requires Accounted(initial, c, marks) && mark == Mark(evidence, matched, false) && mark.Lawful()
    ensures Accounted(initial, r, marks + [mark]) && r.complete == c.complete
  {
    r := c;
    if evidence.state == Unknown {
      r := r.(uninspectable := r.uninspectable[evidence.pid := evidence]);
    }
    ghost var before := r;
    r := AppendTo(r, matched, evidence);
    ghost var after := r;
    if evidence.state == Unknown && |matched| == 0 {
      r := r.(globalUnknown := r.globalUnknown + [evidence]);
    }
    forall key {:trigger Grown(c, r, mark, key)} ensures Grown(c, r, mark, key) {
      assert Appended(before, after, matched, evidence, key);
    }
    AccountedNext(initial, c, r, marks, mark, evidence);
  }

  /** What the routing is about: the answers, the worktrees that could be resolved, the listing, and the process
      numbers found bad. */
  datatype Scene = Scene(world: World, roots: seq<Root>, infos: seq<Info>, invalid: map<int, string>) {
    function Record(k: nat): Info
      requires k < |infos|
    {
      var info := infos[k];
      if info.pid in invalid
      then info.(error := (if info.error != "" then info.error + "; " else "") + invalid[info.pid]) else info
    }

    function Evidence(k: nat): ProcessEvidence
      requires k < |infos|
    {
      EvidenceFor(world, world.records(k), Record(k))
    }

    function HintsOf(k: nat): seq<string>
      requires k < |infos|
    {
      Hints(world.records(k), Record(k), Evidence(k))
    }

    ghost function MarkOf(k: nat): Mark
      requires k < |infos|
    {
      Mark(Evidence(k), Matched(world.records(k), roots, HintsOf(k)),
           SomeUncertain(world.records(k), roots, HintsOf(k)))
    }

    /** What the first n records amount to. */
    ghost function Marks(n: nat): (marks: seq<Mark>)
      requires n <= |infos|
      ensures |marks| == n && forall k :: 0 <= k < n ==> marks[k] == MarkOf(k)
    {
      if n == 0 then [] else Marks(n - 1) + [MarkOf(n - 1)]
    }
  }

  /** One turn of the main loop: what becomes of record k. */
  method RouteRecord(scene: Scene, c: Collection, k: nat, ghost initial: map<string, seq<ProcessEvidence>>,
                     ghost marks: seq<Mark>)
      returns (r: Collection, ghost mark: Mark)
    requires k < |scene.infos| && Accounted(initial, c, marks)
    ensures mark == scene.MarkOf(k) && Accounted(initial, r, marks + [mark]) && r.complete == c.complete
  {
    mark := scene.MarkOf(k);
    var answers, info := scene.world.records(k), scene.Record(k);
    var evidence := EvidenceFor(scene.world, answers, info);
    ActiveExactlyWhenSound(scene.world, answers, info);
    var hints := [evidence.cwd];
    if evidence.state == Unknown {
      var more := ProcessPathHints(answers, info);
      hints := hints + more;
    }
    assert hints == scene.HintsOf(k);
    var matched, containmentErrors := ScanRoots(answers, scene.roots, hints);
    if |containmentErrors| != 0 {
      r := RouteBroken(c, evidence, containmentErrors, mark, initial, marks);
    } else {
      r := RoutePlaced(c, evidence, matched, mark, initial, marks);
    }
  }

  // ---------------------------------------------------------------- the whole collection

  ghost predicate DistinctPaths(worktrees: seq<Worktree>) {
    forall i, j :: 0 <= i < j < |worktrees| ==> worktrees[i].path != worktrees[j].path
  }

  /** Worktree i is a root under its path, or its list starts with why it is not. */
  ghost predicate ResolvedAt(world: World, worktrees: seq<Worktree>, roots: seq<Root>,
                             initial: map<string, seq<ProcessEvidence>>, i: nat)
    requires i < |worktrees|
  {
    var path := worktrees[i].path;
    path in initial &&
    match world.worktrees(i).CanonicalDirectory(path)
    case Fine(directory) => initial[path] == [] && Root(path, directory) in roots
    case Failed(text) => |initial[path]| == 1 && initial[path][0].state == Unknown && initial[path][0].error != ""
  }

  predicate RootOf(world: World, path: string, root: Root, i: nat) {
    path == root.key && world.worktrees(i).CanonicalDirectory(path) == Fine(root.canonical)
  }

  ghost predicate Resolved(world: World, worktrees: seq<Worktree>, roots: seq<Root>,
                           initial: map<string, seq<ProcessEvidence>>) {
    && (forall i :: 0 <= i < |worktrees| ==> ResolvedAt(world, worktrees, roots, initial, i))
    && (forall root <- roots :: exists i :: 0 <= i < |worktrees| && RootOf(world, worktrees[i].path, root, i))
  }

  /** The loop over the worktrees. */
  method ResolveRoots(world: World, worktrees: seq<Worktree>)
      returns (roots: seq<Root>, initial: map<string, seq<ProcessEvidence>>)
    ensures DistinctPaths(worktrees) ==> Resolved(world, worktrees, roots, initial)
  {
    roots, initial := [], map[];
    for k := 0 to |worktrees|
      invariant DistinctPaths(worktrees[..k]) ==> Resolved(world, worktrees[..k], roots, initial)
    {
      var path := worktrees[k].path;
      ghost var before, listed := roots, initial;
      initial := initial[path := []];
      match world.worktrees(k).CanonicalDirectory(path) {
        case Failed(text) =>
          initial := initial[path := [UnknownOf(world, "worktree path: " + text)]];
        case Fine(directory) =>
          roots := roots + [Root(path, directory)];
          assert roots[|before|] == Root(path, directory);
      }
      if DistinctPaths(worktrees[..k + 1]) {
        ResolvedOneMore(world, worktrees, k, before, listed, roots, initial);
      }
    }
    Sequences.TakeAll(worktrees);
  }

  lemma ResolvedOneMore(world: World, worktrees: seq<Worktree>, k: nat, before: seq<Root>,
                        listed: map<string, seq<ProcessEvidence>>, roots: seq<Root>,
                        initial: map<string, seq<ProcessEvidence>>)
    requires k < |worktrees| && DistinctPaths(worktrees[..k + 1])
    requires DistinctPaths(worktrees[..k]) ==> Resolved(world, worktrees[..k], before, listed)
    requires initial.Keys == listed.Keys + {worktrees[k].path}
    requires forall p <- listed :: p != worktrees[k].path ==> initial[p] == listed[p]
    requires ResolvedAt(world, worktrees, roots, initial, k) && before <= roots
    requires forall root <- roots :: root in before || RootOf(world, worktrees[k].path, root, k)
    ensures Resolved(world, worktrees[..k + 1], roots, initial)
  {
    var some, more := worktrees[..k], worktrees[..k + 1];
    assert forall i :: 0 <= i < k ==> some[i] == more[i] == worktrees[i];
    assert DistinctPaths(some);
    forall i | 0 <= i < |more| ensures ResolvedAt(world, more, roots, initial, i) {
      if i < k {
        assert ResolvedAt(world, some, before, listed, i) && more[i].path != more[k].path;
        match world.worktrees(i).CanonicalDirectory(some[i].path)
        case Fine(directory) => Sequences.InLonger(before, roots, Root(some[i].path, directory));
        case Failed(_) =>
      } else {
        assert more[k] == worktrees[k];
      }
    }
    forall root <- roots ensures exists i :: 0 <= i < |more| && RootOf(world, more[i].path, root, i) {
      if root in before {
        var i :| 0 <= i < |some| && RootOf(world, some[i].path, root, i);
        assert RootOf(world, more[i].path, root, i);
      } else {
        assert RootOf(world, more[k].path, root, k);
      }
    }
  }

  /** The main loop over the listing, which a cancellation may cut short. */
  method RouteAll(scene: Scene, start: Collection) returns (c: Collection, cancelled: bool, ghost n: nat)
    requires start.globalUnknown == [] && start.uninspectable == map[]
    ensures n <= |scene.infos| && (!cancelled ==> n == |scene.infos|)
    ensures Accounted(start.byWorktree, c, scene.Marks(n)) && c.complete == start.complete
  {
    c, cancelled := start, false;
    var k := 0;
    while k < |scene.infos|
      invariant k <= |scene.infos| && Accounted(start.byWorktree, c, scene.Marks(k)) && c.complete == start.complete
    {
      cancelled := *;
      if cancelled { break; }
      ghost var mark;
      c, mark := RouteRecord(scene, c, k, start.byWorktree, scene.Marks(k));
      k := k + 1;
    }
    n := k;
    if !cancelled { cancelled := *; }
  }

  /** What can go wrong with the enumeration as a whole. */
  datatype Failure = Canceled | NoSource | ListFailed | InvalidPid | ConflictingPid

  function FailureText(failure: Failure): (text: string)
    ensures text != ""
  {
    match failure
    case Canceled => "context canceled"
    case NoSource => "process source is unavailable"
    case ListFailed => "enumerate processes"
    case InvalidPid => "invalid process PID"
    case ConflictingPid => "conflicting process records for PID"
  }

  function FailureTexts(failures: seq<Failure>): (text: string)
    ensures failures != [] ==> text != ""
  {
    if failures == [] then ""
    else FailureText(failures[0]) + (if |failures| > 1 then "\n" + FailureTexts(failures[1..]) else "")
  }

  /** The collection without the record that says what went wrong with the enumeration. */
  function Records(c: Collection): Collection {
    if c.complete || c.globalUnknown == [] then c.(complete := true)
    else c.(complete := true, globalUnknown := c.globalUnknown[..|c.globalUnknown| - 1])
  }

  /** `finish`: what went wrong with the enumeration becomes one more unknown that concerns every worktree. */
  method Finish(world: World, c: Collection, failures: seq<Failure>) returns (r: Collection)
    requires c.complete
    ensures failures == [] ==> r == c
    ensures failures != [] ==>
              r == c.(complete := false, globalUnknown := r.globalUnknown) && Enumeration(r.globalUnknown)
    ensures r.complete <==> failures == []
    ensures Records(r) == c
  {
    r := c.(complete := |failures| == 0);
    if |failures| != 0 {
      var unknown := UnknownOf(world, FailureTexts(failures));
      r := r.(globalUnknown := c.globalUnknown + [unknown]);
      assert r.globalUnknown[|c.globalUnknown|] == unknown;
    }
  }

  /** Some global record says that the enumeration itself failed. */
  ghost predicate Enumeration(global: seq<ProcessEvidence>) {
    exists e <- global :: e.pid == 0 && e.state == Unknown && e.error != ""
  }

  const EMPTY := Collection(map[], map[], [], true)

  /** What a collection is about: the whole listing, unless there was none or the collector was stopped before. */
  ghost predicate Pictures(world: World, worktrees: seq<Worktree>, scene: Scene,
                           initial: map<string, seq<ProcessEvidence>>, n: nat, stopped: bool) {
    && scene.world == world && n <= |scene.infos|
    && (!stopped && world.source.Some? ==>
          && scene.infos == world.source.value.infos && n == |scene.infos|
          && BadPids(scene.infos, scene.invalid)
          && (DistinctPaths(worktrees) ==> Resolved(world, worktrees, scene.roots, initial)))
  }

  /** `Collect`: every record looked at is where it belongs, and the collection is complete exactly when the whole
      listing was looked at and nothing was wrong with it. */
  method Collect(world: World, worktrees: seq<Worktree>)
      returns (c: Collection, ghost scene: Scene, ghost initial: map<string, seq<ProcessEvidence>>, ghost n: nat,
               ghost stopped: bool)
    ensures Pictures(world, worktrees, scene, initial, n, stopped)
    ensures Accounted(initial, Records(c), scene.Marks(n))
    ensures c.complete <==>
              !stopped && world.source.Some? && !world.source.value.failed
              && forall info <- world.source.value.infos :: !BadPid(world.source.value.infos, info.pid)
    ensures !c.complete ==> Enumeration(c.globalUnknown)
  {
    scene, initial, n, stopped := Scene(world, [], [], map[]), map[], 0, true;
    var cancelled: bool := *;
    if cancelled {
      c := Finish(world, EMPTY, [Canceled]);
      return;
    }
    var roots, byWorktree := ResolveRoots(world, worktrees);
    initial, stopped := byWorktree, false;
    if world.source.None? {
      c := Finish(world, EMPTY.(byWorktree := byWorktree), [NoSource]);
      return;
    }
    var infos := world.source.value.infos;
    var failures := if world.source.value.failed then [ListFailed] else [];
    var invalid, more := FindBadPids(infos);
    var routes := Scene(world, roots, infos, invalid);
    scene := routes;
    c, cancelled, n := RouteAll(routes, EMPTY.(byWorktree := byWorktree));
    stopped := cancelled;
    c := Finish(world, c, failures + more + (if cancelled then [Canceled] else []));
    NoBadPids(infos, invalid);
  }

  lemma BadIsListed(infos: seq<Info>, pid: int)
    ensures BadPid(infos, pid) ==> exists info <- infos :: info.pid == pid
  {
    if BadPid(infos, pid) {
      var i :| 0 <= i < |infos| && infos[i].pid == pid;
      assert infos[i] in infos;
    }
  }

  lemma NoBadPids(infos: seq<Info>, invalid: map<int, string>)
    requires BadPids(infos, invalid)
    ensures invalid == map[] <==> forall info <- infos :: !BadPid(infos, info.pid)
  {
    if forall info <- infos :: !BadPid(infos, info.pid) {
      forall pid ensures pid !in invalid { BadIsListed(infos, pid); }
    }
  }
}
