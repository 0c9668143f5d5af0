/** Listing the running processes: one record for each, and on Darwin only when their identities held still. */
module ProcessSources {
  import opened Domain
  import opened FileSystem
  import opened ProcessCollector
  import Sequences

  /** The context of a call: once cancelled, it stays cancelled. */
  class Context {
    var cancelled: bool

    constructor () { cancelled := false; }

    method Err() returns (failed: bool)
      modifies this
      ensures old(cancelled) ==> cancelled
      ensures failed == cancelled
    {
      var now: bool := *;
      cancelled := cancelled || now;
      failed := cancelled;
    }
  }

  // ---------------------------------------------------------------- one process

  /** A value and a failure, as they are returned together. */
  datatype Reading<T> = Reading(value: T, failure: Option<string>)

  /** What can be read of one process. */
  datatype Readings = Readings(created: Reading<int>, executable: Reading<string>, cwd: Reading<string>,
                               commandLine: Reading<seq<string>>, owner: Reading<string>, name: Reading<string>)

  /** An enumerated process, and how to read it. */
  datatype Handle = Handle(pid: int, reader: Option<Readings>)

  predicate ValidText(text: string) { text != "" && NUL !in text }

  predicate ValidCommandLine(arguments: seq<string>) { forall argument <- arguments :: NUL !in argument }

  /** `time.UnixMilli` */
  function UnixMilli(milliseconds: int): Time { Time(UNIX_EPOCH.nanos + milliseconds * 1_000_000, "UTC") }

  predicate Present<T>(present: bool, r: Reading<T>) { r.failure == None && present }

  /** Everything about the process could be read and is well formed. */
  predicate Readable(r: Readings) {
    && Present(r.created.value > 0, r.created) && Present(AbsolutePath(r.executable.value), r.executable)
    && Present(AbsolutePath(r.cwd.value), r.cwd) && Present(ValidCommandLine(r.commandLine.value), r.commandLine)
    && Present(ValidText(r.owner.value), r.owner) && Present(ValidText(r.name.value), r.name)
  }

  /** Whose process it is, as far as both names are known. */
  function Relation(owner: Reading<string>, current: string, currentKnown: bool): OwnerRelation {
    if owner.failure.Some? || !currentKnown || !ValidText(owner.value) || !ValidText(current) then OwnerUnknown
    else if owner.value == current then OwnerSame else OwnerOther
  }

  /** A record that holds what was read; it counts as inspected when nothing at all went wrong. */
  ghost predicate Inspected(pid: int, r: Readings, current: string, currentKnown: bool, interrupted: bool, info: Info) {
    && info.pid == pid
    && info.createdAt == (if r.created.value > 0 then UnixMilli(r.created.value) else NO_TIME)
    && info.executable == r.executable.value && info.cwd == r.cwd.value && info.commandLine == r.commandLine.value
    && info.owner == r.owner.value
    && info.ownerRelation == Relation(r.owner, current, currentKnown)
    && (info.inspectable <==> Readable(r) && currentKnown && !interrupted)
    && (info.error == "" <==> info.inspectable)
  }

  /** One more problem with a field, if there is one. */
  function Noted<T>(problems: seq<string>, field: string, present: bool, r: Reading<T>): seq<string> {
    if r.failure.Some? then problems + [field + ": " + r.failure.value]
    else if !present then problems + [field + " is unavailable or malformed"]
    else problems
  }

  lemma NotedWhenWrong<T>(problems: seq<string>, field: string, present: bool, r: Reading<T>)
    requires field != "" && "" !in problems
    ensures "" !in Noted(problems, field, present, r)
    ensures Noted(problems, field, present, r) == [] <==> problems == [] && Present(present, r)
  {
  }

  lemma JoinedEmpty(texts: seq<string>)
    requires "" !in texts
    ensures JoinTexts(texts) == "" <==> texts == []
  {
    if texts != [] { assert texts[0] in texts; }
  }

  /** `inspectProcess` */
  method InspectProcess(ctx: Context, pid: int, r: Readings, current: string, currentFailure: Option<string>)
      returns (info: Info)
    modifies ctx
    ensures old(ctx.cancelled) ==> ctx.cancelled
    ensures Inspected(pid, r, current, currentFailure == None, ctx.cancelled, info)
  {
    var createdAt := if r.created.value > 0 then UnixMilli(r.created.value) else NO_TIME;
    var problems := NoteReadings(r);
    var owner := Reading((), currentFailure);
    NotedWhenWrong(problems, "current owner", true, owner);
    problems := Noted(problems, "current owner", true, owner);
    NotedWhenWrong(problems, "name", ValidText(r.name.value), r.name);
    problems := Noted(problems, "name", ValidText(r.name.value), r.name);
    var interrupted := ctx.Err();
    var inspection := Reading((), if interrupted then Some("context is done") else None);
    NotedWhenWrong(problems, "inspection", true, inspection);
    problems := Noted(problems, "inspection", true, inspection);
    JoinedEmpty(problems);
    info := Info(pid, createdAt, r.executable.value, r.commandLine.value, r.cwd.value, r.owner.value,
                 Relation(r.owner, current, currentFailure == None), |problems| == 0, JoinTexts(problems));
  }

  /** The problems with the fields, up to the owner. */
  method NoteReadings(r: Readings) returns (problems: seq<string>)
    ensures "" !in problems
    ensures problems == [] <==>
      && Present(r.created.value > 0, r.created) && Present(AbsolutePath(r.executable.value), r.executable)
      && Present(AbsolutePath(r.cwd.value), r.cwd) && Present(ValidCommandLine(r.commandLine.value), r.commandLine)
      && Present(ValidText(r.owner.value), r.owner)
  {
    problems := [];
    NotedWhenWrong(problems, "creation time", r.created.value > 0, r.created);
    problems := Noted(problems, "creation time", r.created.value > 0, r.created);
    NotedWhenWrong(problems, "executable", AbsolutePath(r.executable.value), r.executable);
    problems := Noted(problems, "executable", AbsolutePath(r.executable.value), r.executable);
    NotedWhenWrong(problems, "cwd", AbsolutePath(r.cwd.value), r.cwd);
    problems := Noted(problems, "cwd", AbsolutePath(r.cwd.value), r.cwd);
    NotedWhenWrong(problems, "command line", ValidCommandLine(r.commandLine.value), r.commandLine);
    problems := Noted(problems, "command line", ValidCommandLine(r.commandLine.value), r.commandLine);
    NotedWhenWrong(problems, "owner", ValidText(r.owner.value), r.owner);
    problems := Noted(problems, "owner", ValidText(r.owner.value), r.owner);
  }

  // ---------------------------------------------------------------- one record per enumerated process

  /** What enumerating gives: the processes, the process numbers, and who is asking. */
  datatype Enumeration = Enumeration(handles: seq<Handle>, listFailed: bool, pids: Option<seq<int>>,
                                     current: Reading<string>)

  predicate Enumerated(handles: seq<Handle>, pid: int) { exists h <- handles :: h.pid == pid }

  /** The numbers that were listed but not enumerated as processes, each once. */
  ghost predicate Missing(handles: seq<Handle>, pids: seq<int>, extra: seq<Info>) {
    && (forall i, j :: 0 <= i < j < |extra| ==> extra[i].pid != extra[j].pid)
    && (forall i ::
          0 <= i < |extra| ==> extra[i].pid in pids && !Enumerated(handles, extra[i].pid) && !extra[i].inspectable)
    && (forall pid <- pids :: Enumerated(handles, pid) || exists info <- extra :: info.pid == pid)
  }

  /** Every process has its record, in order; then come the missing ones. */
  ghost predicate Covered(e: Enumeration, infos: seq<Info>) {
    && |infos| >= |e.handles|
    && (forall i :: 0 <= i < |e.handles| ==> infos[i].pid == e.handles[i].pid)
    && Missing(e.handles, if e.pids.Some? then e.pids.value else [], infos[|e.handles|..])
  }

  function CurrentKnown(current: Reading<string>): bool { current.failure == None && ValidText(current.value) }

  ghost predicate InspectedAt(e: Enumeration, infos: seq<Info>, i: nat) {
    && i < |infos| && i < |e.handles| && e.handles[i].reader.Some?
    && Inspected(e.handles[i].pid, e.handles[i].reader.value, e.current.value, CurrentKnown(e.current), false, infos[i])
  }

  /** Every process was read, and no record is about anything else. */
  ghost predicate AllInspected(e: Enumeration, infos: seq<Info>) {
    |infos| == |e.handles| && forall i: nat {:trigger InspectedAt(e, infos, i)} ::
        i < |e.handles| ==> InspectedAt(e, infos, i)
  }

  /** The enumeration contradicts itself nowhere. */
  ghost predicate Consistent(e: Enumeration) {
    && !e.listFailed && e.pids.Some? && e.pids.value != []
    && (forall h <- e.handles :: h.reader.Some?)
    && (forall pid <- e.pids.value :: Enumerated(e.handles, pid))
  }

  function FailedInfo(pid: int, text: string): Info {
    Info(pid, NO_TIME, "", [], "", "", OwnerUnknown, false, text)
  }

  /** The first loop: one record per process. */
  method InspectAll(ctx: Context, e: Enumeration, currentFailure: Option<string>)
      returns (infos: seq<Info>, complete: bool)
    requires !ctx.cancelled ==> (currentFailure == None <==> CurrentKnown(e.current))
    modifies ctx
    ensures old(ctx.cancelled) ==> ctx.cancelled
    ensures |infos| == |e.handles| && forall i :: 0 <= i < |infos| ==> infos[i].pid == e.handles[i].pid
    ensures complete || ctx.cancelled <==> ctx.cancelled || forall h <- e.handles :: h.reader.Some?
    ensures complete && !ctx.cancelled ==> AllInspected(e, infos)
  {
    infos, complete := [], true;
    for k := 0 to |e.handles|
      invariant old(ctx.cancelled) ==> ctx.cancelled
      invariant |infos| == k && forall i :: 0 <= i < k ==> infos[i].pid == e.handles[i].pid
      invariant complete ==> ctx.cancelled || forall i :: 0 <= i < k ==> e.handles[i].reader.Some?
      invariant !complete ==> exists i :: 0 <= i < k && e.handles[i].reader.None?
      invariant complete && !ctx.cancelled ==> forall i: nat {:trigger InspectedAt(e, infos, i)} :: i < k ==>
                  InspectedAt(e, infos, i)
    {
      ghost var before := infos;
      var handle := e.handles[k];
      var done := ctx.Err();
      if done {
        infos := infos + [FailedInfo(handle.pid, "context is done")];
      } else if handle.reader.None? {
        complete := false;
        infos := infos + [FailedInfo(handle.pid, "process is missing an inspection handle")];
      } else {
        var info := InspectProcess(ctx, handle.pid, handle.reader.value, e.current.value, currentFailure);
        infos := infos + [info];
        if complete && !ctx.cancelled {
          forall i: nat | i < k + 1 ensures InspectedAt(e, infos, i) {
            if i < k { assert InspectedAt(e, before, i); }
          }
        }
      }
    }
    if complete && !ctx.cancelled {
      forall h | h in e.handles ensures h.reader.Some? {
        var i :| 0 <= i < |e.handles| && e.handles[i] == h;
      }
    }
  }

  /** The second loop: one record for each number that is listed but not enumerated. */
  method AddMissing(handles: seq<Handle>, pids: seq<int>) returns (extra: seq<Info>)
    ensures Missing(handles, pids, extra)
    ensures extra == [] <==> forall pid <- pids :: Enumerated(handles, pid)
  {
    var seen := set h <- handles :: h.pid;
    extra := [];
    for k := 0 to |pids|
      invariant Missing(handles, pids[..k], extra)
      invariant forall pid :: pid in seen <==> Enumerated(handles, pid) || exists info <- extra :: info.pid == pid
      invariant extra == [] ==> forall pid <- pids[..k] :: Enumerated(handles, pid)
      invariant extra != [] ==> exists pid <- pids :: !Enumerated(handles, pid)
    {
      Sequences.TakeNext(pids, k);
      ghost var before := extra;
      var pid := pids[k];
      assert pid in pids;
      if pid !in seen {
        seen := seen + {pid};
        var info := FailedInfo(pid, "process is missing from process enumeration");
        MissingOneMore(handles, pids, k, extra, info);
        extra := extra + [info];
        assert extra[|before|] == info && forall i :: 0 <= i < |before| ==> extra[i] == before[i];
        assert forall x :: x in extra <==> x in before || x == info;
      }
    }
    Sequences.TakeAll(pids);
  }

  lemma MissingOneMore(handles: seq<Handle>, pids: seq<int>, k: nat, extra: seq<Info>, info: Info)
    requires k < |pids| && Missing(handles, pids[..k], extra) && info.pid == pids[k] && !info.inspectable
    requires !Enumerated(handles, info.pid) && forall x <- extra :: x.pid != info.pid
    ensures Missing(handles, pids[..k + 1], extra + [info])
  {
    Sequences.TakeNext(pids, k);
    var more := extra + [info];
    forall i, j | 0 <= i < j < |more| ensures more[i].pid != more[j].pid {
      if j == |extra| { assert extra[i] in extra; }
    }
    forall x | x in extra || x == info ensures x in more { Sequences.InMore(extra, info, x); }
  }

  /** `GopsutilSource.List`. Unless it is stopped before it begins, every process that was enumerated or listed has a
      record; it succeeds exactly when nothing was missing, and then every record was read from its own process. */
  method ListProcesses(ctx: Context, e: Enumeration) returns (infos: seq<Info>, ok: bool, ghost begun: bool)
    modifies ctx
    ensures old(ctx.cancelled) ==> ctx.cancelled
    ensures begun || ctx.cancelled
    ensures begun ==> Covered(e, infos) || (ctx.cancelled && Covered(e.(pids := None), infos))
    ensures ok <==> !ctx.cancelled && Consistent(e)
    ensures ok ==> AllInspected(e, infos)
  {
    var done := ctx.Err();
    if done { return [], false, false; }
    begun := true;
    var complete := !e.listFailed;
    var pids: seq<int> := [];
    done := ctx.Err();
    ghost var listed := if done then e.(pids := None) else e;
    if done || e.pids.None? {
      complete := false;
    } else {
      pids := e.pids.value;
      if |pids| == 0 { complete := false; }
    }
    done := ctx.Err();
    var currentFailure: Option<string> :=
      if done then Some("context is done") else if e.current.failure.Some? then e.current.failure
      else if !ValidText(e.current.value) then Some("current owner is unavailable or malformed") else None;
    var allRead;
    infos, allRead := InspectAll(ctx, e, currentFailure);
    var extra := AddMissing(e.handles, pids);
    ghost var read := infos;
    infos := infos + extra;
    assert infos[|e.handles|..] == extra && infos[..|e.handles|] == read;
    done := ctx.Err();
    ok := complete && allRead && |extra| == 0 && !done;
    assert Covered(listed, infos);
    if ok { assert infos == read; }
  }

  // ---------------------------------------------------------------- Darwin: the same processes before and after

  const PROCESS_LIMIT := 65536
  const RUNNING := 2
  const ZOMBIE := 5
  const SYSTEM: bv32 := 0x200

  /** One record of the kernel's process table. */
  datatype DarwinProcess = DarwinProcess(pid: int, parentPid: int, created: Time, uid: nat, name: string, state: int,
                                         flags: bv32) {
    predicate Kernel() {
      parentPid == 0 && uid == 0 && flags & SYSTEM != 0 && state == RUNNING && name == "kernel_task"
    }

    predicate Valid() {
      && pid >= 0 && created.After(UNIX_EPOCH) && ValidText(name) && 1 <= state <= ZOMBIE
      && (pid == 0 ==> Kernel())
    }

    predicate Live() { pid != 0 && state != ZOMBIE }
  }

  /** The records are about the same process: nothing that identifies it differs. */
  predicate SameIdentity(a: DarwinProcess, b: DarwinProcess) {
    && a.pid == b.pid && a.created.nanos == b.created.nanos && a.uid == b.uid && a.parentPid == b.parentPid
    && a.name == b.name
    && a.flags & SYSTEM == b.flags & SYSTEM && (a.state == ZOMBIE <==> b.state == ZOMBIE)
  }

  ghost predicate DistinctPids(records: seq<DarwinProcess>) {
    forall i, j :: 0 <= i < j < |records| ==> records[i].pid != records[j].pid
  }

  /** A whole process table: every process once, and the kernel among them. */
  ghost predicate ValidSnapshot(records: seq<DarwinProcess>) {
    && 2 <= |records| <= PROCESS_LIMIT && DistinctPids(records)
    && (forall r <- records :: r.Valid())
    && (exists r <- records :: r.pid == 0)
  }

  function Pids(records: seq<DarwinProcess>): set<int> { set r <- records :: r.pid }

  /** `validateDarwinSnapshot` */
  method ValidateDarwinSnapshot(records: seq<DarwinProcess>) returns (ok: bool)
    ensures ok <==> ValidSnapshot(records)
  {
    if |records| < 2 || |records| > PROCESS_LIMIT { return false; }
    var seen: set<int> := {};
    for k := 0 to |records|
      invariant seen == Pids(records[..k])
      invariant DistinctPids(records[..k])
      invariant forall i :: 0 <= i < k ==> records[i].Valid()
    {
      Sequences.TakeNext(records, k);
      var record := records[k];
      if record.pid in seen {
        var i :| 0 <= i < k && records[..k][i].pid == record.pid;
        assert records[i].pid == records[k].pid;
        return false;
      }
      if !record.Valid() {
        assert record in records;
        return false;
      }
      PidsOneMore(records[..k], record);
      seen := seen + {record.pid};
    }
    Sequences.TakeAll(records);
    ok := 0 in seen;
  }

  lemma PidsOneMore(records: seq<DarwinProcess>, r: DarwinProcess)
    ensures Pids(records + [r]) == Pids(records) + {r.pid}
    ensures DistinctPids(records) && r.pid !in Pids(records) ==> DistinctPids(records + [r])
  {
    var more := records + [r];
    forall x ensures x in more <==> x in records || x == r { Sequences.InMore(records, r, x); }
    if DistinctPids(records) && r.pid !in Pids(records) {
      forall i, j | 0 <= i < j < |more| ensures more[i].pid != more[j].pid {
        if j == |records| { assert records[i] in records; }
      }
    }
  }

  lemma LastIsNew(records: seq<DarwinProcess>)
    requires records != [] && DistinctPids(records)
    ensures records[|records| - 1].pid !in Pids(records[..|records| - 1])
  {
    var init, last := records[..|records| - 1], records[|records| - 1];
    forall r | r in init ensures r.pid != last.pid {
      var i :| 0 <= i < |init| && init[i] == r;
      assert records[i].pid != records[|records| - 1].pid;
    }
  }

  /** There are as many numbers as records when no number occurs twice. */
  lemma {:induction false} PidsCounted(records: seq<DarwinProcess>)
    requires DistinctPids(records)
    ensures |Pids(records)| == |records|
  {
    if records == [] {
      assert Pids(records) == {};
    } else {
      var init, last := records[..|records| - 1], records[|records| - 1];
      PidsCounted(init);
      LastIsNew(records);
      Sequences.LastOf(records);
      PidsOneMore(init, last);
    }
  }

  /** Every record of the second table has one of the same identity in the first. */
  ghost predicate LookedUp(before: seq<DarwinProcess>, after: seq<DarwinProcess>) {
    forall a <- after :: exists b <- before :: SameIdentity(b, a)
  }

  /** The same processes run in both tables. */
  ghost predicate SameProcesses(before: seq<DarwinProcess>, after: seq<DarwinProcess>) {
    && Pids(before) == Pids(after)
    && forall b <- before, a <- after :: b.pid == a.pid ==> SameIdentity(b, a)
  }

  lemma UniqueRecord(records: seq<DarwinProcess>, a: DarwinProcess, b: DarwinProcess)
    requires DistinctPids(records) && a in records && b in records && a.pid == b.pid
    ensures a == b
  {
    var i :| 0 <= i < |records| && records[i] == a;
    var j :| 0 <= j < |records| && records[j] == b;
  }

  /** Looking up in one direction is enough: with equal lengths and no duplicates it makes the tables name the same
      processes. */
  lemma OneWayIsEnough(before: seq<DarwinProcess>, after: seq<DarwinProcess>)
    requires DistinctPids(before) && DistinctPids(after)
    ensures |before| == |after| && LookedUp(before, after) <==> SameProcesses(before, after)
  {
    PidsCounted(before);
    PidsCounted(after);
    if |before| == |after| && LookedUp(before, after) {
      forall pid | pid in Pids(after) ensures pid in Pids(before) {
        var a :| a in after && a.pid == pid;
        var b :| b in before && SameIdentity(b, a);
      }
      Sequences.SubsetOfSameSize(Pids(after), Pids(before));
      forall b, a | b in before && a in after && b.pid == a.pid ensures SameIdentity(b, a) {
        var c :| c in before && SameIdentity(c, a);
        UniqueRecord(before, b, c);
      }
    }
    if SameProcesses(before, after) {
      forall a | a in after ensures exists b <- before :: SameIdentity(b, a) {
        assert a.pid in Pids(before);
        var b :| b in before && b.pid == a.pid;
        assert SameIdentity(b, a);
      }
    }
  }

  /** Without the check for duplicates, a process could go unnoticed. */
  lemma DuplicatesWouldHide(a: DarwinProcess, b: DarwinProcess)
    requires a.pid != b.pid
    ensures |[a, b]| == |[a, a]| && LookedUp([a, b], [a, a]) && !SameProcesses([a, b], [a, a])
  {
    assert a in [a, b] && SameIdentity(a, a);
    assert b in [a, b] && b.pid in Pids([a, b]) && b.pid !in Pids([a, a]);
  }

  ghost predicate Indexed(identities: map<int, DarwinProcess>, records: seq<DarwinProcess>) {
    forall pid, r :: pid in identities && identities[pid] == r <==> r in records && r.pid == pid
  }

  lemma IndexedOneMore(identities: map<int, DarwinProcess>, records: seq<DarwinProcess>, r: DarwinProcess)
    requires Indexed(identities, records) && DistinctPids(records + [r])
    ensures Indexed(identities[r.pid := r], records + [r])
  {
    var more := records + [r];
    forall x ensures x in more <==> x in records || x == r { Sequences.InMore(records, r, x); }
    forall x | x in records ensures x.pid != r.pid {
      var i :| 0 <= i < |records| && records[i] == x;
      assert more[i].pid != more[|records|].pid;
    }
  }

  /** `sameDarwinProcesses`, for two valid tables. */
  method SameDarwinProcesses(before: seq<DarwinProcess>, after: seq<DarwinProcess>) returns (same: bool)
    requires ValidSnapshot(before) && ValidSnapshot(after)
    ensures same <==> SameProcesses(before, after)
  {
    OneWayIsEnough(before, after);
    if |before| != |after| { return false; }
    var identities: map<int, DarwinProcess> := map[];
    for k := 0 to |before|
      invariant Indexed(identities, before[..k])
    {
      Sequences.TakeNext(before, k);
      IndexedOneMore(identities, before[..k], before[k]);
      identities := identities[before[k].pid := before[k]];
    }
    Sequences.TakeAll(before);
    for k := 0 to |after|
      invariant forall i :: 0 <= i < k ==> exists b <- before :: SameIdentity(b, after[i])
    {
      var current := after[k];
      if current.pid !in identities || !SameIdentity(identities[current.pid], current) {
        assert current in after;
        forall b | b in before ensures !SameIdentity(b, current) {
          assert b.pid in identities && identities[b.pid] == b;
        }
        return false;
      }
      assert identities[current.pid] in before;
    }
    same := true;
  }

  // ---------------------------------------------------------------- sampling the processes of a Darwin system

  /** The world as the attempts see it: the two tables of each attempt, and what the processes say of themselves. */
  datatype Darwin = Darwin(tables: nat -> Option<seq<DarwinProcess>>,
                           paths: (nat, int) -> (Reading<string>, Reading<string>),
                           commandLines: (nat, int) -> Reading<seq<string>>, uid: int, digits: nat -> string) {
    /** `darwinReader`: creation time, owner and name come from the table; the rest is asked for. */
    function Reader(attempt: nat, r: DarwinProcess): Readings {
      Readings(Reading((r.created.nanos - UNIX_EPOCH.nanos) / 1_000_000, None), paths(attempt, r.pid).0,
               paths(attempt, r.pid).1, commandLines(attempt, r.pid), Reading(digits(r.uid), None),
               Reading(r.name, None))
    }

    function HandleOf(attempt: nat, r: DarwinProcess): Handle { Handle(r.pid, Some(Reader(attempt, r))) }

    function Owner(): string { digits(if uid >= 0 then uid else 0) }

    /** What is assumed of printed numbers. */
    ghost predicate Lawful() {
      && (forall n: nat :: ValidText(digits(n)))
      && (forall m: nat, n: nat :: digits(m) == digits(n) ==> m == n)
    }
  }

  /** The processes that are looked at: all but the kernel and the zombies. */
  function LiveRecords(records: seq<DarwinProcess>): seq<DarwinProcess> {
    if records == [] then []
    else
      var last := records[|records| - 1];
      LiveRecords(records[..|records| - 1]) + (if last.Live() then [last] else [])
  }

  lemma {:induction false} LiveMembers(records: seq<DarwinProcess>)
    ensures forall r :: r in LiveRecords(records) <==> r in records && r.Live()
  {
    if records != [] {
      var init, last := records[..|records| - 1], records[|records| - 1];
      LiveMembers(init);
      Sequences.LastOf(records);
      assert forall r :: r in records <==> r in init || r == last;
    }
  }

  /** Info i is about record i of the first table: its creation time, owner and name, and its own answers. */
  ghost predicate SampledAt(world: Darwin, attempt: nat, records: seq<DarwinProcess>, infos: seq<Info>, i: nat) {
    && i < |records| && i < |infos|
    && infos[i].pid == records[i].pid && infos[i].createdAt == records[i].created
    && Inspected(records[i].pid, world.Reader(attempt, records[i]), world.Owner(), true, false,
                 infos[i].(createdAt := AsInspected(world.Reader(attempt, records[i]))))
  }

  /** The creation time that inspecting gives, before the table's own is put in its place. */
  function AsInspected(r: Readings): Time { if r.created.value > 0 then UnixMilli(r.created.value) else NO_TIME }

  /** One record for each process that is looked at, in the order of the table. */
  ghost predicate Sampled(world: Darwin, attempt: nat, before: seq<DarwinProcess>, infos: seq<Info>) {
    |infos| == |LiveRecords(before)|
    && forall i: nat {:trigger SampledAt(world, attempt, LiveRecords(before), infos, i)} ::
         i < |infos| ==> SampledAt(world, attempt, LiveRecords(before), infos, i)
  }

  /** The sample of some attempt, between two tables that show the same processes. */
  ghost predicate Stable(world: Darwin, attempt: nat, infos: seq<Info>) {
    && attempt < 3 && world.tables(2 * attempt).Some? && world.tables(2 * attempt + 1).Some?
    && var before, after := world.tables(2 * attempt).value, world.tables(2 * attempt + 1).value;
    ValidSnapshot(before) && ValidSnapshot(after) && SameProcesses(before, after)
    && Sampled(world, attempt, before, infos)
  }

  function HandlesOf(world: Darwin, attempt: nat, records: seq<DarwinProcess>): (handles: seq<Handle>)
    ensures |handles| == |records|
    ensures forall i :: 0 <= i < |handles| ==> handles[i] == world.HandleOf(attempt, records[i])
  {
    seq(|records|, i requires 0 <= i < |records| => world.HandleOf(attempt, records[i]))
  }

  function PidList(records: seq<DarwinProcess>): (pids: seq<int>)
    ensures |pids| == |records| && forall i :: 0 <= i < |pids| ==> pids[i] == records[i].pid
  {
    seq(|records|, i requires 0 <= i < |records| => records[i].pid)
  }

  /** The creation times by process number. */
  ghost predicate Created(creation: map<int, Time>, records: seq<DarwinProcess>) {
    forall r <- records :: r.pid in creation && creation[r.pid] == r.created
  }

  lemma {:induction false} LiveDistinct(records: seq<DarwinProcess>)
    requires DistinctPids(records)
    ensures DistinctPids(LiveRecords(records))
  {
    if records != [] {
      var init, last := records[..|records| - 1], records[|records| - 1];
      LiveDistinct(init);
      LastIsNew(records);
      LiveMembers(init);
      PidsOneMore(LiveRecords(init), last);
    }
  }

  /** What the loop over the first table has prepared for the live ones among some records. */
  ghost predicate Prepared(world: Darwin, attempt: nat, live: seq<DarwinProcess>, handles: seq<Handle>, pids: seq<int>,
                           creation: map<int, Time>) {
    handles == HandlesOf(world, attempt, live) && pids == PidList(live) && Created(creation, live)
  }

  lemma PreparedNext(world: Darwin, attempt: nat, before: seq<DarwinProcess>, k: nat, handles: seq<Handle>,
                     pids: seq<int>, creation: map<int, Time>)
    requires k < |before| && DistinctPids(before)
             && Prepared(world, attempt, LiveRecords(before[..k]), handles, pids, creation)
    ensures LiveRecords(before[..k + 1]) == LiveRecords(before[..k]) + (if before[k].Live() then [before[k]] else [])
    ensures before[k].Live() ==>
      Prepared(world, attempt, LiveRecords(before[..k]) + [before[k]], handles + [world.HandleOf(attempt, before[k])],
               pids + [before[k].pid], creation[before[k].pid := before[k].created])
  {
    Sequences.TakeNext(before, k);
    Sequences.Snoc(before[..k], before[k]);
    CreatedOneMore(before, k, creation);
  }

  /** The loop over the first table. */
  method Prepare(world: Darwin, attempt: nat, before: seq<DarwinProcess>)
      returns (handles: seq<Handle>, pids: seq<int>, creation: map<int, Time>)
    requires DistinctPids(before)
    ensures Prepared(world, attempt, LiveRecords(before), handles, pids, creation)
  {
    handles, pids, creation := [], [], map[];
    for k := 0 to |before|
      invariant Prepared(world, attempt, LiveRecords(before[..k]), handles, pids, creation)
    {
      PreparedNext(world, attempt, before, k, handles, pids, creation);
      var record := before[k];
      if record.Live() {
        handles := handles + [world.HandleOf(attempt, record)];
        pids := pids + [record.pid];
        creation := creation[record.pid := record.created];
      } else {
        assert LiveRecords(before[..k]) + [] == LiveRecords(before[..k]);
      }
    }
    Sequences.TakeAll(before);
  }

  lemma CreatedOneMore(before: seq<DarwinProcess>, k: nat, creation: map<int, Time>)
    requires k < |before| && DistinctPids(before) && Created(creation, LiveRecords(before[..k]))
    ensures Created(creation[before[k].pid := before[k].created], LiveRecords(before[..k]) + [before[k]])
  {
    var live, record := LiveRecords(before[..k]), before[k];
    LiveMembers(before[..k]);
    forall r | r in live ensures r.pid != record.pid {
      var i :| 0 <= i < k && before[..k][i] == r;
      assert before[i].pid != before[k].pid;
    }
    forall x ensures x in live + [record] <==> x in live || x == record { Sequences.InMore(live, record, x); }
  }

  /** Putting the table's creation times in the place of what was read. */
  method SetCreated(infos: seq<Info>, creation: map<int, Time>) returns (dated: seq<Info>)
    ensures |dated| == |infos|
    ensures forall i :: 0 <= i < |infos| ==>
      dated[i] == infos[i].(createdAt := if infos[i].pid in creation then creation[infos[i].pid] else NO_TIME)
  {
    dated := infos;
    for k := 0 to |infos|
      invariant |dated| == |infos|
      invariant forall i :: 0 <= i < k ==>
        dated[i] == infos[i].(createdAt := if infos[i].pid in creation then creation[infos[i].pid] else NO_TIME)
      invariant forall i :: k <= i < |infos| ==> dated[i] == infos[i]
    {
      var pid := infos[k].pid;
      dated := dated[k := dated[k].(createdAt := if pid in creation then creation[pid] else NO_TIME)];
    }
  }

  lemma DatedIsSampled(world: Darwin, attempt: nat, records: seq<DarwinProcess>, e: Enumeration, infos: seq<Info>,
                       creation: map<int, Time>, dated: seq<Info>, i: nat)
    requires world.Lawful() && world.uid >= 0
    requires e == Enumeration(HandlesOf(world, attempt, records), false, Some(PidList(records)),
                              Reading(world.Owner(), None))
    requires Created(creation, records) && i < |records| && |infos| == |records| == |dated| && InspectedAt(e, infos, i)
    requires dated[i] == infos[i].(createdAt := if infos[i].pid in creation then creation[infos[i].pid] else NO_TIME)
    ensures SampledAt(world, attempt, records, dated, i)
  {
    var r := records[i];
    assert r in records && e.handles[i] == world.HandleOf(attempt, r);
    assert dated[i].(createdAt := AsInspected(world.Reader(attempt, r))) == infos[i];
  }

  /** The inspection of one attempt. */
  method TakeSample(ctx: Context, world: Darwin, attempt: nat, before: seq<DarwinProcess>)
      returns (infos: seq<Info>, ok: bool)
    requires world.Lawful() && world.uid >= 0 && ValidSnapshot(before)
    modifies ctx
    ensures old(ctx.cancelled) ==> ctx.cancelled
    ensures ok ==> Sampled(world, attempt, before, infos)
  {
    ghost var live := LiveRecords(before);
    var handles, pids, creation := Prepare(world, attempt, before);
    if |handles| == 0 { return [], true; }
    var e := Enumeration(handles, false, Some(pids), Reading(world.Owner(), None));
    ghost var begun;
    infos, ok, begun := ListProcesses(ctx, e);
    ghost var read := infos;
    infos := SetCreated(infos, creation);
    if ok {
      forall i: nat | i < |live| ensures SampledAt(world, attempt, live, infos, i) {
        assert InspectedAt(e, read, i);
        DatedIsSampled(world, attempt, live, e, read, creation, infos, i);
      }
    }
  }

  /** A table that could be read and is valid. */
  method ReadTable(world: Darwin, n: nat) returns (table: Option<seq<DarwinProcess>>)
    ensures table.Some? <==> world.tables(n).Some? && ValidSnapshot(world.tables(n).value)
    ensures table.Some? ==> table == world.tables(n)
  {
    table := world.tables(n);
    if table.None? { return; }
    var ok := ValidateDarwinSnapshot(table.value);
    if !ok { table := None; }
  }

  /** The processes changed while they were inspected. */
  ghost predicate Unstable(world: Darwin, attempt: nat) {
    && world.tables(2 * attempt).Some? && world.tables(2 * attempt + 1).Some?
    && !SameProcesses(world.tables(2 * attempt).value, world.tables(2 * attempt + 1).value)
  }

  datatype Attempt = Stopped | Changed | Settled

  /** One attempt: a table, the inspection, and another table. */
  method TryOnce(ctx: Context, world: Darwin, attempt: nat, previous: seq<Info>)
      returns (infos: seq<Info>, result: Attempt)
    requires world.Lawful() && world.uid >= 0 && attempt < 3
    modifies ctx
    ensures result == Settled ==> Stable(world, attempt, infos)
    ensures result == Changed ==> Unstable(world, attempt)
  {
    infos, result := previous, Stopped;
    var done := ctx.Err();
    if done { return; }
    var before := ReadTable(world, 2 * attempt);
    if before.None? { return; }
    var ok;
    infos, ok := TakeSample(ctx, world, attempt, before.value);
    if !ok { return; }
    var after := ReadTable(world, 2 * attempt + 1);
    if after.None? { return; }
    done := ctx.Err();
    if done { return; }
    var same := SameDarwinProcesses(before.value, after.value);
    result := if same then Settled else Changed;
  }

  /** `DarwinSource.List`: on success, the sample of one of at most three attempts, taken between two tables that show
      the same processes. */
  method ListDarwin(ctx: Context, world: Darwin) returns (infos: seq<Info>, ok: bool, ghost attempt: nat)
    requires world.Lawful()
    modifies ctx
    ensures ok ==> 0 <= world.uid < 0x1_0000_0000 && Stable(world, attempt, infos)
    ensures forall earlier: nat :: earlier < attempt ==> Unstable(world, earlier)
  {
    infos, ok, attempt := [], false, 0;
    if world.uid < 0 || world.uid >= 0x1_0000_0000 { return; }
    for k: nat := 0 to 3
      invariant attempt == k && !ok
      invariant forall earlier: nat :: earlier < k ==> Unstable(world, earlier)
    {
      var result;
      infos, result := TryOnce(ctx, world, k, infos);
      if result != Changed { return infos, result == Settled, k; }
      attempt := k + 1;
    }
  }

  /** A process of the table has a record with the table's creation time, marked as the caller's own when it is. */
  ghost predicate Recorded(world: Darwin, infos: seq<Info>, r: DarwinProcess) {
    exists info <- infos ::
        info.pid == r.pid && info.createdAt == r.created && (info.ownerRelation == OwnerSame <==> r.uid == world.uid)
  }

  /** What a record is about is still running. */
  ghost predicate Running(after: seq<DarwinProcess>, info: Info) {
    exists a <- after :: a.Live() && a.pid == info.pid && a.created.nanos == info.createdAt.nanos
  }

  lemma SampledIsRecorded(world: Darwin, attempt: nat, live: seq<DarwinProcess>, infos: seq<Info>, i: nat)
    requires world.Lawful() && world.uid >= 0 && SampledAt(world, attempt, live, infos, i)
    ensures Recorded(world, infos, live[i])
  {
    assert infos[i] in infos;
  }

  /** What a successful sample says: it has exactly one record for each process of both tables, the kernel and zombies
      excepted, dated by the table. */
  lemma StableSays(world: Darwin, attempt: nat, infos: seq<Info>)
    requires world.Lawful() && world.uid >= 0 && Stable(world, attempt, infos)
    ensures var before, after := world.tables(2 * attempt).value, world.tables(2 * attempt + 1).value;
      && (forall i, j :: 0 <= i < j < |infos| ==> infos[i].pid != infos[j].pid)
      && (forall r <- before :: r.Live() ==> Recorded(world, infos, r))
      && (forall info <- infos :: Running(after, info))
  {
    var before, after := world.tables(2 * attempt).value, world.tables(2 * attempt + 1).value;
    var live := LiveRecords(before);
    LiveMembers(before);
    LiveDistinct(before);
    forall i, j | 0 <= i < j < |infos| ensures infos[i].pid != infos[j].pid {
      assert SampledAt(world, attempt, live, infos, i) && SampledAt(world, attempt, live, infos, j);
    }
    forall r | r in before && r.Live() ensures Recorded(world, infos, r) {
      var i :| 0 <= i < |live| && live[i] == r;
      SampledIsRecorded(world, attempt, live, infos, i);
    }
    forall info | info in infos ensures Running(after, info) {
      var i :| 0 <= i < |infos| && infos[i] == info;
      assert SampledAt(world, attempt, live, infos, i) && live[i] in live;
      StillThere(before, after, live[i]);
    }
  }

  lemma StillThere(before: seq<DarwinProcess>, after: seq<DarwinProcess>, b: DarwinProcess)
    requires SameProcesses(before, after) && b in before && b.Live()
    ensures exists a <- after :: a.Live() && a.pid == b.pid && a.created.nanos == b.created.nanos
  {
    assert b.pid in Pids(after);
    var a :| a in after && a.pid == b.pid;
    assert SameIdentity(b, a);
  }
}
