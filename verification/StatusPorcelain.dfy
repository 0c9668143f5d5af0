/** The parser of `git status --porcelain=v2 -z` output, with the printer of that format as its specification.
    Strings are byte strings here: one character per byte. */
module StatusPorcelain {
  import opened Domain
  import opened FileSystem
  import opened Paths
  import Sequences

  const MAXIMUM_STATUS_UNTRACKED := 4096

  datatype Change = Ordinary | Renamed | Unmerged

  datatype Record =
    | Untracked(path: string)
    | Ignored(path: string)
    | Tracked(change: Change, code: string, submodule: string, modes: seq<string>, ids: seq<string>,
              score: string, path: string, source: string)

  // ---------------------------------------------------------------- the fields of a record

  predicate OneOf(allowed: string, c: char) { c in allowed }

  /** `validStatusCode` */
  predicate ValidStatusCode(change: Change, code: string) {
    && |code| == 2
    && if change == Unmerged then code in {"DD", "AU", "UD", "UA", "DU", "AA", "UU"}
       else var allowed := if change == Renamed then ".MADTRC" else ".MADT";
            OneOf(allowed, code[0]) && OneOf(allowed, code[1])
  }

  /** `validSubmoduleCode` */
  predicate ValidSubmoduleCode(code: string) {
    || code == "N..."
    || (|code| == 4 && code[0] == 'S' && OneOf(".C", code[1]) && OneOf(".M", code[2]) && OneOf(".U", code[3]))
  }

  /** `validPorcelainMode` */
  predicate ValidMode(mode: string, worktree: bool) {
    mode in {"000000", "100644", "100755", "120000", "160000"} || (mode == "040000" && worktree)
  }

  predicate HexDigit(c: char) { '0' <= c <= '9' || 'a' <= c <= 'f' || 'A' <= c <= 'F' }

  /** `validPorcelainObjectID` */
  predicate ValidObjectId(id: string) {
    (|id| == 40 || |id| == 64) && forall c <- id :: HexDigit(c)
  }

  predicate Digits(s: string) {
    s != "" && forall c <- s :: '0' <= c <= '9'
  }

  function DigitsValue(s: string): int {
    if s == "" then 0 else 10 * DigitsValue(s[..|s| - 1]) + (s[|s| - 1] as int - '0' as int)
  }

  /** `strconv.Atoi`; a value too large for a Go integer is far outside every range asked for here. */
  function Atoi(s: string): Option<int> {
    if s != "" && s[0] == '-' then (if Digits(s[1..]) then Some(-DigitsValue(s[1..])) else None)
    else if s != "" && s[0] == '+' then (if Digits(s[1..]) then Some(DigitsValue(s[1..])) else None)
    else if Digits(s) then Some(DigitsValue(s)) else None
  }

  /** `strconv.Itoa` of a number that is not negative. */
  function Itoa(n: nat): (s: string)
    ensures Digits(s) && DigitsValue(s) == n
  {
    if n < 10 then [(n + '0' as int) as char]
    else
      var s := Itoa(n / 10) + [(n % 10 + '0' as int) as char];
      assert s[..|s| - 1] == Itoa(n / 10);
      s
  }

  lemma AtoiItoa(n: nat)
    ensures Atoi(Itoa(n)) == Some(n)
  {
    assert Itoa(n)[0] in Itoa(n);
  }

  /** `validRenameScore` */
  predicate ValidRenameScore(code: string, score: string) {
    && |code| == 2 && |score| >= 2 && OneOf("RC", score[0])
    && (|| (code[0] == score[0] && OneOf(".MADT", code[1]))
        || (code[1] == score[0] && OneOf(".MADT", code[0])))
    && var percentage := Atoi(score[1..]);
       percentage.Some? && 0 <= percentage.value <= 100 && score[1..] == Itoa(percentage.value)
  }

  /** A score of this letter and percentage, where one half of the code is the letter and the other no letter. */
  predicate ScoreIs(code: string, score: string, letter: char, percentage: nat) {
    && OneOf("RC", letter) && percentage <= 100 && score == [letter] + Itoa(percentage) && |code| == 2
    && (|| (code[0] == letter && OneOf(".MADT", code[1])) || (code[1] == letter && OneOf(".MADT", code[0])))
  }

  /** The accepted scores are exactly R or C followed by the plain decimal form of 0 to 100. */
  lemma RenameScores(code: string, score: string)
    ensures ValidRenameScore(code, score) <==>
              exists letter: char, percentage: nat :: ScoreIs(code, score, letter, percentage)
  {
    if ValidRenameScore(code, score) {
      var percentage := Atoi(score[1..]).value;
      assert score == [score[0]] + score[1..];
      assert ScoreIs(code, score, score[0], percentage);
    }
    if exists letter: char, percentage: nat :: ScoreIs(code, score, letter, percentage) {
      var letter: char, percentage: nat :| ScoreIs(code, score, letter, percentage);
      AtoiItoa(percentage);
      assert score[1..] == Itoa(percentage);
    }
  }

  // ---------------------------------------------------------------- fields and records

  function Letter(change: Change): char {
    match change case Ordinary => '1' case Renamed => '2' case Unmerged => 'u'
  }

  function FieldCount(change: Change): nat {
    match change case Ordinary => 9 case Renamed => 10 case Unmerged => 11
  }

  function ModeEnd(change: Change): nat { if change == Unmerged then 7 else 6 }

  function IdEnd(change: Change): nat { if change == Unmerged then 10 else 8 }

  /** The words of a tracked record in printing order. */
  function Fields(r: Record): seq<string>
    requires r.Tracked?
  {
    [[Letter(r.change)], r.code, r.submodule] + r.modes + r.ids + (if r.change == Renamed then [r.score] else [])
        + [r.path]
  }

  function FromFields(change: Change, fields: seq<string>, source: string): Record
    requires |fields| == FieldCount(change)
  {
    Tracked(change, fields[1], fields[2], fields[3..ModeEnd(change)], fields[ModeEnd(change)..IdEnd(change)],
            if change == Renamed then fields[8] else "", fields[|fields| - 1], if change == Renamed then source else "")
  }

  lemma FieldsOfFromFields(change: Change, fields: seq<string>, source: string)
    requires |fields| == FieldCount(change) && fields[0] == [Letter(change)]
    ensures Fields(FromFields(change, fields, source)) == fields
  {
  }

  ghost predicate ModesValid(modes: seq<string>) {
    forall i :: 0 <= i < |modes| ==> ValidMode(modes[i], i == |modes| - 1)
  }

  ghost predicate IdsValid(ids: seq<string>) {
    ids != [] && forall i :: 0 <= i < |ids| ==> ValidObjectId(ids[i]) && |ids[i]| == |ids[0]|
  }

  /** What the format asks of the record's own words. */
  ghost predicate ValidTracked(r: Record)
    requires r.Tracked?
  {
    && |r.modes| == ModeEnd(r.change) - 3 && |r.ids| == IdEnd(r.change) - ModeEnd(r.change)
    && r.path != ""
    && ValidStatusCode(r.change, r.code) && ValidSubmoduleCode(r.submodule)
    && !(r.code == ".." && (r.submodule == "N..." || r.submodule == "S..."))
    && ModesValid(r.modes) && IdsValid(r.ids)
    && (if r.change == Renamed then ValidRenameScore(r.code, r.score) && r.source != ""
        else r.score == "" && r.source == "")
  }

  const NUL: char := '\0'

  ghost predicate WellFormed(r: Record) {
    && NUL !in r.path && r.path != ""
    && (r.Tracked? ==> ValidTracked(r) && NUL !in r.source)
  }

  /** How Git prints a record. */
  function Print(r: Record): string {
    match r
    case Untracked(path) => "? " + path + [NUL]
    case Ignored(path) => "! " + path + [NUL]
    case Tracked(_, _, _, _, _, _, _, _) =>
      Join(Fields(r), ' ') + [NUL] + (if r.change == Renamed then r.source + [NUL] else "")
  }

  function PrintAll(rs: seq<Record>): string {
    if rs == [] then "" else Print(rs[0]) + PrintAll(rs[1..])
  }

  ghost predicate AllWellFormed(rs: seq<Record>) {
    forall r :: r in rs ==> WellFormed(r)
  }

  // ---------------------------------------------------------------- splitting

  /** `strings.SplitN` with a positive count. */
  function SplitN(s: string, separator: char, n: nat): (parts: seq<string>)
    requires n > 0
    ensures 0 < |parts| <= n
    ensures forall i :: 0 <= i < |parts| - 1 ==> separator !in parts[i]
  {
    var i := Find(s, separator);
    if n == 1 || i == |s| then [s] else [s[..i]] + SplitN(s[i + 1..], separator, n - 1)
  }

  lemma {:induction false} JoinSplitN(s: string, separator: char, n: nat)
    requires n > 0
    ensures Join(SplitN(s, separator, n), separator) == s
    decreases n
  {
    var i := Find(s, separator);
    if n > 1 && i < |s| {
      JoinSplitN(s[i + 1..], separator, n - 1);
      assert SplitN(s, separator, n)[1..] == SplitN(s[i + 1..], separator, n - 1);
      assert s == s[..i] + [separator] + s[i + 1..];
    }
  }

  lemma SplitNFirst(first: string, rest: string, separator: char, n: nat)
    requires separator !in first && n > 1
    ensures SplitN(first + [separator] + rest, separator, n) == [first] + SplitN(rest, separator, n - 1)
  {
    var s := first + [separator] + rest;
    FindAfter(first, [separator] + rest, separator);
    assert s == first + ([separator] + rest);
    assert s[..|first|] == first && s[|first| + 1..] == rest;
  }

  lemma {:induction false} SplitNJoin(parts: seq<string>, separator: char)
    requires |parts| > 0
    requires forall i :: 0 <= i < |parts| - 1 ==> separator !in parts[i]
    ensures SplitN(Join(parts, separator), separator, |parts|) == parts
  {
    if |parts| > 1 {
      var first, rest := parts[0], Join(parts[1..], separator);
      SplitNFirst(first, rest, separator, |parts|);
      SplitNJoin(parts[1..], separator);
      assert parts == [first] + parts[1..];
    }
  }

  lemma {:induction false} JoinHas(parts: seq<string>, separator: char, c: char)
    requires c != separator && forall i :: 0 <= i < |parts| ==> c !in parts[i]
    ensures c !in Join(parts, separator)
  {
    if |parts| > 1 { JoinHas(parts[1..], separator, c); }
  }

  lemma {:induction false} PartsLack(parts: seq<string>, separator: char, c: char)
    requires c !in Join(parts, separator)
    ensures forall i :: 0 <= i < |parts| ==> c !in parts[i]
  {
    if |parts| > 1 {
      assert forall d :: d in parts[0] ==> d in Join(parts, separator);
      assert forall d :: d in Join(parts[1..], separator) ==> d in Join(parts, separator);
      PartsLack(parts[1..], separator, c);
      forall i | 0 <= i < |parts| ensures c !in parts[i] {
        if i > 0 { assert parts[i] == parts[1..][i - 1]; }
      }
    }
  }

  // ---------------------------------------------------------------- one record

  /** What is printed of a record before its first NUL. */
  function Body(r: Record): string {
    match r
    case Untracked(path) => "? " + path
    case Ignored(path) => "! " + path
    case Tracked(_, _, _, _, _, _, _, _) => Join(Fields(r), ' ')
  }

  /** What is printed of a record after its first NUL. */
  function Tail(r: Record): string {
    if r.Tracked? && r.change == Renamed then r.source + [NUL] else ""
  }

  function Prefix(r: Record): char {
    match r
    case Untracked(_) => '?'
    case Ignored(_) => '!'
    case Tracked(change, _, _, _, _, _, _, _) => Letter(change)
  }

  lemma LiteralsPlain(change: Change, code: string, mode: string, worktree: bool)
    ensures ValidStatusCode(change, code) ==> ' ' !in code && NUL !in code
    ensures ValidMode(mode, worktree) ==> ' ' !in mode && NUL !in mode
    ensures ValidSubmoduleCode(code) ==> ' ' !in code && NUL !in code
  {
  }

  lemma ScorePlain(code: string, score: string)
    requires ValidRenameScore(code, score)
    ensures ' ' !in score && NUL !in score
  {
    var rest := Itoa(Atoi(score[1..]).value);
    assert score == [score[0]] + rest;
    assert Digits(rest);
  }

  /** No word but the last can hold a space, and no word a NUL. */
  lemma FieldsPlain(r: Record)
    requires r.Tracked? && WellFormed(r)
    ensures |Fields(r)| == FieldCount(r.change)
    ensures forall i :: 0 <= i < |Fields(r)| ==> NUL !in Fields(r)[i]
    ensures forall i :: 0 <= i < |Fields(r)| - 1 ==> ' ' !in Fields(r)[i]
  {
    LiteralsPlain(r.change, r.code, "", false);
    LiteralsPlain(r.change, r.submodule, "", false);
    if r.change == Renamed { ScorePlain(r.code, r.score); }
    forall i | 0 <= i < |r.modes| ensures ' ' !in r.modes[i] && NUL !in r.modes[i] {
      LiteralsPlain(r.change, "", r.modes[i], i == |r.modes| - 1);
    }
    forall i | 0 <= i < |r.ids| ensures ' ' !in r.ids[i] && NUL !in r.ids[i] {
      assert ValidObjectId(r.ids[i]);
    }
  }

  lemma BodyOf(r: Record)
    requires WellFormed(r)
    ensures Print(r) == Body(r) + [NUL] + Tail(r)
    ensures NUL !in Body(r) && |Body(r)| >= 3 && Body(r)[0] == Prefix(r) && Body(r)[1] == ' '
  {
    if r.Tracked? {
      FieldsPlain(r);
      var fields := Fields(r);
      JoinHas(fields, ' ', NUL);
      assert Join(fields, ' ') == fields[0] + " " + Join(fields[1..], ' ');
      assert |fields[1]| == 2 && Join(fields[1..], ' ') == fields[1] + " " + Join(fields[1..][1..], ' ');
    }
  }

  /** The text starts with this record. */
  ghost predicate Starts(s: string, r: Record, rest: string) {
    WellFormed(r) && s == Print(r) + rest
  }

  /** Text up to a separator it does not hold is told apart from the rest. */
  lemma CutAt(before: string, after: string, separator: char)
    requires separator !in before
    ensures var s := before + [separator] + after;
            Find(s, separator) == |before| < |s| && s[..|before|] == before && s[|before| + 1..] == after
  {
    FindAfter(before, [separator] + after, separator);
    assert before + [separator] + after == before + ([separator] + after);
  }

  lemma CutUnique(a: string, b: string, x: string, y: string, separator: char)
    requires separator !in a && separator !in b && a + [separator] + x == b + [separator] + y
    ensures a == b && x == y
  {
    CutAt(a, x, separator);
    CutAt(b, y, separator);
  }

  lemma Regroup(a: string, b: string, c: string, d: string)
    ensures (a + b + c) + d == a + b + (c + d)
  {
  }

  /** A record's text is what stands before the first NUL. */
  lemma Recover(record: string, remaining: string, r: Record, rest: string)
    requires NUL !in record && Starts(record + [NUL] + remaining, r, rest)
    ensures record == Body(r) && remaining == Tail(r) + rest
  {
    BodyOf(r);
    Regroup(Body(r), [NUL], Tail(r), rest);
    CutUnique(record, Body(r), remaining, Tail(r) + rest, NUL);
  }

  /** What the branch for tracked records asks of a record and of what follows it. */
  ghost predicate Parses(change: Change, record: string, remaining: string) {
    var fields := SplitN(record, ' ', FieldCount(change));
    var end := Find(remaining, NUL);
    && |fields| == FieldCount(change)
    && (change == Renamed ==> end < |remaining|)
    && ValidTracked(FromFields(change, fields, remaining[..end]))
  }

  function ParsedRecord(change: Change, record: string, remaining: string): Record
    requires |SplitN(record, ' ', FieldCount(change))| == FieldCount(change)
  {
    FromFields(change, SplitN(record, ' ', FieldCount(change)), remaining[..Find(remaining, NUL)])
  }

  function AfterSource(change: Change, remaining: string): string
    requires change == Renamed ==> Find(remaining, NUL) < |remaining|
  {
    if change == Renamed then remaining[Find(remaining, NUL) + 1..] else remaining
  }

  lemma FirstField(change: Change, record: string)
    requires |record| >= 2 && record[0] == Letter(change) && record[1] == ' '
    ensures SplitN(record, ' ', FieldCount(change))[0] == [Letter(change)]
  {
    assert record == [record[0]] + " " + record[2..];
    SplitNFirst([record[0]], record[2..], ' ', FieldCount(change));
  }

  lemma FieldsBack(change: Change, record: string, remaining: string)
    requires |record| >= 3 && record[0] == Letter(change) && record[1] == ' '
    requires |SplitN(record, ' ', FieldCount(change))| == FieldCount(change)
    ensures Fields(ParsedRecord(change, record, remaining)) == SplitN(record, ' ', FieldCount(change))
  {
    FirstField(change, record);
    FieldsOfFromFields(change, SplitN(record, ' ', FieldCount(change)), remaining[..Find(remaining, NUL)]);
  }

  lemma SourceBack(remaining: string)
    requires Find(remaining, NUL) < |remaining|
    ensures remaining[..Find(remaining, NUL)] + [NUL] + remaining[Find(remaining, NUL) + 1..] == remaining
    ensures NUL !in remaining[..Find(remaining, NUL)]
  {
    Sequences.CutBack(remaining, Find(remaining, NUL));
  }

  lemma ParsedIsWellFormed(change: Change, record: string, remaining: string)
    requires |record| >= 3 && record[0] == Letter(change) && record[1] == ' ' && NUL !in record
    requires Parses(change, record, remaining)
    ensures WellFormed(ParsedRecord(change, record, remaining))
            && Body(ParsedRecord(change, record, remaining)) == record
  {
    var fields := SplitN(record, ' ', FieldCount(change));
    FieldsBack(change, record, remaining);
    JoinSplitN(record, ' ', FieldCount(change));
    PartsLack(fields, ' ', NUL);
    assert NUL !in fields[|fields| - 1];
  }

  lemma ParsedPrints(change: Change, record: string, remaining: string)
    requires |record| >= 3 && record[0] == Letter(change) && record[1] == ' ' && NUL !in record
    requires Parses(change, record, remaining)
    ensures Starts(record + [NUL] + remaining, ParsedRecord(change, record, remaining), AfterSource(change, remaining))
  {
    var r, rest := ParsedRecord(change, record, remaining), AfterSource(change, remaining);
    ParsedIsWellFormed(change, record, remaining);
    BodyOf(r);
    if change == Renamed { SourceBack(remaining); }
    assert Tail(r) + rest == remaining;
    Regroup(Body(r), [NUL], Tail(r), rest);
  }

  lemma SplitBack(r: Record)
    requires r.Tracked? && WellFormed(r)
    ensures SplitN(Body(r), ' ', FieldCount(r.change)) == Fields(r)
  {
    FieldsPlain(r);
    SplitNJoin(Fields(r), ' ');
  }

  lemma FromFieldsBack(r: Record)
    requires r.Tracked? && WellFormed(r)
    ensures |Fields(r)| == FieldCount(r.change) && FromFields(r.change, Fields(r), r.source) == r
  {
    FieldsPlain(r);
  }

  lemma PrintedParses(change: Change, record: string, remaining: string, r: Record, rest: string)
    requires NUL !in record && Starts(record + [NUL] + remaining, r, rest) && r.Tracked? && r.change == change
    ensures Parses(change, record, remaining)
    ensures r == ParsedRecord(change, record, remaining) && rest == AfterSource(change, remaining)
  {
    Recover(record, remaining, r, rest);
    SplitBack(r);
    FromFieldsBack(r);
    if change == Renamed { CutAt(r.source, rest, NUL); }
    assert FromFields(change, Fields(r), remaining[..Find(remaining, NUL)]) == r;
  }

  /** What the words of a tracked record have to be, whatever its kind. */
  ghost predicate WordsFit(change: Change, fields: seq<string>)
    requires |fields| == FieldCount(change)
  {
    && fields[|fields| - 1] != "" && ValidStatusCode(change, fields[1]) && ValidSubmoduleCode(fields[2])
    && !(fields[1] == ".." && (fields[2] == "N..." || fields[2] == "S..."))
    && ModesValid(fields[3..ModeEnd(change)]) && IdsValid(fields[ModeEnd(change)..IdEnd(change)])
  }

  lemma WordsDecide(change: Change, fields: seq<string>, source: string)
    requires |fields| == FieldCount(change)
    ensures ValidTracked(FromFields(change, fields, source)) <==>
            WordsFit(change, fields) && (change == Renamed ==> ValidRenameScore(fields[1], fields[8]) && source != "")
  {
  }

  /** The checks of the words, the modes and the object names. */
  method CheckWords(change: Change, fields: seq<string>) returns (ok: bool)
    requires |fields| == FieldCount(change)
    ensures ok <==> WordsFit(change, fields)
  {
    if fields[|fields| - 1] == "" || !ValidStatusCode(change, fields[1]) || !ValidSubmoduleCode(fields[2]) {
      return false;
    }
    if fields[1] == ".." && (fields[2] == "N..." || fields[2] == "S...") { return false; }
    ok := CheckModes(fields[3..ModeEnd(change)]);
    if !ok { return; }
    ok := CheckIds(fields[ModeEnd(change)..IdEnd(change)]);
  }

  /** The branch for tracked records: words, modes, object names, score, and the source path of a rename. */
  method ParseTracked(change: Change, record: string, remaining: string)
      returns (ok: bool, fields: seq<string>, rest: string)
    requires |record| >= 3 && record[0] == Letter(change) && record[1] == ' '
    ensures ok <==> Parses(change, record, remaining)
    ensures ok ==> fields == SplitN(record, ' ', FieldCount(change)) && rest == AfterSource(change, remaining)
  {
    var fieldCount := FieldCount(change);
    fields, rest := SplitN(record, ' ', fieldCount), remaining;
    if |fields| != fieldCount { return false, fields, rest; }
    var end := Find(remaining, NUL);
    WordsDecide(change, fields, remaining[..end]);
    ok := CheckWords(change, fields);
    if !ok { return; }
    if change == Renamed {
      if !ValidRenameScore(fields[1], fields[8]) { return false, fields, rest; }
      if end == |remaining| || end == 0 { return false, fields, rest; }
      rest := remaining[end + 1..];
    }
  }

  method CheckModes(modes: seq<string>) returns (ok: bool)
    ensures ok <==> ModesValid(modes)
  {
    for i := 0 to |modes|
      invariant forall j :: 0 <= j < i ==> ValidMode(modes[j], j == |modes| - 1)
    {
      if !ValidMode(modes[i], i == |modes| - 1) { return false; }
    }
    ok := true;
  }

  method CheckIds(ids: seq<string>) returns (ok: bool)
    requires ids != []
    ensures ok <==> IdsValid(ids)
  {
    var width := |ids[0]|;
    for i := 0 to |ids|
      invariant forall j :: 0 <= j < i ==> ValidObjectId(ids[j]) && |ids[j]| == width
    {
      if !ValidObjectId(ids[i]) || |ids[i]| != width { return false; }
    }
    ok := true;
  }

  // ---------------------------------------------------------------- the whole listing

  /** The number of records of each kind. */
  function Tally(rs: seq<Record>): GitStatus {
    if rs == [] then GitStatus(0, 0, 0, 0) else Counted(Tally(rs[..|rs| - 1]), rs[|rs| - 1])
  }

  predicate StagedChange(r: Record) {
    r.Tracked? && r.change != Unmerged && |r.code| == 2 && r.code[0] != '.'
  }

  predicate UnstagedChange(r: Record) {
    && r.Tracked? && r.change != Unmerged && |r.code| == 2 && |r.submodule| == 4
    && (r.code[1] != '.' || (r.submodule[0] == 'S' && r.submodule[1..] != "..."))
  }

  function Counted(status: GitStatus, r: Record): GitStatus {
    GitStatus(status.staged + (if StagedChange(r) then 1 else 0),
              status.unstaged + (if UnstagedChange(r) then 1 else 0),
              status.unmerged + (if r.Tracked? && r.change == Unmerged then 1 else 0),
              status.untracked + (if r.Untracked? then 1 else 0))
  }

  function UntrackedPaths(rs: seq<Record>): seq<string> {
    if rs == [] then []
    else UntrackedPaths(rs[..|rs| - 1]) + (if rs[|rs| - 1].Untracked? then [rs[|rs| - 1].path] else [])
  }

  lemma {:induction false} UntrackedPathsConcat(xs: seq<Record>, ys: seq<Record>)
    ensures UntrackedPaths(xs + ys) == UntrackedPaths(xs) + UntrackedPaths(ys)
    decreases |ys|
  {
    if ys == [] {
      assert xs + ys == xs;
    } else {
      UntrackedPathsConcat(xs, ys[..|ys| - 1]);
      assert (xs + ys)[..|xs + ys| - 1] == xs + ys[..|ys| - 1];
    }
  }

  lemma PrintAllFirst(r: Record, rs: seq<Record>)
    ensures PrintAll([r] + rs) == Print(r) + PrintAll(rs)
  {
    assert ([r] + rs)[1..] == rs;
  }

  lemma {:induction false} PrintAllConcat(xs: seq<Record>, ys: seq<Record>)
    ensures PrintAll(xs + ys) == PrintAll(xs) + PrintAll(ys)
    decreases |xs|
  {
    if xs == [] {
      assert xs + ys == ys;
    } else {
      var first, others := xs[0], xs[1..];
      assert xs == [first] + others && xs + ys == [first] + (others + ys);
      PrintAllConcat(others, ys);
      PrintAllFirst(first, others);
      PrintAllFirst(first, others + ys);
      Sequences.Associate(Print(first), PrintAll(others), PrintAll(ys));
    }
  }

  /** No record's text starts another's. */
  lemma StartsOnce(s: string, r: Record, rest: string, r': Record, rest': string)
    requires Starts(s, r, rest) && Starts(s, r', rest')
    ensures r == r' && rest == rest'
  {
    BodyOf(r);
    BodyOf(r');
    Regroup(Body(r), [NUL], Tail(r), rest);
    Regroup(Body(r'), [NUL], Tail(r'), rest');
    CutUnique(Body(r), Body(r'), Tail(r) + rest, Tail(r') + rest', NUL);
    if r.Tracked? {
      PrintedParses(r.change, Body(r), Tail(r) + rest, r, rest);
      PrintedParses(r.change, Body(r), Tail(r) + rest, r', rest');
    } else {
      assert Prefix(r) == Prefix(r');
      assert Body(r)[2..] == r.path && Body(r')[2..] == r'.path;
      assert Tail(r) + rest == rest && Tail(r') + rest' == rest';
    }
  }

  lemma FirstRecord(before: seq<Record>, remaining: string, rs: seq<Record>)
    requires before != [] && AllWellFormed(before) && AllWellFormed(rs) && PrintAll(rs) == PrintAll(before) + remaining
    ensures rs != [] && rs[0] == before[0] && PrintAll(rs[1..]) == PrintAll(before[1..]) + remaining
  {
    PrintedNotEmpty(before[0]);
    assert rs != [];
    assert before[0] in before && rs[0] in rs;
    Sequences.Associate(Print(before[0]), PrintAll(before[1..]), remaining);
    StartsOnce(PrintAll(rs), before[0], PrintAll(before[1..]) + remaining, rs[0], PrintAll(rs[1..]));
  }

  /** A well-formed listing is determined by its text, and so is what follows a listing that starts it. */
  lemma {:induction false} ListingContinues(before: seq<Record>, remaining: string, rs: seq<Record>)
    requires AllWellFormed(before) && AllWellFormed(rs) && PrintAll(rs) == PrintAll(before) + remaining
    ensures before <= rs && PrintAll(rs[|before|..]) == remaining
    decreases |before|
  {
    if before == [] {
      assert PrintAll(before) + remaining == remaining && rs[0..] == rs;
    } else {
      FirstRecord(before, remaining, rs);
      forall r | r in rs[1..] ensures WellFormed(r) { assert r in rs; }
      forall r | r in before[1..] ensures WellFormed(r) { assert r in before; }
      ListingContinues(before[1..], remaining, rs[1..]);
      assert rs[1..][|before| - 1..] == rs[|before|..];
      assert before == [before[0]] + before[1..] && rs == [rs[0]] + rs[1..];
    }
  }

  lemma PrintedNotEmpty(r: Record)
    ensures Print(r) != ""
  {
  }

  lemma EmptyListing(rs: seq<Record>)
    ensures PrintAll(rs) == "" ==> rs == []
  {
    if rs != [] { PrintedNotEmpty(rs[0]); }
  }

  /** Different listings have different texts. */
  lemma PrintInjective(xs: seq<Record>, ys: seq<Record>)
    requires AllWellFormed(xs) && AllWellFormed(ys) && PrintAll(xs) == PrintAll(ys)
    ensures xs == ys
  {
    assert PrintAll(ys) == PrintAll(xs) + "";
    ListingContinues(xs, "", ys);
    EmptyListing(ys[|xs|..]);
    assert ys == xs + ys[|xs|..];
  }

  lemma {:induction false} PrintEndsWithNul(rs: seq<Record>)
    requires rs != []
    ensures PrintAll(rs) != "" && PrintAll(rs)[|PrintAll(rs)| - 1] == NUL
  {
    PrintedNotEmpty(rs[0]);
    if |rs| > 1 { PrintEndsWithNul(rs[1..]); }
  }

  /** The text is what Git prints for these well-formed records. */
  ghost predicate IsListing(contents: string, rs: seq<Record>) {
    AllWellFormed(rs) && PrintAll(rs) == contents
  }

  /** Some record was read at the front, and this is the rest; or the front is no record. */
  datatype Front = Front(record: Record, rest: string) | Bad

  /** One turn of the loop up to the counting. */
  method ReadRecord(remaining: string) returns (front: Front)
    requires remaining != "" && remaining[|remaining| - 1] == NUL
    ensures front.Front? ==> Starts(remaining, front.record, front.rest)
    ensures front.Front? ==> |front.rest| < |remaining| && (front.rest == "" || front.rest[|front.rest| - 1] == NUL)
    ensures front.Bad? ==> forall r, rest :: !Starts(remaining, r, rest)
  {
    var end := Find(remaining, NUL);
    assert remaining[|remaining| - 1] in remaining[..|remaining|];
    var record, after := remaining[..end], remaining[end + 1..];
    SourceBack(remaining);
    front := ReadCut(record, after);
    if front.Front? {
      EndsAlike(remaining, front.record, front.rest);
    }
  }

  lemma EndsAlike(s: string, r: Record, rest: string)
    requires Starts(s, r, rest) && s[|s| - 1] == NUL
    ensures |rest| < |s| && (rest == "" || rest[|rest| - 1] == NUL)
  {
    PrintedNotEmpty(r);
  }

  method ReadCut(record: string, after: string) returns (front: Front)
    requires NUL !in record
    ensures front.Front? ==> Starts(record + [NUL] + after, front.record, front.rest)
    ensures front.Bad? ==> forall r, rest :: !Starts(record + [NUL] + after, r, rest)
  {
    forall r, rest | Starts(record + [NUL] + after, r, rest)
      ensures |record| >= 3 && record[1] == ' ' && record[0] == Prefix(r)
    {
      Recover(record, after, r, rest);
      BodyOf(r);
    }
    if |record| < 3 || record[1] != ' ' { return Bad; }
    match record[0]
    case '?' =>
      front := Front(Untracked(record[2..]), after);
      assert record == "? " + record[2..];
    case '!' =>
      front := Front(Ignored(record[2..]), after);
      assert record == "! " + record[2..];
    case '1' => front := ReadTracked(Ordinary, record, after);
    case '2' => front := ReadTracked(Renamed, record, after);
    case 'u' => front := ReadTracked(Unmerged, record, after);
    case _ => front := Bad;
  }

  method ReadTracked(change: Change, record: string, after: string) returns (front: Front)
    requires |record| >= 3 && record[0] == Letter(change) && record[1] == ' ' && NUL !in record
    ensures front.Front? ==> Starts(record + [NUL] + after, front.record, front.rest)
    ensures front.Bad? ==> forall r, rest :: !Starts(record + [NUL] + after, r, rest)
  {
    var ok, fields, rest := ParseTracked(change, record, after);
    if ok {
      ParsedPrints(change, record, after);
      return Front(FromFields(change, fields, after[..Find(after, NUL)]), rest);
    }
    forall r, rest ensures !Starts(record + [NUL] + after, r, rest) {
      if Starts(record + [NUL] + after, r, rest) {
        Recover(record, after, r, rest);
        BodyOf(r);
        assert r.Tracked? && r.change == change;
        PrintedParses(change, record, after, r, rest);
      }
    }
    front := Bad;
  }

  datatype Outcome = Parsed(status: GitStatus, paths: seq<string>) | Malformed | TooManyPaths

  /** What follows the records already read is printed by the next one of any listing with this text. */
  lemma FrontOf(contents: string, done: seq<Record>, remaining: string, rs: seq<Record>)
      returns (r: Record, rest: string)
    requires AllWellFormed(done) && contents == PrintAll(done) + remaining && remaining != "" && IsListing(contents, rs)
    ensures Starts(remaining, r, rest) && done + [r] <= rs
  {
    ListingContinues(done, remaining, rs);
    var more := rs[|done|..];
    assert more != [] && more[0] in rs;
    r, rest := more[0], PrintAll(more[1..]);
    assert rs == done + more;
  }

  lemma NoListing(contents: string, done: seq<Record>, remaining: string)
    requires AllWellFormed(done) && contents == PrintAll(done) + remaining && remaining != ""
    requires forall r, rest :: !Starts(remaining, r, rest)
    ensures forall rs :: !IsListing(contents, rs)
  {
    forall rs ensures !IsListing(contents, rs) {
      if IsListing(contents, rs) {
        var r, rest := FrontOf(contents, done, remaining, rs);
      }
    }
  }

  lemma NextIsListed(contents: string, done: seq<Record>, remaining: string, r: Record, rest: string, rs: seq<Record>)
    requires AllWellFormed(done) && contents == PrintAll(done) + remaining && Starts(remaining, r, rest)
             && IsListing(contents, rs)
    ensures done + [r] <= rs
  {
    PrintedNotEmpty(r);
    var next, after := FrontOf(contents, done, remaining, rs);
    StartsOnce(remaining, r, rest, next, after);
  }

  lemma TooManyListed(contents: string, done: seq<Record>, remaining: string, r: Record, rest: string)
    requires AllWellFormed(done) && contents == PrintAll(done) + remaining && Starts(remaining, r, rest)
    requires r.Untracked? && |UntrackedPaths(done)| >= MAXIMUM_STATUS_UNTRACKED
    ensures forall rs :: IsListing(contents, rs) ==> |UntrackedPaths(rs)| > MAXIMUM_STATUS_UNTRACKED
  {
    var longer := done + [r];
    assert longer[..|longer| - 1] == done;
    forall rs | IsListing(contents, rs) ensures |UntrackedPaths(rs)| > MAXIMUM_STATUS_UNTRACKED {
      NextIsListed(contents, done, remaining, r, rest, rs);
      assert rs == longer + rs[|longer|..];
      UntrackedPathsConcat(longer, rs[|longer|..]);
    }
  }

  lemma DoneOneMore(contents: string, done: seq<Record>, remaining: string, r: Record, rest: string)
    requires AllWellFormed(done) && contents == PrintAll(done) + remaining && Starts(remaining, r, rest)
    ensures AllWellFormed(done + [r]) && contents == PrintAll(done + [r]) + rest
    ensures Tally(done + [r]) == Counted(Tally(done), r)
    ensures UntrackedPaths(done + [r]) == UntrackedPaths(done) + (if r.Untracked? then [r.path] else [])
  {
    PrintAllConcat(done, [r]);
    assert PrintAll([r]) == Print(r) by { assert [r][1..] == [] && Print(r) + "" == Print(r); }
    Sequences.Associate(PrintAll(done), Print(r), rest);
    assert (done + [r])[..|done + [r]| - 1] == done;
  }

  /** `parseStatusPorcelainZPaths`: the input is accepted exactly when it is a listing of well-formed records with, when
      the paths are kept, no more than 4096 untracked ones; the counts and paths are those of the records. */
  method ParseStatusPorcelainZPaths(contents: string, collectUntracked: bool)
      returns (outcome: Outcome, ghost rs: seq<Record>)
    ensures outcome.Parsed? ==> IsListing(contents, rs) && outcome.status == Tally(rs)
    ensures outcome.Parsed? ==> outcome.paths == if collectUntracked then UntrackedPaths(rs) else []
    ensures outcome.Parsed? && collectUntracked ==> |UntrackedPaths(rs)| <= MAXIMUM_STATUS_UNTRACKED
    ensures outcome.Malformed? ==> forall rs' :: !IsListing(contents, rs')
    ensures outcome.TooManyPaths? ==>
      collectUntracked && forall rs' :: IsListing(contents, rs') ==> |UntrackedPaths(rs')| > MAXIMUM_STATUS_UNTRACKED
  {
    rs := [];
    if |contents| == 0 { return Parsed(GitStatus(0, 0, 0, 0), []), rs; }
    if contents[|contents| - 1] != NUL {
      forall rs' ensures !IsListing(contents, rs') {
        if PrintAll(rs') == contents { PrintEndsWithNul(rs'); }
      }
      return Malformed, rs;
    }
    var status, untrackedPaths, remaining := GitStatus(0, 0, 0, 0), [], contents;
    while remaining != ""
      invariant remaining == "" || remaining[|remaining| - 1] == NUL
      invariant AllWellFormed(rs) && contents == PrintAll(rs) + remaining
      invariant status == Tally(rs) && untrackedPaths == if collectUntracked then UntrackedPaths(rs) else []
      invariant collectUntracked ==> |untrackedPaths| <= MAXIMUM_STATUS_UNTRACKED
      decreases |remaining|
    {
      var front := ReadRecord(remaining);
      if front.Bad? {
        NoListing(contents, rs, remaining);
        return Malformed, rs;
      }
      var record, rest := front.record, front.rest;
      if record.Untracked? && collectUntracked {
        if |untrackedPaths| == MAXIMUM_STATUS_UNTRACKED {
          TooManyListed(contents, rs, remaining, record, rest);
          return TooManyPaths, rs;
        }
        untrackedPaths := untrackedPaths + [record.path];
      }
      DoneOneMore(contents, rs, remaining, record, rest);
      status := Counted(status, record);
      rs := rs + [record];
      remaining := rest;
    }
    outcome := Parsed(status, untrackedPaths);
  }

  function Renames(rs: seq<Record>): nat {
    if rs == [] then 0 else (if rs[0].Tracked? && rs[0].change == Renamed then 1 else 0) + Renames(rs[1..])
  }

  function NulCount(s: string): nat {
    if s == "" then 0 else (if s[0] == NUL then 1 else 0) + NulCount(s[1..])
  }

  lemma {:induction false} NulCountConcat(a: string, b: string)
    ensures NulCount(a + b) == NulCount(a) + NulCount(b)
  {
    if a == "" {
      assert a + b == b;
    } else {
      assert (a + b)[1..] == a[1..] + b;
      NulCountConcat(a[1..], b);
    }
  }

  lemma {:induction false} NoNuls(s: string)
    requires NUL !in s
    ensures NulCount(s) == 0
  {
    if s != "" {
      assert s[0] in s;
      NoNuls(s[1..]);
    }
  }

  /** The source path of a rename ends with a NUL of its own but is never a record. */
  lemma {:induction false} SourcesAreNotRecords(rs: seq<Record>)
    requires AllWellFormed(rs)
    ensures NulCount(PrintAll(rs)) == |rs| + Renames(rs)
  {
    if rs != [] {
      var r := rs[0];
      assert r in rs;
      forall x | x in rs[1..] ensures WellFormed(x) { assert x in rs; }
      SourcesAreNotRecords(rs[1..]);
      BodyOf(r);
      NoNuls(Body(r));
      NulCountConcat(Body(r) + [NUL], Tail(r));
      NulCountConcat(Body(r), [NUL]);
      NulCountConcat(Print(r), PrintAll(rs[1..]));
      if Tail(r) != "" {
        NoNuls(r.source);
        NulCountConcat(r.source, [NUL]);
      }
    }
  }
}
