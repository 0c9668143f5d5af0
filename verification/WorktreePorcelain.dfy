/** The parser of `git worktree list --porcelain -z` output. Strings are byte strings: one character per byte. */
module WorktreePorcelain {
  import opened FileSystem
  import opened Paths
  import Sequences
  import StatusPorcelain

  const NUL: char := '\0'

  datatype RawWorktree = RawWorktree(path: string, head: string, branch: string, detached: bool,
                                     locked: bool, lockReason: string, prunable: bool, bare: bool)

  // ---------------------------------------------------------------- branch names

  predicate Continuation(c: char) { 0x80 <= c as int <= 0xBF }

  /** `utf8.ValidString` on a byte string. */
  predicate ValidUtf8(s: string) {
    s == "" ||
    var a := s[0] as int;
    if a < 0x80 then ValidUtf8(s[1..])
    else if 0xC2 <= a <= 0xDF then |s| >= 2 && Continuation(s[1]) && ValidUtf8(s[2..])
    else if 0xE0 <= a <= 0xEF then
      && |s| >= 3 && Continuation(s[1]) && Continuation(s[2])
      && (a == 0xE0 ==> s[1] as int >= 0xA0) && (a == 0xED ==> s[1] as int <= 0x9F)
      && ValidUtf8(s[3..])
    else if 0xF0 <= a <= 0xF4 then
      && |s| >= 4 && Continuation(s[1]) && Continuation(s[2]) && Continuation(s[3])
      && (a == 0xF0 ==> s[1] as int >= 0x90) && (a == 0xF4 ==> s[1] as int <= 0x8F)
      && ValidUtf8(s[4..])
    else false
  }

  predicate StandsAt(s: string, part: string, i: nat) {
    i + |part| <= |s| && s[i..i + |part|] == part
  }

  predicate Contains(s: string, part: string) {
    exists i | 0 <= i <= |s| :: StandsAt(s, part, i)
  }

  predicate HasSuffix(s: string, suffix: string) {
    |suffix| <= |s| && s[|s| - |suffix|..] == suffix
  }

  /** `gitref.ValidBranchName`; in valid UTF-8 no byte of a longer sequence is a control character or a space. */
  predicate ValidBranchName(value: string) {
    && value != "" && |value| <= 1024 && ValidUtf8(value) && value != "HEAD"
    && !("-" <= value) && !HasSuffix(value, ".") && !Contains(value, "..") && !Contains(value, "@{")
    && (forall c <- value :: c !in "~^:?*[\\" && c as int > 32 && c as int != 127)
    && (forall component <- Split(value, '/') ::
          component != "" && !("." <= component) && !HasSuffix(component, ".lock"))
  }

  // ---------------------------------------------------------------- fields

  datatype Key = Worktree | Head | Branch | Detached | Bare | Locked | Prunable

  function Word(key: Key): (word: string)
    ensures ' ' !in word && NUL !in word && word != ""
  {
    match key
    case Worktree => "worktree"
    case Head => "HEAD"
    case Branch => "branch"
    case Detached => "detached"
    case Bare => "bare"
    case Locked => "locked"
    case Prunable => "prunable"
  }

  function KeyOf(name: string): (key: Option<Key>)
    ensures key.Some? ==> Word(key.value) == name
    ensures key.None? ==> forall k: Key :: Word(k) != name
  {
    match name
    case "worktree" => Some(Worktree)
    case "HEAD" => Some(Head)
    case "branch" => Some(Branch)
    case "detached" => Some(Detached)
    case "bare" => Some(Bare)
    case "locked" => Some(Locked)
    case "prunable" => Some(Prunable)
    case _ => None
  }

  function Name(field: string): string { field[..Find(field, ' ')] }

  function Value(field: string): string {
    var i := Find(field, ' ');
    if i == |field| then "" else field[i + 1..]
  }

  function KeyIn(field: string): Option<Key> { KeyOf(Name(field)) }

  const HEADS := "refs/heads/"

  predicate ValidRef(value: string) {
    HEADS <= value && ValidBranchName(value[|HEADS|..])
  }

  /** What the value is worth on its own. */
  predicate ValidValue(key: Key, value: string) {
    match key
    case Branch => ValidRef(value)
    case Detached => value == ""
    case Bare => value == ""
    case _ => true
  }

  predicate KnownField(field: string) {
    KeyIn(field).Some? && ValidValue(KeyIn(field).value, Value(field))
  }

  /** A record: the path first, no attribute twice, and none unknown. */
  ghost predicate KnownFields(fields: seq<string>) {
    && fields != [] && KeyIn(fields[0]) == Some(Worktree)
    && (forall i, j :: 0 <= i < j < |fields| ==> Name(fields[i]) != Name(fields[j]))
    && (forall i :: 0 <= i < |fields| ==> KnownField(fields[i]))
  }

  /** The value of this attribute, if the record has it. */
  function Attribute(fields: seq<string>, key: Key): Option<string> {
    if fields == [] then None
    else if KeyIn(fields[|fields| - 1]) == Some(key) then Some(Value(fields[|fields| - 1]))
    else Attribute(fields[..|fields| - 1], key)
  }

  function OrEmpty(value: Option<string>): string {
    if value.Some? then value.value else ""
  }

  /** The branch that a reference below refs/heads/ names. */
  function BranchOf(value: string): string {
    if HEADS <= value then value[|HEADS|..] else ""
  }

  /** What a record says, attribute by attribute, in whatever order they come. */
  function Meaning(fields: seq<string>): RawWorktree {
    RawWorktree(
      OrEmpty(Attribute(fields, Worktree)), OrEmpty(Attribute(fields, Head)),
      BranchOf(OrEmpty(Attribute(fields, Branch))),
      Attribute(fields, Detached).Some?, Attribute(fields, Locked).Some?, OrEmpty(Attribute(fields, Locked)),
      Attribute(fields, Prunable).Some?, Attribute(fields, Bare).Some?)
  }

  /** What the parser asks of a whole worktree. */
  predicate Unambiguous(w: RawWorktree) {
    && w.path != ""
    && if w.bare then w.head == "" && w.branch == "" && !w.detached
       else StatusPorcelain.ValidObjectId(w.head) && (w.branch == "") == w.detached
  }

  ghost predicate ValidRecord(fields: seq<string>) {
    KnownFields(fields) && Unambiguous(Meaning(fields))
  }

  // ---------------------------------------------------------------- records

  /** The first of two NULs in a row, or the length. */
  function FindDouble(s: string): (i: nat)
    ensures i <= |s| && (i < |s| ==> i + 1 < |s| && s[i] == NUL && s[i + 1] == NUL)
  {
    if |s| < 2 then |s|
    else if s[0] == NUL && s[1] == NUL then 0
    else FindDouble(s[1..]) + 1
  }

  /** `strings.Split` at two NULs. */
  function SplitDouble(s: string): (parts: seq<string>)
    ensures parts != []
    decreases |s|
  {
    var i := FindDouble(s);
    if i == |s| then [s] else [s[..i]] + SplitDouble(s[i + 2..])
  }

  const NULS: string := [NUL, NUL]

  function Records(contents: string): seq<string>
    requires HasSuffix(contents, NULS)
  {
    SplitDouble(contents[..|contents| - 2])
  }

  ghost predicate DistinctPaths(ws: seq<RawWorktree>) {
    forall i, j :: 0 <= i < j < |ws| ==> ws[i].path != ws[j].path
  }

  function Meanings(records: seq<string>): (ws: seq<RawWorktree>)
    ensures |ws| == |records| && forall i :: 0 <= i < |ws| ==> ws[i] == Meaning(Split(records[i], NUL))
  {
    seq(|records|, i requires 0 <= i < |records| => Meaning(Split(records[i], NUL)))
  }

  /** The inputs that the parser takes: records of known fields, each an unambiguous worktree, no path twice. */
  ghost predicate Acceptable(contents: string) {
    && HasSuffix(contents, NULS)
    && (forall i :: 0 <= i < |Records(contents)| ==> ValidRecord(Split(Records(contents)[i], NUL)))
    && DistinctPaths(Meanings(Records(contents)))
  }

  // ---------------------------------------------------------------- the parser

  ghost predicate SeenNames(seen: set<string>, fields: seq<string>) {
    && (forall i :: 0 <= i < |fields| ==> Name(fields[i]) in seen)
    && (forall n :: n in seen ==> exists i :: 0 <= i < |fields| && Name(fields[i]) == n)
  }

  /** One field entered in the worktree being filled. */
  function WithField(w: RawWorktree, key: Key, value: string): RawWorktree {
    match key
    case Worktree => w.(path := value)
    case Head => w.(head := value)
    case Branch => w.(branch := BranchOf(value))
    case Detached => w.(detached := true)
    case Bare => w.(bare := true)
    case Locked => w.(locked := true, lockReason := value)
    case Prunable => w.(prunable := true)
  }

  lemma {:induction false} AttributeAbsent(fields: seq<string>, key: Key)
    requires forall i :: 0 <= i < |fields| ==> KeyIn(fields[i]) != Some(key)
    ensures Attribute(fields, key) == None
  {
    if fields != [] { AttributeAbsent(fields[..|fields| - 1], key); }
  }

  lemma AttributeOneMore(fields: seq<string>, field: string, key: Key)
    ensures Attribute(fields + [field], key)
            == if KeyIn(field) == Some(key) then Some(Value(field)) else Attribute(fields, key)
  {
    Sequences.Snoc(fields, field);
  }

  lemma MeaningOneMore(fields: seq<string>, field: string)
    requires KeyIn(field).Some? && forall i :: 0 <= i < |fields| ==> KeyIn(fields[i]) != KeyIn(field)
    ensures Meaning(fields + [field]) == WithField(Meaning(fields), KeyIn(field).value, Value(field))
  {
    AttributeAbsent(fields, KeyIn(field).value);
    AttributeOneMore(fields, field, Worktree);
    AttributeOneMore(fields, field, Head);
    AttributeOneMore(fields, field, Branch);
    AttributeOneMore(fields, field, Detached);
    AttributeOneMore(fields, field, Locked);
    AttributeOneMore(fields, field, Prunable);
    AttributeOneMore(fields, field, Bare);
  }

  /** What the loop has established about the fields it has read. */
  ghost predicate ReadFields(fields: seq<string>, seen: set<string>, w: RawWorktree) {
    && (fields != [] ==> KnownFields(fields))
    && SeenNames(seen, fields)
    && w == Meaning(fields)
  }

  lemma SeenOneMore(fields: seq<string>, field: string, seen: set<string>)
    requires SeenNames(seen, fields)
    ensures SeenNames(seen + {Name(field)}, fields + [field])
  {
    var more := fields + [field];
    assert more[|fields|] == field;
    forall n | n in seen + {Name(field)} ensures exists i :: 0 <= i < |more| && Name(more[i]) == n {
      if n in seen {
        var i :| 0 <= i < |fields| && Name(fields[i]) == n;
        assert more[i] == fields[i];
      } else {
        assert Name(more[|fields|]) == n;
      }
    }
  }

  lemma KeysDiffer(fields: seq<string>, field: string)
    requires KnownField(field) && forall i :: 0 <= i < |fields| ==> Name(fields[i]) != Name(field)
    ensures forall i :: 0 <= i < |fields| ==> KeyIn(fields[i]) != KeyIn(field)
  {
  }

  lemma KnownOneMore(fields: seq<string>, field: string)
    requires (fields != [] ==> KnownFields(fields)) && KnownField(field)
    requires forall i :: 0 <= i < |fields| ==> Name(fields[i]) != Name(field)
    requires fields == [] ==> KeyIn(field) == Some(Worktree)
    ensures KnownFields(fields + [field])
  {
  }

  lemma ReadOneMore(fields: seq<string>, field: string, seen: set<string>, w: RawWorktree)
    requires ReadFields(fields, seen, w) && KnownField(field) && Name(field) !in seen
    requires fields == [] ==> KeyIn(field) == Some(Worktree)
    ensures ReadFields(fields + [field], seen + {Name(field)}, WithField(w, KeyIn(field).value, Value(field)))
  {
    KeysDiffer(fields, field);
    KnownOneMore(fields, field);
    MeaningOneMore(fields, field);
    SeenOneMore(fields, field, seen);
  }

  lemma BadField(fields: seq<string>, index: nat, seen: set<string>)
    requires index < |fields| && SeenNames(seen, fields[..index])
    requires Name(fields[index]) in seen || (index == 0 && KeyIn(fields[index]) != Some(Worktree))
             || !KnownField(fields[index])
    ensures !KnownFields(fields)
  {
    if Name(fields[index]) in seen {
      var i :| 0 <= i < |fields[..index]| && Name(fields[..index][i]) == Name(fields[index]);
      assert Name(fields[i]) == Name(fields[index]);
    }
  }

  /** The switch on the field's name. */
  method SetField(w: RawWorktree, name: string, value: string) returns (ok: bool, worktree: RawWorktree)
    ensures ok <==> KeyOf(name).Some? && ValidValue(KeyOf(name).value, value)
    ensures ok ==> worktree == WithField(w, KeyOf(name).value, value)
  {
    ok, worktree := true, w;
    var key := KeyOf(name);
    if key.None? { return false, w; }
    match key.value
    case Worktree => worktree := w.(path := value);
    case Head => worktree := w.(head := value);
    case Branch =>
      if !(HEADS <= value) || !ValidBranchName(value[|HEADS|..]) { return false, w; }
      worktree := w.(branch := value[|HEADS|..]);
    case Detached =>
      if value != "" { return false, w; }
      worktree := w.(detached := true);
    case Bare =>
      if value != "" { return false, w; }
      worktree := w.(bare := true);
    case Locked => worktree := w.(locked := true, lockReason := value);
    case Prunable => worktree := w.(prunable := true);
  }

  /** The inner loop: the fields of one record. */
  method ReadRecord(fields: seq<string>) returns (ok: bool, worktree: RawWorktree)
    requires fields != []
    ensures ok <==> KnownFields(fields)
    ensures ok ==> worktree == Meaning(fields)
  {
    worktree := RawWorktree("", "", "", false, false, "", false, false);
    var seen: set<string> := {};
    for index := 0 to |fields|
      invariant ReadFields(fields[..index], seen, worktree)
    {
      var field := fields[index];
      var name, value := Name(field), Value(field);
      if name in seen || (index == 0 && name != Word(Worktree)) {
        BadField(fields, index, seen);
        return false, worktree;
      }
      var before := worktree;
      ok, worktree := SetField(worktree, name, value);
      if !ok {
        BadField(fields, index, seen);
        return;
      }
      ReadOneMore(fields[..index], field, seen, before);
      Sequences.TakeNext(fields, index);
      seen := seen + {name};
    }
    Sequences.TakeAll(fields);
    ok := true;
  }

  ghost predicate AllValid(records: seq<string>) {
    forall i :: 0 <= i < |records| ==> ValidRecord(Split(records[i], NUL))
  }

  ghost predicate PathsAre(paths: set<string>, ws: seq<RawWorktree>) {
    && (forall i :: 0 <= i < |ws| ==> ws[i].path in paths)
    && (forall p :: p in paths ==> exists i :: 0 <= i < |ws| && ws[i].path == p)
  }

  /** What the outer loop has established about the records it has read. */
  ghost predicate ReadRecords(records: seq<string>, result: seq<RawWorktree>, paths: set<string>) {
    AllValid(records) && result == Meanings(records) && DistinctPaths(result) && PathsAre(paths, result)
  }

  lemma PathsOneMore(ws: seq<RawWorktree>, w: RawWorktree, paths: set<string>)
    requires DistinctPaths(ws) && PathsAre(paths, ws) && w.path !in paths
    ensures DistinctPaths(ws + [w]) && PathsAre(paths + {w.path}, ws + [w])
  {
    var more := ws + [w];
    assert more[|ws|] == w;
    forall p | p in paths + {w.path} ensures exists i :: 0 <= i < |more| && more[i].path == p {
      if p in paths {
        var i :| 0 <= i < |ws| && ws[i].path == p;
        assert more[i] == ws[i];
      } else {
        assert more[|ws|].path == p;
      }
    }
  }

  lemma RecordOneMore(records: seq<string>, record: string, result: seq<RawWorktree>, paths: set<string>,
                      w: RawWorktree)
    requires ReadRecords(records, result, paths) && ValidRecord(Split(record, NUL))
    requires w == Meaning(Split(record, NUL)) && w.path !in paths
    ensures ReadRecords(records + [record], result + [w], paths + {w.path})
  {
    PathsOneMore(result, w, paths);
    MeaningsOneMore(records, record);
  }

  lemma MeaningsOneMore(records: seq<string>, record: string)
    ensures Meanings(records + [record]) == Meanings(records) + [Meaning(Split(record, NUL))]
  {
  }

  lemma PathTwice(records: seq<string>, k: nat, result: seq<RawWorktree>, paths: set<string>)
    requires k < |records| && ReadRecords(records[..k], result, paths)
    requires Meaning(Split(records[k], NUL)).path in paths
    ensures !DistinctPaths(Meanings(records))
  {
    var i :| 0 <= i < |result| && result[i].path == Meaning(Split(records[k], NUL)).path;
    assert Meanings(records)[i] == result[i];
    assert Meanings(records)[i].path == Meanings(records)[k].path;
  }

  /** `parseWorktreePorcelainZ` */
  method ParseWorktreePorcelainZ(contents: string) returns (ok: bool, result: seq<RawWorktree>)
    ensures ok <==> Acceptable(contents)
    ensures ok ==> result == Meanings(Records(contents))
  {
    result := [];
    if !HasSuffix(contents, NULS) { return false, result; }
    var records := SplitDouble(contents[..|contents| - 2]);
    var paths: set<string> := {};
    for k := 0 to |records|
      invariant ReadRecords(records[..k], result, paths)
    {
      var worktree;
      ok, worktree := ReadRecord(Split(records[k], NUL));
      if !ok { return; }
      if worktree.path == "" { return false, result; }
      if worktree.path in paths {
        PathTwice(records, k, result, paths);
        return false, result;
      }
      if worktree.bare {
        if worktree.head != "" || worktree.branch != "" || worktree.detached { return false, result; }
      } else if !StatusPorcelain.ValidObjectId(worktree.head) || (worktree.branch == "") == !worktree.detached {
        return false, result;
      }
      RecordOneMore(records[..k], records[k], result, paths, worktree);
      Sequences.TakeNext(records, k);
      paths := paths + {worktree.path};
      result := result + [worktree];
    }
    Sequences.TakeAll(records);
    ok := true;
  }

  /** Whatever is accepted names distinct worktrees, each with a path, and either bare or on a branch or detached. */
  lemma AcceptedIsUnambiguous(contents: string)
    requires Acceptable(contents)
    ensures DistinctPaths(Meanings(Records(contents)))
    ensures forall w <- Meanings(Records(contents)) ::
              w.path != "" && (!w.bare ==> (w.branch != "" || w.detached) && !(w.branch != "" && w.detached))
  {
    forall w <- Meanings(Records(contents))
      ensures w.path != "" && (!w.bare ==> (w.branch != "" || w.detached) && !(w.branch != "" && w.detached))
    {
      var i :| 0 <= i < |Meanings(Records(contents))| && Meanings(Records(contents))[i] == w;
      assert ValidRecord(Split(Records(contents)[i], NUL));
    }
  }

  // ---------------------------------------------------------------- the printer

  datatype Item = Item(key: Key, value: string)

  /** A printed field: the word alone, or the word and its value. */
  function Text(item: Item): string {
    if item.value == "" then Word(item.key) else Word(item.key) + " " + item.value
  }

  /** The path, and what is checked out there. */
  function HeadItems(w: RawWorktree): seq<Item> {
    if w.bare then [Item(Worktree, w.path), Item(Bare, "")]
    else [Item(Worktree, w.path), Item(Head, w.head),
          if w.detached then Item(Detached, "") else Item(Branch, HEADS + w.branch)]
  }

  /** How Git prints a worktree; `why` is the reason it gives for a prunable one, which the parser does not keep. */
  function Items(w: RawWorktree, why: string): seq<Item> {
    HeadItems(w)
    + (if w.locked then [Item(Locked, w.lockReason)] else [])
    + (if w.prunable then [Item(Prunable, why)] else [])
  }

  function Texts(items: seq<Item>): (fields: seq<string>)
    ensures |fields| == |items| && forall i :: 0 <= i < |fields| ==> fields[i] == Text(items[i])
  {
    seq(|items|, i requires 0 <= i < |items| => Text(items[i]))
  }

  datatype Listed = Listed(worktree: RawWorktree, why: string)

  function PrintRecord(x: Listed): string {
    Join(Texts(Items(x.worktree, x.why)), NUL)
  }

  function Print(ws: seq<Listed>): string {
    if ws == [] then "" else PrintRecord(ws[0]) + NULS + Print(ws[1..])
  }

  /** A worktree that Git can list: names and reasons may hold anything but NUL. */
  ghost predicate WellFormed(x: Listed) {
    var w := x.worktree;
    && Unambiguous(w) && NUL !in w.path && NUL !in w.lockReason && NUL !in x.why
    && (w.branch != "" ==> ValidBranchName(w.branch))
    && (!w.locked ==> w.lockReason == "")
  }

  ghost predicate AllWellFormed(ws: seq<Listed>) {
    && (forall i :: 0 <= i < |ws| ==> WellFormed(ws[i]))
    && (forall i, j :: 0 <= i < j < |ws| ==> ws[i].worktree.path != ws[j].worktree.path)
  }

  // ---------------------------------------------------------------- the round trip of one record

  lemma TextParts(item: Item)
    ensures Name(Text(item)) == Word(item.key) && Value(Text(item)) == item.value && KeyIn(Text(item)) == Some(item.key)
  {
    var word := Word(item.key);
    if item.value == "" {
      FindAfter(word, "", ' ');
      assert word + "" == word;
    } else {
      StatusPorcelain.CutAt(word, item.value, ' ');
    }
    WordsDiffer();
  }

  lemma WordsDiffer()
    ensures forall j: Key, k: Key :: Word(j) == Word(k) ==> j == k
  {
    forall j: Key, k: Key | Word(j) == Word(k) ensures j == k {
      var key := KeyOf(Word(j));
    }
  }

  /** Items of one record: the path first, no key twice, every value in order. */
  ghost predicate GoodItems(items: seq<Item>) {
    && items != [] && items[0].key == Worktree
    && (forall i, j :: 0 <= i < j < |items| ==> items[i].key != items[j].key)
    && (forall i :: 0 <= i < |items| ==> ValidValue(items[i].key, items[i].value))
  }

  lemma GoodItemsKnown(items: seq<Item>)
    requires GoodItems(items)
    ensures KnownFields(Texts(items))
  {
    var fields := Texts(items);
    forall i | 0 <= i < |items|
      ensures Name(fields[i]) == Word(items[i].key) && Value(fields[i]) == items[i].value
              && KeyIn(fields[i]) == Some(items[i].key)
    {
      TextParts(items[i]);
    }
    WordsDiffer();
  }

  const EMPTY := RawWorktree("", "", "", false, false, "", false, false)

  function Filled(items: seq<Item>): RawWorktree {
    if items == [] then EMPTY else WithField(Filled(items[..|items| - 1]), items[|items| - 1].key,
                                             items[|items| - 1].value)
  }

  ghost predicate DistinctItems(items: seq<Item>) {
    forall i, j :: 0 <= i < j < |items| ==> items[i].key != items[j].key
  }

  lemma TextsOneMore(items: seq<Item>, item: Item)
    requires DistinctItems(items + [item])
    ensures Texts(items + [item]) == Texts(items) + [Text(item)]
    ensures KeyIn(Text(item)) == Some(item.key) && Value(Text(item)) == item.value
    ensures forall i :: 0 <= i < |items| ==> KeyIn(Texts(items)[i]) != Some(item.key)
  {
    TextParts(item);
    forall i | 0 <= i < |items| ensures KeyIn(Texts(items)[i]) != Some(item.key) {
      TextParts(items[i]);
      assert (items + [item])[i].key != (items + [item])[|items|].key;
    }
  }

  lemma {:induction false} MeaningIsFilled(items: seq<Item>)
    requires DistinctItems(items)
    ensures Meaning(Texts(items)) == Filled(items)
  {
    if items != [] {
      var fewer, last := items[..|items| - 1], items[|items| - 1];
      Sequences.LastOf(items);
      MeaningIsFilled(fewer);
      TextsOneMore(fewer, last);
      MeaningOneMore(Texts(fewer), Text(last));
    }
  }

  lemma FilledOneMore(items: seq<Item>, item: Item)
    ensures Filled(items + [item]) == WithField(Filled(items), item.key, item.value)
  {
    Sequences.Snoc(items, item);
  }

  function Headed(w: RawWorktree): RawWorktree {
    EMPTY.(path := w.path, head := w.head, branch := w.branch, detached := w.detached, bare := w.bare)
  }

  lemma HeadItemsFill(w: RawWorktree)
    requires Unambiguous(w)
    ensures Filled(HeadItems(w)) == Headed(w)
  {
    var path := Item(Worktree, w.path);
    assert [] + [path] == [path];
    FilledOneMore([], path);
    if w.bare {
      FilledOneMore([path], Item(Bare, ""));
      assert HeadItems(w) == [path] + [Item(Bare, "")];
    } else {
      var head, last := Item(Head, w.head), HeadItems(w)[2];
      FilledOneMore([path], head);
      assert [path] + [head] == [path, head];
      FilledOneMore([path, head], last);
      assert HeadItems(w) == [path, head] + [last];
      assert (HEADS + w.branch)[|HEADS|..] == w.branch;
    }
  }

  /** Filling in what is printed gives the worktree back. */
  lemma ItemsFill(x: Listed)
    requires WellFormed(x)
    ensures Filled(Items(x.worktree, x.why)) == x.worktree
  {
    var w, items := x.worktree, HeadItems(x.worktree);
    HeadItemsFill(w);
    if w.locked {
      FilledOneMore(items, Item(Locked, w.lockReason));
      items := items + [Item(Locked, w.lockReason)];
    }
    if w.prunable {
      FilledOneMore(items, Item(Prunable, x.why));
      items := items + [Item(Prunable, x.why)];
    }
    assert items == Items(w, x.why);
  }

  lemma GoodOneMore(items: seq<Item>, item: Item)
    requires GoodItems(items) && ValidValue(item.key, item.value)
    requires forall i :: 0 <= i < |items| ==> items[i].key != item.key
    ensures GoodItems(items + [item])
  {
  }

  lemma HeadItemsGood(w: RawWorktree)
    requires Unambiguous(w) && (w.branch != "" ==> ValidBranchName(w.branch))
    ensures GoodItems(HeadItems(w))
    ensures forall item <- HeadItems(w) :: item.key != Locked && item.key != Prunable
  {
    assert (HEADS + w.branch)[|HEADS|..] == w.branch;
  }

  lemma ItemsGood(x: Listed)
    requires WellFormed(x)
    ensures GoodItems(Items(x.worktree, x.why))
  {
    var w, items := x.worktree, HeadItems(x.worktree);
    HeadItemsGood(w);
    if w.locked {
      GoodOneMore(items, Item(Locked, w.lockReason));
      items := items + [Item(Locked, w.lockReason)];
    }
    if w.prunable {
      GoodOneMore(items, Item(Prunable, x.why));
      items := items + [Item(Prunable, x.why)];
    }
    assert items == Items(w, x.why);
  }

  /** Parsing a printed record gives the worktree back. */
  lemma PrintedRecordMeans(x: Listed)
    requires WellFormed(x)
    ensures ValidRecord(Texts(Items(x.worktree, x.why))) && Meaning(Texts(Items(x.worktree, x.why))) == x.worktree
  {
    var items := Items(x.worktree, x.why);
    ItemsGood(x);
    GoodItemsKnown(items);
    MeaningIsFilled(items);
    ItemsFill(x);
  }

  // ---------------------------------------------------------------- the round trip of a whole list

  /** Text that holds no two NULs in a row and does not end with one. */
  ghost predicate Plain(s: string) {
    s != "" && s[|s| - 1] != NUL && forall i :: 0 < i < |s| ==> s[i - 1] != NUL || s[i] != NUL
  }

  lemma {:induction false} FindDoubleAfter(s: string, rest: string)
    requires Plain(s)
    ensures FindDouble(s + NULS + rest) == |s|
  {
    var t := s + NULS + rest;
    if |s| == 1 {
      assert t[0] == s[0] && t[1..][0] == NUL && t[1..][1] == NUL;
    } else {
      assert Plain(s[1..]);
      FindDoubleAfter(s[1..], rest);
      assert t[1..] == s[1..] + NULS + rest;
      assert t[0] == s[0] && t[1] == s[1];
      assert s[1 - 1] != NUL || s[1] != NUL;
    }
  }

  lemma {:induction false} FindDoubleNone(s: string)
    requires Plain(s)
    ensures FindDouble(s) == |s|
  {
    if |s| >= 2 {
      assert Plain(s[1..]);
      FindDoubleNone(s[1..]);
      assert s[1 - 1] != NUL || s[1] != NUL;
    }
  }

  lemma SplitDoubleFirst(s: string, rest: string)
    requires Plain(s)
    ensures SplitDouble(s + NULS + rest) == [s] + SplitDouble(rest)
    ensures SplitDouble(s) == [s]
  {
    FindDoubleAfter(s, rest);
    FindDoubleNone(s);
    var t := s + NULS + rest;
    assert t[..|s|] == s && t[|s| + 2..] == rest;
  }

  /** Words without NULs, none of them empty, joined by NULs. */
  lemma {:induction false} JoinedPlain(fields: seq<string>)
    requires fields != [] && forall i :: 0 <= i < |fields| ==> fields[i] != "" && NUL !in fields[i]
    ensures Plain(Join(fields, NUL)) && Join(fields, NUL)[0] != NUL
  {
    var first := fields[0];
    assert first[0] in first && first[|first| - 1] in first;
    if |fields| > 1 {
      JoinedPlain(fields[1..]);
      PlainTogether(first, Join(fields[1..], NUL));
    }
  }

  lemma PlainTogether(first: string, rest: string)
    requires first != "" && NUL !in first && Plain(rest) && rest[0] != NUL
    ensures Plain(first + [NUL] + rest)
  {
    var s := first + [NUL] + rest;
    forall i | 0 < i < |s| ensures s[i - 1] != NUL || s[i] != NUL {
      if i <= |first| {
        assert s[i - 1] == first[i - 1] && first[i - 1] in first;
      } else if i > |first| + 1 {
        assert s[i - 1] == rest[i - |first| - 2] && s[i] == rest[i - |first| - 1];
      }
    }
  }

  lemma RecordPlain(x: Listed)
    requires WellFormed(x)
    ensures Plain(PrintRecord(x)) && Split(PrintRecord(x), NUL) == Texts(Items(x.worktree, x.why))
  {
    var items := Items(x.worktree, x.why);
    var fields := Texts(items);
    ItemsGood(x);
    forall i | 0 <= i < |items| ensures fields[i] != "" && NUL !in fields[i] {
      NoNulPrinted(x, i);
    }
    JoinedPlain(fields);
    SplitJoin(fields, NUL);
  }

  lemma NoNulPrinted(x: Listed, i: nat)
    requires WellFormed(x) && i < |Items(x.worktree, x.why)|
    ensures Text(Items(x.worktree, x.why)[i]) != "" && NUL !in Text(Items(x.worktree, x.why)[i])
  {
    var w, item := x.worktree, Items(x.worktree, x.why)[i];
    assert NUL !in HEADS;
    assert w.branch != "" ==> ValidBranchName(w.branch) && NUL !in w.branch;
    assert NUL !in item.value;
  }

  function PrintedRecords(ws: seq<Listed>): (bodies: seq<string>)
    ensures |bodies| == |ws| && forall i :: 0 <= i < |bodies| ==> bodies[i] == PrintRecord(ws[i])
  {
    seq(|ws|, i requires 0 <= i < |ws| => PrintRecord(ws[i]))
  }

  lemma Trimmed(first: string, rest: string)
    ensures (first + NULS)[..|first + NULS| - 2] == first
    ensures |rest| >= 2 ==> (first + NULS + rest)[..|first + NULS + rest| - 2] == first + NULS + rest[..|rest| - 2]
  {
  }

  function PrintBodies(bodies: seq<string>): string {
    if bodies == [] then "" else bodies[0] + NULS + PrintBodies(bodies[1..])
  }

  lemma {:induction false} BodiesSplit(bodies: seq<string>)
    requires bodies != [] && forall i :: 0 <= i < |bodies| ==> Plain(bodies[i])
    ensures HasSuffix(PrintBodies(bodies), NULS) && Records(PrintBodies(bodies)) == bodies
  {
    var first, rest := bodies[0], PrintBodies(bodies[1..]);
    Sequences.FirstOf(bodies);
    if |bodies| == 1 {
      assert PrintBodies(bodies) == first + NULS;
      OnlyRecord(first);
    } else {
      BodiesSplit(bodies[1..]);
      FirstRecord(first, rest);
    }
  }

  lemma OnlyRecord(first: string)
    requires Plain(first)
    ensures HasSuffix(first + NULS, NULS) && Records(first + NULS) == [first]
  {
    Trimmed(first, "");
    SplitDoubleFirst(first, "");
  }

  lemma FirstRecord(first: string, rest: string)
    requires Plain(first) && HasSuffix(rest, NULS)
    ensures HasSuffix(first + NULS + rest, NULS) && Records(first + NULS + rest) == [first] + Records(rest)
  {
    Trimmed(first, rest);
    SplitDoubleFirst(first, rest[..|rest| - 2]);
  }

  lemma {:induction false} PrintIsBodies(ws: seq<Listed>)
    ensures Print(ws) == PrintBodies(PrintedRecords(ws))
  {
    if ws != [] {
      PrintIsBodies(ws[1..]);
      assert PrintedRecords(ws)[1..] == PrintedRecords(ws[1..]);
    }
  }

  lemma RecordsPlain(ws: seq<Listed>)
    requires forall i :: 0 <= i < |ws| ==> WellFormed(ws[i])
    ensures forall i :: 0 <= i < |PrintedRecords(ws)| ==> Plain(PrintedRecords(ws)[i])
  {
    forall i | 0 <= i < |ws| ensures Plain(PrintedRecords(ws)[i]) {
      RecordPlain(ws[i]);
    }
  }

  lemma PrintSplits(ws: seq<Listed>)
    requires ws != [] && forall i :: 0 <= i < |ws| ==> WellFormed(ws[i])
    ensures HasSuffix(Print(ws), NULS) && Records(Print(ws)) == PrintedRecords(ws)
  {
    RecordsPlain(ws);
    PrintIsBodies(ws);
    BodiesSplit(PrintedRecords(ws));
  }

  lemma {:induction false} SplitDoubleBack(s: string)
    ensures PrintBodies(SplitDouble(s)) == s + NULS
    decreases |s|
  {
    var i := FindDouble(s);
    if i == |s| {
      assert SplitDouble(s)[1..] == [];
      assert PrintBodies(SplitDouble(s)) == s + NULS + "";
    } else {
      SplitDoubleBack(s[i + 2..]);
      assert SplitDouble(s)[1..] == SplitDouble(s[i + 2..]);
      assert s == s[..i] + NULS + s[i + 2..];
    }
  }

  /** What a worktree says about one attribute agrees with the value that a field gives it; only the reason for being
      prunable is not kept. */
  ghost predicate Says(w: RawWorktree, key: Key, value: string) {
    match key
    case Worktree => w.path == value
    case Head => w.head == value
    case Branch => w.branch != "" && HEADS + w.branch == value
    case Detached => w.detached
    case Bare => w.bare
    case Locked => w.locked && w.lockReason == value
    case Prunable => w.prunable
  }

  /** The attribute can be told from the worktree. */
  ghost predicate Shows(w: RawWorktree, key: Key) {
    match key
    case Worktree => true
    case Head => w.head != ""
    case Branch => w.branch != ""
    case Detached => w.detached
    case Bare => w.bare
    case Locked => w.locked
    case Prunable => w.prunable
  }

  lemma {:induction false} AttributeOfField(fields: seq<string>, i: nat)
    requires i < |fields| && KeyIn(fields[i]).Some?
    requires forall j, k :: 0 <= j < k < |fields| ==> Name(fields[j]) != Name(fields[k])
    ensures Attribute(fields, KeyIn(fields[i]).value) == Some(Value(fields[i]))
  {
    var last := |fields| - 1;
    if i < last {
      assert Name(fields[i]) != Name(fields[last]);
      AttributeOfField(fields[..last], i);
    }
  }

  lemma {:induction false} AttributeHasField(fields: seq<string>, key: Key) returns (i: nat)
    requires Attribute(fields, key).Some?
    ensures i < |fields| && KeyIn(fields[i]) == Some(key)
  {
    i := |fields| - 1;
    if KeyIn(fields[i]) != Some(key) { i := AttributeHasField(fields[..i], key); }
  }

  /** The field is of the attribute that the worktree says this of. */
  ghost predicate FieldKept(field: string, w: RawWorktree) {
    KeyIn(field).Some? && Says(w, KeyIn(field).value, Value(field))
  }

  ghost predicate AttributeKept(fields: seq<string>, key: Key) {
    exists i :: 0 <= i < |fields| && KeyIn(fields[i]) == Some(key)
  }

  /** The fields of a valid record and the worktree it means say the same: every field shows in the worktree with its
      value, and whatever shows in the worktree is a field. */
  lemma FieldsAreKept(fields: seq<string>)
    requires ValidRecord(fields)
    ensures forall i {:trigger FieldKept(fields[i], Meaning(fields))} :: 0 <= i < |fields| ==>
              FieldKept(fields[i], Meaning(fields))
    ensures forall key: Key {:trigger AttributeKept(fields, key)} :: Shows(Meaning(fields), key) ==>
              AttributeKept(fields, key)
  {
    forall i | 0 <= i < |fields| ensures FieldKept(fields[i], Meaning(fields)) {
      FieldShows(fields, i);
    }
    forall key: Key | Shows(Meaning(fields), key) ensures AttributeKept(fields, key) {
      if key == Worktree { FirstIsPath(fields); } else { ShownIsAttribute(fields, key); }
    }
  }

  lemma FirstIsPath(fields: seq<string>)
    requires KnownFields(fields)
    ensures AttributeKept(fields, Worktree)
  {
  }

  lemma ShownIsAttribute(fields: seq<string>, key: Key)
    requires key != Worktree && Shows(Meaning(fields), key)
    ensures AttributeKept(fields, key)
  {
    ShownIsGiven(fields, key);
    var i := AttributeHasField(fields, key);
  }

  lemma ShownIsGiven(fields: seq<string>, key: Key)
    requires key != Worktree && Shows(Meaning(fields), key)
    ensures Attribute(fields, key).Some?
  {
  }

  lemma FieldShows(fields: seq<string>, i: nat)
    requires KnownFields(fields) && i < |fields|
    ensures FieldKept(fields[i], Meaning(fields))
  {
    assert KnownField(fields[i]);
    AttributeOfField(fields, i);
    GivenIsSaid(fields, KeyIn(fields[i]).value, Value(fields[i]));
  }

  lemma GivenIsSaid(fields: seq<string>, key: Key, value: string)
    requires Attribute(fields, key) == Some(value) && ValidValue(key, value)
    ensures Says(Meaning(fields), key, value)
  {
    if key == Branch { RefHasName(value); }
  }

  lemma RefHasName(value: string)
    requires ValidRef(value)
    ensures BranchOf(value) != "" && HEADS + BranchOf(value) == value
  {
  }

  /** An accepted input is its records put together again, and each record says what its worktree says. */
  lemma AcceptedIsItsRecords(contents: string)
    requires Acceptable(contents)
    ensures contents == PrintBodies(Records(contents))
    ensures forall k :: 0 <= k < |Records(contents)| ==> Kept(Records(contents)[k], Meanings(Records(contents))[k])
  {
    SplitDoubleBack(contents[..|contents| - 2]);
    assert contents == contents[..|contents| - 2] + NULS;
    forall k | 0 <= k < |Records(contents)| ensures Kept(Records(contents)[k], Meanings(Records(contents))[k]) {
      JoinSplit(Records(contents)[k], NUL);
      FieldsAreKept(Split(Records(contents)[k], NUL));
    }
  }

  /** The record is its fields, and they and the worktree say the same. */
  ghost predicate Kept(record: string, w: RawWorktree) {
    var fields := Split(record, NUL);
    && record == Join(fields, NUL)
    && (forall i {:trigger FieldKept(fields[i], w)} :: 0 <= i < |fields| ==> FieldKept(fields[i], w))
    && (forall key: Key {:trigger AttributeKept(fields, key)} :: Shows(w, key) ==> AttributeKept(fields, key))
  }

  function Worktrees(ws: seq<Listed>): (r: seq<RawWorktree>)
    ensures |r| == |ws| && forall i :: 0 <= i < |r| ==> r[i] == ws[i].worktree
  {
    seq(|ws|, i requires 0 <= i < |ws| => ws[i].worktree)
  }

  /** Parsing what Git prints gives the same list: every printed list is accepted and means what was printed. */
  lemma RoundTrip(ws: seq<Listed>)
    requires ws != [] && AllWellFormed(ws)
    ensures Acceptable(Print(ws)) && Meanings(Records(Print(ws))) == Worktrees(ws)
  {
    PrintSplits(ws);
    forall i | 0 <= i < |ws|
      ensures ValidRecord(Split(Records(Print(ws))[i], NUL))
              && Meaning(Split(Records(Print(ws))[i], NUL)) == ws[i].worktree
    {
      RecordPlain(ws[i]);
      PrintedRecordMeans(ws[i]);
    }
    assert Meanings(Records(Print(ws))) == Worktrees(ws);
  }
}
