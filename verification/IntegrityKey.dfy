/** The race to create one shared integrity key: any number of calls of `localIntegrityKey` in any interleaving.

    Each call runs the steps of the source: read the key; if there is none, draw one, write it to a private
    staging file, and link that file to the final name; if another call linked first, read the winner's key. */
module IntegrityKey {
  import opened FileSystem

  const KEY_SIZE := 32

  type Call = nat
  type FileId = nat

  datatype LinkResult = Linked | AlreadyExists | OtherError

  /** Where a call is. `again` marks the second reading, after losing the race. */
  datatype Place =
    | Start
    | Opened(file: FileId, again: bool)
    | Reading(file: FileId, got: Bytes, again: bool)
    | NotFound
    | Drawn(key: Bytes)
    | NothingThere(key: Bytes)
    | Staging(key: Bytes, file: FileId, written: nat)
    | Synced(key: Bytes, file: FileId)
    | Removing(key: Bytes, file: FileId, link: LinkResult)
    | Lost
    | Returned(key: Bytes)
    | Failed

  /** The files that ever existed, what the final name is linked to, the calls, and how often a link succeeded. */
  datatype State = State(files: map<FileId, Bytes>, name: Option<FileId>, calls: map<Call, Place>, create: set<Call>,
                         links: nat)

  function At(s: State, c: Call): Place {
    if c in s.calls then s.calls[c] else Start
  }

  function Move(s: State, c: Call, place: Place): State {
    s.(calls := s.calls[c := place])
  }

  ghost predicate Init(s: State) {
    && s.calls == map[] && s.links == 0
    && (s.name.Some? ==> s.name.value in s.files)
  }

  // ---------------------------------------------------------------- steps

  /** Opening the final name, the first time or again after losing the race. */
  ghost predicate Open(s: State, c: Call, t: State) {
    && (At(s, c).Start? || At(s, c).Lost?)
    && match s.name
       case Some(f) => t == Move(s, c, Opened(f, At(s, c).Lost?))
       case None => t == Move(s, c, if At(s, c).Start? && c in s.create then NotFound else Failed)
  }

  /** The size check of `ReadPrivateFile`. */
  ghost predicate CheckSize(s: State, c: Call, t: State) {
    && At(s, c).Opened? && At(s, c).file in s.files
    && t == Move(s, c,
                 if |s.files[At(s, c).file]| > KEY_SIZE then Failed else Reading(At(s, c).file, [], At(s, c).again))
  }

  /** One read of `io.ReadAll`: any further part of what the file holds now, at most one byte beyond the limit. */
  ghost predicate ReadSome(s: State, c: Call, t: State) {
    At(s, c).Reading? && At(s, c).file in s.files && exists n: nat :: ReadUpTo(s, c, t, n)
  }

  ghost predicate ReadUpTo(s: State, c: Call, t: State, n: nat)
    requires At(s, c).Reading? && At(s, c).file in s.files
  {
    var Reading(file, got, again) := At(s, c);
    && |got| < n <= |s.files[file]| && n <= KEY_SIZE + 1
    && t == Move(s, c, Reading(file, got + s.files[file][|got|..n], again))
  }

  /** The end of the file or of the limit, the growth check, and `validateIntegrityKey`. */
  ghost predicate ReadEnd(s: State, c: Call, t: State) {
    && At(s, c).Reading? && At(s, c).file in s.files
    && (|At(s, c).got| >= |s.files[At(s, c).file]| || |At(s, c).got| > KEY_SIZE)
    && t == Move(s, c, if |At(s, c).got| == KEY_SIZE then Returned(At(s, c).got) else Failed)
  }

  ghost predicate Draw(s: State, c: Call, t: State) {
    At(s, c).NotFound? && exists key: Bytes :: DrawKey(s, c, t, key)
  }

  ghost predicate DrawKey(s: State, c: Call, t: State, key: Bytes) {
    |key| == KEY_SIZE && t == Move(s, c, Drawn(key))
  }

  /** The first look of `WritePrivateFile` at the final name. */
  ghost predicate Look(s: State, c: Call, t: State) {
    && At(s, c).Drawn?
    && t == Move(s, c, if s.name.Some? then Lost else NothingThere(At(s, c).key))
  }

  /** Exclusive creation of a new, empty staging file. */
  ghost predicate Stage(s: State, c: Call, t: State) {
    At(s, c).NothingThere? && exists f: FileId :: StageIn(s, c, t, f)
  }

  ghost predicate StageIn(s: State, c: Call, t: State, f: FileId)
    requires At(s, c).NothingThere?
  {
    f !in s.files && t == Move(s.(files := s.files[f := []]), c, Staging(At(s, c).key, f, 0))
  }

  /** Part of the write of the key into the staging file. */
  ghost predicate Write(s: State, c: Call, t: State) {
    At(s, c).Staging? && exists n: nat :: WriteUpTo(s, c, t, n)
  }

  ghost predicate WriteUpTo(s: State, c: Call, t: State, n: nat)
    requires At(s, c).Staging?
  {
    var Staging(key, file, written) := At(s, c);
    written < n <= |key| && t == Move(s.(files := s.files[file := key[..n]]), c, Staging(key, file, n))
  }

  /** Everything written, synced and closed. */
  ghost predicate Sync(s: State, c: Call, t: State) {
    && At(s, c).Staging? && At(s, c).written == |At(s, c).key|
    && t == Move(s, c, Synced(At(s, c).key, At(s, c).file))
  }

  /** The link: the kernel makes it fail when the final name exists. It may fail otherwise, too. */
  ghost predicate Link(s: State, c: Call, t: State) {
    && At(s, c).Synced?
    && var p := At(s, c);
       || t == Move(s, c, Removing(p.key, p.file, OtherError))
       || (s.name.Some? && t == Move(s, c, Removing(p.key, p.file, AlreadyExists)))
       || (s.name.None?
           && t == Move(s.(name := Some(p.file), links := s.links + 1), c, Removing(p.key, p.file, Linked)))
  }

  /** The deferred removal of the staging name, and how the call goes on: an existing final name means reading it,
      success needs both the link and the removal. */
  ghost predicate Remove(s: State, c: Call, t: State) {
    && At(s, c).Removing?
    && match At(s, c).link
       case Linked => t == Move(s, c, Returned(At(s, c).key)) || t == Move(s, c, Failed)
       case AlreadyExists => t == Move(s, c, Lost)
       case OtherError => t == Move(s, c, Failed)
  }

  /** Any step may fail, the context may end, the process may die: the call never returns a key. */
  ghost predicate Give(s: State, c: Call, t: State) {
    !At(s, c).Returned? && t == Move(s, c, Failed)
  }

  ghost predicate Step(s: State, c: Call, t: State) {
    || Open(s, c, t) || CheckSize(s, c, t) || ReadSome(s, c, t) || ReadEnd(s, c, t)
    || Draw(s, c, t) || Look(s, c, t) || Stage(s, c, t) || Write(s, c, t)
    || Sync(s, c, t) || Link(s, c, t) || Remove(s, c, t) || Give(s, c, t)
  }

  /** A run: any number of calls taking steps in any order. */
  ghost predicate Run(states: seq<State>) {
    && |states| > 0 && Init(states[0])
    && forall i :: 0 <= i < |states| - 1 ==> Next(states[i], states[i + 1])
  }

  ghost predicate Next(s: State, t: State) {
    exists c :: Step(s, c, t)
  }

  // ---------------------------------------------------------------- the invariant

  predicate Owns(p: Place, f: FileId) {
    (p.Staging? || p.Synced?) && p.file == f
  }

  /** What holds of each call: what it wrote is its own; what it read or linked is what the final name holds. */
  predicate CallGood(s: State, c: Call) {
    match At(s, c)
    case Staging(key, f, n) => |key| == KEY_SIZE && n <= |key| && f in s.files && s.files[f] == key[..n]
        && s.name != Some(f)
    case Synced(key, f) => |key| == KEY_SIZE && f in s.files && s.files[f] == key && s.name != Some(f)
    case Opened(f, _) => s.name == Some(f)
    case Reading(f, got, _) => s.name == Some(f) && f in s.files && got <= s.files[f]
    case Drawn(key) => |key| == KEY_SIZE
    case NothingThere(key) => |key| == KEY_SIZE
    case Removing(key, f, link) => |key| == KEY_SIZE
        && (link.Linked? ==> s.name == Some(f) && f in s.files && s.files[f] == key)
    case Returned(key) => |key| == KEY_SIZE && s.name.Some? && s.name.value in s.files && s.files[s.name.value] == key
    case _ => true
  }

  ghost predicate Inv(s: State) {
    && (s.name.Some? ==> s.name.value in s.files)
    && (forall c :: CallGood(s, c))
    && (forall c, d, f :: Owns(At(s, c), f) && Owns(At(s, d), f) ==> c == d)
  }

  /** The file behind the final name is never touched. */
  lemma NamedFileStays(s: State, c: Call, t: State)
    requires Inv(s) && Step(s, c, t) && s.name.Some?
    ensures t.name == s.name && t.name.value in t.files && t.files[t.name.value] == s.files[s.name.value]
  {
    assert CallGood(s, c);
  }

  lemma OthersStay(s: State, c: Call, t: State)
    requires Step(s, c, t)
    ensures forall d :: d != c ==> At(t, d) == At(s, d)
  {
  }

  /** A file that another call is writing stays as it is. */
  lemma OwnedFileStays(s: State, c: Call, t: State, d: Call)
    requires Inv(s) && Step(s, c, t) && d != c && (At(s, d).Staging? || At(s, d).Synced?)
    ensures At(s, d).file in s.files && At(s, d).file in t.files && t.files[At(s, d).file] == s.files[At(s, d).file]
            && t.name != Some(At(s, d).file)
  {
    assert CallGood(s, d) && CallGood(s, c);
    assert Owns(At(s, d), At(s, d).file);
    if At(s, c).Staging? || At(s, c).Synced? {
      assert Owns(At(s, c), At(s, c).file);
    }
  }

  lemma OtherCallsStayGood(s: State, c: Call, t: State, d: Call)
    requires Inv(s) && Step(s, c, t) && d != c
    ensures CallGood(t, d)
  {
    OthersStay(s, c, t);
    assert CallGood(s, d);
    if s.name.Some? { NamedFileStays(s, c, t); }
    if At(s, d).Staging? || At(s, d).Synced? { OwnedFileStays(s, c, t, d); }
  }

  lemma MovingCallStaysGood(s: State, c: Call, t: State)
    requires Inv(s) && Step(s, c, t)
    ensures CallGood(t, c)
  {
    assert CallGood(s, c);
  }

  lemma OwnershipStays(s: State, c: Call, t: State)
    requires Inv(s) && Step(s, c, t)
    ensures forall d, e, f :: Owns(At(t, d), f) && Owns(At(t, e), f) ==> d == e
  {
    OthersStay(s, c, t);
    forall d, e, f | Owns(At(t, d), f) && Owns(At(t, e), f) ensures d == e {
      assert CallGood(s, d) && CallGood(s, e);
    }
  }

  lemma InvStays(s: State, c: Call, t: State)
    requires Inv(s) && Step(s, c, t)
    ensures Inv(t)
  {
    forall d ensures CallGood(t, d) {
      if d == c { MovingCallStaysGood(s, c, t); } else { OtherCallsStayGood(s, c, t, d); }
    }
    OwnershipStays(s, c, t);
    if s.name.Some? { NamedFileStays(s, c, t); }
    assert CallGood(s, c);
  }

  // ---------------------------------------------------------------- whole runs

  lemma {:induction false} RunKeepsInv(states: seq<State>, i: nat)
    requires Run(states) && i < |states|
    ensures Inv(states[i])
  {
    if i > 0 {
      RunKeepsInv(states, i - 1);
      assert Next(states[i - 1], states[i - 1 + 1]);
      var c :| Step(states[i - 1], c, states[i]);
      InvStays(states[i - 1], c, states[i]);
    }
  }

  /** Once the final name exists it is the same file with the same contents for ever. */
  lemma {:induction false} NameIsForever(states: seq<State>, i: nat, j: nat)
    requires Run(states) && i <= j < |states| && states[i].name.Some?
    ensures states[i].name.value in states[i].files
    ensures states[j].name == states[i].name && states[j].name.value in states[j].files
    ensures states[j].files[states[j].name.value] == states[i].files[states[i].name.value]
    decreases j - i
  {
    RunKeepsInv(states, i);
    if i < j {
      assert Next(states[i], states[i + 1]);
      var c :| Step(states[i], c, states[i + 1]);
      NamedFileStays(states[i], c, states[i + 1]);
      NameIsForever(states, i + 1, j);
    }
  }

  /** Key agreement: all calls that return a key, whenever they do, return the same 32 bytes. */
  lemma CallsAgree(states: seq<State>, i: nat, c: Call, j: nat, d: Call)
    requires Run(states) && i < |states| && j < |states|
    requires At(states[i], c).Returned? && At(states[j], d).Returned?
    ensures At(states[i], c).key == At(states[j], d).key && |At(states[i], c).key| == KEY_SIZE
  {
    RunKeepsInv(states, i);
    RunKeepsInv(states, j);
    assert CallGood(states[i], c) && CallGood(states[j], d);
    NameIsForever(states, if i <= j then i else j, if i <= j then j else i);
  }

  lemma StepLinks(s: State, c: Call, t: State)
    requires Inv(s) && Step(s, c, t)
    ensures t.links == s.links + if s.name.None? && t.name.Some? then 1 else 0
    ensures s.name.None? && t.name.Some? ==> t.name.value in t.files && |t.files[t.name.value]| == KEY_SIZE
  {
    assert CallGood(s, c);
    if s.name.Some? { NamedFileStays(s, c, t); }
  }

  /** At most one link ever succeeds, and none when the key existed before. */
  lemma {:induction false} OneWinner(states: seq<State>, i: nat)
    requires Run(states) && i < |states|
    ensures states[i].links == if states[0].name.None? && states[i].name.Some? then 1 else 0
  {
    if i > 0 {
      OneWinner(states, i - 1);
      RunKeepsInv(states, i - 1);
      assert Next(states[i - 1], states[i - 1 + 1]);
      var c :| Step(states[i - 1], c, states[i]);
      StepLinks(states[i - 1], c, states[i]);
      if states[i - 1].name.Some? { NamedFileStays(states[i - 1], c, states[i]); }
      if states[0].name.Some? { NameIsForever(states, 0, i - 1); }
    }
  }

  lemma {:induction false} NamedFileIsWhole(states: seq<State>, i: nat)
    requires Run(states) && i < |states| && states[0].name.None? && states[i].name.Some?
    ensures states[i].name.value in states[i].files && |states[i].files[states[i].name.value]| == KEY_SIZE
  {
    RunKeepsInv(states, i - 1);
    assert Next(states[i - 1], states[i - 1 + 1]);
    var c :| Step(states[i - 1], c, states[i]);
    StepLinks(states[i - 1], c, states[i]);
    if states[i - 1].name.Some? {
      NamedFileIsWhole(states, i - 1);
      NamedFileStays(states[i - 1], c, states[i]);
    }
  }

  /** Nobody ever sees partial contents: in a run that starts without a key, the final name appears with all 32
      bytes, and what a call has read of it is a prefix of them. */
  lemma NeverPartial(states: seq<State>, i: nat, c: Call)
    requires Run(states) && i < |states| && states[0].name.None? && states[i].name.Some?
    ensures states[i].name.value in states[i].files && |states[i].files[states[i].name.value]| == KEY_SIZE
    ensures At(states[i], c).Reading? ==>
              states[i].name == Some(At(states[i], c).file)
              && At(states[i], c).got <= states[i].files[states[i].name.value]
  {
    NamedFileIsWhole(states, i);
    RunKeepsInv(states, i);
    assert CallGood(states[i], c);
  }

  /** A key file of another size, found at the start, makes every call fail. */
  lemma WrongSizeNeverReturned(states: seq<State>, i: nat, c: Call)
    requires Run(states) && i < |states| && states[0].name.Some? && |states[0].files[states[0].name.value]| != KEY_SIZE
    ensures !At(states[i], c).Returned?
  {
    RunKeepsInv(states, i);
    assert CallGood(states[i], c);
    NameIsForever(states, 0, i);
  }

  /** A call that lost the race needs four steps of its own, and nobody else's, to return the winner's key. */
  lemma LoserReadsWinner(s: State, c: Call) returns (found: State, sized: State, read: State, done: State)
    requires Inv(s) && At(s, c).Lost? && s.name.Some? && |s.files[s.name.value]| == KEY_SIZE
    ensures Step(s, c, found) && Step(found, c, sized) && Step(sized, c, read) && Step(read, c, done)
    ensures At(done, c) == Returned(s.files[s.name.value])
  {
    var file := s.name.value;
    var data := s.files[file];
    found := Move(s, c, Opened(file, true));
    sized := Move(found, c, Reading(file, [], true));
    read := Move(sized, c, Reading(file, data, true));
    done := Move(read, c, Returned(data));
    assert Open(s, c, found);
    assert CheckSize(found, c, sized);
    assert [] + data[0..KEY_SIZE] == data;
    assert ReadUpTo(sized, c, read, KEY_SIZE);
    assert ReadEnd(read, c, done);
  }
}
