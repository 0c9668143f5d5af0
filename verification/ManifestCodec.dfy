/** The canonical document of a snapshot manifest. */
module ManifestCodec {
  import opened Administrative
  import opened FileSystem
  import opened Paths
  import Domain
  import ManifestJson
  import Sorting

  const MAXIMUM_MANIFEST_BYTES := 32 * 1024 * 1024

  // ---------------------------------------------------------------- padded base64 (RFC 4648 section 4)

  function Digit(n: nat): (c: char)
    requires n < 64
    ensures c as int < 0x80 && c != '=' && c != '\r' && c != '\n'
  {
    if n < 26 then (65 + n) as char
    else if n < 52 then (97 + n - 26) as char
    else if n < 62 then (48 + n - 52) as char
    else if n == 62 then '+'
    else '/'
  }

  /** The digits of up to three bytes. */
  function Quad(data: Bytes): (s: string)
    requires 1 <= |data| <= 3
    ensures |s| == 4
  {
    var a, b, c: nat := data[0], if |data| > 1 then data[1] else 0, if |data| > 2 then data[2] else 0;
    [Digit(a / 4), Digit(a % 4 * 16 + b / 16), if |data| > 1 then Digit(b % 16 * 4 + c / 64) else '=',
     if |data| > 2 then Digit(c % 64) else '=']
  }

  function Encode64(data: Bytes): string {
    if data == [] then ""
    else if |data| <= 3 then Quad(data)
    else Quad(data[..3]) + Encode64(data[3..])
  }

  /** How many groups of four characters there are for n bytes, and how many bytes the last group is short of. */
  function Quads(n: nat): nat {
    if n == 0 then 0 else if n <= 3 then 1 else 1 + Quads(n - 3)
  }

  function Short(n: nat): (short: nat)
    ensures n + short == 3 * Quads(n)
  {
    if n == 0 then 0 else if n <= 3 then 3 - n else Short(n - 3)
  }

  /** ASCII text without line breaks. */
  predicate Inline(s: string) { forall c <- s :: c as int < 0x80 && c != '\r' && c != '\n' }

  lemma {:induction false} InlineLength(s: string)
    requires Inline(s)
    ensures Utf8Length(s) == |s|
  {
    if s != "" {
      assert s[0] in s && forall c <- s[1..] :: c in s;
      InlineLength(s[1..]);
    }
  }

  lemma InlineConcat(a: string, b: string)
    requires Inline(a) && Inline(b)
    ensures Inline(a + b)
  {
    forall c | c in a + b ensures c in a || c in b { }
  }

  lemma {:induction false} Encode64Inline(data: Bytes)
    ensures Inline(Encode64(data)) && |Encode64(data)| == 4 * Quads(|data|)
  {
    if |data| > 3 {
      Encode64Inline(data[3..]);
      InlineConcat(Quad(data[..3]), Encode64(data[3..]));
    }
  }

  lemma PaddingOfTail(a: string, b: string)
    requires |b| >= 2
    ensures ManifestJson.Padding(a + b) == ManifestJson.Padding(b)
  {
    var s := a + b;
    assert s[|s| - 1] == b[|b| - 1] && s[..|s| - 1][|s| - 2] == b[..|b| - 1][|b| - 2];
  }

  lemma {:induction false} Encode64Padding(data: Bytes)
    ensures ManifestJson.Padding(Encode64(data)) == Short(|data|)
  {
    if |data| > 3 {
      Encode64Padding(data[3..]);
      Encode64Inline(data[3..]);
      PaddingOfTail(Quad(data[..3]), Encode64(data[3..]));
    }
  }

  /** The size computed from the encoded text is the size of what was encoded. */
  lemma DecodedBytesExact(data: Bytes)
    ensures ManifestJson.DataToken(ManifestJson.Text(Encode64(data)))
    ensures ManifestJson.DataSize(ManifestJson.Text(Encode64(data))) == |data|
  {
    Encode64Inline(data);
    Encode64Padding(data);
    InlineLength(Encode64(data));
    FourTimes(Quads(|data|));
  }

  lemma FourTimes(q: nat)
    ensures 4 * q % 4 == 0 && 4 * q / 4 == q
  {
  }

  // ---------------------------------------------------------------- manifests and their documents

  datatype Manifest = Manifest(
    schemaVersion: int, toolVersion: string, planSchemaVersion: int, snapshotId: string, planId: string,
    candidateId: string,
    candidateFingerprint: string, policyDigest: string, adapterLockDigest: string, evidenceDigest: string,
    createdAt: Domain.Time, repositoryRoot: string, commonGitDir: string, worktreePath: string, adminDir: string,
    head: string,
    branch: string, recoveryRef: string, files: map<string, string>, untrackedFiles: int, untrackedBytes: int,
    administrativeEntries: seq<AdminEntry>)

  const PAYLOADS := ["staged.patch", "status.bin", "unstaged.patch", "untracked.tar.gz", "worktree-list.bin"]

  datatype Field = SchemaVersion | ToolVersion | PlanSchemaVersion | SnapshotId | PlanId | CandidateId
                 | CandidateFingerprint
                 | PolicyDigest | AdapterLockDigest | EvidenceDigest | CreatedAt | RepositoryRoot | CommonGitDir
                 | WorktreePath
                 | AdminDir | Head | Branch | RecoveryRef | Files | UntrackedFiles | UntrackedBytes
                 | AdministrativeEntries
                 | Path | EntryKind | Mode | Data

  function Label(f: Field): string {
    match f
    case SchemaVersion => "schemaVersion"
    case ToolVersion => "toolVersion"
    case PlanSchemaVersion => "planSchemaVersion"
    case SnapshotId => "snapshotId"
    case PlanId => "planId"
    case CandidateId => "candidateId"
    case CandidateFingerprint => "candidateFingerprint"
    case PolicyDigest => "policyDigest"
    case AdapterLockDigest => "adapterLockDigest"
    case EvidenceDigest => "evidenceDigest"
    case CreatedAt => "createdAt"
    case RepositoryRoot => "repositoryRoot"
    case CommonGitDir => "commonGitDir"
    case WorktreePath => "worktreePath"
    case AdminDir => "adminDir"
    case Head => "head"
    case Branch => "branch"
    case RecoveryRef => "recoveryRef"
    case Files => "files"
    case UntrackedFiles => "untrackedFiles"
    case UntrackedBytes => "untrackedBytes"
    case AdministrativeEntries => "administrativeEntries"
    case Path => "path"
    case EntryKind => "kind"
    case Mode => "mode"
    case Data => "data"
  }

  lemma OnlyData(f: Field)
    ensures ManifestJson.IsData(Label(f)) <==> f == Data
  {
  }

  /** How scalars are written; nothing depends on it. */
  datatype Scalars = Scalars(number: int -> string, moment: Domain.Time -> string, mode: FileMode -> string)

  /** A named scalar of a manifest document. */
  datatype Plain = Plain(field: Field, token: ManifestJson.Token)

  /** A scalar that is not a data field. */
  type Harmless = p: Plain | p.field != Data && ManifestJson.Plain(p.token) witness Plain(Path, ManifestJson.Null)

  function PlainEntry(p: Plain): ManifestJson.Entry {
    ManifestJson.Entry(Some(Label(p.field)), ManifestJson.Scalar(p.token))
  }

  function PlainEntries(ps: seq<Harmless>): seq<ManifestJson.Entry> {
    if ps == [] then [] else PlainEntries(ps[..|ps| - 1]) + [PlainEntry(ps[|ps| - 1])]
  }

  function Texts(f: Field, s: string): Harmless
    requires f != Data
  {
    Plain(f, ManifestJson.Text(s))
  }

  function Optional(f: Field, s: string): seq<Harmless>
    requires f != Data
  {
    if s == "" then [] else [Texts(f, s)]
  }

  function Numbers(f: Field, text: string): Harmless
    requires f != Data
  {
    Plain(f, ManifestJson.Number(text))
  }

  function Identities(scalars: Scalars, m: Manifest): (ps: seq<Harmless>)
    ensures |ps| == 10
  {
    [Numbers(SchemaVersion, scalars.number(m.schemaVersion)), Texts(ToolVersion, m.toolVersion),
     Numbers(PlanSchemaVersion, scalars.number(m.planSchemaVersion)), Texts(SnapshotId, m.snapshotId),
     Texts(PlanId, m.planId),
     Texts(CandidateId, m.candidateId), Texts(CandidateFingerprint, m.candidateFingerprint),
     Texts(PolicyDigest, m.policyDigest),
     Texts(AdapterLockDigest, m.adapterLockDigest), Texts(EvidenceDigest, m.evidenceDigest)]
  }

  function Places(scalars: Scalars, m: Manifest): (ps: seq<Harmless>)
    ensures |ps| == 6
  {
    [Texts(CreatedAt, scalars.moment(m.createdAt)), Texts(RepositoryRoot, m.repositoryRoot),
     Texts(CommonGitDir, m.commonGitDir),
     Texts(WorktreePath, m.worktreePath), Texts(AdminDir, m.adminDir), Texts(Head, m.head)]
  }

  /** The fields before the payload digests, in the order of the structure; an empty branch or reference is left out. */
  function Header(scalars: Scalars, m: Manifest): (ps: seq<Harmless>)
    ensures |ps| <= 18
  {
    Identities(scalars, m) + Places(scalars, m) + Optional(Branch, m.branch) + Optional(RecoveryRef, m.recoveryRef)
  }

  function Accounting(scalars: Scalars, m: Manifest): (ps: seq<Harmless>)
    ensures |ps| == 2
  {
    [Numbers(UntrackedFiles, scalars.number(m.untrackedFiles)),
     Numbers(UntrackedBytes, scalars.number(m.untrackedBytes))]
  }

  /** The digest of a payload; every valid manifest has one for each. */
  function DigestEntry(m: Manifest, name: string): ManifestJson.Entry {
    ManifestJson.Entry(Some(name),
                       ManifestJson.Scalar(ManifestJson.Text(if name in m.files then m.files[name] else "")))
  }

  function DigestEntries(m: Manifest, names: seq<string>): seq<ManifestJson.Entry> {
    if names == [] then [] else DigestEntries(m, names[..|names| - 1]) + [DigestEntry(m, names[|names| - 1])]
  }

  function DataText(data: Option<Bytes>): ManifestJson.Token {
    if data.Some? then ManifestJson.Text(Encode64(data.value)) else ManifestJson.Null
  }

  function EntryFields(scalars: Scalars, e: AdminEntry): (ps: seq<Harmless>)
    ensures |ps| == 3
  {
    [Texts(Path, e.path), Texts(EntryKind, e.kind), Numbers(Mode, scalars.mode(e.mode))]
  }

  /** One administrative entry. */
  function EntryValue(scalars: Scalars, e: AdminEntry): ManifestJson.Entry {
    ManifestJson.Entry(None,
                       ManifestJson.Collection(true,
                                               PlainEntries(EntryFields(scalars, e))
                                                   + [PlainEntry(Plain(Data, DataText(e.data)))]))
  }

  function EntryValues(scalars: Scalars, entries: seq<AdminEntry>): seq<ManifestJson.Entry> {
    if entries == [] then []
    else EntryValues(scalars, entries[..|entries| - 1]) + [EntryValue(scalars, entries[|entries| - 1])]
  }

  function Nested(f: Field, braces: bool, entries: seq<ManifestJson.Entry>): ManifestJson.Entry {
    ManifestJson.Entry(Some(Label(f)), ManifestJson.Collection(braces, entries))
  }

  /** The fields before the administrative entries. */
  function Fields(scalars: Scalars, m: Manifest): seq<ManifestJson.Entry> {
    PlainEntries(Header(scalars, m)) + [Nested(Files, true, DigestEntries(m, PAYLOADS))]
        + PlainEntries(Accounting(scalars, m))
  }

  /** The document that `json.Marshal` writes for a manifest. */
  function Document(scalars: Scalars, m: Manifest): ManifestJson.Value {
    ManifestJson.Collection(true,
                            Fields(scalars, m)
                                + [Nested(AdministrativeEntries, false, EntryValues(scalars, m.administrativeEntries))])
  }

  // ---------------------------------------------------------------- the limits of the documents that are written

  /** What the limits see of some entries of an object. */
  datatype Measure = Measure(count: nat, values: nat, nesting: nat, bytes: nat)

  /** Entries that are proper and shaped, with these measures. */
  ghost predicate Measures(braces: bool, entries: seq<ManifestJson.Entry>, m: Measure) {
    && ManifestJson.ProperAll(braces, entries) && ManifestJson.ShapedAll(entries)
    && |entries| == m.count && ManifestJson.ValuesOfAll(entries) == m.values
    && ManifestJson.NestingOfAll(entries) <= m.nesting
    && ManifestJson.DataBytesOfAll(entries) == m.bytes
  }

  lemma MeasuresAppend(braces: bool, a: seq<ManifestJson.Entry>, b: seq<ManifestJson.Entry>, ma: Measure, mb: Measure)
    requires Measures(braces, a, ma) && Measures(braces, b, mb)
    ensures Measures(braces, a + b, Measure(ma.count + mb.count, ma.values + mb.values,
                                            if ma.nesting < mb.nesting then mb.nesting else ma.nesting,
                                            ma.bytes + mb.bytes))
  {
    ManifestJson.AllAppend(braces, a, b);
    ManifestJson.LimitsAppend(a, b);
  }

  ghost predicate MeasuresOne(braces: bool, e: ManifestJson.Entry, values: nat, nesting: nat, bytes: nat) {
    && ManifestJson.ProperEntry(braces, e) && ManifestJson.ShapedEntry(e)
    && ManifestJson.Values(e.value) == values && ManifestJson.Nesting(e.value) <= nesting
    && ManifestJson.DataBytesOfEntry(e) == bytes
  }

  lemma MeasuresSingle(braces: bool, e: ManifestJson.Entry, values: nat, nesting: nat, bytes: nat)
    requires MeasuresOne(braces, e, values, nesting, bytes)
    ensures Measures(braces, [e], Measure(1, values, nesting, bytes))
  {
    ManifestJson.AllOne(braces, e);
    ManifestJson.LimitsOfOne(e);
  }

  lemma PlainMeasures(p: Harmless)
    ensures MeasuresOne(true, PlainEntry(p), 1, 0, 0)
  {
    OnlyData(p.field);
  }

  lemma {:induction false} PlainsMeasure(ps: seq<Harmless>)
    ensures Measures(true, PlainEntries(ps), Measure(|ps|, |ps|, 0, 0))
  {
    if ps != [] {
      var init, last := ps[..|ps| - 1], ps[|ps| - 1];
      PlainsMeasure(init);
      PlainMeasures(last);
      MeasuresSingle(true, PlainEntry(last), 1, 0, 0);
      MeasuresAppend(true, PlainEntries(init), [PlainEntry(last)], Measure(|init|, |init|, 0, 0), Measure(1, 1, 0, 0));
    }
  }

  lemma {:induction false} DigestsMeasure(m: Manifest, names: seq<string>)
    requires forall name <- names :: !ManifestJson.IsData(name)
    ensures Measures(true, DigestEntries(m, names), Measure(|names|, |names|, 0, 0))
  {
    if names != [] {
      var init, last := names[..|names| - 1], names[|names| - 1];
      DigestsMeasure(m, init);
      MeasuresSingle(true, DigestEntry(m, last), 1, 0, 0);
      MeasuresAppend(true, DigestEntries(m, init), [DigestEntry(m, last)], Measure(|init|, |init|, 0, 0),
                     Measure(1, 1, 0, 0));
    }
  }

  lemma DataMeasures(data: Option<Bytes>)
    ensures MeasuresOne(true, PlainEntry(Plain(Data, DataText(data))), 1, 0, if data.Some? then |data.value| else 0)
  {
    OnlyData(Data);
    if data.Some? { DecodedBytesExact(data.value); }
  }

  lemma EntryMeasures(scalars: Scalars, e: AdminEntry)
    ensures MeasuresOne(false, EntryValue(scalars, e), 5, 1, e.Size())
  {
    var fields, data := EntryFields(scalars, e), PlainEntry(Plain(Data, DataText(e.data)));
    PlainsMeasure(fields);
    DataMeasures(e.data);
    MeasuresSingle(true, data, 1, 0, e.Size());
    MeasuresAppend(true, PlainEntries(fields), [data], Measure(3, 3, 0, 0), Measure(1, 1, 0, e.Size()));
    MeasuresObject(PlainEntries(fields) + [data], Measure(4, 4, 0, e.Size()));
  }

  lemma MeasuresObject(entries: seq<ManifestJson.Entry>, m: Measure)
    requires Measures(true, entries, m) && m.count <= 32
    ensures MeasuresOne(false, ManifestJson.Entry(None, ManifestJson.Collection(true, entries)), m.values + 1,
                        m.nesting + 1, m.bytes)
  {
  }

  lemma {:induction false} EntriesMeasure(scalars: Scalars, entries: seq<AdminEntry>)
    ensures Measures(false, EntryValues(scalars, entries), Measure(|entries|, 5 * |entries|, 1, TotalBytes(entries)))
  {
    if entries != [] {
      var init, last := entries[..|entries| - 1], entries[|entries| - 1];
      EntriesMeasure(scalars, init);
      EntryMeasures(scalars, last);
      MeasuresSingle(false, EntryValue(scalars, last), 5, 1, last.Size());
      MeasuresAppend(false, EntryValues(scalars, init), [EntryValue(scalars, last)],
                     Measure(|init|, 5 * |init|, 1, TotalBytes(init)), Measure(1, 5, 1, last.Size()));
    }
  }

  lemma NestedMeasures(f: Field, braces: bool, entries: seq<ManifestJson.Entry>, m: Measure)
    requires f != Data && Measures(braces, entries, m) && m.count <= ManifestJson.MaximumEntries(braces)
    ensures Measures(true, [Nested(f, braces, entries)], Measure(1, m.values + 1, m.nesting + 1, m.bytes))
  {
    OnlyData(f);
    MeasuresSingle(true, Nested(f, braces, entries), m.values + 1, m.nesting + 1, m.bytes);
  }

  lemma PayloadsAreNotData()
    ensures forall name <- PAYLOADS :: !ManifestJson.IsData(name)
  {
  }

  lemma ThreeMeasure(first: seq<ManifestJson.Entry>, digests: seq<ManifestJson.Entry>, third: seq<ManifestJson.Entry>,
                     n: nat)
    requires Measures(true, first, Measure(n, n, 0, 0)) && Measures(true, digests, Measure(5, 5, 0, 0))
    requires Measures(true, third, Measure(2, 2, 0, 0))
    ensures Measures(true, first + [Nested(Files, true, digests)] + third, Measure(n + 3, n + 8, 1, 0))
  {
    var second := [Nested(Files, true, digests)];
    NestedMeasures(Files, true, digests, Measure(5, 5, 0, 0));
    MeasuresAppend(true, first, second, Measure(n, n, 0, 0), Measure(1, 6, 1, 0));
    MeasuresAppend(true, first + second, third, Measure(n + 1, n + 6, 1, 0), Measure(2, 2, 0, 0));
  }

  lemma FieldsMeasure(scalars: Scalars, m: Manifest, n: nat)
    requires n == |Header(scalars, m)|
    ensures Measures(true, Fields(scalars, m), Measure(n + 3, n + 8, 1, 0))
  {
    PlainsMeasure(Header(scalars, m));
    PayloadsAreNotData();
    DigestsMeasure(m, PAYLOADS);
    PlainsMeasure(Accounting(scalars, m));
    ThreeMeasure(PlainEntries(Header(scalars, m)), DigestEntries(m, PAYLOADS), PlainEntries(Accounting(scalars, m)), n);
  }

  lemma MeasuredIsDocument(entries: seq<ManifestJson.Entry>, m: Measure)
    requires Measures(true, entries, m) && m.count <= 32
    requires m.values < ManifestJson.MAXIMUM_VALUES && m.nesting < ManifestJson.MAXIMUM_NESTING
             && m.bytes <= ManifestJson.MAXIMUM_DATA
    ensures var v := ManifestJson.Collection(true, entries); ManifestJson.IsDocument(v, ManifestJson.Tokens(v))
  {
  }

  lemma AllMeasure(fields: seq<ManifestJson.Entry>, entries: seq<ManifestJson.Entry>, n: nat, k: nat, bytes: nat)
    requires Measures(true, fields, Measure(n + 3, n + 8, 1, 0)) && n <= 18
    requires Measures(false, entries, Measure(k, 5 * k, 1, bytes)) && k <= MAXIMUM_ENTRIES && bytes <= MAXIMUM_BYTES
    ensures var v := ManifestJson.Collection(true, fields + [Nested(AdministrativeEntries, false, entries)]);
            ManifestJson.IsDocument(v, ManifestJson.Tokens(v))
  {
    NestedMeasures(AdministrativeEntries, false, entries, Measure(k, 5 * k, 1, bytes));
    MeasuresAppend(true, fields, [Nested(AdministrativeEntries, false, entries)], Measure(n + 3, n + 8, 1, 0),
                   Measure(1, 5 * k + 1, 2, bytes));
    MeasuredIsDocument(fields + [Nested(AdministrativeEntries, false, entries)],
                       Measure(n + 4, n + 9 + 5 * k, 2, bytes));
  }

  /** Every document that is written is within the limits that are checked when it is read. */
  lemma DocumentWithinLimits(scalars: Scalars, m: Manifest)
    requires |m.administrativeEntries| <= MAXIMUM_ENTRIES && TotalBytes(m.administrativeEntries) <= MAXIMUM_BYTES
    ensures ManifestJson.IsDocument(Document(scalars, m), ManifestJson.Tokens(Document(scalars, m)))
  {
    FieldsMeasure(scalars, m, |Header(scalars, m)|);
    EntriesMeasure(scalars, m.administrativeEntries);
    AllMeasure(Fields(scalars, m), EntryValues(scalars, m.administrativeEntries), |Header(scalars, m)|,
               |m.administrativeEntries|, TotalBytes(m.administrativeEntries));
  }

  // ---------------------------------------------------------------- encoding and decoding

  /** The checks of single fields, which do not look at the entries. */
  datatype Rules = Rules(letters: Letters, fields: Manifest -> bool, digest: string -> bool)

  /** What the checks of single fields see: the time in UTC, and neither payload digests nor entries. */
  function Bare(m: Manifest): Manifest {
    m.(createdAt := m.createdAt.Utc(), files := map[], administrativeEntries := [])
  }

  predicate DigestsValid(rules: Rules, m: Manifest) {
    |m.files| == |PAYLOADS| && forall name <- PAYLOADS :: name in m.files && rules.digest(m.files[name])
  }

  ghost predicate ValidManifest(rules: Rules, m: Manifest) {
    && |m.administrativeEntries| <= MAXIMUM_ENTRIES && rules.fields(Bare(m)) && DigestsValid(rules, m)
    && WellShaped(rules.letters, m.administrativeEntries)
  }

  /** The JSON library: how it writes and reads manifests, and the tokens it finds in a text. */
  datatype Json = Json(scalars: Scalars, marshal: Manifest -> Bytes, unmarshal: Bytes -> Option<Manifest>,
                       tokens: Bytes -> seq<ManifestJson.Token>, wellEnded: Bytes -> bool, utf8: Bytes -> bool)

  /** What is assumed of it: it writes the tokens of the document in UTF-8, and reads back what it wrote. */
  ghost predicate Writes(json: Json, m: Manifest) {
    var contents := json.marshal(m);
    && json.utf8(contents) && json.wellEnded(contents)
    && json.tokens(contents) == ManifestJson.Tokens(Document(json.scalars, m))
    && json.unmarshal(contents) == Some(m)
  }

  ghost predicate LawfulJson(rules: Rules, json: Json) {
    forall m {:trigger Writes(json, m)} ::
      ValidManifest(rules, m) && m.createdAt == m.createdAt.Utc() ==> Writes(json, m)
  }

  function PathOfEntry(e: AdminEntry): string { e.path }

  /** A manifest as it is written: the time in UTC and the entries in order of their paths. */
  function Canonical(m: Manifest): Manifest {
    m.(createdAt := m.createdAt.Utc(), administrativeEntries := Sorting.Sort(m.administrativeEntries, PathOfEntry))
  }

  lemma CanonicalTwice(m: Manifest)
    ensures Canonical(Canonical(m)) == Canonical(m)
  {
    Sorting.SortOfSorted(Sorting.Sort(m.administrativeEntries, PathOfEntry), PathOfEntry);
  }

  lemma CanonicalValid(rules: Rules, m: Manifest)
    requires ValidManifest(rules, m)
    ensures ValidManifest(rules, Canonical(m))
  {
    WellShapedPermute(rules.letters, m.administrativeEntries, Canonical(m).administrativeEntries);
    assert Bare(Canonical(m)) == Bare(m);
  }

  /** The document of a manifest, unless it is invalid or too large. */
  ghost function Encoded(rules: Rules, json: Json, m: Manifest): Option<Bytes> {
    if ValidManifest(rules, m) && |json.marshal(Canonical(m))| <= MAXIMUM_MANIFEST_BYTES
    then Some(json.marshal(Canonical(m))) else None
  }

  /** `ValidateManifest` */
  method ValidateManifest(rules: Rules, m: Manifest) returns (ok: bool)
    ensures ok <==> ValidManifest(rules, m)
  {
    if |m.administrativeEntries| > MAXIMUM_ENTRIES || !rules.fields(Bare(m)) || |m.files| != |PAYLOADS| {
      return false;
    }
    for k := 0 to |PAYLOADS|
      invariant forall i :: 0 <= i < k ==> PAYLOADS[i] in m.files && rules.digest(m.files[PAYLOADS[i]])
    {
      var name := PAYLOADS[k];
      if name !in m.files || !rules.digest(m.files[name]) {
        assert name in PAYLOADS;
        return false;
      }
    }
    ok := ValidateAdministrativeEntries(rules.letters, m.administrativeEntries);
  }

  /** `EncodeManifest` */
  method EncodeManifest(rules: Rules, json: Json, m: Manifest) returns (contents: Option<Bytes>)
    ensures contents == Encoded(rules, json, m)
  {
    var ok := ValidateManifest(rules, m);
    if !ok { return None; }
    var value := m.(createdAt := m.createdAt.Utc());
    value := value.(administrativeEntries := Sorting.Sort(value.administrativeEntries, PathOfEntry));
    var text := json.marshal(value);
    if |text| > MAXIMUM_MANIFEST_BYTES { return None; }
    contents := Some(text);
  }

  /** What was written passes all checks of the reader, and is read as the canonical manifest. */
  lemma WrittenIsRead(rules: Rules, json: Json, m: Manifest, contents: Bytes)
    requires LawfulJson(rules, json) && Encoded(rules, json, m) == Some(contents)
    ensures |contents| <= MAXIMUM_MANIFEST_BYTES && json.utf8(contents) && json.wellEnded(contents)
    ensures exists v :: ManifestJson.IsDocument(v, json.tokens(contents))
    ensures json.unmarshal(contents) == Some(Canonical(m)) && Encoded(rules, json, Canonical(m)) == Some(contents)
  {
    var value := Canonical(m);
    CanonicalValid(rules, m);
    CanonicalTwice(m);
    assert value.createdAt == value.createdAt.Utc();
    assert Writes(json, value);
    DocumentWithinLimits(json.scalars, value);
  }

  /** `DecodeManifest`: it accepts exactly the documents that are written, and returns the canonical manifest. */
  method DecodeManifest(rules: Rules, json: Json, contents: Bytes) returns (m: Option<Manifest>)
    requires LawfulJson(rules, json)
    ensures m.Some? <==> exists written :: Encoded(rules, json, written) == Some(contents)
    ensures m.Some? ==> Canonical(m.value) == m.value && Encoded(rules, json, m.value) == Some(contents)
    ensures forall written :: Encoded(rules, json, written) == Some(contents) ==> m == Some(Canonical(written))
  {
    forall written | Encoded(rules, json, written) == Some(contents)
      ensures json.utf8(contents) && json.wellEnded(contents)
              && exists v :: ManifestJson.IsDocument(v, json.tokens(contents))
      ensures json.unmarshal(contents) == Some(Canonical(written))
              && Encoded(rules, json, Canonical(written)) == Some(contents)
      ensures |contents| <= MAXIMUM_MANIFEST_BYTES
    {
      WrittenIsRead(rules, json, written, contents);
    }
    if |contents| > MAXIMUM_MANIFEST_BYTES || !json.utf8(contents) { return None; }
    var decoder := new ManifestJson.Decoder(json.tokens(contents), json.wellEnded(contents));
    var ok := ManifestJson.CheckManifestJson(decoder);
    if !ok { return None; }
    var value := json.unmarshal(contents);
    if value.None? { return None; }
    var canonical := EncodeManifest(rules, json, value.value);
    if canonical != Some(contents) { return None; }
    m := value;
  }

  /** The document tells canonical manifests apart. */
  lemma EncodingInjective(rules: Rules, json: Json, a: Manifest, b: Manifest)
    requires LawfulJson(rules, json) && Encoded(rules, json, a).Some?
             && Encoded(rules, json, a) == Encoded(rules, json, b)
    ensures Canonical(a) == Canonical(b)
  {
    WrittenIsRead(rules, json, a, Encoded(rules, json, a).value);
    WrittenIsRead(rules, json, b, Encoded(rules, json, b).value);
  }
}
