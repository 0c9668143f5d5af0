/** Slash-separated paths, their components, and the character tables the source takes from Unicode. */
module Paths {

  /** The two Unicode tables in use: simple folding to the least member of an orbit, and upper-casing. */
  datatype Letters = Letters(fold: char -> char, upper: char -> char) {
    /** What is assumed of folding: it is idempotent and '/' is alone in its orbit. */
    ghost predicate Lawful() {
      && fold('/') == '/'
      && (forall c :: fold(fold(c)) == fold(c))
      && (forall c :: fold(c) == '/' ==> c == '/')
    }
  }

  function Map(f: char -> char, s: string): (r: string)
    ensures |r| == |s|
    ensures forall i :: 0 <= i < |s| ==> r[i] == f(s[i])
  {
    seq(|s|, i requires 0 <= i < |s| => f(s[i]))
  }

  lemma MapConcat(f: char -> char, a: string, b: string)
    ensures Map(f, a + b) == Map(f, a) + Map(f, b)
  {
  }

  /** `foldAdministrativePath` */
  function Fold(letters: Letters, s: string): string {
    Map(letters.fold, s)
  }

  /** `strings.EqualFold` */
  predicate EqualFold(letters: Letters, a: string, b: string) {
    Fold(letters, a) == Fold(letters, b)
  }

  function Utf8Length(s: string): nat {
    if s == "" then 0
    else
      var c := s[0] as int;
      (if c < 0x80 then 1 else if c < 0x800 then 2 else if c < 0x1_0000 then 3 else 4) + Utf8Length(s[1..])
  }

  /** Position of the first separator, or the length when there is none. */
  function Find(s: string, separator: char): (i: nat)
    ensures i <= |s|
    ensures i < |s| ==> s[i] == separator
    ensures separator !in s[..i]
  {
    if s == "" || s[0] == separator then 0
    else
      var i := Find(s[1..], separator) + 1;
      assert s[..i] == [s[0]] + s[1..][..i - 1];
      i
  }

  /** `strings.Split` at one character. */
  function Split(s: string, separator: char): (parts: seq<string>)
    ensures |parts| > 0
    ensures forall i :: 0 <= i < |parts| ==> separator !in parts[i]
    decreases |s|
  {
    var i := Find(s, separator);
    if i == |s| then
      assert s[..i] == s;
      [s]
    else [s[..i]] + Split(s[i + 1..], separator)
  }

  function Join(parts: seq<string>, separator: char): string {
    if parts == [] then ""
    else if |parts| == 1 then parts[0]
    else parts[0] + [separator] + Join(parts[1..], separator)
  }

  lemma {:induction false} JoinSplit(s: string, separator: char)
    ensures Join(Split(s, separator), separator) == s
    decreases |s|
  {
    var i := Find(s, separator);
    if i < |s| {
      JoinSplit(s[i + 1..], separator);
      assert Split(s, separator)[1..] == Split(s[i + 1..], separator);
      assert s == s[..i] + [separator] + s[i + 1..];
    }
  }

  lemma {:induction false} FindAfter(prefix: string, rest: string, separator: char)
    requires separator !in prefix
    requires rest == "" || rest[0] == separator
    ensures Find(prefix + rest, separator) == |prefix|
  {
    if prefix == "" {
      assert prefix + rest == rest;
    } else {
      assert (prefix + rest)[1..] == prefix[1..] + rest;
      FindAfter(prefix[1..], rest, separator);
    }
  }

  lemma SplitFirst(first: string, rest: string, separator: char)
    requires separator !in first
    ensures Split(first + [separator] + rest, separator) == [first] + Split(rest, separator)
  {
    var s := first + [separator] + rest;
    FindAfter(first, [separator] + rest, separator);
    assert s == first + ([separator] + rest);
    assert s[..|first|] == first && s[|first| + 1..] == rest;
  }

  lemma SplitWhole(s: string, separator: char)
    requires separator !in s
    ensures Split(s, separator) == [s]
  {
    FindAfter(s, "", separator);
    assert s + "" == s;
  }

  lemma {:induction false} SplitJoin(parts: seq<string>, separator: char)
    requires |parts| > 0
    requires forall i :: 0 <= i < |parts| ==> separator !in parts[i]
    ensures Split(Join(parts, separator), separator) == parts
  {
    if |parts| == 1 {
      SplitWhole(parts[0], separator);
    } else {
      SplitJoin(parts[1..], separator);
      SplitFirst(parts[0], Join(parts[1..], separator), separator);
      assert parts == [parts[0]] + parts[1..];
    }
  }

  /** `path.Dir` of a clean relative path. */
  function Parent(path: string): string {
    var parts := Split(path, '/');
    if |parts| == 1 then "." else Join(parts[..|parts| - 1], '/')
  }

  /** `fs.ValidPath` */
  predicate ValidPath(path: string) {
    || path == "."
    || (forall part <- Split(path, '/') :: part != "" && part != "." && part != "..")
  }

  /** An absolute path without NUL that `filepath.Clean` leaves alone. */
  predicate CanonicalAbsolute(path: string) {
    && path != "" && path[0] == '/'
    && '\0' !in path
    && (path == "/" || forall part <- Split(path[1..], '/') :: part != "" && part != "." && part != "..")
  }

  /** Position of the last slash of an absolute path. */
  function LastSlash(path: string): (i: nat)
    requires path != "" && path[0] == '/'
    ensures i < |path| && path[i] == '/' && '/' !in path[i + 1..]
    decreases |path|
  {
    if path[|path| - 1] == '/' then |path| - 1
    else
      var i := LastSlash(path[..|path| - 1]);
      assert path[i + 1..] == path[..|path| - 1][i + 1..] + [path[|path| - 1]];
      i
  }

  /** `filepath.Dir` of a canonical absolute path. */
  function Directory(path: string): string
    requires path != "" && path[0] == '/'
  {
    var i := LastSlash(path);
    if i == 0 then "/" else path[..i]
  }

  /** `filepath.Base` of a canonical absolute path other than the root. */
  function Base(path: string): string
    requires path != "" && path[0] == '/'
  {
    path[LastSlash(path) + 1..]
  }

  lemma DirectoryAbsolute(path: string)
    requires path != "" && path[0] == '/'
    ensures Directory(path) != "" && Directory(path)[0] == '/'
  {
  }
}
